# Tag editor core, modelled in Dafny

This project models the core of a small rich-text tag editor. A user loads or types a
document, selects spans of text, and attaches coloured comments ("tags") to them. The
model covers three pieces:

- **The editor state slice** (`EditorSlice`). The state holds the document content, the
  tag list, the file name, the last-saved timestamp and the modified flag. The seven
  reducers are methods of the class `EditorStore`, which updates these fields in place:
  `setContent`, `addTag`, `updateTag`, `removeTag`, `setFileName`, `saveChanges` and
  `resetEditor`. Pure functions on the tag list specify them: `UpdateTagContent`, proved
  against `find`, and `Filter`, the model of `filter`. Lemmas show what the reducers
  promise and that they keep tag ids unique.
- **The editor component** (`TextEditor`). `addTagToSelection` creates a tag only on a
  selection that exists and is not collapsed. `renderLeaf` picks the tags that apply to a
  text leaf, colours the leaf with the first one's colour, and lists their ids joined by
  commas.
- **The toolbar** (`EditorToolbar`). A loaded file becomes one paragraph per line, and
  this conversion loses nothing. The tag dialog forwards a comment only when its trimmed
  text is non-empty. The Add Tag trigger is disabled exactly when no tag could be created.

Supporting modules model the library operations the core uses. `Sequences` holds
`find` and `filter`. `Strings` holds JavaScript's `split`, `join` and `trim`, with the
ECMAScript whitespace set. `SlateRange` holds Slate's points, ranges and `Range.isCollapsed`.

Behaviour kept as the code has it:

- `removeTag` marks the state modified even when no tag has the id.
- `updateTag` with an unknown id changes nothing, not even the modified flag.
- `handleAddTag` clears the comment and closes the dialog even when `addTagToSelection`
  then drops the tag because the selection has become collapsed.
- A file is always loaded as plain lines. There is no heading, list-item, JSON or HTML
  parsing, and an empty line becomes an empty run, not a single space.
- The new-document state is one paragraph with a welcome sentence.

## Model

| member | source | states |
|---|---|---|
| Sequences.FindIndex | src/store/editorSlice.ts:83 | `find` locates the first element that passes the test; None exactly when no element passes |
| Sequences.Filter | src/store/editorSlice.ts:90 | every kept element passes the test and comes from the input; every passing input element is kept |
| Sequences.FilterIsSubsequence | src/components/TextEditor/TextEditor.tsx:72-84 | `filter` keeps the input's order: its result is a subsequence of the input |
| Sequences.FilterMultiset | src/store/editorSlice.ts:90 | `filter` keeps each passing element exactly as often as it occurs, and no failing element |
| Sequences.FilterAppend | src/store/editorSlice.ts:90 | filtering a concatenation is the concatenation of the filtered parts |
| Sequences.FilterKeepsAll | src/store/editorSlice.ts:90 | when every element passes, `filter` returns its input unchanged |
| Sequences.FilterHeadIsFound | src/components/TextEditor/TextEditor.tsx:86-88 | the first element `filter` yields is the one `find` locates; `filter` yields nothing exactly when `find` finds nothing |
| Strings.Split | src/components/TextEditor/EditorToolbar.tsx:46 | `split` yields at least one piece, and no piece contains the separator |
| Strings.SplitCount | src/components/TextEditor/EditorToolbar.tsx:46 | `split` yields exactly one piece more than the separator occurs |
| Strings.Join | src/components/TextEditor/TextEditor.tsx:98 | `join` starts with the first piece, and gives the empty string exactly when there are no pieces or one empty piece; JoinSplit and SplitJoin tie it to `split` |
| Strings.JoinSplit | src/components/TextEditor/EditorToolbar.tsx:46 | joining the pieces of a split with the same separator gives back the original string |
| Strings.SplitPrefix | src/components/TextEditor/EditorToolbar.tsx:46 | text without the separator that comes before more text joins the first piece of that text's split |
| Strings.SplitJoin | src/components/TextEditor/TextEditor.tsx:98 | splitting a join gives back the pieces, if there is at least one piece and none contains the separator |
| Strings.TrimStart | src/components/TextEditor/EditorToolbar.tsx:28 | the result is a suffix of the input; everything removed is whitespace; the result does not start with whitespace |
| Strings.TrimEnd | src/components/TextEditor/EditorToolbar.tsx:28 | the result is a prefix of the input; everything removed is whitespace; the result does not end with whitespace |
| Strings.Trim | src/components/TextEditor/EditorToolbar.tsx:28 | `trim()` returns a contiguous part of the input with only whitespace before and after it, and with no whitespace at either of its own ends |
| Strings.TrimEmptyIff | src/components/TextEditor/EditorToolbar.tsx:28 | `trim()` gives the empty string exactly when every character is whitespace |
| SlateRange.IsCollapsed | src/components/TextEditor/TextEditor.tsx:56 | no contract of its own: `Range.isCollapsed` compares offsets and paths element by element; CollapsedIffSamePoint states what it means |
| SlateRange.CollapsedIffSamePoint | src/components/TextEditor/TextEditor.tsx:56 | `Range.isCollapsed` (equal offsets, element-wise equal paths) holds exactly when anchor and focus are the same point |
| EditorSlice.HasId | src/store/editorSlice.ts:83 | no contract of its own: the `find` callback `tag => tag.id === id`; UpdateTagContent and RemoveDeletesFoundTag state what `find` with it locates |
| EditorSlice.LacksId | src/store/editorSlice.ts:90 | no contract of its own: the `filter` callback `tag => tag.id !== id`; RemoveTagSpec and RemoveDeletesFoundTag state what `filter` with it keeps |
| EditorSlice.UpdateTagContent | src/store/editorSlice.ts:81-88 | the walk that changes the first tag with the id equals replacing the comment of the tag `find` locates; with no such tag the list is unchanged |
| EditorSlice.UpdateKeepsIdentity | src/store/editorSlice.ts:81-88 | updating keeps the list's length and order and every tag's id, selection and colour; only comments may differ |
| EditorSlice.RemoveTagSpec | src/store/editorSlice.ts:89-92 | removal leaves no tag with the id; the rest stay in order, each as often as before |
| EditorSlice.RemoveUnknownIdKeepsTags | src/store/editorSlice.ts:89-92 | removing an id that no tag has leaves the tag list as it was |
| EditorSlice.AddFreshKeepsUniqueIds | src/store/editorSlice.ts:77-80 | appending a tag with an unused id keeps tag ids unique |
| EditorSlice.UpdateKeepsUniqueIds | src/store/editorSlice.ts:81-88 | updating a comment keeps tag ids unique |
| EditorSlice.RemoveDeletesFoundTag | src/store/editorSlice.ts:89-92 | with unique ids, removal deletes exactly the one tag `find` locates, or nothing when there is none |
| EditorSlice.RemoveKeepsUniqueIds | src/store/editorSlice.ts:89-92 | removing by id keeps tag ids unique |
| EditorSlice.EditorStore.constructor | src/store/editorSlice.ts:54-67 | a new store holds `initialState`: the welcome paragraph, no tags, no file name, never saved, not modified |
| EditorSlice.EditorStore.SetContent | src/store/editorSlice.ts:73-76 | the content becomes the payload and the state is modified; tags, file name and last-saved stay the same |
| EditorSlice.EditorStore.AddTag | src/store/editorSlice.ts:77-80 | the tag is appended after all earlier tags, which stay the same and in order; the state is modified; nothing else changes |
| EditorSlice.EditorStore.UpdateTag | src/store/editorSlice.ts:81-88 | with a known id, only the comment of the first tag with it changes and the state is modified; with an unknown id the whole state, modified flag included, is unchanged |
| EditorSlice.EditorStore.RemoveTag | src/store/editorSlice.ts:89-92 | the tags become the old tags without those with the id, and the state is modified even when none had it; nothing else changes |
| EditorSlice.EditorStore.SetFileName | src/store/editorSlice.ts:93-95 | only the file name changes; the modified flag is untouched |
| EditorSlice.EditorStore.SaveChanges | src/store/editorSlice.ts:96-99 | last-saved becomes the given timestamp (not null) and the state is no longer modified; content, tags and file name stay the same |
| EditorSlice.EditorStore.ResetEditor | src/store/editorSlice.ts:100-106 | from any state, the state equals `initialState`; a reset of a reset state changes nothing |
| TextEditor.CanTagSelection | src/components/TextEditor/TextEditor.tsx:56 | the guard holds exactly when there is a selection and its anchor and focus are different points |
| TextEditor.NewTag | src/components/TextEditor/TextEditor.tsx:55-62 | a tag is built exactly when there is a selection whose anchor and focus differ; it carries that selection, the comment, the fresh id, and the given colour or `#FFE58F` |
| TextEditor.Covers | src/components/TextEditor/TextEditor.tsx:72-84 | no contract of its own: the `filter` callback, true when `rangeIncludes` returned true and false when it returned false or threw; MatchingTagsSpec states it |
| TextEditor.MatchingTags | src/components/TextEditor/TextEditor.tsx:72-84 | no contract of its own: `tags.filter` with that callback; MatchingTagsSpec states its result |
| TextEditor.MatchingTagsSpec | src/components/TextEditor/TextEditor.tsx:72-84 | the matching tags are a subsequence of the tag list in its order; each one's check returned true; a tag whose check threw is excluded; each covered tag is kept as often as it occurs |
| TextEditor.RenderLeaf | src/components/TextEditor/TextEditor.tsx:86-112 | a leaf stays plain exactly when no tag covers it; otherwise its colour is that of the first covering tag in tag-list order |
| TextEditor.TagIdsRoundTrip | src/components/TextEditor/TextEditor.tsx:98 | the `data-tag-id` attribute, split at commas, is the matching tags' ids in matching order, when no id contains a comma |
| TextEditor.TextEditor.constructor | src/components/TextEditor/TextEditor.tsx:18 | the component starts with no selection and is bound to the store |
| TextEditor.TextEditor.HandleChange | src/components/TextEditor/TextEditor.tsx:47-49 | an edited document is stored as the content and marks the state modified |
| TextEditor.TextEditor.HandleSelectionChange | src/components/TextEditor/TextEditor.tsx:51-53 | the component remembers the new selection |
| TextEditor.TextEditor.AddTagToSelection | src/components/TextEditor/TextEditor.tsx:55-65 | on a non-null, non-collapsed selection, exactly the new tag is appended; otherwise the store is unchanged; with a fresh id, ids stay unique |
| EditorToolbar.LoadedParagraphs | src/components/TextEditor/EditorToolbar.tsx:46-49 | a file gives one block more than it has line feeds; every block is a paragraph with exactly one plain run, and no run contains a line feed |
| EditorToolbar.LoadRoundTrip | src/components/TextEditor/EditorToolbar.tsx:46-49 | joining the loaded paragraphs' texts with line feeds gives back the file content exactly |
| EditorToolbar.ShouldForward | src/components/TextEditor/EditorToolbar.tsx:28 | the trimmed comment is non-empty exactly when the comment has a non-whitespace character |
| EditorToolbar.AddTagDisabled | src/components/TextEditor/EditorToolbar.tsx:88 | no contract of its own: disabled when there is no selection or it is collapsed; DisabledIffNoTag states it |
| EditorToolbar.DisabledIffNoTag | src/components/TextEditor/EditorToolbar.tsx:88 | the Add Tag trigger is disabled exactly when `addTagToSelection` would create no tag for that selection |
| EditorToolbar.EditorToolbar.constructor | src/components/TextEditor/EditorToolbar.tsx:23-25 | the dialog starts closed, with an empty comment and the colour `#FFE58F` |
| EditorToolbar.EditorToolbar.EditComment | src/components/TextEditor/EditorToolbar.tsx:103 | typing sets the comment and nothing else |
| EditorToolbar.EditorToolbar.PickColor | src/components/TextEditor/EditorToolbar.tsx:117 | choosing a colour sets the colour and nothing else |
| EditorToolbar.EditorToolbar.SetTagDialogOpen | src/components/TextEditor/EditorToolbar.tsx:82 | opening or closing the dialog sets only its open flag |
| EditorToolbar.EditorToolbar.HandleAddTag | src/components/TextEditor/EditorToolbar.tsx:27-33 | with a non-blank comment, the untrimmed comment and current colour go to `addTagToSelection`, then the comment is cleared and the dialog closed; with a blank comment nothing changes |
| EditorToolbar.EditorToolbar.OnFileRead | src/components/TextEditor/EditorToolbar.tsx:40-56 | a file's text becomes the loaded paragraphs, then the file name is set and the state is modified; with no text read the state is unchanged |
| EditorToolbar.EditorToolbar.HandleNew | src/components/TextEditor/EditorToolbar.tsx:139 | the New button puts the store back in `initialState` |

## Left out

- The auto-save effect (src/components/TextEditor/TextEditor.tsx:37-45) is not modelled. It is a 5-second `setTimeout` debounce. When it fires, its only effect is `saveChanges`, which `EditorStore.SaveChanges` models.
- The effect that copies the store's content into the Slate editor (src/components/TextEditor/TextEditor.tsx:21-34) is not modelled. It is Slate editor plumbing.
- `Editor.rangeIncludes` belongs to the Slate library and is a parameter, `Range -> Outcome`, that returns a boolean or throws. The source passes it `props.leaf.offset`, which leaves do not define. What the call then does depends on Slate's code, which is not part of this model, so the model states the matching rule for any outcome of the check.
- Range order, `Range.edges` and range containment are not modelled. They happen inside `rangeIncludes`.
- `uuidv4()` is the `freshId` parameter, and `new Date().toISOString()` is the `now` parameter of `SaveChanges`. Uniqueness of ids is stated for a fresh id.
- `FileReader`, `readAsText`, the `if (!file) return` guard and clearing the file input (src/components/TextEditor/EditorToolbar.tsx:35-39, 57-60) are I/O. The model starts at the reader's `onload` callback, and its `result` is an `Option<string>`.
- Rendering, class names, styles, the hover tooltip that lists the matching tags' comments, the Tag list panel (src/components/TextEditor/TagList.tsx) and the page wiring (src/pages/Index.tsx) are not modelled.
- Path indexes and offsets are natural numbers. The source types them as `number`.
- The cast `action.payload as CustomDescendant[]` in `setContent` does not check anything. The model types the payload as the document type directly.
