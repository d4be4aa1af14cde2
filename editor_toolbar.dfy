/**
 * The toolbar: it loads a text file as one paragraph per line, collects a
 * comment and a colour for a new tag in a dialog, and starts a new document.
 */
module EditorToolbar {
  import opened Wrappers
  import opened Strings
  import opened SlateRange
  import opened EditorSlice
  import opened TextEditor

  /**
   * The document a loaded file becomes: `content.split('\n')`, each line a
   * paragraph holding one plain run with that line's text.
   */
  function LoadedParagraphs(content: string): (r: seq<CustomDescendant>)
    ensures |r| == Occurrences(content, '\n') + 1
    ensures forall k :: 0 <= k < |r| ==>
      && r[k].Block? && r[k].element.Paragraph?
      && |r[k].element.children| == 1
      && r[k].element.children[0] == PlainRun(r[k].element.children[0].text)
      && '\n' !in r[k].element.children[0].text
  {
    var lines := Split(content, '\n');
    SplitCount(content, '\n');
    seq(|lines|, k requires 0 <= k < |lines| => Block(Paragraph([PlainRun(lines[k])])))
  }

  /** The text of a run sequence: the runs' texts one after the other. */
  function RunsText(runs: seq<CustomText>): string {
    if runs == [] then [] else runs[0].text + RunsText(runs[1..])
  }

  /** The text of a top-level node. */
  function NodeText(node: CustomDescendant): string {
    match node
    case Block(e) => RunsText(e.children)
    case Run(t) => t.text
  }

  /** The text of each top-level node, in document order. */
  function NodeTexts(doc: seq<CustomDescendant>): seq<string>
  {
    seq(|doc|, k requires 0 <= k < |doc| => NodeText(doc[k]))
  }

  /**
   * Loading loses nothing: the paragraphs' texts joined with line feeds are
   * the file's content, empty lines included and nothing trimmed.
   */
  lemma LoadRoundTrip(content: string)
    ensures Join(NodeTexts(LoadedParagraphs(content)), '\n') == content
  {
    var lines := Split(content, '\n');
    var texts := NodeTexts(LoadedParagraphs(content));
    forall k | 0 <= k < |lines| ensures texts[k] == lines[k] {
      assert RunsText([PlainRun(lines[k])]) == lines[k] + RunsText([]);
    }
    assert texts == lines;
    JoinSplit(content, '\n');
  }

  /** The guard of `handleAddTag`: the trimmed comment is not empty. */
  function ShouldForward(tagContent: string): (r: bool)
    ensures r <==> exists i :: 0 <= i < |tagContent| && !IsWhitespace(tagContent[i])
  {
    TrimEmptyIff(tagContent);
    Trim(tagContent) != []
  }

  /** The `disabled` attribute of the Add Tag trigger. */
  predicate AddTagDisabled(selection: Option<Range>) {
    selection.None? || IsCollapsed(selection.value)
  }

  /**
   * The trigger is disabled exactly when `addTagToSelection` would dispatch
   * nothing for the same selection.
   */
  lemma DisabledIffNoTag(selection: Option<Range>, tagContent: string, color: Option<string>, freshId: string)
    ensures AddTagDisabled(selection) <==> NewTag(selection, tagContent, color, freshId).None?
  {
  }

  /** The toolbar component: the tag dialog's state and the editor it serves. */
  class EditorToolbar {
    const editor: TextEditor
    var tagContent: string
    var tagColor: string
    var isTagDialogOpen: bool

    constructor (editor: TextEditor)
      ensures this.editor == editor
      ensures tagContent == [] && tagColor == DefaultTagColor && !isTagDialogOpen
    {
      this.editor := editor;
      tagContent := [];
      tagColor := DefaultTagColor;
      isTagDialogOpen := false;
    }

    /** Typing in the comment field. */
    method EditComment(value: string)
      modifies this
      ensures tagContent == value
      ensures tagColor == old(tagColor) && isTagDialogOpen == old(isTagDialogOpen)
    {
      tagContent := value;
    }

    /** Picking a swatch or a colour in the colour input. */
    method PickColor(color: string)
      modifies this
      ensures tagColor == color
      ensures tagContent == old(tagContent) && isTagDialogOpen == old(isTagDialogOpen)
    {
      tagColor := color;
    }

    /** The dialog opening or closing (`onOpenChange`). */
    method SetTagDialogOpen(open: bool)
      modifies this
      ensures isTagDialogOpen == open
      ensures tagContent == old(tagContent) && tagColor == old(tagColor)
    {
      isTagDialogOpen := open;
    }

    /**
     * `handleAddTag`: when the trimmed comment is non-empty, hand the untrimmed
     * comment and the current colour to `addTagToSelection`, then clear the
     * comment and close the dialog; otherwise change nothing. The dialog
     * closes even when `addTagToSelection` then drops the tag.
     */
    method HandleAddTag(freshId: string)
      modifies this, editor.store
      ensures ShouldForward(old(tagContent)) ==> tagContent == [] && !isTagDialogOpen
      ensures !ShouldForward(old(tagContent)) ==>
        tagContent == old(tagContent) && isTagDialogOpen == old(isTagDialogOpen)
      ensures tagColor == old(tagColor)
      ensures var added :=
          if ShouldForward(old(tagContent))
          then NewTag(editor.selection, old(tagContent), Some(old(tagColor)), freshId)
          else None;
        match added
        case None => editor.store.State() == old(editor.store.State())
        case Some(tag) =>
          && editor.store.tags == old(editor.store.tags) + [tag] && editor.store.isModified
          && editor.store.content == old(editor.store.content)
          && editor.store.fileName == old(editor.store.fileName)
          && editor.store.lastSaved == old(editor.store.lastSaved)
    {
      if ShouldForward(tagContent) {
        editor.AddTagToSelection(tagContent, Some(tagColor), freshId);
        tagContent := [];
        isTagDialogOpen := false;
      }
    }

    /**
     * The file reader's `onload` callback for the chosen file `name`. `result`
     * is the text read, or None when the reader produced no string: the split
     * then throws, the catch swallows it, and nothing is dispatched.
     * Otherwise `setContent` with the loaded paragraphs is dispatched, then
     * `setFileName`.
     */
    method OnFileRead(name: string, result: Option<string>)
      modifies editor.store
      ensures match result
        case None => editor.store.State() == old(editor.store.State())
        case Some(content) =>
          && editor.store.content == LoadedParagraphs(content)
          && editor.store.fileName == Some(name) && editor.store.isModified
          && editor.store.tags == old(editor.store.tags)
          && editor.store.lastSaved == old(editor.store.lastSaved)
    {
      if result.Some? {
        var paragraphs := LoadedParagraphs(result.value);
        editor.store.SetContent(paragraphs);
        editor.store.SetFileName(Some(name));
      }
    }

    /** The New button: reset the editor to its initial state. */
    method HandleNew()
      modifies editor.store
      ensures editor.store.State() == InitialState
    {
      editor.store.ResetEditor();
    }
  }
}
