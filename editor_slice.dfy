/**
 * The editor's state slice: the document content, the tag list, the file
 * name, the last-saved timestamp and the modified flag, with the seven
 * reducers that update them in place.
 */
module EditorSlice {
  import opened Wrappers
  import opened Sequences
  import opened SlateRange

  /** A run of text with optional formatting marks. */
  datatype CustomText = CustomText(
    text: string,
    bold: Option<bool>,
    italic: Option<bool>,
    underline: Option<bool>,
    code: Option<bool>,
    color: Option<string>)

  /** A run that carries only its text. */
  function PlainRun(text: string): CustomText {
    CustomText(text, None, None, None, None, None)
  }

  type HeadingLevel = n: int | 1 <= n <= 6 witness 1

  /** The block element types: paragraph, heading and list item. */
  datatype CustomElement =
    | Paragraph(children: seq<CustomText>)
    | Heading(level: HeadingLevel, children: seq<CustomText>)
    | ListItem(children: seq<CustomText>)

  /** A node of the document: a block element or a bare text run. */
  datatype CustomDescendant = Block(element: CustomElement) | Run(run: CustomText)

  /** A comment attached to a captured selection, shown in a highlight colour. */
  datatype Tag = Tag(id: string, content: string, selection: Range, color: string)

  datatype EditorState = EditorState(
    content: seq<CustomDescendant>,
    tags: seq<Tag>,
    fileName: Option<string>,
    lastSaved: Option<string>,
    isModified: bool)

  const WelcomeText: string := "Welcome to the Text Editor. Open a file or start typing..."

  const InitialContent: seq<CustomDescendant> := [Block(Paragraph([PlainRun(WelcomeText)]))]

  /** The state of a new session and of a reset one. */
  const InitialState: EditorState := EditorState(InitialContent, [], None, None, false)

  /** The test `tag => tag.id === id`. */
  function HasId(id: string): Tag -> bool {
    (t: Tag) => t.id == id
  }

  /** The test `tag => tag.id !== id`. */
  function LacksId(id: string): Tag -> bool {
    (t: Tag) => t.id != id
  }

  /**
   * The tag list after giving the first tag with `id` the comment `content`:
   * only that tag's comment changes, and nothing changes when no tag has `id`.
   */
  function UpdateTagContent(tags: seq<Tag>, id: string, content: string): (r: seq<Tag>)
    ensures match FindIndex(tags, HasId(id))
      case None => r == tags
      case Some(i) => r == tags[i := tags[i].(content := content)]
  {
    if tags == [] then []
    else if tags[0].id == id then [tags[0].(content := content)] + tags[1..]
    else [tags[0]] + UpdateTagContent(tags[1..], id, content)
  }

  /** Updating a comment keeps every tag's id, selection and colour, and the order. */
  lemma UpdateKeepsIdentity(tags: seq<Tag>, id: string, content: string)
    ensures var r := UpdateTagContent(tags, id, content);
      |r| == |tags| &&
      forall k :: 0 <= k < |r| ==> r[k].(content := tags[k].content) == tags[k]
  {
  }

  /**
   * Removing by id leaves exactly the tags with another id, each as often as
   * before and in the original order, so no tag with that id remains.
   */
  lemma {:induction false} RemoveTagSpec(tags: seq<Tag>, id: string)
    ensures var r := Filter(tags, LacksId(id));
      && (forall k :: 0 <= k < |r| ==> r[k].id != id)
      && IsSubsequence(r, tags)
      && (forall t :: multiset(r)[t] == if t.id == id then 0 else multiset(tags)[t])
  {
    FilterIsSubsequence(tags, LacksId(id));
    FilterMultiset(tags, LacksId(id));
  }

  /** With no tag carrying `id`, removing it leaves the list as it was. */
  lemma RemoveUnknownIdKeepsTags(tags: seq<Tag>, id: string)
    requires FindIndex(tags, HasId(id)).None?
    ensures Filter(tags, LacksId(id)) == tags
  {
  }

  /** No two tags share an id, which the fresh ids of new tags maintain. */
  predicate UniqueIds(tags: seq<Tag>) {
    forall i, j :: 0 <= i < j < |tags| ==> tags[i].id != tags[j].id
  }

  /** Adding a tag whose id no tag has keeps the ids unique. */
  lemma AddFreshKeepsUniqueIds(tags: seq<Tag>, tag: Tag)
    ensures UniqueIds(tags) && FindIndex(tags, HasId(tag.id)).None? ==> UniqueIds(tags + [tag])
  {
  }

  /** Updating a comment keeps the ids unique. */
  lemma UpdateKeepsUniqueIds(tags: seq<Tag>, id: string, content: string)
    requires UniqueIds(tags)
    ensures UniqueIds(UpdateTagContent(tags, id, content))
  {
  }

  /**
   * With unique ids, the `filter` in removeTag deletes exactly the one tag
   * that `find` in updateTag would locate.
   */
  lemma {:induction false} RemoveDeletesFoundTag(tags: seq<Tag>, id: string)
    requires UniqueIds(tags)
    ensures match FindIndex(tags, HasId(id))
      case None => Filter(tags, LacksId(id)) == tags
      case Some(i) => Filter(tags, LacksId(id)) == tags[..i] + tags[i + 1..]
  {
    match FindIndex(tags, HasId(id))
    case None =>
      RemoveUnknownIdKeepsTags(tags, id);
    case Some(i) =>
      var before, after := tags[..i], tags[i + 1..];
      assert tags == before + ([tags[i]] + after);
      FilterAppend(before, [tags[i]] + after, LacksId(id));
      FilterAppend([tags[i]], after, LacksId(id));
      FilterKeepsAll(before, LacksId(id));
      FilterKeepsAll(after, LacksId(id));
      assert Filter([tags[i]], LacksId(id)) == [];
  }

  /** Removing by id keeps the ids unique. */
  lemma RemoveKeepsUniqueIds(tags: seq<Tag>, id: string)
    requires UniqueIds(tags)
    ensures UniqueIds(Filter(tags, LacksId(id)))
  {
  }

  /** The store holding the one editor state; each reducer is a method. */
  class EditorStore {
    var content: seq<CustomDescendant>
    var tags: seq<Tag>
    var fileName: Option<string>
    var lastSaved: Option<string>
    var isModified: bool

    /** The whole state as one value. */
    function State(): EditorState
      reads this
    {
      EditorState(content, tags, fileName, lastSaved, isModified)
    }

    /** A store created with `initialState`. */
    constructor ()
      ensures State() == InitialState
    {
      content := InitialContent;
      tags := [];
      fileName := None;
      lastSaved := None;
      isModified := false;
    }

    /** `setContent`: replace the document and mark the state modified. */
    method SetContent(payload: seq<CustomDescendant>)
      modifies this
      ensures content == payload && isModified
      ensures tags == old(tags) && fileName == old(fileName) && lastSaved == old(lastSaved)
    {
      content := payload;
      isModified := true;
    }

    /** `addTag`: append the tag after all existing ones and mark the state modified. */
    method AddTag(tag: Tag)
      modifies this
      ensures tags == old(tags) + [tag] && isModified
      ensures content == old(content) && fileName == old(fileName) && lastSaved == old(lastSaved)
    {
      tags := tags + [tag];
      isModified := true;
    }

    /**
     * `updateTag`: give the first tag with `id` the new comment and mark the
     * state modified; with no such tag, nothing changes at all.
     */
    method UpdateTag(id: string, newContent: string)
      modifies this
      ensures tags == UpdateTagContent(old(tags), id, newContent)
      ensures match FindIndex(old(tags), HasId(id))
        case None => State() == old(State())
        case Some(i) =>
          && tags == old(tags)[i := old(tags)[i].(content := newContent)]
          && isModified
          && content == old(content) && fileName == old(fileName) && lastSaved == old(lastSaved)
    {
      var found := FindIndex(tags, HasId(id));
      if found.Some? {
        var i := found.value;
        tags := tags[i := tags[i].(content := newContent)];
        isModified := true;
      }
    }

    /**
     * `removeTag`: keep only the tags whose id differs, and mark the state
     * modified even when no tag had the id.
     */
    method RemoveTag(id: string)
      modifies this
      ensures tags == Filter(old(tags), LacksId(id)) && isModified
      ensures content == old(content) && fileName == old(fileName) && lastSaved == old(lastSaved)
    {
      tags := Filter(tags, LacksId(id));
      isModified := true;
    }

    /** `setFileName`: change the file name only; the modified flag is left alone. */
    method SetFileName(name: Option<string>)
      modifies this
      ensures fileName == name
      ensures content == old(content) && tags == old(tags)
      ensures lastSaved == old(lastSaved) && isModified == old(isModified)
    {
      fileName := name;
    }

    /** `saveChanges`: record the save time `now` and clear the modified flag. */
    method SaveChanges(now: string)
      modifies this
      ensures lastSaved == Some(now) && !isModified
      ensures content == old(content) && tags == old(tags) && fileName == old(fileName)
    {
      lastSaved := Some(now);
      isModified := false;
    }

    /** `resetEditor`: return to `initialState` from any state, so a second reset changes nothing. */
    method ResetEditor()
      modifies this
      ensures State() == InitialState
      ensures old(State()) == InitialState ==> State() == old(State())
    {
      content := InitialContent;
      tags := [];
      fileName := None;
      lastSaved := None;
      isModified := false;
    }
  }
}
