/**
 * The editor component: it forwards document changes to the store, tracks
 * the current selection, creates tags on a non-collapsed selection, and
 * decides for each rendered text leaf which tags highlight it.
 */
module TextEditor {
  import opened Wrappers
  import opened Sequences
  import opened Strings
  import opened SlateRange
  import opened EditorSlice

  /** The colour a tag gets when its creator names none. */
  const DefaultTagColor: string := "#FFE58F"

  /** The guard of `addTagToSelection`: there is a selection and it spans some text. */
  function CanTagSelection(selection: Option<Range>): (r: bool)
    ensures r <==> selection.Some? && selection.value.anchor != selection.value.focus
  {
    match selection
    case None => false
    case Some(sel) =>
      CollapsedIffSamePoint(sel);
      !IsCollapsed(sel)
  }

  /**
   * The tag `addTagToSelection` dispatches, if any. `freshId` stands for the
   * value `uuidv4()` returns.
   */
  function NewTag(selection: Option<Range>, tagContent: string, color: Option<string>, freshId: string): (r: Option<Tag>)
    ensures r.Some? <==> selection.Some? && !(selection.value.anchor == selection.value.focus)
    ensures r.Some? ==> r.value.id == freshId && r.value.content == tagContent
    ensures r.Some? ==> r.value.selection == selection.value
    ensures r.Some? ==> r.value.color == (if color.Some? then color.value else "#FFE58F")
  {
    match selection
    case None => None
    case Some(sel) =>
      CollapsedIffSamePoint(sel);
      if CanTagSelection(selection)
      then Some(Tag(freshId, tagContent, sel, color.GetOr(DefaultTagColor)))
      else None
  }

  /**
   * What one call of `Editor.rangeIncludes` did: it returned a boolean, or it
   * threw. The call itself belongs to the Slate library and is a parameter
   * of the model.
   */
  datatype Outcome = Returned(includes: bool) | Threw

  /** The `filter` test of `renderLeaf`: the check returned true; a throw counts as false. */
  function Covers(rangeIncludes: Range -> Outcome): Tag -> bool {
    (t: Tag) => rangeIncludes(t.selection) == Returned(true)
  }

  /** The tags that apply to a leaf, in tag-list order. */
  function MatchingTags(tags: seq<Tag>, rangeIncludes: Range -> Outcome): seq<Tag> {
    Filter(tags, Covers(rangeIncludes))
  }

  /**
   * The matching tags are the tags whose check returned true, in the order of
   * the tag list, each as often as it occurs there; a tag whose check threw
   * or returned false is never among them.
   */
  lemma {:induction false} MatchingTagsSpec(tags: seq<Tag>, rangeIncludes: Range -> Outcome)
    ensures var m := MatchingTags(tags, rangeIncludes);
      && IsSubsequence(m, tags)
      && (forall k :: 0 <= k < |m| ==> rangeIncludes(m[k].selection) == Returned(true))
      && (forall k :: 0 <= k < |tags| && rangeIncludes(tags[k].selection) == Threw ==> tags[k] !in m)
      && (forall t :: multiset(m)[t] == if rangeIncludes(t.selection) == Returned(true) then multiset(tags)[t] else 0)
  {
    FilterIsSubsequence(tags, Covers(rangeIncludes));
    FilterMultiset(tags, Covers(rangeIncludes));
  }

  /** The tags' ids, in order. */
  function Ids(tags: seq<Tag>): seq<string>
  {
    seq(|tags|, k requires 0 <= k < |tags| => tags[k].id)
  }

  /**
   * How a leaf is rendered: unhighlighted, or highlighted in one colour with
   * the `data-tag-id` attribute.
   */
  datatype LeafView = Plain | Highlighted(color: string, tagIds: string)

  /**
   * `renderLeaf`: a leaf no tag covers stays plain; otherwise it takes the
   * colour of the first covering tag in the tag list, with no blending.
   */
  function RenderLeaf(tags: seq<Tag>, rangeIncludes: Range -> Outcome): (r: LeafView)
    ensures r.Plain? <==> forall k :: 0 <= k < |tags| ==> rangeIncludes(tags[k].selection) != Returned(true)
    ensures r.Highlighted? ==>
      exists i :: (
        && 0 <= i < |tags|
        && rangeIncludes(tags[i].selection) == Returned(true)
        && r.color == tags[i].color
        && forall j :: 0 <= j < i ==> rangeIncludes(tags[j].selection) != Returned(true))
  {
    var matching := MatchingTags(tags, rangeIncludes);
    FilterHeadIsFound(tags, Covers(rangeIncludes));
    if |matching| > 0
    then Highlighted(matching[0].color, Join(Ids(matching), ','))
    else Plain
  }

  /**
   * The `data-tag-id` attribute lists the matching tags' ids in matching
   * order: split at the commas it gives back exactly those ids, provided no
   * id contains a comma (the `uuidv4` format has none).
   */
  lemma TagIdsRoundTrip(tags: seq<Tag>, rangeIncludes: Range -> Outcome)
    requires forall k :: 0 <= k < |tags| ==> ',' !in tags[k].id
    ensures var r := RenderLeaf(tags, rangeIncludes);
      r.Highlighted? ==> Split(r.tagIds, ',') == Ids(MatchingTags(tags, rangeIncludes))
  {
    var m := MatchingTags(tags, rangeIncludes);
    if m != [] {
      SplitJoin(Ids(m), ',');
    }
  }

  /** The editor component, bound to the one store. */
  class TextEditor {
    const store: EditorStore
    var selection: Option<Range>

    constructor (store: EditorStore)
      ensures this.store == store && selection == None
    {
      this.store := store;
      selection := None;
    }

    /** `handleChange`: every edit of the document is dispatched as `setContent`. */
    method HandleChange(newValue: seq<CustomDescendant>)
      modifies store
      ensures store.content == newValue && store.isModified
      ensures store.tags == old(store.tags) && store.fileName == old(store.fileName)
      ensures store.lastSaved == old(store.lastSaved)
    {
      store.SetContent(newValue);
    }

    /** `handleSelectionChange`: remember the editor's current selection. */
    method HandleSelectionChange(newSelection: Option<Range>)
      modifies this
      ensures selection == newSelection
    {
      selection := newSelection;
    }

    /**
     * `addTagToSelection`: on a non-collapsed selection, append a tag carrying
     * that selection; otherwise dispatch nothing. A fresh id keeps ids unique.
     */
    method AddTagToSelection(tagContent: string, color: Option<string>, freshId: string)
      modifies store
      ensures match NewTag(selection, tagContent, color, freshId)
        case None => store.State() == old(store.State())
        case Some(tag) =>
          && store.tags == old(store.tags) + [tag] && store.isModified
          && store.content == old(store.content) && store.fileName == old(store.fileName)
          && store.lastSaved == old(store.lastSaved)
      ensures UniqueIds(old(store.tags)) && FindIndex(old(store.tags), HasId(freshId)).None? ==>
        UniqueIds(store.tags)
    {
      var tag := NewTag(selection, tagContent, color, freshId);
      if tag.Some? {
        AddFreshKeepsUniqueIds(store.tags, tag.value);
        store.AddTag(tag.value);
      }
    }
  }
}
