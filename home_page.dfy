/** The home page's list logic: the search/tag/type filter, the per-type counts, tag
    selection, the draft's preview and the create guard. */
module HomePage {
  import opened Text
  import ContentCard

  /** A saved item; `tags` holds the ids of its tags. */
  datatype Item = Item(title: string, link: string, kind: string, tags: seq<string>)

  /** The types of the type filter, after its leading `all`. */
  const ContentTypes: seq<string> := ["article", "youtube", "twitter", "other"]

  // ---------------------------------------------------------------------------
  // The filter

  predicate MatchesSearch(item: Item, query: string) {
    query == [] || Contains(ToLower(item.title), ToLower(query)) || Contains(ToLower(item.link), ToLower(query))
  }

  predicate MatchesTags(item: Item, selected: seq<string>) {
    |selected| == 0 || exists i | 0 <= i < |selected| :: selected[i] in item.tags
  }

  predicate MatchesType(item: Item, selectedType: string) {
    selectedType == "all" || item.kind == selectedType
  }

  predicate Keep(item: Item, query: string, selected: seq<string>, selectedType: string) {
    MatchesSearch(item, query) && MatchesTags(item, selected) && MatchesType(item, selectedType)
  }

  /** `filteredContent` */
  function Filtered(content: seq<Item>, query: string, selected: seq<string>, selectedType: string): (r: seq<Item>)
    ensures |r| <= |content|
    ensures forall k | 0 <= k < |r| :: Keep(r[k], query, selected, selectedType)
  {
    if content == [] then []
    else
      var rest := Filtered(content[1..], query, selected, selectedType);
      if Keep(content[0], query, selected, selectedType) then [content[0]] + rest else rest
  }

  /** The filtered list keeps the order of `content` and only drops items. */
  lemma {:induction false} FilteredIsSubsequence(content: seq<Item>, query: string, selected: seq<string>, selectedType: string)
    ensures IsSubsequence(Filtered(content, query, selected, selectedType), content)
  {
    if content != [] {
      FilteredIsSubsequence(content[1..], query, selected, selectedType);
      var rest := Filtered(content[1..], query, selected, selectedType);
      if !Keep(content[0], query, selected, selectedType) {
        SubsequenceSkip(rest, content);
      }
    }
  }

  /** An item is shown exactly when it is in the list and meets all three conditions. */
  lemma {:induction false} FilteredMembership(content: seq<Item>, query: string, selected: seq<string>, selectedType: string, x: Item)
    ensures x in Filtered(content, query, selected, selectedType) <==> x in content && Keep(x, query, selected, selectedType)
  {
    if content != [] {
      FilteredMembership(content[1..], query, selected, selectedType, x);
      assert content == [content[0]] + content[1..];
    }
  }

  /** With no search, no selected tag and type `all`, nothing is filtered out. */
  lemma {:induction false} NoFilterIsIdentity(content: seq<Item>)
    ensures Filtered(content, "", [], "all") == content
  {
    if content != [] {
      NoFilterIsIdentity(content[1..]);
      assert Keep(content[0], "", [], "all");
    }
  }

  // ---------------------------------------------------------------------------
  // The counts

  /** The number of items of one type. */
  function CountKind(content: seq<Item>, kind: string): (n: nat)
    ensures n <= |content|
  {
    if content == [] then 0
    else (if content[0].kind == kind then 1 else 0) + CountKind(content[1..], kind)
  }

  /** `getContentCounts()`: `all` is the length of the list and each type counts its items. */
  method GetContentCounts(content: seq<Item>) returns (counts: map<string, nat>)
    ensures counts.Keys == {"all"} + set t | t in ContentTypes
    ensures counts["all"] == |content|
    ensures forall t | t in ContentTypes :: counts[t] == |Filtered(content, "", [], t)|
  {
    counts := map["all" := |content|];
    for i := 0 to |ContentTypes|
      invariant counts.Keys == {"all"} + set j | 0 <= j < i :: ContentTypes[j]
      invariant counts["all"] == |content|
      invariant forall j | 0 <= j < i :: counts[ContentTypes[j]] == |Filtered(content, "", [], ContentTypes[j])|
    {
      var kind := ContentTypes[i];
      CountIsFilteredLength(content, kind);
      counts := counts[kind := CountKind(content, kind)];
    }
  }

  /** Counting the items of a type is the length of the list the type filter shows. */
  lemma {:induction false} CountIsFilteredLength(content: seq<Item>, kind: string)
    requires kind != "all"
    ensures CountKind(content, kind) == |Filtered(content, "", [], kind)|
  {
    if content != [] {
      CountIsFilteredLength(content[1..], kind);
    }
  }

  /** When every item has one of the listed types, the per-type counts add up to `all`. */
  lemma {:induction false} CountsAddUp(content: seq<Item>)
    requires forall k | 0 <= k < |content| :: content[k].kind in ContentTypes
    ensures CountKind(content, "article") + CountKind(content, "youtube") + CountKind(content, "twitter")
            + CountKind(content, "other") == |content|
  {
    if content != [] {
      CountsAddUp(content[1..]);
    }
  }

  // ---------------------------------------------------------------------------
  // Tag selection

  /** `list.filter(id => id !== x)` */
  function Without(list: seq<string>, x: string): (r: seq<string>)
    ensures x !in r
    ensures forall y | y != x :: y in r <==> y in list
    ensures |r| <= |list| && (x in list ==> |r| < |list|)
    ensures IsSubsequence(r, list)
  {
    if list == [] then []
    else
      var rest := Without(list[1..], x);
      if list[0] == x then
        SubsequenceSkip(rest, list);
        rest
      else
        assert ([list[0]] + rest)[1..] == rest;
        [list[0]] + rest
  }

  /** Every other id stays as often as it occurs. */
  lemma {:induction false} WithoutCounts(list: seq<string>, x: string, y: string)
    requires y != x
    ensures multiset(Without(list, x))[y] == multiset(list)[y]
  {
    if list != [] {
      assert list == [list[0]] + list[1..];
      WithoutCounts(list[1..], x, y);
    }
  }

  predicate NoDuplicates(list: seq<string>) {
    forall i, j | 0 <= i < j < |list| :: list[i] != list[j]
  }

  /** `toggleTag(id)` on the selection: removes every occurrence when present, appends
      otherwise. */
  function Toggle(selected: seq<string>, id: string): (r: seq<string>)
    ensures id in r <==> id !in selected
    ensures forall y | y != id :: y in r <==> y in selected
    ensures NoDuplicates(selected) ==> NoDuplicates(r)
    ensures id !in selected ==> r == selected + [id]
    ensures id in selected ==> IsSubsequence(r, selected) && |r| < |selected|
  {
    if id in selected then WithoutKeepsNoDuplicates(selected, id); Without(selected, id)
    else selected + [id]
  }

  lemma {:induction false} WithoutKeepsNoDuplicates(list: seq<string>, x: string)
    ensures NoDuplicates(list) ==> NoDuplicates(Without(list, x))
  {
    if list != [] {
      WithoutKeepsNoDuplicates(list[1..], x);
      if NoDuplicates(list) && list[0] != x {
        assert NoDuplicates(list[1..]);
        assert list[0] !in list[1..];
        assert list[0] !in Without(list[1..], x);
      }
    }
  }

  lemma {:induction false} WithoutAbsent(list: seq<string>, x: string)
    requires x !in list
    ensures Without(list, x) == list
  {
    if list != [] {
      WithoutAbsent(list[1..], x);
    }
  }

  lemma {:induction false} WithoutAppended(list: seq<string>, x: string)
    requires x !in list
    ensures Without(list + [x], x) == list
  {
    if list == [] {
      assert [] + [x] == [x];
    } else {
      assert (list + [x])[1..] == list[1..] + [x];
      WithoutAppended(list[1..], x);
    }
  }

  /** Toggling an unselected tag twice gives back the selection; toggling twice never
      changes which tags are selected. */
  lemma ToggleTwice(selected: seq<string>, id: string)
    ensures id !in selected ==> Toggle(Toggle(selected, id), id) == selected
    ensures forall y :: y in Toggle(Toggle(selected, id), id) <==> y in selected
  {
    if id !in selected {
      WithoutAppended(selected, id);
    }
  }

  // ---------------------------------------------------------------------------
  // The draft and its preview

  datatype Draft = Draft(title: string, link: string, kind: string, tags: seq<string>)

  const EmptyDraft := Draft("", "", "article", [])

  /** `toggleContentTag(id)`: only the draft's tags change. */
  function ToggleDraftTag(draft: Draft, id: string): (r: Draft)
    ensures r.title == draft.title && r.link == draft.link && r.kind == draft.kind
    ensures id in r.tags <==> id !in draft.tags
    ensures forall y | y != id :: y in r.tags <==> y in draft.tags
  {
    draft.(tags := Toggle(draft.tags, id))
  }

  datatype ContentPreview = YouTubePreview(videoId: string, embedUrl: string) | TwitterPreview(url: string) | ArticlePreview(url: string)

  /** `generatePreview(type, link)` */
  function GeneratePreview(kind: string, link: string): (r: Option<ContentPreview>)
    ensures kind == "youtube" ==> (r.None? <==> ContentCard.YouTubeId(link).None?)
    ensures kind == "youtube" && r.Some? ==>
      r.value.YouTubePreview? && Utf16Length(r.value.videoId) == 11 &&
      r.value.embedUrl == "https://www.youtube-nocookie.com/embed/" + r.value.videoId
    ensures kind == "twitter" ==> r == Some(TwitterPreview(link))
    ensures kind != "youtube" && kind != "twitter" ==> r == Some(ArticlePreview(link))
  {
    match kind
    case "youtube" =>
      (match ContentCard.YouTubeId(link)
       case None => None
       case Some(id) => Some(YouTubePreview(id, "https://www.youtube-nocookie.com/embed/" + id)))
    case "twitter" => Some(TwitterPreview(link))
    case _ => Some(ArticlePreview(link))
  }

  /** The preview effect: a preview only for a draft with a link and a type. */
  function DraftPreview(draft: Draft): (r: Option<ContentPreview>)
    ensures draft.link == [] || draft.kind == [] ==> r.None?
    ensures draft.link != [] && draft.kind != [] && draft.kind != "youtube" ==> r.Some?
  {
    if draft.link != [] && draft.kind != [] then GeneratePreview(draft.kind, draft.link) else None
  }

  /** The create guard: the title and the link must be non-blank. */
  predicate CanCreate(draft: Draft) {
    Trim(draft.title) != [] && Trim(draft.link) != []
  }

  datatype Tag = Tag(id: string, name: string, color: string)

  function TagIds(tags: seq<Tag>): seq<string> {
    seq(|tags|, (k: int) requires 0 <= k < |tags| => tags[k].id)
  }

  /** `tags.filter(tag => tag._id !== id)` */
  function WithoutTag(tags: seq<Tag>, id: string): (r: seq<Tag>)
    ensures forall k | 0 <= k < |r| :: r[k].id != id
    ensures forall t: Tag | t.id != id :: t in r <==> t in tags
    ensures IsSubsequence(r, tags)
  {
    if tags == [] then []
    else
      var rest := WithoutTag(tags[1..], id);
      if tags[0].id == id then
        SubsequenceSkip(rest, tags);
        rest
      else
        assert ([tags[0]] + rest)[1..] == rest;
        [tags[0]] + rest
  }

  /** Every tag with another id stays as often as it occurs. */
  lemma {:induction false} WithoutTagCounts(tags: seq<Tag>, id: string, t: Tag)
    requires t.id != id
    ensures multiset(WithoutTag(tags, id))[t] == multiset(tags)[t]
  {
    if tags != [] {
      assert tags == [tags[0]] + tags[1..];
      WithoutTagCounts(tags[1..], id, t);
    }
  }

  /** The page state the handlers update. */
  class Home {
    var content: seq<Item>
    var tags: seq<Tag>
    var selectedTags: seq<string>
    var newContent: Draft
    var contentPreview: Option<ContentPreview>
    var showAddModal: bool

    constructor ()
      ensures content == [] && tags == [] && selectedTags == []
      ensures newContent == EmptyDraft && contentPreview.None? && !showAddModal
    {
      content := [];
      tags := [];
      selectedTags := [];
      newContent := EmptyDraft;
      contentPreview := None;
      showAddModal := false;
    }

    method ToggleTag(id: string)
      modifies this`selectedTags
      ensures selectedTags == Toggle(old(selectedTags), id)
    {
      selectedTags := Toggle(selectedTags, id);
    }

    method ToggleContentTag(id: string)
      modifies this`newContent
      ensures newContent == ToggleDraftTag(old(newContent), id)
    {
      newContent := ToggleDraftTag(newContent, id);
    }

    /** `handleDeleteTag(id)` after the server's answer: on an ok answer the tag leaves
        both the tag list and the selection; otherwise nothing changes. */
    method DeleteTag(id: string, responseOk: bool)
      modifies this`tags, this`selectedTags
      ensures responseOk ==> tags == WithoutTag(old(tags), id) && selectedTags == Without(old(selectedTags), id)
      ensures responseOk ==> id !in TagIds(tags) && id !in selectedTags
      ensures !responseOk ==> tags == old(tags) && selectedTags == old(selectedTags)
    {
      if responseOk {
        tags := WithoutTag(tags, id);
        selectedTags := Without(selectedTags, id);
      }
    }

    /** Editing the draft reruns the preview effect. */
    method SetDraft(draft: Draft)
      modifies this`newContent, this`contentPreview
      ensures newContent == draft && contentPreview == DraftPreview(draft)
    {
      newContent := draft;
      contentPreview := DraftPreview(draft);
    }

    /** `handleCreateContent()`: a blank title or link sends nothing; an ok answer resets
        the draft, clears the preview and closes the modal. */
    method CreateContent(responseOk: bool) returns (sent: bool)
      modifies this`newContent, this`contentPreview, this`showAddModal
      ensures sent == CanCreate(old(newContent))
      ensures sent && responseOk ==> newContent == EmptyDraft && contentPreview.None? && !showAddModal
      ensures !(sent && responseOk) ==>
        newContent == old(newContent) && contentPreview == old(contentPreview) && showAddModal == old(showAddModal)
    {
      if Trim(newContent.title) == [] || Trim(newContent.link) == [] {
        return false;
      }
      sent := true;
      if responseOk {
        newContent := EmptyDraft;
        contentPreview := None;
        showAddModal := false;
      }
    }
  }
}
