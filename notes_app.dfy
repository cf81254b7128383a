/** The notes front end: content truncation on a note card, the note form with its
    comma-separated tag field, the dashboard's view title and view change, and the
    session held by the auth provider. */
module NotesApp {
  import opened Text

  // ---------------------------------------------------------------------------
  // Note cards

  /** `truncateContent(content, maxLength)` (150 on a note card): content longer than
      `maxLength` UTF-16 code units is cut to its first `maxLength` units and marked
      with `...`. */
  function TruncateContent(content: string, maxLength: nat): (r: string)
    ensures Utf16Length(content) <= maxLength ==> r == content
    ensures Utf16Length(content) > maxLength ==>
      |r| >= 3 && r[|r| - 3..] == "..." && r[..|r| - 3] < content &&
      Utf16Length(r[..|r| - 3]) <= maxLength < Utf16Length(r[..|r| - 3]) + Units(content[|r| - 3])
  {
    if Utf16Length(content) > maxLength then
      var p := Utf16Prefix(content, maxLength);
      assert (p + "...")[..|p|] == p && (p + "...")[|p|..] == "...";
      p + "..."
    else content
  }

  /** On text of single code units the cut is the plain slice `content[..maxLength]`. */
  lemma TruncateBmp(content: string, maxLength: nat)
    requires Bmp(content)
    ensures TruncateContent(content, maxLength) ==
            if |content| > maxLength then content[..maxLength] + "..." else content
  {
    Utf16PrefixBmp(content, maxLength);
  }

  // ---------------------------------------------------------------------------
  // The note form

  /** Trims every piece. */
  function TrimAll(parts: seq<string>): (r: seq<string>)
    ensures |r| == |parts| && forall k | 0 <= k < |parts| :: r[k] == Trim(parts[k])
  {
    if parts == [] then [] else [Trim(parts[0])] + TrimAll(parts[1..])
  }

  /** Trimming only drops characters. */
  lemma TrimKeepsOut(s: string, c: char)
    requires c !in s
    ensures c !in Trim(s)
  {
    var r := Trim(s);
    var i := TrimOffset(s);
    forall j | 0 <= j < |r| ensures r[j] != c {
      assert r[j] == s[i + j];
    }
  }

  /** The pieces of the tag field, trimmed. */
  function TrimmedPieces(field: string): (ps: seq<string>)
    ensures forall k | 0 <= k < |ps| :: Trimmed(ps[k]) && ',' !in ps[k]
  {
    var pieces := Split(field, ',');
    forall k | 0 <= k < |pieces| ensures ',' !in Trim(pieces[k]) {
      TrimKeepsOut(pieces[k], ',');
    }
    TrimAll(pieces)
  }

  /** The tag field on submit: split on commas, trim each piece, drop the empty ones. */
  function ParseTags(field: string): (tags: seq<string>)
    ensures forall k | 0 <= k < |tags| :: tags[k] != [] && Trimmed(tags[k]) && ',' !in tags[k]
  {
    DropEmpty(TrimmedPieces(field))
  }

  /** Tags a note can carry through the form unchanged. */
  predicate WellFormedTag(t: string) {
    t != [] && Trimmed(t) && ',' !in t
  }

  /** Showing a note's tags joined by `, ` and parsing the field again gives the same
      tags back. */
  lemma ParseTagsJoin(tags: seq<string>)
    requires forall k | 0 <= k < |tags| :: WellFormedTag(tags[k])
    ensures ParseTags(Join(tags, ", ")) == tags
  {
    var field := Join(tags, ", ");
    if tags == [] {
      assert Split("", ',') == [""];
      TrimOfTrimmed("");
      assert TrimmedPieces(field) == [""];
    } else {
      PiecesOfJoin(tags);
      DropEmptyNone(tags);
    }
  }

  lemma PiecesOfJoin(tags: seq<string>)
    requires tags != []
    requires forall k | 0 <= k < |tags| :: WellFormedTag(tags[k])
    ensures TrimmedPieces(Join(tags, ", ")) == tags
  {
    SplitOfJoin(tags);
    TrimAllPieces(tags);
  }

  lemma SplitOfJoin(tags: seq<string>)
    requires tags != []
    requires forall k | 0 <= k < |tags| :: WellFormedTag(tags[k])
    ensures Split(Join(tags, ", "), ',') == [tags[0]] + Padded(" ", tags[1..])
  {
    assert [','] + " " == ", ";
    SplitJoin(tags, ',', " ");
  }

  lemma TrimAllPieces(tags: seq<string>)
    requires tags != []
    requires forall k | 0 <= k < |tags| :: WellFormedTag(tags[k])
    ensures TrimAll([tags[0]] + Padded(" ", tags[1..])) == tags
  {
    var pieces := [tags[0]] + Padded(" ", tags[1..]);
    var r := TrimAll(pieces);
    assert AllSpace(" ");
    forall k | 0 <= k < |tags| ensures r[k] == tags[k] {
      if k == 0 {
        TrimOfTrimmed(tags[0]);
      } else {
        assert pieces[k] == " " + tags[k];
        TrimPadLeft(" ", tags[k]);
      }
    }
  }

  /** A saved note as the form sees it. */
  datatype Note = Note(title: string, content: string, folder: string, tags: seq<string>, color: string, isPinned: bool)

  /** The form state; `tags` is the comma-separated text field. */
  datatype NoteForm = NoteForm(title: string, content: string, folder: string, tags: string, color: string, isPinned: bool)

  /** The form's initial state for a new note (`None`) or for editing a note. Empty
      strings fall back to the defaults, as JavaScript's `||` does. */
  function InitialForm(note: Option<Note>): (f: NoteForm)
    ensures note.None? ==> f == NoteForm("", "", "General", "", "#ffffff", false)
    ensures note.Some? ==> (f.title == note.value.title && f.content == note.value.content &&
                            f.tags == Join(note.value.tags, ", ") && f.isPinned == note.value.isPinned)
    ensures note.Some? ==> f.folder == (if note.value.folder != [] then note.value.folder else "General")
    ensures note.Some? ==> f.color == (if note.value.color != [] then note.value.color else "#ffffff")
    ensures f.folder != [] && f.color != []
  {
    match note
    case None => NoteForm("", "", "General", "", "#ffffff", false)
    case Some(n) =>
      NoteForm(n.title, n.content, if n.folder != [] then n.folder else "General", Join(n.tags, ", "),
               if n.color != [] then n.color else "#ffffff", n.isPinned)
  }

  /** The submitted note: the form with its tag field parsed. */
  function Submitted(form: NoteForm): (n: Note)
    ensures n.title == form.title && n.content == form.content && n.folder == form.folder
    ensures n.color == form.color && n.isPinned == form.isPinned
    ensures n.tags == ParseTags(form.tags)
  {
    Note(form.title, form.content, form.folder, ParseTags(form.tags), form.color, form.isPinned)
  }

  /** Opening a note in the form and submitting it untouched saves the same note,
      once its folder and color are non-empty and its tags well formed. */
  lemma EditRoundTrip(n: Note)
    requires n.folder != [] && n.color != []
    requires forall k | 0 <= k < |n.tags| :: WellFormedTag(n.tags[k])
    ensures Submitted(InitialForm(Some(n))) == n
  {
    ParseTagsJoin(n.tags);
  }

  // ---------------------------------------------------------------------------
  // The dashboard

  /** The current filters; an absent folder is "" and absent tags are `[]`. */
  datatype Filters = Filters(folder: string, tags: seq<string>)

  /** `getViewTitle()`: trash first, then the folder, then the first tag, then all notes. */
  function ViewTitle(view: string, filters: Filters): (r: string)
    ensures r == "Trash" <==> view == "trash"
    ensures StartsWith(r, "Folder: ") <==> view != "trash" && filters.folder != []
    ensures StartsWith(r, "Tag: #") <==> view != "trash" && filters.folder == [] && |filters.tags| > 0
    ensures r == "All Notes" <==> view != "trash" && filters.folder == [] && |filters.tags| == 0
    ensures StartsWith(r, "Folder: ") ==> r[8..] == filters.folder
    ensures StartsWith(r, "Tag: #") ==> r[6..] == filters.tags[0]
  {
    if view == "trash" then "Trash"
    else if filters.folder != [] then
      var r := "Folder: " + filters.folder;
      assert r[..8] == "Folder: " && r[8..] == filters.folder;
      assert r[0] == 'F' && "Trash"[0] == 'T' && "All Notes"[0] == 'A';
      assert !StartsWith(r, "Tag: #") by { assert r[0] != "Tag: #"[0]; }
      r
    else if |filters.tags| > 0 then
      var r := "Tag: #" + filters.tags[0];
      assert r[..6] == "Tag: #" && r[6..] == filters.tags[0];
      assert r[1] == 'a' && "Trash"[1] == 'r' && "All Notes"[0] == 'A';
      assert !StartsWith(r, "Folder: ") by { assert r[0] != "Folder: "[0]; }
      r
    else
      assert !StartsWith("All Notes", "Folder: ") && !StartsWith("All Notes", "Tag: #");
      "All Notes"
  }

  class Dashboard {
    var currentView: string
    var currentFilters: Filters
    var sidebarOpen: bool

    constructor ()
      ensures currentView == "notes" && currentFilters == Filters("", []) && !sidebarOpen
    {
      currentView := "notes";
      currentFilters := Filters("", []);
      sidebarOpen := false;
    }

    /** `handleViewChange(view, filters)`: sets the view and the filters and closes the
        sidebar. */
    method HandleViewChange(view: string, filters: Filters)
      modifies this
      ensures currentView == view && currentFilters == filters && !sidebarOpen
    {
      currentView := view;
      currentFilters := filters;
      sidebarOpen := false;
    }

    function Title(): string
      reads this
    {
      ViewTitle(currentView, currentFilters)
    }
  }

  // ---------------------------------------------------------------------------
  // The session

  datatype User = User(username: string, email: string, avatar: string)

  /** The answer of the session check: a user, a body without one, or a failure. */
  datatype SessionReply = WithUser(user: User) | WithoutUser | Failed

  /** The auth provider's state; `stored` is the token kept in `localStorage`. */
  class AuthProvider {
    var user: Option<User>
    var token: Option<string>
    var stored: Option<string>
    var loading: bool

    /** The state token and stored token agree. */
    predicate Consistent()
      reads this
    {
      token == stored
    }

    constructor (stored: Option<string>)
      ensures this.stored == stored && token == stored && user.None? && loading
      ensures Consistent()
    {
      this.stored := stored;
      token := stored;
      user := None;
      loading := true;
    }

    /** `login(userData, userToken)`: stores the token and sets both token and user. */
    method Login(userData: User, userToken: string)
      modifies this
      ensures stored == Some(userToken) && token == Some(userToken) && user == Some(userData)
      ensures loading == old(loading) && Consistent()
    {
      stored := Some(userToken);
      token := Some(userToken);
      user := Some(userData);
    }

    /** `logout()`: clears the stored token, the token and the user. */
    method Logout()
      modifies this
      ensures stored.None? && token.None? && user.None? && loading == old(loading) && Consistent()
    {
      stored := None;
      token := None;
      user := None;
    }

    /** The session check run when the token changes: without a token, or with the
        empty one JavaScript reads as false, it only stops loading; with one, a reply
        naming a user sets it and anything else drops the token. */
    method CheckSession(reply: SessionReply)
      requires Consistent()
      modifies this
      ensures !loading && Consistent()
      ensures old(token).None? || old(token) == Some("") ==>
        token == old(token) && stored == old(stored) && user == old(user)
      ensures old(token).Some? && old(token).value != [] && reply.WithUser? ==>
        user == Some(reply.user) && token == old(token) && stored == old(stored)
      ensures old(token).Some? && old(token).value != [] && !reply.WithUser? ==>
        token.None? && stored.None? && user == old(user)
    {
      if token.Some? && token.value != [] {
        match reply {
          case WithUser(u) =>
            user := Some(u);
          case WithoutUser =>
            stored := None;
            token := None;
          case Failed =>
            stored := None;
            token := None;
        }
      }
      loading := false;
    }
  }

  /** A tag field piece made only of spaces never becomes a tag. */
  lemma ParseTagsDropsBlanks(field: string)
    ensures forall k | 0 <= k < |ParseTags(field)| :: !AllSpace(ParseTags(field)[k])
  {
    var tags := ParseTags(field);
    forall k | 0 <= k < |tags| ensures !AllSpace(tags[k]) {
      assert !IsSpace(tags[k][0]);
    }
  }
}
