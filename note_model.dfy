/** The stored note: its schema setters, defaults and constraints, and the trash state
    kept by `softDelete` and `restore`. Times are whole milliseconds supplied by the
    caller. */
module NoteModel {
  import opened Text

  const MaxTitleLength := 200
  const DefaultFolder := "General"
  const DefaultColor := "#ffffff"

  predicate IsHexDigit(c: char) {
    IsDigit(c) || ('a' <= c <= 'f') || ('A' <= c <= 'F')
  }

  /** `^#([A-Fa-f0-9]{6}|[A-Fa-f0-9]{3})$` */
  predicate ValidHexColor(c: string) {
    (|c| == 4 || |c| == 7) && c[0] == '#' && forall i | 1 <= i < |c| :: IsHexDigit(c[i])
  }

  /** The schema's `match` validator on the color: Mongoose runs the pattern only on a
      value other than `''`, so an empty color passes. */
  predicate SchemaColorOk(c: string) {
    c == [] || ValidHexColor(c)
  }

  lemma DefaultColorValid()
    ensures ValidHexColor(DefaultColor)
  {
    assert DefaultColor[1] == 'f';
  }

  /** The schema setter on every tag: trimmed and lowercased. */
  function SchemaTag(t: string): (r: string)
    ensures Trimmed(r) && NoUpper(r)
  {
    var r := Trim(ToLower(t));
    LowerTrimNoUpper(t);
    r
  }

  function SchemaTags(tags: seq<string>): (r: seq<string>)
    ensures |r| == |tags| && forall k | 0 <= k < |tags| :: r[k] == SchemaTag(tags[k])
  {
    seq(|tags|, k requires 0 <= k < |tags| => SchemaTag(tags[k]))
  }

  /** A tag the setter leaves alone: trimmed and without capitals. */
  lemma {:induction false} SchemaTagsFixed(tags: seq<string>)
    requires forall k | 0 <= k < |tags| :: Trimmed(tags[k]) && NoUpper(tags[k])
    ensures SchemaTags(tags) == tags
  {
    forall k | 0 <= k < |tags| ensures SchemaTag(tags[k]) == tags[k] {
      ToLowerProperties(tags[k]);
      TrimOfTrimmed(tags[k]);
    }
  }

  /** The fields a user edits; the trash state is kept apart. */
  datatype Fields = Fields(title: string, content: string, tags: seq<string>, folder: string,
                           isPinned: bool, color: string)

  /** The schema constraints checked on save: a non-empty title of at most 200
      UTF-16 code units (Mongoose's `maxlength` reads the string's `length`), non-empty
      content, and a color that is empty or hex. */
  predicate ValidFields(f: Fields) {
    f.title != [] && Utf16Length(f.title) <= MaxTitleLength && f.content != [] && SchemaColorOk(f.color)
  }

  class Note {
    var title: string
    var content: string
    var tags: seq<string>
    var folder: string
    var isDeleted: bool
    var deletedAt: Option<int>
    var isPinned: bool
    var color: string

    function Snapshot(): Fields
      reads this
    {
      Fields(title, content, tags, folder, isPinned, color)
    }

    predicate Valid()
      reads this
    {
      ValidFields(Snapshot())
    }

    /** `new Note({...})`: the setters trim the title and folder and normalise every
        tag; a missing folder, color or pin flag takes its default, and the note starts
        out of the trash. */
    constructor (title: string, content: string, tags: seq<string>,
                 folder: Option<string>, color: Option<string>, isPinned: Option<bool>)
      ensures this.title == Trim(title) && this.content == content && this.tags == SchemaTags(tags)
      ensures this.folder == (if folder.Some? then Trim(folder.value) else DefaultFolder)
      ensures this.color == (if color.Some? then color.value else DefaultColor)
      ensures this.isPinned == (isPinned.Some? && isPinned.value)
      ensures !isDeleted && deletedAt.None?
    {
      this.title := Trim(title);
      this.content := content;
      this.tags := SchemaTags(tags);
      this.folder := if folder.Some? then Trim(folder.value) else DefaultFolder;
      this.color := if color.Some? then color.value else DefaultColor;
      this.isPinned := isPinned.Some? && isPinned.value;
      isDeleted := false;
      deletedAt := None;
    }

    /** The `inTrash` virtual. */
    function InTrash(): (r: bool)
      reads this
      ensures r <==> isDeleted
    {
      isDeleted
    }

    /** `softDelete()`: into the trash, stamped with the time given. */
    method SoftDelete(now: int)
      modifies this
      ensures isDeleted && deletedAt == Some(now) && InTrash()
      ensures Snapshot() == old(Snapshot())
    {
      isDeleted := true;
      deletedAt := Some(now);
    }

    /** `restore()`: out of the trash, with no deletion time. */
    method Restore()
      modifies this
      ensures !isDeleted && deletedAt.None? && !InTrash()
      ensures Snapshot() == old(Snapshot())
    {
      isDeleted := false;
      deletedAt := None;
    }
  }

  /** Restoring a note straight after deleting it puts its trash fields back as a new
      note has them and changes nothing else. */
  method DeleteThenRestore(n: Note, now: int)
    modifies n
    ensures !n.isDeleted && n.deletedAt.None? && n.Snapshot() == old(n.Snapshot())
  {
    n.SoftDelete(now);
    n.Restore();
  }
}
