/** The notes server: token extraction in `authenticateToken`, the request validation
    rules, the duplicate-account report, the notes listing (filter, order and page
    numbers), and the create and update handlers. The database, token signing and
    password hashing are inputs. */
module NotesApi {
  import opened Text
  import opened NoteModel

  // ---------------------------------------------------------------------------
  // authenticateToken

  /** `authHeader && authHeader.split(' ')[1]`, with every falsy result read as no token. */
  function BearerToken(authorization: Option<string>): (t: Option<string>)
    ensures t.Some? ==> t.value != [] && ' ' !in t.value
    ensures t.Some? ==> authorization.Some? && |Split(authorization.value, ' ')| >= 2 &&
                        t.value == Split(authorization.value, ' ')[1]
    ensures authorization.Some? && |Split(authorization.value, ' ')| >= 2 && Split(authorization.value, ' ')[1] != [] ==>
              t == Some(Split(authorization.value, ' ')[1])
  {
    if authorization.None? || authorization.value == [] then None
    else
      var parts := Split(authorization.value, ' ');
      if |parts| >= 2 && parts[1] != [] then Some(parts[1]) else None
  }

  /** `<scheme> <token>` yields the token, whatever the scheme word is. */
  lemma BearerTokenOf(scheme: string, t: string)
    requires ' ' !in scheme && ' ' !in t && t != []
    ensures BearerToken(Some(scheme + " " + t)) == Some(t)
  {
    SplitJoin([scheme, t], ' ', "");
    assert [' '] + "" == " ";
    assert Join([scheme, t], " ") == scheme + " " + t;
    assert Padded("", [t])[0] == "" + t == t;
  }

  /** A header without a space carries no token. */
  lemma NoSpaceNoToken(h: string)
    requires ' ' !in h
    ensures BearerToken(Some(h)).None?
  {
  }

  datatype Account = Account(id: string, username: string, email: string)

  /** What `jwt.verify` does with a token: decode the user id or throw a named error. */
  datatype Verification = Decoded(userId: string) | Thrown(name: string)

  datatype Response = Response(status: int, message: string)

  datatype AuthOutcome = Authenticated(user: Account) | Refused(response: Response)

  /** `authenticateToken`: no token is 401; a decoded token whose user exists passes;
      a missing user is 401; the two token errors are 401 and anything else is 500. */
  function AuthenticateToken(authorization: Option<string>, verify: string -> Verification,
                             findUser: string -> Option<Account>): (o: AuthOutcome)
    ensures BearerToken(authorization).None? ==> o == Refused(Response(401, "Access token required"))
    ensures o.Authenticated? <==>
      BearerToken(authorization).Some? && verify(BearerToken(authorization).value).Decoded? &&
      findUser(verify(BearerToken(authorization).value).userId).Some?
    ensures o.Authenticated? ==> Some(o.user) == findUser(verify(BearerToken(authorization).value).userId)
    ensures o.Refused? ==> o.response.status == 401 || o.response.status == 500
    ensures o.Refused? && o.response.status == 500 ==>
      BearerToken(authorization).Some? && verify(BearerToken(authorization).value).Thrown? &&
      verify(BearerToken(authorization).value).name !in {"JsonWebTokenError", "TokenExpiredError"}
  {
    match BearerToken(authorization)
    case None => Refused(Response(401, "Access token required"))
    case Some(token) =>
      match verify(token)
      case Decoded(id) =>
        (match findUser(id)
         case Some(user) => Authenticated(user)
         case None => Refused(Response(401, "Invalid token - user not found")))
      case Thrown(name) =>
        if name == "JsonWebTokenError" then Refused(Response(401, "Invalid token"))
        else if name == "TokenExpiredError" then Refused(Response(401, "Token expired"))
        else Refused(Response(500, "Server error during authentication"))
  }

  // ---------------------------------------------------------------------------
  // Validation rules

  const MinUsernameLength := 3
  const MaxUsernameLength := 30
  const MinPasswordLength := 6
  const MaxFolderLength := 50

  const UsernameLengthMessage := "Username must be between 3 and 30 characters"
  const UsernameCharsMessage := "Username can only contain letters, numbers, and underscores"
  const EmailMessage := "Please provide a valid email"
  const PasswordLengthMessage := "Password must be at least 6 characters long"
  const PasswordRequiredMessage := "Password is required"
  const TitleRequiredMessage := "Title is required"
  const TitleLengthMessage := "Title cannot exceed 200 characters"
  const ContentRequiredMessage := "Content is required"
  const FolderLengthMessage := "Folder name cannot exceed 50 characters"
  const ColorMessage := "Color must be a valid hex color"

  /** One message when the check fails, none when it holds. */
  function Check(ok: bool, message: string): (errs: seq<string>)
    ensures errs == [] <==> ok
    ensures |errs| <= 1 && (forall k | 0 <= k < |errs| :: errs[k] == message)
    ensures forall x :: x in errs <==> !ok && x == message
  {
    if ok then [] else [message]
  }

  /** The messages of `registerValidation`, in declaration order. */
  const RegisterMessages := [UsernameLengthMessage, UsernameCharsMessage, EmailMessage, PasswordLengthMessage]

  /** `registerValidation`: every failing check adds its message, in declaration order.
      The username is trimmed first; lengths are measured as `isLength` measures them;
      whether the address is an e-mail address is the validator library's decision and
      is an input. */
  function RegisterErrors(username: string, emailIsValid: bool, password: string): (errs: seq<string>)
    ensures errs == [] <==>
      MinUsernameLength <= IsLengthCount(Trim(username)) <= MaxUsernameLength && WordChars(Trim(username)) &&
      emailIsValid && IsLengthCount(password) >= MinPasswordLength
    ensures (UsernameLengthMessage in errs) <==>
      !(MinUsernameLength <= IsLengthCount(Trim(username)) <= MaxUsernameLength)
    ensures (UsernameCharsMessage in errs) <==> !WordChars(Trim(username))
    ensures (EmailMessage in errs) <==> !emailIsValid
    ensures (PasswordLengthMessage in errs) <==> IsLengthCount(password) < MinPasswordLength
    ensures IsSubsequence(errs, RegisterMessages)
  {
    var u := Trim(username);
    RegisterChecks(MinUsernameLength <= IsLengthCount(u) <= MaxUsernameLength, WordChars(u),
                   emailIsValid, IsLengthCount(password) >= MinPasswordLength)
  }

  /** The four registration checks, given their outcomes, in declaration order. */
  function RegisterChecks(lengthOk: bool, charsOk: bool, emailOk: bool, passwordOk: bool): (errs: seq<string>)
    ensures errs == [] <==> lengthOk && charsOk && emailOk && passwordOk
    ensures (UsernameLengthMessage in errs) <==> !lengthOk
    ensures (UsernameCharsMessage in errs) <==> !charsOk
    ensures (EmailMessage in errs) <==> !emailOk
    ensures (PasswordLengthMessage in errs) <==> !passwordOk
    ensures IsSubsequence(errs, RegisterMessages)
  {
    RegisterChecksInOrder(lengthOk, charsOk, emailOk, passwordOk);
    RegisterMessagesDistinct();
    Check(lengthOk, UsernameLengthMessage) + (Check(charsOk, UsernameCharsMessage) +
    (Check(emailOk, EmailMessage) + Check(passwordOk, PasswordLengthMessage)))
  }

  /** The four checks' messages come in declaration order. */
  lemma RegisterChecksInOrder(lengthOk: bool, charsOk: bool, emailOk: bool, passwordOk: bool)
    ensures IsSubsequence(Check(lengthOk, UsernameLengthMessage) + (Check(charsOk, UsernameCharsMessage) +
                          (Check(emailOk, EmailMessage) + Check(passwordOk, PasswordLengthMessage))), RegisterMessages)
  {
    var b := Check(charsOk, UsernameCharsMessage);
    var c := Check(emailOk, EmailMessage);
    var d := Check(passwordOk, PasswordLengthMessage);
    CheckInOrder(passwordOk, PasswordLengthMessage, [], []);
    assert d + [] == d && [PasswordLengthMessage] + [] == [PasswordLengthMessage];
    CheckInOrder(emailOk, EmailMessage, d, [PasswordLengthMessage]);
    CheckInOrder(charsOk, UsernameCharsMessage, c + d, [EmailMessage, PasswordLengthMessage]);
    CheckInOrder(lengthOk, UsernameLengthMessage, b + (c + d), [UsernameCharsMessage, EmailMessage, PasswordLengthMessage]);
  }

  /** The four registration messages differ (their lengths do). */
  lemma RegisterMessagesDistinct()
    ensures UsernameLengthMessage != UsernameCharsMessage && UsernameLengthMessage != EmailMessage
    ensures UsernameLengthMessage != PasswordLengthMessage && UsernameCharsMessage != EmailMessage
    ensures UsernameCharsMessage != PasswordLengthMessage && EmailMessage != PasswordLengthMessage
  {
    assert |UsernameLengthMessage| == 44 && |UsernameCharsMessage| == 59;
    assert |EmailMessage| == 28 && |PasswordLengthMessage| == 43;
  }

  /** A check put before a list of messages in order keeps them in order. */
  lemma CheckInOrder(ok: bool, message: string, errs: seq<string>, messages: seq<string>)
    requires IsSubsequence(errs, messages)
    ensures IsSubsequence(Check(ok, message) + errs, [message] + messages)
  {
    if ok {
      assert Check(ok, message) + errs == errs;
      assert ([message] + messages)[1..] == messages;
      SubsequenceSkip(errs, [message] + messages);
    } else {
      assert (Check(ok, message) + errs)[1..] == errs;
      assert ([message] + messages)[1..] == messages;
    }
  }

  /** `loginValidation` */
  function LoginErrors(emailIsValid: bool, password: string): (errs: seq<string>)
    ensures errs == [] <==> emailIsValid && password != []
    ensures (PasswordRequiredMessage in errs) <==> password == []
  {
    Check(emailIsValid, EmailMessage) + Check(password != [], PasswordRequiredMessage)
  }

  /** A note request body; optional fields are `None` when absent. */
  datatype NoteInput = NoteInput(title: string, content: string, tags: Option<seq<string>>,
                                 folder: Option<string>, color: Option<string>, isPinned: Option<bool>)

  /** `noteValidation`: the title is trimmed, required and at most 200 characters as
      `isLength` counts them; the content is required; a folder given is at most 50
      such characters once trimmed; a color given is a hex color. */
  function NoteErrors(n: NoteInput): (errs: seq<string>)
    ensures errs == [] <==>
      Trim(n.title) != [] && IsLengthCount(Trim(n.title)) <= MaxTitleLength && n.content != [] &&
      (n.folder.Some? ==> IsLengthCount(Trim(n.folder.value)) <= MaxFolderLength) &&
      (n.color.Some? ==> ValidHexColor(n.color.value))
  {
    var t := Trim(n.title);
    Check(t != [], TitleRequiredMessage)
    + Check(IsLengthCount(t) <= MaxTitleLength, TitleLengthMessage)
    + Check(n.content != [], ContentRequiredMessage)
    + Check(n.folder.None? || IsLengthCount(Trim(n.folder.value)) <= MaxFolderLength, FolderLengthMessage)
    + Check(n.color.None? || ValidHexColor(n.color.value), ColorMessage)
  }

  // ---------------------------------------------------------------------------
  // Registration and login

  /** The field named when registration finds an existing account. The account was
      found by matching the e-mail or the username, so one of the two matches. */
  function DuplicateField(existing: Account, email: string, username: string): (field: string)
    requires existing.email == email || existing.username == username
    ensures field == "email" <==> existing.email == email
    ensures field == "username" <==> existing.email != email
    ensures field == "username" ==> existing.username == username
  {
    if existing.email == email then "email" else "username"
  }

  function DuplicateMessage(field: string): string {
    "User with this " + field + " already exists"
  }

  /** The login answer: a failed check is 400; an unknown address and a wrong password
      give the same 401; otherwise the login succeeds. */
  function LoginResponse(emailIsValid: bool, password: string, found: Option<Account>,
                         passwordMatches: bool): (r: Response)
    ensures LoginErrors(emailIsValid, password) != [] ==> r == Response(400, "Validation failed")
    ensures r.status == 200 <==> LoginErrors(emailIsValid, password) == [] && found.Some? && passwordMatches
  {
    if LoginErrors(emailIsValid, password) != [] then Response(400, "Validation failed")
    else if found.None? then Response(401, "Invalid email or password")
    else if !passwordMatches then Response(401, "Invalid email or password")
    else Response(200, "Login successful")
  }

  /** The login answer does not tell an unknown address from a wrong password. */
  lemma LoginHidesAccounts(emailIsValid: bool, password: string, account: Account)
    ensures LoginResponse(emailIsValid, password, None, true) ==
            LoginResponse(emailIsValid, password, Some(account), false)
  {
  }

  // ---------------------------------------------------------------------------
  // Tag and folder normalisation

  /** `tags.map(tag => tag.toLowerCase().trim()).filter(tag => tag)` */
  function NormalizeTags(tags: seq<string>): (r: seq<string>)
    ensures forall k | 0 <= k < |r| :: r[k] != [] && Trimmed(r[k]) && NoUpper(r[k])
    ensures forall k | 0 <= k < |r| :: r[k] in SchemaTags(tags)
    ensures forall j | 0 <= j < |tags| && SchemaTag(tags[j]) != [] :: SchemaTag(tags[j]) in r
    ensures IsSubsequence(r, SchemaTags(tags))
  {
    DropEmpty(SchemaTags(tags))
  }

  /** Each normalised tag is kept as often as it occurs. */
  lemma NormalizeTagsCounts(tags: seq<string>, x: string)
    requires x != []
    ensures multiset(NormalizeTags(tags))[x] == multiset(SchemaTags(tags))[x]
  {
    DropEmptyCounts(SchemaTags(tags), x);
  }

  /** Normalisation goes tag by tag: a list is normalised part by part, and one tag
      becomes its setter value, or nothing when that is empty. */
  lemma NormalizeTagsAppend(a: seq<string>, b: seq<string>)
    ensures NormalizeTags(a + b) == NormalizeTags(a) + NormalizeTags(b)
    ensures forall t :: NormalizeTags([t]) == if SchemaTag(t) == [] then [] else [SchemaTag(t)]
  {
    assert SchemaTags(a + b) == SchemaTags(a) + SchemaTags(b);
    DropEmptyAppend(SchemaTags(a), SchemaTags(b));
    forall t ensures NormalizeTags([t]) == if SchemaTag(t) == [] then [] else [SchemaTag(t)] {
      assert SchemaTags([t]) == [SchemaTag(t)];
      assert DropEmpty([SchemaTag(t)]) == (if SchemaTag(t) == [] then [] else [SchemaTag(t)]) by {
        assert [SchemaTag(t)][1..] == [];
      }
    }
  }

  /** The schema setters leave normalised tags alone. */
  lemma SchemaKeepsNormalizedTags(tags: seq<string>)
    ensures SchemaTags(NormalizeTags(tags)) == NormalizeTags(tags)
  {
    SchemaTagsFixed(NormalizeTags(tags));
  }

  /** Normalising twice changes nothing. */
  lemma NormalizeTagsIdempotent(tags: seq<string>)
    ensures NormalizeTags(NormalizeTags(tags)) == NormalizeTags(tags)
  {
    var once := NormalizeTags(tags);
    SchemaTagsFixed(once);
    DropEmptyNone(once);
  }

  /** `folder.trim() || 'General'` */
  function NormalizeFolder(folder: string): (r: string)
    ensures r != [] && Trimmed(r)
    ensures r == DefaultFolder <==> Trim(folder) == [] || Trim(folder) == DefaultFolder
    ensures r != DefaultFolder ==> r == Trim(folder)
  {
    assert Trimmed(DefaultFolder) by { assert DefaultFolder[0] == 'G' && DefaultFolder[6] == 'l'; }
    var t := Trim(folder);
    if t != [] then t else DefaultFolder
  }

  lemma NormalizeFolderIdempotent(folder: string)
    ensures NormalizeFolder(NormalizeFolder(folder)) == NormalizeFolder(folder)
  {
    TrimOfTrimmed(NormalizeFolder(folder));
  }

  /** The schema setter leaves a normalised folder alone. */
  lemma SchemaKeepsNormalizedFolder(folder: string)
    ensures Trim(NormalizeFolder(folder)) == NormalizeFolder(folder)
  {
    TrimOfTrimmed(NormalizeFolder(folder));
  }

  // ---------------------------------------------------------------------------
  // Create and update

  /** The fields of the note the create handler builds: defaults for what is absent,
      then normalised tags and folder. The validator has already trimmed the title. */
  function Created(n: NoteInput): (f: Fields)
    ensures f.title == Trim(n.title) && f.content == n.content
    ensures f.tags == NormalizeTags(if n.tags.Some? then n.tags.value else [])
    ensures f.folder == NormalizeFolder(if n.folder.Some? then n.folder.value else DefaultFolder)
    ensures f.color == (if n.color.Some? then n.color.value else DefaultColor)
    ensures f.isPinned == (n.isPinned.Some? && n.isPinned.value)
  {
    Fields(Trim(n.title), n.content,
           NormalizeTags(if n.tags.Some? then n.tags.value else []),
           NormalizeFolder(if n.folder.Some? then n.folder.value else DefaultFolder),
           n.isPinned.Some? && n.isPinned.value,
           if n.color.Some? then n.color.value else DefaultColor)
  }

  /** A request that passes validation creates a note the schema accepts exactly when
      its trimmed title also fits the schema's 200 code units. `isLength` counts a
      surrogate pair as one character and `maxlength` as two, so a title of 101
      characters outside the Basic Multilingual Plane passes the one and fails the
      other. */
  lemma CreatedValid(n: NoteInput)
    requires NoteErrors(n) == []
    ensures ValidFields(Created(n)) <==> Utf16Length(Trim(n.title)) <= MaxTitleLength
  {
    DefaultColorValid();
  }

  /** `POST /api/notes` once authenticated: a failed check is 400 and creates nothing;
      otherwise a note with the `Created` fields, out of the trash, is built, and `save`
      stores it (201) or, when the schema refuses it, throws into the 500 answer. */
  method CreateNote(n: NoteInput) returns (status: int, note: Option<Note>)
    ensures NoteErrors(n) != [] ==> status == 400 && note.None?
    ensures NoteErrors(n) == [] && Utf16Length(Trim(n.title)) <= MaxTitleLength ==>
      status == 201 && note.Some? && fresh(note.value)
    ensures NoteErrors(n) == [] && Utf16Length(Trim(n.title)) > MaxTitleLength ==> status == 500 && note.None?
    ensures note.Some? ==> note.value.Snapshot() == Created(n) && note.value.Valid()
    ensures note.Some? ==> !note.value.isDeleted && note.value.deletedAt.None?
  {
    if NoteErrors(n) != [] {
      return 400, None;
    }
    var tags := NormalizeTags(if n.tags.Some? then n.tags.value else []);
    var folder := NormalizeFolder(if n.folder.Some? then n.folder.value else DefaultFolder);
    var color := if n.color.Some? then n.color.value else DefaultColor;
    var isPinned := n.isPinned.Some? && n.isPinned.value;
    var created := new Note(Trim(n.title), n.content, tags, Some(folder), Some(color), Some(isPinned));
    TrimIdempotent(n.title);
    SchemaKeepsNormalizedTags(if n.tags.Some? then n.tags.value else []);
    SchemaKeepsNormalizedFolder(if n.folder.Some? then n.folder.value else DefaultFolder);
    CreatedValid(n);
    if !created.Valid() {
      return 500, None;
    }
    status, note := 201, Some(created);
  }

  /** The fields after an update: title and content always replaced, every optional
      field replaced only when given. */
  function Merge(f: Fields, n: NoteInput): (g: Fields)
    ensures g.title == Trim(n.title) && g.content == n.content
    ensures g.tags == (if n.tags.Some? then NormalizeTags(n.tags.value) else f.tags)
    ensures g.folder == (if n.folder.Some? then NormalizeFolder(n.folder.value) else f.folder)
    ensures g.color == (if n.color.Some? then n.color.value else f.color)
    ensures g.isPinned == (if n.isPinned.Some? then n.isPinned.value else f.isPinned)
  {
    Fields(Trim(n.title), n.content,
           if n.tags.Some? then NormalizeTags(n.tags.value) else f.tags,
           if n.folder.Some? then NormalizeFolder(n.folder.value) else f.folder,
           if n.isPinned.Some? then n.isPinned.value else f.isPinned,
           if n.color.Some? then n.color.value else f.color)
  }

  /** An update that passes validation gives a note the schema accepts exactly when its
      trimmed title fits in 200 code units and the color it keeps, if it gives none, is
      empty or hex. */
  lemma MergeKeepsValid(f: Fields, n: NoteInput)
    requires NoteErrors(n) == []
    ensures ValidFields(Merge(f, n)) <==> Utf16Length(Trim(n.title)) <= MaxTitleLength &&
                                          (n.color.Some? || f.color == [] || ValidHexColor(f.color))
  {
  }

  /** A stored note with an empty color still saves after an update that gives no
      color: the kept `''` passes the schema's pattern check. */
  lemma StoredEmptyColorKept(f: Fields, n: NoteInput)
    requires NoteErrors(n) == [] && n.color.None? && f.color == []
    ensures ValidFields(Merge(f, n)) <==> Utf16Length(Trim(n.title)) <= MaxTitleLength
    ensures Merge(f, n).color == []
  {
    MergeKeepsValid(f, n);
  }

  /** An update that gives no optional field changes only the title and the content. */
  lemma MergeRequiredOnly(f: Fields, n: NoteInput)
    requires n.tags.None? && n.folder.None? && n.color.None? && n.isPinned.None?
    ensures Merge(f, n) == f.(title := Trim(n.title), content := n.content)
  {
  }

  /** Repeating an update changes nothing more. */
  lemma MergeIdempotent(f: Fields, n: NoteInput)
    ensures Merge(Merge(f, n), n) == Merge(f, n)
  {
  }

  /** The assignments of the update handler: title and content, then each optional
      field that was given. The schema setters trim and lowercase again what is
      assigned; `TrimIdempotent`, `SchemaKeepsNormalizedTags` and
      `SchemaKeepsNormalizedFolder` show that changes nothing, so the values are
      written as the handler computes them. */
  method ApplyUpdate(note: Note, n: NoteInput)
    modifies note
    ensures note.title == Trim(n.title) && note.content == n.content
    ensures note.tags == (if n.tags.Some? then NormalizeTags(n.tags.value) else old(note.tags))
    ensures note.folder == (if n.folder.Some? then NormalizeFolder(n.folder.value) else old(note.folder))
    ensures note.color == (if n.color.Some? then n.color.value else old(note.color))
    ensures note.isPinned == (if n.isPinned.Some? then n.isPinned.value else old(note.isPinned))
    ensures unchanged(note`isDeleted, note`deletedAt)
  {
    note.title := Trim(n.title);
    note.content := n.content;
    if n.tags.Some? {
      note.tags := NormalizeTags(n.tags.value);
    }
    if n.folder.Some? {
      note.folder := NormalizeFolder(n.folder.value);
    }
    if n.color.Some? {
      note.color := n.color.value;
    }
    if n.isPinned.Some? {
      note.isPinned := n.isPinned.value;
    }
  }

  /** `PUT /api/notes/:id` once authenticated. `found` is the note the lookup returned,
      which is never one in the trash. */
  method UpdateNote(found: Option<Note>, n: NoteInput) returns (status: int)
    requires found.Some? ==> !found.value.isDeleted
    modifies if found.Some? then {found.value} else {}
    ensures NoteErrors(n) != [] ==> status == 400
    ensures NoteErrors(n) == [] && found.None? ==> status == 404
    ensures NoteErrors(n) == [] && found.Some? ==>
      (status == 200 <==> ValidFields(Merge(old(found.value.Snapshot()), n))) && (status == 200 || status == 500)
    ensures found.Some? && status != 200 ==> found.value.Snapshot() == old(found.value.Snapshot())
    ensures found.Some? && status == 200 ==> found.value.Snapshot() == Merge(old(found.value.Snapshot()), n)
    ensures found.Some? ==> unchanged(found.value`isDeleted, found.value`deletedAt)
    ensures found.Some? && status == 200 ==> found.value.Valid()
  {
    if NoteErrors(n) != [] {
      return 400;
    }
    if found.None? {
      return 404;
    }
    var note := found.value;
    ghost var before := note.Snapshot();
    var g := Merge(note.Snapshot(), n);
    if !ValidFields(g) {
      // `save` validates the assigned document, writes nothing and throws into the 500
      // answer, so the stored note keeps its fields.
      return 500;
    }
    ApplyUpdate(note, n);
    assert note.Snapshot() == g by {
      assert note.title == g.title && note.content == g.content && note.tags == g.tags;
      assert note.folder == g.folder && note.isPinned == g.isPinned && note.color == g.color;
    }
    status := 200;
  }

  // ---------------------------------------------------------------------------
  // Listing notes

  /** `tags` in the query string: one value or several. */
  datatype TagsParam = One(tag: string) | Many(tags: seq<string>)

  /** The query string of `GET /api/notes`; page and limit are the parsed integers. */
  datatype ListParams = ListParams(folder: Option<string>, tags: Option<TagsParam>, search: Option<string>,
                                   includeDeleted: Option<string>, page: Option<int>, limit: Option<int>)

  const DefaultPage := 1
  const DefaultLimit := 20
  const MaxLimit := 100

  /** What `isBoolean()` accepts. */
  predicate IsBooleanString(s: string) {
    s in {"true", "false", "1", "0"}
  }

  /** The query-string checks: includeDeleted is a boolean, page at least 1, limit in
      `1..100`. */
  predicate ListParamsValid(p: ListParams) {
    (p.includeDeleted.Some? ==> IsBooleanString(p.includeDeleted.value)) &&
    (p.page.Some? ==> p.page.value >= 1) &&
    (p.limit.Some? ==> 1 <= p.limit.value <= MaxLimit)
  }

  /** The filter handed to the database; `None` is a field that is not set. */
  datatype Query = Query(author: string, isDeleted: Option<bool>, folder: Option<string>, tagsIn: Option<seq<string>>)

  /** The notes query built field by field. */
  method BuildQuery(author: string, p: ListParams) returns (q: Query)
    ensures q.author == author
    ensures q.isDeleted == Some(false) <==> p.includeDeleted != Some("true")
    ensures q.isDeleted.None? <==> p.includeDeleted == Some("true")
    ensures q.folder.Some? <==> p.folder.Some? && Trim(p.folder.value) != []
    ensures q.folder.Some? ==> q.folder.value == Trim(p.folder.value)
    ensures q.tagsIn.Some? <==> p.tags.Some? && p.tags.value != One("")
    ensures q.tagsIn.Some? ==> q.tagsIn.value == (match p.tags.value case One(t) => [t] case Many(ts) => ts)
  {
    var includeDeleted := if p.includeDeleted.Some? then p.includeDeleted.value else "false";
    q := Query(author, None, None, None);
    if includeDeleted != "true" {
      q := q.(isDeleted := Some(false));
    }
    if p.folder.Some? && Trim(p.folder.value) != [] {
      q := q.(folder := Some(Trim(p.folder.value)));
    }
    if p.tags.Some? {
      match p.tags.value {
        case One(t) =>
          if t != [] {
            q := q.(tagsIn := Some([t]));
          }
        case Many(ts) =>
          q := q.(tagsIn := Some(ts));
      }
    }
  }

  /** How the results are ordered: by text score for a search, otherwise pinned first
      and then most recently updated. */
  datatype Order = ByTextScore | PinnedThenRecent

  function OrderOf(p: ListParams): (o: Order)
    ensures o == ByTextScore <==> p.search.Some? && Trim(p.search.value) != []
  {
    if p.search.Some? && Trim(p.search.value) != [] then ByTextScore else PinnedThenRecent
  }

  /** The sort keys of a listed note. */
  datatype Listed = Listed(isPinned: bool, updatedAt: int)

  /** `{ isPinned: -1, updatedAt: -1 }`: `a` may come before `b`. */
  predicate NotAfter(a: Listed, b: Listed) {
    (a.isPinned && !b.isPinned) || (a.isPinned == b.isPinned && a.updatedAt >= b.updatedAt)
  }

  /** Each note may come before the next one. */
  predicate SortedForList(ns: seq<Listed>) {
    forall i | 0 <= i < |ns| - 1 :: NotAfter(ns[i], ns[i + 1])
  }

  lemma NotAfterTransitive(a: Listed, b: Listed, c: Listed)
    requires NotAfter(a, b) && NotAfter(b, c)
    ensures NotAfter(a, c)
  {
  }

  /** In a list so sorted every pinned note comes before every unpinned one, and
      notes with the same pin state are newest first. */
  lemma {:induction false} SortedPinnedFirst(ns: seq<Listed>)
    requires SortedForList(ns)
    ensures forall i, j | 0 <= i < j < |ns| :: NotAfter(ns[i], ns[j])
    ensures forall i, j | 0 <= i < j < |ns| :: ns[j].isPinned ==> ns[i].isPinned
  {
    if |ns| > 1 {
      var tail := ns[1..];
      assert SortedForList(tail) by {
        forall i | 0 <= i < |tail| - 1 ensures NotAfter(tail[i], tail[i + 1]) {
          assert tail[i] == ns[i + 1] && tail[i + 1] == ns[i + 2];
        }
      }
      SortedPinnedFirst(tail);
      forall i, j | 0 <= i < j < |ns| ensures NotAfter(ns[i], ns[j]) {
        if i == 0 {
          if j > 1 {
            assert NotAfter(tail[0], tail[j - 1]);
            NotAfterTransitive(ns[0], ns[1], ns[j]);
          }
        } else {
          assert NotAfter(tail[i - 1], tail[j - 1]);
        }
      }
    }
  }

  /** The `pagination` object of the listing. */
  datatype PageInfo = PageInfo(currentPage: int, totalPages: int, totalNotes: int,
                               hasNextPage: bool, hasPrevPage: bool)

  /** Notes skipped before the page. */
  function Skip(page: int, limit: int): int {
    (page - 1) * limit
  }

  /** `Math.ceil(total / limit)` */
  function CeilDiv(total: nat, limit: nat): (q: nat)
    requires limit >= 1
    ensures q * limit >= total && (q == 0 || (q - 1) * limit < total)
  {
    var q := (total + limit - 1) / limit;
    assert q * limit <= total + limit - 1 < (q + 1) * limit;
    q
  }

  /** The page numbers for `total` notes of which `returned` came back on this page. */
  function Pagination(page: int, limit: int, total: nat, returned: nat): (info: PageInfo)
    requires page >= 1 && limit >= 1
    ensures info.currentPage == page && info.totalNotes == total
    ensures info.totalPages == CeilDiv(total, limit)
    ensures info.hasNextPage <==> Skip(page, limit) + returned < total
    ensures info.hasPrevPage <==> page > 1
  {
    PageInfo(page, CeilDiv(total, limit), total, Skip(page, limit) + returned < total, page > 1)
  }

  function Min(a: int, b: int): int { if a <= b then a else b }
  function Max(a: int, b: int): int { if a >= b then a else b }

  /** The number of notes a page holds when the count covers the same notes. */
  function PageSize(page: int, limit: int, total: nat): nat
    requires page >= 1 && limit >= 1
  {
    Min(limit, Max(0, total - Skip(page, limit)))
  }

  /** When the page holds what the count promises, there is a next page exactly when
      the current page is not the last one. */
  lemma NextPageIffNotLast(page: int, limit: int, total: nat)
    requires page >= 1 && limit >= 1
    ensures Pagination(page, limit, total, PageSize(page, limit, total)).hasNextPage <==>
            page < CeilDiv(total, limit)
  {
    var q := CeilDiv(total, limit);
    var skip := Skip(page, limit);
    assert page * limit == skip + limit;
    if skip + limit < total {
      assert page * limit < total;
      if page >= q {
        assert page * limit >= q * limit by { MulMonotone(q, page, limit); }
        assert false;
      }
    } else {
      assert total <= page * limit;
      if page < q {
        assert page <= q - 1;
        MulMonotone(page, q - 1, limit);
        assert false;
      }
    }
  }

  lemma MulMonotone(a: int, b: int, c: int)
    requires 0 <= a <= b && c >= 0
    ensures a * c <= b * c
  {
  }
}
