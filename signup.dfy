/** The sign-up page: the form state, its ordered client-side checks, the payload it
    sends and the message it shows when the server refuses the account. Whether
    `new URL(avatar)` accepts the avatar is the browser's decision and is an input. */
module Signup {
  import opened Text
  import opened Validation

  // ---------------------------------------------------------------------------
  // The e-mail pattern

  /** A character the class `[^\s@]` accepts. */
  predicate EmailChar(c: char) { !IsSpace(c) && c != '@' }

  /** `[^\s@]+` over the whole string. */
  predicate EmailRun(s: string) {
    s != [] && forall k | 0 <= k < |s| :: EmailChar(s[k])
  }

  /** `^[^\s@]+@[^\s@]+\.[^\s@]+$`: the text splits at an `@` and a later `.` into three
      non-empty runs without white space or `@`. The middle run may itself hold dots,
      since the regex backtracks to any dot after the `@`. */
  predicate EmailPattern(s: string) {
    exists i, j | 0 <= i < j < |s| ::
      s[i] == '@' && s[j] == '.' && EmailRun(s[..i]) && EmailRun(s[i + 1..j]) && EmailRun(s[j + 1..])
  }

  /** The same test read off the string directly: no white space, exactly one `@`,
      which is not the first character, and a `.` at least two places after it that
      is not the last character. */
  predicate EmailShape(s: string) {
    '@' in s && (forall k | 0 <= k < |s| :: !IsSpace(s[k])) &&
    var i := IndexOf(s, '@');
    i > 0 && '@' !in s[i + 1..] && exists j | i + 1 < j < |s| - 1 :: s[j] == '.'
  }

  /** The regex and the direct reading agree on every string. */
  lemma EmailPatternShape(s: string)
    ensures EmailPattern(s) <==> EmailShape(s)
  {
    if EmailPattern(s) {
      var i, j :| 0 <= i < j < |s| && s[i] == '@' && s[j] == '.' && EmailRun(s[..i])
        && EmailRun(s[i + 1..j]) && EmailRun(s[j + 1..]);
      PatternHasShape(s, i, j);
    }
    if EmailShape(s) {
      var i := IndexOf(s, '@');
      var j :| i + 1 < j < |s| - 1 && s[j] == '.';
      ShapeHasPattern(s, i, j);
    }
  }

  lemma PatternHasShape(s: string, i: int, j: int)
    requires 0 <= i < j < |s| && s[i] == '@' && s[j] == '.'
    requires EmailRun(s[..i]) && EmailRun(s[i + 1..j]) && EmailRun(s[j + 1..])
    ensures EmailShape(s)
  {
    forall k | 0 <= k < |s| ensures !IsSpace(s[k]) && (k != i ==> s[k] != '@') {
      if k < i {
        assert s[k] == s[..i][k];
      } else if i < k < j {
        assert s[k] == s[i + 1..j][k - i - 1];
      } else if j < k {
        assert s[k] == s[j + 1..][k - j - 1];
      }
    }
    assert '@' !in s[..i];
    IndexOfUnique(s, '@', i);
    var rest := s[i + 1..];
    assert '@' !in rest by {
      forall k | 0 <= k < |rest| ensures rest[k] != '@' {
        assert rest[k] == s[i + 1 + k];
      }
    }
    assert i + 1 < j < |s| - 1 by {
      assert |s[i + 1..j]| > 0 && |s[j + 1..]| > 0;
    }
  }

  lemma ShapeHasPattern(s: string, i: int, j: int)
    requires EmailShape(s) && i == IndexOf(s, '@')
    requires i + 1 < j < |s| - 1 && s[j] == '.'
    ensures EmailPattern(s)
  {
    forall k | 0 <= k < |s| && k != i ensures EmailChar(s[k]) {
      if k > i {
        assert s[k] == s[i + 1..][k - i - 1];
      } else {
        assert s[k] == s[..i][k];
      }
    }
    var user, domain, top := s[..i], s[i + 1..j], s[j + 1..];
    assert EmailRun(user) by {
      forall k | 0 <= k < |user| ensures EmailChar(user[k]) { assert user[k] == s[k]; }
    }
    assert EmailRun(domain) by {
      forall k | 0 <= k < |domain| ensures EmailChar(domain[k]) { assert domain[k] == s[i + 1 + k]; }
    }
    assert EmailRun(top) by {
      forall k | 0 <= k < |top| ensures EmailChar(top[k]) { assert top[k] == s[j + 1 + k]; }
    }
  }

  // ---------------------------------------------------------------------------
  // The form

  datatype Field = Username | Email | Password | Avatar

  datatype FormData = FormData(username: string, email: string, password: string, avatar: string)

  function Get(d: FormData, f: Field): string {
    match f
    case Username => d.username
    case Email => d.email
    case Password => d.password
    case Avatar => d.avatar
  }

  /** `{ ...prev, [name]: value }`: the named field takes the value, every other field
      keeps its own. */
  function Set(d: FormData, f: Field, value: string): (r: FormData)
    ensures Get(r, f) == value
    ensures forall g: Field | g != f :: Get(r, g) == Get(d, g)
  {
    match f
    case Username => d.(username := value)
    case Email => d.(email := value)
    case Password => d.(password := value)
    case Avatar => d.(avatar := value)
  }

  /** Writing a field twice keeps only the second value. */
  lemma SetTwice(d: FormData, f: Field, a: string, b: string)
    ensures Set(Set(d, f, a), f, b) == Set(d, f, b)
  {
    var l, r := Set(Set(d, f, a), f, b), Set(d, f, b);
    assert forall g: Field :: Get(l, g) == Get(r, g);
    assert Get(l, Username) == Get(r, Username) && Get(l, Email) == Get(r, Email);
    assert Get(l, Password) == Get(r, Password) && Get(l, Avatar) == Get(r, Avatar);
  }

  const MissingMessage := "Please fill in all required fields"
  const UsernameShortMessage := "Username must be at least 3 characters long"
  const UsernameLongMessage := "Username must be no more than 20 characters long"
  const UsernameCharsMessage := "Username can only contain letters, numbers, and underscores"
  const PasswordShortMessage := "Password must be at least 6 characters long"
  const PasswordLongMessage := "Password must be no more than 20 characters long"
  const EmailMessage := "Please enter a valid email address"
  const AvatarMessage := "Please enter a valid URL for the avatar"

  /** The `k`-th check of `validateForm`, in source order; lengths are `.length`, in
      UTF-16 code units. The avatar is checked only when it is not blank. */
  function CheckAt(d: FormData, urlParses: string -> bool, k: nat): Rule
    requires k < 8
  {
    if k == 0 then Rule(d.email != [] && d.password != [] && d.username != [], MissingMessage)
    else if k == 1 then Rule(Utf16Length(d.username) >= 3, UsernameShortMessage)
    else if k == 2 then Rule(Utf16Length(d.username) <= 20, UsernameLongMessage)
    else if k == 3 then Rule(WordChars(d.username), UsernameCharsMessage)
    else if k == 4 then Rule(Utf16Length(d.password) >= 6, PasswordShortMessage)
    else if k == 5 then Rule(Utf16Length(d.password) <= 20, PasswordLongMessage)
    else if k == 6 then Rule(EmailPattern(d.email), EmailMessage)
    else Rule(Trim(d.avatar) == [] || urlParses(d.avatar), AvatarMessage)
  }

  /** The checks of `validateForm` as a list. */
  function Checks(d: FormData, urlParses: string -> bool): (rules: seq<Rule>)
    ensures |rules| == 8 && forall k | 0 <= k < 8 :: rules[k] == CheckAt(d, urlParses, k)
  {
    seq(8, k requires 0 <= k < 8 => CheckAt(d, urlParses, k))
  }

  /** The error `validateForm` reports, if any: its guards in source order. */
  function FormError(d: FormData, urlParses: string -> bool): (r: Option<string>)
    ensures r.None? <==>
      d.username != [] && d.email != [] && d.password != [] &&
      3 <= Utf16Length(d.username) <= 20 && WordChars(d.username) &&
      6 <= Utf16Length(d.password) <= 20 && EmailPattern(d.email) &&
      (Trim(d.avatar) == [] || urlParses(d.avatar))
  {
    if d.email == [] || d.password == [] || d.username == [] then Some(MissingMessage)
    else if Utf16Length(d.username) < 3 then Some(UsernameShortMessage)
    else if Utf16Length(d.username) > 20 then Some(UsernameLongMessage)
    else if !WordChars(d.username) then Some(UsernameCharsMessage)
    else if Utf16Length(d.password) < 6 then Some(PasswordShortMessage)
    else if Utf16Length(d.password) > 20 then Some(PasswordLongMessage)
    else if !EmailPattern(d.email) then Some(EmailMessage)
    else if d.avatar != [] && Trim(d.avatar) != [] && !urlParses(d.avatar) then Some(AvatarMessage)
    else None
  }

  /** The error reported is the message of the first failing rule of the list. */
  lemma FormErrorIsFirstFailure(d: FormData, urlParses: string -> bool)
    ensures FormError(d, urlParses) == FirstFailure(Checks(d, urlParses))
  {
    var rules := Checks(d, urlParses);
    if FormError(d, urlParses).None? {
      assert forall k | 0 <= k < 8 :: rules[k].passes;
    } else if d.email == [] || d.password == [] || d.username == [] {
      FirstFailureAt(rules, 0);
    } else if Utf16Length(d.username) < 3 {
      FirstFailureAt(rules, 1);
    } else if Utf16Length(d.username) > 20 {
      FirstFailureAt(rules, 2);
    } else if !WordChars(d.username) {
      FirstFailureAt(rules, 3);
    } else if Utf16Length(d.password) < 6 {
      FirstFailureAt(rules, 4);
    } else if Utf16Length(d.password) > 20 {
      FirstFailureAt(rules, 5);
    } else if !EmailPattern(d.email) {
      FirstFailureAt(rules, 6);
    } else {
      FirstFailureAt(rules, 7);
    }
  }

  /** A blank avatar is never checked. */
  lemma BlankAvatarIgnored(d: FormData, urlParses: string -> bool)
    requires AllSpace(d.avatar)
    ensures FormError(d, urlParses) == FormError(d, (u: string) => false)
  {
    TrimEmptyIffAllSpace(d.avatar);
  }

  /** What is posted to the server. */
  datatype SignupData = SignupData(username: string, email: string, password: string, avatar: string)

  /** `signupData`: the username trimmed, the e-mail lowercased then trimmed, the
      password as typed and the avatar trimmed (`trim() || ""` is just the trim). */
  function Payload(d: FormData): (p: SignupData)
    ensures TrimOf(p.username, d.username) && TrimOf(p.avatar, d.avatar)
    ensures TrimOf(p.email, ToLower(d.email)) && NoUpper(p.email)
    ensures p.password == d.password
    ensures |p.username| <= |d.username| && |p.email| <= |d.email|
  {
    var email := Trim(ToLower(d.email));
    LowerTrimNoUpper(d.email);
    TrimIsTrimOf(d.username);
    TrimIsTrimOf(ToLower(d.email));
    TrimIsTrimOf(d.avatar);
    SignupData(Trim(d.username), email, d.password, Trim(d.avatar))
  }

  /** A username of word characters, as every form that passes validation has, is
      sent exactly as typed: the trim has nothing to remove. */
  lemma ValidUsernameSentAsTyped(d: FormData)
    requires WordChars(d.username)
    ensures Payload(d).username == d.username
  {
    assert IsWordChar(d.username[0]) && IsWordChar(d.username[|d.username| - 1]);
    TrimOfTrimmed(d.username);
  }

  /** Normalising an already normalised payload changes nothing. */
  lemma PayloadIdempotent(d: FormData)
    ensures var p := Payload(d);
      Payload(FormData(p.username, p.email, p.password, p.avatar)) == p
  {
    var p := Payload(d);
    TrimOfTrimmed(p.username);
    TrimOfTrimmed(p.avatar);
    ToLowerProperties(p.email);
    TrimOfTrimmed(p.email);
  }

  // ---------------------------------------------------------------------------
  // The refusal message

  /** The fields of a refusal body the page reads: `action` and `message` are "" when
      absent or empty; `errors` and `error` are `None` unless they are arrays, and
      `error` is given as the list of its elements' messages. */
  datatype ErrorBody = ErrorBody(action: string, message: string, errors: Option<seq<string>>,
                                 errorMessages: Option<seq<string>>)

  const SignInInsteadMessage := "This email is already registered. Please sign in instead."
  const ConflictMessage := "An account with this information already exists."
  const InvalidDataMessage := "Invalid data provided"
  const RegistrationFailedMessage := "Registration failed. Please try again."

  /** The message set for a refused sign-up, by status. */
  function RefusalMessage(status: int, body: ErrorBody): (m: string)
    ensures status == 409 && body.action == "signin" ==> m == SignInInsteadMessage
    ensures status == 409 && body.action != "signin" ==> m == Or([body.message], ConflictMessage)
    ensures status == 400 && body.errors.Some? ==> m == Join(body.errors.value, ", ")
    ensures status == 400 && body.errors.None? && body.errorMessages.Some? ==>
      m == Join(body.errorMessages.value, ", ")
    ensures status == 400 && body.errors.None? && body.errorMessages.None? ==> m == Or([body.message], InvalidDataMessage)
    ensures status != 400 && status != 409 ==> m == Or([body.message], RegistrationFailedMessage)
    ensures m == [] ==> status == 400 && (body.errors.Some? || body.errorMessages.Some?)
  {
    if status == 409 then
      if body.action == "signin" then SignInInsteadMessage else Or([body.message], ConflictMessage)
    else if status == 400 then
      if body.errors.Some? then Join(body.errors.value, ", ")
      else if body.errorMessages.Some? then Join(body.errorMessages.value, ", ")
      else Or([body.message], InvalidDataMessage)
    else Or([body.message], RegistrationFailedMessage)
  }

  /** An empty list of validation errors leaves the error text empty, so the error box
      stays hidden although the server refused the account. */
  lemma EmptyErrorListShowsNothing(body: ErrorBody)
    requires body.errors == Some([])
    ensures RefusalMessage(400, body) == []
  {
  }

  /** The server's own message is shown for a conflict unless it asks the user to sign
      in, and for any other status unless it is empty. */
  lemma ServerMessageWins(status: int, body: ErrorBody)
    requires body.message != [] && body.action != "signin"
    requires status != 400 || (body.errors.None? && body.errorMessages.None?)
    ensures RefusalMessage(status, body) == body.message
  {
    FirstNonEmptyAt([body.message], 0);
  }

  // ---------------------------------------------------------------------------
  // The page

  /** The server's answer to a sign-up post. */
  datatype Reply = Accepted | Refused(status: int, body: ErrorBody)

  class SignupPage {
    var formData: FormData
    var error: string
    var isSubmitting: bool
    var success: bool

    constructor ()
      ensures formData == FormData("", "", "", "") && error == "" && !isSubmitting && !success
    {
      formData := FormData("", "", "", "");
      error := "";
      isSubmitting := false;
      success := false;
    }

    /** `handleInputChange`: the named field takes the value and any error is cleared. */
    method HandleInputChange(name: Field, value: string)
      modifies this
      ensures formData == Set(old(formData), name, value) && error == ""
      ensures isSubmitting == old(isSubmitting) && success == old(success)
    {
      formData := Set(formData, name, value);
      if error != [] {
        error := "";
      }
    }

    /** `validateForm`: the checks run in order, the first that fails sets the error,
        and the answer is whether none failed. */
    method ValidateForm(urlParses: string -> bool) returns (ok: bool)
      modifies this
      ensures ok <==> FormError(formData, urlParses).None?
      ensures !ok ==> error == FormError(formData, urlParses).value
      ensures ok ==> error == old(error)
      ensures formData == old(formData) && isSubmitting == old(isSubmitting) && success == old(success)
    {
      if formData.email == [] || formData.password == [] || formData.username == [] {
        error := MissingMessage;
        return false;
      }
      if Utf16Length(formData.username) < 3 {
        error := UsernameShortMessage;
        return false;
      }
      if Utf16Length(formData.username) > 20 {
        error := UsernameLongMessage;
        return false;
      }
      if !WordChars(formData.username) {
        error := UsernameCharsMessage;
        return false;
      }
      if Utf16Length(formData.password) < 6 {
        error := PasswordShortMessage;
        return false;
      }
      if Utf16Length(formData.password) > 20 {
        error := PasswordLongMessage;
        return false;
      }
      if !EmailPattern(formData.email) {
        error := EmailMessage;
        return false;
      }
      if formData.avatar != [] && Trim(formData.avatar) != [] {
        if !urlParses(formData.avatar) {
          error := AvatarMessage;
          return false;
        }
      }
      return true;
    }

    /** `handleSubmit`: a form that fails validation sends nothing; otherwise the
        normalised payload is sent (see `Send`). */
    method HandleSubmit(urlParses: string -> bool, reply: Reply) returns (sent: Option<SignupData>)
      modifies this
      ensures formData == old(formData)
      ensures sent.None? <==> FormError(formData, urlParses).Some?
      ensures sent.None? ==> error == FormError(formData, urlParses).value &&
                             isSubmitting == old(isSubmitting) && success == old(success)
      ensures sent.Some? ==> sent.value == Payload(formData) && !isSubmitting
      ensures sent.Some? && reply.Accepted? ==> success && error == ""
      ensures sent.Some? && reply.Refused? ==> !success && error == RefusalMessage(reply.status, reply.body)
    {
      var ok := ValidateForm(urlParses);
      if !ok {
        return None;
      }
      sent := Some(Payload(formData));
      Send(reply);
    }

    /** The part of `handleSubmit` after validation: submitting starts and the error
        and success flags are cleared, the payload is posted, an accepted account shows
        success and a refusal shows the message chosen for it; submitting then ends. */
    method Send(reply: Reply)
      modifies this
      ensures formData == old(formData) && !isSubmitting
      ensures reply.Accepted? ==> success && error == ""
      ensures reply.Refused? ==> !success && error == RefusalMessage(reply.status, reply.body)
    {
      isSubmitting := true;
      error := "";
      success := false;
      match reply {
        case Accepted =>
          success := true;
        case Refused(status, body) =>
          error := RefusalMessage(status, body);
      }
      isSubmitting := false;
    }
  }
}
