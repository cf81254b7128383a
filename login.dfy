/** The sign-in page: the form state, the empty-field guard, the user record built
    from a successful answer and what is kept in local storage. The server's answer is
    an input. */
module Login {
  import opened Text

  datatype Field = Email | Password

  datatype FormData = FormData(email: string, password: string)

  function Get(d: FormData, f: Field): string {
    match f
    case Email => d.email
    case Password => d.password
  }

  /** `{ ...prev, [name]: value }`: the named field takes the value, the other keeps
      its own. */
  function Set(d: FormData, f: Field, value: string): (r: FormData)
    ensures Get(r, f) == value
    ensures forall g: Field | g != f :: Get(r, g) == Get(d, g)
  {
    match f
    case Email => d.(email := value)
    case Password => d.(password := value)
  }

  const EmptyMessage := "Please fill in all fields"
  const FailedMessage := "Login failed"
  const NetworkMessage := "Network error. Please check if the backend server is running on port 3000."

  /** The `user` object of a successful answer; a string field is "" when it is absent
      or empty, and `id` is `None` when absent. */
  datatype ReplyUser = ReplyUser(id: Option<string>, username: string, email: string, avatar: string)

  /** The record kept under `user` in local storage. */
  datatype UserPayload = UserPayload(id: Option<string>, username: string, email: string, avatar: string)

  /** `(formData.email || '').toLowerCase().trim()` */
  function NormalizedEmail(email: string): (r: string)
    ensures TrimOf(r, ToLower(email)) && NoUpper(r) && |r| <= |email|
  {
    LowerTrimNoUpper(email);
    TrimIsTrimOf(ToLower(email));
    Trim(ToLower(email))
  }

  /** Normalising twice is normalising once. */
  lemma NormalizedEmailIdempotent(email: string)
    ensures NormalizedEmail(NormalizedEmail(email)) == NormalizedEmail(email)
  {
    var n := NormalizedEmail(email);
    ToLowerProperties(n);
    TrimOfTrimmed(n);
  }

  /** The normalised address is empty exactly when the typed one is blank. */
  lemma NormalizedEmailEmpty(email: string)
    ensures NormalizedEmail(email) == [] <==> AllSpace(email)
  {
    var l := ToLower(email);
    ToLowerKeepsSpaces(email);
    TrimEmptyIffAllSpace(l);
    assert AllSpace(l) <==> AllSpace(email) by {
      assert forall i | 0 <= i < |email| :: IsSpace(l[i]) <==> IsSpace(email[i]);
    }
  }

  /** `userPayload`: the answer's fields, with "" for a missing username or avatar and
      the typed address, normalised, for a missing e-mail. */
  function MakePayload(user: Option<ReplyUser>, formEmail: string): (p: UserPayload)
    ensures user.Some? ==> p.id == user.value.id && p.username == user.value.username && p.avatar == user.value.avatar
    ensures user.None? ==> p.id.None? && p.username == [] && p.avatar == []
    ensures user.Some? && user.value.email != [] ==> p.email == user.value.email
    ensures user.None? || user.value.email == [] ==> p.email == NormalizedEmail(formEmail)
    ensures p.email == [] <==> (user.None? || user.value.email == []) && AllSpace(formEmail)
  {
    NormalizedEmailEmpty(formEmail);
    match user
    case None => UserPayload(None, "", NormalizedEmail(formEmail), "")
    case Some(u) => UserPayload(u.id, u.username, Or([u.email], NormalizedEmail(formEmail)), u.avatar)
  }

  /** The message for a refused sign-in: the server's, else a fixed one; never empty. */
  function FailureMessage(message: string): (m: string)
    ensures m != []
    ensures message != [] ==> m == message
    ensures message == [] ==> m == FailedMessage
  {
    Or([message], FailedMessage)
  }

  /** The server's answer: a success with a token ("" when absent) and possibly a user,
      a refusal with its message ("" when absent), or a failed request. */
  datatype Reply = Success(token: string, user: Option<ReplyUser>) | Refused(message: string) | NetworkFailure

  class LoginPage {
    var formData: FormData
    var error: string
    var isSubmitting: bool
    /** The `token` and `user` entries of local storage. */
    var storedToken: Option<string>
    var storedUser: Option<UserPayload>

    constructor (storedToken: Option<string>, storedUser: Option<UserPayload>)
      ensures formData == FormData("", "") && error == "" && !isSubmitting
      ensures this.storedToken == storedToken && this.storedUser == storedUser
    {
      formData := FormData("", "");
      error := "";
      isSubmitting := false;
      this.storedToken := storedToken;
      this.storedUser := storedUser;
    }

    /** `handleInputChange`: the named field takes the value and any error is cleared. */
    method HandleInputChange(name: Field, value: string)
      modifies this
      ensures formData == Set(old(formData), name, value) && error == ""
      ensures isSubmitting == old(isSubmitting)
      ensures storedToken == old(storedToken) && storedUser == old(storedUser)
    {
      formData := Set(formData, name, value);
      if error != [] {
        error := "";
      }
    }

    /** `handleSubmit`: with an empty field the error is set and nothing is sent.
        Otherwise the form is posted; a success stores the user record, and the token
        only when the answer carries one; a refusal or a failed request sets the error;
        submitting ends on every path past the guard. */
    method HandleSubmit(reply: Reply) returns (sent: Option<FormData>)
      modifies this
      ensures formData == old(formData)
      ensures sent.None? <==> formData.email == [] || formData.password == []
      ensures sent.None? ==> error == EmptyMessage && isSubmitting == old(isSubmitting) &&
                             storedToken == old(storedToken) && storedUser == old(storedUser)
      ensures sent.Some? ==> sent.value == formData && !isSubmitting
      ensures sent.Some? && reply.Success? ==>
        error == "" && storedUser == Some(MakePayload(reply.user, formData.email)) &&
        storedToken == (if reply.token != [] then Some(reply.token) else old(storedToken))
      ensures sent.Some? && !reply.Success? ==> storedToken == old(storedToken) && storedUser == old(storedUser)
      ensures sent.Some? && reply.Refused? ==> error == FailureMessage(reply.message)
      ensures sent.Some? && reply.NetworkFailure? ==> error == NetworkMessage
    {
      if formData.email == [] || formData.password == [] {
        error := EmptyMessage;
        return None;
      }
      isSubmitting := true;
      error := "";
      sent := Some(formData);
      match reply {
        case Success(token, user) =>
          var payload := MakePayload(user, formData.email);
          if token != [] {
            storedToken := Some(token);
          }
          storedUser := Some(payload);
        case Refused(message) =>
          error := FailureMessage(message);
        case NetworkFailure =>
          error := NetworkMessage;
      }
      isSubmitting := false;
    }
  }

  /** A success without a token leaves an earlier stored token in place, so a stale
      token can outlive the sign-in that replaced the user record. */
  method TokenlessSuccessKeepsOldToken(page: LoginPage, user: Option<ReplyUser>)
    requires page.formData.email != [] && page.formData.password != []
    modifies page
    ensures page.storedToken == old(page.storedToken)
    ensures page.storedUser == Some(MakePayload(user, page.formData.email))
  {
    var _ := page.HandleSubmit(Success("", user));
  }
}
