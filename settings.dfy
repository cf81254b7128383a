/** The settings page: the preference updaters behind its buttons and toggles, and the
    password change with its two ordered checks. The server's answer is an input. */
module Settings {
  import opened Text
  import opened Validation

  // ---------------------------------------------------------------------------
  // Preferences

  datatype Preferences = Preferences(theme: string, defaultView: string, autoPreview: bool, notifications: bool)

  /** The state the page starts from. */
  const Initial := Preferences("light", "grid", true, true)

  /** The themes and views the page offers buttons for. */
  predicate OfferedTheme(t: string) { t == "light" || t == "dark" || t == "system" }
  predicate OfferedView(v: string) { v == "grid" || v == "list" }

  predicate Offered(s: Preferences) { OfferedTheme(s.theme) && OfferedView(s.defaultView) }

  /** `{ ...prev, theme: value }` */
  function WithTheme(s: Preferences, theme: string): (r: Preferences)
    ensures r.theme == theme
    ensures r.defaultView == s.defaultView && r.autoPreview == s.autoPreview && r.notifications == s.notifications
  {
    s.(theme := theme)
  }

  /** `{ ...prev, defaultView: value }` */
  function WithView(s: Preferences, view: string): (r: Preferences)
    ensures r.defaultView == view
    ensures r.theme == s.theme && r.autoPreview == s.autoPreview && r.notifications == s.notifications
  {
    s.(defaultView := view)
  }

  /** `{ ...prev, autoPreview: !prev.autoPreview }` */
  function FlipAutoPreview(s: Preferences): (r: Preferences)
    ensures r.autoPreview == !s.autoPreview
    ensures r.theme == s.theme && r.defaultView == s.defaultView && r.notifications == s.notifications
  {
    s.(autoPreview := !s.autoPreview)
  }

  /** `{ ...prev, notifications: !prev.notifications }` */
  function FlipNotifications(s: Preferences): (r: Preferences)
    ensures r.notifications == !s.notifications
    ensures r.theme == s.theme && r.defaultView == s.defaultView && r.autoPreview == s.autoPreview
  {
    s.(notifications := !s.notifications)
  }

  /** Toggling either switch twice gives the preferences back. */
  lemma FlipTwice(s: Preferences)
    ensures FlipAutoPreview(FlipAutoPreview(s)) == s
    ensures FlipNotifications(FlipNotifications(s)) == s
  {
  }

  /** Choosing a theme or a view again overrides the earlier choice, and the two
      choices are independent. */
  lemma ChoicesOverride(s: Preferences, t1: string, t2: string, v1: string, v2: string)
    ensures WithTheme(WithTheme(s, t1), t2) == WithTheme(s, t2)
    ensures WithView(WithView(s, v1), v2) == WithView(s, v2)
    ensures WithTheme(WithView(s, v1), t1) == WithView(WithTheme(s, t1), v1)
  {
  }

  /** One click on the page. */
  datatype Action = ChooseTheme(theme: string) | ChooseView(view: string) | ToggleAutoPreview | ToggleNotifications

  /** The click buttons the page renders: one per offered theme and view, and the two
      toggles. */
  predicate Rendered(a: Action) {
    match a
    case ChooseTheme(t) => OfferedTheme(t)
    case ChooseView(v) => OfferedView(v)
    case _ => true
  }

  function Apply(s: Preferences, a: Action): Preferences {
    match a
    case ChooseTheme(t) => WithTheme(s, t)
    case ChooseView(v) => WithView(s, v)
    case ToggleAutoPreview => FlipAutoPreview(s)
    case ToggleNotifications => FlipNotifications(s)
  }

  /** The preferences after a run of clicks. */
  function ApplyAll(s: Preferences, actions: seq<Action>): Preferences
    decreases |actions|
  {
    if actions == [] then s else ApplyAll(Apply(s, actions[0]), actions[1..])
  }

  /** How many clicks of the auto-preview toggle a run holds. */
  function AutoPreviewToggles(actions: seq<Action>): (n: nat)
    ensures n <= |actions|
    ensures n == multiset(actions)[ToggleAutoPreview]
  {
    if actions == [] then 0
    else
      assert actions == [actions[0]] + actions[1..];
      (if actions[0] == ToggleAutoPreview then 1 else 0) + AutoPreviewToggles(actions[1..])
  }

  /** Clicking only rendered buttons keeps the theme and view among the offered ones. */
  lemma {:induction false} ClicksKeepOffered(s: Preferences, actions: seq<Action>)
    requires Offered(s)
    requires forall k | 0 <= k < |actions| :: Rendered(actions[k])
    ensures Offered(ApplyAll(s, actions))
    decreases |actions|
  {
    if actions != [] {
      assert Rendered(actions[0]);
      ClicksKeepOffered(Apply(s, actions[0]), actions[1..]);
    }
  }

  /** Auto preview ends up on exactly when it started on and was toggled an even number
      of times, or started off and was toggled an odd number of times. */
  lemma {:induction false} AutoPreviewParity(s: Preferences, actions: seq<Action>)
    ensures ApplyAll(s, actions).autoPreview == (s.autoPreview == (AutoPreviewToggles(actions) % 2 == 0))
    decreases |actions|
  {
    if actions != [] {
      AutoPreviewParity(Apply(s, actions[0]), actions[1..]);
    }
  }

  /** From the initial preferences, the rendered buttons only ever select offered
      themes and views. */
  lemma ClicksFromInitial(actions: seq<Action>)
    requires forall k | 0 <= k < |actions| :: Rendered(actions[k])
    ensures Offered(ApplyAll(Initial, actions))
  {
    ClicksKeepOffered(Initial, actions);
  }

  // ---------------------------------------------------------------------------
  // Password change

  datatype PasswordData = PasswordData(currentPassword: string, newPassword: string, confirmPassword: string)

  const EmptyPasswords := PasswordData("", "", "")

  const MismatchMessage := "New passwords do not match"
  const ShortMessage := "New password must be at least 6 characters long"
  const ChangedMessage := "Password changed successfully!"
  const ChangeFailedMessage := "Failed to change password"
  const ChangeErrorMessage := "Error changing password. Please try again."

  /** The two checks of `handlePasswordChange`, in source order; the length is
      `.length`, in UTF-16 code units. */
  function PasswordChecks(p: PasswordData): seq<Rule> {
    [Rule(p.newPassword == p.confirmPassword, MismatchMessage),
     Rule(Utf16Length(p.newPassword) >= 6, ShortMessage)]
  }

  /** The alert raised before any request is sent, if any. */
  function PasswordError(p: PasswordData): (r: Option<string>)
    ensures r.None? <==> p.newPassword == p.confirmPassword && Utf16Length(p.newPassword) >= 6
  {
    var rules := PasswordChecks(p);
    assert (forall k | 0 <= k < 2 :: rules[k].passes) <==> rules[0].passes && rules[1].passes;
    FirstFailure(rules)
  }

  /** A mismatch is reported before the length is looked at. */
  lemma MismatchFirst(p: PasswordData)
    requires p.newPassword != p.confirmPassword
    ensures PasswordError(p) == Some(MismatchMessage)
  {
    FirstFailureAt(PasswordChecks(p), 0);
  }

  /** A matching but short new password is reported as too short. */
  lemma ShortSecond(p: PasswordData)
    requires p.newPassword == p.confirmPassword && Utf16Length(p.newPassword) < 6
    ensures PasswordError(p) == Some(ShortMessage)
  {
    var rules := PasswordChecks(p);
    assert rules[0].passes && !rules[1].passes;
    FirstFailureAt(rules, 1);
  }

  /** The change button is disabled while saving and while any field is empty. */
  predicate ChangeDisabled(isSaving: bool, p: PasswordData) {
    isSaving || p.currentPassword == [] || p.newPassword == [] || p.confirmPassword == []
  }

  /** The request body: the confirmation is not sent. */
  datatype ChangeBody = ChangeBody(currentPassword: string, newPassword: string)

  /** The server's answer to the change: accepted, refused with a message ("" when
      absent), or a failed request. */
  datatype ChangeReply = Changed | Rejected(message: string) | Threw

  function ReplyAlert(reply: ChangeReply): (m: string)
    ensures m != []
    ensures reply.Rejected? && reply.message != [] ==> m == reply.message
  {
    match reply
    case Changed => ChangedMessage
    case Rejected(message) => Or([message], ChangeFailedMessage)
    case Threw => ChangeErrorMessage
  }

  class SettingsPage {
    var settings: Preferences
    var passwordData: PasswordData
    var isSaving: bool

    constructor ()
      ensures settings == Initial && passwordData == EmptyPasswords && !isSaving
    {
      settings := Initial;
      passwordData := EmptyPasswords;
      isSaving := false;
    }

    /** A click on one of the preference buttons or toggles. */
    method Click(a: Action)
      modifies this
      ensures settings == Apply(old(settings), a)
      ensures passwordData == old(passwordData) && isSaving == old(isSaving)
    {
      settings := Apply(settings, a);
    }

    /** `handlePasswordChange`: the checks alert and stop before any request; otherwise
        saving starts, only the current and new passwords are sent, an accepted change
        empties all three fields, and saving ends whatever the answer. The alert shown
        is returned. */
    method HandlePasswordChange(reply: ChangeReply) returns (alert: string, body: Option<ChangeBody>)
      modifies this
      ensures settings == old(settings)
      ensures body.None? <==> PasswordError(old(passwordData)).Some?
      ensures body.None? ==> alert == PasswordError(old(passwordData)).value &&
                             passwordData == old(passwordData) && isSaving == old(isSaving)
      ensures body.Some? ==> body.value == ChangeBody(old(passwordData).currentPassword, old(passwordData).newPassword)
      ensures body.Some? ==> !isSaving && alert == ReplyAlert(reply)
      ensures body.Some? && reply.Changed? ==> passwordData == EmptyPasswords && ChangeDisabled(isSaving, passwordData)
      ensures body.Some? && !reply.Changed? ==> passwordData == old(passwordData)
    {
      if passwordData.newPassword != passwordData.confirmPassword {
        MismatchFirst(passwordData);
        return MismatchMessage, None;
      }
      if Utf16Length(passwordData.newPassword) < 6 {
        ShortSecond(passwordData);
        return ShortMessage, None;
      }
      isSaving := true;
      body := Some(ChangeBody(passwordData.currentPassword, passwordData.newPassword));
      alert := ReplyAlert(reply);
      if reply.Changed? {
        passwordData := EmptyPasswords;
      }
      isSaving := false;
    }
  }
}
