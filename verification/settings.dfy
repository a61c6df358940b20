/** The settings page's forms: the validation rules written in its
    schemas, their default values, and what each submit handler does.
    A validation failure is a list of issues, each tied to a field. */
module Settings {
  import opened Common
  import opened Session

  datatype FieldName = Name | CurrentPassword | NewPassword | ConfirmPassword

  datatype Issue = Issue(path: FieldName, message: string)

  const NAME_MIN: nat := 2
  const PASSWORD_MIN: nat := 8

  const NameTooShort := "Name must be at least 2 characters."
  const PasswordTooShort := "Password must be at least 8 characters."
  const CurrentRequired := "Current password is required to set a new password."
  const Mismatch := "Passwords do not match."

  /* ---------------- account ---------------- */

  /** The account schema's rule on the name (the e-mail format rule is
      not modelled). */
  function AccountIssues(name: string): (r: seq<Issue>)
    ensures r == [] <==> |name| >= NAME_MIN
    ensures forall i :: 0 <= i < |r| ==> r[i] == Issue(Name, NameTooShort)
  {
    if |name| < NAME_MIN then [Issue(Name, NameTooShort)] else []
  }

  /** The account form starts from the signed-in user's name, or "". */
  function AccountDefaultName(user: Option<User>): (r: string)
    ensures user.Some? ==> r == user.value.name
    ensures user.None? ==> r == ""
  {
    if user.Some? && user.value.name != "" then user.value.name else ""
  }

  const AccountUpdated: Notice :=
    Notice("Account updated", "Your account information has been updated.", false)

  /* ---------------- notifications ---------------- */

  datatype Notifications = Notifications(email: bool, push: bool, marketing: bool, summary: bool)

  /** The values the notifications form starts from. */
  const FormDefaults: Notifications := Notifications(true, true, false, true)

  /** The schema's defaults: an absent flag takes its default value, a
      present one is kept. */
  function WithDefaults(email: Option<bool>, push: Option<bool>, marketing: Option<bool>, summary: Option<bool>): (r: Notifications)
    ensures email.Some? ==> r.email == email.value
    ensures push.Some? ==> r.push == push.value
    ensures marketing.Some? ==> r.marketing == marketing.value
    ensures summary.Some? ==> r.summary == summary.value
    ensures email.None? ==> r.email
    ensures push.None? ==> r.push
    ensures marketing.None? ==> !r.marketing
    ensures summary.None? ==> r.summary
  {
    Notifications(
      if email.Some? then email.value else true,
      if push.Some? then push.value else true,
      if marketing.Some? then marketing.value else false,
      if summary.Some? then summary.value else true)
  }

  /** The schema's defaults and the form's defaults agree: e-mail and push
      on, marketing off, summary on. */
  lemma DefaultsAgree()
    ensures WithDefaults(None, None, None, None) == FormDefaults
    ensures FormDefaults.email && FormDefaults.push && !FormDefaults.marketing && FormDefaults.summary
  {
  }

  const NotificationsUpdated: Notice :=
    Notice("Notification preferences updated", "Your notification preferences have been saved.", false)

  /* ---------------- security ---------------- */

  /** The three password fields; each may be absent. */
  datatype Passwords = Passwords(currentPassword: Option<string>, newPassword: Option<string>, confirmPassword: Option<string>)

  /** JavaScript truthiness of an optional string: present and non-empty. */
  predicate Truthy(o: Option<string>)
  {
    o.Some? && o.value != ""
  }

  /** The values the security form starts from, and is reset to. */
  const Blank: Passwords := Passwords(Some(""), Some(""), Some(""))

  /** The two cross-field refinements, in order: a new password needs the
      current one, and a given confirmation must equal the new password. */
  function RefinementIssues(d: Passwords): (r: seq<Issue>)
    ensures Issue(CurrentPassword, CurrentRequired) in r
        <==> Truthy(d.newPassword) && !Truthy(d.currentPassword)
    ensures Issue(ConfirmPassword, Mismatch) in r
        <==> Truthy(d.newPassword) && Truthy(d.confirmPassword) && d.newPassword.value != d.confirmPassword.value
    ensures forall i :: 0 <= i < |r| ==> r[i] == Issue(CurrentPassword, CurrentRequired) || r[i] == Issue(ConfirmPassword, Mismatch)
  {
    (if Truthy(d.newPassword) && !Truthy(d.currentPassword) then [Issue(CurrentPassword, CurrentRequired)] else [])
    + (if Truthy(d.newPassword) && Truthy(d.confirmPassword) && d.newPassword.value != d.confirmPassword.value
       then [Issue(ConfirmPassword, Mismatch)] else [])
  }

  /** The length rule as the schema writes it: any present string,
      including "", must be at least eight characters long. */
  function MinLengthAsWritten(field: FieldName, o: Option<string>): (r: seq<Issue>)
    ensures r != [] <==> o.Some? && |o.value| < PASSWORD_MIN
    ensures forall i :: 0 <= i < |r| ==> r[i] == Issue(field, PasswordTooShort)
  {
    if o.Some? && |o.value| < PASSWORD_MIN then [Issue(field, PasswordTooShort)] else []
  }

  /** The length rule as evidently intended: it applies to a non-empty
      value only, so a field left blank is "not given". */
  function MinLength(field: FieldName, o: Option<string>): (r: seq<Issue>)
    ensures r != [] <==> Truthy(o) && |o.value| < PASSWORD_MIN
    ensures forall i :: 0 <= i < |r| ==> r[i] == Issue(field, PasswordTooShort)
  {
    if Truthy(o) && |o.value| < PASSWORD_MIN then [Issue(field, PasswordTooShort)] else []
  }

  /** The security schema as written. The refinements run even when a
      length rule has already failed. */
  function SecurityIssuesAsWritten(d: Passwords): seq<Issue>
  {
    MinLengthAsWritten(CurrentPassword, d.currentPassword)
    + MinLengthAsWritten(NewPassword, d.newPassword)
    + RefinementIssues(d)
  }

  /** The security schema with the length rule as intended. */
  function SecurityIssues(d: Passwords): seq<Issue>
  {
    MinLength(CurrentPassword, d.currentPassword)
    + MinLength(NewPassword, d.newPassword)
    + RefinementIssues(d)
  }

  /** What the intended schema accepts, stated field by field: a given
      current or new password has at least eight characters, a new
      password comes with the current one, and a given confirmation
      equals it. The confirmation has no length rule. */
  predicate SecurityAcceptable(d: Passwords)
  {
    && (Truthy(d.currentPassword) ==> |d.currentPassword.value| >= PASSWORD_MIN)
    && (Truthy(d.newPassword) ==> |d.newPassword.value| >= PASSWORD_MIN)
    && (Truthy(d.newPassword) ==> Truthy(d.currentPassword))
    && (Truthy(d.newPassword) && Truthy(d.confirmPassword) ==> d.newPassword.value == d.confirmPassword.value)
  }

  lemma SecurityIssuesIff(d: Passwords)
    ensures SecurityIssues(d) == [] <==> SecurityAcceptable(d)
  {
  }

  /** An empty or absent confirmation never produces the mismatch issue,
      and the confirmation field carries no other issue. */
  lemma ConfirmationIssues(d: Passwords)
    ensures !Truthy(d.confirmPassword) ==>
      forall i :: 0 <= i < |SecurityIssues(d)| ==> SecurityIssues(d)[i].path != ConfirmPassword
    ensures forall i :: 0 <= i < |SecurityIssues(d)| && SecurityIssues(d)[i].path == ConfirmPassword ==>
      SecurityIssues(d)[i].message == Mismatch
  {
    var a := MinLength(CurrentPassword, d.currentPassword);
    var b := MinLength(NewPassword, d.newPassword);
    var r := RefinementIssues(d);
    assert SecurityIssues(d) == a + b + r;
    forall i | 0 <= i < |a + b + r| && (a + b + r)[i].path == ConfirmPassword
      ensures (a + b + r)[i] == Issue(ConfirmPassword, Mismatch)
    {
      if i >= |a| + |b| {
        assert (a + b + r)[i] == r[i - |a| - |b|];
      }
    }
  }

  /** The submit handler, reached only with values the schema accepted:
      a new password is acknowledged and the form is cleared; otherwise
      nothing changes. */
  function OnSecuritySubmit(d: Passwords): (r: (Notice, Passwords))
    ensures Truthy(d.newPassword) ==> r.0.title == "Password updated" && r.1 == Blank
    ensures !Truthy(d.newPassword) ==> r.0.title == "No changes made" && r.1 == d
  {
    if Truthy(d.newPassword) then
      (Notice("Password updated", "Your password has been changed successfully.", false), Blank)
    else
      (Notice("No changes made", "No password changes were submitted.", false), d)
  }

  /** What the schema as written accepts, stated field by field: every
      present current or new password, "" included, has at least eight
      characters, a new password comes with the current one, and a given
      confirmation equals it. */
  predicate SecurityAcceptableAsWritten(d: Passwords)
  {
    && (d.currentPassword.Some? ==> |d.currentPassword.value| >= PASSWORD_MIN)
    && (d.newPassword.Some? ==> |d.newPassword.value| >= PASSWORD_MIN)
    && (Truthy(d.newPassword) ==> Truthy(d.currentPassword))
    && (Truthy(d.newPassword) && Truthy(d.confirmPassword) ==> d.newPassword.value == d.confirmPassword.value)
  }

  lemma SecurityIssuesAsWrittenIff(d: Passwords)
    ensures SecurityIssuesAsWritten(d) == [] <==> SecurityAcceptableAsWritten(d)
  {
  }

  datatype Result = Rejected(issues: seq<Issue>) | Accepted(notice: Notice, form: Passwords)

  /** Submitting the security form as the page does: the schema's issues
      when it rejects the values, else the handler's outcome. */
  function SubmitSecurity(d: Passwords): (r: Result)
    ensures r.Accepted? <==> SecurityAcceptableAsWritten(d)
    ensures r.Rejected? ==> r.issues == SecurityIssuesAsWritten(d)
    ensures r.Accepted? ==> r.notice == OnSecuritySubmit(d).0 && r.form == OnSecuritySubmit(d).1
  {
    SecurityIssuesAsWrittenIff(d);
    var issues := SecurityIssuesAsWritten(d);
    if issues != [] then Rejected(issues)
    else var (n, f) := OnSecuritySubmit(d); Accepted(n, f)
  }

  /** Submitting the security form with the length rule as intended. */
  function SubmitSecurityIntended(d: Passwords): (r: Result)
    ensures r.Accepted? <==> SecurityAcceptable(d)
    ensures r.Rejected? ==> r.issues == SecurityIssues(d)
    ensures r.Accepted? ==> r.notice == OnSecuritySubmit(d).0 && r.form == OnSecuritySubmit(d).1
  {
    SecurityIssuesIff(d);
    var issues := SecurityIssues(d);
    if issues != [] then Rejected(issues)
    else var (n, f) := OnSecuritySubmit(d); Accepted(n, f)
  }

  /** Changing a password on the page: with the current password and a
      matching confirmation the change is acknowledged and the form
      cleared; the untouched form is rejected with the length message on
      the current password, and so is a new password without the current
      one. */
  lemma SecurityScenarios()
    ensures SubmitSecurity(Passwords(Some("oldpass12"), Some("newpass12"), Some("newpass12"))).Accepted?
    ensures SubmitSecurity(Passwords(Some("oldpass12"), Some("newpass12"), Some("newpass12"))).form == Blank
    ensures SubmitSecurity(Blank).Rejected?
    ensures SubmitSecurity(Blank).issues[0] == Issue(CurrentPassword, PasswordTooShort)
    ensures SubmitSecurity(Passwords(Some(""), Some("newpass12"), Some(""))).Rejected?
  {
  }

  /** The same scenarios with the length rule as intended: the proper
      change is still accepted, the untouched form now submits as "No
      changes made", and a new password without the current one is still
      rejected, now with the refinement's message. */
  lemma IntendedScenarios()
    ensures SubmitSecurityIntended(Passwords(Some("oldpass12"), Some("newpass12"), Some("newpass12"))).Accepted?
    ensures SubmitSecurityIntended(Passwords(Some("oldpass12"), Some("newpass12"), Some("newpass12"))).form == Blank
    ensures SubmitSecurityIntended(Blank).Accepted?
    ensures SubmitSecurityIntended(Blank).notice.title == "No changes made"
    ensures SubmitSecurityIntended(Passwords(Some(""), Some("newpass12"), Some(""))).Rejected?
    ensures SubmitSecurityIntended(Passwords(Some(""), Some("newpass12"), Some(""))).issues
         == [Issue(CurrentPassword, CurrentRequired)]
  {
  }

  /** As written, the schema rejects the form's own starting values,
      since "" is shorter than eight characters. */
  lemma BlankRejectedAsWritten()
    ensures SecurityIssuesAsWritten(Blank) != []
    ensures SecurityIssuesAsWritten(Blank)[0] == Issue(CurrentPassword, PasswordTooShort)
  {
  }

  /** As written, every accepted form (the form always holds strings)
      has a non-empty new password, so the "No changes made" branch of
      the handler can never be reached. */
  lemma NoChangesUnreachableAsWritten(d: Passwords)
    requires d.currentPassword.Some? && d.newPassword.Some? && d.confirmPassword.Some?
    requires SecurityIssuesAsWritten(d) == []
    ensures Truthy(d.newPassword)
    ensures OnSecuritySubmit(d).0.title == "Password updated"
  {
  }

  /* ---------------- appearance ---------------- */

  datatype Theme = Light | Dark | System

  function ThemeName(t: Theme): string
  {
    match t
    case Light => "light"
    case Dark => "dark"
    case System => "system"
  }

  /** The appearance schema's enum: exactly the three names parse. */
  function ParseTheme(s: string): (r: Option<Theme>)
    ensures r.Some? ==> ThemeName(r.value) == s
  {
    if s == "light" then Some(Light)
    else if s == "dark" then Some(Dark)
    else if s == "system" then Some(System)
    else None
  }

  lemma ThemeRoundTrip(t: Theme, s: string)
    ensures ParseTheme(ThemeName(t)) == Some(t)
    ensures ParseTheme(s).None? <==> s != "light" && s != "dark" && s != "system"
  {
  }

  /** Submitting the appearance form sets exactly the chosen theme. */
  function OnAppearanceSubmit(t: Theme): (r: (Theme, Notice))
    ensures r.0 == t
    ensures r.1.description == "Theme changed to " + ThemeName(t) + "."
  {
    (t, Notice("Appearance updated", "Theme changed to " + ThemeName(t) + ".", false))
  }
}
