/** The settings page of the admin panel: the password-change form and the
    site-content form. */
module AdminSettingsPage {
  import opened Common
  import opened Text
  import opened AdminForms
  import AuthRoutes

  // ----------------------------------------------------- password change

  datatype PasswordForm = PasswordForm(currentPassword: string, newPassword: string, confirmPassword: string)

  /** The form's own minimum length for the new password. */
  const ClientMinPasswordLength: nat := 6

  /** The field rules checked before `onPasswordSubmit` runs: the three
      fields are required and the new password has at least six UTF-16 code units. */
  predicate PasswordFieldsAccepted(f: PasswordForm) {
    && f.currentPassword != ""
    && f.newPassword != "" && Utf16Length(f.newPassword) >= ClientMinPasswordLength
    && f.confirmPassword != ""
  }

  /** The body of `POST /auth/change-password`: the confirmation is not sent. */
  datatype PasswordRequest = PasswordRequest(currentPassword: string, newPassword: string)

  /** `onPasswordSubmit`: a confirmation that differs from the new password
      stops the change before any request. */
  function OnPasswordSubmit(f: PasswordForm): (r: Option<PasswordRequest>)
    ensures r.None? <==> f.newPassword != f.confirmPassword
    ensures r.Some? ==> r.value == PasswordRequest(f.currentPassword, f.newPassword)
  {
    if f.newPassword != f.confirmPassword then None
    else Some(PasswordRequest(f.currentPassword, f.newPassword))
  }

  /** A request the form lets through passes the server's presence and
      length checks, so only the current password decides the outcome; and a
      new password the form refuses for its length is one the server refuses
      too. */
  lemma ClientRulesMatchServer(f: PasswordForm, storedHash: string, matches: (string, string) -> bool)
    ensures PasswordFieldsAccepted(f) && OnPasswordSubmit(f).Some? ==>
      AuthRoutes.DecideChangePassword(Some(f.currentPassword), Some(f.newPassword), storedHash, matches)
        == (if matches(storedHash, f.currentPassword) then AuthRoutes.PasswordChanged else AuthRoutes.WrongCurrent)
    ensures f.currentPassword != "" && f.newPassword != "" && Utf16Length(f.newPassword) < ClientMinPasswordLength ==>
      AuthRoutes.DecideChangePassword(Some(f.currentPassword), Some(f.newPassword), storedHash, matches)
        == AuthRoutes.TooShort
  {
    assert ClientMinPasswordLength == AuthRoutes.MinPasswordLength;
  }

  // -------------------------------------------------------- site content

  /** The content fields that `onContentSubmit` rewrites. */
  datatype ContentFields = ContentFields(skills: Option<string>, yearsOfExperience: string)

  datatype ContentSubmission = ContentSubmission(skills: seq<string>, yearsOfExperience: int, target: SaveTarget)

  /** `onContentSubmit`: skills split on commas, `parseInt(years) || 0`, and
      an update of the loaded record when there is one, else a create. */
  function OnContentSubmit(f: ContentFields, loaded: Option<nat>): (s: ContentSubmission)
    ensures s.skills == CommaList(f.skills)
    ensures s.yearsOfExperience == ParseIntOr(f.yearsOfExperience, 0)
    ensures loaded.Some? ==> s.target == Put(loaded.value)
    ensures loaded.None? ==> s.target == Post
  {
    ContentSubmission(CommaList(f.skills), ParseIntOr(f.yearsOfExperience, 0), SaveTargetFor(loaded))
  }

  /** Loaded content saved unchanged: its skills (shown joined with `", "`)
      and its years of experience come back as they were. */
  lemma ContentRoundTrip(skills: seq<string>, years: nat, id: nat)
    requires forall i :: 0 <= i < |skills| ==> skills[i] != "" && Trimmed(skills[i]) && ',' !in skills[i]
    ensures OnContentSubmit(ContentFields(Some(Join(skills, ", ")), DecimalString(years)), Some(id))
      == ContentSubmission(skills, years, Put(id))
  {
    CommaRoundTrip(skills);
    ParseIntOfDecimal(years);
  }
}
