/**
 * The settings page: the profile form filled from `GET /users/me`, and the submit
 * handler that checks the new password (when one is typed) before sending
 * `PUT /users/me` with the names and, possibly, the password.
 */
module SettingsPage {
  import opened Wrappers

  const MismatchText := "Passwords do not match!"
  const TooShortText := "Password must be at least 6 characters."
  const SuccessText := "Profile updated successfully!"
  const UpdateFailedText := "Failed to update profile."

  /** The body of `PUT /users/me`: the two names, and the password only when one was typed. */
  datatype ProfilePayload = ProfilePayload(firstName: string, lastName: string, password: Option<string>)

  /** What a submit leads to before the network: an alert and nothing sent, or a request. */
  datatype Submission = Refuse(alert: string) | Send(payload: ProfilePayload)

  /**
   * The checks of the submit handler: an empty new password sends the names alone; a
   * typed one must equal the confirmation (checked first) and be at least six characters
   * long, and is then sent along.
   */
  function Validate(firstName: string, lastName: string, newPassword: string, confirmPassword: string): (r: Submission)
    ensures r.Send? <==> newPassword == "" || (newPassword == confirmPassword && |newPassword| >= 6)
    ensures r.Send? ==> r.payload.firstName == firstName && r.payload.lastName == lastName
    ensures r.Send? ==> r.payload.password == if newPassword == "" then None else Some(newPassword)
    ensures r.Refuse? ==> (r.alert == MismatchText <==> newPassword != confirmPassword)
    ensures r.Refuse? ==> (r.alert == TooShortText <==> newPassword == confirmPassword)
  {
    var names := ProfilePayload(firstName, lastName, None);
    if newPassword == "" then Send(names)
    else if newPassword != confirmPassword then Refuse(MismatchText)
    else if |newPassword| < 6 then Refuse(TooShortText)
    else Send(names.(password := Some(newPassword)))
  }

  /** A password that is both too short and unconfirmed is reported as a mismatch. */
  lemma MismatchCheckedFirst(firstName: string, lastName: string, newPassword: string, confirmPassword: string)
    requires newPassword != "" && newPassword != confirmPassword
    ensures Validate(firstName, lastName, newPassword, confirmPassword) == Refuse(MismatchText)
  {
  }

  /** The two rejected submissions of the settings scenarios: a mismatch, and "111" typed twice. */
  lemma RejectedExamples(firstName: string, lastName: string)
    ensures Validate(firstName, lastName, "password123", "wrongpassword") == Refuse(MismatchText)
    ensures Validate(firstName, lastName, "111", "111") == Refuse(TooShortText)
  {
    assert "password123" != "wrongpassword" by { assert "password123"[0] != "wrongpassword"[0]; }
  }

  /** A confirmation typed without a new password is ignored: the names alone are sent. */
  lemma ConfirmationAloneIgnored(firstName: string, lastName: string, confirmPassword: string)
    ensures Validate(firstName, lastName, "", confirmPassword) == Send(ProfilePayload(firstName, lastName, None))
  {
  }

  /** The form's state: the profile fields, the two password fields, the success banner and the busy flag. */
  class SettingsForm {
    var firstName: string
    var lastName: string
    var email: string
    var newPassword: string
    var confirmPassword: string
    var successMsg: string
    var loading: bool

    /** The page as first rendered: every field empty, no banner, not busy. */
    constructor ()
      ensures firstName == "" && lastName == "" && email == ""
      ensures newPassword == "" && confirmPassword == ""
      ensures successMsg == "" && !loading
    {
      firstName, lastName, email := "", "", "";
      newPassword, confirmPassword := "", "";
      successMsg, loading := "", false;
    }

    /** The answer to `GET /users/me` fills the three profile fields and nothing else. */
    method ProfileLoaded(first: string, last: string, mail: string)
      modifies this
      ensures firstName == first && lastName == last && email == mail
      ensures newPassword == old(newPassword) && confirmPassword == old(confirmPassword)
      ensures successMsg == old(successMsg) && loading == old(loading)
    {
      firstName, lastName, email := first, last, mail;
    }

    /**
     * `handleUpdateProfile`: clears the banner, then either alerts without sending or sends
     * the payload `Validate` gives; a successful request shows the success banner and
     * clears both password fields, a failed one alerts and keeps them. The profile is
     * never changed and the form is not busy afterwards.
     */
    method HandleUpdateProfile(putSucceeds: bool) returns (request: Option<ProfilePayload>, alert: Option<string>)
      modifies this
      ensures var v := Validate(old(firstName), old(lastName), old(newPassword), old(confirmPassword));
        && request == (if v.Send? then Some(v.payload) else None)
        && alert == (if v.Refuse? then Some(v.alert) else if putSucceeds then None else Some(UpdateFailedText))
        && successMsg == (if v.Send? && putSucceeds then SuccessText else "")
        && (if v.Send? && putSucceeds then newPassword == "" && confirmPassword == ""
            else newPassword == old(newPassword) && confirmPassword == old(confirmPassword))
      ensures firstName == old(firstName) && lastName == old(lastName) && email == old(email)
      ensures !loading
    {
      loading := true;
      successMsg := "";
      var payload := ProfilePayload(firstName, lastName, None);
      if newPassword != "" {
        if newPassword != confirmPassword {
          alert := Some(MismatchText);
          request := None;
          loading := false;
          return;
        }
        if |newPassword| < 6 {
          alert := Some(TooShortText);
          request := None;
          loading := false;
          return;
        }
        payload := payload.(password := Some(newPassword));
      }
      request := Some(payload);
      if putSucceeds {
        successMsg := SuccessText;
        newPassword, confirmPassword := "", "";
        alert := None;
      } else {
        alert := Some(UpdateFailedText);
      }
      loading := false;
    }
  }
}
