/**
 * The "Add User" dialog: its form, which starts with the VIEWER role, and the submit
 * handler, which posts the form and, on failure, turns whatever the server put in the
 * response's `error` into the message of the error banner.
 */
module CreateUserModal {
  import opened Wrappers
  import opened Strings

  const DefaultMessage := "Failed to create user"

  /**
   * The `error` value of a failed response: a list of validation issues (each issue's
   * message, "" where it has none), a string, an object with or without a `message`, or
   * anything else (absent, null, a number).
   */
  datatype ErrorBody = Issues(messages: seq<string>) | Text(s: string) | Object(message: Option<string>) | Other

  /**
   * The message shown: the issue messages joined by ", ", the string itself, a truthy
   * `message` of an object, and the fixed text in every other case.
   */
  function DisplayMessage(e: ErrorBody): (r: string)
    ensures e.Issues? ==> r == JoinWith(e.messages, ", ")
    ensures e.Text? ==> r == e.s
    ensures e.Object? && e.message.Some? && e.message.value != "" ==> r == e.message.value
    ensures e.Other? || (e.Object? && (e.message.None? || e.message.value == "")) ==> r == DefaultMessage
  {
    match e
    case Issues(ms) => JoinWith(ms, ", ")
    case Text(s) => s
    case Object(m) => if m.Some? && m.value != "" then m.value else DefaultMessage
    case Other => DefaultMessage
  }

  /** A join is empty exactly when there is nothing to join or a single empty part. */
  lemma JoinWithEmpty(parts: seq<string>, sep: string)
    requires sep != ""
    ensures JoinWith(parts, sep) == "" <==> |parts| == 0 || (|parts| == 1 && parts[0] == "")
  {
    if |parts| >= 2 {
      assert |JoinWith(parts, sep)| >= |sep|;
    }
  }

  /**
   * The banner is shown unless the message is empty, which happens only for an empty
   * string, an empty issue list, or a single issue without a message.
   */
  lemma BannerHiddenCases(e: ErrorBody)
    ensures DisplayMessage(e) == "" <==> e == Text("") || e == Issues([]) || e == Issues([""])
  {
    if e.Issues? {
      JoinWithEmpty(e.messages, ", ");
      if |e.messages| == 1 && e.messages[0] == "" {
        assert e.messages == [""];
      }
    }
  }

  /** Two validation issues are shown side by side. */
  lemma TwoIssues(a: string, b: string)
    ensures DisplayMessage(Issues([a, b])) == a + ", " + b
  {
    assert [a, b][1..] == [b];
    assert JoinWith([b], ", ") == b;
    assert JoinWith([a, b], ", ") == a + ", " + JoinWith([b], ", ");
  }

  /** The data posted to `POST /users`. */
  datatype UserForm = UserForm(firstName: string, lastName: string, email: string, password: string, role: string)

  /** The dialog's state: the form, the busy flag and the banner text ("" hides the banner). */
  class CreateUserDialog {
    var form: UserForm
    var loading: bool
    var error: string

    /** The dialog as opened: empty fields, the VIEWER role, no banner. */
    constructor ()
      ensures form == UserForm("", "", "", "", "VIEWER")
      ensures !loading && error == ""
    {
      form := UserForm("", "", "", "", "VIEWER");
      loading := false;
      error := "";
    }

    /**
     * `handleSubmit`: posts the form as it is; on success the list is refreshed and the
     * dialog closed; on failure the banner shows the display message for the server's
     * error. The form is never changed and the dialog is not busy afterwards.
     */
    method HandleSubmit(failure: Option<ErrorBody>) returns (posted: UserForm, closed: bool)
      modifies this
      ensures posted == old(form) && form == old(form)
      ensures closed <==> failure.None?
      ensures error == if failure.None? then "" else DisplayMessage(failure.value)
      ensures !loading
    {
      loading := true;
      error := "";
      posted := form;
      if failure.None? {
        closed := true;
      } else {
        closed := false;
        var backendError := failure.value;
        var displayMessage := DefaultMessage;
        if backendError.Issues? {
          displayMessage := JoinWith(backendError.messages, ", ");
        } else if backendError.Text? {
          displayMessage := backendError.s;
        } else if backendError.Object? && backendError.message.Some? && backendError.message.value != "" {
          displayMessage := backendError.message.value;
        }
        error := displayMessage;
      }
      loading := false;
    }
  }
}
