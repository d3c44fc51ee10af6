/** The sign-up form, client/src/components/InterestForm.js: name, email and
    message are checked in a fixed order, a filled honeypot field marks a
    bot, and a valid form is posted. */
module InterestForm {
  import opened JsValues
  import opened Strings
  import opened Client
  import Metadata

  const MaxMessage := 180

  /** `/\S+@\S+\.\S+/.test(email)`: somewhere in the text, a non-blank run,
      an `@`, a non-blank run, a dot and a non-blank character. A run may
      itself hold `@` or `.`; one character of each run is enough since the
      pattern is not anchored. */
  predicate EmailLike(email: string)
  {
    exists i, j :: 0 < i && i + 1 < j && j + 1 < |email| &&
      !IsSpace(email[i - 1]) && email[i] == '@' && NoSpace(email[i + 1..j]) && email[j] == '.' &&
      !IsSpace(email[j + 1])
  }

  /** Any blank-free text around `@` and `.` passes. */
  lemma EmailLikeOf(a: string, b: string, c: string)
    requires a != [] && b != [] && c != [] && NoSpace(a) && NoSpace(b) && NoSpace(c)
    ensures EmailLike(a + "@" + b + "." + c)
  {
    var s := a + "@" + b + "." + c;
    var i := |a|;
    var j := |a| + 1 + |b|;
    assert s[i + 1..j] == b;
    assert s[i - 1] == a[|a| - 1] && s[j + 1] == c[0];
    assert s[i] == '@' && s[j] == '.';
    assert 0 < i && i + 1 < j && j + 1 < |s| && !IsSpace(s[i - 1]) && NoSpace(s[i + 1..j]) && !IsSpace(s[j + 1]);
  }

  /** A passing address has an `@` followed later by a dot, neither at an end. */
  lemma EmailLikeShape(email: string)
    requires EmailLike(email)
    ensures exists i, j :: 0 < i < j < |email| - 1 && email[i] == '@' && email[j] == '.'
  {
  }

  /** Without an `@` an address fails. */
  lemma NoAtNoEmail(email: string)
    requires '@' !in email
    ensures !EmailLike(email)
  {
    forall i | 0 <= i < |email| ensures email[i] != '@' {
      assert email[i] in email;
    }
  }

  /** The first failing check's message, in the order the form checks, or
      none when the form may be sent. */
  function Validate(name: string, email: string, message: string, honeypot: string): (e: Option<string>)
    ensures (name == "" || email == "") <==> e == Some("Name and email are required.")
    ensures name != "" && email != "" && !EmailLike(email) <==> e == Some("Please enter a valid email address.")
    ensures name != "" && email != "" && EmailLike(email) && Utf16Length(message) > MaxMessage <==>
      e == Some("Message must not exceed 180 characters.")
    ensures name != "" && email != "" && EmailLike(email) && Utf16Length(message) <= MaxMessage && honeypot != "" <==>
      e == Some("Bot detected. Submission rejected.")
    ensures e.None? <==> name != "" && email != "" && EmailLike(email) && Utf16Length(message) <= MaxMessage && honeypot == ""
  {
    if name == "" || email == "" then Some("Name and email are required.")
    else if !EmailLike(email) then Some("Please enter a valid email address.")
    else if Utf16Length(message) > MaxMessage then Some("Message must not exceed 180 characters.")
    else if honeypot != "" then Some("Bot detected. Submission rejected.")
    else None
  }

  /** The `/add-farmer` body: the honeypot is not sent. */
  datatype Farmer = Farmer(name: string, email: string, message: string)

  const Submitted := "Your information has been submitted successfully."

  class InterestForm {
    var name: string
    var email: string
    var message: string
    var honeypot: string
    var error: string
    var successMessage: string
    var loading: bool

    constructor ()
      ensures name == "" && email == "" && message == "" && honeypot == ""
      ensures error == "" && successMessage == "" && !loading
    {
      name, email, message, honeypot := "", "", "", "";
      error, successMessage := "", "";
      loading := false;
    }

    /** `handleSubmit`: both messages are cleared first; a failing check
        shows its message and nothing is sent. Otherwise the form is posted;
        `success` clears name, email and message (not the honeypot), any
        other answer or a failure of the request shows an error. `thrown`
        is the message of a failed request. */
    method HandleSubmit(reply: Call<Answer>, thrown: string) returns (request: Option<Farmer>)
      modifies this
      ensures var v := Validate(old(name), old(email), old(message), old(honeypot));
        (v.Some? ==> request.None? && error == v.value && successMessage == "" &&
                     name == old(name) && email == old(email) && message == old(message)) &&
        (v.None? ==>
          request == Some(Farmer(old(name), old(email), old(message))) && !loading &&
          (reply.Returned? && reply.body.success ==>
             successMessage == Submitted && error == "" && name == "" && email == "" && message == "") &&
          (reply.Returned? && !reply.body.success ==>
             successMessage == "" && error == Metadata.Template(Or(reply.body.message, Str("Failed to submit information."))) &&
             name == old(name) && email == old(email) && message == old(message)) &&
          (reply.Threw? ==>
             successMessage == "" &&
             error == (if thrown != "" then thrown else "An error occurred. Please try again later.") &&
             name == old(name) && email == old(email) && message == old(message)))
      ensures honeypot == old(honeypot)
    {
      error := "";
      successMessage := "";
      var invalid := Validate(name, email, message, honeypot);
      if invalid.Some? {
        error := invalid.value;
        return None;
      }
      loading := true;
      request := Some(Farmer(name, email, message));
      match reply {
        case Threw =>
          error := if thrown != "" then thrown else "An error occurred. Please try again later.";
        case Returned(answer) =>
          if answer.success {
            successMessage := Submitted;
            name, email, message := "", "", "";
          } else {
            error := Metadata.Template(Or(answer.message, Str("Failed to submit information.")));
          }
      }
      loading := false;
    }
  }
}
