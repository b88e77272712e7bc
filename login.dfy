/**
 * The user sign-in page (app/public/login/page.tsx): the email pattern, the per-field
 * errors, and how the reply of the login request becomes a session or a message. The
 * request itself is not made here: its reply is a parameter.
 */
module Login {
  import opened Wrappers
  import opened Text

  /** A character of the class `[^\s@]`. */
  predicate Plain(c: char) {
    !IsSpace(c) && c != '@'
  }

  predicate AllPlain(s: string) {
    forall k :: 0 <= k < |s| ==> Plain(s[k])
  }

  /** The language of the pattern `^[^\s@]+@[^\s@]+\.[^\s@]+$`: a run of plain characters,
      '@', a run, '.', a run, every run non-empty. */
  ghost predicate MatchesEmailPattern(s: string) {
    exists i, j :: 0 < i && i + 1 < j && j + 1 < |s| && s[i] == '@' && s[j] == '.'
      && AllPlain(s[..i]) && AllPlain(s[i + 1..j]) && AllPlain(s[j + 1..])
  }

  /** The number of occurrences of `c` in `s`. */
  function CountChar(s: string, c: char): (n: nat)
    ensures n <= |s|
  {
    if s == [] then 0 else (if s[0] == c then 1 else 0) + CountChar(s[1..], c)
  }

  /** The index of the first `c` in `s`, if any. */
  function FirstIndex(s: string, c: char): (r: Option<nat>)
    ensures r.Some? ==> r.value < |s| && s[r.value] == c
    ensures r.Some? ==> forall k :: 0 <= k < r.value ==> s[k] != c
    ensures r.None? ==> forall k :: 0 <= k < |s| ==> s[k] != c
  {
    if s == [] then None
    else if s[0] == c then Some(0)
    else
      match FirstIndex(s[1..], c)
      case None => None
      case Some(k) => Some(k + 1)
  }

  /** `validateEmail`: no white space, exactly one '@' with something before it, and after
      it a '.' that is neither the first nor the last character. */
  function ValidateEmail(email: string): (r: bool)
    ensures r ==> CountChar(email, '@') == 1
    ensures r ==> forall k :: 0 <= k < |email| ==> !IsSpace(email[k])
  {
    && (forall k | 0 <= k < |email| :: !IsSpace(email[k]))
    && CountChar(email, '@') == 1
    && match FirstIndex(email, '@')
       case None => false
       case Some(at) => at > 0 && exists q | at + 1 < q < |email| - 1 :: email[q] == '.'
  }

  lemma {:induction false} CountAppend(a: string, b: string, c: char)
    ensures CountChar(a + b, c) == CountChar(a, c) + CountChar(b, c)
  {
    if a != [] {
      assert (a + b)[1..] == a[1..] + b;
      CountAppend(a[1..], b, c);
    } else {
      assert a + b == b;
    }
  }

  lemma {:induction false} CountZero(s: string, c: char)
    ensures CountChar(s, c) == 0 <==> forall k :: 0 <= k < |s| ==> s[k] != c
  {
    if s != [] {
      CountZero(s[1..], c);
      assert forall k :: 1 <= k < |s| ==> s[k] == s[1..][k - 1];
    }
  }

  /** With a `c` at `p`, there is exactly one `c` iff no other index holds one. */
  lemma {:induction false} CountOneAt(s: string, c: char, p: nat)
    requires p < |s| && s[p] == c
    ensures CountChar(s, c) == 1 <==> forall k :: 0 <= k < |s| && k != p ==> s[k] != c
  {
    assert s == s[..p] + [s[p]] + s[p + 1..];
    CountAppend(s[..p] + [s[p]], s[p + 1..], c);
    CountAppend(s[..p], [s[p]], c);
    assert CountChar([s[p]], c) == 1;
    CountZero(s[..p], c);
    CountZero(s[p + 1..], c);
    assert forall k :: p < k < |s| ==> s[k] == s[p + 1..][k - p - 1];
  }

  /** `validateEmail` accepts exactly the strings the pattern matches. */
  lemma {:induction false} ValidateEmailIsPattern(email: string)
    ensures ValidateEmail(email) <==> MatchesEmailPattern(email)
  {
    if ValidateEmail(email) {
      ValidEmailMatches(email);
    }
    if MatchesEmailPattern(email) {
      MatchingEmailIsValid(email);
    }
  }

  lemma {:induction false} ValidEmailMatches(email: string)
    requires ValidateEmail(email)
    ensures MatchesEmailPattern(email)
  {
    var at := FirstIndex(email, '@').value;
    var q :| at + 1 < q < |email| - 1 && email[q] == '.';
    CountOneAt(email, '@', at);
    assert AllPlain(email[..at]);
    assert AllPlain(email[at + 1..q]);
    assert AllPlain(email[q + 1..]);
  }

  lemma {:induction false} MatchingEmailIsValid(email: string)
    requires MatchesEmailPattern(email)
    ensures ValidateEmail(email)
  {
    var i, j :| 0 < i && i + 1 < j && j + 1 < |email| && email[i] == '@' && email[j] == '.'
      && AllPlain(email[..i]) && AllPlain(email[i + 1..j]) && AllPlain(email[j + 1..]);
    forall k | 0 <= k < |email| && k != i
      ensures Plain(email[k])
    {
      if k < i {
        assert email[k] == email[..i][k];
      } else if k < j {
        assert email[k] == email[i + 1..j][k - i - 1];
      } else if k > j {
        assert email[k] == email[j + 1..][k - j - 1];
      }
    }
    CountOneAt(email, '@', i);
    assert FirstIndex(email, '@') == Some(i);
  }

  /** The email field's error: required first, then the pattern. */
  function EmailError(email: string): (r: Option<string>)
    ensures email == [] ==> r == Some("Email is required")
    ensures email != [] && !ValidateEmail(email) ==> r == Some("Please enter a valid email address")
    ensures r.None? <==> ValidateEmail(email)
  {
    if email == [] then Some("Email is required")
    else if !ValidateEmail(email) then Some("Please enter a valid email address")
    else None
  }

  /** The password field's error, which looks at the password only. */
  function PasswordError(password: string): (r: Option<string>)
    ensures r.None? <==> password != []
    ensures r.Some? ==> r.value == "Password is required"
  {
    if password == [] then Some("Password is required") else None
  }

  /** The reply to the login request: a body with an optional token, an API error with
      its status and optional message, or a failure to reach the server. */
  datatype LoginReply = Reply(token: Option<string>) | ApiError(status: int, errorMessage: Option<string>) | NetworkFailure

  /** How a submit ends. */
  datatype SubmitResult =
    | FieldErrors(email: Option<string>, password: Option<string>)
    | SignedIn(token: string)
    | GeneralError(message: string)

  /** What the reply becomes: a session for a non-empty token, otherwise the message the
      page shows. */
  function ReplyOutcome(reply: LoginReply): (r: SubmitResult)
    ensures !r.FieldErrors?
    ensures r.SignedIn? <==> reply.Reply? && reply.token.Some? && reply.token.value != []
    ensures r.SignedIn? ==> r.token == reply.token.value
    ensures reply.Reply? && !r.SignedIn? ==> r == GeneralError("Invalid response from server")
    ensures reply.ApiError? && reply.status == 401 ==> r == GeneralError("Invalid email or password")
    ensures reply.ApiError? && reply.status != 401 && reply.errorMessage.Some? && reply.errorMessage.value != [] ==>
      r == GeneralError(reply.errorMessage.value)
    ensures reply.ApiError? && reply.status != 401 && (reply.errorMessage.None? || reply.errorMessage.value == []) ==>
      r == GeneralError("An error occurred. Please try again.")
    ensures reply.NetworkFailure? ==> r == GeneralError("Network error. Please check your connection.")
  {
    match reply
    case Reply(token) =>
      if token.Some? && token.value != [] then SignedIn(token.value) else GeneralError("Invalid response from server")
    case ApiError(status, errorMessage) =>
      if status == 401 then GeneralError("Invalid email or password")
      else if errorMessage.Some? && errorMessage.value != [] then GeneralError(errorMessage.value)
      else GeneralError("An error occurred. Please try again.")
    case NetworkFailure =>
      GeneralError("Network error. Please check your connection.")
  }

  /** `handleSubmit` as a value: field errors stop the submit before any request;
      otherwise the reply decides. */
  function SubmitOutcome(email: string, password: string, reply: LoginReply): (r: SubmitResult)
    ensures r.FieldErrors? <==> EmailError(email).Some? || PasswordError(password).Some?
    ensures r.FieldErrors? ==> r.email == EmailError(email) && r.password == PasswordError(password)
    ensures !r.FieldErrors? ==> r == ReplyOutcome(reply)
  {
    var emailError, passwordError := EmailError(email), PasswordError(password);
    if emailError.Some? || passwordError.Some? then FieldErrors(emailError, passwordError)
    else ReplyOutcome(reply)
  }

  /** With a field error the reply plays no part: no request is made. */
  lemma {:induction false} FieldErrorsIgnoreReply(email: string, password: string, a: LoginReply, b: LoginReply)
    requires EmailError(email).Some? || PasswordError(password).Some?
    ensures SubmitOutcome(email, password, a) == SubmitOutcome(email, password, b)
  {
  }

  /** The errors the form shows. */
  datatype Errors = Errors(email: Option<string>, password: Option<string>, general: Option<string>)

  /** The sign-in page's state. */
  class LoginPage {
    var email: string
    var password: string
    var errors: Errors
    var isLoading: bool
    /** The token handed to the API client after a successful sign-in. */
    var apiToken: Option<string>
    /** Where the router was sent, if anywhere. */
    var navigatedTo: Option<string>

    constructor(email: string, password: string)
      ensures this.email == email && this.password == password
      ensures errors == Errors(None, None, None) && !isLoading && apiToken.None? && navigatedTo.None?
    {
      this.email := email;
      this.password := password;
      errors := Errors(None, None, None);
      isLoading := false;
      apiToken := None;
      navigatedTo := None;
    }

    /** `handleSubmit` with the login request's reply given: the field errors are built one
        field at a time; any of them is shown and ends the submit (`requested` is false);
        otherwise the request is made and its reply signs in and navigates to the
        bookings, or is shown as a general error. */
    method Submit(reply: LoginReply) returns (requested: bool)
      modifies this
      ensures requested <==> !SubmitOutcome(email, password, reply).FieldErrors?
      ensures var r := SubmitOutcome(email, password, reply);
        && (r.FieldErrors? ==> errors == Errors(r.email, r.password, None))
        && (r.SignedIn? ==> errors == Errors(None, None, None) && apiToken == Some(r.token)
                            && navigatedTo == Some("/public/view-booking"))
        && (r.GeneralError? ==> errors == Errors(None, None, Some(r.message)))
        && (!r.SignedIn? ==> apiToken == old(apiToken) && navigatedTo == old(navigatedTo))
      ensures email == old(email) && password == old(password)
      ensures requested ==> !isLoading
      ensures !requested ==> isLoading == old(isLoading)
    {
      errors := Errors(None, None, None);
      var emailError, passwordError := EmailError(email), PasswordError(password);
      if emailError.Some? || passwordError.Some? {
        errors := Errors(emailError, passwordError, None);
        return false;
      }
      requested := true;
      isLoading := true;
      var outcome := ReplyOutcome(reply);
      assert outcome == SubmitOutcome(email, password, reply);
      if outcome.SignedIn? {
        apiToken := Some(outcome.token);
        navigatedTo := Some("/public/view-booking");
      } else if outcome.GeneralError? {
        errors := Errors(None, None, Some(outcome.message));
      }
      isLoading := false;
    }
  }
}
