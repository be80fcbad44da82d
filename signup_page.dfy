/** The sign-up form: `validate` and the guard and error paths of `handleSignup`. */
module SignupPage {
  import opened Wrappers
  import opened FormRules
  import opened Navigation

  /** The errors object `validate` should produce for the three inputs. */
  function Expected(email: string, username: string, password: string): (e: Errors)
    ensures e.Keys <= {Email, Username, Password}
  {
    Record(Record(Record(map[], Email, EmailMessage(email)), Username, UsernameMessage(username)),
           Password, PasswordMessage(password))
  }

  /** The form passes exactly when every field is acceptable. */
  lemma ExpectedEmptyIff(email: string, username: string, password: string)
    ensures Expected(email, username, password) == map[] <==>
      email != "" && EmailPatternTest(email) && username != "" && |password| >= MinPasswordLength
  {
    var e := Expected(email, username, password);
    if e == map[] {
      assert Email !in e && Username !in e && Password !in e;
    }
  }

  /**
   * `validate`: fills a fresh errors object field by field, at most one message per field, and
   * reports whether it stayed empty.
   */
  method Validate(email: string, username: string, password: string) returns (newErrors: Errors, valid: bool)
    ensures newErrors == Expected(email, username, password)
    ensures valid <==> newErrors == map[]
    ensures valid <==> email != "" && EmailPatternTest(email) && username != "" && |password| >= MinPasswordLength
  {
    newErrors := map[];
    if email == "" {
      newErrors := newErrors[Email := EmailRequired];
    } else if !EmailPatternTest(email) {
      newErrors := newErrors[Email := InvalidEmailFormat];
    }
    if username == "" {
      newErrors := newErrors[Username := UsernameRequired];
    }
    if password == "" {
      newErrors := newErrors[Password := PasswordRequired];
    } else if |password| < MinPasswordLength {
      newErrors := newErrors[Password := PasswordTooShort];
    }
    valid := |newErrors.Keys| == 0;
    ExpectedEmptyIff(email, username, password);
  }

  /** How the sign-up request settled; a rejection carries `error.response?.data?.error` when there is one. */
  datatype SignupResult = Accepted | Rejected(serverError: Option<string>)

  /**
   * `handleSignup`: only a valid form is sent. Success navigates to the login page; failure sets
   * `general` on the errors object of the render that started the click.
   */
  method HandleSignup(errors: Errors, email: string, username: string, password: string, result: SignupResult)
    returns (next: Errors, sent: bool, navigate: Option<Request>)
    ensures sent <==> Expected(email, username, password) == map[]
    ensures !sent ==> next == Expected(email, username, password) && navigate == None
    ensures sent && result.Accepted? ==> next == map[] && navigate == Some(Request("login", None))
    ensures sent && result.Rejected? ==>
      next == errors[General := OrElse(result.serverError, "Signup failed")] && navigate == None
  {
    var valid;
    next, valid := Validate(email, username, password);
    sent, navigate := false, None;
    if valid {
      sent := true;
      match result {
        case Accepted =>
          navigate := Some(Request("login", None));
        case Rejected(serverError) =>
          next := errors[General := OrElse(serverError, "Signup failed")];
      }
    }
  }

  /**
   * As written, a field message from an earlier click comes back after a failed sign-up even
   * though this click's input passed validation.
   */
  method StaleErrorWitness() returns (shown: Errors)
    ensures EmailPatternTest("kid@safe.quest")
    ensures Email in shown && shown[Email] == InvalidEmailFormat
  {
    var earlier := map[Email := InvalidEmailFormat];
    assert MatchesAt("kid@safe.quest", 0, 3, 8, 14);
    ExpectedEmptyIff("kid@safe.quest", "ada", "secret1");
    var sent, navigate;
    shown, sent, navigate := HandleSignup(earlier, "kid@safe.quest", "ada", "secret1", Rejected(None));
  }

  /** `handleSignup` adding `general` to the freshly validated errors: field messages always describe the submitted input. */
  method HandleSignupFresh(errors: Errors, email: string, username: string, password: string, result: SignupResult)
    returns (next: Errors, sent: bool, navigate: Option<Request>)
    ensures sent <==> Expected(email, username, password) == map[]
    ensures next - {General} == Expected(email, username, password)
    ensures !sent ==> next == Expected(email, username, password) && navigate == None
    ensures sent && result.Accepted? ==> next == map[] && navigate == Some(Request("login", None))
    ensures sent && result.Rejected? ==>
      next == map[General := OrElse(result.serverError, "Signup failed")] && navigate == None
  {
    var valid;
    next, valid := Validate(email, username, password);
    sent, navigate := false, None;
    if valid {
      sent := true;
      match result {
        case Accepted =>
          navigate := Some(Request("login", None));
        case Rejected(serverError) =>
          next := next[General := OrElse(serverError, "Signup failed")];
      }
    }
  }
}
