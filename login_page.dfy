/** The login form of the older front end: `validate` and the guard and error paths of `handleLogin`. */
module LoginPage {
  import opened Wrappers
  import opened FormRules
  import opened Navigation

  const LoginFailed := "Login failed. Please check your credentials."

  /** The errors object `validate` should produce for the two inputs. */
  function Expected(email: string, password: string): (e: Errors)
    ensures e.Keys <= {Email, Password}
  {
    Record(Record(map[], Email, EmailMessage(email)), Password, PasswordMessage(password))
  }

  /** The form passes exactly when both fields are acceptable. */
  lemma ExpectedEmptyIff(email: string, password: string)
    ensures Expected(email, password) == map[] <==>
      email != "" && EmailPatternTest(email) && |password| >= MinPasswordLength
  {
    var e := Expected(email, password);
    if e == map[] {
      assert Email !in e && Password !in e;
    }
  }

  /** `validate`: fills a fresh errors object field by field and reports whether it stayed empty. */
  method Validate(email: string, password: string) returns (newErrors: Errors, valid: bool)
    ensures newErrors == Expected(email, password)
    ensures valid <==> newErrors == map[]
    ensures valid <==> email != "" && EmailPatternTest(email) && |password| >= MinPasswordLength
  {
    newErrors := map[];
    if email == "" {
      newErrors := newErrors[Email := EmailRequired];
    } else if !EmailPatternTest(email) {
      newErrors := newErrors[Email := InvalidEmailFormat];
    }
    if password == "" {
      newErrors := newErrors[Password := PasswordRequired];
    } else if |password| < MinPasswordLength {
      newErrors := newErrors[Password := PasswordTooShort];
    }
    valid := |newErrors.Keys| == 0;
    ExpectedEmptyIff(email, password);
  }

  /** How the sign-in request settled: the account the server sent back, or any failure. */
  datatype LoginResult = Accepted(data: User) | Refused

  /**
   * `handleLogin`: only a valid form is sent. Success goes to the welcome page carrying the
   * response as the user; failure sets the fixed `general` message on the errors object of the
   * render that started the click.
   */
  method HandleLogin(errors: Errors, email: string, password: string, result: LoginResult)
    returns (next: Errors, sent: bool, navigate: Option<Request>)
    ensures sent <==> Expected(email, password) == map[]
    ensures !sent ==> next == Expected(email, password) && navigate == None
    ensures sent && result.Accepted? ==>
      next == map[] && navigate == Some(Request("welcome", Some(NavData(Some(result.data)))))
    ensures sent && result.Refused? ==> next == errors[General := LoginFailed] && navigate == None
  {
    var valid;
    next, valid := Validate(email, password);
    sent, navigate := false, None;
    if valid {
      sent := true;
      match result {
        case Accepted(data) =>
          navigate := Some(Request("welcome", Some(NavData(Some(data)))));
        case Refused =>
          next := errors[General := LoginFailed];
      }
    }
  }

  /**
   * As written, a password message from an earlier click comes back after a refused login even
   * though this click's password is long enough.
   */
  method StaleErrorWitness() returns (shown: Errors)
    ensures |"secret1"| >= MinPasswordLength
    ensures Password in shown && shown[Password] == PasswordTooShort
  {
    var earlier := map[Password := PasswordTooShort];
    assert MatchesAt("kid@safe.quest", 0, 3, 8, 14);
    ExpectedEmptyIff("kid@safe.quest", "secret1");
    var sent, navigate;
    shown, sent, navigate := HandleLogin(earlier, "kid@safe.quest", "secret1", Refused);
  }

  /** `handleLogin` adding `general` to the freshly validated errors: field messages always describe the submitted input. */
  method HandleLoginFresh(errors: Errors, email: string, password: string, result: LoginResult)
    returns (next: Errors, sent: bool, navigate: Option<Request>)
    ensures sent <==> Expected(email, password) == map[]
    ensures next - {General} == Expected(email, password)
    ensures !sent ==> next == Expected(email, password) && navigate == None
    ensures sent && result.Accepted? ==>
      next == map[] && navigate == Some(Request("welcome", Some(NavData(Some(result.data)))))
    ensures sent && result.Refused? ==> next == map[General := LoginFailed] && navigate == None
  {
    var valid;
    next, valid := Validate(email, password);
    sent, navigate := false, None;
    if valid {
      sent := true;
      match result {
        case Accepted(data) =>
          navigate := Some(Request("welcome", Some(NavData(Some(data)))));
        case Refused =>
          next := next[General := LoginFailed];
      }
    }
  }
}
