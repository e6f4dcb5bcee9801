/**
 The login view's state and its handlers. Each field of the view is a field
 of the class; each handler (`handleSubmit`, `handleInputChange`,
 `handleKeyPress`, `handleClearForm`, the window's Escape listener) and each
 timer callback (the submission's resolution, the lockout's expiry, the
 expiry of the oldest alert) is a method. The random outcome of a
 submission and the clock reading that becomes an alert's id are inputs.
 */
module LoginView {
  import opened Text
  import opened FormValidation
  import opened AlertQueue
  import opened Lockout

  /** The two inputs, by their `name` attribute. */
  datatype Field = EmailField | PasswordField

  const AccountBlockedMessage := "Cuenta bloqueada. Espere antes de intentar nuevamente."
  const LoginSuccessMessage := "Inicio de sesi\U{00F3}n exitoso"
  const LockedOutMessage :=
    "Cuenta bloqueada por m\U{00FA}ltiples intentos fallidos. Espere 5 minutos."
  const LockoutExpiredMessage :=
    "Bloqueo expirado. Puede intentar iniciar sesi\U{00F3}n nuevamente."

  /** `Credenciales incorrectas. Intento ${newAttempts}/5`. */
  function FailedAttemptMessage(newAttempts: nat): string {
    "Credenciales incorrectas. Intento " + Decimal(newAttempts) + "/5"
  }

  /** The alert a failed submission adds once the count is `newAttempts`. */
  function FailureAlert(newAttempts: nat, now: int): Alert {
    if BlocksAt(newAttempts) then Alert(now, LockedOutMessage, Error)
    else Alert(now, FailedAttemptMessage(newAttempts), Error)
  }

  /** The attempt message carries the count: the digits between its fixed
      prefix and `/5` read back as the count. */
  lemma FailedAttemptMessageCarriesCount(n: nat)
    ensures var m := FailedAttemptMessage(n);
            var p := |"Credenciales incorrectas. Intento "|;
            |m| == p + |Decimal(n)| + 2 &&
            m[p..|m| - 2] == Decimal(n) && DigitsValue(m[p..|m| - 2]) == n
  {
    DecimalRoundTrip(n);
    var m := FailedAttemptMessage(n);
    var p := |"Credenciales incorrectas. Intento "|;
    assert m[p..|m| - 2] == Decimal(n);
  }

  class LoginView {
    var form: Credentials
    var errors: FormErrors
    var alerts: seq<Alert>
    var failedAttempts: nat
    var isBlocked: bool
    var isLoading: bool

    ghost function LockoutState(): Lockout
      reads this`failedAttempts, this`isBlocked
    {
      Lockout(failedAttempts, isBlocked)
    }

    /** Between events: the lockout invariant holds, and a submission is in
        flight only while the view is not blocked. */
    ghost predicate Valid()
      reads this`failedAttempts, this`isBlocked, this`isLoading
    {
      Inv(LockoutState()) && (isLoading ==> !isBlocked)
    }

    /** The view as it is mounted. */
    constructor ()
      ensures Valid()
      ensures form == EmptyCredentials && errors == NoErrors && alerts == []
      ensures LockoutState() == Unlocked && !isLoading
    {
      form := EmptyCredentials;
      errors := NoErrors;
      alerts := [];
      failedAttempts := 0;
      isBlocked := false;
      isLoading := false;
    }

    /** `addAlert(message, kind)` at clock reading `now`. */
    method AddAlert(message: string, kind: AlertKind, now: int)
      modifies this`alerts
      ensures alerts == Push(old(alerts), Alert(now, message, kind))
    {
      alerts := alerts + [Alert(now, message, kind)];
    }

    /** The alert timer firing: `setAlerts(prev => prev.slice(1))`. */
    method ExpireHead()
      modifies this`alerts
      ensures alerts == DropHead(old(alerts))
    {
      if alerts != [] {
        alerts := alerts[1..];
      }
    }

    /** `validateForm()`: the stored errors are replaced by the ones computed
        from the current fields, and the result says whether there are none. */
    method ValidateForm() returns (valid: bool)
      modifies this`errors
      ensures errors == Validate(form)
      ensures valid <==> IsValid(errors)
    {
      errors := Validate(form);
      valid := IsValid(errors);
    }

    /** `handleSubmit()`. While blocked it only adds the "account blocked"
        alert: it does not validate and changes nothing else. Otherwise it
        validates, and a valid form starts the simulated request. Its two
        callers, the submit button and the Enter key, reach it only when no
        request is in flight. */
    method Submit(now: int)
      requires Valid() && !isLoading
      modifies this`errors, this`alerts, this`isLoading
      ensures Valid()
      ensures old(isBlocked) ==>
                alerts == Push(old(alerts), Alert(now, AccountBlockedMessage, Error)) &&
                errors == old(errors) && !isLoading
      ensures !old(isBlocked) ==>
                errors == Validate(form) && alerts == old(alerts) &&
                (isLoading <==> IsValid(errors))
    {
      if isBlocked {
        AddAlert(AccountBlockedMessage, Error, now);
        return;
      }
      var valid := ValidateForm();
      if !valid {
        return;
      }
      isLoading := true;
    }

    /** The simulated request resolving after its delay; `success` stands for
        `Math.random() > 0.5`. Success adds a success alert and leaves the
        lockout alone; failure records one more failed attempt, blocks at the
        fifth and adds the matching alert. Either way the request is over. */
    method Resolve(success: bool, now: int)
      requires Valid() && isLoading
      modifies this`alerts, this`failedAttempts, this`isBlocked, this`isLoading
      ensures Valid() && !isLoading
      ensures success ==>
                LockoutState() == old(LockoutState()) &&
                alerts == Push(old(alerts), Alert(now, LoginSuccessMessage, Success))
      ensures !success ==>
                LockoutState() == RecordFailure(old(LockoutState())) &&
                failedAttempts == old(failedAttempts) + 1 &&
                (isBlocked <==> failedAttempts == MaxFailedAttempts) &&
                alerts == Push(old(alerts), FailureAlert(failedAttempts, now))
    {
      if success {
        AddAlert(LoginSuccessMessage, Success, now);
      } else {
        RecordFailureKeepsInv(LockoutState());
        var newAttempts := failedAttempts + 1;
        failedAttempts := newAttempts;
        if newAttempts >= MaxFailedAttempts {
          isBlocked := true;
          AddAlert(LockedOutMessage, Error, now);
        } else {
          AddAlert(FailedAttemptMessage(newAttempts), Error, now);
        }
      }
      isLoading := false;
    }

    /** The lockout's cool-down elapsing: the count and the block are reset to
        `(0, false)` and an informational alert is added. */
    method Unblock(now: int)
      requires Valid() && isBlocked
      modifies this`alerts, this`failedAttempts, this`isBlocked
      ensures Valid()
      ensures LockoutState() == Unlocked
      ensures alerts == Push(old(alerts), Alert(now, LockoutExpiredMessage, Info))
    {
      isBlocked := false;
      failedAttempts := 0;
      AddAlert(LockoutExpiredMessage, Info, now);
    }

    /** `handleInputChange`: the email is stored trimmed, the password as
        typed, and only the changed field's error is blanked. */
    method InputChange(field: Field, value: string)
      modifies this`form, this`errors
      ensures field == EmailField ==>
                form == Credentials(Trim(value), old(form).password) &&
                errors == FormErrors(None, old(errors).password)
      ensures field == PasswordField ==>
                form == Credentials(old(form).email, value) &&
                errors == FormErrors(old(errors).email, None)
    {
      match field
      case EmailField =>
        form := form.(email := Trim(value));
        if errors.email != None {
          errors := errors.(email := None);
        }
      case PasswordField =>
        form := form.(password := value);
        if errors.password != None {
          errors := errors.(password := None);
        }
    }

    /** `handleKeyPress`: Enter submits, but only when the view is neither
        blocked nor waiting for a request; any other key, or Enter at another
        time, changes nothing. */
    method KeyPress(key: string, now: int)
      requires Valid()
      modifies this`errors, this`alerts, this`isLoading
      ensures Valid()
      ensures key == "Enter" && !old(isBlocked) && !old(isLoading) ==>
                errors == Validate(form) && alerts == old(alerts) &&
                (isLoading <==> IsValid(errors))
      ensures !(key == "Enter" && !old(isBlocked) && !old(isLoading)) ==>
                errors == old(errors) && alerts == old(alerts) && isLoading == old(isLoading)
    {
      if key == "Enter" && !isBlocked && !isLoading {
        Submit(now);
      }
    }

    /** `handleClearForm`: empties both fields and all errors, unless the view
        is blocked, when it does nothing. */
    method ClearForm()
      modifies this`form, this`errors
      ensures old(isBlocked) ==> form == old(form) && errors == old(errors)
      ensures !old(isBlocked) ==> form == EmptyCredentials && errors == NoErrors
    {
      if !isBlocked {
        form := EmptyCredentials;
        errors := NoErrors;
      }
    }

    /** The window's keydown listener: Escape clears the form. */
    method KeyDown(key: string)
      modifies this`form, this`errors
      ensures key == "Escape" && !old(isBlocked) ==>
                form == EmptyCredentials && errors == NoErrors
      ensures !(key == "Escape" && !old(isBlocked)) ==>
                form == old(form) && errors == old(errors)
    {
      if key == "Escape" {
        ClearForm();
      }
    }
  }

  /** The view after `k` rejected logins since it was mounted: the lockout is
      that of `k` failures from `(0, false)`, no request is in flight, the
      credentials still pass validation, and the last alert is the `k`-th
      failure's. */
  ghost predicate AfterRejections(view: LoginView, k: nat, now: int)
    reads view
  {
    k <= MaxFailedAttempts && view.Valid() && !view.isLoading &&
    IsValid(Validate(view.form)) && view.LockoutState() == Failures(Unlocked, k) &&
    (k > 0 ==> view.alerts != [] &&
               view.alerts[|view.alerts| - 1] == FailureAlert(view.failedAttempts, now))
  }

  /** Five rejected logins in a row, with an email and a password that pass
      validation once typed in, block a freshly mounted view: the count is
      five, the view is blocked, no request is in flight, and the last alert
      is the lockout alert. */
  method FiveRejectedLogins(email: string, password: string, now: int)
    returns (blocked: bool, attempts: nat, last: Alert)
    requires IsValid(Validate(Credentials(Trim(email), password)))
    ensures blocked && attempts == MaxFailedAttempts
    ensures last == Alert(now, LockedOutMessage, Error)
  {
    var view := MountAndFill(email, password);
    assert AfterRejections(view, 0, now);
    RejectFiveTimes(view, now);
    LockedAfterFive(view, now);
    blocked, attempts, last := view.isBlocked, view.failedAttempts, view.alerts[|view.alerts| - 1];
  }

  /** Five submit-and-fail rounds, one after the other. */
  method RejectFiveTimes(view: LoginView, now: int)
    requires AfterRejections(view, 0, now)
    modifies view`errors, view`alerts, view`isLoading, view`failedAttempts, view`isBlocked
    ensures AfterRejections(view, MaxFailedAttempts, now)
  {
    var i := 0;
    while i < MaxFailedAttempts
      invariant AfterRejections(view, i, now)
    {
      RejectedLogin(view, i, now);
      i := i + 1;
    }
  }

  /** After five rejections the view is blocked at five and its last alert is
      the lockout alert. */
  lemma LockedAfterFive(view: LoginView, now: int)
    requires AfterRejections(view, MaxFailedAttempts, now)
    ensures view.isBlocked && view.failedAttempts == MaxFailedAttempts
    ensures view.alerts != [] &&
            view.alerts[|view.alerts| - 1] == Alert(now, LockedOutMessage, Error)
  {
    FailuresFromUnlocked(MaxFailedAttempts);
  }

  /** The `k + 1`-th submission of valid credentials, resolved as a failure,
      on a view that has seen `k < 5` of them. */
  method RejectedLogin(view: LoginView, k: nat, now: int)
    requires k < MaxFailedAttempts && AfterRejections(view, k, now)
    modifies view`errors, view`alerts, view`isLoading, view`failedAttempts, view`isBlocked
    ensures AfterRejections(view, k + 1, now)
  {
    FailuresFromUnlocked(k);
    FailuresStep(Unlocked, k);
    FailedLogin(view, now);
  }

  /** A submission of valid credentials on an open view, resolved as a
      failure: one failure is recorded and its alert is the last one. */
  method FailedLogin(view: LoginView, now: int)
    requires view.Valid() && !view.isLoading && !view.isBlocked
    requires IsValid(Validate(view.form))
    modifies view`errors, view`alerts, view`isLoading, view`failedAttempts, view`isBlocked
    ensures view.Valid() && !view.isLoading
    ensures view.LockoutState() == RecordFailure(old(view.LockoutState()))
    ensures view.alerts != [] &&
            view.alerts[|view.alerts| - 1] == FailureAlert(view.failedAttempts, now)
  {
    view.Submit(now);
    view.Resolve(false, now);
  }

  /** A freshly mounted view with `email` and `password` typed in. */
  method MountAndFill(email: string, password: string) returns (view: LoginView)
    ensures fresh(view) && view.Valid() && !view.isLoading
    ensures view.LockoutState() == Unlocked && view.alerts == []
    ensures view.form == Credentials(Trim(email), password)
  {
    view := new LoginView();
    view.InputChange(EmailField, email);
    view.InputChange(PasswordField, password);
  }

  /** `a@b.com` and `secret` are credentials that pass validation once typed
      in, so `FiveRejectedLogins` can be called. */
  lemma ValidScenarioCredentials()
    ensures IsValid(Validate(Credentials(Trim("a@b.com"), "secret")))
  {
    SampleAddressValid();
    assert Utf16Length("secret") >= |"secret"|;
  }
}
