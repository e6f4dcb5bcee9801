/**
 The login form's field checks, `validateForm`: at most one message per
 field, and the form is valid exactly when neither field has one.
 */
module FormValidation {
  import opened Text
  import opened EmailFormat

  datatype Option<T> = None | Some(value: T)

  /** The form's two fields, `formData`. */
  datatype Credentials = Credentials(email: string, password: string)

  const EmptyCredentials := Credentials("", "")

  datatype EmailError = EmailRequired | EmailInvalid

  datatype PasswordError = PasswordRequired | PasswordTooShort

  /** The stored `errors` object. A field that has no error and a field whose
      error was blanked to `''` are both `None`: the view treats either as
      "no message" and shows nothing under the field. */
  datatype FormErrors = FormErrors(email: Option<EmailError>, password: Option<PasswordError>)

  const NoErrors := FormErrors(None, None)

  /** The shortest password the form accepts, in UTF-16 code units. */
  const MinPasswordLength := 3

  function EmailMessage(e: EmailError): string {
    match e
    case EmailRequired => "El correo electr\U{00F3}nico es obligatorio"
    case EmailInvalid => "Ingrese un correo electr\U{00F3}nico v\U{00E1}lido"
  }

  function PasswordMessage(e: PasswordError): string {
    match e
    case PasswordRequired => "La contrase\U{00F1}a es obligatoria"
    case PasswordTooShort => "La contrase\U{00F1}a es muy corta"
  }

  /** The email check: blank after trimming, else a failed format test on the
      untrimmed value. */
  function CheckEmail(email: string): Option<EmailError> {
    if Trim(email) == [] then Some(EmailRequired)
    else if !IsValidEmail(email) then Some(EmailInvalid)
    else None
  }

  /** The password check: empty, else shorter than three code units. */
  function CheckPassword(password: string): Option<PasswordError> {
    if password == [] then Some(PasswordRequired)
    else if Utf16Length(password) < MinPasswordLength then Some(PasswordTooShort)
    else None
  }

  /** The errors one validation pass computes. */
  function Validate(c: Credentials): FormErrors {
    FormErrors(CheckEmail(c.email), CheckPassword(c.password))
  }

  /** `Object.keys(newErrors).length === 0`. */
  predicate IsValid(e: FormErrors) {
    e.email == None && e.password == None
  }

  /** The three cases of the email error: "required" exactly for a value
      that is blank after trimming, "invalid" exactly for a non-blank value
      without the `local@domain.tld` shape, and no error exactly for a value
      with that shape. */
  lemma EmailErrorRules(email: string)
    ensures CheckEmail(email) == Some(EmailRequired) <==> AllWhitespace(email)
    ensures CheckEmail(email) == Some(EmailInvalid) <==>
            !AllWhitespace(email) && !EmailShape(email)
    ensures CheckEmail(email) == None <==> EmailShape(email)
  {
    ValidEmailIffShape(email);
    if IsValidEmail(email) {
      ValidEmailFacts(email);
    }
  }

  /** The three cases of the password error, by UTF-16 length. */
  lemma PasswordErrorRules(password: string)
    ensures CheckPassword(password) == Some(PasswordRequired) <==> password == []
    ensures CheckPassword(password) == Some(PasswordTooShort) <==>
            0 < Utf16Length(password) < MinPasswordLength
    ensures CheckPassword(password) == None <==> Utf16Length(password) >= MinPasswordLength
    ensures |password| >= MinPasswordLength ==> CheckPassword(password) == None
  {
  }

  /** The form passes validation exactly when the email has the
      `local@domain.tld` shape and the password has at least three code
      units. */
  lemma ValidIff(c: Credentials)
    ensures IsValid(Validate(c)) <==>
            EmailShape(c.email) && Utf16Length(c.password) >= MinPasswordLength
  {
    EmailErrorRules(c.email);
    PasswordErrorRules(c.password);
  }

  /** An email that was stored through the input handler is already trimmed,
      so its "required" error appears exactly when it is empty. */
  lemma TrimmedEmailRequired(v: string)
    ensures CheckEmail(Trim(v)) == Some(EmailRequired) <==> Trim(v) == []
  {
    var t := Trim(v);
    TrimIdempotent(v);
    assert Trim(t) == t;
  }

  /** The four messages are pairwise distinct, so the message shown says
      which rule failed. */
  lemma MessagesDistinct()
    ensures EmailMessage(EmailRequired) != EmailMessage(EmailInvalid)
    ensures PasswordMessage(PasswordRequired) != PasswordMessage(PasswordTooShort)
  {
    assert EmailMessage(EmailRequired)[0] != EmailMessage(EmailInvalid)[0];
    assert PasswordMessage(PasswordRequired)[19] != PasswordMessage(PasswordTooShort)[19];
  }

  /** Both fields empty: both "required" errors. */
  lemma ScenarioBothEmpty()
    ensures Validate(Credentials("", "")) ==
            FormErrors(Some(EmailRequired), Some(PasswordRequired))
  {
  }

  /** An address without `@`: the format error only. */
  lemma ScenarioBadEmail()
    ensures Validate(Credentials("bad-email", "abcdef")) == FormErrors(Some(EmailInvalid), None)
  {
    var e := "bad-email";
    assert !IsWhitespace(e[0]);
    assert '@' !in e;
    if IsValidEmail(e) {
      ValidEmailFacts(e);
    }
  }

  /** A well-formed address with a two-character password: the length error
      only. */
  lemma ScenarioShortPassword()
    ensures Validate(Credentials("a@b.com", "ab")) == FormErrors(None, Some(PasswordTooShort))
  {
    SampleAddressValid();
  }

  /** `a@b.com` passes the format check and is its own trim. */
  lemma SampleAddressValid()
    ensures IsValidEmail("a@b.com")
    ensures Trim("a@b.com") == "a@b.com"
  {
    var e := "a@b.com";
    var l, r := e[..1], e[2..];
    assert l == "a" && r == "b.com";
    assert AllPlain(l);
    assert r[1] == '.' && AllPlain(r);
    assert IsDomain(r);
    assert e[1] == '@';
    assert EmailShape(e);
    ValidEmailIffShape(e);
    ValidEmailFacts(e);
  }
}
