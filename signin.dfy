/**
 * The teacher sign-in form (SignInPage): the two checks of `validateForm`,
 * the error record it builds and `handleChange`, which updates a field and
 * blanks that field's error.
 */
module SignIn {

  import opened Text
  import opened Wrappers
  import SignUp

  datatype Field = PhoneNumber | Password

  datatype Form = Form(phoneNumber: string, password: string)
  {
    function Get(f: Field): string
    {
      match f
      case PhoneNumber => phoneNumber
      case Password => password
    }

    /** The form after the input named `f` reported the value `v`. */
    function With(f: Field, v: string): (r: Form)
      ensures r.Get(f) == v
      ensures forall g :: g != f ==> r.Get(g) == Get(g)
    {
      match f
      case PhoneNumber => this.(phoneNumber := v)
      case Password => this.(password := v)
    }
  }

  const EmptyForm := Form("", "")

  /** The error record; an entry may hold the empty string once `handleChange` blanked it. */
  type Errors = map<Field, string>

  const PhoneRequired := "Введите номер телефона"
  const PhoneInvalid := "Номер телефона должен быть в формате +7XXXXXXXXXX"
  const PasswordRequired := "Введите пароль"
  const PasswordTooShort := "Пароль должен содержать минимум 8 символов"

  /** The pattern `^\+7\d{10}$`: twelve characters, `+7` and ten ASCII digits. */
  predicate MatchesRuPhone(s: string)
  {
    |s| == 12 && s[0] == '+' && s[1] == '7' && AllDigits(s[2..])
  }

  /** Unlike sign-up, the emptiness test is on the untrimmed value. */
  ghost predicate PhoneAccepted(phone: string)
  {
    phone != "" && MatchesRuPhone(phone)
  }

  ghost predicate PasswordAccepted(password: string)
  {
    password != "" && |password| >= 8
  }

  ghost function PhoneMessage(phone: string): string
  {
    if phone == "" then PhoneRequired else PhoneInvalid
  }

  ghost function PasswordMessage(password: string): string
  {
    if password == "" then PasswordRequired else PasswordTooShort
  }

  ghost function Expected(form: Form, f: Field): Option<string>
  {
    match f
    case PhoneNumber =>
      if PhoneAccepted(form.phoneNumber) then None else Some(PhoneMessage(form.phoneNumber))
    case Password =>
      if PasswordAccepted(form.password) then None else Some(PasswordMessage(form.password))
  }

  function Lookup(errors: Errors, f: Field): Option<string>
  {
    if f in errors then Some(errors[f]) else None
  }

  /** `errors[name]` is truthy: an entry that is not the empty string. */
  predicate ShowsError(errors: Errors, f: Field)
  {
    f in errors && errors[f] != ""
  }

  /** `errors` holds an entry exactly for the rejected fields, each with its priority message. */
  ghost predicate DescribesErrors(form: Form, errors: Errors)
  {
    Lookup(errors, PhoneNumber) == Expected(form, PhoneNumber) &&
    Lookup(errors, Password) == Expected(form, Password)
  }

  /** The phone branch of `validateForm`. */
  method PhoneError(phone: string) returns (r: Option<string>)
    ensures r.None? <==> PhoneAccepted(phone)
    ensures r.Some? ==> r.value == PhoneMessage(phone)
  {
    if phone == "" {
      r := Some(PhoneRequired);
    } else if !MatchesRuPhone(phone) {
      r := Some(PhoneInvalid);
    } else {
      r := None;
    }
  }

  /** The password branch of `validateForm`. */
  method PasswordError(password: string) returns (r: Option<string>)
    ensures r.None? <==> PasswordAccepted(password)
    ensures r.Some? ==> r.value == PasswordMessage(password)
  {
    if password == "" {
      r := Some(PasswordRequired);
    } else if |password| < 8 {
      r := Some(PasswordTooShort);
    } else {
      r := None;
    }
  }

  /** The body of `validateForm` up to `setErrors`. */
  method CollectErrors(form: Form) returns (errors: Errors)
    ensures DescribesErrors(form, errors)
    ensures errors == map[] <==> PhoneAccepted(form.phoneNumber) && PasswordAccepted(form.password)
    ensures forall f | f in errors :: errors[f] != ""
  {
    errors := map[];
    var phoneError := PhoneError(form.phoneNumber);
    if phoneError.Some? {
      errors := errors[PhoneNumber := phoneError.value];
    }
    var passwordError := PasswordError(form.password);
    if passwordError.Some? {
      errors := errors[Password := passwordError.value];
    }
    assert PhoneNumber in errors <==> phoneError.Some?;
    assert Password in errors <==> passwordError.Some?;
    assert errors == map[] <==> PhoneNumber !in errors && Password !in errors by {
      if errors != map[] {
        var f :| f in errors;
        assert f == PhoneNumber || f == Password;
      }
    }
  }

  /** Every phone number sign-in accepts is one sign-up accepts too. */
  lemma PhoneAcceptedBySignUp(phone: string)
    requires PhoneAccepted(phone)
    ensures SignUp.PhoneAccepted(phone)
  {
    assert !IsWhitespace(phone[0]);
    assert phone[2..] == phone[1..][1..];
    assert IsDigit(phone[1..][0]);
    assert forall k :: 1 <= k < |phone[1..]| ==> phone[1..][k] == phone[2..][k - 1];
    SignUp.E164Digits(phone);
  }

  /** The converse fails: sign-up takes an E.164 number that is not Russian. */
  lemma SignUpAcceptsMore()
    ensures SignUp.PhoneAccepted("+15551234567") && !PhoneAccepted("+15551234567")
  {
    var s := "+15551234567";
    assert !IsWhitespace(s[0]);
    assert s[2..] == "5551234567";
    assert forall k :: 0 <= k < |s[2..]| ==> IsDigit(s[2..][k]);
  }

  /** The sign-in page's form state. */
  class SignInPage {
    var form: Form
    var errors: Errors

    constructor ()
      ensures form == EmptyForm && errors == map[]
    {
      form := EmptyForm;
      errors := map[];
    }

    /** `validateForm`: stores the error record and reports whether neither field has an error. */
    method ValidateForm() returns (ok: bool)
      modifies this`errors
      ensures DescribesErrors(form, errors)
      ensures ok <==> PhoneAccepted(form.phoneNumber) && PasswordAccepted(form.password)
      ensures ok <==> !ShowsError(errors, PhoneNumber) && !ShowsError(errors, Password)
    {
      errors := CollectErrors(form);
      ok := |errors| == 0;
      assert ok <==> errors == map[];
    }

    /**
     * `handleChange`: the named field takes the new value; its error, when
     * one shows, is overwritten with the empty string (the entry stays);
     * the other field's error is untouched.
     */
    method HandleChange(f: Field, value: string)
      modifies this
      ensures form == old(form).With(f, value)
      ensures !ShowsError(errors, f)
      ensures f in errors <==> f in old(errors)
      ensures !ShowsError(old(errors), f) ==> errors == old(errors)
      ensures forall g :: g != f ==> Lookup(errors, g) == Lookup(old(errors), g)
    {
      form := form.With(f, value);
      if f in errors && errors[f] != "" {
        errors := errors[f := ""];
      }
    }
  }
}
