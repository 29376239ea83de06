/**
 * The teacher sign-up form (SignUpPage): four text fields, the per-field
 * checks of `validateForm`, the error record it builds and the input-change
 * handler.
 */
module SignUp {

  import opened Text
  import opened Wrappers

  datatype Field = PhoneNumber | EmailAddress | Password | Name

  /** The form's four values, as the component keeps them. */
  datatype Form = Form(phoneNumber: string, emailAddress: string, password: string, name: string)
  {
    function Get(f: Field): string
    {
      match f
      case PhoneNumber => phoneNumber
      case EmailAddress => emailAddress
      case Password => password
      case Name => name
    }

    /** The form after the input named `f` reported the value `v`. */
    function With(f: Field, v: string): (r: Form)
      ensures r.Get(f) == v
      ensures forall g :: g != f ==> r.Get(g) == Get(g)
    {
      match f
      case PhoneNumber => this.(phoneNumber := v)
      case EmailAddress => this.(emailAddress := v)
      case Password => this.(password := v)
      case Name => this.(name := v)
    }
  }

  const EmptyForm := Form("", "", "", "")

  /** The error record: at most one message per field, a field without an entry has no error. */
  type Errors = map<Field, string>

  const NameRequired := "Имя обязательно"
  const NameTooShort := "Имя должно содержать минимум 3 символа"
  const NameTooLong := "Имя не должно превышать 50 символов"
  const EmailRequired := "Email обязателен"
  const EmailInvalid := "Некорректный email адрес"
  const PhoneRequired := "Номер телефона обязателен"
  const PhoneInvalid := "Формат: +7XXXXXXXXXX (международный формат)"
  const PasswordRequired := "Пароль обязателен"
  const PasswordTooShort := "Минимум 8 символов"
  const PasswordTooWeak := "Требуется минимум 1 заглавная буква, 1 строчная буква и 1 цифра"

  // ---------------------------------------------------------------------------
  // Email: /^[^\s@]+@[^\s@]+\.[^\s@]+$/
  // ---------------------------------------------------------------------------

  /** The class `[^\s@]`. */
  predicate IsEmailChar(c: char)
  {
    !IsWhitespace(c) && c != '@'
  }

  predicate AllEmailChars(s: string)
  {
    forall k :: 0 <= k < |s| ==> IsEmailChar(s[k])
  }

  /**
   * The pattern read as a regular expression: a non-empty local part, `@`, a
   * non-empty domain part, a literal dot, and a non-empty last part, none of
   * the three parts holding whitespace or `@`.
   */
  ghost predicate EmailShape(s: string)
  {
    exists i, j :: EmailSplit(s, i, j)
  }

  /** `s` reads as local part `s[..i]`, `@`, domain part `s[i + 1..j]`, `.`, last part `s[j + 1..]`. */
  ghost predicate EmailSplit(s: string, i: int, j: int)
  {
    0 < i && i + 1 < j && j + 1 < |s| && s[i] == '@' && s[j] == '.' &&
    AllEmailChars(s[..i]) && AllEmailChars(s[i + 1..j]) && AllEmailChars(s[j + 1..])
  }

  /** States of a deterministic automaton for the email pattern. */
  datatype EmailState =
    | Start      // nothing read
    | Local      // a non-empty local part
    | AtSign     // local part and `@`
    | Domain     // after `@`: no dot yet that has a character before it
    | DomainDot  // the last character is such a dot
    | Matched    // such a dot is followed by at least one character
    | Dead       // no extension can match

  function EmailStep(q: EmailState, c: char): EmailState
  {
    match q
    case Start => if IsEmailChar(c) then Local else Dead
    case Local => if c == '@' then AtSign else if IsEmailChar(c) then Local else Dead
    case AtSign => if IsEmailChar(c) then Domain else Dead
    case Domain => if c == '.' then DomainDot else if IsEmailChar(c) then Domain else Dead
    case DomainDot => if IsEmailChar(c) then Matched else Dead
    case Matched => if IsEmailChar(c) then Matched else Dead
    case Dead => Dead
  }

  /** The state reached after reading `s` from Start. */
  function EmailRun(s: string): EmailState
  {
    if s == [] then Start else EmailStep(EmailRun(s[..|s| - 1]), s[|s| - 1])
  }

  /** `emailRegex.test(s)`, decided by the automaton. */
  predicate MatchesEmail(s: string)
  {
    EmailRun(s) == Matched
  }

  /** `s` splits at an `@` at index `i` into two non-empty runs of email characters. */
  ghost predicate AtSplit(s: string, i: int)
  {
    0 < i && i + 1 < |s| && s[i] == '@' && AllEmailChars(s[..i]) && AllEmailChars(s[i + 1..])
  }

  lemma DotIsEmailChar()
    ensures IsEmailChar('.')
  {
  }

  /** Appending email characters keeps a run of email characters. */
  lemma AllEmailCharsSnoc(s: string, c: char)
    requires AllEmailChars(s) && IsEmailChar(c)
    ensures AllEmailChars(s + [c])
  {
    assert forall k :: 0 <= k < |s| ==> (s + [c])[k] == s[k];
  }

  lemma StepIntoDomain(p: string, c: char)
    requires |p| >= 2 && p[|p| - 1] == '@' && AllEmailChars(p[..|p| - 1]) && IsEmailChar(c)
    ensures AtSplit(p + [c], |p| - 1)
  {
    var s := p + [c];
    assert s[..|p| - 1] == p[..|p| - 1];
    assert s[|p|..] == [c];
  }

  lemma StepWithinDomain(p: string, c: char, i: int)
    requires AtSplit(p, i) && IsEmailChar(c)
    ensures AtSplit(p + [c], i)
  {
    var s := p + [c];
    assert s[..i] == p[..i];
    assert s[i + 1..] == p[i + 1..] + [c];
    AllEmailCharsSnoc(p[i + 1..], c);
  }

  lemma StepPastDot(p: string, c: char, i: int)
    requires AtSplit(p, i) && i + 2 < |p| && p[|p| - 1] == '.' && IsEmailChar(c)
    ensures EmailShape(p + [c])
  {
    var s, j := p + [c], |p| - 1;
    assert s[..i] == p[..i];
    assert s[i + 1..j] == p[i + 1..][..j - (i + 1)];
    assert s[j + 1..] == [c];
    assert EmailSplit(s, i, j);
  }

  lemma StepAfterMatch(p: string, c: char)
    requires EmailShape(p) && IsEmailChar(c)
    ensures EmailShape(p + [c])
  {
    var i, j :| EmailSplit(p, i, j);
    var s := p + [c];
    assert s[..i] == p[..i];
    assert s[i + 1..j] == p[i + 1..j];
    assert s[j + 1..] == p[j + 1..] + [c];
    AllEmailCharsSnoc(p[j + 1..], c);
    assert EmailSplit(s, i, j);
  }

  /** What each state of the automaton says about the text read so far. */
  lemma {:induction false} EmailRunSound(s: string)
    ensures EmailRun(s) == Start ==> s == []
    ensures EmailRun(s) == Local ==> s != [] && AllEmailChars(s)
    ensures EmailRun(s) == AtSign ==> |s| >= 2 && s[|s| - 1] == '@' && AllEmailChars(s[..|s| - 1])
    ensures EmailRun(s) == Domain ==> exists i :: AtSplit(s, i)
    ensures EmailRun(s) == DomainDot ==> exists i :: AtSplit(s, i) && i + 2 < |s| && s[|s| - 1] == '.'
    ensures EmailRun(s) == Matched ==> EmailShape(s)
  {
    if s != [] {
      var p, c := s[..|s| - 1], s[|s| - 1];
      assert s == p + [c];
      EmailRunSound(p);
      var q := EmailRun(p);
      if q == Start {
        assert p == [];
      } else if q == Local {
        if EmailRun(s) == Local {
          AllEmailCharsSnoc(p, c);
        }
      } else if q == AtSign {
        if EmailRun(s) == Domain {
          StepIntoDomain(p, c);
        }
      } else if q == Domain {
        var i :| AtSplit(p, i);
        assert EmailRun(s) == EmailStep(q, c);
        DotIsEmailChar();
        if EmailRun(s) != Dead {
          StepWithinDomain(p, c, i);
          assert AtSplit(s, i);
          assert EmailRun(s) == DomainDot ==> i + 2 < |s|;
        }
      } else if q == DomainDot {
        var i :| AtSplit(p, i) && i + 2 < |p| && p[|p| - 1] == '.';
        if EmailRun(s) == Matched {
          StepPastDot(p, c, i);
        }
      } else if q == Matched {
        if EmailRun(s) == Matched {
          StepAfterMatch(p, c);
        }
      }
    }
  }

  /** Reading a run of email characters keeps the automaton at or past Domain. */
  lemma {:induction false} EmailRunPrefix(s: string, i: int, j: int, k: int)
    requires 0 < i && i + 1 < j && j + 1 < |s| && s[i] == '@' && s[j] == '.'
    requires AllEmailChars(s[..i]) && AllEmailChars(s[i + 1..j]) && AllEmailChars(s[j + 1..])
    requires 0 < k <= |s|
    ensures k <= i ==> EmailRun(s[..k]) == Local
    ensures k == i + 1 ==> EmailRun(s[..k]) == AtSign
    ensures i + 1 < k <= j ==> EmailRun(s[..k]) in {Domain, DomainDot, Matched}
    ensures k == j + 1 ==> EmailRun(s[..k]) in {DomainDot, Matched}
    ensures j + 1 < k ==> EmailRun(s[..k]) == Matched
  {
    var c := s[k - 1];
    assert s[..k][..k - 1] == s[..k - 1];
    assert EmailRun(s[..k]) == if k == 1 then EmailStep(Start, c) else EmailStep(EmailRun(s[..k - 1]), c);
    if k > 1 {
      EmailRunPrefix(s, i, j, k - 1);
    }
    if k - 1 < i {
      assert IsEmailChar(s[..i][k - 1]);
    } else if i < k - 1 < j {
      assert IsEmailChar(s[i + 1..j][k - 1 - (i + 1)]);
    } else if j < k - 1 {
      assert IsEmailChar(s[j + 1..][k - 1 - (j + 1)]);
    }
  }

  /** The automaton accepts exactly the strings of the email pattern. */
  lemma MatchesEmailIff(s: string)
    ensures MatchesEmail(s) <==> EmailShape(s)
  {
    EmailRunSound(s);
    if EmailShape(s) {
      var i, j :| EmailSplit(s, i, j);
      EmailRunPrefix(s, i, j, |s|);
      assert s[..|s|] == s;
    }
  }

  /** A string of the email pattern has an `@`, so it is never blank. */
  lemma EmailShapeNotBlank(s: string)
    requires EmailShape(s)
    ensures !IsBlank(s)
  {
    var i, j :| EmailSplit(s, i, j);
    assert !IsWhitespace(s[i]);
  }

  // ---------------------------------------------------------------------------
  // Phone: /^\+[1-9]\d{1,14}$/
  // ---------------------------------------------------------------------------

  /** `+`, a digit 1-9, then 1 to 14 further digits. */
  predicate MatchesE164(s: string)
  {
    3 <= |s| <= 16 && s[0] == '+' && '1' <= s[1] <= '9' && AllDigits(s[2..])
  }

  /** The phone pattern in ITU-T E.164 terms: `+` and 2 to 15 digits, the first not 0. */
  lemma E164Digits(s: string)
    ensures MatchesE164(s) <==>
      (|s| > 0 && s[0] == '+' && AllDigits(s[1..]) && 2 <= |s[1..]| <= 15 && s[1] != '0')
  {
    if |s| >= 2 && AllDigits(s[1..]) {
      assert s[2..] == s[1..][1..];
      assert IsDigit(s[1..][0]);
    }
    if MatchesE164(s) {
      assert forall k :: 1 <= k < |s[1..]| ==> s[1..][k] == s[2..][k - 1];
    }
  }

  // ---------------------------------------------------------------------------
  // Password: /(?=.*[A-Z])(?=.*[a-z])(?=.*\d)/
  // ---------------------------------------------------------------------------

  datatype CharClass = Upper | Lower | Digit

  predicate InClass(k: CharClass, c: char)
  {
    match k
    case Upper => IsUpper(c)
    case Lower => IsLower(c)
    case Digit => IsDigit(c)
  }

  /** The lookahead `(?=.*X)` tried at position `p`: `.` does not cross a line terminator. */
  predicate LookaheadAt(s: string, p: nat, k: CharClass)
    requires p <= |s|
  {
    exists q | p <= q < |s| :: LookaheadHit(s, p, q, k)
  }

  /** `.*` runs from `p` to `q` without a line terminator, and `s[q]` is in class `k`. */
  predicate LookaheadHit(s: string, p: nat, q: nat, k: CharClass)
    requires p <= q < |s|
  {
    InClass(k, s[q]) && NoLineTerminator(s[p..q])
  }

  /** The unanchored search: some position where all three lookaheads succeed. */
  predicate MatchesStrength(s: string)
  {
    exists p :: 0 <= p <= |s| && LookaheadAt(s, p, Upper) && LookaheadAt(s, p, Lower) && LookaheadAt(s, p, Digit)
  }

  predicate HasClass(s: string, k: CharClass)
  {
    exists q | 0 <= q < |s| :: InClass(k, s[q])
  }

  /**
   * On a value without line terminators the pattern asks for one upper-case
   * letter, one lower-case letter and one digit. A password input drops line
   * feeds and carriage returns, but U+2028 and U+2029 can still occur in it.
   */
  lemma StrengthWithoutLineBreaks(s: string)
    requires NoLineTerminator(s)
    ensures MatchesStrength(s) <==> HasClass(s, Upper) && HasClass(s, Lower) && HasClass(s, Digit)
  {
    if HasClass(s, Upper) && HasClass(s, Lower) && HasClass(s, Digit) {
      forall k ensures HasClass(s, k) ==> LookaheadAt(s, 0, k) {
        if HasClass(s, k) {
          var q :| 0 <= q < |s| && InClass(k, s[q]);
          assert LookaheadHit(s, 0, q, k);
        }
      }
      assert LookaheadAt(s, 0, Upper) && LookaheadAt(s, 0, Lower) && LookaheadAt(s, 0, Digit);
    }
  }

  /** A lookahead started at `p` cannot see past a line terminator at `b`. */
  lemma {:induction false} NoHitAcrossBreak(s: string, p: nat, k: CharClass, b: nat)
    requires p <= b < |s| && IsLineTerminator(s[b])
    requires forall q | p <= q <= b :: !InClass(k, s[q])
    ensures !LookaheadAt(s, p, k)
  {
    forall q | p <= q < |s| ensures !LookaheadHit(s, p, q, k) {
      if q > b {
        assert s[p..q][b - p] == s[b];
      }
    }
  }

  /** A line break between the classes defeats the pattern although all three occur. */
  lemma StrengthNeedsOneLine()
    ensures HasClass("A\na1", Upper) && HasClass("A\na1", Lower) && HasClass("A\na1", Digit)
    ensures !MatchesStrength("A\na1")
  {
    var s := "A\na1";
    assert s[0] == 'A' && s[1] == '\n' && s[2] == 'a' && s[3] == '1';
    assert InClass(Upper, s[0]) && InClass(Lower, s[2]) && InClass(Digit, s[3]);
    forall p | 0 <= p <= |s| ensures !(LookaheadAt(s, p, Upper) && LookaheadAt(s, p, Lower)) {
      if p <= 1 {
        NoHitAcrossBreak(s, p, Lower, 1);
      } else {
        assert !LookaheadAt(s, p, Upper);
      }
    }
  }

  // ---------------------------------------------------------------------------
  // The checks of validateForm, in their if / else-if order
  // ---------------------------------------------------------------------------

  ghost predicate NameAccepted(name: string)
  {
    !IsBlank(name) && 3 <= |name| <= 50
  }

  ghost predicate EmailAccepted(email: string)
  {
    !IsBlank(email) && EmailShape(email)
  }

  ghost predicate PhoneAccepted(phone: string)
  {
    !IsBlank(phone) && MatchesE164(phone)
  }

  ghost predicate PasswordAccepted(password: string)
  {
    password != "" && |password| >= 8 && MatchesStrength(password)
  }

  ghost predicate FormAccepted(form: Form)
  {
    NameAccepted(form.name) && EmailAccepted(form.emailAddress) &&
    PhoneAccepted(form.phoneNumber) && PasswordAccepted(form.password)
  }

  /** The one message a rejected name gets: emptiness first, then too short, then too long. */
  ghost function NameMessage(name: string): string
  {
    if IsBlank(name) then NameRequired else if |name| < 3 then NameTooShort else NameTooLong
  }

  ghost function EmailMessage(email: string): string
  {
    if IsBlank(email) then EmailRequired else EmailInvalid
  }

  ghost function PhoneMessage(phone: string): string
  {
    if IsBlank(phone) then PhoneRequired else PhoneInvalid
  }

  ghost function PasswordMessage(password: string): string
  {
    if password == "" then PasswordRequired
    else if |password| < 8 then PasswordTooShort
    else PasswordTooWeak
  }

  ghost function Message(form: Form, f: Field): string
  {
    match f
    case Name => NameMessage(form.name)
    case EmailAddress => EmailMessage(form.emailAddress)
    case PhoneNumber => PhoneMessage(form.phoneNumber)
    case Password => PasswordMessage(form.password)
  }

  ghost predicate FieldAccepted(form: Form, f: Field)
  {
    match f
    case Name => NameAccepted(form.name)
    case EmailAddress => EmailAccepted(form.emailAddress)
    case PhoneNumber => PhoneAccepted(form.phoneNumber)
    case Password => PasswordAccepted(form.password)
  }

  /** The entry a correct error record holds for field `f`: none when accepted, else its message. */
  ghost function Expected(form: Form, f: Field): Option<string>
  {
    if FieldAccepted(form, f) then None else Some(Message(form, f))
  }

  function Lookup(errors: Errors, f: Field): Option<string>
  {
    if f in errors then Some(errors[f]) else None
  }

  /** `newErrors.f = message` when a branch produced a message; otherwise no entry is written. */
  function Record(errors: Errors, f: Field, e: Option<string>): (r: Errors)
    ensures Lookup(r, f) == (if e.Some? then e else Lookup(errors, f))
    ensures forall g :: g != f ==> Lookup(r, g) == Lookup(errors, g)
  {
    if e.Some? then errors[f := e.value] else errors
  }

  /** `errors` holds an entry exactly for the rejected fields, each with its priority message. */
  ghost predicate DescribesErrors(form: Form, errors: Errors)
  {
    Lookup(errors, Name) == Expected(form, Name) &&
    Lookup(errors, EmailAddress) == Expected(form, EmailAddress) &&
    Lookup(errors, PhoneNumber) == Expected(form, PhoneNumber) &&
    Lookup(errors, Password) == Expected(form, Password)
  }

  /** Two error records that describe the same form are the same record. */
  lemma DescribesErrorsUnique(form: Form, e1: Errors, e2: Errors)
    requires DescribesErrors(form, e1) && DescribesErrors(form, e2)
    ensures e1 == e2
  {
    forall f ensures (f in e1 <==> f in e2) && (f in e1 ==> e1[f] == e2[f]) {
      assert Lookup(e1, f) == Lookup(e2, f) by {
        assert f == Name || f == EmailAddress || f == PhoneNumber || f == Password;
      }
    }
  }

  /** The record is empty exactly when all four fields are accepted. */
  lemma DescribesErrorsEmptyIff(form: Form, errors: Errors)
    requires DescribesErrors(form, errors)
    ensures errors == map[] <==> FormAccepted(form)
  {
    if errors == map[] {
      assert Name !in errors && EmailAddress !in errors && PhoneNumber !in errors && Password !in errors;
    } else {
      var f :| f in errors;
      assert Lookup(errors, f) == Expected(form, f) by {
        assert f == Name || f == EmailAddress || f == PhoneNumber || f == Password;
      }
    }
  }

  /** The name branch of `validateForm`. */
  method NameError(name: string) returns (r: Option<string>)
    ensures r.None? <==> NameAccepted(name)
    ensures r.Some? ==> r.value == NameMessage(name)
  {
    r := if Trim(name) == "" then Some(NameRequired)
    else if |name| < 3 then Some(NameTooShort)
    else if |name| > 50 then Some(NameTooLong)
    else None;
  }

  /** The email branch of `validateForm`. */
  method EmailError(email: string) returns (r: Option<string>)
    ensures r.None? <==> EmailAccepted(email)
    ensures r.Some? ==> r.value == EmailMessage(email)
  {
    MatchesEmailIff(email);
    r := if Trim(email) == "" then Some(EmailRequired)
    else if !MatchesEmail(email) then Some(EmailInvalid)
    else None;
  }

  /** The phone branch of `validateForm`. */
  method PhoneError(phone: string) returns (r: Option<string>)
    ensures r.None? <==> PhoneAccepted(phone)
    ensures r.Some? ==> r.value == PhoneMessage(phone)
  {
    r := if Trim(phone) == "" then Some(PhoneRequired)
    else if !MatchesE164(phone) then Some(PhoneInvalid)
    else None;
  }

  /** The password branch of `validateForm`. */
  method PasswordError(password: string) returns (r: Option<string>)
    ensures r.None? <==> PasswordAccepted(password)
    ensures r.Some? ==> r.value == PasswordMessage(password)
  {
    r := if password == "" then Some(PasswordRequired)
    else if |password| < 8 then Some(PasswordTooShort)
    else if !MatchesStrength(password) then Some(PasswordTooWeak)
    else None;
  }

  /**
   * The body of `validateForm` up to `setErrors`: fills a fresh record field by
   * field, each through its if / else-if chain.
   */
  method CollectErrors(form: Form) returns (errors: Errors)
    ensures DescribesErrors(form, errors)
    ensures errors == map[] <==> FormAccepted(form)
  {
    errors := map[];
    var nameError := NameError(form.name);
    errors := Record(errors, Name, nameError);
    var emailError := EmailError(form.emailAddress);
    errors := Record(errors, EmailAddress, emailError);
    var phoneError := PhoneError(form.phoneNumber);
    errors := Record(errors, PhoneNumber, phoneError);
    var passwordError := PasswordError(form.password);
    errors := Record(errors, Password, passwordError);
    assert Lookup(errors, Name) == nameError == Expected(form, Name);
    assert Lookup(errors, EmailAddress) == emailError == Expected(form, EmailAddress);
    assert Lookup(errors, PhoneNumber) == phoneError == Expected(form, PhoneNumber);
    assert Lookup(errors, Password) == passwordError == Expected(form, Password);
    DescribesErrorsEmptyIff(form, errors);
  }

  /** The sign-up page's form state. */
  class SignUpPage {
    var form: Form
    var errors: Errors

    constructor ()
      ensures form == EmptyForm && errors == map[]
    {
      form := EmptyForm;
      errors := map[];
    }

    /** `validateForm`: stores the error record and reports whether it is empty. */
    method ValidateForm() returns (ok: bool)
      modifies this`errors
      ensures DescribesErrors(form, errors)
      ensures ok <==> FormAccepted(form)
    {
      errors := CollectErrors(form);
      ok := |errors| == 0;
      assert ok <==> errors == map[];
    }

    /** `handleInputChange`: the named field takes the new value, the others keep theirs. */
    method HandleInputChange(f: Field, value: string)
      modifies this`form
      ensures form.Get(f) == value
      ensures forall g :: g != f ==> form.Get(g) == old(form).Get(g)
      ensures form == old(form).With(f, value)
    {
      form := form.With(f, value);
    }
  }
}
