/**
  The registration page: the password-strength meter, the form validation, and the body it
  posts to `/api/auth/register`.
 */
module RegisterPage {
  import opened Common
  import opened Text
  import opened Users
  import Forms
  import Accounts

  datatype RegisterForm = RegisterForm(firstname: string, lastname: string, email: string, password: string, confirmPassword: string)

  // ---------------------------------------------------------------------------------------
  // Password strength

  predicate HasUpper(s: string) { exists i | 0 <= i < |s| :: IsAsciiUpper(s[i]) }

  predicate HasLower(s: string) { exists i | 0 <= i < |s| :: IsAsciiLower(s[i]) }

  predicate HasDigit(s: string) { exists i | 0 <= i < |s| :: IsAsciiDigit(s[i]) }

  /** `/[^A-Za-z0-9]/`: a character that is neither an ASCII letter nor a digit. */
  predicate IsOther(c: char) { !IsAsciiUpper(c) && !IsAsciiLower(c) && !IsAsciiDigit(c) }

  predicate HasOther(s: string) { exists i | 0 <= i < |s| :: IsOther(s[i]) }

  function Point(b: bool): nat { if b then 1 else 0 }

  /** `calculatePasswordStrength`: one point each for length 8 or more, an upper-case
      letter, a lower-case letter, a digit and any other character. */
  function Strength(password: string): (n: nat)
    ensures n <= 5
    ensures n == 0 <==> password == ""
    ensures n == 5 <==> JsLength(password) >= 8 && HasUpper(password) && HasLower(password) && HasDigit(password) && HasOther(password)
  {
    assert password != "" ==> HasUpper(password) || HasLower(password) || HasDigit(password) || HasOther(password) by {
      if password != "" {
        var c := password[0];
        assert IsAsciiUpper(c) ==> HasUpper(password);
        assert IsAsciiLower(c) ==> HasLower(password);
        assert IsAsciiDigit(c) ==> HasDigit(password);
        assert IsOther(c) ==> HasOther(password);
      }
    }
    Point(JsLength(password) >= 8) + Point(HasUpper(password)) + Point(HasLower(password))
      + Point(HasDigit(password)) + Point(HasOther(password))
  }

  /** `getPasswordStrengthText`. */
  function StrengthText(n: nat): (text: string)
    ensures text == "Weak" || text == "Medium" || text == "Strong"
  {
    if n <= 2 then "Weak" else if n <= 3 then "Medium" else "Strong"
  }

  /** `getPasswordStrengthColor`. */
  function StrengthColor(n: nat): (color: string)
    ensures color == "bg-blue-500" || color == "bg-yellow-500" || color == "bg-green-500"
  {
    if n <= 2 then "bg-blue-500" else if n <= 3 then "bg-yellow-500" else "bg-green-500"
  }

  /** Appending characters never lowers the score. */
  lemma StrengthMonotone(password: string, more: string)
    ensures Strength(password) <= Strength(password + more)
  {
    var s := password + more;
    JsLengthAppend(password, more);
    if HasUpper(password) {
      var i :| 0 <= i < |password| && IsAsciiUpper(password[i]);
      assert s[i] == password[i];
    }
    if HasLower(password) {
      var i :| 0 <= i < |password| && IsAsciiLower(password[i]);
      assert s[i] == password[i];
    }
    if HasDigit(password) {
      var i :| 0 <= i < |password| && IsAsciiDigit(password[i]);
      assert s[i] == password[i];
    }
    if HasOther(password) {
      var i :| 0 <= i < |password| && IsOther(password[i]);
      assert s[i] == password[i];
    }
  }

  /** The text and the colour use the same thresholds: Weak for at most 2, Medium for 3,
      Strong from 4. */
  lemma TextAndColorAgree(n: nat)
    ensures StrengthText(n) == "Weak" <==> n <= 2
    ensures StrengthText(n) == "Medium" <==> n == 3
    ensures StrengthText(n) == "Strong" <==> n >= 4
    ensures StrengthText(n) == "Weak" <==> StrengthColor(n) == "bg-blue-500"
    ensures StrengthText(n) == "Medium" <==> StrengthColor(n) == "bg-yellow-500"
    ensures StrengthText(n) == "Strong" <==> StrengthColor(n) == "bg-green-500"
  {
  }

  /** A password of lower-case letters only is rated "Weak" whatever its length, although
      the form accepts it from 8 characters on: it scores at most length and lowercase. */
  lemma LowercaseOnlyIsWeak(password: string)
    requires forall i :: 0 <= i < |password| ==> IsAsciiLower(password[i])
    ensures Strength(password) <= 2 && StrengthText(Strength(password)) == "Weak"
    ensures password != "" && JsLength(password) >= 8 ==> Strength(password) == 2
  {
    assert !HasUpper(password) && !HasDigit(password) && !HasOther(password);
    if password != "" {
      assert IsAsciiLower(password[0]);
    }
  }

  // ---------------------------------------------------------------------------------------
  // E-mail shape

  /** `s[a..b]` is a non-empty run of non-white-space characters. */
  predicate NonSpaceRun(s: string, a: int, b: int) {
    0 <= a < b <= |s| && forall k :: a <= k < b ==> !IsSpace(s[k])
  }

  /** A match of `\S+@\S+\.\S+` occupying `s[a..b]`, with its `@` at `p` and its `.` at `q`. */
  predicate RegexWindow(s: string, a: int, p: int, q: int, b: int) {
    && 0 <= a < p < q < b <= |s|
    && NonSpaceRun(s, a, p) && s[p] == '@' && NonSpaceRun(s, p + 1, q) && s[q] == '.'
    && NonSpaceRun(s, q + 1, b)
  }

  /** `/\S+@\S+\.\S+/.test(s)`: the unanchored pattern matches somewhere in `s`. */
  ghost predicate RegexMatches(s: string) {
    exists a, p, q, b :: RegexWindow(s, a, p, q, b)
  }

  /** An `@` at `p` and a `.` at `q`, a non-space character before the `@` and after the
      `.`, and only non-space characters in between. */
  predicate AtDot(s: string, p: int, q: int) {
    && 0 < p && p + 1 < q && q + 1 < |s|
    && s[p] == '@' && s[q] == '.' && !IsSpace(s[p - 1]) && !IsSpace(s[q + 1])
    && forall k :: p < k < q ==> !IsSpace(s[k])
  }

  /** The e-mail check as the page performs it. */
  predicate EmailShaped(s: string) {
    exists p, q | 0 <= p < |s| && 0 <= q < |s| :: AtDot(s, p, q)
  }

  /** The executable check is exactly the regular expression's. */
  lemma EmailShapeIsRegex(s: string)
    ensures EmailShaped(s) <==> RegexMatches(s)
  {
    if EmailShaped(s) {
      var p, q :| 0 <= p < |s| && 0 <= q < |s| && AtDot(s, p, q);
      assert RegexWindow(s, p - 1, p, q, q + 2);
    }
    if RegexMatches(s) {
      var a, p, q, b :| RegexWindow(s, a, p, q, b);
      assert !IsSpace(s[p - 1]);
      assert !IsSpace(s[q + 1]);
      assert AtDot(s, p, q);
    }
  }

  // ---------------------------------------------------------------------------------------
  // Validation

  /** The error for one name part: blank after trimming, or shorter than 2 characters
      counted before trimming. */
  function NameError(value: string, fieldName: string): (e: Option<string>)
    ensures e.None? <==> !IsBlank(value) && JsLength(value) >= 2
  {
    if IsBlank(value) then Some(fieldName + " is requiblue")
    else if JsLength(value) < 2 then Some(fieldName + " must be at least 2 characters")
    else None
  }

  function EmailError(email: string): (e: Option<string>)
    ensures e.None? <==> !IsBlank(email) && EmailShaped(email)
  {
    if IsBlank(email) then Some("Email is requiblue")
    else if !EmailShaped(email) then Some("Please enter a valid email address")
    else None
  }

  function PasswordError(password: string): (e: Option<string>)
    ensures e.None? <==> JsLength(password) >= 8
  {
    if password == "" then Some("Password is requiblue")
    else if JsLength(password) < 8 then Some("Password must be at least 8 characters")
    else None
  }

  function ConfirmError(password: string, confirm: string): (e: Option<string>)
    ensures e.None? <==> confirm != "" && confirm == password
  {
    if confirm == "" then Some("Please confirm your password")
    else if password != confirm then Some("Passwords do not match")
    else None
  }

  /** The keys of the form state and of the error object. */
  datatype RegisterField = FirstName | LastName | Email | Password | ConfirmPassword

  const RegisterFields: set<RegisterField> := {FirstName, LastName, Email, Password, ConfirmPassword}

  /** The message `validateForm` assigns to one field, if any. */
  function Message(f: RegisterForm, field: RegisterField): Option<string> {
    match field
    case FirstName => NameError(f.firstname, "First name")
    case LastName => NameError(f.lastname, "Last name")
    case Email => EmailError(f.email)
    case Password => PasswordError(f.password)
    case ConfirmPassword => ConfirmError(f.password, f.confirmPassword)
  }

  /** `validateForm`: the error object, one entry per failing field. */
  function ValidateRegister(f: RegisterForm): (errors: map<RegisterField, string>)
    ensures FirstName in errors <==> IsBlank(f.firstname) || JsLength(f.firstname) < 2
    ensures LastName in errors <==> IsBlank(f.lastname) || JsLength(f.lastname) < 2
    ensures Email in errors <==> IsBlank(f.email) || !EmailShaped(f.email)
    ensures Password in errors <==> JsLength(f.password) < 8
    ensures ConfirmPassword in errors <==> f.confirmPassword != f.password || f.confirmPassword == ""
  {
    map field | field in RegisterFields && Message(f, field).Some? :: Message(f, field).value
  }

  /** `validateForm()` returns true: the error object has no key. */
  predicate FormValid(f: RegisterForm) {
    ValidateRegister(f) == map[]
  }

  /** The form is accepted exactly when every rule holds. */
  lemma FormValidIff(f: RegisterForm)
    ensures FormValid(f) <==>
              && !IsBlank(f.firstname) && JsLength(f.firstname) >= 2
              && !IsBlank(f.lastname) && JsLength(f.lastname) >= 2
              && !IsBlank(f.email) && EmailShaped(f.email)
              && JsLength(f.password) >= 8 && f.confirmPassword == f.password
  {
    var e := ValidateRegister(f);
    if e != map[] {
      var k :| k in e;
    }
  }

  /** The message for a blank first name keeps the page's wording. */
  lemma BlankFirstNameMessage(f: RegisterForm)
    requires IsBlank(f.firstname)
    ensures ValidateRegister(f)[FirstName] == "First name is requiblue"
  {
    assert "First name" + " is requiblue" == "First name is requiblue";
  }

  /** `formData[field]`. */
  function Get(f: RegisterForm, field: RegisterField): string {
    match field
    case FirstName => f.firstname
    case LastName => f.lastname
    case Email => f.email
    case Password => f.password
    case ConfirmPassword => f.confirmPassword
  }

  /** `handleInputChange`: the named field takes the input's value and no other field
      changes; the page error is cleared, and so is that field's validation message. */
  function RegisterInput(f: RegisterForm, errors: map<RegisterField, string>, error: string, field: RegisterField, value: string)
    : (r: (RegisterForm, map<RegisterField, string>, string))
    ensures Get(r.0, field) == value
    ensures forall g :: g != field ==> Get(r.0, g) == Get(f, g)
    ensures r.1 == Forms.ClearFieldError(errors, field) && r.2 == ""
  {
    var g := match field
      case FirstName => f.(firstname := value)
      case LastName => f.(lastname := value)
      case Email => f.(email := value)
      case Password => f.(password := value)
      case ConfirmPassword => f.(confirmPassword := value);
    (g, Forms.ClearFieldError(errors, field), "")
  }

  // ---------------------------------------------------------------------------------------
  // Submission

  /** The body posted on submit: trimmed names, the e-mail trimmed and lower-cased, the
      password as typed. */
  function Payload(f: RegisterForm): (body: Accounts.RegisterBody)
    ensures body.fullname.firstname.Some? && body.fullname.lastname.Some?
    ensures Trimmed(body.fullname.firstname.value) && Trimmed(body.fullname.lastname.value)
    ensures Trimmed(body.email) && forall i :: 0 <= i < |body.email| ==> !IsAsciiUpper(body.email[i])
    ensures |body.email| <= |f.email|
    ensures body.password == f.password
  {
    var email := Trim(f.email);
    LowerKeepsTrimmed(email);
    Accounts.RegisterBody(Fullname(Some(Trim(f.firstname)), Some(Trim(f.lastname))), ToLower(email), f.password)
  }

  /** White space typed around the names and the e-mail does not reach the server. */
  lemma PayloadIgnoresPadding(f: RegisterForm, a: string, b: string)
    requires IsBlank(a) && IsBlank(b)
    ensures Payload(f.(firstname := a + f.firstname + b, lastname := a + f.lastname + b, email := a + f.email + b))
              == Payload(f)
  {
    TrimIgnoresPadding(a, f.firstname, b);
    TrimIgnoresPadding(a, f.lastname, b);
    TrimIgnoresPadding(a, f.email, b);
  }

  /** Two e-mails that differ only in the case of ASCII letters post the same address. */
  lemma PayloadIgnoresEmailCase(f: RegisterForm, email: string)
    requires ToLower(email) == ToLower(f.email)
    ensures Payload(f.(email := email)) == Payload(f)
  {
    LowerTrimCommute(email);
    LowerTrimCommute(f.email);
  }

  /** The payload is a normal form: a form already holding its values posts it unchanged. */
  lemma PayloadNormalForm(f: RegisterForm)
    ensures var body := Payload(f);
            Payload(f.(firstname := body.fullname.firstname.value, lastname := body.fullname.lastname.value,
                       email := body.email)) == body
  {
    TrimIdempotent(f.firstname);
    TrimIdempotent(f.lastname);
    TrimIdempotent(f.email);
    LowerTrimCommute(Trim(f.email));
    ToLowerIdempotent(Trim(f.email));
  }

  /** Cutting away characters outside the matched `@`/`.` pattern keeps it. */
  lemma InfixKeepsAtDot(s: string, t: string, lo: int, hi: int, p: int, q: int)
    requires AtDot(s, p, q) && 0 <= lo < p && q + 1 < hi <= |s| && t == s[lo..hi]
    ensures AtDot(t, p - lo, q - lo) && EmailShaped(t)
  {
    assert forall k :: 0 <= k < |t| ==> t[k] == s[k + lo];
    assert AtDot(t, p - lo, q - lo);
  }

  /** A character that is not white space survives `trim`: it lies inside the trimmed infix. */
  lemma NonSpaceInsideTrim(s: string, i: int)
    requires 0 <= i < |s| && !IsSpace(s[i])
    ensures LeadingSpaces(s) <= i < LeadingSpaces(s) + |Trim(s)|
  {
  }

  /** The window an e-mail match spans lies inside the trimmed infix. */
  lemma AtDotInsideTrim(s: string, p: int, q: int)
    requires AtDot(s, p, q)
    ensures LeadingSpaces(s) < p && q + 1 < LeadingSpaces(s) + |Trim(s)|
  {
    NonSpaceInsideTrim(s, p - 1);
    NonSpaceInsideTrim(s, q + 1);
  }

  /** Trimming keeps an e-mail's shape: the matched characters are not white space, so they
      all lie inside the trimmed infix. */
  lemma TrimKeepsEmailShape(s: string)
    requires EmailShaped(s)
    ensures EmailShaped(Trim(s))
  {
    var p, q :| 0 <= p < |s| && 0 <= q < |s| && AtDot(s, p, q);
    TrimKeepsAtDot(s, p, q);
  }

  lemma TrimKeepsAtDot(s: string, p: int, q: int)
    requires AtDot(s, p, q)
    ensures EmailShaped(Trim(s))
  {
    var r := Trim(s);
    var lead := LeadingSpaces(s);
    AtDotInsideTrim(s, p, q);
    InfixKeepsAtDot(s, r, lead, lead + |r|, p, q);
  }

  /** Lower-casing keeps an e-mail's shape. */
  lemma LowerKeepsEmailShape(s: string)
    requires EmailShaped(s)
    ensures EmailShaped(ToLower(s))
  {
    var p, q :| 0 <= p < |s| && 0 <= q < |s| && AtDot(s, p, q);
    var r := ToLower(s);
    assert forall k :: p < k < q ==> !IsSpace(r[k]);
    assert AtDot(r, p, q);
  }

  /** The body of an accepted form carries non-empty names, a well-shaped e-mail and the
      password of at least 8 characters. */
  lemma ValidFormPayload(f: RegisterForm)
    requires FormValid(f)
    ensures var body := Payload(f);
            && body.fullname.firstname.Some? && body.fullname.firstname.value != ""
            && body.fullname.lastname.Some? && body.fullname.lastname.value != ""
            && EmailShaped(body.email) && body.email != ""
            && JsLength(body.password) >= 8
  {
    FormValidIff(f);
    TrimKeepsEmailShape(f.email);
    LowerKeepsEmailShape(Trim(f.email));
  }

  /** The page accepts a two-character name, which the User schema's `minlength: 3` then
      rejects: such a registration passes the page and fails on the server. */
  lemma ShortNameAcceptedThenRejected(f: RegisterForm, digest: string)
    requires FormValid(f) && JsLength(Trim(f.firstname)) < NameMinLength
    ensures !MeetsSchema(User(Payload(f).fullname, Payload(f).email, digest))
  {
  }
}
