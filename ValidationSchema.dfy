/**
 * The sign-up and sign-in form rules of `validations/validationSchema.ts`, read the
 * way the schema library applies them when the form validates every rule
 * (`abortEarly: false`): the value is first transformed (trim, lower-case), then
 * every test of the field runs on the transformed value and each failing test
 * contributes its message, in the order the tests are declared. An absent value
 * fails only the required check. The e-mail grammar belongs to the library and is
 * a parameter here.
 */
module ValidationSchema {
  import opened Wrappers
  import opened Text

  // ---------------------------------------------------------------------------
  // Lengths and character classes

  /** The length JavaScript reports: UTF-16 code units, two for a character beyond U+FFFF. */
  function JsLength(s: string): (n: nat)
    ensures |s| <= n <= 2 * |s|
  {
    if s == [] then 0 else JsLength(s[..|s| - 1]) + (if s[|s| - 1] as int > 0xFFFF then 2 else 1)
  }

  /** Text without characters beyond U+FFFF has as many code units as characters. */
  lemma {:induction false} JsLengthBasic(s: string)
    requires forall i :: 0 <= i < |s| ==> s[i] as int <= 0xFFFF
    ensures JsLength(s) == |s|
  {
    if s != [] {
      JsLengthBasic(s[..|s| - 1]);
    }
  }

  predicate IsAsciiLetter(c: char)
  {
    'a' <= c <= 'z' || 'A' <= c <= 'Z'
  }

  /** The class `[!@#$%^&*(),.?":{}|<>]`. */
  predicate IsSpecial(c: char)
  {
    c in "!@#$%^&*(),.?\":{}|<>"
  }

  /** `^[a-zA-Z\s]+$`: one or more characters, each an ASCII letter or whitespace. */
  predicate LettersOrSpaces(s: string)
  {
    |s| > 0 && forall i :: 0 <= i < |s| ==> IsAsciiLetter(s[i]) || IsJsWhitespace(s[i])
  }

  /** `^[6-9]\d{9}$`: ten ASCII digits, the first of them 6 to 9. */
  predicate IsMobileNumber(s: string)
  {
    |s| == 10 && '6' <= s[0] <= '9' && forall i :: 1 <= i < |s| ==> IsDigit(s[i])
  }

  predicate HasUpper(s: string)
  {
    exists i :: 0 <= i < |s| && 'A' <= s[i] <= 'Z'
  }

  predicate HasLower(s: string)
  {
    exists i :: 0 <= i < |s| && 'a' <= s[i] <= 'z'
  }

  predicate HasDigit(s: string)
  {
    exists i :: 0 <= i < |s| && IsDigit(s[i])
  }

  predicate HasSpecial(s: string)
  {
    exists i :: 0 <= i < |s| && IsSpecial(s[i])
  }

  // ---------------------------------------------------------------------------
  // Messages

  /** The messages the schemas report; `MessageText` gives their wording. */
  datatype Message =
    | NameTooShort | NameTooLong | NameNotLetters | NameRequired
    | EmailInvalid | EmailTooLong | EmailRequired
    | MobileInvalid | MobileRequired
    | PasswordTooShort | PasswordTooLong | PasswordNoUpper | PasswordNoLower
    | PasswordNoDigit | PasswordNoSpecial | PasswordRequired

  function MessageText(m: Message): string
  {
    match m
    case NameTooShort => "Name must be at " + "least 3 characters"
    case NameTooLong => "Name must not " + "exceed 100 characters"
    case NameNotLetters => "Name can contain " + "only letters and spaces"
    case NameRequired => "Name is required"
    case EmailInvalid => "Invalid email format"
    case EmailTooLong => "Email must not " + "exceed 255 characters"
    case EmailRequired => "Email is required"
    case MobileInvalid => "Mobile number must " + "be exactly 10 digits"
    case MobileRequired => "Mobile number " + "is required"
    case PasswordTooShort => "Password must be " + "at least 6 characters"
    case PasswordTooLong => "Password must not " + "exceed 100 characters"
    case PasswordNoUpper => "Password must contain " + "at least one " + "uppercase letter"
    case PasswordNoLower => "Password must contain " + "at least one " + "lowercase letter"
    case PasswordNoDigit => "Password must contain " + "at least one number"
    case PasswordNoSpecial => "Password must contain " + "at least one " + "special character"
    case PasswordRequired => "Password is required"
  }

  // ---------------------------------------------------------------------------
  // Schemas

  /** The regular expressions of the schemas (the e-mail one stands for the library's). */
  datatype Pattern =
    | LettersAndSpaces   // ^[a-zA-Z\s]+$
    | IndianMobile       // ^[6-9]\d{9}$
    | SomeUpper          // [A-Z]
    | SomeLower          // [a-z]
    | SomeDigit          // [0-9]
    | SomeSpecial        // [!@#$%^&*(),.?":{}|<>]
    | EmailAddress

  /** Whether `s` matches `p`; `isEmail` is the library's e-mail grammar. */
  predicate Matches(p: Pattern, s: string, isEmail: string -> bool)
  {
    match p
    case LettersAndSpaces => LettersOrSpaces(s)
    case IndianMobile => IsMobileNumber(s)
    case SomeUpper => HasUpper(s)
    case SomeLower => HasLower(s)
    case SomeDigit => HasDigit(s)
    case SomeSpecial => HasSpecial(s)
    case EmailAddress => isEmail(s)
  }

  /**
   * One test of a string field: a minimum or maximum length, or a pattern; a pattern
   * test that excludes the empty string passes on "".
   */
  datatype Test =
    | MinLength(min: nat, message: Message)
    | MaxLength(max: nat, message: Message)
    | Pattern(pattern: Pattern, excludeEmpty: bool, message: Message)

  /** A string field: its transforms, its tests in declaration order, and its required message. */
  datatype Field = Field(trim: bool, lowercase: bool, tests: seq<Test>, required: Message)

  /** The value the tests see: trimmed and lower-cased when the field says so. */
  function Cast(field: Field, value: string): string
  {
    var trimmed := if field.trim then JsTrim(value) else value;
    if field.lowercase then Lower(trimmed) else trimmed
  }

  predicate Passes(test: Test, s: string, isEmail: string -> bool)
  {
    match test
    case MinLength(min, _) => JsLength(s) >= min
    case MaxLength(max, _) => JsLength(s) <= max
    case Pattern(p, excludeEmpty, _) => (excludeEmpty && s == "") || Matches(p, s, isEmail)
  }

  /** `s` passes every test of the list. */
  predicate PassesAll(tests: seq<Test>, s: string, isEmail: string -> bool)
  {
    forall i :: 0 <= i < |tests| ==> Passes(tests[i], s, isEmail)
  }

  /** The messages of the tests `s` fails, in order. */
  function Failures(tests: seq<Test>, s: string, isEmail: string -> bool): (r: seq<Message>)
    ensures r == [] <==> PassesAll(tests, s, isEmail)
    ensures |r| <= |tests|
    ensures forall i :: 0 <= i < |r| ==> exists j :: 0 <= j < |tests| && r[i] == tests[j].message
  {
    if tests == [] then []
    else
      var rest := Failures(tests[1..], s, isEmail);
      assert forall j :: 0 <= j < |tests| - 1 ==> tests[1..][j] == tests[j + 1];
      (if Passes(tests[0], s, isEmail) then [] else [tests[0].message]) + rest
  }

  /** Lists of one, two, three and six tests pass when each of their tests passes. */
  lemma PassesAllSmall(tests: seq<Test>, s: string, isEmail: string -> bool)
    ensures |tests| == 1 ==> (PassesAll(tests, s, isEmail) <==> Passes(tests[0], s, isEmail))
    ensures |tests| == 2 ==> (PassesAll(tests, s, isEmail) <==> Passes(tests[0], s, isEmail) && Passes(tests[1], s, isEmail))
    ensures |tests| == 3 ==> (PassesAll(tests, s, isEmail) <==>
                                Passes(tests[0], s, isEmail) && Passes(tests[1], s, isEmail) && Passes(tests[2], s, isEmail))
    ensures |tests| == 6 ==> (PassesAll(tests, s, isEmail) <==>
                                Passes(tests[0], s, isEmail) && Passes(tests[1], s, isEmail) && Passes(tests[2], s, isEmail)
                                && Passes(tests[3], s, isEmail) && Passes(tests[4], s, isEmail) && Passes(tests[5], s, isEmail))
  {
  }

  /**
   * The messages a field reports: for an absent value its required message alone;
   * otherwise the failing tests' messages, then the required message when the
   * transformed value is empty.
   */
  function Validate(field: Field, value: Option<string>, isEmail: string -> bool): seq<Message>
  {
    match value
    case None => [field.required]
    case Some(v) =>
      var s := Cast(field, v);
      Failures(field.tests, s, isEmail) + (if s == "" then [field.required] else [])
  }

  const SignupName := Field(true, false, [
      MinLength(3, NameTooShort), MaxLength(100, NameTooLong), Pattern(LettersAndSpaces, false, NameNotLetters)
    ], NameRequired)

  const SignupEmail := Field(true, true, [Pattern(EmailAddress, true, EmailInvalid), MaxLength(255, EmailTooLong)], EmailRequired)

  const SignupMobile := Field(false, false, [Pattern(IndianMobile, false, MobileInvalid)], MobileRequired)

  const SignupPassword := Field(false, false, [
      MinLength(6, PasswordTooShort), MaxLength(100, PasswordTooLong),
      Pattern(SomeUpper, false, PasswordNoUpper), Pattern(SomeLower, false, PasswordNoLower),
      Pattern(SomeDigit, false, PasswordNoDigit), Pattern(SomeSpecial, false, PasswordNoSpecial)
    ], PasswordRequired)

  const SigninEmail := Field(true, true, [Pattern(EmailAddress, true, EmailInvalid)], EmailRequired)

  const SigninPassword := Field(false, false, [MinLength(6, PasswordTooShort)], PasswordRequired)

  // ---------------------------------------------------------------------------
  // The forms

  datatype SignupForm = SignupForm(name: Option<string>, email: Option<string>, mobile: Option<string>, password: Option<string>)

  datatype SigninForm = SigninForm(email: Option<string>, password: Option<string>)

  /** The messages of each sign-up field. */
  datatype SignupErrors = SignupErrors(name: seq<Message>, email: seq<Message>, mobile: seq<Message>, password: seq<Message>)

  datatype SigninErrors = SigninErrors(email: seq<Message>, password: seq<Message>)

  function ValidateSignup(form: SignupForm, isEmail: string -> bool): SignupErrors
  {
    SignupErrors(Validate(SignupName, form.name, isEmail), Validate(SignupEmail, form.email, isEmail),
                 Validate(SignupMobile, form.mobile, isEmail), Validate(SignupPassword, form.password, isEmail))
  }

  function ValidateSignin(form: SigninForm, isEmail: string -> bool): SigninErrors
  {
    SigninErrors(Validate(SigninEmail, form.email, isEmail), Validate(SigninPassword, form.password, isEmail))
  }

  // ---------------------------------------------------------------------------
  // What the rules accept

  /** A field accepts a present value exactly when its transformed value is not empty and passes every test. */
  lemma ValidateAccepts(field: Field, v: string, isEmail: string -> bool)
    ensures Validate(field, Some(v), isEmail) == [] <==> Cast(field, v) != "" && PassesAll(field.tests, Cast(field, v), isEmail)
  {
  }

  /**
   * The required message is reported exactly when the value is absent or transforms
   * to the empty string (when no test shares that message).
   */
  lemma RequiredReported(field: Field, value: Option<string>, isEmail: string -> bool)
    requires forall j :: 0 <= j < |field.tests| ==> field.tests[j].message != field.required
    ensures field.required in Validate(field, value, isEmail) <==> value.None? || Cast(field, value.value) == ""
  {
  }

  /** Every field of both forms is required: absent or empty, it reports its required message. */
  lemma EveryFieldRequired(isEmail: string -> bool)
    ensures forall field :: field in [SignupName, SignupEmail, SignupMobile, SignupPassword, SigninEmail, SigninPassword] ==>
      Validate(field, None, isEmail) == [field.required] && field.required in Validate(field, Some(""), isEmail)
  {
    assert JsTrim("") == "";
  }

  /**
   * A sign-up name is accepted exactly when, once trimmed, it has 3 to 100 characters,
   * all ASCII letters or whitespace.
   */
  lemma SignupNameAccepted(v: string, isEmail: string -> bool)
    ensures Validate(SignupName, Some(v), isEmail) == [] <==> 3 <= |JsTrim(v)| <= 100 && LettersOrSpaces(JsTrim(v))
  {
    var t := JsTrim(v);
    ValidateAccepts(SignupName, v, isEmail);
    PassesAllSmall(SignupName.tests, t, isEmail);
    if LettersOrSpaces(t) {
      JsLengthBasic(t);
    }
  }

  /** A sign-up e-mail is accepted exactly when, trimmed and lower-cased, it is a non-empty address of at most 255 code units. */
  lemma SignupEmailAccepted(v: string, isEmail: string -> bool)
    ensures var e := Lower(JsTrim(v));
      Validate(SignupEmail, Some(v), isEmail) == [] <==> e != "" && isEmail(e) && JsLength(e) <= 255
  {
    ValidateAccepts(SignupEmail, v, isEmail);
    PassesAllSmall(SignupEmail.tests, Lower(JsTrim(v)), isEmail);
  }

  /** A mobile number is accepted exactly when it is ten ASCII digits starting with 6 to 9; it is not trimmed. */
  lemma SignupMobileAccepted(v: string, isEmail: string -> bool)
    ensures Validate(SignupMobile, Some(v), isEmail) == [] <==> IsMobileNumber(v)
  {
    ValidateAccepts(SignupMobile, v, isEmail);
    PassesAllSmall(SignupMobile.tests, v, isEmail);
  }

  /**
   * A sign-up password is accepted exactly when it has 6 to 100 code units and an
   * uppercase letter, a lowercase letter, a digit and a special character.
   */
  lemma SignupPasswordAccepted(v: string, isEmail: string -> bool)
    ensures Validate(SignupPassword, Some(v), isEmail) == []
        <==> (6 <= JsLength(v) <= 100 && HasUpper(v) && HasLower(v) && HasDigit(v) && HasSpecial(v))
  {
    ValidateAccepts(SignupPassword, v, isEmail);
    PassesAllSmall(SignupPassword.tests, v, isEmail);
  }

  /** A sign-in e-mail is accepted exactly when, trimmed and lower-cased, it is a non-empty address, of any length. */
  lemma SigninEmailAccepted(v: string, isEmail: string -> bool)
    ensures var e := Lower(JsTrim(v));
      Validate(SigninEmail, Some(v), isEmail) == [] <==> e != "" && isEmail(e)
  {
    ValidateAccepts(SigninEmail, v, isEmail);
    PassesAllSmall(SigninEmail.tests, Lower(JsTrim(v)), isEmail);
  }

  /** A sign-in password is accepted exactly when it has at least 6 code units: no maximum, no classes. */
  lemma SigninPasswordAccepted(v: string, isEmail: string -> bool)
    ensures Validate(SigninPassword, Some(v), isEmail) == [] <==> JsLength(v) >= 6
  {
    ValidateAccepts(SigninPassword, v, isEmail);
    PassesAllSmall(SigninPassword.tests, v, isEmail);
  }

  /** A message that no test carries is never among the failures. */
  lemma NotReported(tests: seq<Test>, s: string, isEmail: string -> bool, m: Message)
    requires forall j :: 0 <= j < |tests| ==> tests[j].message != m
    ensures m !in Failures(tests, s, isEmail)
  {
  }

  /** When a field's tests have distinct messages, each test's message is reported exactly when that test fails. */
  lemma {:induction false} FailureReported(tests: seq<Test>, s: string, isEmail: string -> bool, k: nat)
    requires k < |tests|
    requires forall i, j :: 0 <= i < j < |tests| ==> tests[i].message != tests[j].message
    ensures tests[k].message in Failures(tests, s, isEmail) <==> !Passes(tests[k], s, isEmail)
  {
    if k > 0 {
      FailureReported(tests[1..], s, isEmail, k - 1);
      assert tests[1..][k - 1] == tests[k];
    }
  }

  /**
   * The sign-up password reports every rule it breaks, not only the first: each
   * message is present exactly when its rule fails, and the required message exactly
   * when the password is empty.
   */
  lemma SignupPasswordMessages(v: string, isEmail: string -> bool)
    ensures var r := Validate(SignupPassword, Some(v), isEmail);
      && (PasswordTooShort in r <==> JsLength(v) < 6)
      && (PasswordTooLong in r <==> JsLength(v) > 100)
      && (PasswordNoUpper in r <==> !HasUpper(v))
      && (PasswordNoLower in r <==> !HasLower(v))
      && (PasswordNoDigit in r <==> !HasDigit(v))
      && (PasswordNoSpecial in r <==> !HasSpecial(v))
      && (PasswordRequired in r <==> v == "")
  {
    var failures := Failures(SignupPassword.tests, v, isEmail);
    assert Validate(SignupPassword, Some(v), isEmail) == failures + (if v == "" then [PasswordRequired] else []);
    PasswordFailures(v, isEmail);
  }

  lemma PasswordFailures(v: string, isEmail: string -> bool)
    ensures var f := Failures(SignupPassword.tests, v, isEmail);
      && (PasswordTooShort in f <==> JsLength(v) < 6)
      && (PasswordTooLong in f <==> JsLength(v) > 100)
      && (PasswordNoUpper in f <==> !HasUpper(v))
      && (PasswordNoLower in f <==> !HasLower(v))
      && (PasswordNoDigit in f <==> !HasDigit(v))
      && (PasswordNoSpecial in f <==> !HasSpecial(v))
      && PasswordRequired !in f
  {
    var tests := SignupPassword.tests;
    PasswordTests(v, isEmail);
    FailureReported(tests, v, isEmail, 0);
    FailureReported(tests, v, isEmail, 1);
    FailureReported(tests, v, isEmail, 2);
    FailureReported(tests, v, isEmail, 3);
    FailureReported(tests, v, isEmail, 4);
    FailureReported(tests, v, isEmail, 5);
    NotReported(tests, v, isEmail, PasswordRequired);
  }

  /** The six password tests, their messages and what each checks. */
  lemma PasswordTests(v: string, isEmail: string -> bool)
    ensures var tests := SignupPassword.tests;
      && |tests| == 6
      && (forall i, j :: 0 <= i < j < |tests| ==> tests[i].message != tests[j].message)
      && (forall j :: 0 <= j < |tests| ==> tests[j].message != PasswordRequired)
      && tests[0].message == PasswordTooShort && (Passes(tests[0], v, isEmail) <==> JsLength(v) >= 6)
      && tests[1].message == PasswordTooLong && (Passes(tests[1], v, isEmail) <==> JsLength(v) <= 100)
      && tests[2].message == PasswordNoUpper && (Passes(tests[2], v, isEmail) <==> HasUpper(v))
      && tests[3].message == PasswordNoLower && (Passes(tests[3], v, isEmail) <==> HasLower(v))
      && tests[4].message == PasswordNoDigit && (Passes(tests[4], v, isEmail) <==> HasDigit(v))
      && tests[5].message == PasswordNoSpecial && (Passes(tests[5], v, isEmail) <==> HasSpecial(v))
  {
  }

  /** A name of only whitespace trims to nothing and reports three messages: too short, not letters, required. */
  lemma BlankName(v: string, isEmail: string -> bool)
    requires JsTrim(v) == ""
    ensures Validate(SignupName, Some(v), isEmail) == [NameTooShort, NameNotLetters, NameRequired]
  {
    assert JsLength("") == 0;
  }

  /** Whatever the sign-up form accepts as e-mail and password, the sign-in form accepts too. */
  lemma SignupImpliesSignin(email: Option<string>, password: Option<string>, isEmail: string -> bool)
    requires Validate(SignupEmail, email, isEmail) == [] && Validate(SignupPassword, password, isEmail) == []
    ensures ValidateSignin(SigninForm(email, password), isEmail) == SigninErrors([], [])
  {
    SignupEmailAccepted(email.value, isEmail);
    SigninEmailAccepted(email.value, isEmail);
    SignupPasswordAccepted(password.value, isEmail);
    SigninPasswordAccepted(password.value, isEmail);
  }

  /** Lower-casing keeps text that neither starts nor ends with whitespace that way. */
  lemma LowerKeepsTrimmed(t: string)
    requires JsTrim(t) == t
    ensures JsTrim(Lower(t)) == Lower(t)
  {
    if t != [] {
      assert !IsJsWhitespace(t[0]) && !IsJsWhitespace(t[|t| - 1]);
      TrimNoop(Lower(t), IsJsWhitespace);
    }
  }

  /** Normalising an e-mail twice gives what normalising it once gives. */
  lemma EmailCastIdempotent(v: string)
    ensures Cast(SignupEmail, Cast(SignupEmail, v)) == Cast(SignupEmail, v)
  {
    var t := JsTrim(v);
    TrimIdempotent(v, IsJsWhitespace);
    LowerKeepsTrimmed(t);
    LowerIdempotent(t);
  }
}
