/**
 * The request validators: single-field checks that answer
 * `{ valid, error }`, and the two aggregate validators that collect every
 * failing field's message, in field order, into `{ valid, errors }`.
 */
module Validators {
  import opened Wrappers
  import opened Js
  import opened Constants

  /** `{ valid: true }` or `{ valid: false, error }`. */
  datatype Verdict = Valid | Invalid(error: string)

  const NameRequired: string := "Name is required"
  const InvalidEmailFormat: string := "Invalid email format"
  const PasswordTooShort: string := "Password must be at least 8 characters"
  const PasswordTooLong: string := "Password must be at most 16 characters"
  const PasswordNoUppercase: string := "Password must contain at least one uppercase letter"
  const PasswordNoSpecial: string := "Password must contain at least one special character"
  const AddressTooLong: string := "Address must be at most 400 characters"
  const AddressRequired: string := "Address is required"
  const RatingOutOfRange: string := "Rating must be between 1 and 5"

  // ---------------------------------------------------------------------
  // Email: EMAIL_REGEX = ^[^\s@]+@[^\s@]+\.[^\s@]+$
  // ---------------------------------------------------------------------

  /** A match of `[^\s@]+`. */
  predicate Segment(s: string) {
    s != [] && forall k :: 0 <= k < |s| ==> !IsSpace(s[k]) && s[k] != '@'
  }

  /** The regular expression, read as three segments joined by '@' and '.'. */
  predicate EmailRegex(s: string) {
    exists i, j :: 0 <= i < j < |s| && s[i] == '@' && s[j] == '.'
                   && Segment(s[..i]) && Segment(s[i + 1..j]) && Segment(s[j + 1..])
  }

  /**
   * validateEmail. RegExp.prototype.test turns undefined and null into
   * "undefined" and "null", which contain no '@', so only strings can pass.
   */
  predicate ValidateEmail(v: TextValue) {
    v.Str? && EmailRegex(v.s)
  }

  /** '@' occurs in s at position i and nowhere else. */
  predicate OnlyAtSignAt(s: string, i: int) {
    forall k :: 0 <= k < |s| ==> (s[k] == '@' <==> k == i)
  }

  /** The domain has a '.' that is neither its first nor its last character. */
  predicate InnerDot(d: string) {
    exists j :: 0 < j < |d| - 1 && d[j] == '.'
  }

  /** The shape the regular expression accepts, stated field by field. */
  predicate EmailShape(s: string) {
    && (forall k :: 0 <= k < |s| ==> !IsSpace(s[k]))
    && exists i :: 0 < i < |s| && OnlyAtSignAt(s, i) && InnerDot(s[i + 1..])
  }

  /**
   * An address passes EMAIL_REGEX exactly when it has no whitespace, exactly
   * one '@' with something before it, and a dot strictly inside the domain.
   */
  lemma EmailRegexIsShape(s: string)
    ensures EmailRegex(s) <==> EmailShape(s)
  {
    if EmailRegex(s) {
      RegexGivesShape(s);
    }
    if EmailShape(s) {
      ShapeGivesRegex(s);
    }
  }

  lemma RegexGivesShape(s: string)
    requires EmailRegex(s)
    ensures EmailShape(s)
  {
    {
      var i, j :| 0 <= i < j < |s| && s[i] == '@' && s[j] == '.'
                  && Segment(s[..i]) && Segment(s[i + 1..j]) && Segment(s[j + 1..]);
      assert s[..i] == s[0..i] && s[j + 1..] == s[j + 1..|s|];
      forall k | 0 <= k < |s| ensures !IsSpace(s[k]) && (s[k] == '@' <==> k == i) {
        if k < i {
          SegmentChar(s, 0, i, k);
        } else if i < k < j {
          SegmentChar(s, i + 1, j, k);
        } else if j < k {
          SegmentChar(s, j + 1, |s|, k);
        }
      }
      assert OnlyAtSignAt(s, i);
      assert |s[..i]| > 0;
      var d := s[i + 1..];
      assert d[j - i - 1] == '.';
      assert InnerDot(d);
      assert 0 < i < |s| && OnlyAtSignAt(s, i) && InnerDot(s[i + 1..]);
    }
  }

  /** A character inside a segment is neither whitespace nor '@'. */
  lemma SegmentChar(s: string, a: nat, b: nat, k: nat)
    requires a <= k < b <= |s| && Segment(s[a..b])
    ensures !IsSpace(s[k]) && s[k] != '@'
  {
    assert s[k] == s[a..b][k - a];
  }

  lemma ShapeGivesRegex(s: string)
    requires EmailShape(s)
    ensures EmailRegex(s)
  {
    {
      var i :| 0 < i < |s| && OnlyAtSignAt(s, i) && InnerDot(s[i + 1..]);
      var d := s[i + 1..];
      var j' :| 0 < j' < |d| - 1 && d[j'] == '.';
      var j := i + 1 + j';
      assert s[j] == '.';
      SegmentOf(s, 0, i);
      SegmentOf(s, i + 1, j);
      SegmentOf(s, j + 1, |s|);
      assert s[..i] == s[0..i] && s[j + 1..] == s[j + 1..|s|];
      assert 0 <= i < j < |s| && s[i] == '@' && s[j] == '.'
             && Segment(s[..i]) && Segment(s[i + 1..j]) && Segment(s[j + 1..]);
    }
  }

  /** A non-empty stretch of s free of whitespace and '@' matches `[^\s@]+`. */
  lemma SegmentOf(s: string, lo: int, hi: int)
    requires 0 <= lo < hi <= |s|
    requires forall k :: lo <= k < hi ==> !IsSpace(s[k]) && s[k] != '@'
    ensures Segment(s[lo..hi])
  {
    var t := s[lo..hi];
    forall k | 0 <= k < |t| ensures !IsSpace(t[k]) && t[k] != '@' {
      assert t[k] == s[lo + k];
    }
  }

  // ---------------------------------------------------------------------
  // Password, name, address, rating
  // ---------------------------------------------------------------------

  predicate HasUppercase(p: string) {
    exists k :: 0 <= k < |p| && IsUppercase(p[k])
  }

  predicate HasSpecial(p: string) {
    exists k :: 0 <= k < |p| && IsSpecial(p[k])
  }

  /** The four password rules, as (holds, message to report when it does not). */
  function PasswordRules(p: string): seq<(bool, string)> {
    [ (JsLength(p) >= PasswordMinLength, PasswordTooShort),
      (JsLength(p) <= PasswordMaxLength, PasswordTooLong),
      (HasUppercase(p), PasswordNoUppercase),
      (HasSpecial(p), PasswordNoSpecial) ]
  }

  /** The message of the first rule that does not hold. */
  function FirstFailure(rules: seq<(bool, string)>): (r: Option<string>)
    ensures r.None? <==> forall k :: 0 <= k < |rules| ==> rules[k].0
  {
    if rules == [] then None
    else if !rules[0].0 then Some(rules[0].1)
    else
      var r := FirstFailure(rules[1..]);
      assert forall k :: 1 <= k < |rules| ==> rules[k] == rules[1..][k - 1];
      r
  }

  /**
   * validatePassword. Reading `.length` of undefined or null throws, so a
   * missing password is an exception, not a validation error.
   */
  function ValidatePassword(v: TextValue): (r: Result<Verdict, Exception>)
    ensures r.Err? <==> !v.Str?
    ensures v.Str? ==> (r == Ok(Valid) <==>
      PasswordMinLength <= JsLength(v.s) <= PasswordMaxLength && HasUppercase(v.s) && HasSpecial(v.s))
  {
    match v
    case Str(p) =>
      if JsLength(p) < PasswordMinLength then Ok(Invalid(PasswordTooShort))
      else if JsLength(p) > PasswordMaxLength then Ok(Invalid(PasswordTooLong))
      else if !HasUppercase(p) then Ok(Invalid(PasswordNoUppercase))
      else if !HasSpecial(p) then Ok(Invalid(PasswordNoSpecial))
      else Ok(Valid)
    case _ => Err(TypeError)
  }

  /** The error validatePassword reports is always the first failing rule, in rule order. */
  lemma PasswordReportsFirstFailure(p: string)
    ensures ValidatePassword(Str(p)) == Ok(match FirstFailure(PasswordRules(p))
                                           case None => Valid
                                           case Some(e) => Invalid(e))
  {
    var rules := PasswordRules(p);
    var r1 := rules[1..];
    var r2 := r1[1..];
    var r3 := r2[1..];
    assert r3[1..] == [];
    assert FirstFailure(r3[1..]) == None;
    assert FirstFailure(r3) == if !HasSpecial(p) then Some(PasswordNoSpecial) else None;
    assert FirstFailure(r2) == if !HasUppercase(p) then Some(PasswordNoUppercase) else FirstFailure(r3);
    assert FirstFailure(r1) == if JsLength(p) > PasswordMaxLength then Some(PasswordTooLong) else FirstFailure(r2);
    assert FirstFailure(rules) == if JsLength(p) < PasswordMinLength then Some(PasswordTooShort) else FirstFailure(r1);
  }

  /**
   * validateName: `!name` or blank after trim() is "Name is required".
   * NAME_REQUIREMENTS is not consulted, so any non-blank string passes.
   */
  function ValidateName(v: TextValue): (r: Verdict)
    ensures r == Valid <==> v.Str? && !IsBlank(v.s)
    ensures r != Valid ==> r == Invalid(NameRequired)
  {
    if !Truthy(v) || JsLength(Trim(v.s)) == 0 then Invalid(NameRequired) else Valid
  }

  /** validateAddress: only the upper bound is checked. */
  function ValidateAddress(a: string): (r: Verdict)
    ensures r == Valid <==> JsLength(a) <= AddressMaxLength
    ensures r != Valid ==> r == Invalid(AddressTooLong)
  {
    if JsLength(a) > AddressMaxLength then Invalid(AddressTooLong) else Valid
  }

  /** validateRating: Number(rating) must not be NaN and must lie in [1, 5]. */
  function ValidateRating(v: JsValue): (r: Verdict)
    ensures r == Valid <==> ToNumber(v).Some? && RatingMinValue as real <= ToNumber(v).value <= RatingMaxValue as real
    ensures r != Valid ==> r == Invalid(RatingOutOfRange)
  {
    match ToNumber(v)
    case None => Invalid(RatingOutOfRange)
    case Some(x) =>
      if x < RatingMinValue as real || x > RatingMaxValue as real then Invalid(RatingOutOfRange) else Valid
  }

  /** Integral values are not required: 2.5 passes, as does the text "4". */
  lemma RatingAcceptsFractions()
    ensures ValidateRating(Num(2.5)) == Valid
    ensures ValidateRating(Str("4")) == Valid
    ensures ValidateRating(Null) == Invalid(RatingOutOfRange)
  {
    assert AllDigits("4");
    assert DigitsValue("4") == 4 by {
      assert "4"[..0] == [];
    }
  }

  // ---------------------------------------------------------------------
  // The aggregate validators
  // ---------------------------------------------------------------------

  datatype SignupData = SignupData(name: TextValue, email: TextValue, password: TextValue, address: TextValue)

  datatype StoreData = StoreData(name: TextValue, email: TextValue, address: TextValue)

  /** `{ valid, errors }`, where errors is null rather than an empty list. */
  datatype Validation = Validation(valid: bool, errors: Option<seq<string>>)

  function VerdictErrors(v: Verdict): seq<string> {
    if v.Invalid? then [v.error] else []
  }

  function EmailErrors(v: TextValue): seq<string> {
    if ValidateEmail(v) then [] else [InvalidEmailFormat]
  }

  /** The `{ valid, errors }` record for a list of collected messages. */
  function ToValidation(errors: seq<string>): (r: Validation)
    ensures r.valid <==> r.errors.None?
    ensures r.valid <==> errors == []
    ensures r.errors.Some? ==> r.errors.value == errors
  {
    Validation(|errors| == 0, if |errors| > 0 then Some(errors) else None)
  }

  /** The messages validateUserSignup collects, or the exception it throws. */
  function SignupErrors(d: SignupData): Result<seq<string>, Exception> {
    match ValidatePassword(d.password)
    case Err(e) => Err(e)
    case Ok(pw) =>
      Ok(VerdictErrors(ValidateName(d.name)) + EmailErrors(d.email) + VerdictErrors(pw)
         + (if Truthy(d.address) then VerdictErrors(ValidateAddress(d.address.s)) else []))
  }

  /** The messages validateStoreData collects; it cannot throw. */
  function StoreDataErrors(d: StoreData): seq<string> {
    VerdictErrors(ValidateName(d.name)) + EmailErrors(d.email)
    + (if !Truthy(d.address) then [AddressRequired] else VerdictErrors(ValidateAddress(d.address.s)))
  }

  /** validateUserSignup: pushes one message per failing field onto `errors`. */
  method ValidateUserSignup(d: SignupData) returns (r: Result<Validation, Exception>)
    ensures r.Err? ==> SignupErrors(d) == Err(r.error)
    ensures r.Ok? ==> SignupErrors(d).Ok? && r.value == ToValidation(SignupErrors(d).value)
  {
    var errors: seq<string> := [];
    var nameValidation := ValidateName(d.name);
    if nameValidation.Invalid? {
      errors := errors + [nameValidation.error];
    }
    assert errors == VerdictErrors(ValidateName(d.name));
    if !ValidateEmail(d.email) {
      errors := errors + [InvalidEmailFormat];
    }
    assert errors == VerdictErrors(ValidateName(d.name)) + EmailErrors(d.email);
    var passwordValidation := ValidatePassword(d.password);
    if passwordValidation.Err? {
      return Err(passwordValidation.error);
    }
    if passwordValidation.value.Invalid? {
      errors := errors + [passwordValidation.value.error];
    }
    assert errors == VerdictErrors(ValidateName(d.name)) + EmailErrors(d.email) + VerdictErrors(passwordValidation.value);
    if Truthy(d.address) {
      var addressValidation := ValidateAddress(d.address.s);
      if addressValidation.Invalid? {
        errors := errors + [addressValidation.error];
      }
    }
    assert errors == SignupErrors(d).value;
    r := Ok(Validation(|errors| == 0, if |errors| > 0 then Some(errors) else None));
  }

  /** validateStoreData: the same, with the address required. */
  method ValidateStoreData(d: StoreData) returns (r: Validation)
    ensures r == ToValidation(StoreDataErrors(d))
  {
    var errors: seq<string> := [];
    var nameValidation := ValidateName(d.name);
    if nameValidation.Invalid? {
      errors := errors + [nameValidation.error];
    }
    assert errors == VerdictErrors(ValidateName(d.name));
    if !ValidateEmail(d.email) {
      errors := errors + [InvalidEmailFormat];
    }
    assert errors == VerdictErrors(ValidateName(d.name)) + EmailErrors(d.email);
    if !Truthy(d.address) {
      errors := errors + [AddressRequired];
    } else {
      var addressValidation := ValidateAddress(d.address.s);
      if addressValidation.Invalid? {
        errors := errors + [addressValidation.error];
      }
    }
    assert errors == StoreDataErrors(d);
    r := Validation(|errors| == 0, if |errors| > 0 then Some(errors) else None);
  }

  // ---------------------------------------------------------------------
  // What the aggregate validators promise
  // ---------------------------------------------------------------------

  /** Which field a message is about: 0 name, 1 email, 2 password, 3 address. */
  function FieldOf(message: string): int {
    if message == NameRequired then 0
    else if message == InvalidEmailFormat then 1
    else if message in {PasswordTooShort, PasswordTooLong, PasswordNoUppercase, PasswordNoSpecial} then 2
    else if message in {AddressTooLong, AddressRequired} then 3
    else -1
  }

  /** Each message names a known field, and the fields strictly increase along the list. */
  predicate InFieldOrder(errors: seq<string>) {
    && (forall k :: 0 <= k < |errors| ==> FieldOf(errors[k]) >= 0)
    && (forall k, l :: 0 <= k < l < |errors| ==> FieldOf(errors[k]) < FieldOf(errors[l]))
  }

  lemma VerdictMessages(d: SignupData)
    requires SignupErrors(d).Ok?
    ensures forall m :: m in VerdictErrors(ValidateName(d.name)) ==> FieldOf(m) == 0
    ensures forall m :: m in EmailErrors(d.email) ==> FieldOf(m) == 1
    ensures forall m :: m in VerdictErrors(ValidatePassword(d.password).value) ==> FieldOf(m) == 2
    ensures Truthy(d.address) ==> forall m :: m in VerdictErrors(ValidateAddress(d.address.s)) ==> FieldOf(m) == 3
  {
  }

  /** Every message in a is about a field before f. */
  predicate FieldsBefore(a: seq<string>, f: int) {
    forall k :: 0 <= k < |a| ==> FieldOf(a[k]) < f
  }

  /** Appending at most one message about field f to messages about earlier fields keeps field order. */
  lemma AppendField(a: seq<string>, b: seq<string>, f: int)
    requires InFieldOrder(a) && FieldsBefore(a, f)
    requires f >= 0 && |b| <= 1 && forall m :: m in b ==> FieldOf(m) == f
    ensures InFieldOrder(a + b) && FieldsBefore(a + b, f + 1)
  {
    if |b| == 1 {
      assert b[0] in b;
      var c := a + b;
      assert c[|a|] == b[0];
      forall k | 0 <= k < |c| ensures FieldOf(c[k]) >= 0 && FieldOf(c[k]) < f + 1 {
        if k < |a| {
          assert c[k] == a[k];
        }
      }
      forall k, l | 0 <= k < l < |c| ensures FieldOf(c[k]) < FieldOf(c[l]) {
        assert c[k] == a[k];
        if l < |a| {
          assert c[l] == a[l];
        }
      }
    } else {
      assert a + b == a;
    }
  }

  /**
   * validateUserSignup reports at most one message per field, in the order
   * name, email, password, address.
   */
  lemma SignupErrorsInFieldOrder(d: SignupData)
    requires SignupErrors(d).Ok?
    ensures InFieldOrder(SignupErrors(d).value)
  {
    VerdictMessages(d);
    var n := VerdictErrors(ValidateName(d.name));
    var e := EmailErrors(d.email);
    var p := VerdictErrors(ValidatePassword(d.password).value);
    var a := if Truthy(d.address) then VerdictErrors(ValidateAddress(d.address.s)) else [];
    assert SignupErrors(d).value == n + e + p + a;
    FourFieldsInOrder(n, e, p, a);
  }

  /** At most one message per field, fields 0 to 3 in turn, gives field order. */
  lemma FourFieldsInOrder(n: seq<string>, e: seq<string>, p: seq<string>, a: seq<string>)
    requires |n| <= 1 && |e| <= 1 && |p| <= 1 && |a| <= 1
    requires forall m :: m in n ==> FieldOf(m) == 0
    requires forall m :: m in e ==> FieldOf(m) == 1
    requires forall m :: m in p ==> FieldOf(m) == 2
    requires forall m :: m in a ==> FieldOf(m) == 3
    ensures InFieldOrder(n + e + p + a)
  {
    AppendField([], n, 0);
    assert [] + n == n;
    AppendField(n, e, 1);
    AppendField(n + e, p, 2);
    AppendField(n + e + p, a, 3);
  }

  /** Signup is valid exactly when every field check passes; the address only when supplied. */
  lemma SignupValidIff(d: SignupData)
    ensures SignupErrors(d) == Ok([]) <==>
      && ValidateName(d.name) == Valid
      && ValidateEmail(d.email)
      && ValidatePassword(d.password) == Ok(Valid)
      && (Truthy(d.address) ==> JsLength(d.address.s) <= AddressMaxLength)
  {
    if ValidatePassword(d.password).Ok? {
      var n := VerdictErrors(ValidateName(d.name));
      var e := EmailErrors(d.email);
      var p := VerdictErrors(ValidatePassword(d.password).value);
      var a := if Truthy(d.address) then VerdictErrors(ValidateAddress(d.address.s)) else [];
      assert SignupErrors(d).value == n + e + p + a;
      assert |n + e + p + a| == |n| + |e| + |p| + |a|;
    }
  }

  /** Store data is valid exactly when name, email and a present, short enough address all pass. */
  lemma StoreDataValidIff(d: StoreData)
    ensures StoreDataErrors(d) == [] <==>
      && ValidateName(d.name) == Valid
      && ValidateEmail(d.email)
      && Truthy(d.address) && JsLength(d.address.s) <= AddressMaxLength
  {
  }

  /**
   * The two validators disagree on a missing address: signup accepts it,
   * store data reports "Address is required".
   */
  lemma AddressOptionalOnlyForSignup(name: TextValue, email: TextValue, password: TextValue, address: TextValue)
    requires !Truthy(address)
    requires SignupErrors(SignupData(name, email, password, address)).Ok?
    ensures forall m :: m in SignupErrors(SignupData(name, email, password, address)).value ==> FieldOf(m) != 3
    ensures AddressRequired in StoreDataErrors(StoreData(name, email, address))
  {
    var d := SignupData(name, email, password, address);
    var pw := ValidatePassword(password).value;
    var errors := VerdictErrors(ValidateName(name)) + EmailErrors(email) + VerdictErrors(pw);
    assert SignupErrors(d).value == errors;
    VerdictMessages(d);
    forall m | m in errors ensures FieldOf(m) != 3 {
      assert m in VerdictErrors(ValidateName(name)) || m in EmailErrors(email) || m in VerdictErrors(pw);
    }
    var store := VerdictErrors(ValidateName(name)) + EmailErrors(email) + [AddressRequired];
    assert StoreDataErrors(StoreData(name, email, address)) == store;
    assert store[|store| - 1] == AddressRequired;
  }
}
