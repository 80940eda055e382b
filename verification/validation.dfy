/**
 * The form validators (src/lib/utils/validation.js): the e-mail, password
 * and phone patterns, `isRequired`, and `validateForm`. Each regular
 * expression is modelled by what it matches; letters, digits and case are
 * ASCII, as they are for these patterns.
 */
module Validation {
  import opened Options
  import opened Text
  import opened Js

  // ---------------------------------------------------------------------------
  // E-mail: /^[A-Z0-9._%+-]+@[A-Z0-9.-]+\.[A-Z]{2,}$/i

  predicate IsLocalChar(c: char)
  {
    IsLetter(c) || IsDigit(c) || c == '.' || c == '_' || c == '%' || c == '+' || c == '-'
  }

  predicate IsDomainChar(c: char)
  {
    IsLetter(c) || IsDigit(c) || c == '.' || c == '-'
  }

  /**
   * The pattern read as a regular expression: some '@' at `at` and some '.'
   * at `dot` split the text into a non-empty local part, a non-empty domain
   * and a top-level part of at least two letters.
   */
  predicate EmailPattern(s: string)
  {
    exists at, dot :: 0 < at && at + 1 < dot && dot + 2 < |s| && SplitsEmail(s, at, dot)
  }

  predicate SplitsEmail(s: string, at: int, dot: int)
  {
    && 0 < at < dot < |s|
    && s[at] == '@' && s[dot] == '.'
    && (forall j :: 0 <= j < at ==> IsLocalChar(s[j]))
    && (forall j :: at < j < dot ==> IsDomainChar(s[j]))
    && (forall j :: dot < j < |s| ==> IsLetter(s[j]))
  }

  /**
   * `isValidEmail(email)`, decided the way a matcher does: the local part
   * ends at the first '@' (no local character is '@'), the top-level part
   * starts after the last '.' (no letter is '.').
   */
  predicate IsValidEmail(s: string)
  {
    match IndexOf(s, '@')
    case None => false
    case Some(at) =>
      match LastIndexOf(s, '.')
      case None => false
      case Some(dot) => at > 0 && dot >= at + 2 && |s| - dot - 1 >= 2 && SplitsEmail(s, at, dot)
  }

  /** The matcher accepts exactly the texts the pattern matches, and such a text has exactly one '@'. */
  lemma EmailMatcherIsPattern(s: string)
    ensures IsValidEmail(s) <==> EmailPattern(s)
    ensures IsValidEmail(s) ==> exists at :: 0 <= at < |s| && s[at] == '@' && forall j :: 0 <= j < |s| && s[j] == '@' ==> j == at
  {
    if EmailPattern(s) {
      var at, dot :| 0 < at && at + 1 < dot && dot + 2 < |s| && SplitsEmail(s, at, dot);
      assert IndexOf(s, '@') == Some(at) by {
        assert !IsLocalChar('@');
      }
      assert LastIndexOf(s, '.') == Some(dot) by {
        assert !IsLetter('.');
      }
    }
    if IsValidEmail(s) {
      var at := IndexOf(s, '@').value;
      var dot := LastIndexOf(s, '.').value;
      assert SplitsEmail(s, at, dot);
      assert forall j :: 0 <= j < |s| && s[j] == '@' ==> j == at by {
        assert !IsDomainChar('@') && !IsLetter('@');
      }
    }
  }

  /** The `i` flag: lower- or upper-casing the text does not change the verdict. */
  lemma EmailIgnoresCase(s: string)
    ensures IsValidEmail(ToLower(s)) <==> IsValidEmail(s)
    ensures IsValidEmail(ToUpper(s)) <==> IsValidEmail(s)
  {
    EmailMatcherIsPattern(s);
    EmailMatcherIsPattern(ToLower(s));
    EmailMatcherIsPattern(ToUpper(s));
    SameClassesSamePattern(s, ToLower(s));
    SameClassesSamePattern(s, ToUpper(s));
  }

  /** Position by position, the two texts agree on every character class the pattern tests. */
  predicate SameClasses(s: string, t: string)
  {
    |s| == |t|
    && forall j :: 0 <= j < |s| ==>
         (IsLocalChar(s[j]) <==> IsLocalChar(t[j]))
         && (IsDomainChar(s[j]) <==> IsDomainChar(t[j]))
         && (IsLetter(s[j]) <==> IsLetter(t[j]))
         && (s[j] == '@' <==> t[j] == '@')
         && (s[j] == '.' <==> t[j] == '.')
  }

  lemma SameClassesSamePattern(s: string, t: string)
    requires SameClasses(s, t)
    ensures EmailPattern(s) <==> EmailPattern(t)
  {
    if EmailPattern(s) {
      var at, dot :| 0 < at && at + 1 < dot && dot + 2 < |s| && SplitsEmail(s, at, dot);
      assert SplitsEmail(t, at, dot);
    }
    if EmailPattern(t) {
      var at, dot :| 0 < at && at + 1 < dot && dot + 2 < |t| && SplitsEmail(t, at, dot);
      assert SplitsEmail(s, at, dot);
    }
  }

  // ---------------------------------------------------------------------------
  // Password: /^(?=.*[a-z])(?=.*[A-Z])(?=.*\d).{8,}$/

  /** `(?=.*X)`: some character of class X is reached without crossing a line terminator. */
  predicate Lookahead(p: string, cls: char -> bool)
  {
    exists i :: 0 <= i < |p| && cls(p[i]) && forall j :: 0 <= j < i ==> !IsLineTerminator(p[j])
  }

  /**
   * `isValidPassword(password)`: the three lookaheads, then `.{8,}$` over the
   * whole text. Without the `u` flag `.` matches one UTF-16 code unit, so the
   * length is counted in code units.
   */
  predicate IsValidPassword(p: string)
  {
    && Lookahead(p, IsLower)
    && Lookahead(p, IsUpper)
    && Lookahead(p, IsDigit)
    && Utf16Length(p) >= 8
    && forall j :: 0 <= j < |p| ==> !IsLineTerminator(p[j])
  }

  /** A password is accepted iff it has 8 or more UTF-16 code units, no line break, and a lowercase letter, an uppercase letter and a digit. */
  lemma PasswordMeaning(p: string)
    ensures IsValidPassword(p) <==>
              Utf16Length(p) >= 8
              && (forall j :: 0 <= j < |p| ==> !IsLineTerminator(p[j]))
              && (exists i :: 0 <= i < |p| && IsLower(p[i]))
              && (exists i :: 0 <= i < |p| && IsUpper(p[i]))
              && (exists i :: 0 <= i < |p| && IsDigit(p[i]))
  {
  }
  /** Six characters, three of them outside the Basic Multilingual Plane, are nine code units: long enough. */
  lemma PasswordCountsCodeUnits()
    ensures |"Aa1\U{1F600}\U{1F600}\U{1F600}"| == 6
    ensures Utf16Length("Aa1\U{1F600}\U{1F600}\U{1F600}") == 9
    ensures IsValidPassword("Aa1\U{1F600}\U{1F600}\U{1F600}")
  {
    var p := "Aa1\U{1F600}\U{1F600}\U{1F600}";
    ThreeNarrowThreeWide(p);
    assert forall j :: 0 <= j < |p| ==> !IsLineTerminator(p[j]) by {
      assert !IsLineTerminator(p[0]) && !IsLineTerminator(p[1]) && !IsLineTerminator(p[2]);
      assert !IsLineTerminator(p[3]) && !IsLineTerminator(p[4]) && !IsLineTerminator(p[5]);
    }
    AcceptedShape(p);
  }

  /** Upper, lower, digit up front, no line terminator and 8 code units: accepted. */
  lemma AcceptedShape(p: string)
    requires |p| >= 3 && IsUpper(p[0]) && IsLower(p[1]) && IsDigit(p[2])
    requires forall j :: 0 <= j < |p| ==> !IsLineTerminator(p[j])
    requires Utf16Length(p) >= 8
    ensures IsValidPassword(p)
  {
    assert Lookahead(p, IsUpper) by { assert IsUpper(p[0]); }
    assert Lookahead(p, IsLower) by { assert IsLower(p[1]) && !IsLineTerminator(p[0]); }
    assert Lookahead(p, IsDigit) by { assert IsDigit(p[2]) && !IsLineTerminator(p[0]) && !IsLineTerminator(p[1]); }
  }

  /** Three characters inside the Basic Multilingual Plane followed by three outside it are nine code units. */
  lemma ThreeNarrowThreeWide(p: string)
    requires |p| == 6
    requires p[0] as int < 0x1_0000 && p[1] as int < 0x1_0000 && p[2] as int < 0x1_0000
    requires p[3] as int >= 0x1_0000 && p[4] as int >= 0x1_0000 && p[5] as int >= 0x1_0000
    ensures Utf16Length(p) == 9
  {
    assert Utf16Length(p[6..]) == 0;
    assert Utf16Length(p[5..]) == 2 by { assert p[5..][1..] == p[6..]; }
    assert Utf16Length(p[4..]) == 4 by { assert p[4..][1..] == p[5..]; }
    assert Utf16Length(p[3..]) == 6 by { assert p[3..][1..] == p[4..]; }
    assert Utf16Length(p[2..]) == 7 by { assert p[2..][1..] == p[3..]; }
    assert Utf16Length(p[1..]) == 8 by { assert p[1..][1..] == p[2..]; }
    assert p[0..] == p;
    assert Utf16Length(p) == 9 by { assert p[1..] == p[1..]; }
  }



  // ---------------------------------------------------------------------------
  // Phone: /^\+?[\d\s-]{10,}$/

  predicate IsPhoneChar(c: char)
  {
    IsDigit(c) || IsSpace(c) || c == '-'
  }

  /** Ten or more phone characters from position `k` to the end. */
  predicate PhoneTail(p: string, k: nat)
  {
    k <= |p| && |p| - k >= 10 && forall j :: k <= j < |p| ==> IsPhoneChar(p[j])
  }

  /** `isValidPhone(phone)`: the match that takes a leading '+', or the one that skips `\+?`. */
  predicate IsValidPhone(p: string)
  {
    (|p| > 0 && p[0] == '+' && PhoneTail(p, 1)) || PhoneTail(p, 0)
  }

  /** The body after an optional leading '+'. */
  function PhoneBody(p: string): string
  {
    if |p| > 0 && p[0] == '+' then p[1..] else p
  }

  /** A phone is accepted iff what follows an optional leading '+' is 10 or more digits, whitespace or dashes. */
  lemma PhoneMeaning(p: string)
    ensures IsValidPhone(p) <==> |PhoneBody(p)| >= 10 && forall c :: c in PhoneBody(p) ==> IsPhoneChar(c)
  {
    var k := if |p| > 0 && p[0] == '+' then 1 else 0;
    assert PhoneBody(p) == p[k..];
    if k == 1 {
      assert !IsPhoneChar(p[0]);
      assert !PhoneTail(p, 0);
    }
    assert IsValidPhone(p) <==> PhoneTail(p, k);
    assert PhoneTail(p, k) <==> |p[k..]| >= 10 && forall c :: c in p[k..] ==> IsPhoneChar(c) by {
      if |p[k..]| >= 10 && forall c :: c in p[k..] ==> IsPhoneChar(c) {
        forall j | k <= j < |p| ensures IsPhoneChar(p[j]) {
          assert p[k..][j - k] == p[j];
        }
      }
    }
  }

  /** The pattern counts characters, not digits: ten dashes pass, a letter anywhere fails. */
  lemma PhoneCountsSeparators()
    ensures IsValidPhone("----------")
    ensures !IsValidPhone("+12345678x90")
  {
    var dashes := "----------";
    assert PhoneTail(dashes, 0);
    PhoneMeaning("+12345678x90");
    assert "+12345678x90"[9] == 'x';
    assert 'x' in PhoneBody("+12345678x90");
  }

  // ---------------------------------------------------------------------------
  // The `{ isValid, errors }` result of the record validators

  /**
   * `{ isValid: Object.keys(errors).length === 0, errors }`. The error keys
   * are a datatype of the record's fields, each naming its object key.
   */
  datatype Report<K> = Report(isValid: bool, errors: map<K, string>)

  function ReportOf<K>(errors: map<K, string>): (r: Report<K>)
    ensures r.errors == errors
    ensures r.isValid <==> forall k :: k !in errors
  {
    assert (forall k :: k !in errors) ==> errors == map[];
    Report(|errors| == 0, errors)
  }

  // ---------------------------------------------------------------------------
  // isRequired and validateForm

  /** `isRequired(value)`: a non-empty array or object, or any value other than undefined, null and ''. */
  predicate IsRequired(v: Value)
  {
    match v
    case Arr(elems) => |elems| > 0
    case Obj(fields) => |fields| > 0
    case _ => v != Undefined && v != Null && v != Str("")
  }

  /** `isRequired` is truthiness, except that 0 and false count as given and empty arrays and objects do not. */
  lemma IsRequiredVersusTruthy(v: Value)
    ensures IsRequired(v) <==>
              (Truthy(v) && v != Arr([]) && v != Obj(map[])) || v == Num(0.0) || v == Bool(false)
  {
    match v
    case Arr(elems) => assert |elems| == 0 ==> elems == [];
    case Obj(fields) => assert |fields| == 0 ==> fields == map[];
    case _ =>
  }

  /** The rules of one field; a number rule of 0 and an empty `matches` are absent (falsy). */
  datatype FieldRules = FieldRules(
    required: bool,
    email: bool,
    password: bool,
    phone: bool,
    url: bool,
    minLength: int,
    maxLength: int,
    matches: string)

  datatype FormError =
    | Required
    | InvalidEmail
    | WeakPassword
    | InvalidPhone
    | InvalidUrl
    | TooShort(min: int)
    | TooLong(max: int)
    | MustMatch(other: string)

  /** The message stored for an error. */
  function Message(e: FormError): string
  {
    match e
    case Required => "This field is required"
    case InvalidEmail => "Invalid email address"
    case WeakPassword => "Password must be at least 8 characters long and contain uppercase, lowercase, and number"
    case InvalidPhone => "Invalid phone number"
    case InvalidUrl => "Invalid URL"
    case TooShort(min) => "Must be at least " + DecimalString(min) + " characters"
    case TooLong(max) => "Must be no more than " + DecimalString(max) + " characters"
    case MustMatch(other) => "Must match " + other
  }

  /** `values[field]` for a form whose values are strings. */
  function FormValue(values: map<string, string>, field: string): Value
  {
    if field in values then Str(values[field]) else Undefined
  }

  /**
   * The checks run on a present value, in source order, each paired with
   * whether it fails. `validUrl` stands for the `URL` constructor succeeding.
   */
  function Checks(values: map<string, string>, s: string, rules: FieldRules, validUrl: string -> bool): seq<(bool, FormError)>
  {
    [ (rules.email && !IsValidEmail(s), InvalidEmail),
      (rules.password && !IsValidPassword(s), WeakPassword),
      (rules.phone && !IsValidPhone(s), InvalidPhone),
      (rules.url && !validUrl(s), InvalidUrl),
      (rules.minLength != 0 && Utf16Length(s) < rules.minLength, TooShort(rules.minLength)),
      (rules.maxLength != 0 && Utf16Length(s) > rules.maxLength, TooLong(rules.maxLength)),
      (rules.matches != "" && Str(s) != FormValue(values, rules.matches), MustMatch(rules.matches)) ]
  }

  /** The error of the last failing check, if any. */
  function LastFailure(checks: seq<(bool, FormError)>): Option<FormError>
  {
    if |checks| == 0 then None
    else if checks[|checks| - 1].0 then Some(checks[|checks| - 1].1)
    else LastFailure(checks[..|checks| - 1])
  }

  /** The last failing check wins: no error iff every check passes, else the error of the failing check with no failing check after it. */
  lemma {:induction false} LastFailureMeaning(checks: seq<(bool, FormError)>)
    ensures LastFailure(checks).None? <==> forall i :: 0 <= i < |checks| ==> !checks[i].0
    ensures forall i :: 0 <= i < |checks| && checks[i].0 && (forall j :: i < j < |checks| ==> !checks[j].0) ==>
              LastFailure(checks) == Some(checks[i].1)
  {
    if |checks| > 0 {
      var n := |checks| - 1;
      if !checks[n].0 {
        var init := checks[..n];
        assert LastFailure(checks) == LastFailure(init);
        assert forall k :: 0 <= k < n ==> checks[k] == init[k];
        LastFailureMeaning(init);
      }
    }
  }

  /**
   * The `if` statements of the callback, in order, each overwriting
   * `errors[field]` when its check fails.
   */
  function OverwriteChain(c: seq<(bool, FormError)>): Option<FormError>
    requires |c| == 7
  {
    var e1 := if c[0].0 then Some(c[0].1) else None;
    var e2 := if c[1].0 then Some(c[1].1) else e1;
    var e3 := if c[2].0 then Some(c[2].1) else e2;
    var e4 := if c[3].0 then Some(c[3].1) else e3;
    var e5 := if c[4].0 then Some(c[4].1) else e4;
    var e6 := if c[5].0 then Some(c[5].1) else e5;
    var e7 := if c[6].0 then Some(c[6].1) else e6;
    e7
  }

  /** The error `validateForm` records for one field: the body of the `forEach` callback. */
  function FieldError(values: map<string, string>, field: string, rules: FieldRules, validUrl: string -> bool): Option<FormError>
  {
    var value := FormValue(values, field);
    if rules.required && !IsRequired(value) then Some(Required)
    else if Truthy(value) then OverwriteChain(Checks(values, value.s, rules, validUrl))
    else None
  }

  /**
   * For a present value, each failing check overwrites the message of the
   * ones before it: the recorded error is that of the last failing check.
   */
  lemma LaterRuleOverwrites(values: map<string, string>, field: string, rules: FieldRules, validUrl: string -> bool)
    requires field in values && values[field] != ""
    ensures FieldError(values, field, rules, validUrl)
            == LastFailure(Checks(values, values[field], rules, validUrl))
  {
    ChainIsLastFailure(Checks(values, values[field], rules, validUrl));
  }

  lemma ChainIsLastFailure(c: seq<(bool, FormError)>)
    requires |c| == 7
    ensures OverwriteChain(c) == LastFailure(c)
  {
    LastFailureStep(c, 1);
    assert LastFailure(c[..0]) == None;
    var e1 := if c[0].0 then Some(c[0].1) else None;
    assert LastFailure(c[..1]) == e1;
    LastFailureStep(c, 2);
    var e2 := if c[1].0 then Some(c[1].1) else e1;
    assert LastFailure(c[..2]) == e2;
    LastFailureStep(c, 3);
    var e3 := if c[2].0 then Some(c[2].1) else e2;
    assert LastFailure(c[..3]) == e3;
    LastFailureStep(c, 4);
    var e4 := if c[3].0 then Some(c[3].1) else e3;
    assert LastFailure(c[..4]) == e4;
    LastFailureStep(c, 5);
    var e5 := if c[4].0 then Some(c[4].1) else e4;
    assert LastFailure(c[..5]) == e5;
    LastFailureStep(c, 6);
    var e6 := if c[5].0 then Some(c[5].1) else e5;
    assert LastFailure(c[..6]) == e6;
    LastFailureStep(c, 7);
    assert c[..7] == c;
  }

  lemma LastFailureStep(c: seq<(bool, FormError)>, n: nat)
    requires 0 < n <= |c|
    ensures LastFailure(c[..n]) == if c[n - 1].0 then Some(c[n - 1].1) else LastFailure(c[..n - 1])
  {
    assert c[..n][..n - 1] == c[..n - 1];
  }

  /** `values[field]` as a string field that may be missing. */
  function Lookup(values: map<string, string>, field: string): Option<string>
  {
    if field in values then Some(values[field]) else None
  }

  /** A required field that is missing or empty is reported as such; an optional one is skipped; a given one gets the last failing check. */
  lemma FieldErrorCases(values: map<string, string>, field: string, rules: FieldRules, validUrl: string -> bool)
    ensures rules.required && !Present(Lookup(values, field)) ==> FieldError(values, field, rules, validUrl) == Some(Required)
    ensures !rules.required && !Present(Lookup(values, field)) ==> FieldError(values, field, rules, validUrl) == None
    ensures Present(Lookup(values, field)) ==>
              FieldError(values, field, rules, validUrl) == LastFailure(Checks(values, values[field], rules, validUrl))
  {
    if Present(Lookup(values, field)) {
      LaterRuleOverwrites(values, field, rules, validUrl);
    }
  }

  /** `validateForm(values, rules)` with string form values. */
  function ValidateForm(values: map<string, string>, rules: map<string, FieldRules>, validUrl: string -> bool): (errors: map<string, string>)
    ensures errors.Keys <= rules.Keys
    ensures forall f :: f in rules && rules[f].required && !Present(Lookup(values, f)) ==>
              f in errors && errors[f] == "This field is required"
    ensures forall f :: f in rules && !rules[f].required && !Present(Lookup(values, f)) ==> f !in errors
    ensures forall f :: f in rules && Present(Lookup(values, f)) ==>
              (f in errors <==> LastFailure(Checks(values, values[f], rules[f], validUrl)).Some?)
              && (f in errors ==> errors[f] == Message(LastFailure(Checks(values, values[f], rules[f], validUrl)).value))
  {
    forall f | f in rules {
      FieldErrorCases(values, f, rules[f], validUrl);
    }
    map f | f in rules && FieldError(values, f, rules[f], validUrl).Some? :: Message(FieldError(values, f, rules[f], validUrl).value)
  }
}
