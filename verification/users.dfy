/**
 * The user-record helpers (src/types/user.js): `validateUser`, the display
 * name and initials, `validateAddress`, and the preference whitelist.
 * A string field that is missing or `null` is `None`.
 */
module Users {
  import opened Options
  import opened Text
  import opened Js
  import opened Validation

  datatype User = User(email: Option<string>, fullName: Option<string>, phone: Option<string>, password: Option<string>)

  /** The keys of the user's error object. */
  datatype UserField = Email | FullName | Phone | Password {
    function Key(): string
    {
      match this
      case Email => "email"
      case FullName => "full_name"
      case Phone => "phone"
      case Password => "password"
    }
  }

  /** Whether `validateUser` flags the field. */
  predicate UserFails(u: User, f: UserField)
  {
    match f
    case Email => !Present(u.email) || !IsValidEmail(u.email.value)
    case FullName => !Present(u.fullName)
    case Phone => Present(u.phone) && !IsValidPhone(u.phone.value)
    case Password => Present(u.password) && Utf16Length(u.password.value) < 8
  }

  function UserMessage(u: User, f: UserField): string
  {
    match f
    case Email => if !Present(u.email) then "Email is required" else "Invalid email address"
    case FullName => "Full name is required"
    case Phone => "Invalid phone number"
    case Password => "Password must be at least 8 characters"
  }

  /** `validateUser(user)`: the e-mail is required and well formed, the name required, phone and password checked only when given. */
  function ValidateUser(u: User): (r: Report<UserField>)
    ensures Email in r.errors <==> !Present(u.email) || !IsValidEmail(u.email.value)
    ensures !Present(u.email) ==> r.errors[Email] == "Email is required"
    ensures Present(u.email) && !IsValidEmail(u.email.value) ==> r.errors[Email] == "Invalid email address"
    ensures FullName in r.errors <==> !Present(u.fullName)
    ensures FullName in r.errors ==> r.errors[FullName] == "Full name is required"
    ensures Phone in r.errors <==> Present(u.phone) && !IsValidPhone(u.phone.value)
    ensures Phone in r.errors ==> r.errors[Phone] == "Invalid phone number"
    ensures Password in r.errors <==> Present(u.password) && Utf16Length(u.password.value) < 8
    ensures Password in r.errors ==> r.errors[Password] == "Password must be at least 8 characters"
    ensures r.isValid <==> forall k :: k !in r.errors
  {
    ReportOf(map f | f in {Email, FullName, Phone, Password} && UserFails(u, f) :: UserMessage(u, f))
  }

  /** A user is valid iff the e-mail is well formed, a name is given, and any phone and password given are acceptable. */
  lemma ValidUserIff(u: User)
    ensures ValidateUser(u).isValid <==>
              Present(u.email) && IsValidEmail(u.email.value) && Present(u.fullName)
              && (Present(u.phone) ==> IsValidPhone(u.phone.value))
              && (Present(u.password) ==> Utf16Length(u.password.value) >= 8)
  {
    var r := ValidateUser(u);
    if !r.isValid {
      var k :| k in r.errors;
    }
  }

  /** `getUserDisplayName(user)`: 'Guest', else the name, else the e-mail's local part; reading a missing e-mail throws. */
  function DisplayName(user: Option<User>): (r: Outcome<string>)
    ensures user.None? ==> r == Returns("Guest")
    ensures user.Some? && Present(user.value.fullName) ==> r == Returns(user.value.fullName.value)
    ensures r == TypeError <==> user.Some? && !Present(user.value.fullName) && user.value.email.None?
    ensures user.Some? && !Present(user.value.fullName) && user.value.email.Some? ==>
              r.Returns? && StartsWith(user.value.email.value, r.value) && '@' !in r.value
  {
    match user
    case None => Returns("Guest")
    case Some(u) =>
      if Present(u.fullName) then Returns(u.fullName.value)
      else if u.email.None? then TypeError
      else Returns(BeforeFirst(u.email.value, '@'))
  }

  /** Without a name, the display name is exactly the first piece of `email.split('@')`. */
  lemma DisplayNameIsSplitPiece(u: User)
    requires !Present(u.fullName) && u.email.Some?
    ensures DisplayName(Some(u)) == Returns(Split(u.email.value, '@')[0])
  {
    BeforeFirstIsFirstPiece(u.email.value, '@');
  }

  /** `.map(part => part[0]).join('')`: an empty part gives `undefined`, which `join` writes as nothing. */
  function FirstChars(parts: seq<string>): string
  {
    if |parts| == 0 then ""
    else (if |parts[0]| > 0 then [parts[0][0]] else "") + FirstChars(parts[1..])
  }

  /**
   * The characters that start a word: not a space, and at the start or
   * right after a space (`afterSpace` says whether the text read so far
   * ended in one).
   */
  function WordStarts(s: string, afterSpace: bool): (r: string)
    ensures forall i :: 0 <= i < |r| ==> r[i] != ' ' && r[i] in s
    ensures |r| <= |s|
  {
    if |s| == 0 then ""
    else (if s[0] != ' ' && afterSpace then [s[0]] else "") + WordStarts(s[1..], s[0] == ' ')
  }

  /** `s.slice(0, n)`. */
  function Take(s: string, n: nat): (r: string)
    ensures |r| == if |s| < n then |s| else n
    ensures forall i :: 0 <= i < |r| ==> r[i] == s[i]
  {
    if |s| <= n then s else s[..n]
  }

  /** `getAvatarFallback(user)`. */
  function AvatarFallback(user: Option<User>): (r: string)
    ensures |r| <= 2
    ensures user.None? || !Present(user.value.fullName) ==> r == "G"
  {
    if user.None? || !Present(user.value.fullName) then "G"
    else Take(ToUpper(FirstChars(Split(user.value.fullName.value, ' '))), 2)
  }

  /**
   * With a name, the fallback is the first two word starts, uppercased: the
   * empty parts of repeated, leading or trailing spaces contribute nothing.
   */
  lemma AvatarIsWordStarts(u: User)
    requires Present(u.fullName)
    ensures AvatarFallback(Some(u)) == Take(ToUpper(WordStarts(u.fullName.value, true)), 2)
  {
    SplitWordStarts(u.fullName.value);
  }

  lemma {:induction false} SplitWordStarts(s: string)
    ensures FirstChars(Split(s, ' ')) == WordStarts(s, true)
    ensures FirstChars(Split(s, ' ')[1..]) == WordStarts(s, false)
    decreases |s|
  {
    if |s| > 0 {
      SplitWordStarts(s[1..]);
      var rest := Split(s[1..], ' ');
      if s[0] == ' ' {
        assert Split(s, ' ') == [""] + rest;
        assert ([""] + rest)[1..] == rest;
      } else {
        var parts := [[s[0]] + rest[0]] + rest[1..];
        assert Split(s, ' ') == parts;
        assert parts[1..] == rest[1..];
      }
    }
  }

  /** Leading, doubled and trailing spaces add no initials. */
  lemma AvatarExample()
    ensures WordStarts(" a  b ", true) == "ab"
  {
    var s := " a  b ";
    assert WordStarts(s[6..], false) == "" by { assert s[6..] == ""; }
    WordStartsAt(s, 5, false);
    WordStartsAt(s, 4, true);
    WordStartsAt(s, 3, false);
    WordStartsAt(s, 2, false);
    WordStartsAt(s, 1, true);
    WordStartsAt(s, 0, true);
    assert s[0..] == s;
  }

  lemma WordStartsAt(s: string, k: nat, afterSpace: bool)
    requires k < |s|
    ensures WordStarts(s[k..], afterSpace)
            == (if s[k] != ' ' && afterSpace then [s[k]] else "") + WordStarts(s[k + 1..], s[k] == ' ')
  {
    assert s[k..][1..] == s[k + 1..];
  }

  datatype Address = Address(street: Option<string>, city: Option<string>, country: Option<string>, postalCode: Option<string>)

  /** The keys of the address's error object. */
  datatype AddressField = Street | City | Country | PostalCode {
    function Key(): string
    {
      match this
      case Street => "street"
      case City => "city"
      case Country => "country"
      case PostalCode => "postal_code"
    }

    function Message(): string
    {
      match this
      case Street => "Street address is required"
      case City => "City is required"
      case Country => "Country is required"
      case PostalCode => "Postal code is required"
    }
  }

  function AddressValue(a: Address, f: AddressField): Option<string>
  {
    match f
    case Street => a.street
    case City => a.city
    case Country => a.country
    case PostalCode => a.postalCode
  }

  /** `validateAddress(address)`: each of the four fields is required. */
  function ValidateAddress(a: Address): (r: Report<AddressField>)
    ensures Street in r.errors <==> !Present(a.street)
    ensures City in r.errors <==> !Present(a.city)
    ensures Country in r.errors <==> !Present(a.country)
    ensures PostalCode in r.errors <==> !Present(a.postalCode)
    ensures forall f :: f in r.errors ==> r.errors[f] == f.Message()
    ensures r.isValid <==> Present(a.street) && Present(a.city) && Present(a.country) && Present(a.postalCode)
  {
    var r := ReportOf(map f | f in {Street, City, Country, PostalCode} && !Present(AddressValue(a, f)) :: f.Message());
    assert !r.isValid ==> exists f :: f in r.errors;
    r
  }

  // ---------------------------------------------------------------------------
  // Preferences

  const DefaultPreferences: map<string, Value> := map[
    "email_notifications" := Bool(true),
    "sms_notifications" := Bool(false),
    "language" := Str("en"),
    "currency" := Str("USD"),
    "theme" := Str("light")]

  const Languages: seq<string> := ["en", "fr", "es"]
  const Currencies: seq<string> := ["USD", "EUR", "GBP"]
  const Themes: seq<string> := ["light", "dark", "system"]

  /** `allowed.includes(prefs[key]) ? prefs[key] : fallback`. */
  function Pick(prefs: map<string, Value>, key: string, allowed: seq<string>, fallback: string): (v: Value)
    requires fallback in allowed
    ensures v.Str? && v.s in allowed
    ensures Get(prefs, key).Str? && Get(prefs, key).s in allowed ==> v == Get(prefs, key)
    ensures !(Get(prefs, key).Str? && Get(prefs, key).s in allowed) ==> v == Str(fallback)
  {
    var v := Get(prefs, key);
    if v.Str? && v.s in allowed then v else Str(fallback)
  }

  /** `validateUserPreferences(preferences)` for an object argument. */
  function ValidatePreferences(prefs: map<string, Value>): (r: map<string, Value>)
    ensures r.Keys == DefaultPreferences.Keys + prefs.Keys
    ensures r["language"].Str? && r["language"].s in Languages
    ensures r["currency"].Str? && r["currency"].s in Currencies
    ensures r["theme"].Str? && r["theme"].s in Themes
  {
    WhitelistKeysDiffer();
    DefaultPreferences + prefs
    + map["language" := Pick(prefs, "language", Languages, "en"),
          "currency" := Pick(prefs, "currency", Currencies, "USD"),
          "theme" := Pick(prefs, "theme", Themes, "light")]
  }

  /** The three whitelisted keys are distinct, so setting one leaves the others. */
  lemma WhitelistKeysDiffer()
    ensures "language" != "currency" && "language" != "theme" && "currency" != "theme"
  {
    assert "language"[0] == 'l' && "currency"[0] == 'c' && "theme"[0] == 't';
  }

  /** An allowed value is kept and anything else becomes the default. */
  lemma PreferencesWhitelist(prefs: map<string, Value>)
    ensures var r := ValidatePreferences(prefs);
            && (Get(prefs, "language").Str? && Get(prefs, "language").s in Languages ==> r["language"] == prefs["language"])
            && (!(Get(prefs, "language").Str? && Get(prefs, "language").s in Languages) ==> r["language"] == Str("en"))
            && (Get(prefs, "currency").Str? && Get(prefs, "currency").s in Currencies ==> r["currency"] == prefs["currency"])
            && (!(Get(prefs, "currency").Str? && Get(prefs, "currency").s in Currencies) ==> r["currency"] == Str("USD"))
            && (Get(prefs, "theme").Str? && Get(prefs, "theme").s in Themes ==> r["theme"] == prefs["theme"])
            && (!(Get(prefs, "theme").Str? && Get(prefs, "theme").s in Themes) ==> r["theme"] == Str("light"))
  {
  }

  /** Keys outside the whitelist keep the given value, or else the default. */
  lemma PreferencesKeepOthers(prefs: map<string, Value>)
    ensures forall k :: k in prefs && k != "language" && k != "currency" && k != "theme" ==> ValidatePreferences(prefs)[k] == prefs[k]
    ensures forall k :: k in DefaultPreferences && k !in prefs ==> ValidatePreferences(prefs)[k] == DefaultPreferences[k]
  {
    WhitelistKeysDiffer();
  }

  /** Validating validated preferences changes nothing. */
  lemma PreferencesIdempotent(prefs: map<string, Value>)
    ensures ValidatePreferences(ValidatePreferences(prefs)) == ValidatePreferences(prefs)
  {
    var r := ValidatePreferences(prefs);
    var rr := ValidatePreferences(r);
    PreferencesWhitelist(r);
    PreferencesKeepOthers(r);
    assert Get(r, "language") == r["language"];
    assert Get(r, "currency") == r["currency"];
    assert Get(r, "theme") == r["theme"];
    assert rr.Keys == r.Keys;
    forall k | k in r
      ensures rr[k] == r[k]
    {
    }
  }

  /** The empty object yields exactly the defaults. */
  lemma EmptyPreferencesAreDefaults()
    ensures ValidatePreferences(map[]) == DefaultPreferences
  {
    var r := ValidatePreferences(map[]);
    forall k | k in r ensures r[k] == DefaultPreferences[k] {}
  }
}
