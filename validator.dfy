/**
 * Per-field validation of a filled-in value, as the public form filler and
 * the builder's preview both do it: a cascade of rules (required, minimum
 * length, maximum length, custom pattern, e-mail format, phone format) of
 * which only the first failing one is reported.
 */
module Validator {
  import opened Common
  import opened FormModel
  import opened JsText

  /**
   * A value held in the filler's form data: nothing entered yet, the string
   * of a text-like input, or the boolean of a checkbox.
   */
  datatype Value = Absent | Str(s: string) | Bool(b: bool)

  /** JavaScript truthiness of a form value. */
  predicate Truthy(v: Value)
  {
    match v
    case Absent => false
    case Str(s) => s != ""
    case Bool(b) => b
  }

  /** `String(v)`: the text a regular expression's `test` sees. */
  function AsText(v: Value): string
  {
    match v
    case Absent => "undefined"
    case Str(s) => s
    case Bool(b) => if b then "true" else "false"
  }

  /**
   * `new RegExp(pattern).test(text)` for the author-supplied pattern of a
   * field; the regular-expression engine is a parameter of the model.
   */
  type Matcher = (string, string) -> bool

  const RequiredMessage := "This field is required"
  const FormatMessage := "Invalid format"
  const EmailMessage := "Invalid email format"
  const PhoneMessage := "Invalid phone number"

  function MinLengthMessage(m: int): string
  {
    "Minimum length is " + IntToString(m) + " characters"
  }

  function MaxLengthMessage(m: int): string
  {
    "Maximum length is " + IntToString(m) + " characters"
  }

  // ---------------------------------------------------------------------
  // The fixed formats
  // ---------------------------------------------------------------------

  /** `[^\s@]` */
  predicate EmailChar(c: char)
  {
    !IsJsWhitespace(c) && c != '@'
  }

  predicate AllEmailChars(s: string)
  {
    forall j :: 0 <= j < |s| ==> EmailChar(s[j])
  }

  /** `[^\s@]+\.[^\s@]+`: the part after the at sign. */
  predicate IsEmailDomain(d: string)
  {
    AllEmailChars(d) && exists k :: 0 < k < |d| - 1 && d[k] == '.'
  }

  /** `/^[^\s@]+@[^\s@]+\.[^\s@]+$/.test(s)` */
  predicate IsEmailAddress(s: string)
  {
    exists i :: 0 < i < |s| && s[i] == '@' && AllEmailChars(s[..i]) && IsEmailDomain(s[i + 1..])
  }

  /** The three parts the e-mail pattern asks for: non-empty, no whitespace, no at sign. */
  predicate EmailParts(local: string, domain: string, tld: string)
  {
    local != [] && domain != [] && tld != []
    && AllEmailChars(local) && AllEmailChars(domain) && AllEmailChars(tld)
  }

  /** Every address assembled from three valid parts passes the e-mail check. */
  lemma EmailOfParts(local: string, domain: string, tld: string)
    requires EmailParts(local, domain, tld)
    ensures IsEmailAddress(local + "@" + domain + "." + tld)
  {
    var s := local + "@" + domain + "." + tld;
    var i := |local|;
    var d := domain + "." + tld;
    assert s[..i] == local;
    assert s[i + 1..] == d;
    assert d[|domain|] == '.';
    assert forall j :: 0 <= j < |d| ==> d[j] == if j < |domain| then domain[j] else if j == |domain| then '.' else tld[j - |domain| - 1];
    assert IsEmailDomain(d);
  }

  lemma EmailCharsSlice(s: string, lo: nat, hi: nat)
    requires AllEmailChars(s) && lo <= hi <= |s|
    ensures AllEmailChars(s[lo..hi])
  {
    assert forall j :: 0 <= j < hi - lo ==> s[lo..hi][j] == s[lo + j];
  }

  /** Cutting a sequence around two of its positions and gluing the pieces back. */
  lemma SplitAround<T>(s: seq<T>, i: nat, k: nat)
    requires i + 1 + k < |s|
    ensures s == s[..i] + [s[i]] + s[i + 1..][..k] + [s[i + 1..][k]] + s[i + 1..][k + 1..]
  {
    var d := s[i + 1..];
    assert d == d[..k] + [d[k]] + d[k + 1..];
    assert s == s[..i] + [s[i]] + d;
  }

  /** Every string that passes the e-mail check splits into three valid parts. */
  lemma EmailSplits(s: string) returns (local: string, domain: string, tld: string)
    requires IsEmailAddress(s)
    ensures EmailParts(local, domain, tld)
    ensures s == local + "@" + domain + "." + tld
  {
    var i :| 0 < i < |s| && s[i] == '@' && AllEmailChars(s[..i]) && IsEmailDomain(s[i + 1..]);
    var d := s[i + 1..];
    var k :| 0 < k < |d| - 1 && d[k] == '.';
    local, domain, tld := s[..i], d[..k], d[k + 1..];
    SplitAround(s, i, k);
    EmailCharsSlice(d, 0, k);
    EmailCharsSlice(d, k + 1, |d|);
  }

  predicate IsNonZeroDigit(c: char)
  {
    '1' <= c <= '9'
  }

  /** `/^[+]?[1-9][\d]{0,15}$/.test(s)` */
  predicate IsPhoneNumber(s: string)
  {
    var body := if s != [] && s[0] == '+' then s[1..] else s;
    1 <= |body| <= 16 && IsNonZeroDigit(body[0]) && AllDigits(body)
  }

  /** A leading plus sign does not change the verdict on a string that starts with a digit. */
  lemma PhonePlusSign(r: string)
    requires r != [] && IsDigit(r[0])
    ensures IsPhoneNumber("+" + r) == IsPhoneNumber(r)
  {
    assert ("+" + r)[1..] == r;
  }

  /** A number has at most `k` decimal digits exactly when it is below 10^k. */
  lemma NatToStringAtMost(n: nat, k: nat)
    requires k > 0
    ensures |NatToString(n)| <= k <==> n < Pow10(k)
  {
    var d := |NatToString(n)|;
    NatToStringLength(n);
    if d <= k {
      Pow10Monotone(d, k);
    } else {
      Pow10Monotone(k, d - 1);
    }
  }

  /**
   * The decimal form of a number passes the phone check exactly when the
   * number is between 1 and 10^16 - 1.
   */
  lemma PhoneNumberRange(n: nat)
    ensures IsPhoneNumber(NatToString(n)) <==> 0 < n < Pow10(16)
  {
    var r := NatToString(n);
    assert r[0] != '+';
    NatToStringAtMost(n, 16);
    if n == 0 {
      assert r == "0";
    }
  }

  /** The same holds with a leading plus sign. */
  lemma PlusPhoneNumberRange(n: nat)
    ensures IsPhoneNumber("+" + NatToString(n)) <==> 0 < n < Pow10(16)
  {
    PhonePlusSign(NatToString(n));
    PhoneNumberRange(n);
  }

  // ---------------------------------------------------------------------
  // The rules, in the order the validator applies them
  // ---------------------------------------------------------------------

  /** A length bound is in force when it is set and not zero (zero is falsy). */
  predicate ActiveBound(b: Option<int>)
  {
    b.Some? && b.value != 0
  }

  /** A required field whose value is falsy, or a string that trims to nothing. */
  predicate MissesRequired(f: Field, v: Value)
  {
    f.required && (!Truthy(v) || (v.Str? && Trim(v.s) == ""))
  }

  /** A checkbox value has no `length`, so only strings are measured. */
  predicate BelowMinLength(f: Field, v: Value)
  {
    Truthy(v) && f.validation.Some? && ActiveBound(f.validation.value.minLength)
    && v.Str? && |v.s| < f.validation.value.minLength.value
  }

  predicate AboveMaxLength(f: Field, v: Value)
  {
    Truthy(v) && f.validation.Some? && ActiveBound(f.validation.value.maxLength)
    && v.Str? && |v.s| > f.validation.value.maxLength.value
  }

  predicate FailsPattern(f: Field, v: Value, matches: Matcher)
  {
    Truthy(v) && f.validation.Some? && f.validation.value.pattern.Some?
    && f.validation.value.pattern.value != ""
    && !matches(f.validation.value.pattern.value, AsText(v))
  }

  predicate FailsEmail(f: Field, v: Value)
  {
    f.fieldType == Email && Truthy(v) && !IsEmailAddress(AsText(v))
  }

  /** The phone check reads the value with all whitespace removed. */
  predicate FailsPhone(f: Field, v: Value)
  {
    f.fieldType == Phone && Truthy(v) && v.Str? && !IsPhoneNumber(StripWhitespace(v.s))
  }

  predicate PassesAll(f: Field, v: Value, matches: Matcher)
  {
    !MissesRequired(f, v) && !BelowMinLength(f, v) && !AboveMaxLength(f, v)
    && !FailsPattern(f, v, matches) && !FailsEmail(f, v) && !FailsPhone(f, v)
  }

  /** The messages of every failing rule, in rule order. */
  function FieldErrors(f: Field, v: Value, matches: Matcher): (errs: seq<string>)
    ensures errs == [] <==> PassesAll(f, v, matches)
  {
    (if MissesRequired(f, v) then [RequiredMessage] else [])
    + (if BelowMinLength(f, v) then [MinLengthMessage(f.validation.value.minLength.value)] else [])
    + (if AboveMaxLength(f, v) then [MaxLengthMessage(f.validation.value.maxLength.value)] else [])
    + (if FailsPattern(f, v, matches) then [FormatMessage] else [])
    + (if FailsEmail(f, v) then [EmailMessage] else [])
    + (if FailsPhone(f, v) then [PhoneMessage] else [])
  }

  /**
   * `validateField`: the message of the first failing rule, or the empty
   * string when the value is acceptable.
   */
  function ValidateField(f: Field, v: Value, matches: Matcher): (r: string)
    ensures r == "" <==> PassesAll(f, v, matches)
    ensures MissesRequired(f, v) ==> r == RequiredMessage
    ensures !MissesRequired(f, v) && BelowMinLength(f, v)
      ==> r == MinLengthMessage(f.validation.value.minLength.value)
    ensures !MissesRequired(f, v) && !BelowMinLength(f, v) && AboveMaxLength(f, v)
      ==> r == MaxLengthMessage(f.validation.value.maxLength.value)
    ensures (!MissesRequired(f, v) && !BelowMinLength(f, v) && !AboveMaxLength(f, v)
      && FailsPattern(f, v, matches)) ==> r == FormatMessage
    ensures (!MissesRequired(f, v) && !BelowMinLength(f, v) && !AboveMaxLength(f, v)
      && !FailsPattern(f, v, matches) && FailsEmail(f, v)) ==> r == EmailMessage
    ensures (!MissesRequired(f, v) && !BelowMinLength(f, v) && !AboveMaxLength(f, v)
      && !FailsPattern(f, v, matches) && !FailsEmail(f, v) && FailsPhone(f, v)) ==> r == PhoneMessage
  {
    var errs := FieldErrors(f, v, matches);
    if errs == [] then "" else errs[0]
  }

  // ---------------------------------------------------------------------
  // Properties
  // ---------------------------------------------------------------------

  /** The required message differs from every other message the validator produces. */
  lemma RequiredMessageIsDistinct(m: int)
    ensures RequiredMessage != MinLengthMessage(m) && RequiredMessage != MaxLengthMessage(m)
    ensures RequiredMessage != FormatMessage && RequiredMessage != EmailMessage && RequiredMessage != PhoneMessage
  {
    assert MinLengthMessage(m)[0] == 'M';
    assert MaxLengthMessage(m)[0] == 'M';
  }

  /**
   * A required field reports "This field is required" exactly when nothing
   * was entered, the checkbox is unticked, or the text is whitespace only.
   */
  lemma RequiredReportedIffBlank(f: Field, v: Value, matches: Matcher)
    requires f.required
    ensures ValidateField(f, v, matches) == RequiredMessage
      <==> v == Absent || v == Bool(false) || (v.Str? && AllWhitespace(v.s))
  {
    if v.Str? {
      TrimEmptyIffAllWhitespace(v.s);
      assert v.s == "" ==> AllWhitespace(v.s);
    }
    if !MissesRequired(f, v) {
      var r := ValidateField(f, v, matches);
      if f.validation.Some? && f.validation.value.minLength.Some? {
        RequiredMessageIsDistinct(f.validation.value.minLength.value);
      }
      if f.validation.Some? && f.validation.value.maxLength.Some? {
        RequiredMessageIsDistinct(f.validation.value.maxLength.value);
      }
      RequiredMessageIsDistinct(0);
      assert r != RequiredMessage;
    }
  }

  /** An optional field left blank is always valid, whatever its type and rules. */
  lemma OptionalBlankIsValid(f: Field, v: Value, matches: Matcher)
    requires !f.required && !Truthy(v)
    ensures ValidateField(f, v, matches) == ""
  {
  }

  /** A checkbox value is never reported as too short or too long. */
  lemma CheckboxHasNoLengthError(f: Field, b: bool, matches: Matcher)
    ensures forall m :: ValidateField(f, Bool(b), matches) != MinLengthMessage(m)
    ensures forall m :: ValidateField(f, Bool(b), matches) != MaxLengthMessage(m)
  {
    var r := ValidateField(f, Bool(b), matches);
    forall m
      ensures r != MinLengthMessage(m) && r != MaxLengthMessage(m)
    {
      RequiredMessageIsDistinct(m);
      assert MinLengthMessage(m)[0] == 'M' && MaxLengthMessage(m)[0] == 'M';
      assert MinLengthMessage(m) != "" && MaxLengthMessage(m) != "";
    }
  }

  /**
   * An e-mail field without extra rules accepts every address made of a
   * local part, a domain and a top-level part, and rejects everything else
   * that is not blank.
   */
  lemma EmailFieldAccepts(f: Field, s: string, matches: Matcher)
    requires f.fieldType == Email && f.validation.None? && s != ""
    ensures ValidateField(f, Str(s), matches) == ""
      <==> exists i :: 0 < i < |s| && s[i] == '@' && AllEmailChars(s[..i]) && IsEmailDomain(s[i + 1..])
  {
    if IsEmailAddress(s) {
      var local, domain, tld := EmailSplits(s);
      assert local != [] && local[0] == s[0];
      assert !IsJsWhitespace(s[0]);
      TrimEmptyIffAllWhitespace(s);
    }
  }

  /** Removing whitespace commutes with concatenation. */
  lemma StripConcat(a: string, b: string)
    ensures StripWhitespace(a + b) == StripWhitespace(a) + StripWhitespace(b)
  {
    FilterConcat((c: char) => !IsJsWhitespace(c), a, b);
  }

  /** Whitespace inserted anywhere disappears when whitespace is stripped. */
  lemma StripDropsSpaces(before: string, spaces: string, after: string)
    requires AllWhitespace(spaces)
    ensures StripWhitespace(before + spaces + after) == StripWhitespace(before + after)
  {
    assert StripWhitespace(spaces) == [] by {
      FilterNone((c: char) => !IsJsWhitespace(c), spaces);
    }
    assert StripWhitespace(before + spaces) == StripWhitespace(before) by {
      StripConcat(before, spaces);
    }
    StripConcat(before + spaces, after);
    StripConcat(before, after);
  }

  /**
   * The phone check ignores the whitespace a user types between digit
   * groups: inserting it anywhere into a non-empty value of a phone field
   * without extra rules does not change the verdict.
   */
  lemma PhoneFieldIgnoresSpaces(f: Field, before: string, spaces: string, after: string, matches: Matcher)
    requires f.fieldType == Phone && f.validation.None? && !f.required
    requires AllWhitespace(spaces) && before + after != ""
    ensures ValidateField(f, Str(before + spaces + after), matches) == ValidateField(f, Str(before + after), matches)
  {
    StripDropsSpaces(before, spaces, after);
    assert (before + spaces + after)[..|before|] == before;
  }

  /**
   * A required field whose value is non-empty but only whitespace, and
   * shorter than an active minimum length, fails both rules; the required
   * message is the one reported, whatever the other rules are.
   */
  lemma RequiredBeatsMinLength(f: Field, s: string, matches: Matcher)
    requires f.required && s != "" && AllWhitespace(s)
    requires f.validation.Some? && ActiveBound(f.validation.value.minLength)
    requires |s| < f.validation.value.minLength.value
    ensures MissesRequired(f, Str(s)) && BelowMinLength(f, Str(s))
    ensures ValidateField(f, Str(s), matches) == RequiredMessage
  {
    TrimEmptyIffAllWhitespace(s);
  }
}
