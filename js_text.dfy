/**
 * The JavaScript string built-ins the form core relies on: the whitespace
 * class shared by `String.prototype.trim` and the regular-expression escape
 * `\s`, `trim`, the `replace(/\s/g, "")` of the phone check, and the decimal
 * conversions `Number.prototype.toString` and `Number.parseInt` used when the
 * field-configuration panel shows and reads length bounds.
 */
module JsText {
  import opened Common

  /**
   * ECMAScript WhiteSpace and LineTerminator code points: tab, line feed,
   * vertical tab, form feed, carriage return, space, no-break space, the
   * Unicode space separators, line and paragraph separator, and the byte
   * order mark.
   */
  predicate IsJsWhitespace(c: char)
  {
    var n := c as int;
    || n == 0x09 || n == 0x0A || n == 0x0B || n == 0x0C || n == 0x0D || n == 0x20
    || n == 0xA0 || n == 0x1680 || (0x2000 <= n <= 0x200A) || n == 0x2028 || n == 0x2029
    || n == 0x202F || n == 0x205F || n == 0x3000 || n == 0xFEFF
  }

  predicate AllWhitespace(s: string)
  {
    forall i :: 0 <= i < |s| ==> IsJsWhitespace(s[i])
  }

  /** Leading whitespace removed. */
  function TrimStart(s: string): (r: string)
    ensures |r| <= |s| && r == s[|s| - |r|..]
    ensures r != [] ==> !IsJsWhitespace(r[0])
    ensures AllWhitespace(s[..|s| - |r|])
  {
    if s != [] && IsJsWhitespace(s[0]) then
      var r := TrimStart(s[1..]);
      assert s[..|s| - |r|] == [s[0]] + s[1..][..|s[1..]| - |r|];
      r
    else s
  }

  /** Trailing whitespace removed. */
  function TrimEnd(s: string): (r: string)
    ensures |r| <= |s| && r == s[..|r|]
    ensures r != [] ==> !IsJsWhitespace(r[|r| - 1])
    ensures AllWhitespace(s[|r|..])
  {
    if s != [] && IsJsWhitespace(s[|s| - 1]) then
      var r := TrimEnd(s[..|s| - 1]);
      assert s[|r|..] == s[..|s| - 1][|r|..] + [s[|s| - 1]];
      r
    else s
  }

  /** `String.prototype.trim` */
  function Trim(s: string): string
  {
    TrimEnd(TrimStart(s))
  }

  /** A string trims to the empty string exactly when it consists of whitespace only. */
  lemma TrimEmptyIffAllWhitespace(s: string)
    ensures Trim(s) == "" <==> AllWhitespace(s)
  {
    var t := TrimStart(s);
    if Trim(s) == "" {
      assert AllWhitespace(t[0..]);
      assert s == s[..|s| - |t|] + t;
    }
  }

  /** `s.replace(/\s/g, "")` */
  function StripWhitespace(s: string): (r: string)
    ensures forall i :: 0 <= i < |r| ==> !IsJsWhitespace(r[i])
    ensures forall i :: 0 <= i < |s| && !IsJsWhitespace(s[i]) ==> s[i] in r
    ensures |r| <= |s| && forall c :: c in r ==> c in s
  {
    var r := Filter((c: char) => !IsJsWhitespace(c), s);
    assert forall i :: 0 <= i < |r| ==> r[i] in r;
    r
  }

  /**
   * On one character, whitespace removal drops a whitespace character and
   * keeps any other; with `StripConcat` this fixes the result on every string.
   */
  lemma StripOne(c: char)
    ensures StripWhitespace([c]) == if IsJsWhitespace(c) then [] else [c]
  {
    assert [c][1..] == [];
  }

  // ---------------------------------------------------------------------
  // Decimal numbers
  // ---------------------------------------------------------------------

  predicate IsDigit(c: char)
  {
    '0' <= c <= '9'
  }

  predicate AllDigits(s: string)
  {
    forall i :: 0 <= i < |s| ==> IsDigit(s[i])
  }

  function DigitChar(d: nat): (c: char)
    requires d < 10
    ensures IsDigit(c) && c as int - '0' as int == d
  {
    (d + '0' as int) as char
  }

  /** The value of a string of decimal digits, leading zeros allowed. */
  function DigitsValue(s: string): nat
    requires AllDigits(s)
  {
    if s == [] then 0 else 10 * DigitsValue(s[..|s| - 1]) + (s[|s| - 1] as int - '0' as int)
  }

  /** `Number.prototype.toString` for a natural number. */
  function NatToString(n: nat): (r: string)
    ensures r != [] && AllDigits(r)
    ensures n > 0 ==> r[0] != '0'
  {
    if n < 10 then [DigitChar(n)] else NatToString(n / 10) + [DigitChar(n % 10)]
  }

  /** `Number.prototype.toString` for an integer. */
  function IntToString(n: int): string
  {
    if n < 0 then "-" + NatToString(-n) else NatToString(n)
  }

  /** Reading back the digits `NatToString` writes gives the number. */
  lemma {:induction false} NatToStringValue(n: nat)
    ensures DigitsValue(NatToString(n)) == n
  {
    if n >= 10 {
      var r := NatToString(n);
      assert r[..|r| - 1] == NatToString(n / 10);
      NatToStringValue(n / 10);
    }
  }

  function Pow10(k: nat): (p: nat)
    ensures p >= 1
  {
    if k == 0 then 1 else 10 * Pow10(k - 1)
  }

  lemma {:induction false} Pow10Monotone(j: nat, k: nat)
    requires j <= k
    ensures Pow10(j) <= Pow10(k)
  {
    if j < k {
      Pow10Monotone(j, k - 1);
    }
  }

  /** `NatToString(n)` has `d` digits exactly when `10^(d-1) <= n < 10^d` (for `d > 1`). */
  lemma {:induction false} NatToStringLength(n: nat)
    ensures n < Pow10(|NatToString(n)|)
    ensures |NatToString(n)| > 1 ==> Pow10(|NatToString(n)| - 1) <= n
  {
    if n >= 10 {
      var d := |NatToString(n / 10)|;
      NatToStringLength(n / 10);
      assert |NatToString(n)| == d + 1;
      assert n == 10 * (n / 10) + n % 10;
      assert n / 10 + 1 <= Pow10(d);
      assert 10 * (n / 10 + 1) <= 10 * Pow10(d);
      if d > 1 {
        assert 10 * Pow10(d - 1) <= 10 * (n / 10);
      }
    }
  }

  /** The length of the longest prefix of `s` made of digits. */
  function DigitPrefixLength(s: string): (k: nat)
    ensures k <= |s| && AllDigits(s[..k])
    ensures k < |s| ==> !IsDigit(s[k])
  {
    if s == [] || !IsDigit(s[0]) then 0
    else
      var k := DigitPrefixLength(s[1..]);
      assert s[..k + 1] == [s[0]] + s[1..][..k];
      k + 1
  }

  /** The value of the longest digit prefix of `body`; `None` when there is none. */
  function ParseDigits(body: string): Option<nat>
  {
    var k := DigitPrefixLength(body);
    if k == 0 then None else Some(DigitsValue(body[..k]))
  }

  /**
   * `Number.parseInt(s)`: skip leading whitespace, read an optional sign and
   * the longest run of decimal digits after it; `None` stands for `NaN`
   * (no digits).
   */
  function ParseInt(s: string): Option<int>
  {
    var t := TrimStart(s);
    if t != [] && t[0] == '-' then
      match ParseDigits(t[1..])
      case None => None
      case Some(m) => Some(-(m as int))
    else
      match ParseDigits(if t != [] && t[0] == '+' then t[1..] else t)
      case None => None
      case Some(m) => Some(m as int)
  }

  /** On a string of digits only, the digit prefix is the whole string. */
  lemma {:induction false} DigitPrefixOfDigits(s: string)
    requires AllDigits(s)
    ensures DigitPrefixLength(s) == |s|
  {
    if s != [] {
      DigitPrefixOfDigits(s[1..]);
    }
  }

  /** Trimming the start leaves a string that starts with a non-whitespace character as it is. */
  lemma TrimStartNoop(s: string)
    requires s != [] && !IsJsWhitespace(s[0])
    ensures TrimStart(s) == s
  {
  }

  /** `ParseDigits` on a string of digits only reads all of it. */
  lemma ParseDigitsOfDigits(digits: string)
    requires digits != [] && AllDigits(digits)
    ensures ParseDigits(digits) == Some(DigitsValue(digits))
  {
    DigitPrefixOfDigits(digits);
    assert digits[..|digits|] == digits;
  }

  /** `Number.parseInt` reads back every integer that `toString` writes. */
  lemma {:induction false} ParseIntOfIntToString(n: int)
    ensures ParseInt(IntToString(n)) == Some(n)
  {
    var m: nat := if n < 0 then -n else n;
    NatToStringValue(m);
    var digits := NatToString(m);
    ParseDigitsOfDigits(digits);
    var s := IntToString(n);
    if n < 0 {
      assert s[0] == '-' && s[1..] == digits;
    } else {
      assert IsDigit(s[0]);
    }
    TrimStartNoop(s);
  }
}
