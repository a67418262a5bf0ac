/** The JavaScript string semantics the handlers rely on: case-insensitive matching and `parseInt`. */
module JsText {
  import opened Common

  function LowerChar(c: char): char {
    if 'A' <= c <= 'Z' then (c as int + 32) as char else c
  }

  function Lower(s: string): (r: string)
    ensures |r| == |s|
    ensures forall i :: 0 <= i < |s| ==> r[i] == LowerChar(s[i])
  {
    if s == [] then [] else [LowerChar(s[0])] + Lower(s[1..])
  }

  /** `q` occurs as a contiguous piece of `s`. */
  predicate IsInfix(q: string, s: string)
    decreases |s|
  {
    q <= s || (|s| > 0 && IsInfix(q, s[1..]))
  }

  /** `q` sits in `s` starting at position `i`. */
  predicate OccursAt(q: string, s: string, i: nat) {
    i + |q| <= |s| && s[i..i + |q|] == q
  }

  /** The recursive search finds `q` exactly when it occurs at some position. */
  lemma {:induction false} IsInfixAt(q: string, s: string)
    ensures IsInfix(q, s) <==> exists i: nat :: OccursAt(q, s, i)
    decreases |s|
  {
    if q <= s {
      assert OccursAt(q, s, 0);
    } else if |s| > 0 {
      IsInfixAt(q, s[1..]);
      if IsInfix(q, s[1..]) {
        var i: nat :| OccursAt(q, s[1..], i);
        assert s[i + 1..i + 1 + |q|] == s[1..][i..i + |q|];
        assert OccursAt(q, s, i + 1);
      }
      if exists i: nat :: OccursAt(q, s, i) {
        var i: nat :| OccursAt(q, s, i);
        if i > 0 {
          assert s[1..][i - 1..i - 1 + |q|] == s[i..i + |q|];
          assert OccursAt(q, s[1..], i - 1);
        }
      }
    }
  }

  /**
   * A `$regex` with `$options: "i"` whose pattern is read as literal text (ASCII case folding):
   * the lower-cased pattern occurs somewhere in the lower-cased text.
   */
  function ContainsIgnoringCase(s: string, pattern: string): (b: bool)
    ensures b ==> exists i: nat :: OccursAt(Lower(pattern), Lower(s), i)
    ensures (exists i: nat :: OccursAt(Lower(pattern), Lower(s), i)) ==> b
  {
    IsInfixAt(Lower(pattern), Lower(s));
    IsInfix(Lower(pattern), Lower(s))
  }

  // ----- parseInt -----

  /**
   * The white space `parseInt` skips: JavaScript's WhiteSpace (tab, vertical tab, form feed, space,
   * no-break space, the byte-order mark and the other space separators) and its LineTerminators.
   */
  predicate IsSpace(c: char) {
    var n := c as int;
    || n == 0x09 || n == 0x0B || n == 0x0C || n == 0x20 || n == 0xA0 || n == 0xFEFF
    || n == 0x1680 || (0x2000 <= n <= 0x200A) || n == 0x202F || n == 0x205F || n == 0x3000
    || n == 0x0A || n == 0x0D || n == 0x2028 || n == 0x2029
  }

  function TrimStart(s: string): (r: string)
    ensures |r| <= |s| && r == s[|s| - |r|..]
    ensures r == [] || !IsSpace(r[0])
  {
    if s != [] && IsSpace(s[0]) then TrimStart(s[1..]) else s
  }

  /** The value of `c` as a digit in base 10 or 16, if it is one. */
  function DigitValue(c: char, radix: nat): (r: Option<nat>)
    requires radix == 10 || radix == 16
    ensures r.Some? ==> r.value < radix
  {
    if '0' <= c <= '9' then Some(c as int - '0' as int)
    else if radix == 16 && 'a' <= c <= 'f' then Some(c as int - 'a' as int + 10)
    else if radix == 16 && 'A' <= c <= 'F' then Some(c as int - 'A' as int + 10)
    else None
  }

  predicate AllDigits(s: string, radix: nat)
    requires radix == 10 || radix == 16
  {
    forall i :: 0 <= i < |s| ==> DigitValue(s[i], radix).Some?
  }

  /** The longest prefix of `s` made of digits. */
  function LeadingDigits(s: string, radix: nat): (r: string)
    requires radix == 10 || radix == 16
    ensures r <= s && AllDigits(r, radix)
    ensures |r| < |s| ==> DigitValue(s[|r|], radix).None?
  {
    if s == [] || DigitValue(s[0], radix).None? then []
    else [s[0]] + LeadingDigits(s[1..], radix)
  }

  /** The number a digit string denotes, most significant digit first. */
  function DigitsValue(s: string, radix: nat): nat
    requires radix == 10 || radix == 16
    requires AllDigits(s, radix)
  {
    if s == [] then 0
    else DigitsValue(s[..|s| - 1], radix) * radix + DigitValue(s[|s| - 1], radix).value
  }

  /**
   * What `parseInt` reads after the sign: a "0x" or "0X" prefix selects base 16, and the longest
   * run of digits that follows is read; `None` when there is none.
   */
  function ParseUnsigned(u: string): (r: Option<nat>)
    ensures u == [] ==> r.None?
  {
    var hex := |u| >= 2 && u[0] == '0' && (u[1] == 'x' || u[1] == 'X');
    var radix := if hex then 16 else 10;
    var digits := LeadingDigits(if hex then u[2..] else u, radix);
    if digits == [] then None else Some(DigitsValue(digits, radix))
  }

  /** What `parseInt` reads once leading white space is gone: an optional sign, then the number. */
  function ParseTrimmed(t: string): (r: Option<int>)
    ensures t == [] ==> r.None?
    ensures r.Some? && r.value < 0 ==> t[0] == '-'
  {
    var negative := |t| > 0 && t[0] == '-';
    var m := ParseUnsigned(if |t| > 0 && (t[0] == '-' || t[0] == '+') then t[1..] else t);
    if m.None? then None else Some(if negative then -(m.value as int) else m.value)
  }

  /**
   * JavaScript's `parseInt(s)` with no radix: leading white space is skipped, then the signed
   * number is read; `None` stands for `NaN`, which blank text gives, and only a minus sign makes
   * the result negative.
   */
  function ParseInt(s: string): (r: Option<int>)
    ensures TrimStart(s) == [] ==> r.None?
    ensures r.Some? && r.value < 0 ==> TrimStart(s)[0] == '-'
  {
    ParseTrimmed(TrimStart(s))
  }

  function DigitChar(d: nat): (c: char)
    requires d < 10
    ensures DigitValue(c, 10) == Some(d)
  {
    ('0' as int + d) as char
  }

  /** The decimal digits of `n`, with no leading zero. */
  function DecimalString(n: nat): (s: string)
    ensures |s| > 0 && AllDigits(s, 10)
    ensures s[0] == '0' ==> n == 0 && |s| == 1
  {
    if n < 10 then [DigitChar(n)] else DecimalString(n / 10) + [DigitChar(n % 10)]
  }

  lemma {:induction false} DecimalStringValue(n: nat)
    ensures DigitsValue(DecimalString(n), 10) == n
  {
    var s := DecimalString(n);
    if n >= 10 {
      DecimalStringValue(n / 10);
      assert s[..|s| - 1] == DecimalString(n / 10);
    }
  }

  /** The longest digit prefix of digits followed by a non-digit is those digits. */
  lemma {:induction false} LeadingDigitsBefore(d: string, rest: string, radix: nat)
    requires radix == 10 || radix == 16
    requires AllDigits(d, radix)
    requires rest == [] || DigitValue(rest[0], radix).None?
    ensures LeadingDigits(d + rest, radix) == d
  {
    if d == [] {
      assert d + rest == rest;
    } else {
      assert (d + rest)[0] == d[0] && (d + rest)[1..] == d[1..] + rest;
      LeadingDigitsBefore(d[1..], rest, radix);
    }
  }

  /** Leading white space does not change what `parseInt` reads. */
  lemma ParseIntSkipsSpace(c: char, s: string)
    requires IsSpace(c)
    ensures ParseInt([c] + s) == ParseInt(s)
  {
    assert ([c] + s)[1..] == s;
    assert TrimStart([c] + s) == TrimStart(s);
  }

  /** A digit is neither white space nor a sign. */
  lemma DigitNotSpace(c: char)
    requires DigitValue(c, 10).Some?
    ensures !IsSpace(c) && c != '-' && c != '+'
  {
  }


  /**
   * Digits without a redundant leading zero, followed by text that starts with a non-digit, are
   * read as the number they denote; after a lone "0" the next character must not be an "x",
   * which would make the text hexadecimal.
   */
  lemma ParseDigitsBefore(d: string, rest: string)
    requires |d| > 0 && AllDigits(d, 10)
    requires d[0] == '0' ==> |d| == 1 && (rest == [] || (rest[0] != 'x' && rest[0] != 'X'))
    requires rest == [] || DigitValue(rest[0], 10).None?
    ensures ParseUnsigned(d + rest) == Some(DigitsValue(d, 10))
  {
    var s := d + rest;
    assert s[0] == d[0];
    assert |s| >= 2 && s[0] == '0' ==> s[1] == rest[0];
    LeadingDigitsBefore(d, rest, 10);
  }

  /**
   * `parseInt` reads the decimal text of a natural number and ignores what follows it, as long as
   * that starts with a non-digit; after a lone "0" that non-digit must not be an "x".
   */
  lemma ParseIntDecimalPrefix(n: nat, rest: string)
    requires rest == [] || DigitValue(rest[0], 10).None?
    requires n == 0 && rest != [] ==> rest[0] != 'x' && rest[0] != 'X'
    ensures ParseInt(DecimalString(n) + rest) == Some(n)
  {
    var d := DecimalString(n);
    var s := d + rest;
    assert s[0] == d[0];
    DigitNotSpace(s[0]);
    assert TrimStart(s) == s;
    ParseDigitsBefore(d, rest);
    DecimalStringValue(n);
  }

  /** `parseInt` reads back the decimal text of every natural number: `parseInt(String(n)) == n`. */
  lemma ParseIntDecimal(n: nat)
    ensures ParseInt(DecimalString(n)) == Some(n)
  {
    ParseIntDecimalPrefix(n, []);
    assert DecimalString(n) + [] == DecimalString(n);
  }
}
