/**
 * The few JavaScript string operations the engine relies on, with the
 * semantics ECMAScript gives them: `trim`, `includes`, `replace` with a
 * one-character string pattern, and `parseInt` without a radix.
 */
module JsText {
  import opened Wrappers

  /** WhiteSpace and LineTerminator code points: what `trim` and `parseInt` skip. */
  predicate IsJsSpace(c: char) {
    || c == '\t' || c == '\n' || c == '\U{000B}' || c == '\U{000C}' || c == '\r' || c == ' '
    || c == '\U{00A0}' || c == '\U{1680}' || ('\U{2000}' <= c <= '\U{200A}')
    || c == '\U{2028}' || c == '\U{2029}' || c == '\U{202F}' || c == '\U{205F}'
    || c == '\U{3000}' || c == '\U{FEFF}'
  }

  /** `trimStart`: the suffix left after dropping leading white space. */
  function TrimStart(s: string): (r: string)
    ensures |r| <= |s|
    ensures forall i :: 0 <= i < |s| - |r| ==> IsJsSpace(s[i])
    ensures r == [] || !IsJsSpace(r[0])
  {
    if s != [] && IsJsSpace(s[0]) then TrimStart(s[1..]) else s
  }

  /** What `trimStart` leaves is a suffix of its argument. */
  lemma {:induction false} TrimStartIsSuffix(s: string)
    ensures TrimStart(s) == s[|s| - |TrimStart(s)|..]
  {
    if s != [] && IsJsSpace(s[0]) {
      TrimStartIsSuffix(s[1..]);
    }
  }

  /** `trimEnd`: the prefix left after dropping trailing white space. */
  function TrimEnd(s: string): (r: string)
    ensures |r| <= |s| && r == s[..|r|]
    ensures forall i :: |r| <= i < |s| ==> IsJsSpace(s[i])
    ensures r == [] || !IsJsSpace(r[|r| - 1])
  {
    if s != [] && IsJsSpace(s[|s| - 1]) then TrimEnd(s[..|s| - 1]) else s
  }

  /** `trim`. */
  function Trim(s: string): (r: string)
    ensures r == [] || (!IsJsSpace(r[0]) && !IsJsSpace(r[|r| - 1]))
  {
    TrimEnd(TrimStart(s))
  }

  /** A string that neither starts nor ends with white space is left alone by `trim`. */
  lemma TrimKeepsTrimmed(s: string)
    requires s == [] || (!IsJsSpace(s[0]) && !IsJsSpace(s[|s| - 1]))
    ensures Trim(s) == s
  {
  }

  predicate OccursAt(s: string, t: string, i: int) {
    0 <= i && i + |t| <= |s| && s[i..i + |t|] == t
  }

  /** `s.includes(t)`, scanning from the left. */
  function Includes(s: string, t: string): bool
    decreases |s|
  {
    if |s| < |t| then false else s[..|t|] == t || Includes(s[1..], t)
  }

  /** `Includes` holds exactly when `t` occurs somewhere in `s`. */
  lemma {:induction false} IncludesIff(s: string, t: string)
    ensures Includes(s, t) <==> exists i :: OccursAt(s, t, i)
    decreases |s|
  {
    if |s| < |t| {
    } else if s[..|t|] == t {
      assert OccursAt(s, t, 0);
    } else {
      IncludesIff(s[1..], t);
      if Includes(s[1..], t) {
        var i :| OccursAt(s[1..], t, i);
        assert s[1..][i..i + |t|] == s[i + 1..i + 1 + |t|];
        assert OccursAt(s, t, i + 1);
      }
      if exists i :: OccursAt(s, t, i) {
        var i :| OccursAt(s, t, i);
        assert i != 0;
        assert s[1..][i - 1..i - 1 + |t|] == s[i..i + |t|];
        assert OccursAt(s[1..], t, i - 1);
      }
    }
  }

  /** `s.replace(c, rep)` for a one-character string pattern: only the first occurrence is replaced. */
  function ReplaceFirst(s: string, c: char, rep: string): string {
    if s == [] then []
    else if s[0] == c then rep + s[1..]
    else [s[0]] + ReplaceFirst(s[1..], c, rep)
  }

  /** The first occurrence of `c` is replaced and everything after it, later occurrences included, is kept. */
  lemma {:induction false} ReplaceFirstAt(a: string, c: char, rep: string, b: string)
    requires c !in a
    ensures ReplaceFirst(a + [c] + b, c, rep) == a + rep + b
  {
    if a != [] {
      assert (a + [c] + b)[1..] == a[1..] + [c] + b;
      ReplaceFirstAt(a[1..], c, rep, b);
    }
  }

  /** A string without `c` is returned unchanged. */
  lemma {:induction false} ReplaceFirstAbsent(s: string, c: char, rep: string)
    requires c !in s
    ensures ReplaceFirst(s, c, rep) == s
  {
    if s != [] {
      ReplaceFirstAbsent(s[1..], c, rep);
    }
  }

  // ---------------------------------------------------------------- parseInt

  /** The value of a digit character in base 16 (0-9, a-f, A-F), or -1. */
  function DigitValue(c: char): int {
    if '0' <= c <= '9' then c as int - '0' as int
    else if 'a' <= c <= 'f' then c as int - 'a' as int + 10
    else if 'A' <= c <= 'F' then c as int - 'A' as int + 10
    else -1
  }

  predicate IsDigitIn(c: char, radix: nat) {
    0 <= DigitValue(c) < radix
  }

  /** Length of the longest prefix of `s` made of digits of `radix`. */
  function DigitRun(s: string, radix: nat): (n: nat)
    ensures n <= |s|
    ensures forall i :: 0 <= i < n ==> IsDigitIn(s[i], radix)
    ensures n < |s| ==> !IsDigitIn(s[n], radix)
  {
    if s == [] || !IsDigitIn(s[0], radix) then 0 else 1 + DigitRun(s[1..], radix)
  }

  /** The value of a string of digits, most significant first. */
  function DigitsValue(s: string, radix: nat): nat
    requires forall i :: 0 <= i < |s| ==> IsDigitIn(s[i], radix)
  {
    if s == [] then 0
    else
      var high := DigitsValue(s[..|s| - 1], radix);
      assert IsDigitIn(s[|s| - 1], radix);
      assert high * radix >= 0 by { MulNonNegative(high, radix); }
      high * radix + DigitValue(s[|s| - 1])
  }

  lemma MulNonNegative(a: nat, b: nat)
    ensures a * b >= 0
  {
  }

  datatype Parsed = NaN | Num(value: int)

  /** The longest run of digits of `radix` at the start of `digits`, or NaN when there is none. */
  function ParseDigits(digits: string, radix: nat): Parsed {
    var n := DigitRun(digits, radix);
    if n == 0 then NaN else Num(DigitsValue(digits[..n], radix))
  }

  /** Digits after the sign: `0x`/`0X` selects base 16, anything else base 10. */
  function ParseUnsigned(u: string): Parsed {
    if |u| >= 2 && u[0] == '0' && (u[1] == 'x' || u[1] == 'X') then ParseDigits(u[2..], 16)
    else ParseDigits(u, 10)
  }

  /**
   * `parseInt(s)` with no radix: leading white space is skipped, one sign is
   * read, `0x`/`0X` selects base 16, and the longest run of digits is read;
   * no digit at all gives NaN.
   */
  function ParseInt(s: string): Parsed {
    var t := TrimStart(s);
    if t != [] && (t[0] == '-' || t[0] == '+') then
      match ParseUnsigned(t[1..])
      case NaN => NaN
      case Num(v) => Num(if t[0] == '-' then -v else v)
    else ParseUnsigned(t)
  }

  /** `parseInt(q) || 0`: an absent query value reads as the text "undefined". */
  function ParseIntOrZero(q: Option<string>): int {
    match ParseInt(if q.Some? then q.value else "undefined")
    case NaN => 0
    case Num(v) => v
  }

  /** The decimal rendering of a natural number, without leading zeros. */
  function DecimalString(n: nat): string {
    if n < 10 then [('0' as int + n) as char]
    else DecimalString(n / 10) + [('0' as int + n % 10) as char]
  }

  /** The rendering is a non-empty run of decimal digits with no leading zero. */
  lemma {:induction false} DecimalStringDigits(n: nat)
    ensures var s := DecimalString(n);
      s != [] && (forall i :: 0 <= i < |s| ==> '0' <= s[i] <= '9') && (|s| > 1 ==> s[0] != '0')
  {
    if n >= 10 {
      DecimalStringDigits(n / 10);
    }
  }

  lemma {:induction false} DecimalStringValue(n: nat)
    ensures DigitRun(DecimalString(n), 10) == |DecimalString(n)|
    ensures DigitsValue(DecimalString(n), 10) == n
  {
    var s := DecimalString(n);
    DecimalStringDigits(n);
    if n >= 10 {
      DecimalStringValue(n / 10);
      assert s[..|s| - 1] == DecimalString(n / 10);
    }
  }

  lemma ParseUnsignedDecimal(n: nat)
    ensures ParseUnsigned(DecimalString(n)) == Num(n)
  {
    var s := DecimalString(n);
    DecimalStringValue(n);
    assert s[..|s|] == s;
    assert ParseDigits(s, 10) == Num(n);
  }

  /** `parseInt` reads back the decimal rendering of any natural number. */
  lemma ParseIntDecimal(n: nat)
    ensures ParseInt(DecimalString(n)) == Num(n)
  {
    var s := DecimalString(n);
    DecimalStringDigits(n);
    ParseUnsignedDecimal(n);
    assert !IsJsSpace(s[0]) && s[0] != '-' && s[0] != '+' by {
      assert '0' <= s[0] <= '9';
    }
    assert TrimStart(s) == s;
  }

  /** ... and of its negation. */
  lemma ParseIntNegativeDecimal(n: nat)
    ensures ParseInt("-" + DecimalString(n)) == Num(0 - n)
  {
    ParseUnsignedDecimal(n);
    ParseIntMinus(DecimalString(n), n);
  }

  /** A leading `-` negates what follows it. */
  lemma ParseIntMinus(s: string, v: int)
    requires ParseUnsigned(s) == Num(v)
    ensures ParseInt("-" + s) == Num(-v)
  {
    var m := "-" + s;
    assert m[0] == '-';
    assert TrimStart(m) == m;
    assert m[1..] == s;
  }
}
