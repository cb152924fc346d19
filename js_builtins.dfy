/**
 * The JavaScript built-ins that the application code relies on, stated over
 * Dafny values: strings are `seq<char>`, JavaScript numbers that can be
 * `NaN` or infinite are the `Num` datatype, and a missing value is `None`.
 */
module Js {

  datatype Option<+T> = None | Some(value: T)

  /** A JavaScript number: a finite value (held exactly), an infinity, or NaN. */
  datatype Num = Finite(val: real) | PosInf | NegInf | NaN

  /** `Number.isFinite` */
  predicate IsFinite(n: Num) { n.Finite? }

  /** The value of `n / d` for a finite, non-zero divisor. */
  function DivNum(n: Num, d: real): (r: Num)
    requires d > 0.0
    ensures n.Finite? <==> r.Finite?
    ensures n.Finite? ==> r.val * d == n.val
    ensures n.NaN? <==> r.NaN?
  {
    match n
    case Finite(v) => Finite(v / d)
    case PosInf => PosInf
    case NegInf => NegInf
    case NaN => NaN
  }

  // ---------------------------------------------------------------------
  // Whitespace and String.prototype.trim
  // ---------------------------------------------------------------------

  /** ECMAScript WhiteSpace and LineTerminator code points (what `trim`,
      `parseInt` and `parseFloat` skip). */
  predicate IsWhiteSpace(c: char) {
    c == ' ' || c == '\t' || c == '\n' || c == '\r' || c == '\U{000B}' || c == '\U{000C}'
    || c == '\U{00A0}' || c == '\U{1680}' || ('\U{2000}' <= c <= '\U{200A}')
    || c == '\U{2028}' || c == '\U{2029}' || c == '\U{202F}' || c == '\U{205F}'
    || c == '\U{3000}' || c == '\U{FEFF}'
  }

  predicate AllWhiteSpace(s: string) {
    forall k :: 0 <= k < |s| ==> IsWhiteSpace(s[k])
  }

  /** Index of the first character that is not whitespace (or |s|). */
  function LeadingWhiteSpace(s: string): (i: nat)
    ensures i <= |s|
  {
    if s == [] || !IsWhiteSpace(s[0]) then 0 else 1 + LeadingWhiteSpace(s[1..])
  }

  /** Everything before `LeadingWhiteSpace(s)` is whitespace and the
      character there is not. */
  lemma {:induction false} LeadingWhiteSpaceSpec(s: string)
    ensures AllWhiteSpace(s[..LeadingWhiteSpace(s)])
    ensures LeadingWhiteSpace(s) < |s| ==> !IsWhiteSpace(s[LeadingWhiteSpace(s)])
  {
    if s != [] && IsWhiteSpace(s[0]) {
      LeadingWhiteSpaceSpec(s[1..]);
      var i := LeadingWhiteSpace(s);
      assert s[..i] == [s[0]] + s[1..][..i - 1];
    }
  }

  /** Index just past the last character that is not whitespace (or 0). */
  function TrailingWhiteSpaceStart(s: string): (j: nat)
    ensures j <= |s|
  {
    if s == [] || !IsWhiteSpace(s[|s| - 1]) then |s| else TrailingWhiteSpaceStart(s[..|s| - 1])
  }

  /** Everything from `TrailingWhiteSpaceStart(s)` on is whitespace and the
      character before it is not. */
  lemma {:induction false} TrailingWhiteSpaceSpec(s: string)
    ensures AllWhiteSpace(s[TrailingWhiteSpaceStart(s)..])
    ensures TrailingWhiteSpaceStart(s) > 0 ==> !IsWhiteSpace(s[TrailingWhiteSpaceStart(s) - 1])
  {
    if s != [] && IsWhiteSpace(s[|s| - 1]) {
      TrailingWhiteSpaceSpec(s[..|s| - 1]);
      var j := TrailingWhiteSpaceStart(s);
      assert s[j..] == s[..|s| - 1][j..] + [s[|s| - 1]];
    }
  }

  /** `s.trimStart()` */
  function TrimStart(s: string): string {
    s[LeadingWhiteSpace(s)..]
  }

  /** `s.trim()`: the longest slice of `s` that has no whitespace at either end. */
  function Trim(s: string): (r: string)
    ensures |r| <= |s|
  {
    var t := s[LeadingWhiteSpace(s)..];
    t[..TrailingWhiteSpaceStart(t)]
  }

  /** `trim` empties exactly the all-whitespace strings, and what it keeps
      neither starts nor ends with whitespace. */
  lemma TrimEnds(s: string)
    ensures Trim(s) == [] <==> AllWhiteSpace(s)
    ensures Trim(s) != [] ==> !IsWhiteSpace(Trim(s)[0]) && !IsWhiteSpace(Trim(s)[|Trim(s)| - 1])
  {
    var i := LeadingWhiteSpace(s);
    var t := s[i..];
    LeadingWhiteSpaceSpec(s);
    TrailingWhiteSpaceSpec(t);
    if i == |s| {
      assert s[..i] == s;
    } else {
      assert t[0] == s[i];
    }
  }

  /** Whatever `trim` removes is whitespace, and what it keeps is a contiguous
      slice of its input. */
  lemma TrimIsSlice(s: string)
    ensures exists i, j ::
      0 <= i <= j <= |s| && Trim(s) == s[i..j] && AllWhiteSpace(s[..i]) && AllWhiteSpace(s[j..])
  {
    var i := LeadingWhiteSpace(s);
    var t := s[i..];
    var j := TrailingWhiteSpaceStart(t);
    LeadingWhiteSpaceSpec(s);
    TrailingWhiteSpaceSpec(t);
    assert Trim(s) == s[i..i + j];
    assert s[i + j..] == t[j..];
  }

  /** Trimming is idempotent. */
  lemma TrimIdempotent(s: string)
    ensures Trim(Trim(s)) == Trim(s)
  {
    var r := Trim(s);
    TrimEnds(s);
    if r != [] {
      assert LeadingWhiteSpace(r) == 0;
      assert TrailingWhiteSpaceStart(r) == |r|;
      assert r[0..][..|r|] == r;
    }
  }

  // ---------------------------------------------------------------------
  // Searching
  // ---------------------------------------------------------------------

  /** Largest index k <= from with s[k] == c, or -1. */
  function LastIndexOfFrom(s: string, c: char, from: int): (r: int)
    requires -1 <= from < |s|
    ensures -1 <= r <= from
    ensures r >= 0 ==> s[r] == c
    decreases from + 1
  {
    if from < 0 then -1
    else if s[from] == c then from
    else LastIndexOfFrom(s, c, from - 1)
  }

  /** No occurrence of `c` lies between the one found and `from`. */
  lemma {:induction false} LastIndexOfFromLast(s: string, c: char, from: int)
    requires -1 <= from < |s|
    ensures forall k :: LastIndexOfFrom(s, c, from) < k <= from && 0 <= k ==> s[k] != c
    decreases from + 1
  {
    if from >= 0 && s[from] != c {
      LastIndexOfFromLast(s, c, from - 1);
    }
  }

  /** `s.lastIndexOf(c, from)` for a one-character search string: the search
      starts at `from` clamped to [0, |s| - 1] and goes backwards. */
  function LastIndexOf(s: string, c: char, from: int): (r: int)
    ensures -1 <= r < |s|
    ensures r >= 0 ==> s[r] == c && r <= (if from < 0 then 0 else from)
  {
    if s == [] then -1
    else
      var start := if from < 0 then 0 else if from >= |s| then |s| - 1 else from;
      LastIndexOfFrom(s, c, start)
  }

  /** The index found is the last occurrence at or before `from`, and -1
      means there is none. */
  lemma LastIndexOfLast(s: string, c: char, from: int)
    ensures forall k :: LastIndexOf(s, c, from) < k < |s| && k <= from ==> s[k] != c
    ensures LastIndexOf(s, c, from) == -1 ==> forall k :: 0 <= k < |s| && k <= from ==> s[k] != c
  {
    if s != [] {
      var start := if from < 0 then 0 else if from >= |s| then |s| - 1 else from;
      LastIndexOfFromLast(s, c, start);
    }
  }

  predicate StartsWith(s: string, p: string) {
    |p| <= |s| && s[..|p|] == p
  }

  /** `t` occurs in `s` starting at index `i`. */
  predicate OccursAt(s: string, t: string, i: int) {
    0 <= i && i + |t| <= |s| && s[i..i + |t|] == t
  }

  /** `s.includes(t)` */
  function Includes(s: string, t: string): (b: bool)
    ensures b <==> exists i :: OccursAt(s, t, i)
    decreases |s|
  {
    if StartsWith(s, t) then
      assert OccursAt(s, t, 0);
      true
    else if s == [] then
      false
    else
      var b := Includes(s[1..], t);
      if b then
        var i :| OccursAt(s[1..], t, i);
        assert OccursAt(s, t, i + 1) by { assert s[i + 1..i + 1 + |t|] == s[1..][i..i + |t|]; }
        true
      else
        assert !OccursAt(s, t, 0);
        assert forall i :: 1 <= i && OccursAt(s, t, i) ==> OccursAt(s[1..], t, i - 1);
        false
  }

  /** `s.split(c)[0]`: the part of `s` before the first `c`. */
  function BeforeFirst(s: string, c: char): (r: string)
    ensures |r| <= |s| && r == s[..|r|]
    ensures c !in r
    ensures |r| < |s| ==> s[|r|] == c
  {
    if s == [] then []
    else if s[0] == c then []
    else [s[0]] + BeforeFirst(s[1..], c)
  }

  // ---------------------------------------------------------------------
  // Array.prototype.join
  // ---------------------------------------------------------------------

  /** `parts.join(sep)` */
  function Join(parts: seq<string>, sep: string): (r: string)
    ensures parts == [] ==> r == []
    ensures |parts| == 1 ==> r == parts[0]
  {
    if parts == [] then []
    else if |parts| == 1 then parts[0]
    else parts[0] + sep + Join(parts[1..], sep)
  }

  function SumLengths(parts: seq<string>): nat {
    if parts == [] then 0 else |parts[0]| + SumLengths(parts[1..])
  }

  /** The joined string holds every part once and the separator between
      each two neighbours. */
  lemma {:induction false} JoinLength(parts: seq<string>, sep: string)
    requires parts != []
    ensures |Join(parts, sep)| == SumLengths(parts) + (|parts| - 1) * |sep|
  {
    if |parts| > 1 {
      JoinLength(parts[1..], sep);
    }
  }

  /** Joining one more part appends the separator and the part. */
  lemma {:induction false} JoinSnoc(parts: seq<string>, last: string, sep: string)
    requires parts != []
    ensures Join(parts + [last], sep) == Join(parts, sep) + sep + last
  {
    if |parts| == 1 {
      assert (parts + [last])[1..] == [last];
    } else {
      assert (parts + [last])[1..] == parts[1..] + [last];
      JoinSnoc(parts[1..], last, sep);
    }
  }

  // ---------------------------------------------------------------------
  // Math
  // ---------------------------------------------------------------------

  /** `Math.round` on an exact value: the nearest integer, halves upward. */
  function Round(x: real): (n: int)
    ensures n as real - 0.5 <= x < n as real + 0.5
  {
    (x + 0.5).Floor
  }

  /** `Math.max` at the two types the source applies it to: integers
      (string indices, here) and finite reals (settlement floors, `Max`). */
  function MaxInt(a: int, b: int): (m: int)
    ensures m >= a && m >= b && (m == a || m == b)
  {
    if a >= b then a else b
  }

  /** `Math.max` of two finite values: `MaxInt` at type `real`. */
  function Max(a: real, b: real): (m: real)
    ensures m >= a && m >= b && (m == a || m == b)
  {
    if a >= b then a else b
  }

  // ---------------------------------------------------------------------
  // parseInt and parseFloat
  // ---------------------------------------------------------------------

  predicate IsDecimalDigit(c: char) { '0' <= c <= '9' }

  function DigitValue(c: char): (d: nat)
    ensures IsDecimalDigit(c) ==> d < 10
    ensures IsHexDigit(c) ==> d < 16
  {
    if '0' <= c <= '9' then (c as int - '0' as int)
    else if 'a' <= c <= 'f' then (c as int - 'a' as int) + 10
    else if 'A' <= c <= 'F' then (c as int - 'A' as int) + 10
    else 0
  }

  predicate IsHexDigit(c: char) {
    IsDecimalDigit(c) || ('a' <= c <= 'f') || ('A' <= c <= 'F')
  }

  predicate IsRadixDigit(c: char, radix: nat) {
    if radix == 16 then IsHexDigit(c) else IsDecimalDigit(c)
  }

  /** Length of the longest prefix of `s` made of digits of `radix`. */
  function DigitRun(s: string, radix: nat): (n: nat)
    ensures n <= |s|
  {
    if s == [] || !IsRadixDigit(s[0], radix) then 0 else 1 + DigitRun(s[1..], radix)
  }

  /** `DigitRun` is the length of the longest prefix of radix digits. */
  lemma {:induction false} DigitRunLongest(s: string, radix: nat)
    ensures forall k :: 0 <= k < DigitRun(s, radix) ==> IsRadixDigit(s[k], radix)
    ensures DigitRun(s, radix) < |s| ==> !IsRadixDigit(s[DigitRun(s, radix)], radix)
  {
    if s != [] && IsRadixDigit(s[0], radix) {
      DigitRunLongest(s[1..], radix);
      forall k | 0 < k < DigitRun(s, radix) ensures IsRadixDigit(s[k], radix) {
        assert s[k] == s[1..][k - 1];
      }
    }
  }

  /** The value of a digit string read most significant digit first. */
  function DigitsValue(s: string, radix: nat): nat {
    if s == [] then 0 else DigitsValue(s[..|s| - 1], radix) * radix + DigitValue(s[|s| - 1])
  }

  /** Drops one leading `+` or `-`. */
  function Unsigned(t: string): (u: string)
    ensures |u| <= |t|
  {
    if t != [] && (t[0] == '-' || t[0] == '+') then t[1..] else t
  }

  /** The radix `parseInt` uses for an unsigned body: 16 after `0x`/`0X`. */
  predicate HasHexPrefix(u: string) {
    |u| >= 2 && u[0] == '0' && (u[1] == 'x' || u[1] == 'X')
  }

  /** The value of the digit run at the front of `body`, negated when asked. */
  function SignedDigits(body: string, radix: nat, negative: bool): (r: Num)
    ensures r.NaN? <==> DigitRun(body, radix) == 0
  {
    var n := DigitRun(body, radix);
    if n == 0 then NaN
    else
      var v := DigitsValue(body[..n], radix);
      Finite(if negative then -(v as real) else v as real)
  }

  /** `parseInt(s)` with no radix argument: leading whitespace is skipped, one
      sign is read, a `0x`/`0X` prefix selects hexadecimal, and the longest run
      of digits that follows is the value; no digit at all gives NaN. */
  function ParseInt(s: string): (r: Num)
    ensures r.Finite? || r.NaN?
  {
    var t := TrimStart(s);
    var negative := t != [] && t[0] == '-';
    var u := Unsigned(t);
    if HasHexPrefix(u) then SignedDigits(u[2..], 16, negative)
    else SignedDigits(u, 10, negative)
  }

  /** The decimal numeral of a natural number. */
  function DecimalString(n: nat): (s: string)
    ensures s != [] && forall k :: 0 <= k < |s| ==> IsDecimalDigit(s[k])
  {
    if n < 10 then [('0' as int + n) as char]
    else DecimalString(n / 10) + [('0' as int + n % 10) as char]
  }

  lemma {:induction false} DecimalStringValue(n: nat)
    ensures DigitsValue(DecimalString(n), 10) == n
  {
    var s := DecimalString(n);
    if n < 10 {
      assert s[..|s| - 1] == [];
    } else {
      assert s[..|s| - 1] == DecimalString(n / 10);
      DecimalStringValue(n / 10);
    }
  }

  /** The numeral `JavaScript` prints for an integer. */
  function IntString(n: int): string {
    if n < 0 then "-" + DecimalString(-n) else DecimalString(n)
  }

  /** `parseInt` reads back the decimal numeral of any integer. */
  lemma ParseIntDecimal(n: int)
    ensures ParseInt(IntString(n)) == Finite(n as real)
  {
    var m: nat := if n < 0 then -n else n;
    var d := DecimalString(m);
    var s := IntString(n);
    assert s[0] == '-' || IsDecimalDigit(s[0]);
    assert TrimStart(s) == s;
    assert Unsigned(s) == d;
    assert !HasHexPrefix(d) by { if |d| >= 2 { assert IsDecimalDigit(d[1]); } }
    DigitsOfNumeral(m, n < 0);
  }

  lemma DigitsOfNumeral(m: nat, negative: bool)
    ensures SignedDigits(DecimalString(m), 10, negative) == Finite(if negative then -(m as real) else m as real)
  {
    var d := DecimalString(m);
    DigitRunAll(d, 10);
    assert d[..|d|] == d;
    DecimalStringValue(m);
  }

  lemma {:induction false} DigitRunAll(s: string, radix: nat)
    requires forall k :: 0 <= k < |s| ==> IsRadixDigit(s[k], radix)
    ensures DigitRun(s, radix) == |s|
  {
    if s != [] {
      DigitRunAll(s[1..], radix);
    }
  }

  /** `parseFloat(s)` on decimal notation: leading whitespace is skipped, one
      sign is read, `Infinity` is recognised, then digits with an optional
      fraction and an optional exponent; no digit gives NaN. */
  function ParseFloat(s: string): (r: Num)
    ensures (r.PosInf? || r.NegInf?) <==> StartsWith(Unsigned(TrimStart(s)), "Infinity")
  {
    var t := TrimStart(s);
    var negative := t != [] && t[0] == '-';
    var u := Unsigned(t);
    if StartsWith(u, "Infinity") then (if negative then NegInf else PosInf)
    else
      match DecimalPrefix(u)
      case None => NaN
      case Some(v) => Finite(if negative then -v else v)
  }

  /** `parseFloat` reads a plain run of decimal digits as its value. */
  lemma ParseFloatDigits(d: string)
    requires d != [] && forall k :: 0 <= k < |d| ==> IsDecimalDigit(d[k])
    ensures ParseFloat(d) == Finite(DigitsValue(d, 10) as real)
  {
    assert LeadingWhiteSpace(d) == 0 by { assert !IsWhiteSpace(d[0]); }
    assert d[0] != '-' && d[0] != '+' && d[0] != 'I';
    DecimalPrefixDigits(d);
    ParseFloatUnsigned(d, DigitsValue(d, 10) as real);
  }

  lemma ParseFloatUnsigned(u: string, v: real)
    requires u != [] && LeadingWhiteSpace(u) == 0 && u[0] != '-' && u[0] != '+' && u[0] != 'I'
    requires DecimalPrefix(u) == Some(v)
    ensures ParseFloat(u) == Finite(v)
  {
    assert TrimStart(u) == u;
    assert Unsigned(u) == u;
    assert !StartsWith(u, "Infinity") by {
      assert "Infinity"[0] == 'I';
      assert |u| < 8 || u[..8][0] != 'I';
    }
  }

  /** The value of the longest prefix of `u` that is a decimal literal
      (digits, an optional fraction, an optional exponent), or None when
      there are no digits before or after the point. The value is the
      integer of all the digits, scaled by the exponent less the number of
      fraction digits. */
  function DecimalPrefix(u: string): Option<real> {
    var ni := DigitRun(u, 10);
    var afterInt := u[ni..];
    var hasDot := afterInt != [] && afterInt[0] == '.';
    var frac := if hasDot then afterInt[1..] else [];
    var nf := DigitRun(frac, 10);
    if ni == 0 && nf == 0 then None
    else
      var rest := if hasDot then frac[nf..] else afterInt;
      var e := ExponentPart(rest);
      Some(Scale(DigitsValue(u[..ni] + frac[..nf], 10) as real, e - nf))
  }

  /** `m` times ten to the power `e`. */
  function Scale(m: real, e: int): real
    decreases if e < 0 then -e else e
  {
    if e == 0 then m else if e > 0 then 10.0 * Scale(m, e - 1) else Scale(m, e + 1) / 10.0
  }

  /** A plain run of decimal digits is read as its value. */
  lemma DecimalPrefixDigits(d: string)
    requires d != [] && forall k :: 0 <= k < |d| ==> IsDecimalDigit(d[k])
    ensures DecimalPrefix(d) == Some(DigitsValue(d, 10) as real)
  {
    DigitRunAll(d, 10);
    DecimalPrefixWhole(d);
  }

  lemma DecimalPrefixWhole(d: string)
    requires d != [] && DigitRun(d, 10) == |d|
    ensures DecimalPrefix(d) == Some(DigitsValue(d, 10) as real)
  {
    var afterInt := d[|d|..];
    assert afterInt == [];
    var frac: string := [];
    assert DigitRun(frac, 10) == 0;
    assert d[..|d|] + frac[..0] == d;
    assert ExponentPart(afterInt) == 0;
  }

  function ExponentPart(s: string): int {
    if s == [] || (s[0] != 'e' && s[0] != 'E') then 0
    else
      var t := s[1..];
      var neg := t != [] && t[0] == '-';
      var u := if t != [] && (t[0] == '-' || t[0] == '+') then t[1..] else t;
      var n := DigitRun(u, 10);
      if n == 0 then 0
      else if neg then -(DigitsValue(u[..n], 10) as int)
      else DigitsValue(u[..n], 10) as int
  }
}
