/**
 * The small part of JavaScript's value semantics that the chess client and the
 * room server rely on: `undefined` (as `Option`), numbers that may be `NaN`,
 * `String.prototype.split` / `startsWith` / `includes`, `Array.prototype.indexOf`,
 * sparse array slots, integer-to-decimal conversion and the global `parseInt`
 * (ECMAScript, section 19.2.5 "parseInt ( string, radix )", radix left undefined).
 */
module JsText {

  /** `undefined` versus a present value. */
  datatype Option<T> = None | Some(value: T)

  /** A JavaScript number as far as this model needs one: an integer or NaN. */
  datatype JsNum = Num(n: int) | NaN {
    /** Unary minus; NaN stays NaN. */
    function Negate(): (r: JsNum)
      ensures r.NaN? <==> NaN?
      ensures Num? ==> r.n + n == 0
    {
      match this
      case Num(v) => Num(-v)
      case NaN => NaN
    }
  }

  // ---------------------------------------------------------------------------
  // Array slots: a read past the end is `undefined`, a write past the end grows
  // the array and leaves holes (which read as `undefined`).

  function JsGet<T>(a: seq<Option<T>>, i: int): Option<T>
  {
    if 0 <= i < |a| then a[i] else None
  }

  function JsStore<T>(a: seq<Option<T>>, i: nat, v: Option<T>): (r: seq<Option<T>>)
    ensures |r| == if i < |a| then |a| else i + 1
    ensures JsGet(r, i) == v
    ensures forall j :: j != i ==> JsGet(r, j) == JsGet(a, j)
  {
    if i < |a| then a[i := v] else a + seq(i - |a|, _ => None) + [v]
  }

  // ---------------------------------------------------------------------------
  // Strings

  predicate StartsWith(s: string, prefix: string)
  {
    |prefix| <= |s| && s[..|prefix|] == prefix
  }

  /** `s.includes(p)`, scanning from the left. */
  predicate Contains(s: string, p: string)
    decreases |s|
  {
    StartsWith(s, p) || (|s| > 0 && Contains(s[1..], p))
  }

  /** `p` occurs in `s` at offset `i`. */
  predicate OccursAt(s: string, p: string, i: int)
  {
    0 <= i <= |s| - |p| && s[i..i + |p|] == p
  }

  /** `Contains` finds exactly the occurrences of `p` at some offset of `s`. */
  lemma {:induction false} ContainsIsOccurrence(s: string, p: string)
    ensures Contains(s, p) <==> exists i :: OccursAt(s, p, i)
    decreases |s|
  {
    if StartsWith(s, p) {
      assert OccursAt(s, p, 0);
    } else if |s| > 0 {
      ContainsIsOccurrence(s[1..], p);
      if Contains(s[1..], p) {
        var i :| OccursAt(s[1..], p, i);
        assert OccursAt(s, p, i + 1);
      }
      if exists i :: OccursAt(s, p, i) {
        var i :| OccursAt(s, p, i);
        assert i != 0;
        assert OccursAt(s[1..], p, i - 1);
      }
    }
  }

  /** `s.split(sep)` for a one-character separator. */
  function Split(s: string, sep: char): (parts: seq<string>)
    ensures |parts| >= 1
    ensures forall i :: 0 <= i < |parts| ==> sep !in parts[i]
    decreases |s|
  {
    if s == [] then [[]]
    else
      var rest := Split(s[1..], sep);
      if s[0] == sep then [[]] + rest
      else [[s[0]] + rest[0]] + rest[1..]
  }

  /** `parts.join(sep)`: the inverse of `Split`. */
  function Join(parts: seq<string>, sep: char): string
    decreases |parts|
  {
    if parts == [] then []
    else if |parts| == 1 then parts[0]
    else parts[0] + [sep] + Join(parts[1..], sep)
  }

  lemma {:induction false} JoinSplit(s: string, sep: char)
    ensures Join(Split(s, sep), sep) == s
    decreases |s|
  {
    if s != [] {
      var rest := Split(s[1..], sep);
      JoinSplit(s[1..], sep);
      if s[0] == sep {
        assert ([[]] + rest)[1..] == rest;
      } else if |rest| > 1 {
        assert ([[s[0]] + rest[0]] + rest[1..])[1..] == rest[1..];
      }
    }
  }

  lemma {:induction false} SplitJoin(parts: seq<string>, sep: char)
    requires |parts| >= 1
    requires forall i :: 0 <= i < |parts| ==> sep !in parts[i]
    ensures Split(Join(parts, sep), sep) == parts
    decreases |parts|, |parts[0]|
  {
    if parts[0] == [] {
      if |parts| > 1 {
        assert Join(parts, sep) == [sep] + Join(parts[1..], sep);
        SplitJoin(parts[1..], sep);
        assert Join(parts, sep)[1..] == Join(parts[1..], sep);
        assert parts == [[]] + parts[1..];
      }
    } else {
      var head := parts[0];
      var shorter := [head[1..]] + parts[1..];
      assert forall i :: 0 <= i < |shorter| ==> sep !in shorter[i] by {
        forall i | 0 <= i < |shorter| ensures sep !in shorter[i] {
          if i == 0 {
            assert forall x :: x in head[1..] ==> x in head;
          } else {
            assert shorter[i] == parts[i];
          }
        }
      }
      SplitJoin(shorter, sep);
      if |parts| == 1 {
        assert Join(parts, sep) == head;
        assert Join(shorter, sep) == head[1..];
      } else {
        assert shorter[1..] == parts[1..];
        assert Join(parts, sep) == head + [sep] + Join(parts[1..], sep);
        assert Join(shorter, sep) == head[1..] + [sep] + Join(parts[1..], sep);
      }
      var s := Join(parts, sep);
      assert s[0] == head[0];
      assert s[1..] == Join(shorter, sep);
      assert [head[0]] + head[1..] == head;
    }
  }

  /** `xs.indexOf(x)`: the first index holding `x`, or -1. */
  function IndexOf<T(==)>(xs: seq<T>, x: T): (r: int)
    ensures -1 <= r < |xs|
    ensures r == -1 <==> x !in xs
    ensures 0 <= r ==> xs[r] == x && x !in xs[..r]
    decreases |xs|
  {
    if xs == [] then -1
    else if xs[0] == x then 0
    else
      var k := IndexOf(xs[1..], x);
      assert k >= 0 ==> xs[..k + 1] == [xs[0]] + xs[1..][..k];
      if k == -1 then -1 else k + 1
  }

  /** `parts[i]`, `undefined` past the end. */
  function Element(parts: seq<string>, i: int): Option<string>
  {
    if 0 <= i < |parts| then Some(parts[i]) else None
  }

  // ---------------------------------------------------------------------------
  // Decimal numerals

  predicate IsDecimalDigit(c: char) { '0' <= c <= '9' }

  /** The value of `c` as a digit in radices up to 36; 99 for anything else. */
  function DigitValue(c: char): nat
  {
    if '0' <= c <= '9' then (c as int) - ('0' as int)
    else if 'a' <= c <= 'z' then (c as int) - ('a' as int) + 10
    else if 'A' <= c <= 'Z' then (c as int) - ('A' as int) + 10
    else 99
  }

  predicate IsDigitIn(c: char, radix: nat) { DigitValue(c) < radix }

  function DigitChar(d: nat): (c: char)
    requires d < 10
    ensures IsDecimalDigit(c) && DigitValue(c) == d
  {
    (('0' as int) + d) as char
  }

  /** The value of a numeral whose last character is its least significant digit. */
  function NumeralValue(s: string, radix: nat): nat
    decreases |s|
  {
    if s == [] then 0
    else NumeralValue(s[..|s| - 1], radix) * radix + DigitValue(s[|s| - 1])
  }

  /** `String(n)` for a non-negative integer: decimal digits, no leading zero. */
  function NatToString(n: nat): (s: string)
    ensures 1 <= |s|
    ensures forall i :: 0 <= i < |s| ==> IsDecimalDigit(s[i])
    ensures (s[0] == '0') == (n == 0)
    ensures n < 10 <==> |s| == 1
    decreases n
  {
    if n < 10 then [DigitChar(n)] else NatToString(n / 10) + [DigitChar(n % 10)]
  }

  /** `String(n)` for any integer. */
  function IntToString(n: int): (s: string)
    ensures 1 <= |s|
  {
    if n < 0 then "-" + NatToString(-n) else NatToString(n)
  }

  lemma {:induction false} NatToStringValue(n: nat)
    ensures NumeralValue(NatToString(n), 10) == n
    decreases n
  {
    if n >= 10 {
      var s := NatToString(n);
      NatToStringValue(n / 10);
      assert s[..|s| - 1] == NatToString(n / 10);
    }
  }

  function Pow10(k: nat): nat
  {
    if k == 0 then 1 else 10 * Pow10(k - 1)
  }

  /** Numbers from 10^(k-1) to 10^k - 1 print with exactly k digits. */
  lemma {:induction false} DigitCount(n: nat, k: nat)
    requires 1 <= k && Pow10(k - 1) <= n < Pow10(k)
    ensures |NatToString(n)| == k
    decreases k
  {
    if k > 1 {
      assert Pow10(k - 1) == 10 * Pow10(k - 2);
      DigitCount(n / 10, k - 1);
    }
  }

  lemma SixDigits(n: nat)
    requires 100000 <= n <= 999999
    ensures |NatToString(n)| == 6
  {
    assert Pow10(5) == 100000 && Pow10(6) == 1000000;
    DigitCount(n, 6);
  }

  // ---------------------------------------------------------------------------
  // parseInt

  /** JavaScript's StrWhiteSpaceChar, limited to the characters listed here. */
  predicate IsJsWhitespace(c: char)
  {
    c as int in {9, 10, 11, 12, 13, 32, 0xA0, 0x2028, 0x2029, 0xFEFF}
  }

  function TrimStart(s: string): (t: string)
    ensures |t| <= |s| && t == s[|s| - |t|..]
    ensures t == [] || !IsJsWhitespace(t[0])
    decreases |s|
  {
    if s != [] && IsJsWhitespace(s[0]) then TrimStart(s[1..]) else s
  }

  /** Length of the longest prefix of `s` made of digits of `radix`. */
  function DigitRun(s: string, radix: nat): (k: nat)
    ensures k <= |s|
    ensures forall i :: 0 <= i < k ==> IsDigitIn(s[i], radix)
    ensures k == |s| || !IsDigitIn(s[k], radix)
    decreases |s|
  {
    if s != [] && IsDigitIn(s[0], radix) then 1 + DigitRun(s[1..], radix) else 0
  }

  /** The digits after the sign: an optional `0x`/`0X` switches to radix 16,
      then the longest run of digits is read; `None` if that run is empty. */
  function UnsignedValue(u: string): (r: Option<nat>)
  {
    var hex := |u| >= 2 && u[0] == '0' && (u[1] == 'x' || u[1] == 'X');
    var radix := if hex then 16 else 10;
    var body := if hex then u[2..] else u;
    var run := DigitRun(body, radix);
    if run == 0 then None else Some(NumeralValue(body[..run], radix))
  }

  /** `parseInt(s)`: skip white space and an optional sign, then read the
      unsigned part; NaN if it has no digits. */
  function ParseInt(s: string): (r: JsNum)
  {
    var t := TrimStart(s);
    var negative := t != [] && t[0] == '-';
    var unsigned := if t != [] && (t[0] == '-' || t[0] == '+') then t[1..] else t;
    match UnsignedValue(unsigned)
    case None => NaN
    case Some(v) => if negative then Num(0 - v) else Num(v)
  }

  /** `parseInt(undefined)` is `parseInt("undefined")`, which is NaN. */
  function ParseIntOf(tok: Option<string>): JsNum
  {
    match tok
    case Some(s) => ParseInt(s)
    case None => NaN
  }

  lemma DecimalRunIsWhole(s: string)
    requires forall i :: 0 <= i < |s| ==> IsDecimalDigit(s[i])
    ensures DigitRun(s, 10) == |s|
  {
    assert forall i :: 0 <= i < |s| ==> IsDigitIn(s[i], 10);
  }

  lemma UnsignedDigits(digits: string)
    requires 1 <= |digits|
    requires forall i :: 0 <= i < |digits| ==> IsDecimalDigit(digits[i])
    requires |digits| >= 2 ==> digits[0] != '0'
    ensures UnsignedValue(digits) == Some(NumeralValue(digits, 10))
  {
    DecimalRunIsWhole(digits);
    assert digits[..|digits|] == digits;
  }

  /** Unsigned digits starting with a decimal digit parse as their value. */
  lemma ParseIntOfDigits(digits: string, n: nat)
    requires |digits| >= 1 && IsDecimalDigit(digits[0])
    requires UnsignedValue(digits) == Some(n)
    ensures ParseInt(digits) == Num(n)
  {
    assert TrimStart(digits) == digits by {
      assert !IsJsWhitespace(digits[0]);
    }
  }

  /** Printing a natural number and parsing it back gives the number. */
  lemma ParseIntOfNumeral(n: nat)
    ensures ParseInt(NatToString(n)) == Num(n)
  {
    var digits := NatToString(n);
    NatToStringValue(n);
    UnsignedDigits(digits);
    ParseIntOfDigits(digits, n);
  }

  /** Printing an integer and parsing it back gives the integer. */
  lemma ParseIntRoundTrip(n: int)
    ensures ParseInt(IntToString(n)) == Num(n)
  {
    if n >= 0 {
      ParseIntOfNumeral(n);
    } else {
      var digits := NatToString(-n);
      var s := "-" + digits;
      assert TrimStart(s) == s by {
        assert !IsJsWhitespace(s[0]);
      }
      assert UnsignedValue(digits) == Some(-n) by {
        NatToStringValue(-n);
        UnsignedDigits(digits);
      }
      assert s[1..] == digits;
    }
  }
}
