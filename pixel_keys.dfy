/**
 * The string keys of the pixel map.
 *
 * `CanvasStore.addPixel` files a cell under the template string `${x},${y}`;
 * `renderCanvas` recovers the coordinates with `key.split(',').map(Number)`.
 * This module models both halves on integer coordinates: the decimal
 * rendering of an integer, the split on commas, and the part of JavaScript's
 * `Number(string)` conversion that integer keys need.
 */
module PixelKeys {

  /**
   * A JavaScript number as the key parser sees it: an integer, or anything
   * else (`NaN`, `undefined`, or a numeric literal with a fraction, an
   * exponent or a radix prefix, which this model does not evaluate).
   */
  datatype Num = Int(value: int) | NonInt

  // ---------------------------------------------------------------------
  // Decimal digits

  predicate IsDigit(c: char) {
    '0' <= c <= '9'
  }

  predicate AllDigits(s: string) {
    forall i :: 0 <= i < |s| ==> IsDigit(s[i])
  }

  function DigitValue(c: char): (d: nat)
    requires IsDigit(c)
    ensures d < 10
  {
    c as int - '0' as int
  }

  function DigitChar(d: nat): (c: char)
    requires d < 10
    ensures IsDigit(c) && DigitValue(c) == d
  {
    ('0' as int + d) as char
  }

  /** The value of a string of decimal digits, most significant first. */
  function DigitsValue(s: string): nat
    requires AllDigits(s)
    decreases |s|
  {
    if s == [] then 0 else DigitsValue(s[..|s| - 1]) * 10 + DigitValue(s[|s| - 1])
  }

  /** The shortest decimal digits of `n` (no leading zeros; "0" for zero). */
  function NatDigits(n: nat): (s: string)
    ensures |s| >= 1 && AllDigits(s)
    ensures |s| > 1 ==> s[0] != '0'
    decreases n
  {
    if n < 10 then [DigitChar(n)] else NatDigits(n / 10) + [DigitChar(n % 10)]
  }

  /** Reading back the digits of `n` gives `n`. */
  lemma {:induction false} NatDigitsRoundTrip(n: nat)
    ensures DigitsValue(NatDigits(n)) == n
    decreases n
  {
    if n >= 10 {
      var s := NatDigits(n / 10);
      var t := NatDigits(n);
      assert t == s + [DigitChar(n % 10)];
      assert t[..|t| - 1] == s;
      NatDigitsRoundTrip(n / 10);
    }
  }

  /**
   * How a template literal renders an integer-valued number: a minus sign
   * for negatives, then the shortest decimal digits.
   */
  function Decimal(x: int): (s: string)
    ensures |s| >= 1 && ',' !in s
    ensures x >= 0 <==> IsDigit(s[0])
    ensures IsDigit(s[|s| - 1])
  {
    if x < 0 then "-" + NatDigits(-x) else NatDigits(x)
  }

  // ---------------------------------------------------------------------
  // String.prototype.trim and Number(string)

  /** The white-space and line-terminator characters `trim` removes. */
  predicate IsSpace(c: char) {
    c == ' ' || c == '\t' || c == '\n' || c == '\r'
    || c as int == 0x0B || c as int == 0x0C || c as int == 0xA0
    || c as int == 0x2028 || c as int == 0x2029 || c as int == 0xFEFF
  }

  function TrimStart(s: string): (t: string)
    ensures |t| <= |s|
    ensures t == [] || !IsSpace(t[0])
    decreases |s|
  {
    if s != [] && IsSpace(s[0]) then TrimStart(s[1..]) else s
  }

  function TrimEnd(s: string): (t: string)
    ensures |t| <= |s|
    ensures t == [] || !IsSpace(t[|t| - 1])
    decreases |s|
  {
    if s != [] && IsSpace(s[|s| - 1]) then TrimEnd(s[..|s| - 1]) else s
  }

  function Trim(s: string): string {
    TrimEnd(TrimStart(s))
  }

  /**
   * `Number(s)` on a string: surrounding white space is ignored, the empty
   * string is 0, an optionally signed run of decimal digits is that integer,
   * and everything else is `NonInt`.
   */
  function NumberOf(s: string): (n: Num)
    ensures Trim(s) == [] ==> n == Int(0)
    ensures AllDigits(Trim(s)) ==> n == Int(DigitsValue(Trim(s)))
  {
    var t := Trim(s);
    if t == [] then Int(0)
    else if (t[0] == '-' || t[0] == '+') && |t| > 1 && AllDigits(t[1..]) then
      var v: int := DigitsValue(t[1..]);
      if t[0] == '-' then Int(-v) else Int(v)
    else if AllDigits(t) then Int(DigitsValue(t))
    else NonInt
  }

  /** A string that begins and ends with a visible character is its own trim. */
  lemma TrimVisible(s: string)
    requires s != [] && !IsSpace(s[0]) && !IsSpace(s[|s| - 1])
    ensures Trim(s) == s
  {
  }

  /** `Number` inverts the decimal rendering of every integer. */
  lemma NumberOfDecimal(x: int)
    ensures NumberOf(Decimal(x)) == Int(x)
  {
    var s := Decimal(x);
    TrimVisible(s);
    if x < 0 {
      assert s[1..] == NatDigits(-x);
      NatDigitsRoundTrip(-x);
    } else {
      NatDigitsRoundTrip(x);
    }
  }

  // ---------------------------------------------------------------------
  // String.prototype.split(',')

  /** The comma-separated parts of `s`; there is always at least one. */
  function Split(s: string): (parts: seq<string>)
    ensures |parts| >= 1
    decreases |s|
  {
    if s == [] then [""]
    else
      var rest := Split(s[1..]);
      if s[0] == ',' then [""] + rest else [[s[0]] + rest[0]] + rest[1..]
  }

  /** A string without a comma splits into itself alone. */
  lemma {:induction false} SplitNoComma(s: string)
    requires ',' !in s
    ensures Split(s) == [s]
    decreases |s|
  {
    if s != [] {
      assert ',' !in s[1..] by {
        forall i | 0 <= i < |s[1..]| ensures s[1..][i] != ',' {
          assert s[1..][i] == s[i + 1];
        }
      }
      SplitNoComma(s[1..]);
      assert [s[0]] + s[1..] == s;
    }
  }

  /** Splitting `a,b` with a comma-free `a` yields `a` and then the parts of `b`. */
  lemma {:induction false} SplitAfterFirst(a: string, b: string)
    requires ',' !in a
    ensures Split(a + "," + b) == [a] + Split(b)
    decreases |a|
  {
    var s := a + "," + b;
    if a == [] {
      assert s == "," + b;
      assert s[1..] == b;
    } else {
      assert s[1..] == a[1..] + "," + b;
      assert ',' !in a[1..] by {
        forall i | 0 <= i < |a[1..]| ensures a[1..][i] != ',' {
          assert a[1..][i] == a[i + 1];
        }
      }
      SplitAfterFirst(a[1..], b);
      assert [a[0]] + a[1..] == a;
    }
  }

  // ---------------------------------------------------------------------
  // Keys

  /** The key `addPixel` files a cell under: the template `${x},${y}`. */
  function Key(x: int, y: int): (key: string)
    ensures Split(key) == [Decimal(x), Decimal(y)]
  {
    SplitAfterFirst(Decimal(x), Decimal(y));
    SplitNoComma(Decimal(y));
    Decimal(x) + "," + Decimal(y)
  }

  /**
   * `const [x, y] = key.split(',').map(Number)`: the first two parts
   * converted; a missing second part is `undefined`.
   */
  function ParseKey(key: string): (r: (Num, Num))
    ensures r.0 == NumberOf(Split(key)[0])
    ensures |Split(key)| >= 2 ==> r.1 == NumberOf(Split(key)[1])
    ensures |Split(key)| == 1 ==> r.1 == NonInt
  {
    var parts := Split(key);
    (NumberOf(parts[0]), if |parts| > 1 then NumberOf(parts[1]) else NonInt)
  }

  /** The parse in `renderCanvas` recovers the cell `addPixel` wrote. */
  lemma KeyRoundTrip(x: int, y: int)
    ensures ParseKey(Key(x, y)) == (Int(x), Int(y))
  {
    NumberOfDecimal(x);
    NumberOfDecimal(y);
  }

  /** Distinct cells get distinct keys, so writes to them never collide. */
  lemma KeyInjective(x1: int, y1: int, x2: int, y2: int)
    ensures Key(x1, y1) == Key(x2, y2) <==> x1 == x2 && y1 == y2
  {
    KeyRoundTrip(x1, y1);
    KeyRoundTrip(x2, y2);
  }

  /** A key with no comma has no second part, so its `y` is not a number. */
  lemma CommaFreeKeyHasNoY(key: string)
    requires ',' !in key
    ensures ParseKey(key).1 == NonInt
  {
    SplitNoComma(key);
  }
}
