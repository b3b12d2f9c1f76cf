/// Formatting primitives the emitter relies on: the decimal conversions that
/// `fprintf` performs for `%i`, `%li` and `PRId64`, the C integer casts applied
/// before printing, and the comma-separated lists the emitter writes by putting
/// the separator before every element but the first.

module Format {

  const INT32_LIMIT: int := 0x8000_0000
  const INT64_LIMIT: int := 0x8000_0000_0000_0000
  const UINT64_LIMIT: int := 0x1_0000_0000_0000_0000

  /// The range of C's `int64_t` (the type of `op.u.i`).
  type Int64 = x: int | -INT64_LIMIT <= x < INT64_LIMIT
  /// The range of C's `uint64_t` (the type of `op.u.u`).
  type UInt64 = x: int | 0 <= x < UINT64_LIMIT

  predicate IsDigit(c: char) {
    '0' <= c <= '9'
  }

  predicate AllDigits(s: string) {
    forall k :: 0 <= k < |s| ==> IsDigit(s[k])
  }

  function DigitChar(d: nat): (c: char)
    requires d < 10
    ensures IsDigit(c) && (c as int) - ('0' as int) == d
  {
    (('0' as int) + d) as char
  }

  function DigitValue(c: char): int {
    (c as int) - ('0' as int)
  }

  /// Decimal digits of a natural number, most significant first.
  function NatDigits(n: nat): (s: string)
    ensures |s| >= 1 && IsDigit(s[0])
    decreases n
  {
    if n < 10 then [DigitChar(n)] else NatDigits(n / 10) + [DigitChar(n % 10)]
  }

  lemma {:induction false} NatDigitsAreDigits(n: nat)
    ensures AllDigits(NatDigits(n))
    decreases n
  {
    if n >= 10 {
      NatDigitsAreDigits(n / 10);
    }
  }

  /// The value a string of decimal digits denotes.
  function DigitsValue(s: string): int {
    if s == [] then 0 else DigitsValue(s[..|s| - 1]) * 10 + DigitValue(s[|s| - 1])
  }

  lemma {:induction false} NatDigitsRoundTrip(n: nat)
    ensures DigitsValue(NatDigits(n)) == n
    decreases n
  {
    if n >= 10 {
      var s := NatDigits(n);
      assert s[..|s| - 1] == NatDigits(n / 10);
      NatDigitsRoundTrip(n / 10);
    }
  }

  /// What printf's `%i`, `%li` and `%PRId64` conversions write for `n`.
  function Decimal(n: int): (s: string)
    ensures |s| >= 1
    ensures n < 0 <==> s[0] == '-'
  {
    if n < 0 then "-" + NatDigits(-n) else NatDigits(n)
  }

  /// A string of decimal digits without a leading zero ("0" itself allowed).
  predicate IsNumeral(s: string) {
    |s| >= 1 && AllDigits(s) && (s[0] == '0' ==> |s| == 1)
  }

  /// The texts printf writes for an integer: a numeral, or a minus sign
  /// followed by a numeral other than "0".
  predicate IsDecimalText(s: string) {
    if |s| >= 1 && s[0] == '-' then IsNumeral(s[1..]) && s[1..] != "0"
    else IsNumeral(s)
  }

  lemma {:induction false} NatDigitsNumeral(n: nat)
    ensures IsNumeral(NatDigits(n))
    ensures NatDigits(n)[0] == '0' <==> n == 0
    decreases n
  {
    NatDigitsAreDigits(n);
    if n >= 10 {
      NatDigitsNumeral(n / 10);
      assert NatDigits(n)[0] == NatDigits(n / 10)[0];
    }
  }

  /// Decimal writes a minus sign only in front of a negative value, then the
  /// digits of the magnitude without a leading zero.
  lemma DecimalChars(n: int)
    ensures IsDecimalText(Decimal(n))
  {
    if n < 0 {
      NatDigitsNumeral(-n);
      assert Decimal(n)[1..] == NatDigits(-n);
    } else {
      NatDigitsNumeral(n);
    }
  }

  lemma {:induction false} DigitsValueBounds(s: string)
    requires AllDigits(s)
    ensures DigitsValue(s) >= 0
    ensures |s| >= 1 && s[0] != '0' ==> DigitsValue(s) >= 1
    decreases |s|
  {
    if s != [] {
      DigitsValueBounds(s[..|s| - 1]);
    }
  }

  /// A numeral is the printed form of the value it denotes.
  lemma {:induction false} NumeralRoundTrip(s: string)
    requires IsNumeral(s)
    ensures DigitsValue(s) >= 0 && NatDigits(DigitsValue(s)) == s
    decreases |s|
  {
    DigitsValueBounds(s);
    var d := DigitValue(s[|s| - 1]);
    if |s| == 1 {
      assert DigitsValue(s) == d;
      assert DigitChar(d) == s[0];
    } else {
      var init := s[..|s| - 1];
      assert init[0] == s[0];
      DigitsValueBounds(init);
      NumeralRoundTrip(init);
      var v := DigitsValue(s);
      assert v == DigitsValue(init) * 10 + d && 0 <= d < 10;
      assert v / 10 == DigitsValue(init) && v % 10 == d;
      assert DigitChar(d) == s[|s| - 1];
      assert s == init + [s[|s| - 1]];
    }
  }

  /// A reader for the text Decimal writes.
  function ParseDecimal(s: string): int
    requires |s| >= 1
  {
    if s[0] == '-' then -DigitsValue(s[1..]) else DigitsValue(s)
  }

  lemma DecimalRoundTrip(n: int)
    ensures ParseDecimal(Decimal(n)) == n
  {
    if n < 0 {
      assert Decimal(n)[1..] == NatDigits(-n);
      NatDigitsRoundTrip(-n);
    } else {
      NatDigitsRoundTrip(n);
    }
  }

  lemma DecimalInjective(a: int, b: int)
    ensures Decimal(a) == Decimal(b) <==> a == b
  {
    DecimalRoundTrip(a);
    DecimalRoundTrip(b);
  }

  /// Every text of that shape is the decimal of the integer it reads as, so
  /// Decimal is a one-to-one correspondence between integers and those texts.
  lemma DecimalTextRoundTrip(s: string)
    requires IsDecimalText(s)
    ensures Decimal(ParseDecimal(s)) == s
  {
    if s[0] == '-' {
      NumeralRoundTrip(s[1..]);
      DigitsValueBounds(s[1..]);
      assert s == "-" + s[1..];
    } else {
      NumeralRoundTrip(s);
    }
  }

  /// C's `(int)` conversion of an `int64_t` value (line 16 of the emitter):
  /// the value reduced modulo 2^32 into the two's-complement 32-bit range.
  function CastToInt(i: int): (r: int)
    ensures -INT32_LIMIT <= r < INT32_LIMIT
    ensures -INT32_LIMIT <= i < INT32_LIMIT ==> r == i
    ensures (r - i) % (2 * INT32_LIMIT) == 0
  {
    var m := i % (2 * INT32_LIMIT);
    if m >= INT32_LIMIT then m - 2 * INT32_LIMIT else m
  }

  /// C's `(long)` conversion of a `uint64_t` value (line 17), with a 64-bit
  /// `long`: values from 2^63 up come out negative.
  function CastToLong(u: UInt64): (r: Int64)
    ensures r == u || r == u - UINT64_LIMIT
    ensures r >= 0 <==> u < INT64_LIMIT
  {
    if u < INT64_LIMIT then u else u - UINT64_LIMIT
  }

  /// The elements of `xs` in order with `sep` between neighbours, as written by
  /// a loop that prints the separator before every element but the first.
  function Join(sep: string, xs: seq<string>): string
  {
    if |xs| == 0 then ""
    else if |xs| == 1 then xs[0]
    else Join(sep, xs[..|xs| - 1]) + sep + xs[|xs| - 1]
  }

  /// Join extended by one element at the end, as the writing loop does it.
  lemma JoinSnoc(sep: string, xs: seq<string>, x: string)
    ensures Join(sep, xs + [x]) == if xs == [] then x else Join(sep, xs) + sep + x
  {
    var ys := xs + [x];
    assert ys[..|ys| - 1] == xs;
  }

  /// The separator loop the emitter runs for parameter and argument lists:
  /// `sep` before every element but the first.
  method WriteJoined(sep: string, items: seq<string>) returns (text: string)
    ensures text == Join(sep, items)
  {
    text := "";
    var i := 0;
    while i < |items|
      invariant 0 <= i <= |items|
      invariant text == Join(sep, items[..i])
    {
      if i != 0 {
        text := text + sep;
      }
      text := text + items[i];
      assert items[..i + 1] == items[..i] + [items[i]];
      JoinSnoc(sep, items[..i], items[i]);
      i := i + 1;
    }
    assert items[..i] == items;
  }

  /// Join read from the front: the first element, then a separator and the rest.
  lemma {:induction false} JoinFront(sep: string, x: string, xs: seq<string>)
    requires |xs| >= 1
    ensures Join(sep, [x] + xs) == x + sep + Join(sep, xs)
    decreases |xs|
  {
    var ys := [x] + xs;
    if |xs| == 1 {
      assert ys[..1] == [x];
    } else {
      assert ys[..|ys| - 1] == [x] + xs[..|xs| - 1];
      JoinFront(sep, x, xs[..|xs| - 1]);
    }
  }

  /// A concatenation with a non-empty right part, split before its last element.
  lemma DropLastAppend<T>(a: seq<T>, b: seq<T>)
    requires b != []
    ensures (a + b)[..|a + b| - 1] == a + b[..|b| - 1]
    ensures (a + b)[|a + b| - 1] == b[|b| - 1]
  {
  }

  function Count(c: char, s: string): nat
  {
    if s == [] then 0 else Count(c, s[..|s| - 1]) + (if s[|s| - 1] == c then 1 else 0)
  }

  lemma {:induction false} CountAppend(c: char, a: string, b: string)
    ensures Count(c, a + b) == Count(c, a) + Count(c, b)
    decreases |b|
  {
    if b == [] {
      assert a + b == a;
    } else {
      var b' := b[..|b| - 1];
      DropLastAppend(a, b);
      CountAppend(c, a, b');
    }
  }

  /// When no element contains `c` and the separator holds it once, the joined
  /// text holds exactly one `c` between each pair of neighbours.
  lemma {:induction false} JoinSeparatorCount(c: char, sep: string, xs: seq<string>)
    requires Count(c, sep) == 1
    requires forall k :: 0 <= k < |xs| ==> Count(c, xs[k]) == 0
    ensures Count(c, Join(sep, xs)) == if xs == [] then 0 else |xs| - 1
    decreases |xs|
  {
    if |xs| >= 2 {
      var init := xs[..|xs| - 1];
      JoinSeparatorCount(c, sep, init);
      CountAppend(c, Join(sep, init), sep);
      CountAppend(c, Join(sep, init) + sep, xs[|xs| - 1]);
    }
  }
}
