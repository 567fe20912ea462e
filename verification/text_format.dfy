/**
 * The two string serialisers of js/utils/Helpers.js: `formatTime`
 * ("MM:SS") and `formatNumber` (thousands separators).
 *
 * `Number.prototype.toString` is modelled for integers as the shortest
 * decimal numeral with a leading `-` for negatives. The `formatNumber`
 * regular expression `\B(?=(\d{3})+(?!\d))` is modelled by the position
 * it matches: inside a run of digits, before every digit whose distance
 * to the end of the run is a positive multiple of three.
 */
module TextFormat {

  predicate IsDigit(c: char) {
    '0' <= c <= '9'
  }

  function DigitChar(d: nat): (c: char)
    requires d < 10
    ensures IsDigit(c) && (c as int) - ('0' as int) == d
  {
    (('0' as int) + d) as char
  }

  function DigitValue(c: char): (d: nat)
    requires IsDigit(c)
    ensures d < 10
  {
    (c as int) - ('0' as int)
  }

  predicate AllDigits(s: string) {
    forall k :: 0 <= k < |s| ==> IsDigit(s[k])
  }

  /** The decimal numeral of `n`, without leading zeros. */
  function NatToString(n: nat): (s: string)
    ensures 1 <= |s| && AllDigits(s)
    ensures |s| > 1 ==> s[0] != '0'
    ensures n < 10 <==> |s| == 1
    ensures 10 <= n < 100 ==> |s| == 2
  {
    if n < 10 then [DigitChar(n)] else NatToString(n / 10) + [DigitChar(n % 10)]
  }

  /** Reads a string of decimal digits back as a number. */
  function DigitsValue(s: string): nat
    requires AllDigits(s)
  {
    if |s| == 0 then 0 else DigitsValue(s[..|s| - 1]) * 10 + DigitValue(s[|s| - 1])
  }

  /** Parsing the numeral gives the number back. */
  lemma {:induction false} NatToStringRoundTrip(n: nat)
    ensures DigitsValue(NatToString(n)) == n
  {
    if n >= 10 {
      NatToStringRoundTrip(n / 10);
      var s := NatToString(n);
      assert s[..|s| - 1] == NatToString(n / 10);
    }
  }

  /** `toString()` of an integer. */
  function IntToString(i: int): (s: string)
    ensures 1 <= |s|
  {
    if i < 0 then "-" + NatToString(-i) else NatToString(i)
  }

  /** `padStart(2, '0')`. */
  function PadStart2(s: string): (r: string)
    ensures |r| == if |s| >= 2 then |s| else 2
    ensures |s| >= 2 ==> r == s
  {
    if |s| >= 2 then s else seq(2 - |s|, _ => '0') + s
  }

  /** JavaScript's `%` on numbers: the remainder takes the sign of the dividend. */
  function JsRemainder(a: real, b: real): real
    requires b != 0.0
  {
    var q := a / b;
    var t := if q >= 0.0 then q.Floor else -((-q).Floor);
    a - b * (t as real)
  }

  /**
   * `formatTime(seconds)`: `Math.floor(seconds / 60)` minutes and
   * `Math.floor(seconds % 60)` seconds, each padded to two characters.
   */
  function FormatTime(seconds: real): (r: string)
    ensures |r| >= 5
  {
    var mins := (seconds / 60.0).Floor;
    var secs := JsRemainder(seconds, 60.0).Floor;
    PadStart2(IntToString(mins)) + ":" + PadStart2(IntToString(secs))
  }

  /** A two-digit field: pads numbers below 100 to exactly two digits. */
  lemma Pad2Value(k: nat)
    requires k < 100
    ensures |PadStart2(IntToString(k))| == 2
    ensures AllDigits(PadStart2(IntToString(k)))
    ensures DigitsValue(PadStart2(IntToString(k))) == k
  {
    NatToStringRoundTrip(k);
    var s := NatToString(k);
    if k < 10 {
      var p := PadStart2(s);
      assert p == ['0', s[0]];
      assert p[..1] == ['0'];
      assert s[..0] == [];
    }
  }

  /** Minutes and seconds of a non-negative duration, as `formatTime` computes them. */
  lemma MinutesAndSeconds(seconds: real)
    requires 0.0 <= seconds
    ensures (seconds / 60.0).Floor == seconds.Floor / 60
    ensures JsRemainder(seconds, 60.0).Floor == seconds.Floor % 60
  {
    var n := seconds.Floor;
    var q := n / 60;
    assert (q as real) * 60.0 <= n as real <= seconds;
    assert seconds < (n as real) + 1.0 <= (q as real) * 60.0 + 60.0;
    assert (seconds / 60.0).Floor == q;
    var rem := JsRemainder(seconds, 60.0);
    assert rem == seconds - 60.0 * (q as real);
    assert ((n - 60 * q) as real) <= rem < ((n - 60 * q) as real) + 1.0;
  }

  /**
   * For `0 <= seconds < 6000` the result is exactly "MM:SS": five
   * characters, a colon in the middle, and the two digit fields read back as
   * the whole minutes and the remaining whole seconds.
   */
  lemma FormatTimeRoundTrip(seconds: real)
    requires 0.0 <= seconds < 6000.0
    ensures |FormatTime(seconds)| == 5 && FormatTime(seconds)[2] == ':'
    ensures AllDigits(FormatTime(seconds)[..2]) && AllDigits(FormatTime(seconds)[3..])
    ensures DigitsValue(FormatTime(seconds)[..2]) == seconds.Floor / 60
    ensures DigitsValue(FormatTime(seconds)[3..]) == seconds.Floor % 60
  {
    MinutesAndSeconds(seconds);
    var n := seconds.Floor;
    Pad2Value(n / 60);
    Pad2Value(n % 60);
    var a := PadStart2(IntToString(n / 60));
    var b := PadStart2(IntToString(n % 60));
    assert FormatTime(seconds) == a + ":" + b;
    assert (a + ":" + b)[..2] == a;
    assert (a + ":" + b)[3..] == b;
  }

  /**
   * The regular-expression replacement, position by position: copies
   * `digits[i..]` and puts a comma before each position `j` with
   * `0 < j < |digits|` and `(|digits| - j) % 3 == 0`.
   */
  function InsertCommas(digits: string, i: nat): string
    decreases |digits| - i
  {
    if i >= |digits| then ""
    else
      (if 0 < i && (|digits| - i) % 3 == 0 then "," else "") + [digits[i]] + InsertCommas(digits, i + 1)
  }

  /**
   * `formatNumber(n)` for an integer `n`. It round-trips: there is a minus
   * sign exactly for negatives, the part after it is well grouped, deleting
   * the commas gives `toString()` of the number, and parsing that gives the
   * number back.
   */
  function FormatNumber(n: int): (f: string)
    ensures |f| >= 1
    ensures n < 0 <==> f[0] == '-'
    ensures WellGrouped(if n < 0 then f[1..] else f)
    ensures Strip(f) == IntToString(n)
    ensures ParseInt(Strip(f)) == n
  {
    if n < 0 then
      var f := "-" + InsertCommas(NatToString(-n), 0);
      FormatsNegative(-n, f);
      f
    else
      var f := InsertCommas(NatToString(n), 0);
      FormatsNonNegative(n, f);
      f
  }

  /** The grouped numeral of `m` has no sign, deletes back to the numeral and parses back to `m`. */
  lemma FormatsNonNegative(m: nat, f: string)
    requires f == InsertCommas(NatToString(m), 0)
    ensures |f| >= 1 && f[0] != '-' && WellGrouped(f)
    ensures Strip(f) == NatToString(m) && ParseInt(Strip(f)) == m
  {
    var d := NatToString(m);
    InsertCommasIsGroup(d);
    GroupProperties(d);
    NatToStringRoundTrip(m);
    assert f == Group(d);
    assert d[0] != '-';
  }

  /** With a minus sign in front, the grouped numeral of `m` parses back to `-m`. */
  lemma FormatsNegative(m: nat, f: string)
    requires f == "-" + InsertCommas(NatToString(m), 0)
    ensures |f| >= 1 && f[0] == '-' && WellGrouped(f[1..])
    ensures Strip(f) == "-" + NatToString(m) && ParseInt(Strip(f)) == -(m as int)
  {
    var d := NatToString(m);
    InsertCommasIsGroup(d);
    GroupProperties(d);
    NatToStringRoundTrip(m);
    assert f[1..] == Group(d);
    StripAppend("-", Group(d));
    assert Strip("-") == "-";
    assert Strip(f) == "-" + d;
    assert Strip(f)[1..] == d;
  }

  /** Reference grouping: the last three digits form a group; the rest is grouped the same way. */
  function Group(digits: string): string
    decreases |digits|
  {
    if |digits| <= 3 then digits else Group(digits[..|digits| - 3]) + "," + digits[|digits| - 3..]
  }

  lemma {:induction false} InsertCommasShort(digits: string, i: nat)
    requires |digits| <= 3 && i <= |digits|
    ensures InsertCommas(digits, i) == digits[i..]
    decreases |digits| - i
  {
    if i < |digits| {
      InsertCommasShort(digits, i + 1);
    }
  }

  /** One step of `InsertCommas`: the optional comma, then the digit at `i`. */
  lemma InsertCommasStep(digits: string, i: nat)
    requires i < |digits|
    ensures InsertCommas(digits, i)
         == (if 0 < i && (|digits| - i) % 3 == 0 then "," else "") + [digits[i]] + InsertCommas(digits, i + 1)
  {
  }

  /** Appending a three-digit block adds one comma in front of it and changes nothing before. */
  lemma {:induction false} InsertCommasAppend(a: string, b: string, i: nat)
    requires |b| == 3 && 1 <= |a| && i <= |a|
    ensures InsertCommas(a + b, i) == InsertCommas(a, i) + "," + b
    decreases |a| - i
  {
    var d := a + b;
    if i == |a| {
      InsertCommasLastBlock(a, b);
    } else {
      InsertCommasAppend(a, b, i + 1);
      InsertCommasStep(d, i);
      InsertCommasStep(a, i);
      assert |d| - i == (|a| - i) + 3;
      assert (|d| - i) % 3 == (|a| - i) % 3;
      assert d[i] == a[i];
      var c := if 0 < i && (|a| - i) % 3 == 0 then "," else "";
      assert InsertCommas(d, i) == c + [a[i]] + (InsertCommas(a, i + 1) + "," + b);
    }
  }

  /** The final three-digit block behind a non-empty prefix gets one comma in front. */
  lemma InsertCommasLastBlock(a: string, b: string)
    requires |b| == 3 && 1 <= |a|
    ensures InsertCommas(a + b, |a|) == "," + b
  {
    var d := a + b;
    var i := |a|;
    assert InsertCommas(d, i + 3) == "";
    InsertCommasStep(d, i + 2);
    InsertCommasStep(d, i + 1);
    InsertCommasStep(d, i);
    assert d[i] == b[0] && d[i + 1] == b[1] && d[i + 2] == b[2];
    assert InsertCommas(d, i) == "," + [b[0]] + ([b[1]] + ([b[2]] + ""));
    assert b == [b[0], b[1], b[2]];
  }

  /** The regular expression inserts exactly the commas of the reference grouping. */
  lemma {:induction false} InsertCommasIsGroup(digits: string)
    ensures InsertCommas(digits, 0) == Group(digits)
    decreases |digits|
  {
    if |digits| <= 3 {
      InsertCommasShort(digits, 0);
    } else {
      var a := digits[..|digits| - 3];
      var b := digits[|digits| - 3..];
      assert digits == a + b;
      InsertCommasAppend(a, b, 0);
      InsertCommasIsGroup(a);
    }
  }

  /** Deletes every comma. */
  function Strip(s: string): (r: string)
    ensures |r| <= |s|
  {
    if |s| == 0 then "" else (if s[0] == ',' then "" else [s[0]]) + Strip(s[1..])
  }

  /**
   * The grouping is well formed: the first group has one to three
   * characters and every later one exactly three. Equivalently, counting
   * from the end, every fourth character is a comma and no other is, and the
   * first character is not a comma.
   */
  predicate WellGrouped(w: string) {
    && |w| % 4 != 0
    && forall p :: 0 <= p < |w| ==> (w[p] == ',' <==> (|w| - p) % 4 == 0)
  }

  lemma {:induction false} GroupProperties(digits: string)
    requires 1 <= |digits| && AllDigits(digits)
    ensures WellGrouped(Group(digits))
    ensures Strip(Group(digits)) == digits
    decreases |digits|
  {
    if |digits| <= 3 {
      NoCommasStrip(digits);
      ShortWellGrouped(digits);
    } else {
      var a := digits[..|digits| - 3];
      var b := digits[|digits| - 3..];
      assert a + b == digits;
      assert Group(digits) == Group(a) + "," + b;
      GroupProperties(a);
      var g := Group(a);
      GroupAppendWellGrouped(g, b);
      assert g + "," + b == g + ("," + b);
      StripAppend(g, "," + b);
      NoCommasStrip(b);
      assert Strip("," + b) == b by {
        assert ("," + b)[0] == ',';
        assert ("," + b)[1..] == b;
      }
      assert Strip(Group(digits)) == a + b;
    }
  }

  lemma ShortWellGrouped(digits: string)
    requires 1 <= |digits| <= 3 && AllDigits(digits)
    ensures WellGrouped(digits)
  {
    forall p | 0 <= p < |digits|
      ensures digits[p] == ',' <==> (|digits| - p) % 4 == 0
    {
      assert IsDigit(digits[p]);
    }
  }

  lemma GroupAppendWellGrouped(g: string, b: string)
    requires WellGrouped(g) && |b| == 3 && AllDigits(b)
    ensures WellGrouped(g + "," + b)
  {
    var w := g + "," + b;
    assert |w| == |g| + 4;
    forall p | 0 <= p < |w|
      ensures w[p] == ',' <==> (|w| - p) % 4 == 0
    {
      if p < |g| {
        assert w[p] == g[p];
        assert (|w| - p) % 4 == (|g| - p) % 4;
      } else if p > |g| {
        assert w[p] == b[p - |g| - 1];
        assert IsDigit(b[p - |g| - 1]);
      }
    }
  }

  lemma {:induction false} NoCommasStrip(s: string)
    requires AllDigits(s)
    ensures Strip(s) == s
    decreases |s|
  {
    if |s| > 0 {
      NoCommasStrip(s[1..]);
    }
  }

  lemma {:induction false} StripAppend(s: string, t: string)
    ensures Strip(s + t) == Strip(s) + Strip(t)
    decreases |s|
  {
    if |s| > 0 {
      assert (s + t)[0] == s[0];
      assert (s + t)[1..] == s[1..] + t;
      StripAppend(s[1..], t);
    } else {
      assert s + t == t;
    }
  }

  /** Reads back the output of `IntToString`. */
  function ParseInt(s: string): int
    requires 1 <= |s|
    requires s[0] == '-' ==> AllDigits(s[1..])
    requires s[0] != '-' ==> AllDigits(s)
  {
    if s[0] == '-' then 0 - DigitsValue(s[1..]) else DigitsValue(s)
  }

}
