/**
 * The countdown quick slide of the output window (src/presentation/presentation.js:526-538):
 * the milliseconds left until the slide's end time, shown as `mm:ss`. Times are integer
 * milliseconds, as `Date.now()` returns them.
 */
module Countdown {
  import opened Wrappers

  /** `slide.endTime || now`: a missing or zero end time counts as now. */
  function EndTime(endTime: Option<int>, now: int): int {
    if endTime.Some? && endTime.value != 0 then endTime.value else now
  }

  /** `Math.max(0, (slide.endTime || now) - now)`. */
  function Remaining(endTime: Option<int>, now: int): (r: nat)
    ensures r >= EndTime(endTime, now) - now
    ensures r == 0 || r == EndTime(endTime, now) - now
  {
    var left := EndTime(endTime, now) - now;
    if left > 0 then left else 0
  }

  predicate IsDigit(c: char) {
    '0' <= c <= '9'
  }

  predicate AllDigits(s: string) {
    forall i :: 0 <= i < |s| ==> IsDigit(s[i])
  }

  function DigitChar(d: nat): (c: char)
    requires d < 10
    ensures IsDigit(c) && DigitValue(c) == d
  {
    (('0' as int) + d) as char
  }

  function DigitValue(c: char): nat {
    if IsDigit(c) then (c as int) - ('0' as int) else 0
  }

  /** `String(n)` for a non-negative integer: its decimal digits, without leading zeros. */
  function Decimal(n: nat): (s: string)
    ensures |s| >= 1 && AllDigits(s)
    ensures s[0] == '0' ==> n == 0
    decreases n
  {
    if n < 10 then [DigitChar(n)] else Decimal(n / 10) + [DigitChar(n % 10)]
  }

  /** The number a string of decimal digits denotes. */
  function Value(s: string): nat
    decreases |s|
  {
    if s == [] then 0 else Value(s[..|s| - 1]) * 10 + DigitValue(s[|s| - 1])
  }

  /** `s.padStart(2, '0')`. */
  function Pad2(s: string): (r: string)
    ensures |r| == if |s| >= 2 then |s| else 2
    ensures AllDigits(s) ==> AllDigits(r)
    decreases 2 - |s|
  {
    if |s| >= 2 then s else Pad2("0" + s)
  }

  /** The text of the timer for `remaining` milliseconds: whole minutes and seconds, each padded to two digits. */
  function ClockText(remaining: nat): string {
    var totalSec := remaining / 1000;
    Pad2(Decimal(totalSec / 60)) + ":" + Pad2(Decimal(totalSec % 60))
  }

  /** Reads `mm:ss` back into a number of whole seconds; the seconds field is two digits below 60. */
  function ReadClock(text: string): Option<nat> {
    if |text| >= 4 && text[|text| - 3] == ':' then
      var mins, secs := text[..|text| - 3], text[|text| - 2..];
      if AllDigits(mins) && AllDigits(secs) && Value(secs) < 60 then Some(Value(mins) * 60 + Value(secs))
      else None
    else None
  }

  lemma {:induction false} DecimalValue(n: nat)
    ensures Value(Decimal(n)) == n
    decreases n
  {
    if n >= 10 {
      var s := Decimal(n);
      assert s[..|s| - 1] == Decimal(n / 10);
      DecimalValue(n / 10);
    }
  }

  lemma {:induction false} LeadingZero(s: string)
    ensures Value("0" + s) == Value(s)
    decreases |s|
  {
    if s != [] {
      var z := "0" + s;
      assert z[..|z| - 1] == "0" + s[..|s| - 1];
      LeadingZero(s[..|s| - 1]);
    } else {
      var z := "0";
      assert z[..0] == [];
    }
  }

  lemma {:induction false} PadValue(s: string)
    ensures Value(Pad2(s)) == Value(s)
    decreases 2 - |s|
  {
    if |s| < 2 {
      LeadingZero(s);
      PadValue("0" + s);
    }
  }

  /** Under a minute the decimal text has one or two digits. */
  lemma SmallDecimal(n: nat)
    requires n < 100
    ensures |Decimal(n)| <= 2
  {
    if n >= 10 {
      assert Decimal(n / 10) == [DigitChar(n / 10)];
    }
  }

  /**
   * The timer text reads back as the whole seconds remaining: minutes times sixty plus a
   * two-digit seconds field below sixty. The minutes field has at least two digits.
   */
  lemma ClockReadsBack(remaining: nat)
    ensures ReadClock(ClockText(remaining)) == Some(remaining / 1000)
    ensures |ClockText(remaining)| >= 5
  {
    var totalSec := remaining / 1000;
    var m, s := totalSec / 60, totalSec % 60;
    var mt, st := Pad2(Decimal(m)), Pad2(Decimal(s));
    SmallDecimal(s);
    assert |st| == 2;
    var text := mt + ":" + st;
    assert text[..|text| - 3] == mt;
    assert text[|text| - 2..] == st;
    assert text[|text| - 3] == ':';
    DecimalValue(m);
    DecimalValue(s);
    PadValue(Decimal(m));
    PadValue(Decimal(s));
  }
}
