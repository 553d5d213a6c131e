/** The elapsed-time label of the controls: `formatTime`, over whole seconds. */
module TimeFormat {

  predicate IsDigit(c: char) {
    '0' <= c <= '9'
  }

  predicate AllDigits(s: string) {
    forall i :: 0 <= i < |s| ==> IsDigit(s[i])
  }

  function DigitChar(d: nat): (c: char)
    requires d < 10
    ensures IsDigit(c) && c as int - '0' as int == d
  {
    ('0' as int + d) as char
  }

  /** `n.toString()`: the decimal digits of `n`, without leading zeros. */
  function DecimalString(n: nat): (r: string)
    ensures |r| >= 1 && AllDigits(r)
    ensures r[0] == '0' ==> n == 0
    ensures (|r| == 1) == (n < 10)
    ensures (|r| <= 2) == (n < 100)
    decreases n
  {
    if n < 10 then [DigitChar(n)] else DecimalString(n / 10) + [DigitChar(n % 10)]
  }

  /** The number a string of decimal digits denotes (the reading of a label). */
  function DecimalValue(s: string): nat
    requires AllDigits(s)
  {
    if s == [] then 0 else DecimalValue(s[..|s| - 1]) * 10 + (s[|s| - 1] as int - '0' as int)
  }

  lemma {:induction false} DecimalRoundTrip(n: nat)
    ensures DecimalValue(DecimalString(n)) == n
    decreases n
  {
    if n >= 10 {
      var s := DecimalString(n / 10);
      assert (s + [DigitChar(n % 10)])[..|s|] == s;
      DecimalRoundTrip(n / 10);
    }
  }

  /** A field of the label: `'0' + n.toString()` when `n < 10`, else `n.toString()`. */
  function Pad2(n: nat): (r: string)
    ensures |r| >= 2 && AllDigits(r)
    ensures DecimalValue(r) == n
    ensures (|r| == 2) == (n < 100)
    ensures r[0] == '0' ==> n < 10
  {
    DecimalRoundTrip(n);
    if n < 10 then
      assert DecimalValue("0" + DecimalString(n)) == n by {
        assert ("0" + DecimalString(n))[..1] == "0";
      }
      "0" + DecimalString(n)
    else
      DecimalString(n)
  }

  /**
   * `formatTime(seconds)` as written: the hour count, then the TOTAL minute count (not
   * the minutes within the hour), then the seconds within the minute.
   */
  function FormatTime(seconds: nat): (r: string)
    ensures |r| >= 4
    ensures (r[|r| - 1] == 'h') == (seconds >= 360000)
    ensures seconds < 360000 ==> r[2] == ':' && r[|r| - 3] == ':'
  {
    var hour := seconds / 3600;
    var minute := seconds / 60;
    var sec := seconds % 60;
    if hour > 99 then DecimalString(hour) + "h"
    else if seconds == 0 then "00:00"
    else if hour > 0 then Pad2(hour) + ":" + Pad2(minute) + ":" + Pad2(sec)
    else Pad2(minute) + ":" + Pad2(sec)
  }

  /** Below one hour the label is `MM:SS`, its fields read back as minutes and seconds. */
  lemma FormatTimeShort(seconds: nat)
    requires seconds < 3600
    ensures var r := FormatTime(seconds);
      |r| == 5 && r[2] == ':' && AllDigits(r[..2]) && AllDigits(r[3..])
      && DecimalValue(r[..2]) == seconds / 60 && DecimalValue(r[3..]) == seconds % 60
  {
    var m, s := Pad2(seconds / 60), Pad2(seconds % 60);
    if seconds == 0 {
      assert FormatTime(seconds) == "00:00";
      assert DecimalValue("00") == DecimalValue("0") * 10;
    } else {
      assert FormatTime(seconds) == m + ":" + s;
      assert (m + ":" + s)[..2] == m;
      assert (m + ":" + s)[3..] == s;
    }
  }

  /**
   * From one to 99 hours the label is `HH:MM:SS`, where the middle field is the total
   * number of minutes: at least 60, and two digits wide only below 100 minutes.
   */
  lemma FormatTimeLong(seconds: nat)
    requires 3600 <= seconds < 360000
    ensures var r := FormatTime(seconds);
      |r| >= 8 && r[2] == ':' && r[|r| - 3] == ':'
      && AllDigits(r[..2]) && AllDigits(r[3..|r| - 3]) && AllDigits(r[|r| - 2..])
      && DecimalValue(r[..2]) == seconds / 3600
      && DecimalValue(r[3..|r| - 3]) == seconds / 60 >= 60
      && DecimalValue(r[|r| - 2..]) == seconds % 60
      && (|r| == 8 <==> seconds < 6000) && r[3] != '0'
      && seconds == DecimalValue(r[3..|r| - 3]) * 60 + DecimalValue(r[|r| - 2..])
  {
    assert 1 <= seconds / 3600 < 100 && seconds / 60 >= 60;
    assert (seconds / 60 < 100) == (seconds < 6000);
    var h, m, s := Pad2(seconds / 3600), Pad2(seconds / 60), Pad2(seconds % 60);
    assert FormatTime(seconds) == h + ":" + m + ":" + s;
    ThreeFields(h, m, s);
  }

  lemma ThreeFields(h: string, m: string, s: string)
    requires |h| == 2 && |s| == 2
    ensures var r := h + ":" + m + ":" + s;
      |r| == |m| + 6 && r[2] == ':' && r[|r| - 3] == ':'
      && r[..2] == h && r[3..|r| - 3] == m && r[|r| - 2..] == s
  {
    var r := h + ":" + m + ":" + s;
    assert r[..2] == h;
    assert r[3..3 + |m|] == m;
  }

  /** From 100 hours on the label is the hour count followed by `h`. */
  lemma FormatTimeHours(seconds: nat)
    requires seconds >= 360000
    ensures var r := FormatTime(seconds);
      |r| >= 4 && r[|r| - 1] == 'h' && AllDigits(r[..|r| - 1]) && r[0] != '0'
      && DecimalValue(r[..|r| - 1]) == seconds / 3600
  {
    var d := DecimalString(seconds / 3600);
    assert FormatTime(seconds) == d + "h";
    assert (d + "h")[..|d|] == d;
    DecimalRoundTrip(seconds / 3600);
  }

  /** Labels below a minute, at a minute, and at zero. */
  lemma FormatTimeExamples()
    ensures FormatTime(45) == "00:45"
    ensures FormatTime(60) == "01:00"
    ensures FormatTime(0) == "00:00"
  {
    assert DecimalString(0) == "0" && DecimalString(1) == "1" && DecimalString(45) == "45";
    assert Pad2(0) == "00" && Pad2(1) == "01" && Pad2(45) == "45";
  }

  /** The quirk: one hour, one minute and one second is labelled `01:61:01`. */
  lemma FormatTime3661()
    ensures FormatTime(3661) == "01:61:01"
  {
    assert DecimalString(1) == "1";
    assert DecimalString(61) == "61";
    assert Pad2(1) == "01";
    assert Pad2(61) == "61";
  }

  /** The label with the minutes taken within the hour, as the hour field implies. */
  function FormatClock(seconds: nat): (r: string)
    ensures |r| >= 4
    ensures (r[|r| - 1] == 'h') == (seconds >= 360000)
    ensures seconds < 360000 ==> r[2] == ':' && r[|r| - 3] == ':'
  {
    var hour := seconds / 3600;
    var minute := (seconds / 60) % 60;
    var sec := seconds % 60;
    if hour > 99 then DecimalString(hour) + "h"
    else if seconds == 0 then "00:00"
    else if hour > 0 then Pad2(hour) + ":" + Pad2(minute) + ":" + Pad2(sec)
    else Pad2(minute) + ":" + Pad2(sec)
  }

  lemma SplitSeconds(n: nat)
    ensures n == (n / 3600) * 3600 + ((n / 60) % 60) * 60 + n % 60
  {
    var q := n / 60;
    assert n == q * 60 + n % 60;
    assert q == (q / 60) * 60 + q % 60;
    assert q / 60 == n / 3600;
  }

  /** From one to 99 hours the corrected label is `HH:MM:SS` with every field in range. */
  lemma FormatClockFields(seconds: nat)
    requires 3600 <= seconds < 360000
    ensures var r := FormatClock(seconds);
      |r| == 8 && r[2] == ':' && r[5] == ':'
      && AllDigits(r[..2]) && AllDigits(r[3..5]) && AllDigits(r[6..])
      && DecimalValue(r[3..5]) < 60 && DecimalValue(r[6..]) < 60
      && seconds == DecimalValue(r[..2]) * 3600 + DecimalValue(r[3..5]) * 60 + DecimalValue(r[6..])
  {
    var h, m, s := Pad2(seconds / 3600), Pad2((seconds / 60) % 60), Pad2(seconds % 60);
    var r := h + ":" + m + ":" + s;
    assert |h| == 2 && |m| == 2 && |s| == 2;
    SplitSeconds(seconds);
    assert FormatClock(seconds) == r;
    assert r[..2] == h;
    assert r[3..5] == m;
    assert r[6..] == s;
  }

  /** The corrected label agrees with the original below one hour. */
  lemma FormatClockAgreesBelowOneHour(seconds: nat)
    requires seconds < 3600
    ensures FormatClock(seconds) == FormatTime(seconds)
  {
    assert seconds / 3600 == 0 && (seconds / 60) % 60 == seconds / 60;
  }

  lemma FormatClock3661()
    ensures FormatClock(3661) == "01:01:01"
  {
    assert 3661 / 3600 == 1 && (3661 / 60) % 60 == 1 && 3661 % 60 == 1;
    assert DecimalString(1) == "1";
    assert Pad2(1) == "01";
  }
}
