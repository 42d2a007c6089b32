/**
 * The countdown to the wedding: the time left until a target instant, split
 * into days, hours, minutes and seconds, refreshed on each tick only when one
 * of the four values changes, and shown with each value padded to two digits.
 * Instants are whole milliseconds since the epoch; the clock reading is a
 * parameter of `Tick`.
 */
module CountdownTimer {
  import opened JsText
  import opened JsNumber

  datatype TimeLeft = TimeLeft(days: nat, hours: nat, minutes: nat, seconds: nat)

  const Zero := TimeLeft(0, 0, 0, 0)

  /** The whole seconds a value stands for. */
  function TotalSeconds(t: TimeLeft): nat {
    ((t.days * 24 + t.hours) * 60 + t.minutes) * 60 + t.seconds
  }

  /**
   * The four values for a positive difference in milliseconds: whole days,
   * then the hours, minutes and seconds left over.
   */
  function Decompose(difference: int): (t: TimeLeft)
    requires difference > 0
    ensures t.hours < 24 && t.minutes < 60 && t.seconds < 60
    ensures TotalSeconds(t) == difference / 1000
    ensures TotalSeconds(t) * 1000 <= difference < TotalSeconds(t) * 1000 + 1000
  {
    var t := TimeLeft(difference / 86400000, (difference / 3600000) % 24,
                      (difference / 60000) % 60, (difference / 1000) % 60);
    SplitSeconds(difference);
    t
  }

  /** Each of the four values is a function of the whole seconds, and they add back up to them. */
  lemma SplitSeconds(difference: int)
    requires difference > 0
    ensures var s := difference / 1000;
      && difference / 86400000 == s / 86400
      && difference / 3600000 == s / 3600
      && difference / 60000 == s / 60
      && ((difference / 86400000 * 24 + (difference / 3600000) % 24) * 60 + (difference / 60000) % 60) * 60
           + (difference / 1000) % 60 == s
  {
    var s := difference / 1000;
    WholeDays(difference);
    WholeHours(difference);
    WholeMinutes(difference);
    Recombine(s);
  }

  /** Whole days counted from milliseconds agree with whole days counted from whole seconds. */
  lemma WholeDays(difference: int)
    requires difference > 0
    ensures difference / 86400000 == (difference / 1000) / 86400
  {
    var s, q := difference / 1000, (difference / 1000) / 86400;
    assert difference == 1000 * s + difference % 1000;
    assert s == 86400 * q + s % 86400;
    assert difference == 86400000 * q + (1000 * (s % 86400) + difference % 1000);
  }

  /** Whole hours counted from milliseconds agree with whole hours counted from whole seconds. */
  lemma WholeHours(difference: int)
    requires difference > 0
    ensures difference / 3600000 == (difference / 1000) / 3600
  {
    var s, q := difference / 1000, (difference / 1000) / 3600;
    assert difference == 1000 * s + difference % 1000;
    assert s == 3600 * q + s % 3600;
    assert difference == 3600000 * q + (1000 * (s % 3600) + difference % 1000);
  }

  /** Whole minutes counted from milliseconds agree with whole minutes counted from whole seconds. */
  lemma WholeMinutes(difference: int)
    requires difference > 0
    ensures difference / 60000 == (difference / 1000) / 60
  {
    var s, q := difference / 1000, (difference / 1000) / 60;
    assert difference == 1000 * s + difference % 1000;
    assert s == 60 * q + s % 60;
    assert difference == 60000 * q + (1000 * (s % 60) + difference % 1000);
  }

  /** Days, leftover hours, minutes and seconds of a count of seconds add back up to it. */
  lemma Recombine(s: nat)
    ensures ((s / 86400 * 24 + (s / 3600) % 24) * 60 + (s / 60) % 60) * 60 + s % 60 == s
  {
    assert s / 3600 == 24 * ((s / 3600) / 24) + (s / 3600) % 24;
    assert s / 60 == 60 * ((s / 60) / 60) + (s / 60) % 60;
    assert s == 60 * (s / 60) + s % 60;
    assert (s / 60) / 60 == s / 3600 by {
      assert s == 3600 * ((s / 60) / 60) + 60 * ((s / 60) % 60) + s % 60;
    }
    assert (s / 3600) / 24 == s / 86400 by {
      assert s == 86400 * ((s / 3600) / 24) + 3600 * ((s / 3600) % 24) + s % 3600;
    }
  }

  /** Two differences show the same four values exactly when they fall in the same whole second. */
  lemma SameValuesIffSameSecond(a: int, b: int)
    requires a > 0 && b > 0
    ensures Decompose(a) == Decompose(b) <==> a / 1000 == b / 1000
  {
    SplitSeconds(a);
    SplitSeconds(b);
  }

  /** A later clock reading never shows more time left. */
  lemma CountsDown(earlier: int, later: int, target: int)
    requires earlier <= later < target
    ensures TotalSeconds(Decompose(target - later)) <= TotalSeconds(Decompose(target - earlier))
  {
  }

  /** `value.toString().padStart(2, "0")` */
  function Display(value: nat): string {
    PadStart(DecimalString(value), 2, '0')
  }

  /** The shown text is made of digits only. */
  lemma DisplayDigits(value: nat)
    ensures AllDigits(Display(value))
  {
    ZeroPaddedDigits(DecimalString(value), 2);
  }

  /** Padding a digit string with zeros keeps it a digit string. */
  lemma ZeroPaddedDigits(ds: string, width: nat)
    requires AllDigits(ds)
    ensures AllDigits(PadStart(ds, width, '0'))
  {
    var r := PadStart(ds, width, '0');
    var k := |r| - |ds|;
    forall i | 0 <= i < |r|
      ensures IsDigit(r[i])
    {
      if i >= k {
        assert r[i] == r[k..][i - k];
      }
    }
  }

  /** Values below 100 show as exactly two digits, and the shown text reads back as the value. */
  lemma DisplayRoundTrip(value: nat)
    ensures value < 100 ==> |Display(value)| == 2
    ensures |Display(value)| >= 2
    ensures ParseIntOrZero(Display(value)) == value
  {
    var ds := DecimalString(value);
    DecimalStringValue(value);
    if value < 10 {
      assert ds == [DigitChar(value)];
      assert Display(value) == "0" + ds;
      LeadingZeroValue(ds);
      ParseDigits("0" + ds);
    } else {
      assert ds == DecimalString(value / 10) + [DigitChar(value % 10)];
      assert Display(value) == ds;
      if value < 100 {
        assert DecimalString(value / 10) == [DigitChar(value / 10)];
      }
      ParseDigits(ds);
    }
  }

  /** The component's state: the target instant and the values shown. */
  class Countdown {
    const target: int
    var timeLeft: TimeLeft

    constructor(target: int)
      ensures this.target == target && timeLeft == Zero
    {
      this.target := target;
      timeLeft := Zero;
    }

    /**
     * One run of `calculateTimeLeft` at clock reading `now`. Before the
     * target the values are recomputed and replace the state only when one of
     * them differs; from the target on nothing changes, so the last values
     * stay on screen. `rerendered` says whether the state was replaced.
     */
    method Tick(now: int) returns (rerendered: bool)
      modifies this
      ensures target - now > 0 ==> timeLeft == Decompose(target - now)
      ensures target - now <= 0 ==> timeLeft == old(timeLeft)
      ensures rerendered <==> timeLeft != old(timeLeft)
    {
      rerendered := false;
      var difference := target - now;
      if difference > 0 {
        var next := Decompose(difference);
        if timeLeft.days != next.days || timeLeft.hours != next.hours
           || timeLeft.minutes != next.minutes || timeLeft.seconds != next.seconds {
          timeLeft := next;
          rerendered := true;
        }
      }
    }
  }
}
