/** The widget extension's own formatters. `formatTimer` repeats the app's
    timer display line for line; `formatTime` differs from the app's
    `formatAsTime` in one respect: minutes after the hours are not padded. */
module WidgetHelpers {
  import opened Models
  import opened Text
  import opened Formatters

  /** `formatTimer`: `H:MM:SS` from one hour on, `MM:SS` below; it reads back
      to the count it shows. */
  function FormatTimer(n: int): (r: string)
    ensures n >= 0 ==> ParseClock(r) == Some(n)
    ensures 0 <= n < 3600 ==> |r| == 5 && r[2] == ':'
    ensures n >= 3600 ==> |r| >= 7 && r[|r| - 3] == ':' && r[|r| - 6] == ':'
    ensures 0 <= n < 3600 ==> r == Pad2(n / 60) + ":" + Pad2(n % 60)
    ensures n >= 3600 ==> r == NatToString(n / 3600) + ":" + Pad2(n / 60 % 60) + ":" + Pad2(n % 60)
  {
    if n >= 0 then
      TimerDisplayRoundTrip(n);
      FormatAsTimerDisplay(n)
    else
      FormatAsTimerDisplay(n)
  }

  /** `formatTime`: `Hh Mm` with unpadded minutes, `Mm`, or `0m` below a
      minute. */
  function FormatTime(n: int): (r: string)
    ensures 0 <= n < 60 ==> r == "0m"
    ensures |r| >= 2 && r[|r| - 1] == 'm'
    ensures 60 <= n < 3600 ==> 'h' !in r && ' ' !in r && (|r| == 2 <==> n < 600)
    ensures n >= 3600 ==> |r| >= 5 && 'h' in r && (r[|r| - 3] == ' ' <==> Components(n).minutes < 10)
    ensures 60 <= n < 3600 ==> r == NatToString(n / 60) + "m"
    ensures n >= 3600 ==> r == NatToString(n / 3600) + "h " + NatToString(n / 60 % 60) + "m"
  {
    var c := Components(n);
    if n >= 3600 then ShortHoursText(n); ShortText(c)
    else if n >= 60 then ShortMinutesText(n); ShortText(c)
    else if n >= 0 then ShortUnderMinuteText(n); ShortText(c)
    else ShortText(c)
  }

  lemma ShortHoursText(n: int)
    requires n >= 3600
    ensures var r := ShortText(Components(n));
            && r == NatToString(n / 3600) + "h " + NatToString(n / 60 % 60) + "m"
            && |r| >= 5 && 'h' in r && (r[|r| - 3] == ' ' <==> Components(n).minutes < 10) && r[|r| - 1] == 'm'
  {
    ComponentsOfNat(n);
    assert Components(n).hours >= 1;
    NatText(n / 3600);
    NatText(n / 60 % 60);
    ShortShape(NatToString(n / 3600), NatToString(n / 60 % 60));
  }

  lemma ShortMinutesText(n: int)
    requires 60 <= n < 3600
    ensures var r := ShortText(Components(n));
            && r == NatToString(n / 60) + "m"
            && 'h' !in r && ' ' !in r && (|r| == 2 <==> n < 600) && r[|r| - 1] == 'm'
  {
    ComponentsOfNat(n);
    assert Components(n) == Clock(0, n / 60, n % 60);
    NatText(n / 60);
  }

  lemma ShortUnderMinuteText(n: int)
    requires 0 <= n < 60
    ensures ShortText(Components(n)) == "0m"
  {
    ComponentsOfNat(n);
    assert Components(n) == Clock(0, 0, n);
  }

  /** The layout of an hours and unpadded minutes text: the space sits
      third from the end exactly when the minutes have one digit. */
  lemma ShortShape(a: string, b: string)
    requires |a| >= 1 && |b| >= 1 && AllDigits(b)
    ensures var r := Spaced(Unit(a, 'h'), Unit(b, 'm'));
            && r == a + "h " + b + "m"
            && |r| == |a| + |b| + 3 && r[|a|] == 'h' && r[|r| - 1] == 'm'
            && (r[|r| - 3] == ' ' <==> |b| == 1)
  {
    var r := Spaced(Unit(a, 'h'), Unit(b, 'm'));
    if |b| >= 2 {
      assert r[|r| - 3] == b[|b| - 2];
    }
  }

  function ShortText(c: Clock): string {
    if c.hours > 0 then Spaced(Unit(IntToString(c.hours), 'h'), Unit(IntToString(c.minutes), 'm'))
    else if c.minutes > 0 then Unit(IntToString(c.minutes), 'm')
    else "0m"
  }

  /** `Hh Mm` with unpadded minutes reads back to its value. */
  lemma ShortWithHours(h: nat, m: nat)
    ensures ParseUnits(Spaced(Unit(NatToString(h), 'h'), Unit(NatToString(m), 'm'))) == Some(h * 3600 + m * 60)
  {
    var a, b := Unit(NatToString(h), 'h'), Unit(NatToString(m), 'm');
    TokenValue(h, 'h', 3600);
    TokenValue(m, 'm', 60);
    TwoTokens(a, b, h * 3600, m * 60);
    assert ParseUnits(Spaced(a, b)) == Some(h * 3600 + m * 60);
  }

  /** The widget's short form differs from the app's exactly when there are
      hours and fewer than ten minutes past them (the app writes `2h 05m`,
      the widget `2h 5m`); both read back to the same whole minutes. */
  lemma FormatTimeAgainstApp(n: nat)
    ensures FormatTime(n) == FormatAsTime(n) <==>
              !(Components(n).hours > 0 && Components(n).minutes < 10)
    ensures ParseUnits(FormatTime(n)) == Some(n - Rem(n, 60))
  {
    var c := Components(n);
    ShortAgainstTime(c);
    assert FormatTime(n) == ShortText(c);
    assert FormatAsTime(n) == TimeText(c);
    assert n - Rem(n, 60) == c.hours * 3600 + c.minutes * 60;
  }

  /** The same comparison on the components. */
  lemma ShortAgainstTime(c: Clock)
    requires InRange(c)
    ensures ShortText(c) == TimeText(c) <==> !(c.hours > 0 && c.minutes < 10)
    ensures ParseUnits(ShortText(c)) == Some(c.hours * 3600 + c.minutes * 60)
  {
    TimeTextRoundTrip(c);
    if c.hours > 0 {
      NatText(c.hours);
      NatText(c.minutes);
      ShortWithHours(c.hours, c.minutes);
      if c.minutes < 10 {
        assert |ShortText(c)| + 1 == |TimeText(c)|;
      }
    }
  }
}
