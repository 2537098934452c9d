/** The integer duration formatters. Swift's `/` and `%` on `Int` truncate
    toward zero, so the components of a negative count are non-positive;
    the round trips below are stated for non-negative counts, the only ones
    the engine produces. */
module Formatters {
  import opened Models
  import opened Text

  /** Swift's `a / b` for `b > 0`: the quotient truncated toward zero, so
      it shares the sign of `a` and leaves a remainder of that sign that is
      smaller than `b` in magnitude. */
  function Quot(a: int, b: int): (q: int)
    requires b > 0
    ensures a >= 0 ==> q >= 0 && 0 <= a - b * q < b
    ensures a < 0 ==> q <= 0 && -b < a - b * q <= 0
  {
    if a >= 0 then a / b else -((-a) / b)
  }

  /** Swift's `a % b` for `b > 0`: the remainder takes the sign of `a`. */
  function Rem(a: int, b: int): (r: int)
    requires b > 0
    ensures r + b * Quot(a, b) == a
    ensures a >= 0 ==> r == a % b
    ensures a < 0 ==> -r == (-a) % b
  {
    a - b * Quot(a, b)
  }

  /** Hours, minutes and seconds of a count of seconds, as the formatters
      compute them. */
  datatype Clock = Clock(hours: int, minutes: int, secs: int)

  function Components(n: int): (c: Clock)
    ensures c.hours * 3600 + c.minutes * 60 + c.secs == n
    ensures n >= 0 ==> c.hours >= 0 && 0 <= c.minutes < 60 && 0 <= c.secs < 60
    ensures n < 0 ==> c.hours <= 0 && -60 < c.minutes <= 0 && -60 < c.secs <= 0
  {
    var h := Quot(n, 3600);
    var m := Quot(Rem(n, 3600), 60);
    var s := Rem(n, 60);
    SecondsOfRemainder(n);
    Clock(h, m, s)
  }

  /** On a non-negative count the components are the usual whole hours,
      minutes past the hour and seconds past the minute. */
  lemma ComponentsOfNat(n: nat)
    ensures Components(n) == Clock(n / 3600, n / 60 % 60, n % 60)
  {
    var q, r := n / 3600, n % 3600;
    assert Rem(n, 3600) == r;
    assert n == 60 * (60 * q + r / 60) + r % 60;
    assert n / 60 == 60 * q + r / 60;
    assert (60 * q + r / 60) % 60 == r / 60;
  }

  /** Taking the remainder by an hour first does not change the remainder
      by a minute. */
  lemma SecondsOfRemainder(n: int)
    ensures Rem(Rem(n, 3600), 60) == Rem(n, 60)
  {
    if n >= 0 {
      HourRemainder(n);
    } else {
      HourRemainder(-n);
      assert Rem(n, 3600) == -((-n) % 3600);
    }
  }

  lemma HourRemainder(m: nat)
    ensures (m % 3600) % 60 == m % 60
  {
    var q := m / 3600;
    var r := m % 3600;
    assert m == 60 * (60 * q) + r;
    assert (60 * (60 * q) + r) % 60 == r % 60;
  }

  /** A number followed by its unit letter. */
  function Unit(digits: string, u: char): string {
    digits + [u]
  }

  /** Two fields separated by a colon. */
  function Colon(a: string, b: string): string {
    a + [':'] + b
  }

  /** Two fields separated by a space. */
  function Spaced(a: string, b: string): string {
    a + [' '] + b
  }

  /** `formatAsTimerDisplay`: `H:MM:SS` from one hour on, `MM:SS` below. */
  function FormatAsTimerDisplay(n: int): (r: string)
    ensures 0 <= n < 3600 ==> |r| == 5 && r[2] == ':'
    ensures n >= 3600 ==> |r| >= 7 && r[|r| - 3] == ':' && r[|r| - 6] == ':'
    ensures 0 <= n < 3600 ==> r == Pad2(n / 60) + ":" + Pad2(n % 60)
    ensures n >= 3600 ==> r == NatToString(n / 3600) + ":" + Pad2(n / 60 % 60) + ":" + Pad2(n % 60)
  {
    var c := Components(n);
    if n >= 3600 then ClockWithHoursText(n); ClockText(c)
    else if n >= 0 then ClockMinutesText(n); ClockText(c)
    else ClockText(c)
  }

  lemma ClockWithHoursText(n: int)
    requires n >= 3600
    ensures var r := ClockText(Components(n));
            && r == NatToString(n / 3600) + ":" + Pad2(n / 60 % 60) + ":" + Pad2(n % 60)
            && |r| >= 7 && r[|r| - 3] == ':' && r[|r| - 6] == ':'
  {
    ComponentsOfNat(n);
    assert Components(n).hours >= 1;
    NatText(n / 3600);
    HmsClockShape(NatToString(n / 3600), Pad2(n / 60 % 60), Pad2(n % 60));
  }

  lemma ClockMinutesText(n: int)
    requires 0 <= n < 3600
    ensures var r := ClockText(Components(n));
            && r == Pad2(n / 60) + ":" + Pad2(n % 60)
            && |r| == 5 && r[2] == ':'
  {
    ComponentsOfNat(n);
    assert Components(n) == Clock(0, n / 60, n % 60);
  }

  /** The layout of an `H:MM:SS` text, field by field. */
  lemma HmsClockShape(a: string, b: string, c: string)
    requires |a| >= 1 && |b| == 2 && |c| == 2
    ensures var r := Colon(a, Colon(b, c));
            && r == a + ":" + b + ":" + c
            && |r| == |a| + 6 && r[|r| - 3] == ':' && r[|r| - 6] == ':'
  {
  }

  function ClockText(c: Clock): string {
    if c.hours > 0 then Colon(IntToString(c.hours), Colon(Pad2(c.minutes), Pad2(c.secs)))
    else Colon(Pad2(c.minutes), Pad2(c.secs))
  }

  /** `formatAsDuration`: `Hh MMm SSs`, `MMm SSs` or `SSs`, the seconds
      always two digits. A negative count has non-positive components, so
      only its seconds are shown, as `%02d` shows a negative number (`-5s`). */
  function FormatAsDuration(n: int): (r: string)
    ensures |r| >= 3 && r[|r| - 1] == 's'
    ensures n >= 0 ==> IsDigit(r[|r| - 2]) && IsDigit(r[|r| - 3])
    ensures n >= 0 ==> |r| == 3 || r[|r| - 4] == ' '
    ensures n < 0 ==> ' ' !in r
    ensures 0 <= n < 60 ==> |r| == 3
    ensures 60 <= n < 3600 ==> |r| == 7 && r[2] == 'm' && r[3] == ' '
    ensures n >= 3600 ==> |r| >= 10 && r[|r| - 9] == 'h' && r[|r| - 8] == ' ' && r[|r| - 5] == 'm'
    ensures 0 <= n < 60 ==> r == Pad2(n) + "s"
    ensures 60 <= n < 3600 ==> r == Pad2(n / 60) + "m " + Pad2(n % 60) + "s"
    ensures n >= 3600 ==> r == NatToString(n / 3600) + "h " + Pad2(n / 60 % 60) + "m " + Pad2(n % 60) + "s"
  {
    var c := Components(n);
    if n >= 3600 then DurationWithHoursText(n); DurationText(c)
    else if n >= 60 then DurationWithMinutesText(n); DurationText(c)
    else if n >= 0 then DurationSecondsText(n); DurationText(c)
    else DurationNegativeText(n); DurationText(c)
  }

  lemma DurationWithHoursText(n: int)
    requires n >= 3600
    ensures var r := DurationText(Components(n));
            && r == NatToString(n / 3600) + "h " + Pad2(n / 60 % 60) + "m " + Pad2(n % 60) + "s"
            && |r| >= 10 && r[|r| - 9] == 'h' && r[|r| - 8] == ' ' && r[|r| - 5] == 'm' && r[|r| - 4] == ' '
            && IsDigit(r[|r| - 3]) && IsDigit(r[|r| - 2]) && r[|r| - 1] == 's'
  {
    ComponentsOfNat(n);
    assert Components(n).hours >= 1;
    NatText(n / 3600);
    HmsShape(NatToString(n / 3600), Pad2(n / 60 % 60), Pad2(n % 60));
  }

  /** The layout of an hours, minutes and seconds text, field by field. */
  lemma HmsShape(a: string, b: string, c: string)
    requires |a| >= 1 && |b| == 2 && |c| == 2 && AllDigits(c)
    ensures var r := Spaced(Unit(a, 'h'), Spaced(Unit(b, 'm'), Unit(c, 's')));
            && r == a + "h " + b + "m " + c + "s"
            && |r| == |a| + 9 && r[|r| - 9] == 'h' && r[|r| - 8] == ' ' && r[|r| - 5] == 'm' && r[|r| - 4] == ' '
            && r[|r| - 3] == c[0] && r[|r| - 2] == c[1] && r[|r| - 1] == 's'
  {
  }

  lemma DurationWithMinutesText(n: int)
    requires 60 <= n < 3600
    ensures var r := DurationText(Components(n));
            && r == Pad2(n / 60) + "m " + Pad2(n % 60) + "s"
            && |r| == 7 && r[2] == 'm' && r[3] == ' '
            && IsDigit(r[4]) && IsDigit(r[5]) && r[6] == 's'
  {
    ComponentsOfNat(n);
    assert Components(n) == Clock(0, n / 60, n % 60);
  }

  lemma DurationSecondsText(n: int)
    requires 0 <= n < 60
    ensures var r := DurationText(Components(n));
            && r == Pad2(n) + "s"
            && |r| == 3 && IsDigit(r[0]) && IsDigit(r[1]) && r[2] == 's'
  {
    ComponentsOfNat(n);
    assert Components(n) == Clock(0, 0, n);
  }

  lemma DurationNegativeText(n: int)
    requires n < 0
    ensures var r := DurationText(Components(n));
            |r| >= 3 && r[|r| - 1] == 's' && ' ' !in r
  {
  }

  function DurationText(c: Clock): string {
    if c.hours > 0 then Spaced(Unit(IntToString(c.hours), 'h'), Spaced(Unit(Pad2(c.minutes), 'm'), Unit(Pad2(c.secs), 's')))
    else if c.minutes > 0 then Spaced(Unit(Pad2(c.minutes), 'm'), Unit(Pad2(c.secs), 's'))
    else Unit(Pad2(c.secs), 's')
  }

  /** `formatAsTime`: `Hh MMm`, `Mm`, or `0m` below a minute. Below an hour
      the minutes are not padded; after the hours they are. */
  function FormatAsTime(n: int): (r: string)
    ensures 0 <= n < 60 ==> r == "0m"
    ensures |r| >= 2 && r[|r| - 1] == 'm'
    ensures 60 <= n < 3600 ==> 'h' !in r && ' ' !in r && (|r| == 2 <==> n < 600)
    ensures n >= 3600 ==> |r| >= 6 && r[|r| - 5] == 'h' && r[|r| - 4] == ' '
    ensures 60 <= n < 3600 ==> r == NatToString(n / 60) + "m"
    ensures n >= 3600 ==> r == NatToString(n / 3600) + "h " + Pad2(n / 60 % 60) + "m"
  {
    var c := Components(n);
    if n >= 3600 then TimeWithHoursText(n); TimeText(c)
    else if n >= 60 then TimeMinutesText(n); TimeText(c)
    else if n >= 0 then TimeUnderMinuteText(n); TimeText(c)
    else TimeText(c)
  }

  lemma TimeWithHoursText(n: int)
    requires n >= 3600
    ensures var r := TimeText(Components(n));
            && r == NatToString(n / 3600) + "h " + Pad2(n / 60 % 60) + "m"
            && |r| >= 6 && r[|r| - 5] == 'h' && r[|r| - 4] == ' ' && r[|r| - 1] == 'm'
  {
    ComponentsOfNat(n);
    assert Components(n).hours >= 1;
    NatText(n / 3600);
    HmShape(NatToString(n / 3600), Pad2(n / 60 % 60));
  }

  lemma TimeMinutesText(n: int)
    requires 60 <= n < 3600
    ensures var r := TimeText(Components(n));
            && r == NatToString(n / 60) + "m"
            && 'h' !in r && ' ' !in r && (|r| == 2 <==> n < 600) && r[|r| - 1] == 'm'
  {
    ComponentsOfNat(n);
    assert Components(n) == Clock(0, n / 60, n % 60);
    NatText(n / 60);
  }

  lemma TimeUnderMinuteText(n: int)
    requires 0 <= n < 60
    ensures TimeText(Components(n)) == "0m"
  {
    ComponentsOfNat(n);
    assert Components(n) == Clock(0, 0, n);
  }

  /** The layout of an hours and minutes text, field by field. */
  lemma HmShape(a: string, b: string)
    requires |a| >= 1 && |b| == 2
    ensures var r := Spaced(Unit(a, 'h'), Unit(b, 'm'));
            && r == a + "h " + b + "m"
            && |r| == |a| + 5 && r[|r| - 5] == 'h' && r[|r| - 4] == ' ' && r[|r| - 1] == 'm'
  {
  }

  function TimeText(c: Clock): string {
    if c.hours > 0 then Spaced(Unit(IntToString(c.hours), 'h'), Unit(Pad2(c.minutes), 'm'))
    else if c.minutes > 0 then Unit(IntToString(c.minutes), 'm')
    else "0m"
  }

  /** Reads `H:MM:SS` or `MM:SS` back into seconds. */
  function ParseClock(s: string): Option<int> {
    var f := Split(s, ':');
    if |f| == 3 then
      match (ParseNat(f[0]), ParseNat(f[1]), ParseNat(f[2]))
      case (Some(h), Some(m), Some(x)) => Some(h * 3600 + m * 60 + x)
      case _ => None
    else if |f| == 2 then
      match (ParseNat(f[0]), ParseNat(f[1]))
      case (Some(m), Some(x)) => Some(m * 60 + x)
      case _ => None
    else None
  }

  function UnitSeconds(u: char): Option<int> {
    if u == 'h' then Some(3600) else if u == 'm' then Some(60) else if u == 's' then Some(1) else None
  }

  /** One `<digits><unit>` token in seconds. */
  function ParseToken(t: string): Option<int> {
    if |t| < 2 then None
    else
      match (ParseNat(t[..|t| - 1]), UnitSeconds(t[|t| - 1]))
      case (Some(v), Some(f)) => Some(v * f)
      case _ => None
  }

  function SumTokens(ts: seq<string>): Option<int>
    decreases |ts|
  {
    if |ts| == 0 then Some(0)
    else
      match (ParseToken(ts[0]), SumTokens(ts[1..]))
      case (Some(a), Some(b)) => Some(a + b)
      case _ => None
  }

  /** Reads space-separated `<digits><unit>` tokens back into seconds. */
  function ParseUnits(s: string): Option<int> {
    SumTokens(Split(s, ' '))
  }

  lemma TokenValue(v: nat, u: char, f: int)
    requires UnitSeconds(u) == Some(f)
    ensures ParseToken(Unit(NatToString(v), u)) == Some(v * f) && ' ' !in Unit(NatToString(v), u)
  {
    NatToStringRoundTrip(v);
    var t := Unit(NatToString(v), u);
    assert t[..|t| - 1] == NatToString(v);
  }

  lemma PaddedTokenValue(v: nat, u: char, f: int)
    requires UnitSeconds(u) == Some(f)
    ensures ParseToken(Unit(Pad2(v), u)) == Some(v * f) && ' ' !in Unit(Pad2(v), u)
  {
    Pad2RoundTrip(v);
    var t := Unit(Pad2(v), u);
    assert t[..|t| - 1] == Pad2(v);
  }

  /** `H:MM:SS` reads back to its value. */
  lemma ClockWithHours(h: nat, m: nat, x: nat)
    ensures ParseClock(Colon(NatToString(h), Colon(Pad2(m), Pad2(x)))) == Some(h * 3600 + m * 60 + x)
  {
    var hs, ms, xs := NatToString(h), Pad2(m), Pad2(x);
    DigitsHaveNoSeparator(hs, ':');
    DigitsHaveNoSeparator(ms, ':');
    DigitsHaveNoSeparator(xs, ':');
    ThreeFields(hs, ms, xs);
    NatToStringRoundTrip(h);
    Pad2RoundTrip(m);
    Pad2RoundTrip(x);
  }

  /** Three separator-free fields joined by colons split back into themselves. */
  lemma ThreeFields(a: string, b: string, c: string)
    requires ':' !in a && ':' !in b && ':' !in c
    ensures Split(Colon(a, Colon(b, c)), ':') == [a, b, c]
  {
    SplitNoSep(c, ':');
    SplitJoin(b, c, ':');
    SplitJoin(a, Colon(b, c), ':');
  }

  /** `MM:SS` reads back to its value. */
  lemma ClockWithoutHours(m: nat, x: nat)
    ensures ParseClock(Colon(Pad2(m), Pad2(x))) == Some(m * 60 + x)
  {
    DigitsHaveNoSeparator(Pad2(m), ':');
    DigitsHaveNoSeparator(Pad2(x), ':');
    TwoFields(Pad2(m), Pad2(x));
    Pad2RoundTrip(m);
    Pad2RoundTrip(x);
  }

  /** Two separator-free fields joined by a colon split back into themselves. */
  lemma TwoFields(a: string, b: string)
    requires ':' !in a && ':' !in b
    ensures Split(Colon(a, b), ':') == [a, b]
  {
    SplitNoSep(b, ':');
    SplitJoin(a, b, ':');
  }

  /** The timer display reads back to the count it shows. */
  lemma TimerDisplayRoundTrip(n: nat)
    ensures ParseClock(FormatAsTimerDisplay(n)) == Some(n)
  {
    ClockTextRoundTrip(Components(n));
  }

  /** Components in range, as a non-negative count has them. */
  predicate InRange(c: Clock) {
    c.hours >= 0 && 0 <= c.minutes < 60 && 0 <= c.secs < 60
  }

  lemma ClockTextRoundTrip(c: Clock)
    requires InRange(c)
    ensures ParseClock(ClockText(c)) == Some(c.hours * 3600 + c.minutes * 60 + c.secs)
  {
    var r := ClockText(c);
    if c.hours > 0 {
      NatText(c.hours);
      assert r == Colon(NatToString(c.hours), Colon(Pad2(c.minutes), Pad2(c.secs)));
      ClockWithHours(c.hours, c.minutes, c.secs);
    } else {
      assert r == Colon(Pad2(c.minutes), Pad2(c.secs));
      ClockWithoutHours(c.minutes, c.secs);
    }
  }

  lemma OneToken(a: string, x: int)
    requires ParseToken(a) == Some(x) && ' ' !in a
    ensures ParseUnits(a) == Some(x)
  {
    SplitNoSep(a, ' ');
    assert [a][1..] == [];
    assert SumTokens([]) == Some(0);
  }

  lemma TwoTokens(a: string, b: string, x: int, y: int)
    requires ParseToken(a) == Some(x) && ' ' !in a
    requires ParseToken(b) == Some(y) && ' ' !in b
    ensures ParseUnits(Spaced(a, b)) == Some(x + y)
  {
    SplitNoSep(b, ' ');
    SplitJoin(a, b, ' ');
    assert Split(Spaced(a, b), ' ') == [a, b];
    assert [a, b][1..] == [b];
    assert [b][1..] == [];
    assert SumTokens([b]) == Some(y);
  }

  lemma ThreeTokens(a: string, b: string, c: string, x: int, y: int, z: int)
    requires ParseToken(a) == Some(x) && ' ' !in a
    requires ParseToken(b) == Some(y) && ' ' !in b
    requires ParseToken(c) == Some(z) && ' ' !in c
    ensures ParseUnits(Spaced(a, Spaced(b, c))) == Some(x + y + z)
  {
    SplitNoSep(c, ' ');
    SplitJoin(b, c, ' ');
    SplitJoin(a, Spaced(b, c), ' ');
    var ts := Split(Spaced(a, Spaced(b, c)), ' ');
    assert ts == [a, b, c];
    assert ts[1..] == [b, c];
    assert [b, c][1..] == [c];
    assert [c][1..] == [];
    assert SumTokens([c]) == Some(z);
    assert SumTokens([b, c]) == Some(y + z);
  }

  /** `Hh MMm SSs` reads back to its value. */
  lemma DurationWithHours(h: nat, m: nat, x: nat)
    ensures ParseUnits(Spaced(Unit(NatToString(h), 'h'), Spaced(Unit(Pad2(m), 'm'), Unit(Pad2(x), 's')))) == Some(h * 3600 + m * 60 + x)
  {
    var ht, mt, st := Unit(NatToString(h), 'h'), Unit(Pad2(m), 'm'), Unit(Pad2(x), 's');
    TokenValue(h, 'h', 3600);
    PaddedTokenValue(m, 'm', 60);
    PaddedTokenValue(x, 's', 1);
    ThreeTokens(ht, mt, st, h * 3600, m * 60, x * 1);
  }

  /** `MMm SSs` reads back to its value. */
  lemma DurationWithMinutes(m: nat, x: nat)
    ensures ParseUnits(Spaced(Unit(Pad2(m), 'm'), Unit(Pad2(x), 's'))) == Some(m * 60 + x)
  {
    var mt, st := Unit(Pad2(m), 'm'), Unit(Pad2(x), 's');
    PaddedTokenValue(m, 'm', 60);
    PaddedTokenValue(x, 's', 1);
    TwoTokens(mt, st, m * 60, x * 1);
  }

  /** `SSs` reads back to its value. */
  lemma DurationSecondsOnly(x: nat)
    ensures ParseUnits(Unit(Pad2(x), 's')) == Some(x)
  {
    PaddedTokenValue(x, 's', 1);
    OneToken(Unit(Pad2(x), 's'), x * 1);
  }

  /** On a non-negative number `%d` is the plain digit string. */
  lemma NatText(n: nat)
    ensures IntToString(n) == NatToString(n)
  {
  }

  /** `formatAsDuration` reads back to the count it shows. */
  lemma DurationRoundTrip(n: nat)
    ensures ParseUnits(FormatAsDuration(n)) == Some(n)
  {
    DurationTextRoundTrip(Components(n));
  }

  lemma DurationTextRoundTrip(c: Clock)
    requires InRange(c)
    ensures ParseUnits(DurationText(c)) == Some(c.hours * 3600 + c.minutes * 60 + c.secs)
  {
    var r := DurationText(c);
    if c.hours > 0 {
      NatText(c.hours);
      assert r == Spaced(Unit(NatToString(c.hours), 'h'), Spaced(Unit(Pad2(c.minutes), 'm'), Unit(Pad2(c.secs), 's')));
      DurationWithHours(c.hours, c.minutes, c.secs);
    } else if c.minutes > 0 {
      assert r == Spaced(Unit(Pad2(c.minutes), 'm'), Unit(Pad2(c.secs), 's'));
      DurationWithMinutes(c.minutes, c.secs);
    } else {
      assert r == Unit(Pad2(c.secs), 's');
      DurationSecondsOnly(c.secs);
    }
  }

  /** `Hh MMm` reads back to its value. */
  lemma TimeWithHours(h: nat, m: nat)
    ensures ParseUnits(Spaced(Unit(NatToString(h), 'h'), Unit(Pad2(m), 'm'))) == Some(h * 3600 + m * 60)
  {
    var ht, mt := Unit(NatToString(h), 'h'), Unit(Pad2(m), 'm');
    TokenValue(h, 'h', 3600);
    PaddedTokenValue(m, 'm', 60);
    TwoTokens(ht, mt, h * 3600, m * 60);
  }

  /** `Mm` reads back to its value. */
  lemma TimeMinutesOnly(m: nat)
    ensures ParseUnits(Unit(NatToString(m), 'm')) == Some(m * 60)
  {
    TokenValue(m, 'm', 60);
    OneToken(Unit(NatToString(m), 'm'), m * 60);
  }

  /** `formatAsTime` reads back to the count rounded down to whole minutes. */
  lemma TimeRoundTrip(n: nat)
    ensures ParseUnits(FormatAsTime(n)) == Some(n - Rem(n, 60))
  {
    var c := Components(n);
    assert c.secs == Rem(n, 60);
    TimeTextRoundTrip(c);
    assert FormatAsTime(n) == TimeText(c);
  }

  lemma TimeTextRoundTrip(c: Clock)
    requires InRange(c)
    ensures ParseUnits(TimeText(c)) == Some(c.hours * 3600 + c.minutes * 60)
  {
    var r := TimeText(c);
    if c.hours > 0 {
      NatText(c.hours);
      assert r == Spaced(Unit(NatToString(c.hours), 'h'), Unit(Pad2(c.minutes), 'm'));
      TimeWithHours(c.hours, c.minutes);
    } else if c.minutes > 0 {
      NatText(c.minutes);
      assert r == Unit(NatToString(c.minutes), 'm');
      TimeMinutesOnly(c.minutes);
    } else {
      assert r == Unit(NatToString(0), 'm');
      TimeMinutesOnly(0);
    }
  }

}
