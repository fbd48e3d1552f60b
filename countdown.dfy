/** The job-offer countdown of src/components/CountdownTimer.tsx, with time as
    integer milliseconds. */
module Countdown {
  import opened Text

  const MsPerSecond: int := 1000
  const MsPerMinute: int := 60 * 1000
  const MsPerHour: int := 60 * 60 * 1000
  /** Below five minutes the badge turns amber. */
  const LowTimeThreshold: int := 5 * 60 * 1000

  datatype TimerView = Expired | Running(text: string, lowTime: bool)

  /** `Math.floor((timeLeft / 1000 / 60) % 60)` for a positive `timeLeft`. */
  function Minutes(t: int): (m: nat)
    requires t > 0
    ensures m < 60
  {
    (t / MsPerMinute) % 60
  }

  /** `Math.floor((timeLeft / 1000) % 60)` for a positive `timeLeft`. */
  function Seconds(t: int): (s: nat)
    requires t > 0
    ensures s < 60
  {
    (t / MsPerSecond) % 60
  }

  /** JavaScript's `%` on numbers: the remainder of a division truncated toward zero. */
  function JsRemainder(x: real, y: real): real
    requires y != 0.0
  {
    var q := x / y;
    var trunc := if q >= 0.0 then q.Floor else -((-q).Floor);
    x - y * (trunc as real)
  }

  lemma FloorIs(x: real, n: int)
    requires n as real <= x < n as real + 1.0
    ensures x.Floor == n
  {
  }

  /** The integer fields agree with the component's floating-point formulas,
      read in exact real arithmetic (rounding of the divisions is not modelled). */
  lemma FieldsMatchFormulas(t: int)
    requires t > 0
    ensures JsRemainder(t as real / 1000.0 / 60.0, 60.0).Floor == Minutes(t)
    ensures JsRemainder(t as real / 1000.0, 60.0).Floor == Seconds(t)
  {
    RemainderFloor(t, 60000);
    RemainderFloor(t, 1000);
    assert t as real / 1000.0 / 60.0 == t as real / 60000.0;
  }

  lemma RemainderFloor(t: int, d: int)
    requires t > 0 && d > 0
    ensures JsRemainder(t as real / d as real, 60.0).Floor == (t / d) % 60
  {
    var q, r := t / d, t % d;
    var a, b := q / 60, q % 60;
    var x := t as real / d as real;
    assert x == q as real + r as real / d as real;
    assert 0.0 <= r as real / d as real < 1.0;
    assert x / 60.0 == a as real + (b as real + r as real / d as real) / 60.0;
    FloorIs(x / 60.0, a);
    assert JsRemainder(x, 60.0) == b as real + r as real / d as real;
    FloorIs(JsRemainder(x, 60.0), b);
  }

  /** `n.toString().padStart(2, '0')`. */
  function TwoDigits(n: nat): string {
    PadStart(NatToString(n), 2, '0')
  }

  /** What the badge shows for a remaining time `t`. */
  function Render(t: int): TimerView {
    if t <= 0 then Expired
    else Running(TwoDigits(Minutes(t)) + ":" + TwoDigits(Seconds(t)), t < LowTimeThreshold)
  }

  lemma {:induction false} TwoDigitsShape(n: nat)
    requires n < 100
    ensures |TwoDigits(n)| == 2 && AllDigits(TwoDigits(n))
    ensures ParseDigits(TwoDigits(n)) == n
  {
    var s := NatToString(n);
    ParseNatToString(n);
    if n < 10 {
      assert TwoDigits(n) == "0" + s;
      ParseLeadingZero(s);
    }
  }

  /** The badge reads "Expired" exactly when no time is left, and otherwise shows
      `mm:ss`: five characters whose two digit pairs read back as the minutes and
      seconds, with low-time styling exactly below five minutes. */
  lemma RenderShape(t: int)
    ensures Render(t).Expired? <==> t <= 0
    ensures Render(t).Running? ==>
      var text := Render(t).text;
      && |text| == 5
      && text[2] == ':'
      && AllDigits(text[..2]) && AllDigits(text[3..])
      && ParseDigits(text[..2]) == Minutes(t)
      && ParseDigits(text[3..]) == Seconds(t)
      && (Render(t).lowTime <==> t < LowTimeThreshold)
  {
    if t > 0 {
      TwoDigitsShape(Minutes(t));
      TwoDigitsShape(Seconds(t));
      var text := Render(t).text;
      assert text[..2] == TwoDigits(Minutes(t));
      assert text[3..] == TwoDigits(Seconds(t));
    }
  }

  /** Below one hour the two fields are the whole seconds left, split. */
  lemma MinutesSecondsBelowAnHour(t: int)
    requires 0 < t < MsPerHour
    ensures Minutes(t) * 60 + Seconds(t) == t / MsPerSecond
  {
    var s := t / MsPerSecond;
    assert t / MsPerMinute == s / 60;
    assert s / 60 < 60;
  }

  /** Whole hours are dropped: `t` and `t` plus an hour have the same fields ... */
  lemma FieldsDropHours(t: int)
    requires t > 0
    ensures Minutes(t + MsPerHour) == Minutes(t)
    ensures Seconds(t + MsPerHour) == Seconds(t)
  {
    var q, r := t / 60000, t % 60000;
    assert t + 3600000 == (q + 60) * 60000 + r;
    assert (t + 3600000) / 60000 == q + 60;
    var q', r' := t / 1000, t % 1000;
    assert t + 3600000 == (q' + 3600) * 1000 + r';
    assert (t + 3600000) / 1000 == q' + 3600;
  }

  /** ... and so the same text. */
  lemma HoursDropped(t: int)
    requires t > 0
    ensures Render(t + MsPerHour).text == Render(t).text
  {
    FieldsDropHours(t);
  }

  /** The component's state: the expiry it was given and the `timeLeft` it keeps. */
  class CountdownTimer {
    const expiryTimestamp: int
    var timeLeft: int

    /** The first render uses `expiryTimestamp - now` unclamped: it may be negative. */
    constructor (expiryTimestamp: int, now: int)
      ensures this.expiryTimestamp == expiryTimestamp
      ensures timeLeft == expiryTimestamp - now
    {
      this.expiryTimestamp := expiryTimestamp;
      timeLeft := expiryTimestamp - now;
    }

    /** One interval tick at clock reading `now`: store what is left, or 0. */
    method Tick(now: int)
      modifies this
      ensures timeLeft == (if expiryTimestamp - now > 0 then expiryTimestamp - now else 0)
      ensures timeLeft >= 0
      ensures Render(timeLeft).Expired? <==> now >= expiryTimestamp
    {
      var remaining := expiryTimestamp - now;
      timeLeft := if remaining > 0 then remaining else 0;
    }
  }
}
