/**
 * Track markers: every peak time `t` (seconds) is rendered as `"%M:%S"` of
 * the instant `t` seconds after the epoch. Whole seconds are `floor(t)`; the
 * minute is the minute of the hour, so it wraps at 60.
 */
module Markers {
  import opened Common

  /** `%S`: the second of the minute of `epoch + t`. */
  function SecondOfMinute(t: real): (s: nat)
    ensures s < 60
  {
    t.Floor % 60
  }

  /** `%M`: the minute of the hour of `epoch + t`. */
  function MinuteOfHour(t: real): (m: nat)
    ensures m < 60
  {
    (t.Floor / 60) % 60
  }

  function Digit(d: nat): char
    requires d < 10
  {
    "0123456789"[d]
  }

  /** A number below 100 as two decimal digits, zero-padded. */
  function TwoDigits(n: nat): (s: string)
    requires n < 100
    ensures |s| == 2
  {
    [Digit(n / 10), Digit(n % 10)]
  }

  /** One marker: minutes, a colon, seconds. */
  function Marker(t: real): (s: string)
    ensures |s| == 5 && s[2] == ':'
  {
    TwoDigits(MinuteOfHour(t)) + ":" + TwoDigits(SecondOfMinute(t))
  }

  /** The value of a decimal digit character, if it is one. */
  function DigitValue(c: char): Option<nat>
  {
    if '0' <= c <= '9' then Some(c as int - '0' as int) else None
  }

  /** Reads `"MM:SS"` back into a minute and a second. */
  function ParseMarker(s: string): Option<(nat, nat)>
  {
    if |s| != 5 || s[2] != ':' then None
    else
      match (DigitValue(s[0]), DigitValue(s[1]), DigitValue(s[3]), DigitValue(s[4]))
      case (Some(m1), Some(m0), Some(s1), Some(s0)) => Some((10 * m1 + m0, 10 * s1 + s0))
      case _ => None
  }

  lemma DigitRoundTrip(d: nat)
    requires d < 10
    ensures DigitValue(Digit(d)) == Some(d)
  {
  }

  lemma TwoDigitsRoundTrip(n: nat)
    requires n < 100
    ensures DigitValue(TwoDigits(n)[0]) == Some(n / 10)
    ensures DigitValue(TwoDigits(n)[1]) == Some(n % 10)
  {
    DigitRoundTrip(n / 10);
    DigitRoundTrip(n % 10);
  }

  /** A marker reads back as the minute of the hour and the second of the minute. */
  lemma MarkerRoundTrip(t: real)
    ensures ParseMarker(Marker(t)) == Some((MinuteOfHour(t), SecondOfMinute(t)))
  {
    var m, sec := MinuteOfHour(t), SecondOfMinute(t);
    var s := Marker(t);
    TwoDigitsRoundTrip(m);
    TwoDigitsRoundTrip(sec);
    assert s[0] == TwoDigits(m)[0] && s[1] == TwoDigits(m)[1];
    assert s[3] == TwoDigits(sec)[0] && s[4] == TwoDigits(sec)[1];
  }

  /** The minute of the hour and the second of the minute depend only on the whole seconds modulo one hour. */
  lemma HourPosition(f: int)
    ensures f % 3600 == 60 * ((f / 60) % 60) + f % 60
    ensures (f / 60) % 60 == (f % 3600) / 60 && f % 60 == (f % 3600) % 60
  {
    var q, sec := f / 60, f % 60;
    var p, m := q / 60, q % 60;
    assert f == 3600 * p + (60 * m + sec);
    assert 0 <= 60 * m + sec < 3600;
    assert f % 3600 == 60 * m + sec;
    assert (60 * m + sec) / 60 == m;
    assert (60 * m + sec) % 60 == sec;
  }

  /** Two times get the same marker exactly when their whole seconds agree modulo one hour. */
  lemma MarkerEqualIff(t1: real, t2: real)
    ensures Marker(t1) == Marker(t2) <==> t1.Floor % 3600 == t2.Floor % 3600
  {
    HourPosition(t1.Floor);
    HourPosition(t2.Floor);
    if Marker(t1) == Marker(t2) {
      MarkerRoundTrip(t1);
      MarkerRoundTrip(t2);
      assert MinuteOfHour(t1) == MinuteOfHour(t2) && SecondOfMinute(t1) == SecondOfMinute(t2);
    }
  }

  /** A peak at 125.4 seconds is marked "02:05". */
  lemma MarkerExample()
    ensures Marker(125.4) == "02:05"
  {
    assert (125.4).Floor == 125;
  }

  /** `track_seps`: one marker per peak, in peak order, for the peak times `peak * dt`. */
  function TrackMarkers(peaks: seq<nat>, dt: real): (markers: seq<string>)
    ensures |markers| == |peaks|
    ensures forall i :: 0 <= i < |peaks| ==> markers[i] == Marker(PeakTime(peaks[i], dt))
  {
    seq(|peaks|, i requires 0 <= i < |peaks| => Marker(PeakTime(peaks[i], dt)))
  }

  /** `peaks * dt`: the time in seconds of a peak's frame. */
  function PeakTime(frame: nat, dt: real): (t: real)
    ensures dt >= 0.0 ==> t >= 0.0
  {
    frame as real * dt
  }
}
