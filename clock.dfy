/**
 * Trading-time rules. Two checks exist side by side: the service's
 * `is_cn_trading_time`, which compares the full wall-clock time, and the
 * collector's, which looks only at the minute of the day; the collector
 * also has a closing window around 15:00. The session-list check of the
 * time utilities parses `HH:MM` strings. The clock itself is a parameter.
 */
module Clock {
  import opened Wrappers
  import opened Text

  /** A wall-clock time of day (`datetime.time`); a time-zone, when present, is not consulted. */
  datatype Time = Time(hour: int, minute: int, second: int, micro: int)

  predicate ValidTime(t: Time) {
    0 <= t.hour < 24 && 0 <= t.minute < 60 && 0 <= t.second < 60 && 0 <= t.micro < 1000000
  }

  /** Python's ordering of times: field by field. */
  predicate TimeLe(a: Time, b: Time) {
    a.hour < b.hour ||
    (a.hour == b.hour && (a.minute < b.minute ||
    (a.minute == b.minute && (a.second < b.second ||
    (a.second == b.second && a.micro <= b.micro)))))
  }

  /** `datetime.weekday()`: Monday is 0, Saturday 5, Sunday 6. */
  predicate IsWeekday(weekday: int) {
    weekday < 5
  }

  // ----- services/trading_time.py -----

  /** `is_cn_trading_time`: a weekday within 09:30-11:30 or 13:00-15:00, both ends included. */
  predicate IsCnTradingTime(weekday: int, t: Time) {
    weekday < 5 &&
    ((TimeLe(Time(9, 30, 0, 0), t) && TimeLe(t, Time(11, 30, 0, 0))) ||
     (TimeLe(Time(13, 0, 0, 0), t) && TimeLe(t, Time(15, 0, 0, 0))))
  }

  /** Minute of the day. */
  function MinuteOfDay(hour: int, minute: int): int {
    hour * 60 + minute
  }

  /**
   * The service check on a valid time: never at the weekend, and on a
   * weekday exactly when the time, counted in microseconds, lies in one of
   * the two sessions.
   */
  lemma TradingTimeSpec(weekday: int, t: Time)
    requires ValidTime(t)
    ensures weekday >= 5 ==> !IsCnTradingTime(weekday, t)
    ensures var us := ((t.hour * 60 + t.minute) * 60 + t.second) * 1000000 + t.micro;
            weekday < 5 ==>
              (IsCnTradingTime(weekday, t) <==>
                 (570 * 60000000 <= us <= 690 * 60000000) || (780 * 60000000 <= us <= 900 * 60000000))
  {
    TimeLeMicros(Time(9, 30, 0, 0), t);
    TimeLeMicros(t, Time(11, 30, 0, 0));
    TimeLeMicros(Time(13, 0, 0, 0), t);
    TimeLeMicros(t, Time(15, 0, 0, 0));
  }

  function Micros(t: Time): int {
    ((t.hour * 60 + t.minute) * 60 + t.second) * 1000000 + t.micro
  }

  /** On valid times the field order is the order of the microsecond counts. */
  lemma TimeLeMicros(a: Time, b: Time)
    requires ValidTime(a) && ValidTime(b)
    ensures TimeLe(a, b) <==> Micros(a) <= Micros(b)
  {
    var ma := (a.hour * 60 + a.minute) * 60 + a.second;
    var mb := (b.hour * 60 + b.minute) * 60 + b.second;
    SecondsOrder(a, b);
    assert Micros(a) == ma * 1000000 + a.micro && Micros(b) == mb * 1000000 + b.micro;
    if ma < mb {
      assert ma * 1000000 + 1000000 <= mb * 1000000;
    } else if ma > mb {
      assert mb * 1000000 + 1000000 <= ma * 1000000;
    }
  }

  lemma SecondsOrder(a: Time, b: Time)
    requires ValidTime(a) && ValidTime(b)
    ensures var ma := (a.hour * 60 + a.minute) * 60 + a.second;
            var mb := (b.hour * 60 + b.minute) * 60 + b.second;
            (ma < mb <==> (a.hour < b.hour || (a.hour == b.hour && (a.minute < b.minute ||
                          (a.minute == b.minute && a.second < b.second))))) &&
            (ma == mb <==> a.hour == b.hour && a.minute == b.minute && a.second == b.second)
  {
    var ha := a.hour * 60 + a.minute;
    var hb := b.hour * 60 + b.minute;
    if a.hour < b.hour {
      assert a.hour * 60 + 60 <= b.hour * 60;
    } else if a.hour > b.hour {
      assert b.hour * 60 + 60 <= a.hour * 60;
    }
    if ha < hb {
      assert ha * 60 + 60 <= hb * 60;
    } else if ha > hb {
      assert hb * 60 + 60 <= ha * 60;
    }
  }

  /** Noon is outside both sessions; one second past 15:00 is already outside. */
  lemma TradingTimeExamples()
    ensures !IsCnTradingTime(0, Time(12, 0, 0, 0))
    ensures !IsCnTradingTime(0, Time(15, 0, 1, 0))
    ensures IsCnTradingTime(0, Time(15, 0, 0, 0)) && IsCnTradingTime(4, Time(9, 30, 0, 0))
    ensures !IsCnTradingTime(5, Time(10, 0, 0, 0))
  {
  }

  // ----- scripts/intraday_collector.py -----

  /** `_is_cn_trading_time` of the collector: minutes 570-690 or 780-900 of a weekday. */
  predicate CollectorTradingTime(weekday: int, hour: int, minute: int) {
    IsWeekday(weekday) &&
    ((570 <= MinuteOfDay(hour, minute) <= 690) || (780 <= MinuteOfDay(hour, minute) <= 900))
  }

  function Abs(x: int): nat {
    if x < 0 then -x else x
  }

  /** `_is_close_window`: a weekday within `minutes` minutes of 15:00. */
  predicate IsCloseWindow(weekday: int, hour: int, minute: int, minutes: int) {
    IsWeekday(weekday) && Abs(MinuteOfDay(hour, minute) - 15 * 60) <= minutes
  }

  /**
   * The close window runs from `15:00 - minutes` to `15:00 + minutes`; a
   * negative width gives no window, and the default width 2 gives
   * 14:58 to 15:02.
   */
  lemma CloseWindowSpec(weekday: int, hour: int, minute: int, minutes: int)
    ensures IsCloseWindow(weekday, hour, minute, minutes) <==>
              weekday < 5 && 900 - minutes <= hour * 60 + minute <= 900 + minutes
    ensures minutes < 0 ==> !IsCloseWindow(weekday, hour, minute, minutes)
    ensures weekday < 5 ==>
              (IsCloseWindow(weekday, hour, minute, 2) <==> 898 <= hour * 60 + minute <= 902)
  {
  }

  /**
   * The two trading checks agree up to the minute: whatever the service
   * accepts the collector accepts, and on a whole minute the collector
   * accepts nothing more; within the minute after 11:30 or 15:00 only the
   * collector still says yes.
   */
  lemma TradingChecksAgree(weekday: int, t: Time)
    requires ValidTime(t)
    ensures IsCnTradingTime(weekday, t) ==> CollectorTradingTime(weekday, t.hour, t.minute)
    ensures t.second == 0 && t.micro == 0 && CollectorTradingTime(weekday, t.hour, t.minute) ==> IsCnTradingTime(weekday, t)
    ensures CollectorTradingTime(0, 15, 0) && !IsCnTradingTime(0, Time(15, 0, 1, 0))
  {
    TradingTimeSpec(weekday, t);
    var m := t.hour * 60 + t.minute;
    var us := Micros(t);
    assert us == (m * 60 + t.second) * 1000000 + t.micro;
    assert m * 60000000 <= us < m * 60000000 + 60000000;
    if 570 * 60000000 <= us {
      assert 570 <= m;
    }
    if us <= 690 * 60000000 {
      assert m <= 690;
    }
    if 780 * 60000000 <= us {
      assert 780 <= m;
    }
    if us <= 900 * 60000000 {
      assert m <= 900;
    }
    if t.second == 0 && t.micro == 0 {
      assert us == m * 60000000;
    }
  }

  // ----- utils/time_utils.py -----

  /**
   * `parse_hhmm`: exactly two `:`-separated parts, each an integer, making
   * a valid hour and minute; anything else raises.
   */
  function ParseHhmm(s: string): (r: Result<Time>)
    ensures r.Ok? ==> ValidTime(r.value) && r.value.second == 0 && r.value.micro == 0
    ensures r.Ok? ==> |Split(s, ':')| == 2
  {
    var parts := Split(s, ':');
    if |parts| != 2 then Err("not enough values to unpack")
    else
      var hh := ParseInt(parts[0]);
      var mm := ParseInt(parts[1]);
      if hh.None? || mm.None? then Err("invalid literal for int()")
      else if !(0 <= hh.value < 24) then Err("hour must be in 0..23")
      else if !(0 <= mm.value < 60) then Err("minute must be in 0..59")
      else Ok(Time(hh.value, mm.value, 0, 0))
  }

  /** Two-digit `HH:MM` text parses to that hour and minute. */
  lemma ParseHhmmDigits(h1: char, h2: char, m1: char, m2: char)
    requires IsDigit(h1) && IsDigit(h2) && IsDigit(m1) && IsDigit(m2)
    requires (h1 as int - '0' as int) * 10 + (h2 as int - '0' as int) < 24
    requires (m1 as int - '0' as int) * 10 + (m2 as int - '0' as int) < 60
    ensures ParseHhmm([h1, h2, ':', m1, m2]) ==
              Ok(Time((h1 as int - '0' as int) * 10 + (h2 as int - '0' as int),
                      (m1 as int - '0' as int) * 10 + (m2 as int - '0' as int), 0, 0))
  {
    SplitJoin([[h1, h2], [m1, m2]], ':');
    assert Join([[h1, h2], [m1, m2]], ':') == [h1, h2, ':', m1, m2];
    DigitsPair(h1, h2);
    DigitsPair(m1, m2);
  }

  lemma DigitsPair(a: char, b: char)
    requires IsDigit(a) && IsDigit(b)
    ensures Strip([a, b]) == [a, b] && AllDigits([a, b])
    ensures DigitsValue([a, b]) == (a as int - '0' as int) * 10 + (b as int - '0' as int)
  {
    StripNoop([a, b]);
    assert [a, b][..1] == [a];
    assert [a][..0] == [];
    assert DigitsValue([a]) == a as int - '0' as int;
    assert DigitsValue([a, b]) == DigitsValue([a]) * 10 + (b as int - '0' as int);
  }

  /** `is_time_in_range`: both ends included. */
  predicate InRange(t: Time, start: Time, end: Time) {
    TimeLe(start, t) && TimeLe(t, end)
  }

  /**
   * `is_trading_time`'s loop as a function: the sessions are parsed in
   * order, the first one containing `now` answers yes, and a session that
   * does not parse raises before any later one is looked at.
   */
  function TradingIn(sessions: seq<(string, string)>, now: Time): Result<bool> {
    if sessions == [] then Ok(false)
    else
      var s := ParseHhmm(sessions[0].0);
      var e := ParseHhmm(sessions[0].1);
      if s.Err? then Err(s.error)
      else if e.Err? then Err(e.error)
      else if InRange(now, s.value, e.value) then Ok(true)
      else TradingIn(sessions[1..], now)
  }

  /** Every session parses. */
  predicate AllParse(sessions: seq<(string, string)>) {
    forall k :: 0 <= k < |sessions| ==> ParseHhmm(sessions[k].0).Ok? && ParseHhmm(sessions[k].1).Ok?
  }

  /** Some session contains `now`. */
  predicate SomeSessionHas(sessions: seq<(string, string)>, now: Time)
    requires AllParse(sessions)
  {
    exists k :: 0 <= k < |sessions| && InRange(now, ParseHhmm(sessions[k].0).value, ParseHhmm(sessions[k].1).value)
  }

  /**
   * With well-formed sessions the answer is whether some session contains
   * `now`; an empty list always answers no.
   */
  lemma {:induction false} TradingInSpec(sessions: seq<(string, string)>, now: Time)
    requires AllParse(sessions)
    ensures TradingIn(sessions, now) == Ok(SomeSessionHas(sessions, now))
    ensures sessions == [] ==> TradingIn(sessions, now) == Ok(false)
  {
    if sessions != [] {
      var rest := sessions[1..];
      assert AllParse(rest) by {
        forall k | 0 <= k < |rest|
          ensures ParseHhmm(rest[k].0).Ok? && ParseHhmm(rest[k].1).Ok?
        {
          assert rest[k] == sessions[k + 1];
        }
      }
      TradingInSpec(rest, now);
      if SomeSessionHas(rest, now) {
        var k :| 0 <= k < |rest| && InRange(now, ParseHhmm(rest[k].0).value, ParseHhmm(rest[k].1).value);
        assert rest[k] == sessions[k + 1];
      }
      if SomeSessionHas(sessions, now) && !InRange(now, ParseHhmm(sessions[0].0).value, ParseHhmm(sessions[0].1).value) {
        var k :| 0 <= k < |sessions| && InRange(now, ParseHhmm(sessions[k].0).value, ParseHhmm(sessions[k].1).value);
        assert k > 0 && sessions[k] == rest[k - 1];
      }
    }
  }

  /** `is_trading_time` with the clock reading `now`: the loop over the sessions. */
  method IsTradingTime(sessions: seq<(string, string)>, now: Time) returns (r: Result<bool>)
    ensures r == TradingIn(sessions, now)
  {
    var i := 0;
    while i < |sessions|
      invariant 0 <= i <= |sessions|
      invariant TradingIn(sessions[i..], now) == TradingIn(sessions, now)
    {
      assert sessions[i..][1..] == sessions[i + 1..];
      var (sText, eText) := sessions[i];
      var s := ParseHhmm(sText);
      if s.Err? {
        return Err(s.error);
      }
      var e := ParseHhmm(eText);
      if e.Err? {
        return Err(e.error);
      }
      if InRange(now, s.value, e.value) {
        return Ok(true);
      }
      i := i + 1;
    }
    r := Ok(false);
  }
}
