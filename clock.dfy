/**
 * Instants on the browser's local wall clock, counted in whole minutes
 * (time zones, daylight saving and seconds are not modelled), with what
 * the components do to them: `setHours(h, m, 0, 0)`, reading the hour and
 * minute, and the 24-hour "HH:MM" text of a time input.
 */
module Clock {
  import opened Strings

  const MinutesPerDay: nat := 1440

  /** An instant, in minutes since the epoch on the local clock. */
  type Instant = int

  /** Midnight at the start of the instant's day. */
  function DayStart(t: Instant): (r: Instant)
    ensures r <= t < r + MinutesPerDay
    ensures r % MinutesPerDay == 0
  {
    t - t % MinutesPerDay
  }

  function HourOf(t: Instant): (r: nat)
    ensures r < 24
  {
    (t % MinutesPerDay) / 60
  }

  function MinuteOf(t: Instant): (r: nat)
    ensures r < 60
  {
    t % 60
  }

  /** `d.setHours(h, m, 0, 0)` on a copy of `t`: the same day at h:m.
   *  Hours and minutes outside the day roll over into the next days, as
   *  `setHours` does. */
  function SetHours(t: Instant, h: int, m: int): Instant
  {
    DayStart(t) + h * 60 + m
  }

  /** Within the day, `setHours` lands on the day of `t` and reads back
   *  as h:m. */
  lemma SetHoursFields(t: Instant, h: nat, m: nat)
    requires h < 24 && m < 60
    ensures DayStart(SetHours(t, h, m)) == DayStart(t)
    ensures HourOf(SetHours(t, h, m)) == h && MinuteOf(SetHours(t, h, m)) == m
  {
    var d := DayStart(t);
    var r := SetHours(t, h, m);
    assert r == d + (h * 60 + m);
    assert 0 <= h * 60 + m < MinutesPerDay;
    DayStartPlus(d, h * 60 + m);
    assert r % MinutesPerDay == h * 60 + m;
    assert r % 60 == m by {
      assert r == (d / 60 + h) * 60 + m;
    }
  }

  lemma DayStartPlus(d: Instant, k: nat)
    requires d % MinutesPerDay == 0 && k < MinutesPerDay
    ensures (d + k) % MinutesPerDay == k
    ensures DayStart(d + k) == d
  {
    assert d == (d / MinutesPerDay) * MinutesPerDay;
    assert d + k == (d / MinutesPerDay) * MinutesPerDay + k;
  }

  /** Setting an instant's own hour and minute gives it back. */
  lemma SetHoursOwn(t: Instant)
    ensures SetHours(t, HourOf(t), MinuteOf(t)) == t
  {
    var k := t % MinutesPerDay;
    assert k == HourOf(t) * 60 + k % 60;
    assert t == (t / 60) * 60 + t % 60;
    assert DayStart(t) % 60 == 0 by {
      assert DayStart(t) == (t / MinutesPerDay) * 24 * 60;
    }
    assert k % 60 == t % 60 by {
      assert t == DayStart(t) + k;
    }
  }

  /** What a `type="time"` input holds when filled: "HH:MM" in 24-hour
   *  notation. */
  predicate IsTimeValue(s: string)
  {
    |s| == 5 && s[2] == ':' && AllDigits(s[..2]) && AllDigits(s[3..])
    && DigitsValue(s[..2]) < 24 && DigitsValue(s[3..]) < 60
  }

  /** `t.toLocaleTimeString([], { hour: '2-digit', minute: '2-digit',
   *  hour12: false })`. */
  function FormatTime(t: Instant): (r: string)
    ensures IsTimeValue(r)
  {
    var r := Pad2(HourOf(t)) + ":" + Pad2(MinuteOf(t));
    assert r[..2] == Pad2(HourOf(t)) && r[3..] == Pad2(MinuteOf(t));
    Pad2Value(HourOf(t));
    Pad2Value(MinuteOf(t));
    r
  }

  /** `s.split(':').map(Number)` on a filled time input: the hour and the
   *  minute. */
  function ParseTime(s: string): (r: (nat, nat))
    requires IsTimeValue(s)
    ensures r.0 < 24 && r.1 < 60
  {
    var parts := Split(s, ':');
    SplitTime(s);
    (DigitsValue(parts[0]), DigitsValue(parts[1]))
  }

  /** A filled time input splits into its two fields. */
  lemma SplitTime(s: string)
    requires IsTimeValue(s)
    ensures Split(s, ':') == [s[..2], s[3..]]
  {
    assert ':' !in s[..2] by {
      assert forall i :: 0 <= i < 2 ==> IsDigit(s[..2][i]);
    }
    assert ':' !in s[3..] by {
      assert forall i :: 0 <= i < 2 ==> IsDigit(s[3..][i]);
    }
    assert s == s[..2] + ([':'] + s[3..]);
    SplitPrefix(s[..2], s[3..], ':');
    SplitFree(s[3..], ':');
  }

  /** Formatting an instant and reading the text back gives its hour and
   *  minute. */
  lemma ParseFormatTime(t: Instant)
    ensures ParseTime(FormatTime(t)) == (HourOf(t), MinuteOf(t))
  {
    var r := FormatTime(t);
    assert r[..2] == Pad2(HourOf(t)) && r[3..] == Pad2(MinuteOf(t));
    SplitTime(r);
    Pad2Value(HourOf(t));
    Pad2Value(MinuteOf(t));
  }
}
