/** Quiet hours in the recipient's local time (internal/journey/quiethours.go).
    Instants are nanoseconds; zones have a fixed offset from UTC. */
module QuietHours {
  import opened Common

  const HOUR: int := 3_600_000_000_000
  const DAY: int := 86_400_000_000_000

  datatype Answer = Invalid | OpenNow | Quiet(until: int)

  function LocalHour(now: int, offset: int): int {
    (now + offset) % DAY / HOUR
  }

  /** time.Date of the local day of `now`, `days` later, at `hour`:00, back in UTC. */
  function LocalClock(now: int, offset: int, days: int, hour: int): int {
    (now + offset) - (now + offset) % DAY + days * DAY + hour * HOUR - offset
  }

  function IsInQuietHours(now: int, offset: int, start: Option<int>, end: Option<int>): Answer {
    if start.None? || end.None? then OpenNow
    else if start.value == end.value then Invalid
    else
      var s, e, h := start.value, end.value, LocalHour(now, offset);
      if s < e then
        if s <= h < e then Quiet(LocalClock(now, offset, 0, e)) else OpenNow
      else if h >= s then Quiet(LocalClock(now, offset, 1, e))
      else if h < e then Quiet(LocalClock(now, offset, 0, e))
      else OpenNow
  }

  lemma SameLocalDay(now: int, offset: int, t: int, x: int)
    requires 0 <= x < DAY
    requires t + offset == (now + offset) - (now + offset) % DAY + x
    ensures (t + offset) % DAY == x
  {
    var q := (now + offset) / DAY;
    assert t + offset == q * DAY + x;
  }

  lemma NextLocalDay(now: int, offset: int, t: int, x: int)
    requires 0 <= x < DAY
    requires t + offset == (now + offset) - (now + offset) % DAY + DAY + x
    ensures (t + offset) % DAY == x
  {
    var q := (now + offset) / DAY;
    assert t + offset == (q + 1) * DAY + x;
  }

  ghost predicate Hours(start: int, end: int) {
    0 <= start < 24 && 0 <= end < 24 && start != end
  }

  /** The reference: inside the (possibly wrapping) window of local hours. */
  ghost predicate InWindow(t: int, offset: int, start: int, end: int) {
    var h := LocalHour(t, offset);
    if start < end then start <= h < end else h >= start || h < end
  }

  lemma AnswerIsWindow(t: int, offset: int, start: int, end: int)
    requires Hours(start, end)
    ensures IsInQuietHours(t, offset, Some(start), Some(end)).Quiet? <==> InWindow(t, offset, start, end)
    ensures IsInQuietHours(t, offset, Some(start), Some(end)) != Invalid
  {}

  lemma QuietUntilEnd(now: int, offset: int, start: int, end: int, t: int)
    requires Hours(start, end)
    requires var a := IsInQuietHours(now, offset, Some(start), Some(end)); a.Quiet? && now <= t < a.until
    ensures IsInQuietHours(t, offset, Some(start), Some(end)) == IsInQuietHours(now, offset, Some(start), Some(end))
  {
    var m := (now + offset) % DAY;
    var x := t - now + m;
    if x < DAY {
      SameLocalDay(now, offset, t, x);
    } else {
      NextLocalDay(now, offset, t, x - DAY);
    }
  }

  /** A quiet answer names the first instant that is not quiet: strictly later, at most a day away,
      open itself, and every instant before it is quiet with the same answer. */
  lemma QuietEndsAtFirstOpenInstant(now: int, offset: int, start: int, end: int)
    requires Hours(start, end) && InWindow(now, offset, start, end)
    ensures var a := IsInQuietHours(now, offset, Some(start), Some(end));
            && a.Quiet? && now < a.until <= now + DAY
            && IsInQuietHours(a.until, offset, Some(start), Some(end)) == OpenNow
            && !InWindow(a.until, offset, start, end)
            && forall t :: now <= t < a.until ==> InWindow(t, offset, start, end)
  {
    var a := IsInQuietHours(now, offset, Some(start), Some(end));
    if LocalHour(now, offset) >= start && end < start {
      NextLocalDay(now, offset, a.until, end * HOUR);
    } else {
      SameLocalDay(now, offset, a.until, end * HOUR);
    }
    forall t | now <= t < a.until
      ensures InWindow(t, offset, start, end)
    {
      QuietUntilEnd(now, offset, start, end, t);
      AnswerIsWindow(t, offset, start, end);
    }
  }
}
