/**
 Wall clocks in a time zone: instants are milliseconds, a zone is the offset it shows at each instant, and a date
 and time of day are a day number and a minute of that day.
 */
module WallClocks {
  const MINUTE: int := 60_000
  const DAY: int := 1440 * MINUTE

  type Zone = int -> int

  /** Offsets are whole minutes, at most `most` either way. */
  ghost predicate Bounded(zone: Zone, most: int) {
    forall t :: -most <= zone(t) <= most && zone(t) % MINUTE == 0
  }

  /** The offset changes at most once within any stretch of twice the largest offset. */
  ghost predicate Calm(zone: Zone, most: int) {
    forall a, b, c | a <= b <= c <= a + 2 * most :: zone(a) == zone(b) || zone(b) == zone(c)
  }

  /** What the clock on the wall shows at `t`. */
  function Wall(zone: Zone, t: int): int { t + zone(t) }

  /** `formatDateForInput` */
  function FormatDate(zone: Zone, t: int): int { Wall(zone, t) / DAY }

  /** `formatTimeForInput` */
  function FormatTime(zone: Zone, t: int): (minute: int)
    ensures 0 <= minute < 1440
  {
    Wall(zone, t) % DAY / MINUTE
  }

  /** The date and time read as if they were UTC. */
  function AsUtc(date: int, minute: int): int { date * DAY + minute * MINUTE }

  /** `combineLocalDateTime`: guess with the offset at the UTC reading, then refine once. */
  function Combine(zone: Zone, date: int, minute: int): int {
    var w := AsUtc(date, minute);
    var offset := zone(w);
    var candidate := w - offset;
    var refined := zone(candidate);
    if refined == offset then candidate else w - refined
  }

  /** `setHoursInTimezone`: the same local day at another time. */
  function SetHours(zone: Zone, t: int, hour: int, minute: int): int {
    Combine(zone, FormatDate(zone, t), 60 * hour + minute)
  }

  /** The instant shows this date and time, on the minute. */
  predicate Shows(zone: Zone, t: int, date: int, minute: int) {
    Wall(zone, t) == AsUtc(date, minute)
  }

  /** The clock of the zone shows this date and time at some instant: it is not skipped. */
  ghost predicate Occurs(zone: Zone, date: int, minute: int) {
    exists t :: Shows(zone, t, date, minute)
  }

  lemma PrintsWhatItShows(zone: Zone, t: int, date: int, minute: int)
    requires 0 <= minute < 1440 && Shows(zone, t, date, minute)
    ensures FormatDate(zone, t) == date && FormatTime(zone, t) == minute
  {
    assert Wall(zone, t) == DAY * date + MINUTE * minute;
  }

  /** Near a reading there are at most two offsets: the one at the reading itself and one other. */
  lemma TwoOffsets(zone: Zone, most: int, w: int, s: int, t: int)
    requires Bounded(zone, most) && Calm(zone, most) && w - most <= s <= w + most && w - most <= t <= w + most
    ensures zone(s) == zone(w) || zone(t) == zone(w) || zone(s) == zone(t)
  {
    var lo, hi := if s <= t then s else t, if s <= t then t else s;
    if w <= lo {
      assert zone(w) == zone(lo) || zone(lo) == zone(hi);
    } else if w <= hi {
      assert zone(lo) == zone(w) || zone(w) == zone(hi);
    } else {
      assert zone(lo) == zone(hi) || zone(hi) == zone(w);
    }
  }

  /** Any instant showing the time is returned itself, or shares it with the one returned. */
  lemma CombineShowsWhatExists(zone: Zone, most: int, date: int, minute: int, t: int)
    requires Bounded(zone, most) && Calm(zone, most) && Shows(zone, t, date, minute)
    ensures Shows(zone, Combine(zone, date, minute), date, minute)
  {
    var w := AsUtc(date, minute);
    assert t == w - zone(t) && -most <= zone(t) <= most && -most <= zone(w) <= most;
    TwoOffsets(zone, most, w, w - zone(w), t);
  }

  /** `combineLocalDateTime` returns an instant that prints back as the date and time exactly when one exists. */
  lemma PrintsBackIffItExists(zone: Zone, most: int, date: int, minute: int)
    requires Bounded(zone, most) && Calm(zone, most) && 0 <= minute < 1440
    ensures Occurs(zone, date, minute) <==> Shows(zone, Combine(zone, date, minute), date, minute)
    ensures Occurs(zone, date, minute) <==>
            FormatDate(zone, Combine(zone, date, minute)) == date
            && FormatTime(zone, Combine(zone, date, minute)) == minute
  {
    var r := Combine(zone, date, minute);
    if t :| Shows(zone, t, date, minute) {
      CombineShowsWhatExists(zone, most, date, minute, t);
      PrintsWhatItShows(zone, r, date, minute);
    }
    if FormatDate(zone, r) == date && FormatTime(zone, r) == minute {
      OnTheMinute(zone, most, date, minute);
      assert Wall(zone, r) % MINUTE == 0;
      PrintedOnTheMinute(Wall(zone, r), date, minute);
    }
  }

  lemma OnTheMinute(zone: Zone, most: int, date: int, minute: int)
    requires Bounded(zone, most)
    ensures Wall(zone, Combine(zone, date, minute)) % MINUTE == 0
  {
    var w := AsUtc(date, minute);
    var r := Combine(zone, date, minute);
    var a, b, c := zone(w), zone(w - zone(w)), zone(r);
    assert a % MINUTE == 0 && b % MINUTE == 0 && c % MINUTE == 0;
    assert w == MINUTE * (1440 * date + minute);
  }

  lemma WholeMinutes(t: int, k: int)
    requires t == MINUTE * k
    ensures t / MINUTE == k
  {
  }

  lemma PrintedOnTheMinute(wall: int, date: int, minute: int)
    requires wall % MINUTE == 0 && wall / DAY == date && wall % DAY / MINUTE == minute
    ensures wall == AsUtc(date, minute)
  {
    var k, rest := wall / MINUTE, wall % DAY;
    assert wall == MINUTE * k && wall == DAY * date + rest;
    WholeMinutes(rest, k - 1440 * date);
  }

  /** A time the clock skips: the result shows it moved by exactly the jump between the two offsets involved. */
  lemma SkippedTimeIsShifted(zone: Zone, most: int, date: int, minute: int)
    requires Bounded(zone, most) && Calm(zone, most) && !Occurs(zone, date, minute)
    ensures var w := AsUtc(date, minute);
            Wall(zone, Combine(zone, date, minute)) == w + zone(w) - zone(w - zone(w))
  {
    var w := AsUtc(date, minute);
    var candidate := w - zone(w);
    var r := w - zone(candidate);
    assert !Shows(zone, candidate, date, minute) && !Shows(zone, r, date, minute);
    assert -most <= zone(w) <= most && -most <= zone(candidate) <= most;
    TwoOffsets(zone, most, w, candidate, r);
  }

  /** A time the clock shows twice: the result is the one whose offset is in force at the UTC reading. */
  lemma RepeatedTimeIsChosen(zone: Zone, most: int, date: int, minute: int, s: int, t: int)
    requires Bounded(zone, most) && Calm(zone, most)
    requires s != t && Shows(zone, s, date, minute) && Shows(zone, t, date, minute)
    ensures var r := Combine(zone, date, minute); (r == s || r == t) && zone(r) == zone(AsUtc(date, minute))
  {
    var w := AsUtc(date, minute);
    assert s == w - zone(s) && t == w - zone(t);
    assert -most <= zone(s) <= most && -most <= zone(t) <= most && -most <= zone(w) <= most;
    TwoOffsets(zone, most, w, s, t);
  }

  /** The start of the minute an instant lies in, as the clock shows it. */
  function MinuteStart(zone: Zone, t: int): int { t - Wall(zone, t) % MINUTE }

  lemma PrintedWall(zone: Zone, t: int)
    ensures AsUtc(FormatDate(zone, t), FormatTime(zone, t)) == MinuteStart(zone, t) + zone(t)
  {
    var wall := Wall(zone, t);
    var d, m := wall / DAY, wall % DAY / MINUTE;
    assert wall == DAY * d + wall % DAY;
    assert wall % DAY == MINUTE * m + wall % DAY % MINUTE;
    assert wall == MINUTE * (1440 * d + m) + wall % DAY % MINUTE;
  }

  /** The clock shows this date and time at most once. */
  ghost predicate AtMostOnce(zone: Zone, date: int, minute: int) {
    forall s, t | Shows(zone, s, date, minute) && Shows(zone, t, date, minute) :: s == t
  }

  /**
   Unless the clock shows the printed time twice, combining an instant's printed form returns the start of its minute,
   showing that time, exactly when the offset did not change since that start.
   */
  lemma CombinedPrintIsTheInstant(zone: Zone, most: int, t: int)
    requires Bounded(zone, most) && Calm(zone, most) && AtMostOnce(zone, FormatDate(zone, t), FormatTime(zone, t))
    ensures var r := Combine(zone, FormatDate(zone, t), FormatTime(zone, t));
            zone(MinuteStart(zone, t)) == zone(t) <==>
              r == MinuteStart(zone, t) && Shows(zone, r, FormatDate(zone, t), FormatTime(zone, t))
  {
    var start, date, minute := MinuteStart(zone, t), FormatDate(zone, t), FormatTime(zone, t);
    PrintedWall(zone, t);
    if zone(start) == zone(t) {
      assert Shows(zone, start, date, minute);
      CombineShowsWhatExists(zone, most, date, minute, start);
      assert Shows(zone, Combine(zone, date, minute), date, minute);
    }
  }

  /** `setHoursInTimezone` keeps the local date and sets the time, whenever that time exists on that day. */
  lemma SetHoursKeepsTheDay(zone: Zone, most: int, t: int, hour: int, minute: int)
    requires Bounded(zone, most) && Calm(zone, most) && 0 <= hour < 24 && 0 <= minute < 60
    ensures Occurs(zone, FormatDate(zone, t), 60 * hour + minute) <==>
              FormatDate(zone, SetHours(zone, t, hour, minute)) == FormatDate(zone, t)
              && FormatTime(zone, SetHours(zone, t, hour, minute)) == 60 * hour + minute
  {
    PrintsBackIffItExists(zone, most, FormatDate(zone, t), 60 * hour + minute);
  }

  /** An hour ahead of UTC, half past one on a day is half past midnight in UTC; the clock's figures in milliseconds. */
  lemma AnHourAhead(date: int)
    ensures Combine((t: int) => 3_600_000, date, 90) == date * 86_400_000 + 1_800_000
    ensures FormatTime((t: int) => 3_600_000, date * 86_400_000 + 1_800_000) == 90
  {
    assert (date * DAY + 90 * MINUTE) % DAY == 90 * MINUTE by {
      WholeDay(date, 90 * MINUTE);
    }
  }

  lemma WholeDay(date: int, n: int)
    requires 0 <= n < DAY
    ensures (date * DAY + n) % DAY == n
  {
  }
}
