/**
 ISO 8601 weeks as the delivery metrics compute them (sections 2.2.10 and 4.1.4 of ISO 8601:2004).
 Days are counted from Monday, 1 January of year 1; instants are milliseconds from its first moment, UTC.
 */
module IsoWeeks {
  import opened Lists

  const DAY_MS: int := 86_400_000

  predicate IsLeap(y: int) { y % 4 == 0 && (y % 100 != 0 || y % 400 == 0) }

  function YearLength(y: int): int { if IsLeap(y) then 366 else 365 }

  /** The day number of 1 January. */
  function Jan1(y: int): int {
    365 * (y - 1) + (y - 1) / 4 - (y - 1) / 100 + (y - 1) / 400
  }

  lemma NextStep(k: int)
    ensures k / 4 - (k - 1) / 4 == if k % 4 == 0 then 1 else 0
    ensures k / 100 - (k - 1) / 100 == if k % 100 == 0 then 1 else 0
    ensures k / 400 - (k - 1) / 400 == if k % 400 == 0 then 1 else 0
  {
  }

  lemma YearsFollow(y: int)
    ensures Jan1(y + 1) == Jan1(y) + YearLength(y)
  {
    NextStep(y);
    assert y % 400 == 0 ==> y % 100 == 0 && y % 4 == 0;
    assert y % 100 == 0 ==> y % 4 == 0;
  }

  lemma {:induction false} YearsOrdered(y: int, z: int)
    requires y <= z
    ensures Jan1(y) + 365 * (z - y) <= Jan1(z)
    decreases z - y
  {
    if y < z {
      YearsFollow(z - 1);
      YearsOrdered(y, z - 1);
    }
  }

  function YearFrom(y: int, day: int): (r: int)
    requires Jan1(y) <= day
    ensures Jan1(r) <= day < Jan1(r + 1)
    decreases day - Jan1(y)
  {
    YearsFollow(y);
    if day < Jan1(y + 1) then y else YearFrom(y + 1, day)
  }

  /** `getUTCFullYear` of a day. */
  function YearOf(day: int): (y: int)
    ensures Jan1(y) <= day < Jan1(y + 1)
  {
    YearFrom(if day >= 0 then day / 366 + 1 else day / 365 + 1, day)
  }

  lemma YearIsUnique(day: int, y: int)
    requires Jan1(y) <= day < Jan1(y + 1)
    ensures YearOf(day) == y
  {
    var z := YearOf(day);
    if z < y { YearsOrdered(z + 1, y); }
    if y < z { YearsOrdered(y + 1, z); }
  }

  /** `getUTCDay() || 7`: Monday is 1, Sunday is 7. */
  function DayNum(day: int): int { day % 7 + 1 }

  function DayOf(t: int): int { t / DAY_MS }

  datatype Week = Week(year: int, number: int)

  function CeilDiv7(n: int): int { (n + 6) / 7 }

  /** The Thursday of a day's week. */
  function ThursdayOf(day: int): int { day + 4 - DayNum(day) }

  /** The ISO week of a day: the Thursday of its week names the year. */
  function CalendarWeek(day: int): Week {
    var thursday := ThursdayOf(day);
    var year := YearOf(thursday);
    Week(year, CeilDiv7(thursday - Jan1(year) + 1))
  }

  /** `Date.UTC` takes the years 0 to 99 for 1900 to 1999. */
  function UtcYear(y: int): int { if 0 <= y <= 99 then 1900 + y else y }

  /**
   `Date.UTC` of a day's own year, month and date. Year 0 is a leap year and 1900 is none: from 29 February on, its days
   land a day earlier in the year.
   */
  function UtcCopy(day: int): int {
    var y := YearOf(day);
    var n := day - Jan1(y);
    Jan1(UtcYear(y)) + if y == 0 && n >= 60 then n - 1 else n
  }

  /** The week a Thursday is given, with `Date.UTC` as it is. */
  function WeekOfThursday(thursday: int): Week {
    Week(YearOf(thursday), CeilDiv7(thursday - Jan1(UtcYear(YearOf(thursday))) + 1))
  }

  /** `isoWeekOf` on a day. */
  function IsoWeekOfDay(day: int): Week { WeekOfThursday(ThursdayOf(UtcCopy(day))) }

  function IsoWeekOf(t: int): Week { IsoWeekOfDay(DayOf(t)) }

  /** The day, or the Thursday of its week, falls in one of the years `Date.UTC` reads as 1900 to 1999. */
  predicate Affected(day: int) {
    0 <= YearOf(day) <= 99 || 0 <= YearOf(ThursdayOf(day)) <= 99
  }

  // ----- the calendar of weeks -----

  /** The Monday nearest to day `j`: the one of the week holding the third day after it. */
  function MondayNear(j: int): int { j + 3 - (j + 3) % 7 }

  /** The Monday of the week holding 4 January. */
  function FirstMonday(y: int): int { MondayNear(Jan1(y)) }

  /** A year has 53 weeks when it starts on a Thursday, or is a leap year starting on a Wednesday. */
  function WeeksIn(y: int): int {
    if DayNum(Jan1(y)) == 4 || (IsLeap(y) && DayNum(Jan1(y)) == 3) then 53 else 52
  }

  lemma MondaysApart(j: int, len: int)
    requires len == 365 || len == 366
    ensures MondayNear(j + len) == MondayNear(j) + 7 * if j % 7 == 3 || (len == 366 && j % 7 == 2) then 53 else 52
  {
    var q, r := (j + 3) / 7, (j + 3) % 7;
    assert j == 7 * q + r - 3 && 0 <= r < 7;
  }

  lemma WeeksFillTheYear(y: int)
    ensures FirstMonday(y + 1) == FirstMonday(y) + 7 * WeeksIn(y)
  {
    YearsFollow(y);
    MondaysApart(Jan1(y), YearLength(y));
  }

  /** The Thursday of a day's week falls on or after `j` exactly when the day falls on or after the Monday near `j`. */
  lemma ThursdayDecides(j: int, day: int)
    ensures var thursday := day - day % 7 + 3; j <= thursday <==> MondayNear(j) <= day
  {
    var q, r, s := (j + 3) / 7, (j + 3) % 7, day / 7;
    assert j + 3 == 7 * q + r && 0 <= r < 7 && day == 7 * s + day % 7;
  }

  lemma ThursdayCounts(j: int, day: int)
    ensures var thursday := day - day % 7 + 3; CeilDiv7(thursday - j + 1) == (day - MondayNear(j)) / 7 + 1
  {
    var q, r, s := (j + 3) / 7, (j + 3) % 7, day / 7;
    assert j + 3 == 7 * q + r && 0 <= r < 7 && day == 7 * s + day % 7;
    assert day - day % 7 + 3 - j + 1 + 6 == 7 * (s - q + 1) + (6 - r);
  }

  /** The days from one year's first Monday to the next one's are numbered by sevens. */
  lemma WeekOfDay(day: int, y: int)
    requires FirstMonday(y) <= day < FirstMonday(y + 1)
    ensures CalendarWeek(day) == Week(y, (day - FirstMonday(y)) / 7 + 1)
  {
    var thursday := day - day % 7 + 3;
    ThursdayDecides(Jan1(y), day);
    ThursdayDecides(Jan1(y + 1), day);
    YearIsUnique(thursday, y);
    ThursdayCounts(Jan1(y), day);
  }

  /** Some ISO year holds the day. */
  function IsoYearOf(day: int): (y: int)
    ensures FirstMonday(y) <= day < FirstMonday(y + 1)
  {
    var y := YearOf(day);
    YearsFollow(y - 1);
    YearsFollow(y);
    YearsFollow(y + 1);
    if day < FirstMonday(y) then y - 1 else if day >= FirstMonday(y + 1) then y + 1 else y
  }

  predicate Exists(w: Week) { 1 <= w.number <= WeeksIn(w.year) }

  /** The Monday a week starts on. */
  function StartOf(w: Week): int { FirstMonday(w.year) + (w.number - 1) * 7 }

  lemma Sevens(d: int, k: int)
    ensures d / 7 == k <==> 7 * k <= d < 7 * k + 7
  {
  }

  lemma SevenDaysLieIn(first: int, number: int, weeks: int, day: int)
    requires 1 <= number <= weeks && first + (number - 1) * 7 <= day < first + (number - 1) * 7 + 7
    ensures first <= day < first + 7 * weeks && (day - first) / 7 + 1 == number
  {
    Sevens(day - first, number - 1);
  }

  /** The days named by an existing week are exactly its seven. */
  lemma WeekNamesItsDays(w: Week, day: int)
    requires Exists(w)
    ensures CalendarWeek(day) == w <==> StartOf(w) <= day < StartOf(w) + 7
  {
    if StartOf(w) <= day < StartOf(w) + 7 {
      SevenDaysLieIn(FirstMonday(w.year), w.number, WeeksIn(w.year), day);
      WeeksFillTheYear(w.year);
      WeekOfDay(day, w.year);
    }
    if CalendarWeek(day) == w {
      NamedDayIsIn(w, day);
    }
  }

  lemma NamedDayIsIn(w: Week, day: int)
    requires CalendarWeek(day) == w
    ensures StartOf(w) <= day < StartOf(w) + 7
  {
    WeekOfDay(day, IsoYearOf(day));
    Sevens(day - FirstMonday(w.year), w.number - 1);
  }

  /** Every day lies in a week that exists. */
  lemma EveryDayHasAWeek(day: int)
    ensures Exists(CalendarWeek(day))
  {
    var y := IsoYearOf(day);
    WeekOfDay(day, y);
    WeeksFillTheYear(y);
  }

  // ----- the years Date.UTC misreads -----

  lemma YearAtLeast(day: int, y: int)
    requires Jan1(y) <= day
    ensures y <= YearOf(day)
  {
    if YearOf(day) < y { YearsOrdered(YearOf(day) + 1, y); }
  }

  lemma YearBelow(day: int, y: int)
    requires day < Jan1(y)
    ensures YearOf(day) < y
  {
    if y <= YearOf(day) { YearsOrdered(y, YearOf(day)); }
  }

  lemma CopyIsModern(day: int)
    requires 0 <= YearOf(day) <= 99
    ensures Jan1(1900) <= UtcCopy(day)
  {
    YearsOrdered(1900, UtcYear(YearOf(day)));
  }

  /** The Thursday of a week stands within three days of each of its days. */
  lemma ThursdayNear(day: int)
    ensures day - 3 <= ThursdayOf(day) <= day + 3
  {
  }

  lemma MisreadYear(day: int)
    requires 0 <= YearOf(day) <= 99
    ensures IsoWeekOfDay(day).year >= 1899 && CalendarWeek(day).year <= 100
  {
    CopyIsModern(day);
    ThursdayNear(UtcCopy(day));
    YearsOrdered(1899, 1900);
    YearAtLeast(ThursdayOf(UtcCopy(day)), 1899);
    YearsOrdered(YearOf(day) + 1, 100);
    YearsOrdered(100, 101);
    ThursdayNear(day);
    YearBelow(ThursdayOf(day), 101);
  }

  lemma FarBehind(thursday: int, next: int, j: int)
    requires thursday < next && next + 365 <= j
    ensures CeilDiv7(thursday - j + 1) < 1
  {
  }

  lemma AYearApart(y: int, z: int)
    requires y < z
    ensures Jan1(y) + 365 <= Jan1(z)
  {
    YearsOrdered(y, z);
  }

  lemma CopyIsPlain(day: int)
    requires !(0 <= YearOf(day) <= 99)
    ensures UtcCopy(day) == day
  {
  }

  lemma NineteenCenturiesOn(thursday: int)
    requires 0 <= YearOf(thursday) <= 99
    ensures WeekOfThursday(thursday).number < 1
  {
    var y := YearOf(thursday);
    AYearApart(y + 1, 1900 + y);
    FarBehind(thursday, Jan1(y + 1), Jan1(1900 + y));
  }

  lemma MisreadNumber(day: int)
    requires !(0 <= YearOf(day) <= 99) && 0 <= YearOf(ThursdayOf(day)) <= 99
    ensures IsoWeekOfDay(day).number < 1
  {
    CopyIsPlain(day);
    NineteenCenturiesOn(ThursdayOf(day));
  }

  lemma PlainIsNamedRightly(day: int)
    requires !Affected(day)
    ensures IsoWeekOfDay(day) == CalendarWeek(day)
  {
    CopyIsPlain(day);
  }

  /** `isoWeekOf` names a day's ISO week exactly when `Date.UTC` does not misread a year on the way. */
  lemma NamedRightlyIff(day: int)
    ensures IsoWeekOfDay(day) == CalendarWeek(day) <==> !Affected(day)
  {
    if 0 <= YearOf(day) <= 99 {
      MisreadYear(day);
    } else if Affected(day) {
      MisreadNumber(day);
      EveryDayHasAWeek(day);
    } else {
      PlainIsNamedRightly(day);
    }
  }

  lemma ModernIsUnaffected(day: int)
    requires Jan1(101) <= day
    ensures !Affected(day)
  {
    YearsOrdered(100, 101);
    YearAtLeast(day, 101);
    ThursdayNear(day);
    YearAtLeast(ThursdayOf(day), 100);
  }

  // ----- weekBoundaries -----

  datatype Window = Window(from: int, to: int)

  /** The label printed for `w` is the one asked for: the year is not padded, so four digits mean at least 1000. */
  predicate SameLabel(w: Week, asked: Week) { w == asked && asked.year >= 1000 }

  /** `weekBoundaries`, once the label `YYYY-Www` is read as two numbers. */
  method WeekBoundaries(asked: Week) returns (window: Option<Window>)
    requires 0 <= asked.year <= 9999 && 0 <= asked.number <= 99
    ensures window.Some? <==> asked.year >= 1000 && Exists(asked)
    ensures window.Some? ==> window.value == Window(StartOf(asked) * DAY_MS, (StartOf(asked) + 7) * DAY_MS)
  {
    if asked.number < 1 || asked.number > 53 { return None; }
    var jan4 := Jan1(UtcYear(asked.year)) + 3;
    var jan4Day := DayNum(jan4);
    var monday := jan4;
    monday := jan4 - (jan4Day - 1);
    var from := monday;
    from := monday + (asked.number - 1) * 7;
    var to := from + 7;
    var y := UtcYear(asked.year);
    assert from == StartOf(Week(y, asked.number));
    LabelMatchesIff(y, asked.number, from);
    DayStart(from);
    if asked.year >= 1000 { LateWeekIsNamedRightly(y, asked.number, from); }
    if !SameLabel(IsoWeekOf(from * DAY_MS), asked) { return None; }
    window := Some(Window(from * DAY_MS, to * DAY_MS));
  }

  lemma DayStart(day: int)
    ensures DayOf(day * DAY_MS) == day
  {
  }

  /** The Monday computed for a week number up to 53 carries that number exactly when the week exists. */
  lemma LabelMatchesIff(y: int, number: int, from: int)
    requires 1 <= number <= 53 && from == StartOf(Week(y, number))
    ensures CalendarWeek(from) == Week(y, number) <==> Exists(Week(y, number))
    ensures CalendarWeek(from).year == y || CalendarWeek(from).year == y + 1
  {
    WeeksFillTheYear(y);
    WeeksFillTheYear(y + 1);
    if number <= WeeksIn(y) {
      WeekOfDay(from, y);
    } else {
      assert from == FirstMonday(y + 1);
      WeekOfDay(from, y + 1);
    }
  }

  lemma LateWeekIsNamedRightly(y: int, number: int, from: int)
    requires y >= 1000 && number >= 1 && from == StartOf(Week(y, number))
    ensures IsoWeekOfDay(from) == CalendarWeek(from)
  {
    YearsOrdered(101, 1000);
    YearsOrdered(1000, y);
    ModernIsUnaffected(from);
    NamedRightlyIff(from);
  }

  /** The window of an existing week. */
  function WindowOf(w: Week): Window { Window(StartOf(w) * DAY_MS, (StartOf(w) + 7) * DAY_MS) }

  predicate InWindow(t: int, from: int, to: int) { from <= t < to }

  lemma WholeWeeks(x: int, k: int)
    ensures (x - x % 7 + 7 * k) % 7 == 0
  {
    var q := x / 7;
    assert x - x % 7 + 7 * k == 7 * (q + k);
  }

  lemma StartsOnMonday(w: Week)
    ensures DayNum(StartOf(w)) == 1 && DayNum(StartOf(w) + 7) == 1
  {
    WholeWeeks(Jan1(w.year) + 3, w.number - 1);
    WholeWeeks(Jan1(w.year) + 3, w.number);
  }

  /**
   Outside the years `Date.UTC` misreads, `isoWeekOf(t)` is the week exactly when `t` lies in its window, which runs
   from Monday to Monday.
   */
  lemma WindowNamesItsInstants(w: Week, t: int)
    requires Exists(w) && !Affected(DayOf(t))
    ensures IsoWeekOf(t) == w <==> InWindow(t, WindowOf(w).from, WindowOf(w).to)
    ensures DayNum(DayOf(WindowOf(w).from)) == 1 && DayNum(DayOf(WindowOf(w).to)) == 1
  {
    NamedRightlyIff(DayOf(t));
    WeekNamesItsDays(w, DayOf(t));
    StartsOnMonday(w);
    DayStart(StartOf(w));
    DayStart(StartOf(w) + 7);
    DayBound(t, StartOf(w));
    DayBound(t, StartOf(w) + 7);
  }

  lemma DayBound(t: int, day: int)
    ensures day <= DayOf(t) <==> day * DAY_MS <= t
  {
  }

  function NextWeek(w: Week): Week {
    if w.number < WeeksIn(w.year) then Week(w.year, w.number + 1) else Week(w.year + 1, 1)
  }

  /** Consecutive weeks exist and their windows abut. */
  lemma WindowsAbut(w: Week)
    requires Exists(w)
    ensures Exists(NextWeek(w)) && WindowOf(NextWeek(w)).from == WindowOf(w).to
  {
    WeeksFillTheYear(w.year);
  }

  /** `previousIsoWeek`: the week before the one `now` lies in, closed by then. */
  lemma PreviousWeekIsClosed(now: int)
    requires !Affected(DayOf(now)) && !Affected(DayOf(now - 7 * DAY_MS))
    ensures var previous := IsoWeekOf(now - 7 * DAY_MS);
            Exists(previous) && NextWeek(previous) == IsoWeekOf(now) && WindowOf(previous).to <= now
  {
    var previous := IsoWeekOf(now - 7 * DAY_MS);
    EveryDayHasAWeek(DayOf(now - 7 * DAY_MS));
    NamedRightlyIff(DayOf(now - 7 * DAY_MS));
    WindowNamesItsInstants(previous, now - 7 * DAY_MS);
    WindowsAbut(previous);
    WindowNamesItsInstants(NextWeek(previous), now);
  }

  /** The first Mondays of the ISO years 2020 and 2021: 30 December 2019 and 4 January 2021. */
  lemma MondaysAround2020()
    ensures Jan1(2021) == 737790 && FirstMonday(2020) == 737422 && FirstMonday(2021) == 737793
    ensures Exists(Week(2020, 53)) && Exists(Week(2021, 1))
    ensures StartOf(Week(2020, 53)) == 737786 && StartOf(Week(2021, 1)) == 737793
  {
    WeeksFillTheYear(2020);
    WeeksFillTheYear(2021);
  }

  lemma ModernDay(day: int)
    requires day == 737792 || day == 737793
    ensures IsoWeekOfDay(day) == CalendarWeek(day)
  {
    MondaysAround2020();
    YearsOrdered(101, 2021);
    ModernIsUnaffected(day);
    NamedRightlyIff(day);
  }

  /** A day lasts 86,400,000 milliseconds. */
  lemma InstantOfDay(day: int, ms: int)
    requires 0 <= ms < 86_400_000
    ensures DayOf(day * 86_400_000 + ms) == day
  {
  }

  /** 2020 has 53 weeks: 3 January 2021 is a Sunday and still in its last one. */
  lemma TurnOf2020(sunday: int, monday: int, ms: int)
    requires sunday == Jan1(2021) + 2 && monday == sunday + 1 && 0 <= ms < 86_400_000
    ensures DayNum(sunday) == 7 && DayNum(monday) == 1
    ensures IsoWeekOf(sunday * 86_400_000 + ms) == Week(2020, 53)
    ensures IsoWeekOf(monday * 86_400_000 + ms) == Week(2021, 1)
  {
    MondaysAround2020();
    ModernDay(sunday);
    ModernDay(monday);
    WeekNamesItsDays(Week(2020, 53), sunday);
    WeekNamesItsDays(Week(2021, 1), monday);
    InstantOfDay(sunday, ms);
    InstantOfDay(monday, ms);
  }

  // ----- counting over windows -----

  datatype Commit = Commit(timestamp: int, kind: Option<string>)

  /** `computeDeployFrequency` */
  function DeployFrequency(commits: seq<Commit>, from: int, to: int): (n: nat) {
    if commits == [] then 0
    else (if InWindow(commits[0].timestamp, from, to) then 1 else 0) + DeployFrequency(commits[1..], from, to)
  }

  lemma {:induction false} CountsAdd(commits: seq<Commit>, from: int, middle: int, to: int)
    requires from <= middle <= to
    ensures DeployFrequency(commits, from, middle) + DeployFrequency(commits, middle, to)
            == DeployFrequency(commits, from, to)
  {
    if commits != [] { CountsAdd(commits[1..], from, middle, to); }
  }

  function WeekAfter(w: Week, n: nat): Week {
    if n == 0 then w else NextWeek(WeekAfter(w, n - 1))
  }

  /** The weekly counts of `n` weeks, the first one `w`. */
  function WeeklyTotal(commits: seq<Commit>, w: Week, n: nat): nat {
    if n == 0 then 0
    else
      WeeklyTotal(commits, w, n - 1)
      + DeployFrequency(commits, WindowOf(WeekAfter(w, n - 1)).from, WindowOf(WeekAfter(w, n - 1)).to)
  }

  /** Weekly deploy counts over any stretch of weeks add up to the count over the whole stretch. */
  lemma {:induction false} WeeklyCountsAddUp(commits: seq<Commit>, w: Week, n: nat)
    requires Exists(w)
    ensures Exists(WeekAfter(w, n)) && WindowOf(w).from <= WindowOf(WeekAfter(w, n)).from
    ensures WeeklyTotal(commits, w, n) == DeployFrequency(commits, WindowOf(w).from, WindowOf(WeekAfter(w, n)).from)
  {
    if n == 0 {
      NothingInEmpty(commits, WindowOf(w).from);
    } else {
      WeeklyCountsAddUp(commits, w, n - 1);
      var last := WeekAfter(w, n - 1);
      WindowsAbut(last);
      CountsAdd(commits, WindowOf(w).from, WindowOf(last).from, WindowOf(last).to);
    }
  }

  lemma {:induction false} NothingInEmpty(commits: seq<Commit>, at: int)
    ensures DeployFrequency(commits, at, at) == 0
  {
    if commits != [] { NothingInEmpty(commits[1..], at); }
  }

  predicate Counts(c: Commit, from: int, to: int, kind: string) {
    InWindow(c.timestamp, from, to) && c.kind == Some(kind)
  }

  function KindCount(commits: seq<Commit>, from: int, to: int, kind: string): (n: nat) {
    if commits == [] then 0
    else KindCount(commits[..|commits| - 1], from, to, kind)
         + if Counts(commits[|commits| - 1], from, to, kind) then 1 else 0
  }

  /** `computeFixToFeatRatio`: no ratio when there are no feats. */
  method FixToFeatRatio(commits: seq<Commit>, from: int, to: int) returns (fixes: nat, feats: nat, ratio: Option<real>)
    ensures fixes == KindCount(commits, from, to, "fix") && feats == KindCount(commits, from, to, "feat")
    ensures ratio == if feats == 0 then None else Some(fixes as real / feats as real)
  {
    fixes, feats := 0, 0;
    for i := 0 to |commits|
      invariant fixes == KindCount(commits[..i], from, to, "fix")
      invariant feats == KindCount(commits[..i], from, to, "feat")
    {
      assert commits[..i + 1][..i] == commits[..i];
      if InWindow(commits[i].timestamp, from, to) {
        if commits[i].kind == Some("fix") { fixes := fixes + 1; }
        else if commits[i].kind == Some("feat") { feats := feats + 1; }
      }
    }
    assert commits[..|commits|] == commits;
    ratio := if feats == 0 then None else Some(fixes as real / feats as real);
  }

  // ----- what the counts are -----

  /** The commits of the list, by place, made from `from` on and before `to`. */
  ghost function DeployedIn(commits: seq<Commit>, from: int, to: int): set<int> {
    set i | 0 <= i < |commits| && from <= commits[i].timestamp < to
  }

  ghost function OfKindIn(commits: seq<Commit>, from: int, to: int, kind: string): set<int> {
    set i | 0 <= i < |commits| && from <= commits[i].timestamp < to && commits[i].kind == Some(kind)
  }

  lemma {:induction false} FrequencyOfMore(commits: seq<Commit>, c: Commit, from: int, to: int)
    ensures DeployFrequency(commits + [c], from, to)
         == DeployFrequency(commits, from, to) + if from <= c.timestamp < to then 1 else 0
  {
    if commits == [] {
      assert [] + [c] == [c] && [c][1..] == [];
    } else {
      assert (commits + [c])[1..] == commits[1..] + [c];
      FrequencyOfMore(commits[1..], c, from, to);
    }
  }

  /** The deploy frequency is the number of commits in the window. */
  lemma {:induction false} FrequencyIsCount(commits: seq<Commit>, from: int, to: int)
    ensures DeployFrequency(commits, from, to) == |DeployedIn(commits, from, to)|
  {
    if commits != [] {
      var n := |commits| - 1;
      var rest := commits[..n];
      FrequencyIsCount(rest, from, to);
      assert commits == rest + [commits[n]];
      FrequencyOfMore(rest, commits[n], from, to);
      assert DeployedIn(commits, from, to)
          == DeployedIn(rest, from, to) + if from <= commits[n].timestamp < to then {n} else {};
    }
  }

  /** The fixes and feats counted are the commits of that kind in the window. */
  lemma {:induction false} KindCountIsCount(commits: seq<Commit>, from: int, to: int, kind: string)
    ensures KindCount(commits, from, to, kind) == |OfKindIn(commits, from, to, kind)|
  {
    if commits != [] {
      var n := |commits| - 1;
      var rest := commits[..n];
      KindCountIsCount(rest, from, to, kind);
      assert OfKindIn(commits, from, to, kind)
          == OfKindIn(rest, from, to, kind)
             + if from <= commits[n].timestamp < to && commits[n].kind == Some(kind) then {n} else {};
    }
  }
}
