/** The metrics of the weekly-impact scene: the de-duplicated tasks of all
    projects updated in the current Monday-to-Sunday week (local time), their
    totals, their priority histogram, the recency count, and the updates of
    each of the seven days. */
module WeeklyImpact {
  import opened Wrappers
  import opened Tasks
  import opened Counts
  import opened Dedup
  import opened Calendar
  import opened Metrics
  import opened Scenes

  const DAY_LABELS: seq<string> := ["Mon", "Tue", "Wed", "Thu", "Fri", "Sat", "Sun"]

  /** `weekStart`: local midnight of the Monday on or before today, as a
      timestamp. */
  function WeekStart(now: int, tz: int): int
  {
    MondayOf(LocalDay(tz, now)) * DAY_MS - tz
  }

  /** `weekStart` is a local midnight, falls on a Monday, and the week it
      starts holds `now`. */
  lemma WeekStartIsMonday(now: int, tz: int)
    ensures (WeekStart(now, tz) + tz) % DAY_MS == 0
    ensures LocalDay(tz, WeekStart(now, tz)) == MondayOf(LocalDay(tz, now))
    ensures WeekDay(LocalDay(tz, WeekStart(now, tz))) == 1
    ensures WeekStart(now, tz) <= now < WeekStart(now, tz) + 7 * DAY_MS
  {
    var today := LocalDay(tz, now);
    MondayOfIsMonday(today);
    DayOfBounds(now + tz);
    var ws := WeekStart(now, tz);
    assert ws + tz == MondayOf(today) * DAY_MS;
  }

  /** `lo <= updated < hi`. */
  predicate InRange(lo: int, hi: int, t: Task)
  {
    lo <= t.updated < hi
  }

  /** `filter(item => updated >= lo && updated < hi)`. */
  function RangeFilter(s: seq<Task>, lo: int, hi: int): (r: seq<Task>)
    ensures |r| <= |s|
    ensures forall t :: t in r <==> t in s && InRange(lo, hi, t)
  {
    Filter(s, t => InRange(lo, hi, t))
  }

  /** The range filter keeps order: it distributes over concatenation. */
  lemma RangeFilterAppend(a: seq<Task>, b: seq<Task>, lo: int, hi: int)
    ensures RangeFilter(a + b, lo, hi) == RangeFilter(a, lo, hi) + RangeFilter(b, lo, hi)
  {
    FilterAppend(a, b, t => InRange(lo, hi, t));
  }

  /** Adjacent half-open ranges split a range's tasks between them. */
  lemma {:induction false} RangeFilterSplit(s: seq<Task>, lo: int, mid: int, hi: int)
    requires lo <= mid <= hi
    ensures |RangeFilter(s, lo, hi)| == |RangeFilter(s, lo, mid)| + |RangeFilter(s, mid, hi)|
  {
    if s != [] {
      RangeFilterSplit(s[..|s| - 1], lo, mid, hi);
    }
  }

  /** Filtering to a sub-range of an already filtered list is filtering the
      original list to that sub-range. */
  lemma {:induction false} RangeFilterNested(s: seq<Task>, lo: int, hi: int, a: int, b: int)
    requires lo <= a && b <= hi
    ensures RangeFilter(RangeFilter(s, lo, hi), a, b) == RangeFilter(s, a, b)
  {
    if s != [] {
      var p := s[..|s| - 1];
      RangeFilterNested(p, lo, hi, a, b);
      var x := s[|s| - 1];
      if InRange(lo, hi, x) {
        var f := RangeFilter(p, lo, hi) + [x];
        assert f[..|f| - 1] == RangeFilter(p, lo, hi);
      }
    }
  }

  /** The day starts of the week, from Monday: `weekStart + i` days. */
  function WeekDays(weekStart: int): (days: seq<int>)
    ensures |days| == 7
  {
    seq(7, i => weekStart + i * DAY_MS)
  }

  /** The loop that pushes the seven day starts into `daysOfWeek`. */
  method DaysOfWeek(weekStart: int) returns (days: seq<int>)
    ensures days == WeekDays(weekStart)
  {
    days := [];
    for i := 0 to 7
      invariant |days| == i
      invariant forall k :: 0 <= k < i ==> days[k] == weekStart + k * DAY_MS
    {
      days := days + [weekStart + i * DAY_MS];
    }
  }

  /** Day `i` of the week is a local midnight on the weekday that label
      `DAY_LABELS[i]` names (`getDay()` numbering, Sunday 0). */
  lemma WeekDaysAreLabelled(now: int, tz: int, i: nat)
    requires i < 7
    ensures var day := WeekDays(WeekStart(now, tz))[i];
      (day + tz) % DAY_MS == 0 &&
      LocalDay(tz, day) == MondayOf(LocalDay(tz, now)) + i &&
      WeekDay(LocalDay(tz, day)) == (i + 1) % 7
  {
    WeekStartIsMonday(now, tz);
    var monday := MondayOf(LocalDay(tz, now));
    var day := WeekDays(WeekStart(now, tz))[i];
    assert day + tz == (monday + i) * DAY_MS;
    MondayOfWeek(monday, i);
  }

  /** `updatesByDay`: one point per day, labelled Mon to Sun, counting the
      week's tasks updated within that day. */
  function UpdatesByDay(days: seq<int>, tasks: seq<Task>): (r: seq<Point>)
    requires |days| == 7
    ensures |r| == 7
  {
    seq(7, i requires 0 <= i < 7 => Point(DAY_LABELS[i], |RangeFilter(tasks, days[i], days[i] + DAY_MS)|))
  }

  function PointSum(ps: seq<Point>): nat
  {
    if ps == [] then 0 else PointSum(ps[..|ps| - 1]) + ps[|ps| - 1].y
  }

  /** The first `k` daily counts add up to the tasks of the first `k` days. */
  lemma {:induction false} DailyCountsAddUp(tasks: seq<Task>, weekStart: int, k: nat)
    requires k <= 7
    ensures PointSum(UpdatesByDay(WeekDays(weekStart), tasks)[..k]) ==
      |RangeFilter(tasks, weekStart, weekStart + k * DAY_MS)|
  {
    var r := UpdatesByDay(WeekDays(weekStart), tasks);
    if k == 0 {
      RangeFilterSplit(tasks, weekStart, weekStart, weekStart);
    } else {
      DailyCountsAddUp(tasks, weekStart, k - 1);
      assert r[..k][..k - 1] == r[..k - 1];
      var lo := weekStart + (k - 1) * DAY_MS;
      RangeFilterSplit(tasks, weekStart, lo, lo + DAY_MS);
    }
  }

  /** The metrics of the week's tasks, given the seven day starts. */
  function MetricsOfWeek(tasks: seq<Task>, days: seq<int>, now: int): SceneMetrics
    requires |days| == 7
  {
    SceneMetrics(
      TotalStoryPoints(tasks),
      |tasks|,
      RecentCount(tasks, now),
      UpdatesByDay(days, tasks),
      PrioritySlices(TallyFrom([], tasks, ClientPriorityKey)),
      tasks)
  }

  /** The metrics of the tasks updated in the week from `weekStart`. */
  function WeekFrom(unique: seq<Task>, weekStart: int, now: int): SceneMetrics
  {
    MetricsOfWeek(RangeFilter(unique, weekStart, weekStart + 7 * DAY_MS), WeekDays(weekStart), now)
  }

  /** The pure part of the scene's `useMemo`, over the de-duplicated tasks. */
  function WeekMetrics(unique: seq<Task>, now: int, tz: int): SceneMetrics
  {
    WeekFrom(unique, WeekStart(now, tz), now)
  }

  /** The week's metrics, with the day starts pushed by the loop. */
  method WeekMetricsOf(unique: seq<Task>, weekStart: int, now: int) returns (m: SceneMetrics)
    ensures m == WeekFrom(unique, weekStart, now)
  {
    var tasks := RangeFilter(unique, weekStart, weekStart + 7 * DAY_MS);
    var daysOfWeek := DaysOfWeek(weekStart);
    m := MetricsOfWeek(tasks, daysOfWeek, now);
  }

  /** The scene's `useMemo`: nothing while the projects are not loaded;
      otherwise the week metrics of the tasks of all projects, de-duplicated
      across projects. */
  method WeeklyImpactMetrics(projects: Option<seq<seq<Task>>>, now: int, tz: int)
    returns (m: Option<SceneMetrics>)
    ensures projects.None? ==> m.None?
    ensures projects.Some? ==> m == Some(WeekMetrics(Unique(Flatten(projects.value)), now, tz))
  {
    if projects.None? {
      return None;
    }
    var unique := UniqueAcrossProjects(projects.value);
    var weekStart := WeekStart(now, tz);
    var metrics := WeekMetricsOf(unique, weekStart, now);
    m := Some(metrics);
  }

  /** What the weekly totals promise, for the week from any `weekStart`
      (the scene's is `WeekStart(now, tz)`): the table lists exactly the
      de-duplicated tasks updated in the half-open week; the count, story
      points and recency count are over those tasks, so the recency count
      is at most the count; and the pie-chart slices add up to the count.
      The count and story-point clauses only unfold `MetricsOfWeek`; the
      membership, recency bound and slice sum are the properties. */
  lemma WeekCounts(unique: seq<Task>, weekStart: int, now: int)
    ensures var m := WeekFrom(unique, weekStart, now);
      (forall t :: t in m.tasks <==> t in unique && weekStart <= t.updated < weekStart + 7 * DAY_MS) &&
      m.totalSustainabilityBacklog == |m.tasks| &&
      m.totalStoryPoints == TotalStoryPoints(m.tasks) &&
      m.recentlyUpdated <= m.totalSustainabilityBacklog &&
      SliceTotal(m.priorityDistribution) == m.totalSustainabilityBacklog
  {
    var m := WeekFrom(unique, weekStart, now);
    var tasks := RangeFilter(unique, weekStart, weekStart + 7 * DAY_MS);
    assert m.tasks == tasks;
    TallyCounts(tasks, ClientPriorityKey);
    SliceTotalIsTotal(TallyFrom([], tasks, ClientPriorityKey));
    assert SliceTotal(m.priorityDistribution) == |tasks|;
    assert m.recentlyUpdated <= |tasks|;
  }

  /** The daily points add up to the week's count: every task of the week
      falls in exactly one of the seven days. */
  lemma WeekDaily(unique: seq<Task>, weekStart: int, now: int)
    ensures PointSum(WeekFrom(unique, weekStart, now).updateTrend) ==
            WeekFrom(unique, weekStart, now).totalSustainabilityBacklog
  {
    var weekEnd := weekStart + 7 * DAY_MS;
    var tasks := RangeFilter(unique, weekStart, weekEnd);
    var r := UpdatesByDay(WeekDays(weekStart), tasks);
    assert WeekFrom(unique, weekStart, now).updateTrend == r;
    DailyCountsAddUp(tasks, weekStart, 7);
    assert r[..7] == r;
    RangeFilterNested(unique, weekStart, weekEnd, weekStart, weekEnd);
  }

  /** There are seven daily points, labelled Mon to Sun in that order. This
      unfolds the labels of `UpdatesByDay`; it is not a property of the
      counts. */
  lemma WeekDayLabels(unique: seq<Task>, weekStart: int, now: int)
    ensures |WeekFrom(unique, weekStart, now).updateTrend| == 7
    ensures forall i :: 0 <= i < 7 ==> WeekFrom(unique, weekStart, now).updateTrend[i].x == DAY_LABELS[i]
  {
  }

  /** The daily buckets do not overlap: a timestamp lies in at most one of
      the seven days. */
  lemma DaysDisjoint(weekStart: int, i: nat, j: nat, t: Task)
    requires i < j < 7
    ensures !(InRange(WeekDays(weekStart)[i], WeekDays(weekStart)[i] + DAY_MS, t) &&
              InRange(WeekDays(weekStart)[j], WeekDays(weekStart)[j] + DAY_MS, t))
  {
    var days := WeekDays(weekStart);
    assert days[i] + DAY_MS <= days[j];
  }
}
