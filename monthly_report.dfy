/** The metrics of the monthly-report scene: the de-duplicated tasks of all
    projects updated in the current calendar month, their totals, their
    priority histogram, the recency count, and the updates per ISO week
    sorted by year and week. */
module MonthlyReport {
  import opened Wrappers
  import opened Tasks
  import opened Text
  import opened Counts
  import opened Dedup
  import opened Calendar
  import opened Metrics
  import opened Scenes

  /** `updatedDate.getMonth() === currentMonth && getFullYear() === currentYear`
      in local time. */
  predicate InMonth(now: int, tz: int, t: Task)
  {
    var d, today := LocalDay(tz, t.updated), LocalDay(tz, now);
    YearOf(d) == YearOf(today) && MonthOf(d) == MonthOf(today)
  }

  /** `uniqueTasks.filter(...)` with the month test. */
  function MonthFilter(s: seq<Task>, now: int, tz: int): (r: seq<Task>)
    ensures |r| <= |s|
    ensures forall t :: t in r <==> t in s && InMonth(now, tz, t)
  {
    Filter(s, t => InMonth(now, tz, t))
  }

  /** The month filter keeps order: it distributes over concatenation. */
  lemma MonthFilterAppend(a: seq<Task>, b: seq<Task>, now: int, tz: int)
    ensures MonthFilter(a + b, now, tz) == MonthFilter(a, now, tz) + MonthFilter(b, now, tz)
  {
    FilterAppend(a, b, t => InMonth(now, tz, t));
  }

  /** The month test is an interval test: a task is kept exactly when its
      local timestamp lies between local midnight on the first day of the
      current month and local midnight on the first day of the next. */
  lemma InMonthIsInterval(now: int, tz: int, t: Task)
    ensures var today := LocalDay(tz, now);
      var y, m := YearOf(today), MonthOf(today);
      InMonth(now, tz, t) <==>
        MonthStart(y, m) * DAY_MS <= t.updated + tz < MonthStart(y, m + 1) * DAY_MS
  {
    var today := LocalDay(tz, now);
    var d := LocalDay(tz, t.updated);
    SameMonthIsInterval(d, today);
    DayOfBounds(t.updated + tz);
    var lo, hi := MonthStart(YearOf(today), MonthOf(today)), MonthStart(YearOf(today), MonthOf(today) + 1);
    assert lo <= d < hi <==> lo * DAY_MS <= t.updated + tz < hi * DAY_MS;
  }

  /** The trend label of an ISO week, `W${week} ${year}`. */
  function WeekLabel(week: int, year: int): string
  {
    "W" + IntToString(week) + " " + IntToString(year)
  }

  /** The trend label of a task's ISO week, computed on its local date. */
  function WeekKey(tz: int, t: Task): string
  {
    var w := IsoWeekOf(LocalDay(tz, t.updated));
    WeekLabel(w.week, w.year)
  }

  function WeekKeyOf(tz: int): Task -> string
  {
    t => WeekKey(tz, t)
  }

  /** `updatesByWeek`: the number of month-filtered tasks per week label. */
  function WeekBuckets(tasks: seq<Task>, tz: int): Tally
  {
    TallyFrom([], tasks, WeekKeyOf(tz))
  }

  /** `a.x.split(' ')` destructured as `[w, y]`: the first piece, and the
      second when there is one (`undefined` otherwise). */
  function LabelFields(text: string): (string, Option<string>)
  {
    var parts := Split(text, ' ');
    (parts[0], if |parts| > 1 then Some(parts[1]) else None)
  }

  /** `s.slice(1)`. */
  function DropFirst(s: string): string
  {
    if s == [] then [] else s[1..]
  }

  /** `parseInt(y)` for a piece that may be `undefined` (which parses to NaN). */
  function ParseField(y: Option<string>): Option<int>
  {
    match y
    case None => None
    case Some(s) => ParseInt(s)
  }

  /** The difference of two `parseInt` results; a NaN operand makes the
      comparator return NaN, which `sort` reads as +0. */
  function Difference(a: Option<int>, b: Option<int>): int
  {
    if a.Some? && b.Some? then a.value - b.value else 0
  }

  /** The sort comparator: equal year strings compare by week number,
      otherwise by year. */
  function TrendCompare(a: string, b: string): (r: int)
    ensures a == b ==> r == 0
  {
    var (aW, aY) := LabelFields(a);
    var (bW, bY) := LabelFields(b);
    if aY == bY then Difference(ParseInt(DropFirst(aW)), ParseInt(DropFirst(bW)))
    else Difference(ParseField(aY), ParseField(bY))
  }

  /** Reading a label back: its week and year, when it has the label's shape. */
  function ParseWeekLabel(text: string): Option<IsoWeek>
  {
    var (w, y) := LabelFields(text);
    if w == [] || w[0] != 'W' then None
    else match (ParseInt(w[1..]), ParseField(y))
      case (Some(week), Some(year)) => Some(IsoWeek(week, year))
      case _ => None
  }

  lemma LabelFieldsOfWeekLabel(week: int, year: int)
    ensures LabelFields(WeekLabel(week, year)) == ("W" + IntToString(week), Some(IntToString(year)))
  {
    IntToStringAvoids(week, ' ');
    IntToStringAvoids(year, ' ');
    var a := "W" + IntToString(week);
    assert ' ' !in a;
    assert WeekLabel(week, year) == a + [' '] + IntToString(year);
    SplitFirst(a, ' ', IntToString(year));
    SplitNoSeparator(IntToString(year), ' ');
  }

  /** Every label the scene builds parses back to its week and year. */
  lemma WeekLabelRoundTrip(week: int, year: int)
    ensures ParseWeekLabel(WeekLabel(week, year)) == Some(IsoWeek(week, year))
  {
    LabelFieldsOfWeekLabel(week, year);
    IntToStringRoundTrip(week);
    IntToStringRoundTrip(year);
    assert ("W" + IntToString(week))[1..] == IntToString(week);
  }

  /** The comparator is antisymmetric: swapping its arguments negates it. */
  lemma TrendCompareAntisymmetric(a: string, b: string)
    ensures TrendCompare(b, a) == -TrendCompare(a, b)
  {
  }

  /** On labels the scene builds, the comparator orders by year and then by
      week. */
  lemma TrendCompareOnLabels(w1: int, y1: int, w2: int, y2: int)
    ensures TrendCompare(WeekLabel(w1, y1), WeekLabel(w2, y2)) ==
      if y1 == y2 then w1 - w2 else y1 - y2
  {
    LabelFieldsOfWeekLabel(w1, y1);
    LabelFieldsOfWeekLabel(w2, y2);
    IntToStringRoundTrip(w1);
    IntToStringRoundTrip(w2);
    IntToStringRoundTrip(y1);
    IntToStringRoundTrip(y2);
    assert DropFirst("W" + IntToString(w1)) == IntToString(w1);
    assert DropFirst("W" + IntToString(w2)) == IntToString(w2);
    if IntToString(y1) == IntToString(y2) {
      IntToStringInjective(y1, y2);
    }
  }

  /** A label in the scene's own format: it parses, and printing what it
      parses to gives it back. */
  predicate Canonical(text: string)
  {
    ParseWeekLabel(text).Some? &&
    text == WeekLabel(ParseWeekLabel(text).value.week, ParseWeekLabel(text).value.year)
  }

  /** `(year, week)` of `a` is at most that of `b`, lexicographically. */
  predicate KeyLe(a: IsoWeek, b: IsoWeek)
  {
    a.year < b.year || (a.year == b.year && a.week <= b.week)
  }

  /** The comparator says `a` may stay before `b` exactly when `a`'s week
      is not later. */
  lemma CompareIsKeyOrder(a: string, b: string)
    requires Canonical(a) && Canonical(b)
    ensures TrendCompare(a, b) <= 0 <==> KeyLe(ParseWeekLabel(a).value, ParseWeekLabel(b).value)
  {
    var ka, kb := ParseWeekLabel(a).value, ParseWeekLabel(b).value;
    TrendCompareOnLabels(ka.week, ka.year, kb.week, kb.year);
  }

  /** One step of a stable insertion sort under comparator `cmp`: `p` goes
      after the last point that `cmp` does not put after it. */
  function InsertBy(sorted: seq<Point>, p: Point, cmp: (string, string) -> int): seq<Point>
  {
    if sorted == [] then [p]
    else
      var last := sorted[|sorted| - 1];
      if cmp(last.x, p.x) <= 0 then sorted + [p]
      else InsertBy(sorted[..|sorted| - 1], p, cmp) + [last]
  }

  /** `points.sort(cmp)`, stable. */
  function SortBy(ps: seq<Point>, cmp: (string, string) -> int): seq<Point>
  {
    if ps == [] then [] else InsertBy(SortBy(ps[..|ps| - 1], cmp), ps[|ps| - 1], cmp)
  }

  /** `cmp` orders the labels `dom` admits by their keys: it lets `a` stay
      before `b` exactly when the key of `a` is at most that of `b`. */
  ghost predicate OrdersByKey(dom: string -> bool, cmp: (string, string) -> int, key: string -> IsoWeek)
  {
    forall a, b :: dom(a) && dom(b) ==> (cmp(a, b) <= 0 <==> KeyLe(key(a), key(b)))
  }

  predicate AllIn(ps: seq<Point>, dom: string -> bool)
  {
    forall i :: 0 <= i < |ps| ==> dom(ps[i].x)
  }

  /** Ascending by key. */
  predicate SortedByKey(ps: seq<Point>, key: string -> IsoWeek)
  {
    forall i, j :: 0 <= i < j < |ps| ==> KeyLe(key(ps[i].x), key(ps[j].x))
  }

  lemma {:induction false} InsertByPermutes(sorted: seq<Point>, p: Point, cmp: (string, string) -> int)
    ensures multiset(InsertBy(sorted, p, cmp)) == multiset(sorted) + multiset{p}
  {
    if sorted != [] {
      var last := sorted[|sorted| - 1];
      assert sorted == sorted[..|sorted| - 1] + [last];
      if cmp(last.x, p.x) > 0 {
        InsertByPermutes(sorted[..|sorted| - 1], p, cmp);
      }
    }
  }

  /** Sorting only reorders the points. */
  lemma {:induction false} SortByPermutes(ps: seq<Point>, cmp: (string, string) -> int)
    ensures multiset(SortBy(ps, cmp)) == multiset(ps)
  {
    if ps != [] {
      var prefix := ps[..|ps| - 1];
      var last := ps[|ps| - 1];
      var sortedPrefix := SortBy(prefix, cmp);
      SortByPermutes(prefix, cmp);
      InsertByPermutes(sortedPrefix, last, cmp);
      MultisetSnoc(ps);
    }
  }

  lemma MultisetSnoc(ps: seq<Point>)
    requires ps != []
    ensures multiset(ps) == multiset(ps[..|ps| - 1]) + multiset{ps[|ps| - 1]}
  {
    assert ps == ps[..|ps| - 1] + [ps[|ps| - 1]];
  }

  lemma InsertByMembers(sorted: seq<Point>, p: Point, cmp: (string, string) -> int)
    ensures forall q :: q in InsertBy(sorted, p, cmp) <==> q in sorted || q == p
  {
    InsertByPermutes(sorted, p, cmp);
    forall q ensures q in InsertBy(sorted, p, cmp) <==> q in multiset(sorted) + multiset{p} {
    }
  }

  /** A point whose key is at least every key of a sorted list may follow it. */
  lemma AppendSorted(ps: seq<Point>, p: Point, key: string -> IsoWeek)
    requires SortedByKey(ps, key)
    requires forall i :: 0 <= i < |ps| ==> KeyLe(key(ps[i].x), key(p.x))
    ensures SortedByKey(ps + [p], key)
  {
    var r := ps + [p];
    assert forall i :: 0 <= i < |ps| ==> r[i] == ps[i];
  }

  /** Inserting into a sorted list keeps it sorted when `cmp` orders its
      labels by key. */
  lemma {:induction false} InsertBySorted(sorted: seq<Point>, p: Point, cmp: (string, string) -> int,
                                          dom: string -> bool, key: string -> IsoWeek)
    requires OrdersByKey(dom, cmp, key)
    requires AllIn(sorted, dom) && dom(p.x) && SortedByKey(sorted, key)
    ensures AllIn(InsertBy(sorted, p, cmp), dom) && SortedByKey(InsertBy(sorted, p, cmp), key)
  {
    InsertByMembers(sorted, p, cmp);
    var r := InsertBy(sorted, p, cmp);
    forall i | 0 <= i < |r| ensures dom(r[i].x) {
      assert r[i] in r;
    }
    if sorted != [] {
      var n := |sorted|;
      var last := sorted[n - 1];
      var init := sorted[..n - 1];
      assert dom(last.x);
      if cmp(last.x, p.x) <= 0 {
        AppendSorted(sorted, p, key);
      } else {
        InsertBySorted(init, p, cmp, dom, key);
        var q := InsertBy(init, p, cmp);
        InsertByMembers(init, p, cmp);
        forall i | 0 <= i < |q| ensures KeyLe(key(q[i].x), key(last.x)) {
          assert q[i] in q;
          if q[i] != p {
            var k :| 0 <= k < |init| && init[k] == q[i];
            assert sorted[k] == q[i];
          }
        }
        AppendSorted(q, last, key);
      }
    }
  }

  lemma {:induction false} SortBySorted(ps: seq<Point>, cmp: (string, string) -> int,
                                        dom: string -> bool, key: string -> IsoWeek)
    requires OrdersByKey(dom, cmp, key) && AllIn(ps, dom)
    ensures AllIn(SortBy(ps, cmp), dom) && SortedByKey(SortBy(ps, cmp), key)
  {
    if ps != [] {
      SortBySorted(ps[..|ps| - 1], cmp, dom, key);
      InsertBySorted(SortBy(ps[..|ps| - 1], cmp), ps[|ps| - 1], cmp, dom, key);
    }
  }

  /** `.sort((a, b) => ...)` on the trend points with the scene's comparator. */
  function SortTrend(ps: seq<Point>): seq<Point>
  {
    SortBy(ps, TrendCompare)
  }

  /** The `(week, year)` a label of the scene's own format stands for. */
  function WeekOf(text: string): IsoWeek
  {
    match ParseWeekLabel(text)
    case Some(w) => w
    case None => IsoWeek(0, 0)
  }

  /** On the scene's own labels the comparator orders by `(year, week)`. */
  lemma TrendCompareOrdersByWeek()
    ensures OrdersByKey(Canonical, TrendCompare, WeekOf)
  {
    forall a, b | Canonical(a) && Canonical(b)
      ensures TrendCompare(a, b) <= 0 <==> KeyLe(WeekOf(a), WeekOf(b))
    {
      CompareIsKeyOrder(a, b);
    }
  }

  /** The sorted trend is a reordering of the points, ascending by
      `(year, week)`. */
  lemma SortTrendSorted(ps: seq<Point>)
    requires AllIn(ps, Canonical)
    ensures multiset(SortTrend(ps)) == multiset(ps)
    ensures AllIn(SortTrend(ps), Canonical) && SortedByKey(SortTrend(ps), WeekOf)
  {
    SortByPermutes(ps, TrendCompare);
    TrendCompareOrdersByWeek();
    SortBySorted(ps, TrendCompare, Canonical, WeekOf);
  }

  /** `Object.entries(updatesByWeek).map(([week, count]) => ({x: week, y: count}))`. */
  function TrendPoints(c: Tally): (r: seq<Point>)
    ensures |r| == |c|
    ensures forall i :: 0 <= i < |c| ==> r[i] == Point(c[i].key, c[i].count)
  {
    if c == [] then [] else [Point(c[0].key, c[0].count)] + TrendPoints(c[1..])
  }

  /** Every week bucket is keyed by a label of the scene's own format. */
  lemma {:induction false} WeekBucketsCanonical(tasks: seq<Task>, tz: int)
    ensures AllIn(TrendPoints(WeekBuckets(tasks, tz)), Canonical)
  {
    TallyCounts(tasks, WeekKeyOf(tz));
    var c := WeekBuckets(tasks, tz);
    forall i | 0 <= i < |c| ensures Canonical(c[i].key) {
      KeysMember(c, i);
      KeysOfMember(tasks, WeekKeyOf(tz), c[i].key);
      var t :| t in tasks && WeekKey(tz, t) == c[i].key;
      var w := IsoWeekOf(LocalDay(tz, t.updated));
      WeekLabelRoundTrip(w.week, w.year);
    }
  }

  lemma {:induction false} KeysMember(c: Tally, i: nat)
    requires i < |c|
    ensures c[i].key in Keys(c)
  {
    if i > 0 {
      KeysMember(c[1..], i - 1);
    }
  }

  lemma {:induction false} KeysOfMember(s: seq<Task>, keyOf: Task -> string, k: string)
    requires k in KeysOf(s, keyOf)
    ensures exists t :: t in s && keyOf(t) == k
  {
    var p := s[..|s| - 1];
    if k in KeysOf(p, keyOf) {
      KeysOfMember(p, keyOf, k);
      var t :| t in p && keyOf(t) == k;
      assert t in s;
    } else {
      assert s[|s| - 1] in s;
    }
  }

  /** The pure part of the scene's `useMemo`, over the de-duplicated tasks. */
  function MonthMetrics(unique: seq<Task>, now: int, tz: int): SceneMetrics
  {
    var tasks := MonthFilter(unique, now, tz);
    SceneMetrics(
      TotalStoryPoints(tasks),
      |tasks|,
      RecentCount(tasks, now),
      SortTrend(TrendPoints(WeekBuckets(tasks, tz))),
      PrioritySlices(TallyFrom([], tasks, ClientPriorityKey)),
      tasks)
  }

  /** The scene's `useMemo`: nothing while the projects are not loaded;
      otherwise the month metrics of the tasks of all projects,
      de-duplicated across projects. */
  method MonthlyReportMetrics(projects: Option<seq<seq<Task>>>, now: int, tz: int)
    returns (m: Option<SceneMetrics>)
    ensures projects.None? ==> m.None?
    ensures projects.Some? ==> m == Some(MonthMetrics(Unique(Flatten(projects.value)), now, tz))
  {
    if projects.None? {
      return None;
    }
    var unique := UniqueAcrossProjects(projects.value);
    m := Some(MonthMetrics(unique, now, tz));
  }

  /** What the monthly metrics promise: the table lists exactly the
      de-duplicated tasks updated this month; the count, the story points
      and the recency count are over those tasks only, so the recency count
      is at most the count; the pie-chart slices and the week buckets each
      add up to the count; and the trend lists the week buckets, reordered
      ascending by year and week. The count and story-point clauses only
      unfold `MonthMetrics`; the others are the properties. */
  lemma MonthMetricsConsistent(unique: seq<Task>, now: int, tz: int)
    ensures var m := MonthMetrics(unique, now, tz);
      (forall t :: t in m.tasks <==> t in unique && InMonth(now, tz, t)) &&
      m.totalSustainabilityBacklog == |m.tasks| &&
      m.totalStoryPoints == TotalStoryPoints(m.tasks) &&
      m.recentlyUpdated <= m.totalSustainabilityBacklog &&
      SliceTotal(m.priorityDistribution) == m.totalSustainabilityBacklog &&
      Total(WeekBuckets(m.tasks, tz)) == m.totalSustainabilityBacklog &&
      multiset(m.updateTrend) == multiset(TrendPoints(WeekBuckets(m.tasks, tz))) &&
      AllIn(m.updateTrend, Canonical) && SortedByKey(m.updateTrend, WeekOf)
  {
    var tasks := MonthFilter(unique, now, tz);
    TallyCounts(tasks, ClientPriorityKey);
    SliceTotalIsTotal(TallyFrom([], tasks, ClientPriorityKey));
    TallyCounts(tasks, WeekKeyOf(tz));
    var points := TrendPoints(WeekBuckets(tasks, tz));
    WeekBucketsCanonical(tasks, tz);
    SortTrendSorted(points);
  }
}
