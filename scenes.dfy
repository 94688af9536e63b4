/** What the monthly-report and weekly-impact scenes share: the
    de-duplication across all projects, the local calendar day of a
    timestamp, the priority slices of the pie chart with their colours, and
    the story-points cell of the task table. */
module Scenes {
  import opened Wrappers
  import opened Tasks
  import opened Counts
  import opened Dedup
  import opened Calendar

  /** A point of a trend chart: its label and its count. */
  datatype Point = Point(x: string, y: nat)

  /** A slice of the priority pie chart (`id` and `label` are both the
      priority name). */
  datatype Slice = Slice(id: string, value: nat, color: string)

  /** The object a scene's `useMemo` returns. */
  datatype SceneMetrics = SceneMetrics(
    totalStoryPoints: int,
    totalSustainabilityBacklog: nat,
    recentlyUpdated: nat,
    updateTrend: seq<Point>,
    priorityDistribution: seq<Slice>,
    tasks: seq<Task>)

  const MEDIUM_COLOR: string := "#f39c12"
  const LOW_COLOR: string := "#3498db"
  const OTHER_COLOR: string := "#e74c3c"

  /** The browser's local calendar day of a timestamp, for a time zone
      `tz` milliseconds ahead of UTC. */
  function LocalDay(tz: int, ms: int): int
  {
    DayOf(ms + tz)
  }

  /** `tasks.filter(keep)`: the tasks that pass the test, in order. */
  function Filter(s: seq<Task>, keep: Task -> bool): (r: seq<Task>)
    ensures |r| <= |s|
    ensures forall t :: t in r <==> t in s && keep(t)
  {
    if s == [] then []
    else
      var p := Filter(s[..|s| - 1], keep);
      var x := s[|s| - 1];
      assert forall t :: t in s <==> t in s[..|s| - 1] || t == x;
      if keep(x) then p + [x] else p
  }

  /** The filter keeps order: it distributes over concatenation. */
  lemma {:induction false} FilterAppend(a: seq<Task>, b: seq<Task>, keep: Task -> bool)
    ensures Filter(a + b, keep) == Filter(a, keep) + Filter(b, keep)
  {
    if b == [] {
      assert a + b == a;
    } else {
      var b', x := b[..|b| - 1], b[|b| - 1];
      assert (a + b)[..|a + b| - 1] == a + b';
      assert (a + b)[|a + b| - 1] == x;
      FilterAppend(a, b', keep);
      if keep(x) {
        assert Filter(a + b, keep) == Filter(a + b', keep) + [x];
      } else {
        assert Filter(a + b, keep) == Filter(a + b', keep);
      }
    }
  }

  /** Every project's list (a missing list counts as empty), in project
      order, de-duplicated by id across projects with the `Set`-and-push
      loop: the first occurrence of each id is kept. */
  method UniqueAcrossProjects(projects: seq<seq<Task>>) returns (unique: seq<Task>)
    ensures unique == Unique(Flatten(projects))
    ensures Ids(unique) == Ids(Flatten(projects))
    ensures forall i, j :: 0 <= i < j < |unique| ==> unique[i].id != unique[j].id
  {
    var allTasks := Flatten(projects);
    unique := DedupById(allTasks);
    UniqueIds(allTasks);
    UniqueDistinct(allTasks);
  }

  /** The pie-chart colour of a priority name: one colour for "Medium", one
      for "Low", and a third for every other name. */
  function PriorityColor(name: string): (c: string)
    ensures c == MEDIUM_COLOR <==> name == "Medium"
    ensures c == LOW_COLOR <==> name == "Low"
    ensures c == OTHER_COLOR <==> name != "Medium" && name != "Low"
  {
    if name == "Medium" then MEDIUM_COLOR else if name == "Low" then LOW_COLOR else OTHER_COLOR
  }

  /** `Object.entries(priorityCounts).map(...)`: one slice per tallied
      priority, in the tally's order. */
  function PrioritySlices(c: Tally): (r: seq<Slice>)
    ensures |r| == |c|
    ensures forall i :: 0 <= i < |c| ==>
      r[i] == Slice(c[i].key, c[i].count, PriorityColor(c[i].key))
  {
    if c == [] then [] else [Slice(c[0].key, c[0].count, PriorityColor(c[0].key))] + PrioritySlices(c[1..])
  }

  function SliceTotal(r: seq<Slice>): nat
  {
    if r == [] then 0 else r[0].value + SliceTotal(r[1..])
  }

  /** The pie chart shows every tallied task once: the slice values sum to
      the tally's total. */
  lemma {:induction false} SliceTotalIsTotal(c: Tally)
    ensures SliceTotal(PrioritySlices(c)) == Total(c)
  {
    if c != [] {
      SliceTotalIsTotal(c[1..]);
      assert PrioritySlices(c)[1..] == PrioritySlices(c[1..]);
    }
  }

  /** The task table's story-points cell, `customfield_10016 || 'Not
      assigned'`: `None` stands for 'Not assigned', shown for a missing
      value and for 0 alike. */
  function StoryPointsCell(t: Task): (r: Option<int>)
    ensures r.None? <==> t.storyPoints.None? || t.storyPoints == Some(0)
    ensures r.Some? ==> r.value == t.storyPoints.value && r.value != 0
  {
    if StoryPointsOf(t) == 0 then None else Some(StoryPointsOf(t))
  }
}
