/** The project routes of the API server: the request validation of
    `/save` and of the backlog PUT, the not-found decisions, and the
    per-project and all-projects report aggregation. The document store is a
    map from the Jira project key to the stored project. */
module ProjectRoutes {
  import opened Wrappers
  import opened Tasks
  import opened Counts
  import opened Dedup
  import opened Metrics

  datatype Project = Project(projectName: string, sustainabilityBacklog: seq<Task>)

  type Store = map<string, Project>

  /** The `sustainabilityBacklog` field of a PUT body: absent (or another
      falsy value), present but not an array, or an array of tasks. */
  datatype BacklogField = Missing | NotAnArray | AnArray(tasks: seq<Task>)

  /** `PUT /:projectKey/sustainability-backlog`: the body is checked before
      any lookup (400); an unknown key is 404; otherwise the stored list is
      replaced wholesale and nothing else changes. */
  function PutSustainabilityBacklog(store: Store, key: string, field: BacklogField): (result: (int, Store))
    ensures result.0 == 400 <==> !field.AnArray?
    ensures result.0 == 404 <==> field.AnArray? && key !in store
    ensures result.0 == 200 <==> field.AnArray? && key in store
    ensures result.0 != 200 ==> result.1 == store
    ensures result.0 == 200 ==>
      result.1.Keys == store.Keys &&
      result.1[key] == store[key].(sustainabilityBacklog := field.tasks) &&
      forall k :: k in store && k != key ==> result.1[k] == store[k]
  {
    if !field.AnArray? then (400, store)
    else if key !in store then (404, store)
    else (200, store[key := store[key].(sustainabilityBacklog := field.tasks)])
  }

  /** `GET /:projectKey/sustainability-backlog`: the stored list, or 404. */
  function GetSustainabilityBacklog(store: Store, key: string): (result: (int, Option<seq<Task>>))
    ensures result.0 == 404 <==> key !in store
    ensures result.0 == 200 <==> key in store
    ensures key in store ==> result.1 == Some(store[key].sustainabilityBacklog)
    ensures key !in store ==> result.1 == None
  {
    if key in store then (200, Some(store[key].sustainabilityBacklog)) else (404, None)
  }

  /** Reading back a list just stored by a successful PUT returns it. */
  lemma PutThenGet(store: Store, key: string, tasks: seq<Task>)
    requires PutSustainabilityBacklog(store, key, AnArray(tasks)).0 == 200
    ensures GetSustainabilityBacklog(PutSustainabilityBacklog(store, key, AnArray(tasks)).1, key) == (200, Some(tasks))
  {
  }

  datatype JiraProject = JiraProject(id: string, name: string, key: string)

  /** The body of `POST /save`; an absent string field is "". */
  datatype SaveBody = SaveBody(projectName: string, jiraProject: Option<JiraProject>)

  predicate SaveBodyComplete(body: SaveBody)
  {
    body.projectName != "" && body.jiraProject.Some? &&
    body.jiraProject.value.id != "" && body.jiraProject.value.name != "" && body.jiraProject.value.key != ""
  }

  /** `POST /save`: 400 unless the name and all three Jira fields are
      present; then 201 with the new project, or 500 when the store's save
      fails (`saveFails` stands for that outcome). */
  function SaveProject(body: SaveBody, saveFails: bool): (result: (int, Option<Project>))
    ensures result.0 == 400 <==> !SaveBodyComplete(body)
    ensures result.0 == 500 <==> SaveBodyComplete(body) && saveFails
    ensures result.0 == 201 <==> SaveBodyComplete(body) && !saveFails
    ensures result.1.Some? <==> result.0 == 201
    ensures result.0 == 201 ==> result.1.value == Project(body.projectName, [])
  {
    if !SaveBodyComplete(body) then (400, None)
    else if saveFails then (500, None)
    else (201, Some(Project(body.projectName, [])))
  }

  /** The metrics of one report. `avgStoryPoints` is exact (the one-decimal
      rendering is not modelled). */
  datatype Report = Report(
    totalStoryPoints: int,
    totalSustainabilityBacklog: nat,
    recentlyUpdated: nat,
    avgStoryPoints: real,
    priorityDistribution: Tally)

  /** The folds of `download-report` over an already de-duplicated list. */
  function ReportOf(unique: seq<Task>, now: int): Report
  {
    var points := TotalStoryPoints(unique);
    Report(points, |unique|, RecentCount(unique, now), Average(points, |unique|),
           TallyFrom([], unique, ServerPriorityKey))
  }

  /** `GET /:projectKey/download-report`: 404 for an unknown key; otherwise
      the metrics of the project's list after de-duplication by id. */
  method DownloadReport(store: Store, key: string, now: int) returns (status: int, report: Option<Report>)
    ensures key !in store ==> status == 404 && report == None
    ensures key in store ==>
      status == 200 && report == Some(ReportOf(Unique(store[key].sustainabilityBacklog), now))
  {
    if key !in store {
      return 404, None;
    }
    var unique := DedupById(store[key].sustainabilityBacklog);
    status, report := 200, Some(ReportOf(unique, now));
  }

  /** What a project report's counts promise: one task per distinct id, a
      histogram whose keys are distinct and whose counts sum to that number,
      with 'Unknown' counting the tasks that have no priority name, and a
      recency count no larger than it. */
  lemma ReportCounts(backlog: seq<Task>, now: int)
    ensures var r := ReportOf(Unique(backlog), now);
      r.totalSustainabilityBacklog == |Ids(backlog)| &&
      WellFormed(r.priorityDistribution) &&
      Total(r.priorityDistribution) == r.totalSustainabilityBacklog &&
      CountOf(r.priorityDistribution, UNKNOWN_PRIORITY) ==
        CountKey(Unique(backlog), ServerPriorityKey, UNKNOWN_PRIORITY) &&
      r.recentlyUpdated <= r.totalSustainabilityBacklog
  {
    var u := Unique(backlog);
    UniqueLength(backlog);
    TallyCounts(u, ServerPriorityKey);
  }

  /** An empty backlog reports zero everywhere and an empty histogram. */
  lemma EmptyReport(now: int)
    ensures ReportOf(Unique([]), now) == Report(0, 0, 0, 0.0, [])
  {
  }

  /** The worked example: task "a" (High, 3 points, updated now) and task
      "b" (Medium, 5 points, updated 8 days ago) give 8 points, 2 tasks, 1
      recent task and the histogram High: 1, Medium: 1. */
  lemma WorkedExample(now: int)
    ensures var a := Task("a", "", "", "", Name("High"), Some(3), now);
      var b := Task("b", "", "", "", Name("Medium"), Some(5), now - 8 * Calendar.DAY_MS);
      ReportOf(Unique([a, b]), now) ==
        Report(8, 2, 1, 4.0, [Entry("High", 1), Entry("Medium", 1)])
  {
    var a := Task("a", "", "", "", Name("High"), Some(3), now);
    var b := Task("b", "", "", "", Name("Medium"), Some(5), now - 8 * Calendar.DAY_MS);
    DistinctIsUnique([a, b]);
    assert [a, b][..1] == [a];
    assert [a][..0] == [];
    assert TotalStoryPoints([a]) == 3;
    assert TotalStoryPoints([a, b]) == 8;
    assert RecentCount([a], now) == 1;
    assert RecentCount([a, b], now) == 1;
    assert TallyFrom([], [a], ServerPriorityKey) == [Entry("High", 1)];
    assert "High" != "Medium";
    assert [Entry("High", 1)][1..] == [];
    assert Bump([Entry("High", 1)], "Medium") == [Entry("High", 1), Entry("Medium", 1)];
    assert TallyFrom([], [a, b], ServerPriorityKey) == [Entry("High", 1), Entry("Medium", 1)];
  }

  /** The per-project de-duplicated lists of all projects, one after the
      other, in project order. */
  function UniquePerProject(projects: seq<Project>): seq<Task>
  {
    if projects == [] then []
    else UniquePerProject(projects[..|projects| - 1]) + Unique(projects[|projects| - 1].sustainabilityBacklog)
  }

  /** The sum of the averages of the non-empty projects, and their number. */
  function SumOfAverages(projects: seq<Project>): real
  {
    if projects == [] then 0.0
    else
      var unique := Unique(projects[|projects| - 1].sustainabilityBacklog);
      SumOfAverages(projects[..|projects| - 1]) +
        (if |unique| > 0 then Average(TotalStoryPoints(unique), |unique|) else 0.0)
  }

  function NonEmptyCount(projects: seq<Project>): nat
  {
    if projects == [] then 0
    else
      NonEmptyCount(projects[..|projects| - 1]) +
        (if |Unique(projects[|projects| - 1].sustainabilityBacklog)| > 0 then 1 else 0)
  }

  /** The all-projects average: the mean of the per-project averages over
      the non-empty projects, 0 when every project is empty. */
  function MeanOfAverages(projects: seq<Project>): real
  {
    var n := NonEmptyCount(projects);
    if n > 0 then SumOfAverages(projects) / (n as real) else 0.0
  }

  /** The running totals of `download-all-reports`. */
  datatype Totals = Totals(storyPoints: int, tasks: nat, recent: nat,
                           avgSum: real, avgCount: nat, distribution: Tally)

  /** One project's de-duplicated list added to the running totals; an
      empty list adds nothing to the sum of averages or to their count. */
  function AddProject(acc: Totals, unique: seq<Task>, now: int): Totals
  {
    var points := TotalStoryPoints(unique);
    Totals(acc.storyPoints + points, acc.tasks + |unique|, acc.recent + RecentCount(unique, now),
           if |unique| > 0 then acc.avgSum + Average(points, |unique|) else acc.avgSum,
           if |unique| > 0 then acc.avgCount + 1 else acc.avgCount,
           TallyFrom(acc.distribution, unique, ServerPriorityKey))
  }

  /** The running totals after the given projects. */
  function TotalsOf(projects: seq<Project>, now: int): Totals
  {
    if projects == [] then Totals(0, 0, 0, 0.0, 0, [])
    else AddProject(TotalsOf(projects[..|projects| - 1], now),
                    Unique(projects[|projects| - 1].sustainabilityBacklog), now)
  }

  /** The running totals are the report of the concatenated per-project
      lists, the sum of per-project averages and the count of non-empty
      projects. */
  lemma {:induction false} TotalsOfMeaning(projects: seq<Project>, now: int)
    ensures var t := TotalsOf(projects, now);
      var all := UniquePerProject(projects);
      t.storyPoints == TotalStoryPoints(all) &&
      t.tasks == |all| &&
      t.recent == RecentCount(all, now) &&
      t.distribution == TallyFrom([], all, ServerPriorityKey) &&
      t.avgSum == SumOfAverages(projects) &&
      t.avgCount == NonEmptyCount(projects)
  {
    if projects != [] {
      var prefix := projects[..|projects| - 1];
      TotalsOfMeaning(prefix, now);
      var done := UniquePerProject(prefix);
      var u := Unique(projects[|projects| - 1].sustainabilityBacklog);
      TotalStoryPointsAppend(done, u);
      RecentCountAppend(done, u, now);
      TallyAppend([], done, u, ServerPriorityKey);
    }
  }

  /** The body of the per-project loop: the project's de-duplicated list
      is added to each running total, and to the sum and count of averages
      only when it is not empty. */
  method AccumulateProject(acc: Totals, unique: seq<Task>, now: int) returns (next: Totals)
    ensures next == AddProject(acc, unique, now)
  {
    var totalStoryPoints := acc.storyPoints;
    var totalTasks := acc.tasks;
    var recentlyUpdated := acc.recent;
    var totalAvgStoryPoints := acc.avgSum;
    var avgStoryPointsCount := acc.avgCount;
    var projectStoryPoints := TotalStoryPoints(unique);
    totalStoryPoints := totalStoryPoints + projectStoryPoints;
    totalTasks := totalTasks + |unique|;
    recentlyUpdated := recentlyUpdated + RecentCount(unique, now);
    var distribution := TallyInto(acc.distribution, unique, ServerPriorityKey);
    if |unique| > 0 {
      totalAvgStoryPoints := totalAvgStoryPoints + Average(projectStoryPoints, |unique|);
      avgStoryPointsCount := avgStoryPointsCount + 1;
    }
    next := Totals(totalStoryPoints, totalTasks, recentlyUpdated, totalAvgStoryPoints,
                   avgStoryPointsCount, distribution);
  }

  /** `GET /download-all-reports`: one pass over the projects, de-duplicating
      each project's list on its own and accumulating the totals, the
      histogram and the sum of per-project averages; the average is the
      mean of the per-project averages. */
  method DownloadAllReports(projects: seq<Project>, now: int) returns (r: Report)
    ensures r.totalStoryPoints == TotalStoryPoints(UniquePerProject(projects))
    ensures r.totalSustainabilityBacklog == |UniquePerProject(projects)|
    ensures r.recentlyUpdated == RecentCount(UniquePerProject(projects), now)
    ensures r.priorityDistribution == TallyFrom([], UniquePerProject(projects), ServerPriorityKey)
    ensures r.avgStoryPoints == MeanOfAverages(projects)
  {
    var acc := Totals(0, 0, 0, 0.0, 0, []);
    for i := 0 to |projects|
      invariant acc == TotalsOf(projects[..i], now)
    {
      var unique := DedupById(projects[i].sustainabilityBacklog);
      assert projects[..i + 1][..i] == projects[..i];
      acc := AccumulateProject(acc, unique, now);
    }
    assert projects[..|projects|] == projects;
    TotalsOfMeaning(projects, now);
    var avgStoryPoints := if acc.avgCount > 0 then acc.avgSum / (acc.avgCount as real) else 0.0;
    r := Report(acc.storyPoints, acc.tasks, acc.recent, avgStoryPoints, acc.distribution);
  }

  /** Adding one project to the store adds that project's own report to the
      all-projects totals: its story points, its task count, its recent
      count, and its histogram counts key by key. */
  lemma AllProjectsAddsProjectReport(projects: seq<Project>, p: Project, now: int, k: string)
    ensures var all := UniquePerProject(projects + [p]);
      var before := UniquePerProject(projects);
      var own := ReportOf(Unique(p.sustainabilityBacklog), now);
      TotalStoryPoints(all) == TotalStoryPoints(before) + own.totalStoryPoints &&
      |all| == |before| + own.totalSustainabilityBacklog &&
      RecentCount(all, now) == RecentCount(before, now) + own.recentlyUpdated &&
      CountOf(TallyFrom([], all, ServerPriorityKey), k) ==
        CountOf(TallyFrom([], before, ServerPriorityKey), k) + CountOf(own.priorityDistribution, k)
  {
    var before := UniquePerProject(projects);
    var unique := Unique(p.sustainabilityBacklog);
    assert (projects + [p])[..|projects|] == projects;
    TotalStoryPointsAppend(before, unique);
    RecentCountAppend(before, unique, now);
    TallyCounts(before + unique, ServerPriorityKey);
    TallyCounts(before, ServerPriorityKey);
    TallyCounts(unique, ServerPriorityKey);
    CountKeyAppend(before, unique, ServerPriorityKey, k);
  }

  /** The all-projects histogram counts sum to the all-projects task count. */
  lemma AllProjectsHistogramSums(projects: seq<Project>)
    ensures Total(TallyFrom([], UniquePerProject(projects), ServerPriorityKey)) == |UniquePerProject(projects)|
  {
    TallyCounts(UniquePerProject(projects), ServerPriorityKey);
  }

  /** De-duplication is per project only: one task stored in two projects
      counts twice in the all-projects report, where the report scenes'
      de-duplication across projects counts it once. */
  lemma SharedTaskCountsTwice(t: Task)
    ensures |UniquePerProject([Project("P", [t]), Project("Q", [t])])| == 2
    ensures |Unique(Flatten([[t], [t]]))| == 1
  {
    var ps := [Project("P", [t]), Project("Q", [t])];
    DistinctIsUnique([t]);
    assert ps[..1] == [Project("P", [t])];
    assert ps[..1][..0] == [];
    assert UniquePerProject(ps[..1]) == [t];
    assert UniquePerProject(ps) == [t, t];
    var ls := [[t], [t]];
    assert ls[..1] == [[t]];
    assert ls[..1][..0] == [];
    assert Flatten(ls[..1]) == [t];
    assert Flatten(ls) == [t, t];
    assert [t, t][..1] == [t];
    assert Ids([t]) == {t.id} by { assert [t][..0] == []; }
    assert Unique([t, t]) == [t];
  }

  /** The mean of per-project averages is not the average over all tasks:
      one project with a 0-point task and one with three 4-point tasks have
      a mean of averages of 2 where the overall average is 3. */
  lemma MeanOfAveragesIsNotOverallAverage(a: Task, b: Task, c: Task, d: Task)
    requires a.storyPoints == Some(0)
    requires b.storyPoints == Some(4) && c.storyPoints == Some(4) && d.storyPoints == Some(4)
    requires b.id != c.id && b.id != d.id && c.id != d.id
    ensures var ps := [Project("P", [a]), Project("Q", [b, c, d])];
      MeanOfAverages(ps) == 2.0 &&
      Average(TotalStoryPoints(UniquePerProject(ps)), |UniquePerProject(ps)|) == 3.0
  {
    var ps := [Project("P", [a]), Project("Q", [b, c, d])];
    DistinctIsUnique([a]);
    DistinctIsUnique([b, c, d]);
    assert ps[..1] == [Project("P", [a])];
    assert ps[..1][..0] == [];
    assert UniquePerProject(ps[..1]) == [a];
    assert UniquePerProject(ps) == [a, b, c, d] by {
      assert [a] + [b, c, d] == [a, b, c, d];
    }
    TotalOfThreeFours(b, c, d);
    assert TotalStoryPoints([a]) == 0 by {
      assert [a][..0] == [];
    }
    TotalStoryPointsAppend([a], [b, c, d]);
    assert TotalStoryPoints([a, b, c, d]) == 12 by {
      assert [a] + [b, c, d] == [a, b, c, d];
    }
    assert SumOfAverages(ps[..1]) == 0.0;
    assert SumOfAverages(ps) == 4.0;
    assert NonEmptyCount(ps[..1]) == 1;
    assert NonEmptyCount(ps) == 2;
  }

  lemma TotalOfThreeFours(b: Task, c: Task, d: Task)
    requires b.storyPoints == Some(4) && c.storyPoints == Some(4) && d.storyPoints == Some(4)
    ensures TotalStoryPoints([b, c, d]) == 12
  {
    assert [b][..0] == [];
    assert TotalStoryPoints([b]) == 4;
    assert [b, c][..1] == [b];
    assert TotalStoryPoints([b, c]) == 8;
    assert [b, c, d][..2] == [b, c];
  }
}
