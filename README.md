# Sustainability backlog dashboard: a Dafny model of its core

This project models the core of a Jira-based sustainability dashboard, in
five parts.

- **The `useSustainabilityBacklog` hook.** The client keeps two ordered task
  lists: the general backlog and the sustainability backlog. It also keeps an
  `isEditing` gate, the drag state (`draggedItem`, `dropTargetIndex`,
  `dropTargetList`), an error message and the manual-entry form. The hook's
  handlers become the methods of the class
  `BacklogHook.SustainabilityBacklogHook`. They cover drag start, drag
  enter, drag leave and drop, add and remove by id, the manual import, and
  the CSV and JSON file imports. The hook's guard before persisting is a
  function.
- **The project routes of the API server.** The model covers:
  - the validation of `PUT /:projectKey/sustainability-backlog` and of
    `POST /save`;
  - the 404 decisions;
  - the `download-report` metrics: a stable de-duplication by id, a
    story-point sum, a priority histogram with an `'Unknown'` default, a
    recency count with a fixed +3 h shift, and an average;
  - the `download-all-reports` loop, which accumulates those metrics project
    by project and averages the per-project averages.

  The stored projects are a map from Jira key to project.
- **The monthly-report scene.** It flattens all projects' lists and
  de-duplicates them across projects. It then keeps the tasks updated in
  the current calendar month, computes their totals, their histogram and
  their recency count, buckets them by ISO week (label `W<week> <year>`),
  and sorts the buckets with the scene's comparator.
- **The weekly-impact scene.** It runs the same pipeline over the half-open
  Monday-to-Sunday week that holds "now", with seven daily buckets
  labelled Mon to Sun.
- **The signup and login routes.** The model covers the email format test,
  the ordered chain of 400 answers, the mapping of the duplicate-key error,
  the single 401 answer of login, and the default role.

Time is an integer number of milliseconds since 1970-01-01 UTC. A day is
86 400 000 ms, and calendar days are numbered from 1970-01-01 in the
proleptic Gregorian calendar. The browser's local time is UTC plus a fixed
offset `tz`. Week numbering follows the week-date rules of ISO 8601:2004,
section 4.1.4: weeks start on Monday, and week 1 holds the year's first
Thursday.

JavaScript objects used as counters (`acc[k] = (acc[k] || 0) + 1`) are
modelled as insertion-ordered association lists (`Counts.Tally`).
`Object.entries` walks them in that same order.

The model follows the code as written, including these behaviours:

- A same-list drop does not compensate the insertion index for the
  removal. The task ends at `min(dropIndex, n - 1)` of the shortened list.
- When `findIndex` returns -1, `splice(-1, 1)` removes the last task.
- Adding to and removing from the sustainability list are not gated by
  `isEditing`.
- A CSV row's id is `csv-<timestamp>` (lower case). The key is
  `CSV-<timestamp>` only when the row has no key.
- Every synthesised id, key and `updated` value reads the clock anew, so
  two rows of one import share an id only when both ids were read in the
  same millisecond.
- A failed file import reports its message through the `setError` that
  the caller passes in, not through the hook's own `error`.
- A `null` element in an imported JSON array makes the mapping throw, so
  nothing is appended and the error is reported.
- The scenes' histogram key is the priority name with no `'Unknown'`
  default: a `null` name counts under "null" and a missing one under
  "undefined". Only the server reports substitute `'Unknown'`.
- A same-list drop removes the first task carrying the dragged id, which
  is another task when ids repeat; the drop is then not a permutation.
- A cross-list move keeps the total number of tasks only when the id
  occurs once in the source list. `filter` removes every task with that
  id.

## Model

| member | source | states |
|---|---|---|
| BacklogHook.SustainabilityBacklogHook.constructor | client/src/hooks/useSustainabilityBacklog.js:44-60 | Both lists start as given (general) and empty (sustainability); editing is off; no drag state, no error; the form is blank with priority "Medium" |
| BacklogHook.SustainabilityBacklogHook.SetEditing | client/src/hooks/useSustainabilityBacklog.js:47 | The editing gate takes the given value |
| BacklogHook.SustainabilityBacklogHook.DragStart | client/src/hooks/useSustainabilityBacklog.js:113-120 | Outside editing mode the drag is cancelled and nothing is recorded; otherwise the payload is `{item, sourceList}` and the item becomes the dragged item |
| BacklogHook.SustainabilityBacklogHook.DragEnter | client/src/hooks/useSustainabilityBacklog.js:122-130 | Outside editing mode the drop target is unchanged; otherwise it is `index` for the upper half of the row, `index + 1` for the lower half, on the hovered list |
| BacklogHook.SustainabilityBacklogHook.DragLeave | client/src/hooks/useSustainabilityBacklog.js:132-137 | Outside editing mode nothing changes; otherwise both drop-target fields are reset |
| BacklogHook.SustainabilityBacklogHook.Drop | client/src/hooks/useSustainabilityBacklog.js:145-196 | Outside editing mode nothing changes. Otherwise: an unreadable payload sets the error and keeps both lists; a same-list drop reorders that list; a cross-list drop removes the id from the source and inserts the item into the target; other list names change no list; the drag state is cleared in every case |
| BacklogHook.SustainabilityBacklogHook.AddToSustainability | client/src/hooks/useSustainabilityBacklog.js:204-208 | The new list is the old one, with the issue appended when its id was absent |
| BacklogHook.SustainabilityBacklogHook.RemoveFromSustainability | client/src/hooks/useSustainabilityBacklog.js:210-214 | The new list is the old one without any task carrying the issue's id |
| BacklogHook.SustainabilityBacklogHook.ManualImport | client/src/hooks/useSustainabilityBacklog.js:216-240 | A blank summary changes nothing; otherwise exactly one task built from the form is appended to the chosen list, the other list is untouched, and the form is reset |
| BacklogHook.SustainabilityBacklogHook.FileImport | client/src/hooks/useSustainabilityBacklog.js:242-320 | The alert is raised exactly for a missing file or a type other than JSON or CSV, and then nothing changes. CSV rows and JSON array elements are appended one task each after the existing tasks. A parse failure, a non-array JSON root or a `null` element appends nothing and returns the message for the caller's `setError`. The other list and the hook's own error never change |
| BacklogHook.ParseStoryPoints | client/src/hooks/useSustainabilityBacklog.js:227-229 | A blank field gives no story points; any other field gives what `parseInt` gives |
| BacklogHook.CsvTask | client/src/hooks/useSustainabilityBacklog.js:260-277 | The id is always `csv-<id reading>`. The key is the row's, or `CSV-<key reading>` when blank. The priority is the row's, or "Medium" when blank. Story points are parsed, and `updated` is the third reading |
| BacklogHook.JsonTask | client/src/hooks/useSustainabilityBacklog.js:296-310 | The id and key are the element's, or `json-<id reading>` and `JSON-<key reading>` when blank. The priority is the element's, or "Medium" when blank. Story points are parsed, and `updated` is the third reading |
| BacklogHook.CsvTasks | client/src/hooks/useSustainabilityBacklog.js:260-277 | One task per CSV row, in row order, each with its own clock readings |
| BacklogHook.JsonTasks | client/src/hooks/useSustainabilityBacklog.js:292-310 | Nothing exactly when some element is `null`; otherwise one task per element, in element order, each with its own clock readings |
| BacklogHook.CsvIdsCollide | client/src/hooks/useSustainabilityBacklog.js:262 | Two rows of one CSV import share an id exactly when their ids were read in the same millisecond |
| BacklogHook.ManualTask | client/src/hooks/useSustainabilityBacklog.js:218-232 | The manual task carries the form's summary, description, priority and parsed story points; its id is `manual-` and its key `MANUAL-` followed by the decimal id and key readings; `updated` is the third reading |
| BacklogHook.ManualIdsCollide | client/src/hooks/useSustainabilityBacklog.js:220 | Two manual tasks get the same id exactly when their id readings are equal |
| BacklogHook.DropIndex | client/src/hooks/useSustainabilityBacklog.js:151-156 | A hovered row's index is used as is; with none, the index is the target list's length, so the insertion appends (the sustainability list for any target other than "backlog") |
| BacklogHook.DragAcrossExample | client/src/hooks/useSustainabilityBacklog.js:113-196 | Example: after a refused drag outside editing, a drag of `a` from `[a, b]` onto the first row of `[c]` leaves `[b]` and `[a, c]` |
| BacklogHook.PersistRequest | client/src/hooks/useSustainabilityBacklog.js:94 | A PUT is issued exactly when there is a non-empty project key and a non-empty list, and it carries that key and list |
| BacklogHook.PersistReplacesStoredList | client/src/hooks/useSustainabilityBacklog.js:90-103 | A persisted list replaces the stored list of a known project wholesale (200), leaving its name; for an unknown key the server answers 404 and stores nothing |
| ListOps.RemoveId | client/src/hooks/useSustainabilityBacklog.js:169 | `filter` by id keeps exactly the tasks with another id and removes as many tasks as carry that id |
| ListOps.FindIndex | client/src/hooks/useSustainabilityBacklog.js:161 | The first position holding the id, or -1 exactly when no task carries it |
| ListOps.InsertAtProperties | client/src/hooks/useSustainabilityBacklog.js:170-174 | Inserting adds exactly the item to the multiset of tasks, puts it at the clamped index, and removing it there gives back the old list |
| ListOps.Reorder | client/src/hooks/useSustainabilityBacklog.js:158-166 | The same-list drop keeps the list's length (a one-task list when it was empty) and always contains the dragged task |
| ListOps.ReorderReplacesFirst | client/src/hooks/useSustainabilityBacklog.js:158-166 | For any id that `findIndex` finds, a same-list drop removes the first task with that id and inserts the dragged task at `min(dropIndex, n - 1)`: same length, the multiset minus that first task plus the dragged one, the other tasks in their relative order |
| ListOps.ReorderPresent | client/src/hooks/useSustainabilityBacklog.js:158-166 | When the dragged task is itself the first with its id (the task `findIndex` finds), the same-list drop is a permutation: same length, same multiset |
| ListOps.ReorderDuplicateLosesFirst | client/src/hooks/useSustainabilityBacklog.js:158-166 | With duplicate ids the drop is not a permutation: dragging a later task loses the earlier one with its id |
| ListOps.RemoveAtMultiset | client/src/hooks/useSustainabilityBacklog.js:162 | Deleting one position removes exactly that task from the multiset |
| ListOps.ReorderAbsentDropsLast | client/src/hooks/useSustainabilityBacklog.js:161-162 | When no task carries the dragged id, the list loses its last task and gains the dragged one |
| ListOps.RemoveIdAppend | client/src/hooks/useSustainabilityBacklog.js:210-214 | Removal by id distributes over concatenation, so the remaining tasks keep their order |
| ListOps.RemoveIdSingle | client/src/hooks/useSustainabilityBacklog.js:212 | A single task is kept exactly when its id differs |
| ListOps.RemoveIdIdempotent | client/src/hooks/useSustainabilityBacklog.js:210-214 | Removing twice equals removing once, and no task with the id remains |
| ListOps.RemoveIdAbsent | client/src/hooks/useSustainabilityBacklog.js:210-214 | Removing an absent id changes nothing |
| ListOps.CountIdZero | client/src/hooks/useSustainabilityBacklog.js:169 | No task counts for an id exactly when the id does not occur |
| ListOps.AddIfAbsent | client/src/hooks/useSustainabilityBacklog.js:204-208 | After adding, the issue's id is present |
| ListOps.AddIfAbsentProperties | client/src/hooks/useSustainabilityBacklog.js:204-208 | Adding is idempotent, leaves the list alone when the id is present, and appends at the end otherwise |
| ListOps.MoveAcross | client/src/hooks/useSustainabilityBacklog.js:168-187 | A cross-list move removes the id from the source, inserts the item at the clamped index of the target, and keeps the other tasks' order. The total count changes by one minus the id's occurrences in the source. Disjoint ids stay disjoint |
| Tasks.IdsMembership | server/routes/projectRoutes.js:124-127 | An id is in the seen-set exactly when some task carries it |
| Tasks.IdsAppend | client/src/scenes/monthly-report/index.jsx:31-43 | The ids of a concatenation are the union of the ids |
| Dedup.FirstIndex | server/routes/projectRoutes.js:123-130 | The position of the first task with a given id |
| Dedup.DedupById | server/routes/projectRoutes.js:123-130 | The Set-and-push loop computes the first-occurrence sublist |
| Dedup.UniqueIds | server/routes/projectRoutes.js:123-130 | De-duplication keeps every id and adds none |
| Dedup.UniqueDistinct | server/routes/projectRoutes.js:123-130 | No two de-duplicated tasks share an id |
| Dedup.UniqueIsFirstOccurrences | server/routes/projectRoutes.js:123-130 | Each kept task is the first occurrence of its id, and the kept tasks appear in input order |
| Dedup.UniqueLength | server/routes/projectRoutes.js:137 | The de-duplicated count is the number of distinct ids |
| Dedup.UniqueIdempotent | server/routes/projectRoutes.js:123-130 | De-duplicating twice equals de-duplicating once |
| Dedup.DistinctIsUnique | server/routes/projectRoutes.js:123-130 | A list with distinct ids is unchanged |
| Counts.Bump | server/routes/projectRoutes.js:141 | One increment adds one to the key's count and to the total, leaves other counts alone, and adds the key |
| Counts.BumpWellFormed | server/routes/projectRoutes.js:141 | Keys stay distinct and counts stay positive |
| Counts.TallyCounts | server/routes/projectRoutes.js:139-143 | A histogram counts each key as often as tasks carry it, its keys are those of the tasks, and its counts sum to the number of tasks |
| Counts.TallyAppend | server/routes/projectRoutes.js:212-215 | Counting a concatenation continues from the first part's histogram |
| Counts.CountKeyAppend | server/routes/projectRoutes.js:212-215 | Per-key counts add over concatenation |
| Counts.TallyInto | server/routes/projectRoutes.js:212-215 | The `forEach` loop computes the fold of increments |
| Metrics.TotalStoryPointsAppend | server/routes/projectRoutes.js:204-208 | Story-point totals add over concatenation |
| Metrics.IsRecentThreshold | server/routes/projectRoutes.js:145-151 | A task is recent exactly when it was updated later than now + 3 h - 8 days, so future-dated tasks count |
| Metrics.RecentCount | server/routes/projectRoutes.js:148-151 | The recency count is at most the number of tasks |
| Metrics.RecentCountAppend | server/routes/projectRoutes.js:217-220 | Recency counts add over concatenation |
| Metrics.ServerPriorityKey | server/routes/projectRoutes.js:140 | The key is 'Unknown' exactly for a missing, `null`, empty or literal 'Unknown' name; otherwise it is the name |
| Metrics.ClientPriorityKey | client/src/scenes/monthly-report/index.jsx:68-69 | A present name is the key, a `null` name the key "null", and a missing name the key "undefined" |
| Metrics.ClientServerKeysAgree | client/src/scenes/monthly-report/index.jsx:68-69 | The scenes and the server key a task alike exactly when its name is present and non-empty |
| Metrics.AverageTimesCount | server/routes/projectRoutes.js:153 | The average is 0 for no tasks; otherwise, times the count, it gives the total |
| ProjectRoutes.PutSustainabilityBacklog | server/routes/projectRoutes.js:65-91 | 400 exactly for a missing or non-array body, 404 exactly for an unknown key, and 200 otherwise; only a 200 changes the store, replacing that project's list and nothing else |
| ProjectRoutes.GetSustainabilityBacklog | server/routes/projectRoutes.js:94-110 | 404 exactly for an unknown key; otherwise 200 with the stored list |
| ProjectRoutes.PutThenGet | server/routes/projectRoutes.js:76-105 | Reading back after a successful PUT returns the list just stored |
| ProjectRoutes.SaveProject | server/routes/projectRoutes.js:6-32 | 400 exactly when the name or a Jira field is missing; otherwise 500 exactly when saving fails and 201 with the new project exactly when it succeeds |
| ProjectRoutes.DownloadReport | server/routes/projectRoutes.js:113-175 | 404 for an unknown key; otherwise the report of the project's list de-duplicated by id |
| ProjectRoutes.ReportCounts | server/routes/projectRoutes.js:123-151 | The count is the number of distinct ids; the histogram has distinct keys whose counts sum to it, with 'Unknown' counting the tasks without a name; recent tasks are at most that many |
| ProjectRoutes.EmptyReport | server/routes/projectRoutes.js:132-153 | An empty backlog reports zeros and an empty histogram |
| ProjectRoutes.WorkedExample | server/routes/projectRoutes.js:132-153 | The two-task example (3 and 5 points, today and 8 days ago) gives 8 points, 2 tasks, 1 recent, average 4 and histogram High 1, Medium 1 |
| ProjectRoutes.TotalsOfMeaning | server/routes/projectRoutes.js:192-226 | The running totals equal the report over the per-project de-duplicated lists, the sum of per-project averages and the number of non-empty projects |
| ProjectRoutes.AccumulateProject | server/routes/projectRoutes.js:193-225 | One loop iteration adds one project's de-duplicated list to the running totals |
| ProjectRoutes.DownloadAllReports | server/routes/projectRoutes.js:178-228 | Story points, count, recency and histogram are over all projects' per-project de-duplicated lists, and the average is the mean of the per-project averages over non-empty projects (0 if none) |
| ProjectRoutes.AllProjectsAddsProjectReport | server/routes/projectRoutes.js:192-220 | Adding a project adds its own report to the totals, and key by key to the histogram |
| ProjectRoutes.AllProjectsHistogramSums | server/routes/projectRoutes.js:212-215 | The all-projects histogram sums to the all-projects count |
| ProjectRoutes.SharedTaskCountsTwice | server/routes/projectRoutes.js:194-202 | A task stored in two projects counts twice there, where the scenes count it once |
| ProjectRoutes.MeanOfAveragesIsNotOverallAverage | server/routes/projectRoutes.js:222-228 | A mean of averages of 2 beside an overall average of 3: the all-projects average is not weighted by project size |
| Text.IntToStringRoundTrip | client/src/scenes/monthly-report/index.jsx:94-104 | `parseInt` of a printed integer gives it back |
| Text.IntToStringInjective | client/src/scenes/monthly-report/index.jsx:94 | Different integers print differently |
| Text.IntToStringAvoids | client/src/scenes/monthly-report/index.jsx:94 | A printed integer contains no space |
| Text.Split | client/src/scenes/monthly-report/index.jsx:102-103 | `split` gives at least one piece |
| Text.SplitNoSeparator | client/src/scenes/monthly-report/index.jsx:102-103 | Without a separator the whole string is the one piece |
| Text.SplitFirst | client/src/scenes/monthly-report/index.jsx:102-103 | Splitting peels off the piece before the first separator |
| Text.ParseDigits | client/src/scenes/monthly-report/index.jsx:104 | A run of digits parses to its value |
| Text.ParseNegativeDigits | client/src/scenes/monthly-report/index.jsx:104 | A minus sign then digits parses to minus their value |
| Calendar.DayOfBounds | client/src/scenes/weekly-impact/index.jsx:19 | A timestamp lies inside its day |
| Calendar.Jan1Next | client/src/scenes/monthly-report/index.jsx:86 | Consecutive New Year's days are one year length apart |
| Calendar.YearOf | client/src/scenes/monthly-report/index.jsx:48 | A day lies between its year's 1 January and the next |
| Calendar.YearOfUnique | client/src/scenes/monthly-report/index.jsx:48 | Any day of a year determines that year |
| Calendar.MonthOf | client/src/scenes/monthly-report/index.jsx:47 | The month is in 0..11 and the day lies inside it |
| Calendar.SameMonthIsInterval | client/src/scenes/monthly-report/index.jsx:49-55 | Sharing month and year with today is lying between the first of this month and the first of the next |
| Calendar.InMonthSameMonth | client/src/scenes/monthly-report/index.jsx:52-53 | A day inside a month's interval has that month and year |
| Calendar.DiffToMonday | client/src/scenes/weekly-impact/index.jsx:48 | The distance to Monday is in 0..6 |
| Calendar.MondayOfIsMonday | client/src/scenes/weekly-impact/index.jsx:47-50 | The Monday on or before a day is a Monday at most six days earlier |
| Calendar.MondayOfWeek | client/src/scenes/weekly-impact/index.jsx:89-94 | Every day of a Monday-to-Sunday week has that Monday |
| Calendar.IsoWeekOf | client/src/scenes/monthly-report/index.jsx:82-89 | The week is in 1..53 and the year is that of the Thursday of the date's week |
| Calendar.WeekNumberOf | client/src/scenes/monthly-report/index.jsx:86-88 | The week count from 1 January is in 1..53 and the year is the day's own |
| Calendar.IsoDayNum | client/src/scenes/monthly-report/index.jsx:84 | Moving by 4 - day number lands on the Thursday of the week |
| Calendar.CeilDiv7 | client/src/scenes/monthly-report/index.jsx:87 | `Math.ceil(n / 7)` is the week holding day n of the year |
| Calendar.ThursdayOf | client/src/scenes/monthly-report/index.jsx:85 | The Thursday of the week is a Thursday within three days |
| Calendar.IsoWeekConstantOnWeek | client/src/scenes/monthly-report/index.jsx:82-89 | All seven days of a Monday-to-Sunday week have the same week and year |
| Calendar.IsoWeekOneHasFirstThursday | client/src/scenes/monthly-report/index.jsx:82-89 | Week 1 is the week whose Thursday is among the year's first seven days |
| Scenes.UniqueAcrossProjects | client/src/scenes/monthly-report/index.jsx:31-43 | All projects' tasks in project order, de-duplicated by first occurrence: every id kept, none twice |
| Scenes.PriorityColor | client/src/scenes/monthly-report/index.jsx:112 | One colour exactly for "Medium", one exactly for "Low", the third exactly for every other name |
| Scenes.PrioritySlices | client/src/scenes/monthly-report/index.jsx:108-113 | One slice per tallied priority, in tally order, with its count and colour |
| Scenes.SliceTotalIsTotal | client/src/scenes/monthly-report/index.jsx:108-113 | The slice values sum to the number of tallied tasks |
| Scenes.StoryPointsCell | client/src/scenes/monthly-report/index.jsx:203 | 'Not assigned' exactly for missing or zero story points; otherwise the value |
| MonthlyReport.MonthFilter | client/src/scenes/monthly-report/index.jsx:49-55 | Exactly the tasks updated in the current local month and year, and no more than were given |
| MonthlyReport.MonthFilterAppend | client/src/scenes/monthly-report/index.jsx:49-55 | The month filter keeps order: it distributes over concatenation |
| MonthlyReport.InMonthIsInterval | client/src/scenes/monthly-report/index.jsx:46-55 | The month test is a half-open interval between local midnights of the first of this month and of the next |
| MonthlyReport.LabelFieldsOfWeekLabel | client/src/scenes/monthly-report/index.jsx:94-103 | Splitting a label gives its `W<week>` and `<year>` pieces |
| MonthlyReport.WeekLabelRoundTrip | client/src/scenes/monthly-report/index.jsx:94 | Every built label parses back to its week and year |
| MonthlyReport.TrendCompareOnLabels | client/src/scenes/monthly-report/index.jsx:101-105 | On built labels the comparator is the year difference, or the week difference within one year |
| MonthlyReport.TrendCompare | client/src/scenes/monthly-report/index.jsx:101-105 | A label compares equal to itself, including when a field parses to NaN |
| MonthlyReport.TrendCompareAntisymmetric | client/src/scenes/monthly-report/index.jsx:101-105 | Swapping the two labels negates the comparator's result |
| MonthlyReport.CompareIsKeyOrder | client/src/scenes/monthly-report/index.jsx:101-105 | The comparator lets a label stay first exactly when its (year, week) is not larger |
| MonthlyReport.InsertByPermutes | client/src/scenes/monthly-report/index.jsx:101-105 | An insertion step adds exactly the point |
| MonthlyReport.SortByPermutes | client/src/scenes/monthly-report/index.jsx:99-105 | Sorting only reorders the points |
| MonthlyReport.InsertByMembers | client/src/scenes/monthly-report/index.jsx:101-105 | An insertion step holds the old points and the new one, and nothing else |
| MonthlyReport.InsertBySorted | client/src/scenes/monthly-report/index.jsx:101-105 | Inserting into a sorted list keeps it sorted when the comparator follows the key |
| MonthlyReport.SortBySorted | client/src/scenes/monthly-report/index.jsx:101-105 | The sort is ascending by key when the comparator follows the key |
| MonthlyReport.TrendCompareOrdersByWeek | client/src/scenes/monthly-report/index.jsx:101-105 | On built labels the comparator follows (year, week) |
| MonthlyReport.SortTrendSorted | client/src/scenes/monthly-report/index.jsx:99-105 | The trend is a permutation of the buckets, ascending by (year, week) |
| MonthlyReport.TrendPoints | client/src/scenes/monthly-report/index.jsx:99-100 | One point per week bucket, in bucket order, with its count |
| MonthlyReport.WeekBucketsCanonical | client/src/scenes/monthly-report/index.jsx:91-97 | Every bucket is keyed by a label in the scene's own format |
| MonthlyReport.MonthlyReportMetrics | client/src/scenes/monthly-report/index.jsx:27-123 | Nothing while projects are not loaded; otherwise the month metrics of all projects' tasks de-duplicated across projects |
| MonthlyReport.MonthMetricsConsistent | client/src/scenes/monthly-report/index.jsx:57-113 | The table lists exactly this month's de-duplicated tasks. Count, points and recency are over them, so recency is at most the count. Slices and week buckets each sum to the count. The trend is the buckets, sorted by (year, week) |
| WeeklyImpact.WeekStartIsMonday | client/src/scenes/weekly-impact/index.jsx:46-51 | The week start is local midnight of a Monday, that of today's week, and now lies in the seven days it starts |
| WeeklyImpact.RangeFilter | client/src/scenes/weekly-impact/index.jsx:57-60 | Exactly the tasks inside the half-open interval, and no more than were given |
| WeeklyImpact.RangeFilterAppend | client/src/scenes/weekly-impact/index.jsx:57-60 | The range filter keeps order: it distributes over concatenation |
| WeeklyImpact.RangeFilterSplit | client/src/scenes/weekly-impact/index.jsx:96-104 | Adjacent half-open ranges split a range's count |
| WeeklyImpact.RangeFilterNested | client/src/scenes/weekly-impact/index.jsx:99-101 | Filtering a week's tasks to a day is filtering all tasks to that day |
| WeeklyImpact.DaysOfWeek | client/src/scenes/weekly-impact/index.jsx:88-94 | The loop pushes the seven consecutive day starts from the week start |
| WeeklyImpact.WeekDaysAreLabelled | client/src/scenes/weekly-impact/index.jsx:87-94 | Day i is a local midnight on the weekday its label names |
| WeeklyImpact.DailyCountsAddUp | client/src/scenes/weekly-impact/index.jsx:96-104 | The first k daily counts add up to the tasks of the first k days |
| WeeklyImpact.DaysDisjoint | client/src/scenes/weekly-impact/index.jsx:96-104 | No timestamp falls in two daily buckets |
| WeeklyImpact.WeekMetricsOf | client/src/scenes/weekly-impact/index.jsx:45-114 | The week's metrics from a week start, with the day starts pushed by the loop |
| WeeklyImpact.WeeklyImpactMetrics | client/src/scenes/weekly-impact/index.jsx:27-124 | Nothing while projects are not loaded; otherwise the week metrics of all projects' tasks de-duplicated across projects |
| WeeklyImpact.WeekCounts | client/src/scenes/weekly-impact/index.jsx:57-84 | The table lists exactly the de-duplicated tasks of the half-open week. Count, points and recency are over them, so recency is at most the count. The slices sum to the count |
| WeeklyImpact.WeekDaily | client/src/scenes/weekly-impact/index.jsx:96-104 | The seven daily counts sum to the week's count |
| WeeklyImpact.WeekDayLabels | client/src/scenes/weekly-impact/index.jsx:87-103 | Seven daily points, labelled Mon to Sun in order (an unfolding of the labels) |
| UserRoutes.IndexOf | server/routes/userRoutes.js:11 | The first position of a character, or -1 exactly when it is absent |
| UserRoutes.ValidEmail | server/routes/userRoutes.js:11-12 | An accepted address has at least five characters, no whitespace, an '@', and does not start with '@' |
| UserRoutes.ValidEmailMatchesPattern | server/routes/userRoutes.js:11-12 | The decision procedure accepts exactly the strings `^[^\s@]+@[^\s@]+\.[^\s@]+$` matches |
| UserRoutes.EmailAccepted | server/routes/userRoutes.js:11 | Example: "a@b.co" is accepted |
| UserRoutes.EmailTrailingDotRejected | server/routes/userRoutes.js:11 | Example: a dot ending the domain is rejected |
| UserRoutes.EmailSecondAtRejected | server/routes/userRoutes.js:11 | Example: a second '@' is rejected |
| UserRoutes.Signup | server/routes/userRoutes.js:7-44 | The first failing check decides the 400 message: email format, then length under 6, then mismatch. After that, 200 exactly when saving succeeds and 500 exactly for a save error other than 11000 |
| UserRoutes.PasswordLengthBoundary | server/routes/userRoutes.js:17-21 | Five characters fail the length check, six pass it, and a mismatch is reported next |
| UserRoutes.DuplicateKeyIsExistingEmail | server/routes/userRoutes.js:37-42 | 'Email already exists' exactly for the duplicate-key code 11000 |
| UserRoutes.Login | server/routes/userRoutes.js:46-80 | 400 for a bad email format; 401 for an unknown email or a wrong password; success exactly for a known email whose password matches, with the stored email and a non-empty role |
| UserRoutes.LoginDoesNotRevealAccounts | server/routes/userRoutes.js:56-65 | A wrong password and an unknown email get the same answer |
| UserRoutes.LoginDefaultRole | server/routes/userRoutes.js:77 | The role is the stored one, or "user" when unset |

## Left out

- Tasks.Task: story points are integers. Jira tasks in the general backlog can carry fractional `customfield_10016` values (0.5), which a drop moves into the sustainability list and the scenes and report routes sum; the proved sums and averages are linear, so they hold the same over rationals.
- Network and storage I/O are left out. This covers axios, `fetch`, the Mongoose queries and the download of the report file. The stored projects are a map from Jira key to project, and a failed save is an input.
- The hook's `useEffect` fetch is not part of this model. Its stale-response race is a matter of concurrency.
- BacklogHook.SustainabilityBacklogHook.FileImport: the import finishes asynchronously, in the CSV parser's `complete` callback or the `FileReader`'s `onload`, and appends to the list that was passed in when it started. A drop, add or remove made in between is therefore overwritten. The model treats the import as one atomic step on the current list.
- Foreign parsers are inputs: `Papa.parse`, `FileReader`, `JSON.parse` and bcrypt's hash comparison. The model receives the parsed rows or elements, or the failure.
- `parseInt` is modelled for base 10 only: leading whitespace, an optional sign and digits. The `0x` hexadecimal prefix it also accepts is left out.
- `Date.now()` and `new Date()` are parameters. Each new task gets its own three readings (`Readings`): one for its id, one for its key and one for `updated`. Row `i` of an import gets `clock(i)`; the model does not require later readings to be larger.
- Time zones are a fixed offset `tz`. Daylight-saving transitions are left out, and so are local days that are not 24 hours long. Unparseable dates (`NaN`) are left out: every `updated` is an integer timestamp.
- Pointer geometry is left out. `getBoundingClientRect` and `clientY` become the boolean `upperHalf`.
- `handleDragOver` is left out: it changes no state.
- `handleViewDetails`, the dialogs and the rendering are left out.
- ProjectRoutes.DownloadReport: the average is the exact quotient. The rounding to one decimal by `toFixed(1)` is not modelled, because it is float formatting.
- ProjectRoutes.DownloadAllReports: the average is the exact mean of the averages. `toFixed(1)` is not modelled, for the same reason.
- UserRoutes.Signup: the password length counts characters, where JavaScript counts UTF-16 code units.
- UserRoutes.Signup and UserRoutes.Login: every body field is a string. A signup body without a `password` makes `password.length` throw outside any `try`, and a login body without one makes `bcrypt.compare` reject outside any `try`; either request then gets no answer. The model does not express that case.
- BacklogHook.SustainabilityBacklogHook.FileImport: JSON field values are strings. A number, boolean or object value is not modelled: a numeric `storyPoints` of 0 would give no story points, and a numeric id would stay a number that never equals a string id.
- `Object.entries` order is the order of insertion. JavaScript lists integer-like keys first; this matters only for priority names such as "1".
- A task with no priority object at all, which the scenes would dereference and fail on, is not modelled. A missing name is modelled instead.
- The `/auth/users` route is not part of this model: it is response plumbing around a token lookup.
- The general backlog belongs to the caller of the hook. Its `setBacklog` becomes an assignment to the class's `backlog` field.
