/** The per-task folds every report computes: story-point totals, the
    "recently updated" test with its fixed +3 hour shift, priority keys and
    the average. */
module Metrics {
  import opened Wrappers
  import opened Tasks
  import opened Calendar

  /** `setUTCHours(getUTCHours() + 3)`: the fixed shift applied to "now". */
  const SHIFT_MS: int := 3 * 3600000

  const UNKNOWN_PRIORITY: string := "Unknown"

  /** `reduce((total, item) => total + (item.fields.customfield_10016 || 0), 0)`. */
  function TotalStoryPoints(s: seq<Task>): int
  {
    if s == [] then 0 else TotalStoryPoints(s[..|s| - 1]) + StoryPointsOf(s[|s| - 1])
  }

  lemma {:induction false} TotalStoryPointsAppend(a: seq<Task>, b: seq<Task>)
    ensures TotalStoryPoints(a + b) == TotalStoryPoints(a) + TotalStoryPoints(b)
  {
    if b == [] {
      assert a + b == a;
    } else {
      var b' := b[..|b| - 1];
      assert (a + b)[..|a + b| - 1] == a + b';
      TotalStoryPointsAppend(a, b');
    }
  }

  /** `daysDifference(currentDate, updatedDate) <= 7` with `currentDate` being
      `now` shifted by three hours: `Math.floor((now + 3h - updated) / 1 day) <= 7`. */
  predicate IsRecent(now: int, t: Task)
  {
    (now + SHIFT_MS - t.updated) / DAY_MS <= 7
  }

  /** The recency test is a single threshold: a task counts exactly when it
      was updated after `now + 3h - 8 days`, so every future-dated task counts. */
  lemma IsRecentThreshold(now: int, t: Task)
    ensures IsRecent(now, t) <==> t.updated > now + SHIFT_MS - 8 * DAY_MS
    ensures t.updated >= now ==> IsRecent(now, t)
  {
  }

  /** `filter(isRecent).length`. */
  function RecentCount(s: seq<Task>, now: int): (n: nat)
    ensures n <= |s|
  {
    if s == [] then 0
    else RecentCount(s[..|s| - 1], now) + (if IsRecent(now, s[|s| - 1]) then 1 else 0)
  }

  lemma {:induction false} RecentCountAppend(a: seq<Task>, b: seq<Task>, now: int)
    ensures RecentCount(a + b, now) == RecentCount(a, now) + RecentCount(b, now)
  {
    if b == [] {
      assert a + b == a;
    } else {
      var b' := b[..|b| - 1];
      assert (a + b)[..|a + b| - 1] == a + b';
      RecentCountAppend(a, b', now);
    }
  }

  /** The server's histogram key, `item.fields.priority?.name || 'Unknown'`:
      a missing or empty name is 'Unknown'. */
  function ServerPriorityKey(t: Task): (k: string)
    ensures k == UNKNOWN_PRIORITY <==> !t.priority.Name? || t.priority.value == "" || t.priority.value == UNKNOWN_PRIORITY
    ensures t.priority.Name? && t.priority.value != "" ==> k == t.priority.value
  {
    match t.priority
    case Name(name) => if name == "" then UNKNOWN_PRIORITY else name
    case _ => UNKNOWN_PRIORITY
  }

  /** The scenes' histogram key, `item.fields.priority.name` used as an
      object key: JavaScript converts a `null` name to the key "null" and a
      missing one to "undefined". */
  function ClientPriorityKey(t: Task): (k: string)
    ensures t.priority.Name? ==> k == t.priority.value
    ensures t.priority.NullName? ==> k == "null"
    ensures t.priority.NoName? ==> k == "undefined"
  {
    match t.priority
    case Name(name) => name
    case NullName => "null"
    case NoName => "undefined"
  }

  /** The scenes and the server key a task alike exactly when it has a
      non-empty name: an empty, `null` or missing name is 'Unknown' on the
      server but "", "null" or "undefined" in the scenes. */
  lemma ClientServerKeysAgree(t: Task)
    ensures ClientPriorityKey(t) == ServerPriorityKey(t) <==>
      t.priority.Name? && t.priority.value != ""
  {
  }

  /** Average story points: 0 for no tasks, otherwise the exact quotient
      (the one-decimal rendering is not modelled). */
  function Average(total: int, count: nat): real
  {
    if count > 0 then (total as real) / (count as real) else 0.0
  }

  /** The average is 0 for no tasks and otherwise, times the count, gives
      the total back. */
  lemma AverageTimesCount(total: int, count: nat)
    ensures count == 0 ==> Average(total, count) == 0.0
    ensures count > 0 ==> Average(total, count) * (count as real) == total as real
  {
  }
}
