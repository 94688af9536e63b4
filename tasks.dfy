/** The backlog task record shared by the client hook, the report scenes and
    the server routes, reduced to the fields that some computation reads. */
module Tasks {
  import opened Wrappers

  /** `fields.priority.name`: a string, `null`, or absent (`undefined`). */
  datatype PriorityName = Name(value: string) | NullName | NoName

  /** One backlog item. `priority` is the `fields.priority.name` of the
      record; `storyPoints` is
      `fields.customfield_10016` (None when it is null, undefined or NaN);
      `updated` is `fields.updated` as milliseconds since the epoch. */
  datatype Task = Task(
    id: string,
    key: string,
    summary: string,
    description: string,
    priority: PriorityName,
    storyPoints: Option<int>,
    updated: int)

  /** `item.fields.customfield_10016 || 0`: a missing value and 0 both count 0. */
  function StoryPointsOf(t: Task): int
  {
    match t.storyPoints
    case None => 0
    case Some(n) => n
  }

  /** The set of ids occurring in `s` (what a JavaScript `Set` of ids holds
      after one pass over `s`). */
  function Ids(s: seq<Task>): set<string>
  {
    if s == [] then {} else Ids(s[..|s| - 1]) + {s[|s| - 1].id}
  }

  lemma {:induction false} IdsMembership(s: seq<Task>, id: string)
    ensures id in Ids(s) <==> exists i :: 0 <= i < |s| && s[i].id == id
  {
    if s != [] {
      var p := s[..|s| - 1];
      IdsMembership(p, id);
      if id in Ids(p) {
        var i :| 0 <= i < |p| && p[i].id == id;
        assert s[i].id == id;
      }
      if exists i :: 0 <= i < |s| && s[i].id == id {
        var i :| 0 <= i < |s| && s[i].id == id;
        if i < |p| { assert p[i].id == id; }
      }
    }
  }

  lemma {:induction false} IdsAppend(a: seq<Task>, b: seq<Task>)
    ensures Ids(a + b) == Ids(a) + Ids(b)
  {
    if b == [] {
      assert a + b == a;
    } else {
      var c := b[..|b| - 1];
      assert (a + b)[..|a + b| - 1] == a + c;
      IdsAppend(a, c);
    }
  }

  /** `flatMap(project => project.sustainabilityBacklog || [])`: every
      project's list, in project order (a missing list is the empty list). */
  function Flatten(lists: seq<seq<Task>>): seq<Task>
  {
    if lists == [] then [] else Flatten(lists[..|lists| - 1]) + lists[|lists| - 1]
  }
}
