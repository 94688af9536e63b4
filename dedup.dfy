/** Stable de-duplication by id: the loop over a list that keeps an item only
    when its id has not been seen before. The same loop appears in the
    per-project report, in the all-projects report and in both report scenes. */
module Dedup {
  import opened Wrappers
  import opened Tasks

  /** The first-occurrence-by-id sublist of `s`, in the order of `s`. */
  function Unique(s: seq<Task>): seq<Task>
  {
    if s == [] then []
    else
      var p := s[..|s| - 1];
      if s[|s| - 1].id in Ids(p) then Unique(p) else Unique(p) + [s[|s| - 1]]
  }

  /** The position of the first task of `s` whose id is `id`. */
  function FirstIndex(s: seq<Task>, id: string): (i: nat)
    requires id in Ids(s)
    ensures i < |s| && s[i].id == id
    ensures forall j :: 0 <= j < i ==> s[j].id != id
  {
    var p := s[..|s| - 1];
    if id in Ids(p) then
      FirstIndex(p, id)
    else
      IdsMembership(p, id);
      |s| - 1
  }

  /** An id that occurs before the last task is first found there. */
  lemma FirstIndexSnoc(s: seq<Task>, id: string)
    requires s != [] && id in Ids(s[..|s| - 1])
    ensures id in Ids(s) && FirstIndex(s, id) == FirstIndex(s[..|s| - 1], id)
  {
  }

  /** The loop of projectRoutes.js (and of both report scenes): a set of seen
      ids and a list that only grows by items whose id is new. */
  method DedupById(items: seq<Task>) returns (unique: seq<Task>)
    ensures unique == Unique(items)
  {
    unique := [];
    var seen: set<string> := {};
    for i := 0 to |items|
      invariant unique == Unique(items[..i])
      invariant seen == Ids(items[..i])
    {
      var item := items[i];
      assert items[..i + 1][..i] == items[..i];
      if item.id !in seen {
        seen := seen + {item.id};
        unique := unique + [item];
      }
    }
    assert items[..|items|] == items;
  }

  /** The output carries every id of the input and no other. */
  lemma {:induction false} UniqueIds(s: seq<Task>)
    ensures Ids(Unique(s)) == Ids(s)
  {
    if s != [] {
      var p := s[..|s| - 1];
      UniqueIds(p);
      if s[|s| - 1].id !in Ids(p) {
        var u := Unique(p) + [s[|s| - 1]];
        assert u[..|u| - 1] == Unique(p);
      }
    }
  }

  /** No two tasks of the output share an id. */
  lemma {:induction false} UniqueDistinct(s: seq<Task>)
    ensures forall i, j :: 0 <= i < j < |Unique(s)| ==> Unique(s)[i].id != Unique(s)[j].id
  {
    if s != [] {
      var p := s[..|s| - 1];
      UniqueDistinct(p);
      var x := s[|s| - 1];
      if x.id !in Ids(p) {
        UniqueIds(p);
        var u := Unique(p);
        forall i | 0 <= i < |u| ensures u[i].id != x.id {
          IdsMembership(u, u[i].id);
        }
      }
    }
  }

  /** Every output task is the input's first task with that id, and the
      output lists them in the order of those first occurrences: the output is
      exactly the subsequence of first occurrences. */
  lemma {:induction false} UniqueIsFirstOccurrences(s: seq<Task>)
    ensures |Unique(s)| <= |s|
    ensures forall k :: 0 <= k < |Unique(s)| ==>
      Unique(s)[k].id in Ids(s) && Unique(s)[k] == s[FirstIndex(s, Unique(s)[k].id)]
    ensures forall k, l :: 0 <= k < l < |Unique(s)| ==>
      Unique(s)[k].id in Ids(s) && Unique(s)[l].id in Ids(s) &&
      FirstIndex(s, Unique(s)[k].id) < FirstIndex(s, Unique(s)[l].id)
  {
    if s != [] {
      var p := s[..|s| - 1];
      var x := s[|s| - 1];
      UniqueIsFirstOccurrences(p);
      UniqueIds(p);
      var u := Unique(p);
      assert Ids(s) == Ids(p) + {x.id};
      forall k | 0 <= k < |u|
        ensures u[k].id in Ids(p) && FirstIndex(s, u[k].id) == FirstIndex(p, u[k].id)
        ensures s[FirstIndex(s, u[k].id)] == u[k]
      {
        IdsMembership(u, u[k].id);
        FirstIndexSnoc(s, u[k].id);
      }
      if x.id !in Ids(p) {
        assert FirstIndex(s, x.id) == |s| - 1;
        assert Unique(s) == u + [x];
      } else {
        assert Unique(s) == u;
      }
    }
  }

  /** The de-duplicated list is as long as the number of distinct ids. */
  lemma {:induction false} UniqueLength(s: seq<Task>)
    ensures |Unique(s)| == |Ids(s)|
  {
    if s != [] {
      var p := s[..|s| - 1];
      UniqueLength(p);
    }
  }

  /** De-duplicating twice changes nothing. */
  lemma UniqueIdempotent(s: seq<Task>)
    ensures Unique(Unique(s)) == Unique(s)
  {
    UniqueDistinct(s);
    DistinctIsUnique(Unique(s));
  }

  lemma {:induction false} DistinctIsUnique(s: seq<Task>)
    requires forall i, j :: 0 <= i < j < |s| ==> s[i].id != s[j].id
    ensures Unique(s) == s
  {
    if s != [] {
      var p := s[..|s| - 1];
      DistinctIsUnique(p);
      IdsMembership(p, s[|s| - 1].id);
    }
  }
}
