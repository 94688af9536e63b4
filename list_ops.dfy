/** The JavaScript array operations the backlog handlers combine: `filter` by
    id, `findIndex` by id, `splice` and the `slice`-and-spread insertion, with
    JavaScript's index clamping. */
module ListOps {
  import opened Wrappers
  import opened Tasks

  function Min(a: int, b: int): int
  {
    if a < b then a else b
  }

  /** Number of tasks of `s` whose id is `id`. */
  function CountId(s: seq<Task>, id: string): nat
  {
    if s == [] then 0 else CountId(s[..|s| - 1], id) + (if s[|s| - 1].id == id then 1 else 0)
  }

  /** `s.filter(i => i.id !== id)`. */
  function RemoveId(s: seq<Task>, id: string): (r: seq<Task>)
    ensures |r| == |s| - CountId(s, id)
    ensures forall t :: t in r <==> t in s && t.id != id
  {
    if s == [] then []
    else
      var p := RemoveId(s[..|s| - 1], id);
      var x := s[|s| - 1];
      assert forall t :: t in s <==> t in s[..|s| - 1] || t == x;
      if x.id == id then p else p + [x]
  }

  /** `s.findIndex(i => i.id === id)`: the first position holding `id`, or -1. */
  function FindIndex(s: seq<Task>, id: string): (r: int)
    ensures -1 <= r < |s|
    ensures r == -1 <==> forall i :: 0 <= i < |s| ==> s[i].id != id
    ensures r >= 0 ==> s[r].id == id && forall j :: 0 <= j < r ==> s[j].id != id
  {
    if s == [] then -1
    else if s[0].id == id then 0
    else
      var r := FindIndex(s[1..], id);
      if r == -1 then -1 else r + 1
  }

  /** `s.splice(start, 1)` on a copy: a negative `start` counts from the end
      (clamped at 0), one past the end deletes nothing. */
  function SpliceDelete(s: seq<Task>, start: int): seq<Task>
  {
    var k := if start < 0 then (if |s| + start < 0 then 0 else |s| + start) else Min(start, |s|);
    if k < |s| then s[..k] + s[k + 1..] else s
  }

  /** `s.splice(i, 0, x)`, equally `[...s.slice(0, i), x, ...s.slice(i)]`, for
      `i >= 0`: an index past the end appends. */
  function InsertAt(s: seq<Task>, i: nat, x: Task): seq<Task>
  {
    var k := Min(i, |s|);
    s[..k] + [x] + s[k..]
  }

  /** `s` without its element at position `k`. */
  function RemoveAt(s: seq<Task>, k: nat): seq<Task>
    requires k < |s|
  {
    s[..k] + s[k + 1..]
  }

  /** The same-list branch of `handleDrop`: delete at the index `findIndex`
      returns, then insert the dragged item at the drop index, which is not
      shifted to account for the deletion. */
  function Reorder(s: seq<Task>, item: Task, dropIndex: nat): (r: seq<Task>)
    ensures |r| == if s == [] then 1 else |s|
    ensures item in r
  {
    var d := SpliceDelete(s, FindIndex(s, item.id));
    InsertAtProperties(d, dropIndex, item);
    InsertAt(d, dropIndex, item)
  }

  /** Inserting `x` anywhere adds exactly `x` to the multiset of tasks, puts it
      at the clamped index, and leaves the others in their order around it. */
  lemma InsertAtProperties(s: seq<Task>, i: nat, x: Task)
    ensures |InsertAt(s, i, x)| == |s| + 1
    ensures multiset(InsertAt(s, i, x)) == multiset(s) + multiset{x}
    ensures InsertAt(s, i, x)[Min(i, |s|)] == x
    ensures RemoveAt(InsertAt(s, i, x), Min(i, |s|)) == s
  {
    var k := Min(i, |s|);
    var r := InsertAt(s, i, x);
    assert s == s[..k] + s[k..];
    assert r[..k] == s[..k];
    assert r[k + 1..] == s[k..];
  }

  /** Reordering when some task carries the dragged id: the FIRST task with
      that id (the one `findIndex` finds) is taken out and the dragged task
      is put in at `min(dropIndex, n - 1)`; the length is kept and every other
      task keeps its relative order. When an earlier task shares the dragged
      task's id, that earlier task is the one that disappears. */
  lemma ReorderReplacesFirst(s: seq<Task>, item: Task, dropIndex: nat)
    requires FindIndex(s, item.id) >= 0
    ensures |Reorder(s, item, dropIndex)| == |s|
    ensures multiset(Reorder(s, item, dropIndex)) ==
            multiset(s) - multiset{s[FindIndex(s, item.id)]} + multiset{item}
    ensures Reorder(s, item, dropIndex)[Min(dropIndex, |s| - 1)] == item
    ensures RemoveAt(Reorder(s, item, dropIndex), Min(dropIndex, |s| - 1)) ==
            RemoveAt(s, FindIndex(s, item.id))
  {
    var c := FindIndex(s, item.id);
    var d := SpliceDelete(s, c);
    assert d == RemoveAt(s, c);
    RemoveAtMultiset(s, c);
    InsertAtProperties(d, dropIndex, item);
    assert Min(dropIndex, |d|) == Min(dropIndex, |s| - 1);
  }

  /** Reordering a task that is itself the first carrying its id is a
      permutation: the multiset of tasks is kept. */
  lemma ReorderPresent(s: seq<Task>, item: Task, dropIndex: nat)
    requires FindIndex(s, item.id) >= 0 && s[FindIndex(s, item.id)] == item
    ensures |Reorder(s, item, dropIndex)| == |s|
    ensures multiset(Reorder(s, item, dropIndex)) == multiset(s)
    ensures Reorder(s, item, dropIndex)[Min(dropIndex, |s| - 1)] == item
    ensures RemoveAt(Reorder(s, item, dropIndex), Min(dropIndex, |s| - 1)) ==
            RemoveAt(s, FindIndex(s, item.id))
  {
    ReorderReplacesFirst(s, item, dropIndex);
    assert item in multiset(s);
  }

  /** With duplicate ids the same-list drop is not a permutation: in
      `[a, b, a2]` where `a2` shares `a`'s id, dragging `a2` to the top
      gives `[a2, b, a2]`, so `a` is lost and `a2` appears twice. */
  lemma ReorderDuplicateLosesFirst(a: Task, b: Task, a2: Task)
    requires a.id == a2.id && b.id != a.id && a != a2
    ensures Reorder([a, b, a2], a2, 0) == [a2, b, a2]
    ensures a !in Reorder([a, b, a2], a2, 0)
  {
    assert FindIndex([a, b, a2], a2.id) == 0;
    assert SpliceDelete([a, b, a2], 0) == [b, a2];
  }

  /** Removing position `k` takes exactly `s[k]` out of the multiset. */
  lemma RemoveAtMultiset(s: seq<Task>, k: nat)
    requires k < |s|
    ensures |RemoveAt(s, k)| == |s| - 1
    ensures multiset(s) == multiset(RemoveAt(s, k)) + multiset{s[k]}
  {
    assert s == s[..k] + [s[k]] + s[k + 1..];
  }

  /** The `findIndex` result -1 quirk: when no task carries the dragged id,
      `splice(-1, 1)` deletes the LAST task of a non-empty list, which the
      dragged task then replaces at the drop index. */
  lemma ReorderAbsentDropsLast(s: seq<Task>, item: Task, dropIndex: nat)
    requires forall i :: 0 <= i < |s| ==> s[i].id != item.id
    requires s != []
    ensures Reorder(s, item, dropIndex) == InsertAt(s[..|s| - 1], dropIndex, item)
    ensures |Reorder(s, item, dropIndex)| == |s|
    ensures s[|s| - 1] !in Reorder(s, item, dropIndex) || s[|s| - 1] in s[..|s| - 1]
  {
    var d := SpliceDelete(s, -1);
    assert d == s[..|s| - 1];
    InsertAtProperties(d, dropIndex, item);
    var r := Reorder(s, item, dropIndex);
    if s[|s| - 1] in r {
      var j :| 0 <= j < |r| && r[j] == s[|s| - 1];
      assert r[j] != item;
      assert s[|s| - 1] in multiset(r);
      assert s[|s| - 1] in multiset(d);
    }
  }

  /** `filter` keeps order: it distributes over concatenation and keeps or
      drops each single task by its id. */
  lemma {:induction false} RemoveIdAppend(a: seq<Task>, b: seq<Task>, id: string)
    ensures RemoveId(a + b, id) == RemoveId(a, id) + RemoveId(b, id)
  {
    if b == [] {
      assert a + b == a;
    } else {
      var b' := b[..|b| - 1];
      assert (a + b)[..|a + b| - 1] == a + b';
      assert (a + b)[|a + b| - 1] == b[|b| - 1];
      RemoveIdAppend(a, b', id);
    }
  }

  lemma RemoveIdSingle(t: Task, id: string)
    ensures RemoveId([t], id) == if t.id == id then [] else [t]
  {
    assert [t][..0] == [];
  }

  /** Removing by id is idempotent and leaves no task with that id. */
  lemma RemoveIdIdempotent(s: seq<Task>, id: string)
    ensures RemoveId(RemoveId(s, id), id) == RemoveId(s, id)
    ensures id !in Ids(RemoveId(s, id))
  {
    var r := RemoveId(s, id);
    IdsMembership(r, id);
    assert forall i :: 0 <= i < |r| ==> r[i] in r;
    RemoveIdAbsent(r, id);
  }

  /** Filtering out an id that is absent changes nothing. */
  lemma {:induction false} RemoveIdAbsent(s: seq<Task>, id: string)
    requires forall i :: 0 <= i < |s| ==> s[i].id != id
    ensures RemoveId(s, id) == s
  {
    if s != [] {
      var p := s[..|s| - 1];
      forall i | 0 <= i < |p| ensures p[i].id != id {
        assert p[i] == s[i];
      }
      RemoveIdAbsent(p, id);
      assert s[|s| - 1].id != id;
      assert RemoveId(s, id) == RemoveId(p, id) + [s[|s| - 1]];
      assert p + [s[|s| - 1]] == s;
    }
  }

  lemma {:induction false} CountIdZero(s: seq<Task>, id: string)
    ensures CountId(s, id) == 0 <==> id !in Ids(s)
  {
    if s != [] {
      CountIdZero(s[..|s| - 1], id);
    }
  }

  /** `s.some(t => t.id === x.id) ? s : [...s, x]`: the add-to-sustainability
      rule. */
  function AddIfAbsent(s: seq<Task>, x: Task): (r: seq<Task>)
    ensures x.id in Ids(r)
  {
    IdsMembership(s, x.id);
    IdsMembership(s + [x], x.id);
    assert (s + [x])[|s|] == x;
    if exists i :: 0 <= i < |s| && s[i].id == x.id then s else s + [x]
  }

  /** Adding is idempotent, appends at the end when the id is new, and
      changes nothing when it is already present. */
  lemma AddIfAbsentProperties(s: seq<Task>, x: Task)
    ensures AddIfAbsent(AddIfAbsent(s, x), x) == AddIfAbsent(s, x)
    ensures x.id in Ids(s) ==> AddIfAbsent(s, x) == s
    ensures x.id !in Ids(s) ==> AddIfAbsent(s, x) == s + [x]
  {
    IdsMembership(s, x.id);
    var r := AddIfAbsent(s, x);
    IdsMembership(r, x.id);
  }

  /** A move between the two lists: every task with the dragged id leaves
      the source list, the dragged task enters the target list at the clamped
      index, and the other tasks of both lists keep their order. If the id
      occurred exactly once in the source and not in the target, the total
      number of tasks is unchanged and the two lists still share no id. */
  lemma MoveAcross(src: seq<Task>, dst: seq<Task>, item: Task, dropIndex: nat)
    ensures item.id !in Ids(RemoveId(src, item.id))
    ensures InsertAt(dst, dropIndex, item)[Min(dropIndex, |dst|)] == item
    ensures RemoveAt(InsertAt(dst, dropIndex, item), Min(dropIndex, |dst|)) == dst
    ensures |RemoveId(src, item.id)| + |InsertAt(dst, dropIndex, item)| ==
            |src| + |dst| + 1 - CountId(src, item.id)
    ensures Ids(src) !! Ids(dst) ==>
            Ids(RemoveId(src, item.id)) !! Ids(InsertAt(dst, dropIndex, item))
  {
    RemoveIdIdempotent(src, item.id);
    InsertAtProperties(dst, dropIndex, item);
    var r := RemoveId(src, item.id);
    var n := InsertAt(dst, dropIndex, item);
    var k := Min(dropIndex, |dst|);
    IdsAppend(dst[..k] + [item], dst[k..]);
    IdsAppend(dst[..k], [item]);
    assert dst == dst[..k] + dst[k..];
    IdsAppend(dst[..k], dst[k..]);
    assert Ids([item]) == {item.id} by { assert [item][..0] == []; }
    if Ids(src) !! Ids(dst) {
      forall id | id in Ids(r) ensures id in Ids(src) {
        IdsMembership(r, id);
        IdsMembership(src, id);
        var i :| 0 <= i < |r| && r[i].id == id;
        assert r[i] in r;
      }
    }
  }
}
