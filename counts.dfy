/** A plain JavaScript object used as a tally (`acc[k] = (acc[k] || 0) + 1`).
    Its string keys enumerate in insertion order, so it is modelled as an
    association list: one entry per key, in the order keys were first seen. */
module Counts {
  import opened Wrappers
  import opened Tasks

  datatype Entry = Entry(key: string, count: nat)

  type Tally = seq<Entry>

  /** Keys are pairwise distinct and every count is positive. */
  predicate WellFormed(c: Tally)
  {
    c == [] || (c[0].count > 0 && c[0].key !in Keys(c[1..]) && WellFormed(c[1..]))
  }

  /** `acc[k] || 0`. */
  function CountOf(c: Tally, k: string): nat
  {
    if c == [] then 0
    else if c[0].key == k then c[0].count
    else CountOf(c[1..], k)
  }

  function Keys(c: Tally): set<string>
  {
    if c == [] then {} else {c[0].key} + Keys(c[1..])
  }

  /** Sum of all counts. */
  function Total(c: Tally): nat
  {
    if c == [] then 0 else c[0].count + Total(c[1..])
  }

  /** `acc[k] = (acc[k] || 0) + 1`: bump an existing key in place, or append
      a new key with count 1. */
  function Bump(c: Tally, k: string): (r: Tally)
    ensures Total(r) == Total(c) + 1
    ensures CountOf(r, k) == CountOf(c, k) + 1
    ensures forall k' :: k' != k ==> CountOf(r, k') == CountOf(c, k')
    ensures Keys(r) == Keys(c) + {k}
  {
    if c == [] then [Entry(k, 1)]
    else if c[0].key == k then [Entry(k, c[0].count + 1)] + c[1..]
    else [c[0]] + Bump(c[1..], k)
  }

  /** Bumping keeps keys distinct and counts positive. */
  lemma {:induction false} BumpWellFormed(c: Tally, k: string)
    requires WellFormed(c)
    ensures WellFormed(Bump(c, k))
  {
    if c != [] && c[0].key != k {
      BumpWellFormed(c[1..], k);
      assert Bump(c, k)[1..] == Bump(c[1..], k);
    }
  }

  /** Folding `Bump` over `s` from `c`, left to right, keyed by `keyOf`: the
      body of a `reduce` or `forEach` that counts tasks per key. */
  function TallyFrom(c: Tally, s: seq<Task>, keyOf: Task -> string): Tally
  {
    if s == [] then c else Bump(TallyFrom(c, s[..|s| - 1], keyOf), keyOf(s[|s| - 1]))
  }

  /** How many tasks of `s` have key `k`. */
  function CountKey(s: seq<Task>, keyOf: Task -> string, k: string): nat
  {
    if s == [] then 0
    else CountKey(s[..|s| - 1], keyOf, k) + (if keyOf(s[|s| - 1]) == k then 1 else 0)
  }

  function KeysOf(s: seq<Task>, keyOf: Task -> string): set<string>
  {
    if s == [] then {} else KeysOf(s[..|s| - 1], keyOf) + {keyOf(s[|s| - 1])}
  }

  /** A tally started from nothing counts each key exactly as often as it
      occurs in `s`, holds exactly the keys that occur, keeps distinct keys,
      and its counts sum to the number of tasks. */
  lemma {:induction false} TallyCounts(s: seq<Task>, keyOf: Task -> string)
    ensures WellFormed(TallyFrom([], s, keyOf))
    ensures Total(TallyFrom([], s, keyOf)) == |s|
    ensures Keys(TallyFrom([], s, keyOf)) == KeysOf(s, keyOf)
    ensures forall k :: CountOf(TallyFrom([], s, keyOf), k) == CountKey(s, keyOf, k)
  {
    if s != [] {
      TallyCounts(s[..|s| - 1], keyOf);
      BumpWellFormed(TallyFrom([], s[..|s| - 1], keyOf), keyOf(s[|s| - 1]));
    }
  }

  /** Tallying `a + b` is tallying `b` on top of the tally of `a`: a tally
      that keeps running across several lists is one tally of their
      concatenation. */
  lemma {:induction false} TallyAppend(c: Tally, a: seq<Task>, b: seq<Task>, keyOf: Task -> string)
    ensures TallyFrom(c, a + b, keyOf) == TallyFrom(TallyFrom(c, a, keyOf), b, keyOf)
  {
    if b == [] {
      assert a + b == a;
    } else {
      var b' := b[..|b| - 1];
      assert (a + b)[..|a + b| - 1] == a + b';
      assert (a + b)[|a + b| - 1] == b[|b| - 1];
      TallyAppend(c, a, b', keyOf);
    }
  }

  lemma {:induction false} CountKeyAppend(a: seq<Task>, b: seq<Task>, keyOf: Task -> string, k: string)
    ensures CountKey(a + b, keyOf, k) == CountKey(a, keyOf, k) + CountKey(b, keyOf, k)
  {
    if b == [] {
      assert a + b == a;
    } else {
      var b' := b[..|b| - 1];
      assert (a + b)[..|a + b| - 1] == a + b';
      assert (a + b)[|a + b| - 1] == b[|b| - 1];
      CountKeyAppend(a, b', keyOf, k);
    }
  }

  /** The counting loop itself: `forEach(item => acc[keyOf(item)] = ...)`
      over `s`, starting from the tally `c`. */
  method TallyInto(c: Tally, s: seq<Task>, keyOf: Task -> string) returns (r: Tally)
    ensures r == TallyFrom(c, s, keyOf)
  {
    r := c;
    for j := 0 to |s|
      invariant r == TallyFrom(c, s[..j], keyOf)
    {
      assert s[..j + 1][..j] == s[..j];
      r := Bump(r, keyOf(s[j]));
    }
    assert s[..|s|] == s;
  }
}
