/** The gap-filling numbering policy of `_deleteAndIdNotes` (ngen.py:287-299,
    320-335 and 584-595, 617-704).

    The numbers still carried by shapes that already have a note are the
    "existing" numbers. The pool is `{1..max} - existing`, in ascending order.
    Each new shape takes the smallest number left in the pool; once the pool
    is empty, new shapes take `max+1`, `max+2`, and so on. */
module Numbering {
  import opened Wrappers

  // ---------------------------------------------------------------- increasing sequences

  /** A strictly increasing sequence of numbers: the pool of free numbers,
      and the positions `mnode_indexes` records, which the loops that fill
      it visit in order. */
  ghost predicate Ascending(xs: seq<nat>) {
    forall u, v :: Below(xs, u, v)
  }

  /** The numbers a sequence holds, as a set: the positions `mnode_indexes`
      records, as the loops of the OA mask and `mnode_ids` see them. */
  function Positions(xs: seq<nat>): set<nat> {
    set u | u in xs
  }

  /** The recorded position `u` lies below the one recorded after it at `v`.
      Stated separately so that `Ascending` is used only where a proof names
      the two positions. */
  ghost predicate Below(xs: seq<nat>, u: int, v: int) {
    0 <= u < v < |xs| ==> xs[u] < xs[v]
  }

  /** No recorded position lies strictly between two consecutive ones. */
  lemma AscendingGap(indexes: seq<nat>, t: nat, p: nat)
    requires Ascending(indexes) && 0 < t <= |indexes|
    requires indexes[t - 1] < p && (t < |indexes| ==> p < indexes[t])
    ensures p !in indexes
  {
    if p in indexes {
      var k :| 0 <= k < |indexes| && indexes[k] == p;
      if k < t - 1 {
        AscendingAt(indexes, k, t - 1);
      } else if k > t {
        AscendingAt(indexes, t, k);
      }
    }
  }

  /** Two recorded positions compare as their places in the record. */
  lemma AscendingAt(xs: seq<nat>, u: nat, v: nat)
    requires Ascending(xs) && u < v < |xs|
    ensures xs[u] < xs[v]
  {
    assert Below(xs, u, v);
  }

  /** An increasing record holds no position twice. */
  lemma AscendingDistinct(xs: seq<nat>, u: nat, v: nat)
    requires Ascending(xs) && u < |xs| && v < |xs| && u != v
    ensures xs[u] != xs[v]
  {
    if u < v {
      AscendingAt(xs, u, v);
    } else {
      AscendingAt(xs, v, u);
    }
  }

  /** A prefix of an increasing record is increasing. */
  lemma AscendingPrefix(xs: seq<nat>, n: nat)
    requires Ascending(xs) && n <= |xs|
    ensures Ascending(xs[..n])
  {
    forall u, v ensures Below(xs[..n], u, v) {
      assert Below(xs, u, v);
    }
  }

  /** Recording a position above all recorded ones keeps the record
      increasing. */
  lemma AscendingAppend(xs: seq<nat>, p: nat)
    requires Ascending(xs) && forall t :: 0 <= t < |xs| ==> xs[t] < p
    ensures Ascending(xs + [p])
  {
    forall u, v ensures Below(xs + [p], u, v) {
      assert Below(xs, u, v);
    }
  }

  /** No position below the first recorded one is recorded. */
  lemma AscendingFirst(xs: seq<nat>, p: nat)
    requires Ascending(xs) && 0 < |xs| && p < xs[0]
    ensures p !in xs
  {
    if p in xs {
      var k :| 0 <= k < |xs| && xs[k] == p;
      AscendingAt(xs, 0, k);
    }
  }

  /** A number below all of an increasing sequence can open it. */
  lemma AscendingCons(p: nat, xs: seq<nat>)
    requires Ascending(xs) && forall t :: 0 <= t < |xs| ==> p < xs[t]
    ensures Ascending([p] + xs)
  {
    forall u, v ensures Below([p] + xs, u, v) {
      assert Below(xs, u - 1, v - 1);
    }
  }

  /** `max_mnode_note_nr`: the largest existing number, 0 when there is none. */
  function MaxNr(nrs: seq<nat>): (m: nat)
    ensures forall i :: 0 <= i < |nrs| ==> nrs[i] <= m
    ensures |nrs| > 0 ==> m in nrs
    ensures |nrs| == 0 ==> m == 0
  {
    if |nrs| == 0 then 0
    else
      var m := MaxNr(nrs[..|nrs| - 1]);
      assert forall i :: 0 <= i < |nrs| - 1 ==> nrs[..|nrs| - 1][i] == nrs[i];
      if nrs[|nrs| - 1] > m then nrs[|nrs| - 1] else m
  }

  /** The numbers `lo..hi` that are not in `ex`, ascending. */
  function Gaps(lo: nat, hi: nat, ex: set<nat>): (r: seq<nat>)
    ensures forall i :: 0 <= i < |r| ==> lo <= r[i] <= hi && r[i] !in ex
    ensures Ascending(r)
    ensures forall x :: lo <= x <= hi && x !in ex ==> x in r
    decreases hi + 1 - lo
  {
    if lo > hi then []
    else
      var rest := Gaps(lo + 1, hi, ex);
      if lo in ex then rest
      else
        AscendingCons(lo, rest);
        [lo] + rest
  }

  /** `available_nrs`: `sorted(set(range(1, max + 1)) - set(existing))`,
      empty when nothing exists (ngen.py:290-299). */
  function Pool(existing: seq<nat>): seq<nat> {
    Gaps(1, MaxNr(existing), set x | x in existing)
  }

  /** The pool holds exactly the free numbers up to the maximum, each once,
      in ascending order. */
  lemma PoolIsFreeNumbers(existing: seq<nat>)
    ensures forall x :: x in Pool(existing) <==> 1 <= x <= MaxNr(existing) && x !in existing
    ensures Ascending(Pool(existing))
  {
  }

  /** The numbering state carried through the loop: what is left of
      `available_nrs` and `note_nr_max`. */
  datatype Counter = Counter(pool: seq<nat>, max: nat)

  /** One new shape's number: `available_nrs.pop(0)` if the pool is not
      empty, else `note_nr_max + 1` (ngen.py:327-333). */
  function Take(c: Counter): (nat, Counter) {
    if |c.pool| > 0 then (c.pool[0], Counter(c.pool[1..], c.max))
    else (c.max + 1, Counter([], c.max + 1))
  }

  /** The counter in effect before numbering any shape. */
  function Start(existing: seq<nat>): Counter {
    Counter(Pool(existing), MaxNr(existing))
  }

  /** The number handed to the new shape of rank `j` (0-based, counted among
      new shapes only). */
  function NthFree(c: Counter, j: nat): nat {
    if j < |c.pool| then c.pool[j] else c.max + 1 + (j - |c.pool|)
  }

  /** The counter after `j` new shapes have been numbered. */
  function After(c: Counter, j: nat): Counter {
    if j <= |c.pool| then Counter(c.pool[j..], c.max) else Counter([], c.max + j - |c.pool|)
  }

  /** Taking one more number from the counter after `j` numbers yields the
      `j`-th free number and the counter after `j + 1`. */
  lemma TakeAfter(c: Counter, j: nat)
    ensures Take(After(c, j)) == (NthFree(c, j), After(c, j + 1))
  {
    if j < |c.pool| {
      assert c.pool[j..][1..] == c.pool[j + 1..];
    }
  }

  /** A pool fit for numbering: ascending and below the maximum. */
  ghost predicate WellFormed(c: Counter) {
    && Ascending(c.pool)
    && (forall i :: 0 <= i < |c.pool| ==> 1 <= c.pool[i] <= c.max)
  }

  lemma StartWellFormed(existing: seq<nat>)
    ensures WellFormed(Start(existing))
  {
  }

  /** Different new shapes receive different numbers. */
  lemma NthFreeInjective(c: Counter, i: nat, j: nat)
    requires WellFormed(c) && i != j
    ensures NthFree(c, i) != NthFree(c, j)
  {
    if i < |c.pool| && j < |c.pool| {
      AscendingDistinct(c.pool, i, j);
    }
  }

  /** A new shape never receives a number that an existing shape keeps. */
  lemma NthFreeIsFree(existing: seq<nat>, j: nat)
    ensures 1 <= NthFree(Start(existing), j)
    ensures NthFree(Start(existing), j) !in existing
  {
    var c := Start(existing);
    if j < |c.pool| {
      assert c.pool[j] in Pool(existing);
    }
  }

  /** The gap-filling law: the new shape of rank `j` receives the smallest
      positive number that is neither kept by an existing shape nor given to
      an earlier new shape. */
  lemma {:induction false} NthFreeIsSmallest(existing: seq<nat>, j: nat, m: nat)
    requires 1 <= m < NthFree(Start(existing), j) && m !in existing
    ensures exists i :: 0 <= i < j && NthFree(Start(existing), i) == m
  {
    var c := Start(existing);
    PoolIsFreeNumbers(existing);
    if m <= c.max {
      assert m in c.pool;
      var i :| 0 <= i < |c.pool| && c.pool[i] == m;
      if j < |c.pool| && j < i {
        AscendingAt(c.pool, j, i);
      }
      assert NthFree(c, i) == m;
    } else {
      var i := m - c.max - 1 + |c.pool|;
      assert NthFree(c, i) == m;
    }
  }

  /** Once the pool is used up, numbering leaves no gap: every number from 1
      to the new maximum is kept by an existing shape or given to a new one. */
  lemma {:induction false} DenseAfterPool(existing: seq<nat>, count: nat, m: nat)
    requires count >= |Pool(existing)|
    requires 1 <= m <= MaxNr(existing) + count - |Pool(existing)|
    ensures m in existing || exists i :: 0 <= i < count && NthFree(Start(existing), i) == m
  {
    var c := Start(existing);
    if m !in existing {
      if m <= c.max {
        PoolIsFreeNumbers(existing);
        var i :| 0 <= i < |c.pool| && c.pool[i] == m;
        assert NthFree(c, i) == m;
      } else {
        var i := m - c.max - 1 + |c.pool|;
        assert NthFree(c, i) == m;
      }
    }
  }

  // ---------------------------------------------------------------- numbering a sequence

  /** How many of the first `k` shapes are new. */
  function NewBefore(isNew: seq<bool>, k: nat): (n: nat)
    requires k <= |isNew|
    ensures n <= k
  {
    if k == 0 then 0 else NewBefore(isNew, k - 1) + (if isNew[k - 1] then 1 else 0)
  }

  /** The numbers given to the new shapes of a sequence, shape by shape:
      `None` for a shape that already exists. This is the specification the
      loops of `_deleteAndIdNotes` are proved against. */
  function Assign(c: Counter, isNew: seq<bool>): (r: seq<Option<nat>>)
    ensures |r| == |isNew|
  {
    seq(|isNew|, k requires 0 <= k < |isNew| =>
      if isNew[k] then Some(NthFree(c, NewBefore(isNew, k))) else None)
  }

  /** All numbers given out in one pass are distinct from each other and
      from every existing number. */
  lemma AssignDistinct(existing: seq<nat>, isNew: seq<bool>, k1: nat, k2: nat)
    requires k1 < k2 < |isNew| && isNew[k1] && isNew[k2]
    ensures Assign(Start(existing), isNew)[k1] != Assign(Start(existing), isNew)[k2]
    ensures Assign(Start(existing), isNew)[k1].value !in existing
  {
    NewBeforeGrows(isNew, k1, k2);
    StartWellFormed(existing);
    NthFreeInjective(Start(existing), NewBefore(isNew, k1), NewBefore(isNew, k2));
    NthFreeIsFree(existing, NewBefore(isNew, k1));
  }

  lemma {:induction false} NewBeforeGrows(isNew: seq<bool>, k1: nat, k2: nat)
    requires k1 < k2 <= |isNew| && isNew[k1]
    ensures NewBefore(isNew, k1) < NewBefore(isNew, k2)
  {
    if k2 > k1 + 1 {
      NewBeforeGrows(isNew, k1, k2 - 1);
    }
  }

  /** `new_count` is the number of shapes that do not already exist. */
  function CountNew(isNew: seq<bool>): nat {
    NewBefore(isNew, |isNew|)
  }

  /** An unchanged document numbers nothing: with no new shape, no number is
      handed out and `new_count` is 0. */
  lemma NothingNewAssignsNothing(c: Counter, isNew: seq<bool>)
    requires forall k :: 0 <= k < |isNew| ==> !isNew[k]
    ensures CountNew(isNew) == 0
    ensures forall k :: 0 <= k < |isNew| ==> Assign(c, isNew)[k].None?
  {
    NoNewBefore(isNew, |isNew|);
  }

  lemma {:induction false} NoNewBefore(isNew: seq<bool>, k: nat)
    requires k <= |isNew|
    requires forall i :: 0 <= i < |isNew| ==> !isNew[i]
    ensures NewBefore(isNew, k) == 0
  {
    if k > 0 { NoNewBefore(isNew, k - 1); }
  }

  /** The shapes among the first `k` that are not new, counted as a set of
      positions: all the others. */
  lemma {:induction false} KeptBefore(isNew: seq<bool>, k: nat)
    requires k <= |isNew|
    ensures |set t | 0 <= t < k && !isNew[t]| == k - NewBefore(isNew, k)
  {
    if k > 0 {
      KeptBefore(isNew, k - 1);
      var before := set t | 0 <= t < k - 1 && !isNew[t];
      var now := set t | 0 <= t < k && !isNew[t];
      if isNew[k - 1] {
        assert now == before;
      } else {
        assert now == before + {k - 1};
        assert k - 1 !in before;
      }
    }
  }
}
