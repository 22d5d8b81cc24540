/** Stable regrouping of a sequence: elements of one group are gathered at the
    place of the group's first element, and nothing crosses a barrier.

    Two parts of the daemon do this with a growing list of groups and a map from
    key to group: model-history ordering (turns, with compaction barriers) and the
    model catalogue (families, with unknown models left alone).  The theory is
    developed once here, on index sequences, over an abstract key. */
module Regrouping {

  /** How an element takes part: it stops everything (`Barrier`), it is a group of
      its own (`Single`), or it belongs to the group named `k`. */
  datatype Key<K> = Barrier | Single | Group(k: K)

  /** `j` is in the same group as `i`, at or before it, with no barrier from `j` to `i`. */
  ghost predicate Joins<K>(keys: seq<Key<K>>, j: nat, i: nat)
    requires i < |keys|
  {
    j == i ||
    (j < i && keys[i].Group? && keys[j] == keys[i] && forall m :: j <= m <= i ==> !keys[m].Barrier?)
  }

  ghost function FirstFrom<K>(keys: seq<Key<K>>, i: nat, j: nat): (f: nat)
    requires j <= i < |keys|
    requires forall m: nat :: m < j ==> !Joins(keys, m, i)
    ensures f <= i && Joins(keys, f, i)
    ensures forall m: nat :: m < f ==> !Joins(keys, m, i)
    decreases i - j
  {
    if Joins(keys, j, i) then j else FirstFrom(keys, i, j + 1)
  }

  /** The first element of the group of `i`. */
  ghost function First<K>(keys: seq<Key<K>>, i: nat): (f: nat)
    requires i < |keys|
    ensures f <= i
  {
    FirstFrom(keys, i, 0)
  }

  lemma FirstJoins<K>(keys: seq<Key<K>>, i: nat)
    requires i < |keys|
    ensures Joins(keys, First(keys, i), i)
    ensures forall m: nat :: m < First(keys, i) ==> !Joins(keys, m, i)
  {
  }

  /** Groups come in the order of their first elements; a group keeps its own order. */
  ghost predicate Before<K>(keys: seq<Key<K>>, i: nat, j: nat)
    requires i < |keys| && j < |keys|
  {
    First(keys, i) < First(keys, j) || (First(keys, i) == First(keys, j) && i < j)
  }

  ghost predicate InRange(p: seq<nat>, n: nat) {
    forall a :: 0 <= a < |p| ==> p[a] < n
  }

  ghost predicate Sorted<K>(keys: seq<Key<K>>, p: seq<nat>)
    requires InRange(p, |keys|)
  {
    forall a, b :: 0 <= a < b < |p| ==> Before(keys, p[a], p[b])
  }

  /** `p` lists exactly the indices below `n`, in regrouped order. */
  ghost predicate IsRegrouping<K>(keys: seq<Key<K>>, n: nat, p: seq<nat>)
    requires n <= |keys|
  {
    |p| == n && InRange(p, n) && Sorted(keys, p) && forall i: nat :: i < n ==> i in p
  }

  // ----- uniqueness

  lemma {:induction false} SameElements<K>(keys: seq<Key<K>>, p: seq<nat>, q: seq<nat>)
    requires InRange(p, |keys|) && InRange(q, |keys|) && Sorted(keys, p) && Sorted(keys, q)
    requires forall x: nat :: x in p <==> x in q
    ensures p == q
  {
    assert (p != [] ==> p[0] in p) && (q != [] ==> q[0] in q);
    if p != [] {
      assert q[0] in p;
      assert p[0] == q[0];
      forall x: nat ensures x in p[1..] <==> x in q[1..] {
        assert forall a :: 0 < a < |p| ==> Before(keys, p[0], p[a]);
        assert forall a :: 0 < a < |q| ==> Before(keys, q[0], q[a]);
        assert x in p <==> x == p[0] || x in p[1..];
        assert x in q <==> x == q[0] || x in q[1..];
      }
      SameElements(keys, p[1..], q[1..]);
      assert p == [p[0]] + p[1..] && q == [q[0]] + q[1..];
    }
  }

  /** At most one sequence is the regrouping of a prefix. */
  lemma Unique<K>(keys: seq<Key<K>>, n: nat, p: seq<nat>, q: seq<nat>)
    requires n <= |keys| && IsRegrouping(keys, n, p) && IsRegrouping(keys, n, q)
    ensures p == q
  {
    forall x: nat ensures x in p <==> x in q {
    }
    SameElements(keys, p, q);
  }

  // ----- what the order means, without ranks

  /** `p` lists every index below `n` once; members of a group stay in their old order
      and next to each other; and groups come in the order of their first elements. */
  ghost predicate Gathers<K>(keys: seq<Key<K>>, n: nat, p: seq<nat>)
    requires n <= |keys|
  {
    && |p| == n && InRange(p, n) && (forall i: nat :: i < n ==> i in p)
    && (forall a, b :: 0 <= a < b < n && First(keys, p[a]) == First(keys, p[b]) ==> p[a] < p[b])
    && (forall a, m, b :: 0 <= a < m < b < n && First(keys, p[a]) == First(keys, p[b]) ==>
          First(keys, p[m]) == First(keys, p[a]))
    && (forall a, b :: 0 <= a < b < n && First(keys, p[a]) == p[a] && First(keys, p[b]) == p[b] ==> p[a] < p[b])
  }

  lemma LeaderAt<K>(keys: seq<Key<K>>, n: nat, p: seq<nat>, a: nat) returns (c: nat)
    requires n <= |keys| && Gathers(keys, n, p) && a < n
    ensures c <= a && p[c] == First(keys, p[a]) && First(keys, p[c]) == p[c]
  {
    var f := First(keys, p[a]);
    FirstIsOwnFirst(keys, p[a]);
    assert f in p;
    c :| 0 <= c < |p| && p[c] == f;
  }

  lemma GatheredIsSorted<K>(keys: seq<Key<K>>, n: nat, p: seq<nat>, a: nat, b: nat)
    requires n <= |keys| && Gathers(keys, n, p) && a < b < n
    ensures Before(keys, p[a], p[b])
  {
    var c := LeaderAt(keys, n, p, a);
    var d := LeaderAt(keys, n, p, b);
    assert First(keys, p[d]) == First(keys, p[b]);
    assert d < a ==> First(keys, p[a]) == First(keys, p[d]);
    assert d >= a && c < d ==> p[c] < p[d];
  }

  lemma RegroupGathers<K>(keys: seq<Key<K>>, n: nat)
    requires n <= |keys|
    ensures Gathers(keys, n, Regroup(keys, n))
  {
    RegroupIs(keys, n);
    var p := Regroup(keys, n);
    forall a, m, b | 0 <= a < m < b < n && First(keys, p[a]) == First(keys, p[b])
      ensures First(keys, p[m]) == First(keys, p[a])
    {
      assert Before(keys, p[a], p[m]) && Before(keys, p[m], p[b]);
    }
  }

  /** The regrouping is the one and only permutation that gathers. */
  lemma GathersIsRegrouping<K>(keys: seq<Key<K>>, n: nat, p: seq<nat>)
    requires n <= |keys|
    ensures Gathers(keys, n, p) <==> p == Regroup(keys, n)
  {
    RegroupGathers(keys, n);
    if Gathers(keys, n, p) {
      forall a, b | 0 <= a < b < |p| ensures Before(keys, p[a], p[b]) {
        GatheredIsSorted(keys, n, p, a, b);
      }
      RegroupIs(keys, n);
      Unique(keys, n, p, Regroup(keys, n));
    }
  }

  // ----- existence, by insertion

  /** How many leading entries belong to groups that start at or before `f`. */
  ghost function Upto<K>(keys: seq<Key<K>>, p: seq<nat>, f: nat): (c: nat)
    requires InRange(p, |keys|)
    ensures c <= |p|
    ensures forall a :: 0 <= a < c ==> First(keys, p[a]) <= f
    ensures c < |p| ==> First(keys, p[c]) > f
  {
    if p == [] || First(keys, p[0]) > f then 0 else 1 + Upto(keys, p[1..], f)
  }

  /** `n` goes right after the groups that start no later than its own. */
  ghost function Insert<K>(keys: seq<Key<K>>, q: seq<nat>, n: nat): (p: seq<nat>)
    requires n < |keys| && |q| == n && InRange(q, n)
    ensures |p| == n + 1 && InRange(p, n + 1)
  {
    var c := Upto(keys, q, First(keys, n));
    q[..c] + [n] + q[c..]
  }

  /** The regrouping of the first `n` indices. */
  ghost function Regroup<K>(keys: seq<Key<K>>, n: nat): (p: seq<nat>)
    requires n <= |keys|
    ensures |p| == n && InRange(p, n)
  {
    if n == 0 then [] else Insert(keys, Regroup(keys, n - 1), n - 1)
  }

  lemma {:induction false} RegroupIs<K>(keys: seq<Key<K>>, n: nat)
    requires n <= |keys|
    ensures IsRegrouping(keys, n, Regroup(keys, n))
  {
    if n > 0 {
      RegroupIs(keys, n - 1);
      Inserted(keys, n - 1, Regroup(keys, n - 1));
    }
  }

  lemma Inserted<K>(keys: seq<Key<K>>, n: nat, q: seq<nat>)
    requires n < |keys| && IsRegrouping(keys, n, q)
    ensures IsRegrouping(keys, n + 1, Insert(keys, q, n))
  {
    hide Upto, First;
    var c := Upto(keys, q, First(keys, n));
    var p := Insert(keys, q, n);
    forall i: nat | i < n + 1 ensures i in p {
      if i == n {
        assert p[c] == n;
      } else {
        assert i in q;
        var a :| 0 <= a < |q| && q[a] == i;
        assert p[if a < c then a else a + 1] == i;
      }
    }
    forall a, b | 0 <= a < b < |p| ensures Before(keys, p[a], p[b]) {
      var a', b' := if a < c then a else a - 1, if b < c then b else b - 1;
      if a == c {
        assert p[b] == q[b'];
        if c < b' { assert Before(keys, q[c], q[b']); }
      } else if b == c {
        assert p[a] == q[a];
      } else {
        assert p[a] == q[a'] && p[b] == q[b'] && a' < b';
      }
    }
  }

  lemma {:induction false} CutAfter<K>(keys: seq<Key<K>>, p: seq<nat>, f: nat, b: nat)
    requires InRange(p, |keys|) && Sorted(keys, p) && b < |p| && First(keys, p[b]) <= f
    ensures Upto(keys, p, f) > b
  {
    if b > 0 {
      assert Before(keys, p[0], p[b]);
      CutAfter(keys, p[1..], f, b - 1);
    }
  }

  // ----- what the order means

  /** Members of a group share its first element. */
  lemma FirstOfJoined<K>(keys: seq<Key<K>>, j: nat, i: nat)
    requires j <= i < |keys| && Joins(keys, j, i)
    ensures First(keys, j) == First(keys, i)
  {
    if j < i {
      var f, g := First(keys, j), First(keys, i);
      FirstJoins(keys, i);
      FirstJoins(keys, j);
      assert Joins(keys, f, i);
      assert Joins(keys, g, j);
    }
  }

  lemma FirstIsOwnFirst<K>(keys: seq<Key<K>>, i: nat)
    requires i < |keys|
    ensures First(keys, First(keys, i)) == First(keys, i)
  {
    FirstJoins(keys, i);
    FirstOfJoined(keys, First(keys, i), i);
  }

  /** Nothing crosses a barrier. */
  lemma BarrierSplits<K>(keys: seq<Key<K>>, b: nat, i: nat)
    requires b < |keys| && i < |keys| && keys[b].Barrier? && i != b
    ensures First(keys, b) == b
    ensures Before(keys, i, b) <==> i < b
    ensures i > b ==> First(keys, i) > b
  {
    FirstJoins(keys, b);
    FirstJoins(keys, i);
  }

  /** A barrier keeps its index. */
  lemma {:induction false} BarrierStays<K>(keys: seq<Key<K>>, n: nat, b: nat)
    requires b < n <= |keys| && keys[b].Barrier?
    ensures Regroup(keys, n)[b] == b
  {
    hide Upto, First;
    var q := Regroup(keys, n - 1);
    RegroupIs(keys, n - 1);
    var c := Upto(keys, q, First(keys, n - 1));
    if b == n - 1 {
      FirstJoins(keys, b);
      forall a | 0 <= a < |q| ensures First(keys, q[a]) <= b { }
      assert c == |q|;
    } else {
      BarrierStays(keys, n - 1, b);
      BarrierSplits(keys, b, n - 1);
      CutAfter(keys, q, First(keys, n - 1), b);
    }
  }

  /** What came before a barrier still does, and what came after it too. */
  lemma BarrierDivides<K>(keys: seq<Key<K>>, y: nat, a: nat)
    requires y < |keys| && a < |keys| && keys[y].Barrier?
    ensures var p := Regroup(keys, |keys|);
            (p[a] < y <==> a < y) && (p[a] == y <==> a == y)
  {
    var p := Regroup(keys, |keys|);
    RegroupIs(keys, |keys|);
    BarrierStays(keys, |keys|, y);
    assert forall m :: 0 <= m < y ==> Before(keys, p[m], p[y]);
    assert forall m :: y < m < |p| ==> Before(keys, p[y], p[m]);
    if p[a] != y { BarrierSplits(keys, y, p[a]); }
  }

  /** In the regrouped order a group is one contiguous block. */
  lemma Contiguous<K>(keys: seq<Key<K>>, n: nat, a: nat, m: nat, b: nat)
    requires n <= |keys| && a <= m <= b < n
    requires var p := Regroup(keys, n); First(keys, p[a]) == First(keys, p[b])
    ensures var p := Regroup(keys, n); First(keys, p[m]) == First(keys, p[a])
  {
    var p := Regroup(keys, n);
    RegroupIs(keys, n);
    if a < m { assert Before(keys, p[a], p[m]); }
    if m < b { assert Before(keys, p[m], p[b]); }
  }

  // ----- applying a regrouping

  function Pick<T>(xs: seq<T>, p: seq<nat>): (r: seq<T>)
    requires InRange(p, |xs|)
    ensures |r| == |p|
  {
    seq(|p|, a requires 0 <= a < |p| => xs[p[a]])
  }

  function Indices(n: nat): (p: seq<nat>)
    ensures |p| == n && forall i :: 0 <= i < n ==> p[i] == i
  {
    seq(n, i => i)
  }

  /** In the regrouped keys, two positions are in one group exactly when they were before. */
  lemma JoinedAfter<K>(keys: seq<Key<K>>, a: nat, b: nat)
    requires a < b < |keys|
    ensures var p := Regroup(keys, |keys|);
            Joins(Pick(keys, p), a, b) <==> First(keys, p[a]) == First(keys, p[b])
  {
    hide Regroup, First;
    var n := |keys|;
    var p := Regroup(keys, n);
    RegroupIs(keys, n);
    var after := Pick(keys, p);
    assert Before(keys, p[a], p[b]);
    FirstJoins(keys, p[a]);
    FirstJoins(keys, p[b]);
    if First(keys, p[a]) == First(keys, p[b]) {
      assert keys[p[a]] == keys[First(keys, p[a])] == keys[p[b]];
      assert keys[p[b]].Group?;
      forall m | a <= m <= b ensures !after[m].Barrier? {
        Contiguous(keys, n, a, m, b);
        FirstJoins(keys, p[m]);
        assert keys[p[m]] == keys[First(keys, p[m])];
      }
    }
    if Joins(after, a, b) {
      forall y | 0 <= y < n && keys[y].Barrier?
        ensures (y < p[a] && y < p[b]) || (p[a] < y && p[b] < y)
      {
        BarrierDivides(keys, y, a);
        BarrierDivides(keys, y, b);
        BarrierStays(keys, n, y);
        assert after[y].Barrier?;
      }
      if p[a] < p[b] {
        assert Joins(keys, p[a], p[b]);
        FirstOfJoined(keys, p[a], p[b]);
      } else {
        assert Joins(keys, p[b], p[a]);
        FirstOfJoined(keys, p[b], p[a]);
      }
    }
  }

  /** Regrouping an already regrouped sequence moves nothing. */
  lemma Idempotent<K>(keys: seq<Key<K>>)
    ensures Regroup(Pick(keys, Regroup(keys, |keys|)), |keys|) == Indices(|keys|)
  {
    var n := |keys|;
    var p := Regroup(keys, n);
    RegroupIs(keys, n);
    var after := Pick(keys, p);
    var id := Indices(n);
    forall i: nat | i < n ensures i in id { assert id[i] == i; }
    forall a, b | 0 <= a < b < |id| ensures Before(after, id[a], id[b]) {
      var f, g := First(after, a), First(after, b);
      FirstJoins(after, b);
      if g < a {
        // the group of b would enclose a without containing it
        assert Joins(after, g, b);
        JoinedAfter(keys, g, b);
        Contiguous(keys, n, g, a, b);
        JoinedAfter(keys, g, a);
        FirstOfJoined(after, g, a);
        FirstOfJoined(after, g, b);
      }
    }
    RegroupIs(after, n);
    Unique(after, n, Regroup(after, n), id);
  }

  /** Where no two elements are of one group, nothing moves either. */
  lemma {:induction false} NothingToGather<K>(keys: seq<Key<K>>)
    requires forall i, j :: 0 <= i < j < |keys| && keys[i].Group? ==> keys[i] != keys[j]
    ensures Regroup(keys, |keys|) == Indices(|keys|)
  {
    var id := Indices(|keys|);
    forall i: nat | i < |keys| ensures i in id && First(keys, i) == i {
      assert id[i] == i;
      FirstJoins(keys, i);
    }
    RegroupIs(keys, |keys|);
    Unique(keys, |keys|, Regroup(keys, |keys|), id);
  }

  lemma PickConcat<T>(xs: seq<T>, p: seq<nat>, q: seq<nat>)
    requires InRange(p, |xs|) && InRange(q, |xs|)
    ensures Pick(xs, p + q) == Pick(xs, p) + Pick(xs, q)
  {
  }

  lemma PickOne<T>(xs: seq<T>, i: nat)
    requires i < |xs|
    ensures Pick(xs, [i]) == [xs[i]]
  {
  }

  lemma PickInserted<T>(xs: seq<T>, p: seq<nat>, q: seq<nat>, l: seq<nat>, r: seq<nat>, n: nat)
    requires q == l + r && p == l + [n] + r && InRange(l, |xs|) && InRange(r, |xs|) && n < |xs|
    requires multiset(Pick(xs, q)) == multiset(xs[..n])
    ensures multiset(Pick(xs, p)) == multiset(xs[..n + 1])
  {
    hide Pick;
    PickConcat(xs, l, r);
    PickConcat(xs, l + [n], r);
    PickConcat(xs, l, [n]);
    PickOne(xs, n);
    assert xs[..n + 1] == xs[..n] + [xs[n]];
  }

  lemma RegroupStep<K>(keys: seq<Key<K>>, n: nat) returns (l: seq<nat>, r: seq<nat>)
    requires n < |keys|
    ensures Regroup(keys, n) == l + r && Regroup(keys, n + 1) == l + [n] + r
    ensures InRange(l, n) && InRange(r, n)
  {
    hide Upto, First;
    var q := Regroup(keys, n);
    var c := Upto(keys, q, First(keys, n));
    l, r := q[..c], q[c..];
  }

  /** Nothing is lost and nothing is duplicated. */
  lemma {:induction false} KeepsElements<T, K>(xs: seq<T>, keys: seq<Key<K>>, n: nat)
    requires n <= |keys| == |xs|
    ensures multiset(Pick(xs, Regroup(keys, n))) == multiset(xs[..n])
  {
    if n == 0 {
      assert xs[..0] == [] && Pick(xs, []) == [];
    } else {
      KeepsElements(xs, keys, n - 1);
      var l, r := RegroupStep(keys, n - 1);
      PickInserted(xs, Regroup(keys, n), Regroup(keys, n - 1), l, r, n - 1);
    }
  }

  // ----- the growing list of groups

  function Flatten<T>(groups: seq<seq<T>>): (r: seq<T>) {
    if groups == [] then [] else Flatten(groups[..|groups| - 1]) + groups[|groups| - 1]
  }

  lemma {:induction false} FlattenSplit<T>(groups: seq<seq<T>>, g: nat)
    requires g <= |groups|
    ensures Flatten(groups) == Flatten(groups[..g]) + Flatten(groups[g..])
  {
    if g == |groups| {
      assert groups[..g] == groups && groups[g..] == [];
    } else {
      var init := groups[..|groups| - 1];
      FlattenSplit(init, g);
      assert init[..g] == groups[..g];
      assert groups[g..][..|groups[g..]| - 1] == init[g..];
    }
  }

  lemma FlattenMore<T>(groups: seq<seq<T>>, more: seq<T>)
    ensures Flatten(groups + [more]) == Flatten(groups) + more
  {
    assert (groups + [more])[..|groups|] == groups;
  }

  lemma FlattenAppend<T>(groups: seq<seq<T>>, g: nat, x: T)
    requires g < |groups|
    ensures Flatten(groups[g := groups[g] + [x]]) == Flatten(groups[..g + 1]) + [x] + Flatten(groups[g + 1..])
  {
    var grown := groups[g := groups[g] + [x]];
    FlattenSplit(grown, g + 1);
    assert grown[..g + 1][..g] == groups[..g + 1][..g];
    assert grown[g + 1..] == groups[g + 1..];
  }

  /** Indices of one group, its first element leading. */
  ghost predicate IsSlot<K>(keys: seq<Key<K>>, from: nat, i: nat, slot: seq<nat>) {
    && |slot| > 0 && i <= |keys|
    && (forall m :: 0 <= m < |slot| ==> from <= slot[m] < i && First(keys, slot[m]) == slot[0])
  }

  /** `slots` holds the indices from `from` up to `i`, one slot a group, in the order
      the groups opened; everything before `from` is already final. */
  ghost predicate Slots<K>(keys: seq<Key<K>>, from: nat, i: nat, slots: seq<seq<nat>>) {
    && from <= i <= |keys|
    && (from == 0 || keys[from - 1].Barrier?)
    && (forall m :: from <= m < i ==> !keys[m].Barrier?)
    && Regroup(keys, i) == Regroup(keys, from) + Flatten<nat>(slots)
    && (forall g :: 0 <= g < |slots| ==> IsSlot(keys, from, i, slots[g]))
    && (forall g, h :: 0 <= g < h < |slots| ==> slots[g][0] < slots[h][0])
  }

  lemma {:induction false} InFlatten<T>(groups: seq<seq<T>>, x: T) returns (g: nat)
    requires x in Flatten(groups)
    ensures g < |groups| && x in groups[g]
  {
    var last := |groups| - 1;
    if x in groups[last] {
      g := last;
    } else {
      g := InFlatten(groups[..last], x);
    }
  }

  /** The cut found by `Upto` is the only place where entries stop being `<= f`. */
  lemma UptoIs<K>(keys: seq<Key<K>>, p: seq<nat>, f: nat, c: nat)
    requires InRange(p, |keys|) && c <= |p|
    requires forall a :: 0 <= a < c ==> First(keys, p[a]) <= f
    requires c < |p| ==> First(keys, p[c]) > f
    ensures Upto(keys, p, f) == c
  {
    var d := Upto(keys, p, f);
  }

  lemma {:induction false} UptoAll<K>(keys: seq<Key<K>>, p: seq<nat>, f: nat)
    requires InRange(p, |keys|) && forall a :: 0 <= a < |p| ==> First(keys, p[a]) <= f
    ensures Upto(keys, p, f) == |p|
  {
    if p != [] { UptoAll(keys, p[1..], f); }
  }

  lemma SpliceEnd<T>(q: seq<T>, x: T)
    ensures q[..|q|] + [x] + q[|q|..] == q + [x]
  {
  }

  /** A barrier, or the first element of a group, goes to the end. */
  lemma OwnFirstGoesLast<K>(keys: seq<Key<K>>, i: nat)
    requires i < |keys| && First(keys, i) == i
    ensures Regroup(keys, i + 1) == Regroup(keys, i) + [i]
  {
    var q := Regroup(keys, i);
    UptoAll(keys, q, i);
    SpliceEnd(q, i);
    assert Regroup(keys, i + 1) == Insert(keys, q, i);
  }

  lemma CloseAtBarrier<K>(keys: seq<Key<K>>, from: nat, i: nat, slots: seq<seq<nat>>)
    requires Slots(keys, from, i, slots) && i < |keys| && keys[i].Barrier?
    ensures Slots(keys, i + 1, i + 1, [])
    ensures Regroup(keys, i + 1) == Regroup(keys, from) + Flatten<nat>(slots) + [i]
  {
    var q, next := Regroup(keys, i), Regroup(keys, i + 1);
    assert next == q + [i] by {
      FirstJoins(keys, i);
      OwnFirstGoesLast(keys, i);
    }
    assert Flatten<nat>([]) == [] && next + [] == next;
  }

  /** Every index from `from` on is in some slot. */
  lemma SlotOf<K>(keys: seq<Key<K>>, from: nat, i: nat, slots: seq<seq<nat>>, f: nat) returns (g: nat)
    requires Slots(keys, from, i, slots) && from <= f < i
    ensures g < |slots| && slots[g][0] == First(keys, f)
  {
    RegroupIs(keys, i);
    var q, d := Regroup(keys, i), Regroup(keys, from);
    assert f in q;
    var a :| 0 <= a < |q| && q[a] == f;
    assert q[a] == (d + Flatten<nat>(slots))[a] && InRange(d, from);
    assert Flatten<nat>(slots)[a - |d|] == f;
    g := InFlatten<nat>(slots, f);
  }

  /** With no earlier member in the slots, an element is the first of its group. */
  lemma NoSlotNoEarlier<K>(keys: seq<Key<K>>, from: nat, i: nat, slots: seq<seq<nat>>)
    requires Slots(keys, from, i, slots) && i < |keys| && !keys[i].Barrier?
    requires keys[i].Group? ==> forall g :: 0 <= g < |slots| ==> keys[slots[g][0]] != keys[i]
    ensures First(keys, i) == i
  {
    FirstJoins(keys, i);
    FirstIsOwnFirst(keys, i);
    if First(keys, i) < i {
      var g := SlotOf(keys, from, i, slots, First(keys, i));
      assert false;
    }
  }

  lemma AddSlot<K>(keys: seq<Key<K>>, from: nat, i: nat, slots: seq<seq<nat>>)
    requires Slots(keys, from, i, slots) && i < |keys| && !keys[i].Barrier? && First(keys, i) == i
    requires Regroup(keys, i + 1) == Regroup(keys, from) + Flatten<nat>(slots + [[i]])
    ensures Slots(keys, from, i + 1, slots + [[i]])
  {
    hide Regroup, Flatten, First;
    var grown := slots + [[i]];
    forall g | 0 <= g < |grown| ensures IsSlot(keys, from, i + 1, grown[g]) {
      if g < |slots| {
        assert IsSlot(keys, from, i, slots[g]);
      } else {
        assert grown[g] == [i];
      }
    }
  }

  /** Such an element opens a new slot. */
  lemma OpenSlot<K>(keys: seq<Key<K>>, from: nat, i: nat, slots: seq<seq<nat>>)
    requires Slots(keys, from, i, slots) && i < |keys| && !keys[i].Barrier?
    requires keys[i].Group? ==> forall g :: 0 <= g < |slots| ==> keys[slots[g][0]] != keys[i]
    ensures Slots(keys, from, i + 1, slots + [[i]])
    ensures First(keys, i) == i
  {
    NoSlotNoEarlier(keys, from, i, slots);
    assert Regroup(keys, i + 1) == Regroup(keys, from) + Flatten<nat>(slots + [[i]]) by {
      OwnFirstGoesLast(keys, i);
      FlattenMore<nat>(slots, [i]);
    }
    AddSlot(keys, from, i, slots);
  }

  /** Every entry of a stretch of slots belongs to one of their groups. */
  lemma FirstInSlots<K>(keys: seq<Key<K>>, from: nat, i: nat, slots: seq<seq<nat>>, lo: nat, part: seq<seq<nat>>, a: nat)
    returns (g: nat)
    requires Slots(keys, from, i, slots) && lo + |part| <= |slots| && part == slots[lo..lo + |part|]
    requires a < |Flatten<nat>(part)|
    ensures lo <= g < lo + |part| && Flatten<nat>(part)[a] < i
    ensures First(keys, Flatten<nat>(part)[a]) == slots[g][0]
  {
    var h := InFlatten(part, Flatten<nat>(part)[a]);
    g := lo + h;
    assert part[h] == slots[g];
  }

  lemma JoinUpto<K>(keys: seq<Key<K>>, from: nat, i: nat, slots: seq<seq<nat>>, g: nat)
    requires Slots(keys, from, i, slots) && i < |keys| && g < |slots|
    ensures Upto(keys, Regroup(keys, i), slots[g][0]) == from + |Flatten<nat>(slots[..g + 1])|
  {
    hide Regroup, Flatten, First, Upto;
    var head := slots[g][0];
    var done, left, right := Regroup(keys, from), slots[..g + 1], slots[g + 1..];
    FlattenSplit(slots, g + 1);
    var q := Regroup(keys, i);
    var c := from + |Flatten<nat>(left)|;
    assert q == done + (Flatten<nat>(left) + Flatten<nat>(right));
    forall a | 0 <= a < c ensures First(keys, q[a]) <= head {
      if a < from {
        assert q[a] == done[a];
      } else {
        assert q[a] == Flatten<nat>(left)[a - from];
        var h := FirstInSlots(keys, from, i, slots, 0, left, a - from);
      }
    }
    if c < |q| {
      assert q[c] == Flatten<nat>(right)[0];
      var h := FirstInSlots(keys, from, i, slots, g + 1, right, 0);
    }
    UptoIs(keys, q, head, c);
  }

  lemma InsertBetween<K>(keys: seq<Key<K>>, i: nat, d: seq<nat>, l: seq<nat>, r: seq<nat>)
    requires i < |keys| && Regroup(keys, i) == d + (l + r)
    requires Upto(keys, Regroup(keys, i), First(keys, i)) == |d| + |l|
    ensures Regroup(keys, i + 1) == d + (l + [i] + r)
  {
    var q, c := Regroup(keys, i), |d| + |l|;
    assert Regroup(keys, i + 1) == Insert(keys, q, i);
    Splice(d, l, r, i);
  }

  lemma Splice<T>(d: seq<T>, l: seq<T>, r: seq<T>, x: T)
    ensures var q, c := d + (l + r), |d| + |l|; q[..c] + [x] + q[c..] == d + (l + [x] + r)
  {
  }

  lemma JoinCut<K>(keys: seq<Key<K>>, from: nat, i: nat, slots: seq<seq<nat>>, g: nat)
    requires Slots(keys, from, i, slots) && i < |keys| && g < |slots|
    requires First(keys, i) == slots[g][0]
    ensures Regroup(keys, i + 1) == Regroup(keys, from) + Flatten<nat>(slots[g := slots[g] + [i]])
  {
    var left, right := Flatten<nat>(slots[..g + 1]), Flatten<nat>(slots[g + 1..]);
    assert Flatten<nat>(slots) == left + right by { FlattenSplit(slots, g + 1); }
    assert Flatten<nat>(slots[g := slots[g] + [i]]) == left + [i] + right by { FlattenAppend(slots, g, i); }
    JoinUpto(keys, from, i, slots, g);
    InsertBetween(keys, i, Regroup(keys, from), left, right);
  }

  lemma WidenSlot<K>(keys: seq<Key<K>>, from: nat, i: nat, slots: seq<seq<nat>>, g: nat)
    requires Slots(keys, from, i, slots) && i < |keys| && !keys[i].Barrier? && g < |slots|
    requires First(keys, i) == slots[g][0]
    requires Regroup(keys, i + 1) == Regroup(keys, from) + Flatten<nat>(slots[g := slots[g] + [i]])
    ensures Slots(keys, from, i + 1, slots[g := slots[g] + [i]])
  {
    hide Regroup, Flatten, First;
    var grown := slots[g := slots[g] + [i]];
    forall h | 0 <= h < |grown| ensures IsSlot(keys, from, i + 1, grown[h]) && grown[h][0] == slots[h][0] {
      assert IsSlot(keys, from, i, slots[h]);
    }
  }

  /** An element whose group has a slot is appended to it. */
  lemma JoinSlot<K>(keys: seq<Key<K>>, from: nat, i: nat, slots: seq<seq<nat>>, g: nat)
    requires Slots(keys, from, i, slots) && i < |keys| && keys[i].Group?
    requires g < |slots| && keys[slots[g][0]] == keys[i]
    ensures Slots(keys, from, i + 1, slots[g := slots[g] + [i]])
    ensures First(keys, i) == slots[g][0]
  {
    var head := slots[g][0];
    assert Joins(keys, head, i);
    FirstOfJoined(keys, head, i);
    JoinCut(keys, from, i, slots, g);
    WidenSlot(keys, from, i, slots, g);
  }

  /** The groups of elements are the slots of indices, looked up. */
  ghost predicate Holds<T>(xs: seq<T>, groups: seq<seq<T>>, slots: seq<seq<nat>>) {
    && |groups| == |slots|
    && (forall g :: 0 <= g < |slots| ==> InRange(slots[g], |xs|))
    && (forall g :: 0 <= g < |slots| ==> groups[g] == Pick(xs, slots[g]))
  }

  /** The map from group name to slot is exact. */
  ghost predicate Finds<K>(keys: seq<Key<K>>, slots: seq<seq<nat>>, positions: map<K, nat>)
    requires forall g :: 0 <= g < |slots| ==> |slots[g]| > 0 && slots[g][0] < |keys|
  {
    && (forall k :: k in positions ==> positions[k] < |slots| && keys[slots[positions[k]][0]] == Group(k))
    && (forall g :: 0 <= g < |slots| && keys[slots[g][0]].Group? ==>
          keys[slots[g][0]].k in positions && positions[keys[slots[g][0]].k] == g)
  }

  lemma {:induction false} PickFlatten<T>(xs: seq<T>, groups: seq<seq<T>>, slots: seq<seq<nat>>)
    requires Holds(xs, groups, slots)
    ensures InRange(Flatten<nat>(slots), |xs|) && Flatten(groups) == Pick(xs, Flatten<nat>(slots))
  {
    if slots != [] {
      var n := |slots| - 1;
      PickFlatten(xs, groups[..n], slots[..n]);
      PickConcat(xs, Flatten<nat>(slots[..n]), slots[n]);
    }
  }

  /** The group at `g` takes `x`. */
  function AppendTo<T>(groups: seq<seq<T>>, g: nat, x: T): seq<seq<T>>
    requires g < |groups|
  {
    groups[g := groups[g] + [x]]
  }

  /** Everything the growing list stands for: `out` is final up to `from`, and the
      groups and their map describe the stretch from `from` to `i`. */
  ghost predicate Tracks<T, K>(xs: seq<T>, keys: seq<Key<K>>, from: nat, i: nat, out: seq<T>,
                               groups: seq<seq<T>>, slots: seq<seq<nat>>, positions: map<K, nat>) {
    && |keys| == |xs|
    && Slots(keys, from, i, slots)
    && out == Pick(xs, Regroup(keys, from))
    && Holds(xs, groups, slots) && Finds(keys, slots, positions)
  }

  lemma Started<T, K>(xs: seq<T>, keys: seq<Key<K>>)
    requires |keys| == |xs|
    ensures Tracks(xs, keys, 0, 0, [], [], [], map[])
  {
  }

  lemma Flushed<T, K>(xs: seq<T>, keys: seq<Key<K>>, from: nat, i: nat, out: seq<T>,
                      groups: seq<seq<T>>, slots: seq<seq<nat>>, positions: map<K, nat>)
    requires Tracks(xs, keys, from, i, out, groups, slots, positions)
    ensures out + Flatten(groups) == Pick(xs, Regroup(keys, i))
  {
    PickFlatten(xs, groups, slots);
    PickConcat(xs, Regroup(keys, from), Flatten<nat>(slots));
  }

  /** A barrier closes the groups and is final itself. */
  lemma AtBarrier<T, K>(xs: seq<T>, keys: seq<Key<K>>, from: nat, i: nat, out: seq<T>,
                        groups: seq<seq<T>>, slots: seq<seq<nat>>, positions: map<K, nat>)
    requires Tracks(xs, keys, from, i, out, groups, slots, positions) && i < |keys| && keys[i].Barrier?
    ensures Tracks(xs, keys, i + 1, i + 1, out + Flatten(groups) + [xs[i]], [], [], map[])
  {
    CloseAtBarrier(keys, from, i, slots);
    Flushed(xs, keys, from, i, out, groups, slots, positions);
    PickConcat(xs, Regroup(keys, i), [i]);
    assert Pick(xs, [i]) == [xs[i]];
  }

  lemma HeldAfter<T>(xs: seq<T>, groups: seq<seq<T>>, slots: seq<seq<nat>>, g: nat, i: nat)
    requires Holds(xs, groups, slots) && g < |slots| && i < |xs|
    ensures Holds(xs, AppendTo(groups, g, xs[i]), slots[g := slots[g] + [i]])
  {
    PickConcat(xs, slots[g], [i]);
    assert Pick(xs, [i]) == [xs[i]];
  }

  lemma FoundAfter<K>(keys: seq<Key<K>>, slots: seq<seq<nat>>, positions: map<K, nat>, g: nat, i: nat)
    requires forall h :: 0 <= h < |slots| ==> |slots[h]| > 0 && slots[h][0] < |keys|
    requires Finds(keys, slots, positions) && g < |slots|
    ensures Finds(keys, slots[g := slots[g] + [i]], positions)
  {
  }

  /** An element of a known group is appended to it. */
  lemma AtKnown<T, K>(xs: seq<T>, keys: seq<Key<K>>, from: nat, i: nat, out: seq<T>,
                      groups: seq<seq<T>>, slots: seq<seq<nat>>, positions: map<K, nat>, k: K)
    returns (wider: seq<seq<nat>>)
    requires Tracks(xs, keys, from, i, out, groups, slots, positions)
    requires i < |keys| && keys[i] == Group(k) && k in positions
    ensures positions[k] < |groups|
    ensures Tracks(xs, keys, from, i + 1, out, AppendTo(groups, positions[k], xs[i]), wider, positions)
  {
    var g := positions[k];
    wider := slots[g := slots[g] + [i]];
    JoinSlot(keys, from, i, slots, g);
    HeldAfter(xs, groups, slots, g, i);
    FoundAfter(keys, slots, positions, g, i);
  }

  lemma HeldWithNew<T>(xs: seq<T>, groups: seq<seq<T>>, slots: seq<seq<nat>>, i: nat)
    requires Holds(xs, groups, slots) && i < |xs|
    ensures Holds(xs, groups + [[xs[i]]], slots + [[i]])
  {
    assert Pick(xs, [i]) == [xs[i]];
  }

  /** Any other element opens a group. */
  lemma AtNew<T, K>(xs: seq<T>, keys: seq<Key<K>>, from: nat, i: nat, out: seq<T>,
                    groups: seq<seq<T>>, slots: seq<seq<nat>>, positions: map<K, nat>)
    returns (wider: seq<seq<nat>>)
    requires Tracks(xs, keys, from, i, out, groups, slots, positions)
    requires i < |keys| && !keys[i].Barrier? && (keys[i].Group? ==> keys[i].k !in positions)
    ensures Tracks(xs, keys, from, i + 1, out, groups + [[xs[i]]], wider,
                   if keys[i].Group? then positions[keys[i].k := |groups|] else positions)
  {
    wider := slots + [[i]];
    OpenSlot(keys, from, i, slots);
    HeldWithNew(xs, groups, slots, i);
  }
}
