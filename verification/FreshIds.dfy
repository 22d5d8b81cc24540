/** Searching for an unused numbered name, in a loop without a bound. */
module FreshIds {

  import opened Decimals

  /** The k-th name tried: the plain one first, then `stem-2`, `stem-3` and so on. */
  function Candidate(plain: string, stem: string, k: nat): string
    requires k >= 1
  {
    if k == 1 then plain else stem + "-" + Decimal(k)
  }

  /** No name is tried twice. */
  lemma CandidatesDiffer(plain: string, stem: string, j: nat, k: nat)
    requires 1 <= j < k
    requires forall n: nat :: n >= 2 ==> plain != stem + "-" + Decimal(n)
    ensures Candidate(plain, stem, j) != Candidate(plain, stem, k)
  {
    if j > 1 && Candidate(plain, stem, j) == Candidate(plain, stem, k) {
      var n := |stem| + 1;
      assert Candidate(plain, stem, j)[n..] == Decimal(j) && Candidate(plain, stem, k)[n..] == Decimal(k);
      DecimalIsInjective(j, k);
    }
  }

  /** As many names as were tried. */
  ghost function Tried(plain: string, stem: string, k: nat): (r: set<string>)
    ensures forall x :: x in r <==> exists j :: 1 <= j <= k && x == Candidate(plain, stem, j)
  {
    if k == 0 then {} else Tried(plain, stem, k - 1) + {Candidate(plain, stem, k)}
  }

  lemma {:induction false} TriedCount(plain: string, stem: string, k: nat)
    requires forall n: nat :: n >= 2 ==> plain != stem + "-" + Decimal(n)
    ensures |Tried(plain, stem, k)| == k
  {
    if k > 0 {
      TriedCount(plain, stem, k - 1);
      forall j | 1 <= j <= k - 1 ensures Candidate(plain, stem, j) != Candidate(plain, stem, k) {
        CandidatesDiffer(plain, stem, j, k);
      }
      assert Candidate(plain, stem, k) !in Tried(plain, stem, k - 1);
    }
  }

  lemma SubsetIsSmaller<T>(a: set<T>, b: set<T>)
    requires a <= b
    ensures |a| <= |b|
  {
    if a != {} {
      var x :| x in a;
      SubsetIsSmaller(a - {x}, b - {x});
    }
  }

  /** A run of used names is no longer than there are names in use. */
  lemma TriedWithin(plain: string, stem: string, k: nat, used: set<string>)
    requires forall n: nat :: n >= 2 ==> plain != stem + "-" + Decimal(n)
    requires forall j :: 1 <= j <= k ==> Candidate(plain, stem, j) in used
    ensures k <= |used|
  {
    TriedCount(plain, stem, k);
    SubsetIsSmaller(Tried(plain, stem, k), used);
  }

  /** The name is the first one, in the order tried, that is not in use. */
  ghost predicate IsFirstUnused(plain: string, stem: string, used: set<string>, id: string) {
    && id !in used
    && exists k :: k >= 1 && id == Candidate(plain, stem, k) && forall j :: 1 <= j < k ==> Candidate(plain, stem, j) in used
  }

  lemma UnusedIsFirst(plain: string, stem: string, used: set<string>, id: string, k: nat)
    requires id !in used && k >= 1 && id == Candidate(plain, stem, k)
    requires forall j :: 1 <= j < k ==> Candidate(plain, stem, j) in used
    ensures IsFirstUnused(plain, stem, used, id)
  {
  }

  lemma FirstUnusedIsUnique(plain: string, stem: string, used: set<string>, x: string, y: string)
    requires IsFirstUnused(plain, stem, used, x) && IsFirstUnused(plain, stem, used, y)
    ensures x == y
  {
    var j :| j >= 1 && x == Candidate(plain, stem, j) && forall i :: 1 <= i < j ==> Candidate(plain, stem, i) in used;
    var k :| k >= 1 && y == Candidate(plain, stem, k) && forall i :: 1 <= i < k ==> Candidate(plain, stem, i) in used;
  }

  lemma {:induction false} FirstUnusedExists(plain: string, stem: string, used: set<string>, k: nat)
    requires forall n: nat :: n >= 2 ==> plain != stem + "-" + Decimal(n)
    requires k >= 1 && forall j :: 1 <= j < k ==> Candidate(plain, stem, j) in used
    ensures exists id :: IsFirstUnused(plain, stem, used, id)
    decreases |used| + 1 - k
  {
    TriedWithin(plain, stem, k - 1, used);
    if Candidate(plain, stem, k) in used {
      TriedWithin(plain, stem, k, used);
      FirstUnusedExists(plain, stem, used, k + 1);
    } else {
      assert IsFirstUnused(plain, stem, used, Candidate(plain, stem, k));
    }
  }

  /** The first unused name: the search looks at no more names than there are in use, and
      one more, although its loop has no bound. */
  method FirstUnused(plain: string, stem: string, used: set<string>) returns (id: string, ghost probes: nat)
    requires forall n: nat :: n >= 2 ==> plain != stem + "-" + Decimal(n)
    ensures id !in used && 1 <= probes <= |used| + 1
    ensures id == Candidate(plain, stem, probes) && forall j :: 1 <= j < probes ==> Candidate(plain, stem, j) in used
  {
    hide Candidate;
    id := plain;
    var n := 2;
    assert Candidate(plain, stem, 1) == plain by { First(plain, stem); }
    while id in used
      invariant n >= 2 && id == Candidate(plain, stem, n - 1)
      invariant forall j :: 1 <= j < n - 1 ==> Candidate(plain, stem, j) in used
      decreases |used| + 2 - n
    {
      TriedWithin(plain, stem, n - 1, used);
      Later(plain, stem, n);
      id := stem + "-" + Decimal(n);
      n := n + 1;
    }
    probes := n - 1;
    TriedWithin(plain, stem, n - 2, used);
  }

  lemma First(plain: string, stem: string)
    ensures Candidate(plain, stem, 1) == plain
  {
  }

  lemma Later(plain: string, stem: string, n: nat)
    requires n >= 2
    ensures Candidate(plain, stem, n) == stem + "-" + Decimal(n)
  {
  }

  /** A plain name that does not end in a digit is none of the numbered ones, nor is the stem. */
  lemma PlainIsNotNumbered(plain: string, stem: string)
    requires plain == stem || plain == stem + "-main"
    ensures forall n: nat :: n >= 2 ==> plain != stem + "-" + Decimal(n)
  {
    forall n: nat | n >= 2 ensures plain != stem + "-" + Decimal(n) {
      var name := stem + "-" + Decimal(n);
      DecimalEndsInDigit(n);
      assert name[|name| - 1] == Decimal(n)[|Decimal(n)| - 1];
      assert plain == stem + "-main" ==> plain[|plain| - 1] == 'n';
    }
  }

  lemma DecimalEndsInDigit(n: nat)
    ensures '0' <= Decimal(n)[|Decimal(n)| - 1] <= '9'
  {
  }

  /** The id of the next connection a plugin's login makes. */
  method NextPluginOAuthConnectionID(pluginID: string, connections: seq<string>) returns (id: string, ghost probes: nat)
    ensures id !in connections && 1 <= probes <= |connections| + 1
    ensures id == Candidate(pluginID + "-main", pluginID, probes)
    ensures forall j :: 1 <= j < probes ==> Candidate(pluginID + "-main", pluginID, j) in connections
  {
    var used: set<string> := {};
    for i := 0 to |connections|
      invariant |used| <= i && forall x :: x in used <==> x in connections[..i]
    {
      used := used + {connections[i]};
    }
    assert connections[..|connections|] == connections;
    PlainIsNotNumbered(pluginID + "-main", pluginID);
    id, probes := FirstUnused(pluginID + "-main", pluginID, used);
  }
}
