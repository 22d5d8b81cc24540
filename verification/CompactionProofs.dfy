/** What a compaction leaves is a selection of what was effective, in its order. */
module CompactionProofs {

  import opened Results
  import opened Messages
  import opened Compaction
  import opened SkillReferencesProofs

  /** Only the ids of the messages at hand matter. */
  lemma {:induction false} VisibleSame(ms: seq<Message>, a: set<string>, b: set<string>)
    requires forall i :: 0 <= i < |ms| ==> (ms[i].id in a <==> ms[i].id in b)
    ensures Visible(ms, a) == Visible(ms, b)
  {
    if ms != [] {
      VisibleSame(ms[..|ms| - 1], a, b);
    }
  }

  lemma {:induction false} VisibleAppend(a: seq<Message>, b: seq<Message>, ids: set<string>)
    ensures Visible(a + b, ids) == Visible(a, ids) + Visible(b, ids)
    decreases |b|
  {
    if b == [] {
      assert a + b == a;
    } else {
      var n := |b| - 1;
      assert (a + b)[..|a| + n] == a + b[..n];
      VisibleAppend(a, b[..n], ids);
    }
  }

  lemma {:induction false} AllVisible(ms: seq<Message>, ids: set<string>)
    requires forall i :: 0 <= i < |ms| ==> ms[i].id in ids
    ensures Visible(ms, ids) == ms
  {
    if ms != [] {
      var n := |ms| - 1;
      AllVisible(ms[..n], ids);
      assert ms == ms[..n] + [ms[n]];
    }
  }

  lemma {:induction false} NoneVisible(ms: seq<Message>, ids: set<string>)
    requires forall i :: 0 <= i < |ms| ==> ms[i].id !in ids
    ensures Visible(ms, ids) == []
  {
    if ms != [] {
      NoneVisible(ms[..|ms| - 1], ids);
    }
  }

  lemma OneVisible(m: Message, ids: set<string>)
    ensures Visible([m], ids) == if m.id in ids then [m] else []
  {
    assert [m][..0] == [];
  }

  /** A selection of a selection is a selection. */
  lemma {:induction false} VisibleTwice(ms: seq<Message>, a: set<string>, b: set<string>)
    requires forall i :: 0 <= i < |ms| && ms[i].id in b ==> ms[i].id in a
    ensures Visible(Visible(ms, a), b) == Visible(ms, b)
  {
    if ms != [] {
      var n := |ms| - 1;
      VisibleTwice(ms[..n], a, b);
      VisibleAppend(Visible(ms[..n], a), [ms[n]], b);
      OneVisible(ms[n], b);
      if ms[n].id in a {
        assert Visible(ms, a) == Visible(ms[..n], a) + [ms[n]];
      } else {
        assert Visible(ms, a) == Visible(ms[..n], a);
        assert Visible(ms, b) == Visible(ms[..n], b);
      }
    }
  }

  /** A selection keeps the order. */
  lemma {:induction false} VisibleOrder(ms: seq<Message>, ids: set<string>, x: nat, y: nat) returns (i: nat, j: nat)
    requires x < y < |Visible(ms, ids)|
    ensures i < j < |ms| && ms[i] == Visible(ms, ids)[x] && ms[j] == Visible(ms, ids)[y]
  {
    var n := |ms| - 1;
    if y < |Visible(ms[..n], ids)| {
      i, j := VisibleOrder(ms[..n], ids, x, y);
    } else {
      j := n;
      VisibleIsVisible(ms[..n], ids);
      assert Visible(ms[..n], ids)[x] in Visible(ms[..n], ids);
      i :| 0 <= i < n && ms[..n][i] == Visible(ms[..n], ids)[x];
    }
  }

  lemma VisibleDistinct(ms: seq<Message>, ids: set<string>)
    requires DistinctIds(ms)
    ensures DistinctIds(Visible(ms, ids))
  {
    var v := Visible(ms, ids);
    forall x, y | 0 <= x < |v| && 0 <= y < |v| && v[x].id == v[y].id ensures x == y {
      if x < y {
        var i, j := VisibleOrder(ms, ids, x, y);
        assert false;
      } else if y < x {
        var i, j := VisibleOrder(ms, ids, y, x);
        assert false;
      }
    }
  }

  lemma SuffixIsVisible(ms: seq<Message>, a: nat)
    requires DistinctIds(ms) && a <= |ms|
    ensures Visible(ms, Ids(ms[a..])) == ms[a..]
  {
    var init, tail := ms[..a], ms[a..];
    var ids := Ids(tail);
    assert forall j :: 0 <= j < |tail| ==> tail[j] == ms[a + j];
    forall i | 0 <= i < a ensures init[i].id !in ids {
      assert init[i] == ms[i];
    }
    assert ms == init + tail;
    hide DistinctIds;
    assert forall j :: 0 <= j < |tail| ==> tail[j].id in ids;
    NoneVisible(init, ids);
    AllVisible(tail, ids);
    VisibleAppend(init, tail, ids);
  }

  lemma {:induction false} KeptHas(ms: seq<Message>, turn: string, start: nat, n: nat)
    requires n <= |ms|
    ensures forall m :: m in Kept(ms, turn, start, n) <==> exists i :: 0 <= i < n && ms[i] == m && Protected(turn, start, ms[i], i)
  {
    hide Protected;
    if n > 0 {
      KeptHas(ms, turn, start, n - 1);
      forall m | m in Kept(ms, turn, start, n)
        ensures exists i :: 0 <= i < n && ms[i] == m && Protected(turn, start, ms[i], i)
      {
        if m in Kept(ms, turn, start, n - 1) {
          var i :| 0 <= i < n - 1 && ms[i] == m && Protected(turn, start, ms[i], i);
          assert 0 <= i < n;
        }
      }
    }
  }

  lemma {:induction false} KeptIsVisible(ms: seq<Message>, turn: string, start: nat, ids: set<string>, n: nat)
    requires n <= |ms|
    requires forall i :: 0 <= i < n ==> (ms[i].id in ids <==> Protected(turn, start, ms[i], i))
    ensures Visible(ms[..n], ids) == Kept(ms, turn, start, n)
  {
    hide Protected;
    if n > 0 {
      KeptIsVisible(ms, turn, start, ids, n - 1);
      assert ms[..n][..n - 1] == ms[..n - 1];
    }
  }

  /** What stays behind the summary is a selection of what was effective. */
  lemma TailIsVisible(ms: seq<Message>, keep: nat, running: Option<string>)
    requires DistinctIds(ms)
    ensures Visible(ms, Ids(Tail(ms, keep, running))) == Tail(ms, keep, running)
  {
    if keep > 0 || running.None? {
      SuffixIsVisible(ms, TailStart(ms, keep));
    } else {
      var turn, start := running.value, ExchangeStart(ms, running.value);
      var tail := Kept(ms, turn, start, |ms|);
      KeptHas(ms, turn, start, |ms|);
      hide Protected, ExchangeStart;
      forall i | 0 <= i < |ms| ensures ms[i].id in Ids(tail) <==> Protected(turn, start, ms[i], i) {
        assert forall x :: 0 <= x < |tail| ==> tail[x] in tail;
        if Protected(turn, start, ms[i], i) {
          assert ms[i] in tail;
        }
      }
      KeptIsVisible(ms, turn, start, Ids(tail), |ms|);
      assert ms[..|ms|] == ms;
    }
  }

  /** The running turn's exchange begins behind a head that is a summary. */
  lemma ExchangeBehindHead(ms: seq<Message>, turn: string)
    requires ms != [] && ms[0].role.Summary? && !Calls(ms[0])
    ensures ExchangeStart(ms, turn) > 0
  {
    var call := LastCall(ms, turn, |ms|);
    assert !Answers(ms[0], turn);
  }

  /** Keeping some turns, the cut is at or before the last input boundary. */
  lemma {:induction false} CutIsBefore(ms: seq<Message>, keep: nat, n: nat, b: nat)
    requires keep > 0 && b < n <= |ms| && IsInputTurnBoundary(ms[b])
    requires forall j :: b < j < n ==> !IsInputTurnBoundary(ms[j])
    ensures var i := CutAt(ms, keep, n); i.Some? ==> i.value <= b
  {
    if b < n - 1 {
      CutIsBefore(ms, keep, n - 1, b);
    }
  }

  // ----- how much stays

  /** How many input turns begin in these messages. */
  function Inputs(ms: seq<Message>): nat {
    if ms == [] then 0 else Inputs(ms[..|ms| - 1]) + if IsInputTurnBoundary(ms[|ms| - 1]) then 1 else 0
  }

  lemma {:induction false} CutCounts(ms: seq<Message>, keep: nat, n: nat)
    requires keep > 0 && n <= |ms|
    ensures match CutAt(ms, keep, n)
            case None => Inputs(ms[..n]) < keep
            case Some(i) => Inputs(ms[i..n]) == keep
  {
    hide IsInputTurnBoundary;
    if n > 0 {
      assert ms[..n][..n - 1] == ms[..n - 1];
      if !IsInputTurnBoundary(ms[n - 1]) {
        CutCounts(ms, keep, n - 1);
      } else if keep > 1 {
        CutCounts(ms, keep - 1, n - 1);
      } else {
        assert ms[n - 1..n][..0] == [];
      }
      var cut := CutAt(ms, keep, n);
      if cut.Some? {
        assert ms[cut.value..n][..n - 1 - cut.value] == ms[cut.value..n - 1];
      }
    }
  }

  /** What stays are exactly the recent input turns: it begins with an input, and holds as many
      as were to be kept; or it is everything, when there are fewer. */
  lemma TailHasTurns(ms: seq<Message>, keep: nat, running: Option<string>)
    requires keep > 0
    ensures var tail := Tail(ms, keep, running);
            && Cold(ms, keep, running) + tail == ms
            && if Inputs(ms) < keep then tail == ms else Inputs(tail) == keep && IsInputTurnBoundary(tail[0])
  {
    hide IsInputTurnBoundary;
    CutCounts(ms, keep, |ms|);
    assert ms[..|ms|] == ms;
    var a := TailStart(ms, keep);
    assert ms[a..|ms|] == ms[a..];
    if a < |ms| {
      assert ms[a..][0] == ms[a];
      SuffixHasFewer(ms, a);
    }
  }

  lemma {:induction false} SuffixHasFewer(ms: seq<Message>, a: nat)
    requires a <= |ms|
    ensures Inputs(ms[a..]) <= Inputs(ms)
  {
    hide IsInputTurnBoundary;
    if a < |ms| {
      var n := |ms| - 1;
      SuffixHasFewer(ms[..n], a);
      assert ms[a..][..n - a] == ms[..n][a..];
    }
  }

  // ----- the latest exchange

  lemma {:induction false} LastCallIsLast(ms: seq<Message>, turn: string, n: nat)
    requires n <= |ms|
    ensures var call := LastCall(ms, turn, n);
            if call < n then ms[call].turnId == turn && Calls(ms[call]) else call == |ms|
    ensures forall i :: 0 <= i < n && ms[i].turnId == turn && Calls(ms[i]) ==> i <= LastCall(ms, turn, n) < n
  {
    hide Calls;
    if n > 0 {
      LastCallIsLast(ms, turn, n - 1);
    }
  }

  lemma {:induction false} BackStops(ms: seq<Message>, turn: string, start: nat)
    requires start <= |ms|
    ensures var i := Back(ms, turn, start); i == 0 || !Answers(ms[i - 1], turn)
  {
    if start > 0 && Answers(ms[start - 1], turn) {
      BackStops(ms, turn, start - 1);
    }
  }

  lemma {:induction false} PastStops(ms: seq<Message>, start: nat, end: nat)
    requires start <= end < |ms| && !Attachment(ms[end])
    ensures var i := Past(ms, start);
            i <= end && !Attachment(ms[i]) && forall j :: start <= j < i ==> Attachment(ms[j])
    decreases end - start
  {
    hide Attachment;
    if Attachment(ms[start]) {
      PastStops(ms, start + 1, end);
    }
  }

  /** The exchange that a turn ends with: from its last message that calls a tool back over the
      answers right before it, but not over the attachments these begin with. */
  ghost predicate BeginsExchange(ms: seq<Message>, turn: string, start: nat) {
    exists back: nat, call: nat :: back <= start <= call < |ms| && ExchangeFrom(ms, turn, back, start, call)
  }

  ghost predicate ExchangeFrom(ms: seq<Message>, turn: string, back: nat, start: nat, call: nat)
    requires back <= start <= call < |ms|
  {
    && ms[call].turnId == turn && Calls(ms[call])
    && (forall i :: call < i < |ms| && ms[i].turnId == turn ==> !Calls(ms[i]))
    && (forall i :: back <= i < call ==> ms[i].turnId == turn && ms[i].role.Assistant?)
    && (back > 0 ==> !(ms[back - 1].turnId == turn && ms[back - 1].role.Assistant?))
    && (forall i :: back <= i < start ==> Attachment(ms[i])) && !Attachment(ms[start])
  }

  lemma ExchangeIsLatest(ms: seq<Message>, turn: string)
    ensures var start := ExchangeStart(ms, turn);
            if forall i :: 0 <= i < |ms| && ms[i].turnId == turn ==> !Calls(ms[i]) then start == |ms| else BeginsExchange(ms, turn, start)
  {
    LastCallIsLast(ms, turn, |ms|);
    var call := LastCall(ms, turn, |ms|);
    if call < |ms| {
      assert !Attachment(ms[call]);
      hide Calls, Attachment;
      BackStops(ms, turn, call);
      PastStops(ms, Back(ms, turn, call), call);
      assert ExchangeFrom(ms, turn, Back(ms, turn, call), ExchangeStart(ms, turn), call);
    }
  }

  lemma {:induction false} DroppedHas(ms: seq<Message>, turn: string, start: nat, n: nat)
    requires n <= |ms|
    ensures forall m :: m in Dropped(ms, turn, start, n) <==> exists i :: 0 <= i < n && ms[i] == m && !Protected(turn, start, ms[i], i)
  {
    hide Protected;
    if n > 0 {
      DroppedHas(ms, turn, start, n - 1);
      forall m | m in Dropped(ms, turn, start, n)
        ensures exists i :: 0 <= i < n && ms[i] == m && !Protected(turn, start, ms[i], i)
      {
        if m in Dropped(ms, turn, start, n - 1) {
          var i :| 0 <= i < n - 1 && ms[i] == m && !Protected(turn, start, ms[i], i);
          assert 0 <= i < n;
        }
      }
    }
  }

  lemma AddedToEither<T>(a: seq<T>, b: seq<T>, whole: seq<T>, x: T)
    requires multiset(a) + multiset(b) == multiset(whole)
    ensures multiset(a + [x]) + multiset(b) == multiset(whole + [x])
    ensures multiset(a) + multiset(b + [x]) == multiset(whole + [x])
  {
  }

  lemma OneOfEither(ms: seq<Message>, turn: string, start: nat, n: nat)
    requires 0 < n <= |ms|
    ensures var kept, dropped, m := Kept(ms, turn, start, n - 1), Dropped(ms, turn, start, n - 1), ms[n - 1];
            || (Kept(ms, turn, start, n) == kept + [m] && Dropped(ms, turn, start, n) == dropped)
            || (Kept(ms, turn, start, n) == kept && Dropped(ms, turn, start, n) == dropped + [m])
    ensures ms[..n] == ms[..n - 1] + [ms[n - 1]]
  {
    hide Protected;
  }

  lemma {:induction false} NothingIsLost(ms: seq<Message>, turn: string, start: nat, n: nat)
    requires n <= |ms|
    ensures multiset(Dropped(ms, turn, start, n)) + multiset(Kept(ms, turn, start, n)) == multiset(ms[..n])
  {
    if n > 0 {
      NothingIsLost(ms, turn, start, n - 1);
      OneOfEither(ms, turn, start, n);
      hide Kept, Dropped;
      AddedToEither(Dropped(ms, turn, start, n - 1), Kept(ms, turn, start, n - 1), ms[..n - 1], ms[n - 1]);
    }
  }

  /** What stays of a running turn: its inputs, and everything of it from its latest exchange
      on. All the rest goes into the summary, and nothing is lost. */
  ghost predicate Stays(ms: seq<Message>, turn: string, i: nat)
    requires i < |ms|
  {
    ms[i].turnId == turn && (ms[i].role.User? || ms[i].role.System? || exists start: nat :: start <= i && BeginsExchange(ms, turn, start))
  }

  lemma NoFurtherBack(ms: seq<Message>, turn: string, a: nat, b: nat, call: nat)
    requires a <= call < |ms| && b <= call && forall i :: a <= i < call ==> ms[i].turnId == turn && ms[i].role.Assistant?
    requires b > 0 ==> !(ms[b - 1].turnId == turn && ms[b - 1].role.Assistant?)
    ensures b <= a
  {
  }

  lemma OneExchange(ms: seq<Message>, turn: string, start: nat)
    requires BeginsExchange(ms, turn, start)
    ensures start == ExchangeStart(ms, turn)
  {
    ExchangeIsLatest(ms, turn);
    var back: nat, call: nat :| back <= start <= call < |ms| && ExchangeFrom(ms, turn, back, start, call);
    var b: nat, c: nat :| b <= ExchangeStart(ms, turn) <= c < |ms| && ExchangeFrom(ms, turn, b, ExchangeStart(ms, turn), c);
    hide Calls, Attachment;
    assert call == c;
    NoFurtherBack(ms, turn, back, b, call);
    NoFurtherBack(ms, turn, b, back, call);
  }

  lemma StaysIsProtected(ms: seq<Message>, turn: string, i: nat)
    requires i < |ms|
    ensures Stays(ms, turn, i) <==> Protected(turn, ExchangeStart(ms, turn), ms[i], i)
  {
    ExchangeIsLatest(ms, turn);
    hide BeginsExchange, ExchangeStart;
    if from: nat :| from <= i && BeginsExchange(ms, turn, from) {
      OneExchange(ms, turn, from);
    }
  }

  lemma RunningTailIs(ms: seq<Message>, turn: string)
    ensures forall m :: m in Tail(ms, 0, Some(turn)) <==> exists i :: 0 <= i < |ms| && ms[i] == m && Stays(ms, turn, i)
    ensures forall m :: m in Cold(ms, 0, Some(turn)) <==> exists i :: 0 <= i < |ms| && ms[i] == m && !Stays(ms, turn, i)
    ensures multiset(Cold(ms, 0, Some(turn))) + multiset(Tail(ms, 0, Some(turn))) == multiset(ms)
  {
    hide Stays, Protected, ExchangeStart, Kept, Dropped;
    var start := ExchangeStart(ms, turn);
    KeptHas(ms, turn, start, |ms|);
    DroppedHas(ms, turn, start, |ms|);
    NothingIsLost(ms, turn, start, |ms|);
    assert ms[..|ms|] == ms;
    forall i | 0 <= i < |ms| ensures Stays(ms, turn, i) <==> Protected(turn, start, ms[i], i) {
      StaysIsProtected(ms, turn, i);
    }
    forall m | m in Tail(ms, 0, Some(turn)) ensures exists i :: 0 <= i < |ms| && ms[i] == m && Stays(ms, turn, i) {
      var i :| 0 <= i < |ms| && ms[i] == m && Protected(turn, start, ms[i], i);
      assert Stays(ms, turn, i);
    }
    forall m | m in Cold(ms, 0, Some(turn)) ensures exists i :: 0 <= i < |ms| && ms[i] == m && !Stays(ms, turn, i) {
      var i :| 0 <= i < |ms| && ms[i] == m && !Protected(turn, start, ms[i], i);
      assert !Stays(ms, turn, i);
    }
  }
}
