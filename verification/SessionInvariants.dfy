/** What every step of a session keeps of what is effective: it is the last summary and a
    selection of the history in its order; what is hidden is older than what is shown; and a
    turn is cut only where nothing of another turn is shown before it. */
module SessionInvariants {

  import opened Results
  import opened Messages
  import opened HistoryOrder
  import opened Cooling
  import opened CoolingProofs
  import opened CoolingPipeline
  import opened Compaction
  import opened CompactionProofs
  import opened Sessions
  import opened SessionHistory
  import opened SkillReferences
  import opened SkillReferencesProofs

  /** What is effective of a history whose last compaction summary is `c`. */
  predicate ShownIs(all: seq<Message>, e: seq<Message>, c: Option<nat>) {
    if c.None? then e == all else Compacted(all, e, c.value) && all[c.value].role.Summary?
  }

  /** A turn that speaks in a hidden message and is still shown is shown first. */
  predicate StraddleAt(all: seq<Message>, e: seq<Message>, i: nat) {
    i < |all| && Speaks(all[i]) && all[i].id !in Ids(e) && Occurs(e, all[i].turnId) ==> IsFirst(e, all[i].turnId)
  }

  /** The input that opened the running turn is shown. */
  predicate OpeningShown(all: seq<Message>, e: seq<Message>, running: Option<string>) {
    running.Some? ==> Occurs(all, running.value) && all[Reach(all, running.value, 0)].id in Ids(e)
  }

  ghost predicate ShownOk(all: seq<Message>, e: seq<Message>, c: Option<nat>, running: Option<string>) {
    ShownIs(all, e, c) && (forall i: nat :: StraddleAt(all, e, i)) && OpeningShown(all, e, running)
  }

  // ----- where what is shown was stored

  lemma RestAt(all: seq<Message>, c: nat, i: nat)
    requires c < |all| && i < |all| - 1
    ensures Rest(all, c)[i] == all[if i < c then i else i + 1]
  {
  }

  lemma ShownStored(all: seq<Message>, e: seq<Message>, c: Option<nat>)
    requires ShownIs(all, e, c)
    ensures (forall x :: 0 <= x < |e| ==> e[x] in all) && Ids(e) <= Ids(all)
  {
    if c.Some? {
      var rest := Rest(all, c.value);
      VisibleIsVisible(rest, Ids(e));
      forall x | 0 <= x < |e| ensures e[x] in all {
        if x > 0 {
          assert e[x] in Visible(rest, Ids(e));
          var i :| 0 <= i < |rest| && rest[i] == e[x];
          RestAt(all, c.value, i);
        }
      }
    }
    forall id | id in Ids(e) ensures id in Ids(all) {
      var x :| 0 <= x < |e| && e[x].id == id;
      assert e[x] in all;
      var i :| 0 <= i < |all| && all[i] == e[x];
    }
  }

  /** What is shown later was stored later; only a summary at the head is out of order. */
  lemma ShownOrder(all: seq<Message>, e: seq<Message>, c: Option<nat>, x: nat, y: nat) returns (i: nat, j: nat)
    requires ShownIs(all, e, c) && x < y < |e| && Counts(e[x])
    ensures i < j < |all| && all[i] == e[x] && all[j] == e[y]
  {
    if c.None? {
      i, j := x, y;
    } else {
      var rest := Rest(all, c.value);
      var v, w := VisibleOrder(rest, Ids(e), x - 1, y - 1);
      RestAt(all, c.value, v);
      RestAt(all, c.value, w);
      i, j := if v < c.value then v else v + 1, if w < c.value then w else w + 1;
    }
  }

  lemma ShownPlace(all: seq<Message>, e: seq<Message>, c: Option<nat>, i: nat) returns (x: nat)
    requires ShownIs(all, e, c) && DistinctIds(all) && i < |all| && all[i].id in Ids(e)
    ensures x < |e| && e[x] == all[i]
  {
    ShownStored(all, e, c);
    x :| 0 <= x < |e| && e[x].id == all[i].id;
    assert e[x] in all;
    var j :| 0 <= j < |all| && all[j] == e[x];
  }

  /** What counts and was stored later is shown later. */
  lemma StoredOrder(all: seq<Message>, e: seq<Message>, c: Option<nat>, i: nat, j: nat) returns (x: nat, y: nat)
    requires ShownIs(all, e, c) && DistinctIds(all) && i < j < |all| && all[i].id in Ids(e) && all[j].id in Ids(e)
    requires Counts(all[j])
    ensures x < |e| && e[x] == all[i] && y < |e| && e[y] == all[j] && x < y
  {
    x := ShownPlace(all, e, c, i);
    y := ShownPlace(all, e, c, j);
    if y < x {
      var j', i' := ShownOrder(all, e, c, y, x);
      assert false;
    }
  }

  lemma ShownDistinct(all: seq<Message>, e: seq<Message>, c: Option<nat>)
    requires ShownIs(all, e, c) && DistinctIds(all)
    ensures DistinctIds(e)
  {
    if c.Some? {
      var rest := Rest(all, c.value);
      assert DistinctIds(rest) by {
        forall i, j | 0 <= i < |rest| && 0 <= j < |rest| && rest[i].id == rest[j].id ensures i == j {
          RestAt(all, c.value, i);
          RestAt(all, c.value, j);
        }
      }
      var v := Visible(rest, Ids(e));
      VisibleDistinct(rest, Ids(e));
      VisibleIsVisible(rest, Ids(e));
      forall x | 0 <= x < |v| ensures v[x].id != all[c.value].id {
        assert v[x] in v;
        var i :| 0 <= i < |rest| && rest[i] == v[x];
        RestAt(all, c.value, i);
      }
      assert forall x :: 1 <= x < |e| ==> e[x] == v[x - 1];
    }
  }

  /** In what is shown, the running turn is opened by an input, which is the last one. */
  lemma RunningShown(all: seq<Message>, e: seq<Message>, c: Option<nat>, turn: string) returns (x: nat)
    requires HistoryOk(all, Some(turn)) && ShownIs(all, e, c) && OpeningShown(all, e, Some(turn))
    ensures Opens(e, x) && IsInputTurnBoundary(e[x]) && e[x].turnId == turn && Reach(e, turn, 0) == x
    ensures e[x] == all[Reach(all, turn, 0)]
    ensures forall z :: x < z < |e| && Works(e[z]) ==> e[z].turnId == turn
    ensures forall z :: x < z < |e| ==> !IsInputTurnBoundary(e[z])
  {
    hide ShownIs;
    var o := Reach(all, turn, 0);
    assert RunningOk(all, turn);
    x := ShownPlace(all, e, c, o);
    forall w | 0 <= w < x && Counts(e[w]) ensures e[w].turnId != turn {
      var i, j := ShownOrder(all, e, c, w, x);
      assert all[j].id == all[o].id;
      assert BoundaryOpens(all, o);
    }
    OpeningIsReach(e, x);
    forall z | x < z < |e| ensures (Works(e[z]) ==> e[z].turnId == turn) && !IsInputTurnBoundary(e[z]) {
      var i, j := ShownOrder(all, e, c, x, z);
      assert all[i].id == all[o].id;
      assert BoundaryOpens(all, j);
    }
  }

  // ----- storing

  lemma RestMore(all: seq<Message>, c: nat, m: Message)
    requires c < |all|
    ensures Rest(all + [m], c) == Rest(all, c) + [m]
  {
    assert (all + [m])[..c] == all[..c] && (all + [m])[c + 1..] == all[c + 1..] + [m];
  }

  lemma CompactedMore(all: seq<Message>, e: seq<Message>, c: nat, m: Message)
    requires Compacted(all, e, c) && m.id !in Ids(all)
    ensures Compacted(all + [m], e + [m], c)
  {
    var rest, ids, more := Rest(all, c), Ids(e), Ids(e + [m]);
    RestMore(all, c, m);
    IdsMore(e, m);
    forall i | 0 <= i < |rest| ensures rest[i].id in Ids(all) && (rest[i].id in ids <==> rest[i].id in more) {
      RestAt(all, c, i);
    }
    VisibleSame(rest, ids, more);
    VisibleAppend(rest, [m], more);
    OneVisible(m, more);
    assert forall i :: 0 <= i < |rest| ==> (rest + [m])[i] == rest[i];
    assert HiddenFirst(rest + [m], more);
    assert (e + [m])[0] == e[0];
    assert e + [m] == [all[c]] + (Visible(rest, more) + [m]);
  }

  lemma ShownMore(all: seq<Message>, e: seq<Message>, c: Option<nat>, m: Message)
    requires ShownIs(all, e, c) && m.id !in Ids(all)
    ensures ShownIs(all + [m], e + [m], c)
  {
    if c.Some? {
      CompactedMore(all, e, c.value, m);
    }
  }

  /** Nothing that is stored behind it makes a turn less first. */
  lemma FirstMore(e: seq<Message>, m: Message, turn: string)
    ensures Occurs(e, turn) ==> Occurs(e + [m], turn) && (IsFirst(e, turn) ==> IsFirst(e + [m], turn))
    ensures Occurs(e + [m], turn) ==> Occurs(e, turn) || (Counts(m) && m.turnId == turn)
  {
    ReachStays(e, [m], turn);
    assert forall i :: 0 <= i < |e| ==> (e + [m])[i] == e[i];
  }

  lemma StoredKeepsShown(all: seq<Message>, e: seq<Message>, c: Option<nat>, running: Option<string>, m: Message, after: Option<string>)
    requires ShownOk(all, e, c, running) && m.id !in Ids(all)
    requires forall i :: 0 <= i < |all| && Counts(m) && Speaks(all[i]) && all[i].turnId == m.turnId ==> Occurs(e, m.turnId)
    requires after == running || (after == Some(m.turnId) && !Occurs(all, m.turnId) && Counts(m))
    ensures ShownOk(all + [m], e + [m], c, after)
  {
    var more, shown := all + [m], e + [m];
    ShownMore(all, e, c, m);
    IdsMore(e, m);
    assert forall i :: 0 <= i < |all| ==> more[i] == all[i];
    forall i: nat ensures StraddleAt(more, shown, i) {
      assert StraddleAt(all, e, i);
      if i < |all| {
        FirstMore(e, m, all[i].turnId);
      }
    }
    if after.Some? {
      ReachStays(all, [m], after.value);
    }
  }

  // ----- compacting

  /** The head of what is shown, when it is a summary, is not kept. */
  lemma HeadIsCold(e: seq<Message>, keep: nat, running: Option<string>)
    requires DistinctIds(e) && e != [] && e[0].role.Summary? && Plain(e[0]) && Cold(e, keep, running) != []
    ensures e[0].id !in Ids(Tail(e, keep, running))
  {
    var tail := Tail(e, keep, running);
    if keep > 0 || running.None? {
      var a := TailStart(e, keep);
      assert forall x :: 0 <= x < |tail| ==> tail[x] == e[a + x];
    } else {
      var turn, start := running.value, ExchangeStart(e, running.value);
      ExchangeBehindHead(e, turn);
      KeptHas(e, turn, start, |e|);
      forall x | 0 <= x < |tail| ensures tail[x].id != e[0].id {
        assert tail[x] in tail;
      }
    }
  }

  lemma VisibleWithout(before: seq<Message>, m: Message, behind: seq<Message>, ids: set<string>)
    requires m.id !in ids
    ensures Visible(before + [m] + behind, ids) == Visible(before + behind, ids)
  {
    VisibleAppend(before + [m], behind, ids);
    VisibleAppend(before, [m], ids);
    VisibleAppend(before, behind, ids);
    OneVisible(m, ids);
    NothingAdded(Visible(before, ids));
  }

  lemma SelectionBehind(head: Message, ms: seq<Message>, ids: set<string>)
    requires head.id !in ids
    ensures Visible([head] + ms, ids) == Visible(ms, ids)
  {
    VisibleAppend([head], ms, ids);
    OneVisible(head, ids);
  }

  lemma SelectionOfRest(all: seq<Message>, at: nat, ids: set<string>)
    requires at < |all| && all[at].id !in ids
    ensures Visible(all, ids) == Visible(Rest(all, at), ids)
  {
    assert all == all[..at] + [all[at]] + all[at + 1..];
    VisibleWithout(all[..at], all[at], all[at + 1..], ids);
  }

  /** A selection of what is shown behind the summary is one of the whole history. */
  lemma SelectionOfAll(all: seq<Message>, e: seq<Message>, at: nat, ids: set<string>)
    requires Compacted(all, e, at) && ids <= Ids(e) && all[at].id !in ids
    ensures Visible(all, ids) == Visible(e, ids)
  {
    SelectionOfRest(all, at, ids);
    SelectionBehind(all[at], Visible(Rest(all, at), Ids(e)), ids);
    hide Ids, HiddenFirst, Visible, Rest;
    VisibleTwice(Rest(all, at), Ids(e), ids);
  }

  /** What is kept is the same selection of the whole history. */
  lemma TailIsSelection(all: seq<Message>, e: seq<Message>, c: Option<nat>, keep: nat, running: Option<string>)
    requires HistoryOk(all, running) && ShownIs(all, e, c) && Cold(e, keep, running) != []
    ensures var tail := Tail(e, keep, running); Visible(all, Ids(tail)) == tail && Ids(tail) <= Ids(e)
  {
    hide Visible, Tail, Cold, HiddenFirst;
    var tail := Tail(e, keep, running);
    ShownDistinct(all, e, c);
    TailIsVisible(e, keep, running);
    SelectedIds(e, tail);
    if c.Some? {
      assert MessageOk(all[c.value]);
      hide HistoryOk, MessageOk, Ids;
      HeadIsCold(e, keep, running);
      SelectionOfAll(all, e, c.value, Ids(tail));
    }
  }

  lemma SelectedIds(e: seq<Message>, tail: seq<Message>)
    requires Visible(e, Ids(tail)) == tail
    ensures Ids(tail) <= Ids(e)
  {
    VisibleIsVisible(e, Ids(tail));
    assert forall x :: 0 <= x < |tail| ==> tail[x] in tail && tail[x] in e;
  }

  /** What speaks and is hidden is older than what speaks and is shown, over the whole history. */
  lemma HiddenAreOlder(all: seq<Message>, e: seq<Message>, c: Option<nat>)
    requires ShownIs(all, e, c)
    ensures HiddenFirst(all, Ids(e))
  {
    if c.None? {
      assert forall j :: 0 <= j < |all| ==> all[j].id in Ids(all);
    } else {
      var at, rest := c.value, Rest(all, c.value);
      forall i, j | 0 <= i < j < |all| && Speaks(all[i]) && Speaks(all[j]) && all[i].id in Ids(e) ensures all[j].id in Ids(e) {
        var i', j' := if i < at then i else i - 1, if j < at then j else j - 1;
        RestAt(all, at, i');
        RestAt(all, at, j');
      }
    }
  }

  lemma WorksWhenSpeaking(m: Message)
    requires MessageOk(m) && Speaks(m)
    ensures Works(m)
  {
  }

  lemma LaterInExchange(all: seq<Message>, e: seq<Message>, c: Option<nat>, turn: string, x: nat, y: nat)
    requires HistoryOk(all, Some(turn)) && ShownIs(all, e, c) && OpeningShown(all, e, Some(turn)) && DistinctIds(e)
    requires x < y < |e| && Speaks(e[x]) && Works(e[x]) && Works(e[y]) && e[x].id in Ids(Tail(e, 0, Some(turn)))
    ensures e[y].id in Ids(Tail(e, 0, Some(turn)))
  {
    var start, tail := ExchangeStart(e, turn), Tail(e, 0, Some(turn));
    KeptHas(e, turn, start, |e|);
    var r := RunningShown(all, e, c, turn);
    hide ExchangeStart, ShownIs, HistoryOk, OpeningShown, Kept;
    var z :| 0 <= z < |tail| && tail[z].id == e[x].id;
    assert tail[z] in tail;
    assert Protected(turn, start, e[x], x);
    assert Protected(turn, start, e[y], y);
    assert e[y] in tail;
  }

  lemma LaterInSuffix(ms: seq<Message>, a: nat, x: nat, y: nat)
    requires DistinctIds(ms) && a <= |ms| && x < y < |ms| && ms[x].id in Ids(ms[a..])
    ensures ms[y].id in Ids(ms[a..])
  {
    var tail := ms[a..];
    var z :| 0 <= z < |tail| && tail[z].id == ms[x].id;
    assert tail[z] == ms[a + z];
    assert tail[y - a] == ms[y];
  }

  /** Whatever a compaction keeps of what speaks, it keeps what spoke later. */
  lemma LaterIsKept(all: seq<Message>, e: seq<Message>, c: Option<nat>, keep: nat, running: Option<string>, x: nat, y: nat)
    requires HistoryOk(all, running) && ShownIs(all, e, c) && OpeningShown(all, e, running)
    requires x < y < |e| && Speaks(e[x]) && Works(e[x]) && Works(e[y]) && e[x].id in Ids(Tail(e, keep, running))
    ensures e[y].id in Ids(Tail(e, keep, running))
  {
    ShownDistinct(all, e, c);
    if keep > 0 || running.None? {
      LaterInSuffix(e, TailStart(e, keep), x, y);
    } else {
      LaterInExchange(all, e, c, running.value, x, y);
    }
  }

  lemma CompactingHidesOlder(all: seq<Message>, e: seq<Message>, c: Option<nat>, keep: nat, running: Option<string>)
    requires HistoryOk(all, running) && ShownIs(all, e, c) && OpeningShown(all, e, running) && Cold(e, keep, running) != []
    ensures HiddenFirst(all, Ids(Tail(e, keep, running)))
  {
    hide Tail, Cold, ShownIs;
    var ids := Ids(Tail(e, keep, running));
    HiddenAreOlder(all, e, c);
    TailIsSelection(all, e, c, keep, running);
    forall i, j | 0 <= i < j < |all| && Speaks(all[i]) && Speaks(all[j]) && all[i].id in ids ensures all[j].id in ids {
      WorksWhenSpeaking(all[i]);
      WorksWhenSpeaking(all[j]);
      var x, y := StoredOrder(all, e, c, i, j);
      LaterIsKept(all, e, c, keep, running, x, y);
    }
  }

  /** The input that opened the running turn is kept. */
  lemma OpeningIsKept(all: seq<Message>, e: seq<Message>, c: Option<nat>, keep: nat, turn: string)
    requires HistoryOk(all, Some(turn)) && ShownIs(all, e, c) && OpeningShown(all, e, Some(turn)) && Cold(e, keep, Some(turn)) != []
    ensures all[Reach(all, turn, 0)].id in Ids(Tail(e, keep, Some(turn)))
  {
    var tail := Tail(e, keep, Some(turn));
    var x := RunningShown(all, e, c, turn);
    if keep > 0 {
      CutIsBefore(e, keep, |e|, x);
      assert tail[x - TailStart(e, keep)] == e[x];
    } else {
      var start := ExchangeStart(e, turn);
      KeptHas(e, turn, start, |e|);
      assert Protected(turn, start, e[x], x);
      assert e[x] in tail;
      var w :| 0 <= w < |tail| && tail[w] == e[x];
    }
  }

  /** A cut at an input is never inside a turn. */
  lemma NoTurnAcross(all: seq<Message>, e: seq<Message>, c: Option<nat>, running: Option<string>, x: nat, a: nat, y: nat)
    requires HistoryOk(all, running) && ShownIs(all, e, c) && x < a < y < |e|
    requires Counts(e[x]) && IsInputTurnBoundary(e[a]) && Counts(e[y])
    ensures e[x].turnId != e[y].turnId
  {
    hide ShownIs, DistinctIds;
    var i, j := ShownOrder(all, e, c, x, a);
    var j', l := ShownOrder(all, e, c, a, y);
    SameIndex(all, j, j');
    assert ApartAt(all, i, j, l);
    assert BoundaryOpens(all, j);
  }

  lemma SameIndex(all: seq<Message>, i: nat, j: nat)
    requires DistinctIds(all) && i < |all| && j < |all| && all[i] == all[j]
    ensures i == j
  {
  }

  lemma InputCounts(m: Message)
    requires IsInputTurnBoundary(m)
    ensures Works(m)
  {
  }

  /** A turn that speaks before the cut, and is there behind it, begins at the cut. */
  lemma CutTurnIsFirst(all: seq<Message>, e: seq<Message>, c: Option<nat>, running: Option<string>, a: nat, i: nat)
    requires HistoryOk(all, running) && ShownOk(all, e, c, running)
    requires a < |e| && IsInputTurnBoundary(e[a])
    requires i < |all| && Speaks(all[i]) && all[i].id !in Ids(e[a..]) && Occurs(e[a..], all[i].turnId)
    ensures IsFirst(e[a..], all[i].turnId)
  {
    hide Works, IsInputTurnBoundary, ShownIs, DistinctIds, OpeningShown;
    var turn, tail := all[i].turnId, e[a..];
    var y := a + Reach(tail, turn, 0);
    InputCounts(e[a]);
    assert tail[0] == e[a] && tail[Reach(tail, turn, 0)] == e[y];
    WorksWhenSpeaking(all[i]);
    if e[a].turnId != turn {
      var x: nat;
      if all[i].id in Ids(e) {
        x := ShownPlace(all, e, c, i);
        assert forall z :: a <= z < |e| ==> tail[z - a] == e[z];
      } else {
        OccursSomewhere(e, y);
        assert StraddleAt(all, e, i);
        x := Reach(e, turn, 0);
        assert x <= a;
      }
      NoTurnAcross(all, e, c, running, x, a, y);
      assert false;
    }
  }

  /** Behind a head that does not count a turn is first when it is first of the rest. */
  lemma FirstBehindHead(m: Message, tail: seq<Message>, turn: string)
    requires !Counts(m)
    ensures Occurs([m] + tail, turn) ==> Occurs(tail, turn) && (IsFirst(tail, turn) ==> IsFirst([m] + tail, turn))
  {
    var all := [m] + tail;
    assert forall x :: 0 <= x < |tail| ==> all[x + 1] == tail[x];
    var r := Reach(all, turn, 0);
    if r < |all| {
      assert all[r] == tail[r - 1];
      assert forall x :: 1 <= x < |all| ==> all[x] == tail[x - 1];
    }
  }

  lemma OnlyTurnIsFirst(tail: seq<Message>, turn: string)
    requires forall x :: 0 <= x < |tail| ==> tail[x].turnId == turn
    ensures forall t :: Occurs(tail, t) ==> IsFirst(tail, t)
  {
  }

  lemma CompactingKeepsStraddlers(all: seq<Message>, e: seq<Message>, c: Option<nat>, keep: nat, running: Option<string>,
                                  m: Message, i: nat)
    requires HistoryOk(all, running) && ShownOk(all, e, c, running) && Cold(e, keep, running) != []
    requires m.role.Summary? && m.id !in Ids(all)
    ensures StraddleAt(all + [m], [m] + Tail(e, keep, running), i)
  {
    var tail := Tail(e, keep, running);
    IdsAppend([m], tail);
    IdsOfOne(m);
    OldOnes(all, m);
    if i < |all| {
      var turn := all[i].turnId;
      FirstBehindHead(m, tail, turn);
      if Speaks(all[i]) && all[i].id !in Ids([m] + tail) && Occurs([m] + tail, turn) {
        if keep > 0 {
          CutTurnIsFirst(all, e, c, running, TailStart(e, keep), i);
        } else if running.Some? {
          KeptHas(e, running.value, ExchangeStart(e, running.value), |e|);
          assert forall x :: 0 <= x < |tail| ==> tail[x] in tail;
          OnlyTurnIsFirst(tail, running.value);
        }
      }
    }
  }

  /** Compacting keeps what holds of what is shown. */
  lemma CompactingKeepsShown(all: seq<Message>, e: seq<Message>, c: Option<nat>, keep: nat, running: Option<string>, m: Message)
    requires HistoryOk(all, running) && ShownOk(all, e, c, running) && Cold(e, keep, running) != []
    requires m.role.Summary? && m.id !in Ids(all)
    ensures ShownOk(all + [m], [m] + Tail(e, keep, running), Some(|all|), running)
  {
    var tail := Tail(e, keep, running);
    var more, shown := all + [m], [m] + tail;
    hide Tail, Cold, HistoryOk, ShownIs;
    assert ShownIs(more, shown, Some(|all|)) by { CompactingSelects(all, e, c, keep, running, m); }
    hide Compacted;
    forall i: nat ensures StraddleAt(more, shown, i) {
      CompactingKeepsStraddlers(all, e, c, keep, running, m, i);
    }
    if running.Some? {
      OpeningIsKept(all, e, c, keep, running.value);
      ReachStays(all, [m], running.value);
      OldOnes(all, m);
      IdsAppend([m], tail);
    }
  }

  lemma CompactingSelects(all: seq<Message>, e: seq<Message>, c: Option<nat>, keep: nat, running: Option<string>, m: Message)
    requires HistoryOk(all, running) && ShownOk(all, e, c, running) && Cold(e, keep, running) != []
    requires m.role.Summary? && m.id !in Ids(all)
    ensures ShownIs(all + [m], [m] + Tail(e, keep, running), Some(|all|))
  {
    var tail := Tail(e, keep, running);
    TailIsSelection(all, e, c, keep, running);
    CompactingHidesOlder(all, e, c, keep, running);
    hide Tail, Cold, HistoryOk;
    var ids, shown := Ids(tail), Ids([m] + tail);
    IdsAppend([m], tail);
    IdsOfOne(m);
    assert Rest(all + [m], |all|) == all;
    assert forall i :: 0 <= i < |all| ==> all[i].id in Ids(all);
    VisibleSame(all, ids, shown);
    assert (all + [m])[|all|] == m;
  }

  // ----- the watermark

  /** A committed watermark is through a turn that is shown, under the summary that is shown,
      and before the running turn. */
  predicate CoolingOk(e: seq<Message>, running: Option<string>, w: Watermark) {
    w.throughTurnId == "" ||
    (&& Occurs(e, w.throughTurnId) && w.summaryId == LastSummary(e, |e|)
     && (running.Some? ==> Reach(e, w.throughTurnId, 0) < Reach(e, running.value, 0)))
  }

  lemma StoredKeepsCooling(e: seq<Message>, running: Option<string>, w: Watermark, m: Message, after: Option<string>)
    requires CoolingOk(e, running, w) && !m.role.Summary?
    requires (after == running && (running.Some? ==> Occurs(e, running.value)))
             || (after == Some(m.turnId) && !Occurs(e, m.turnId))
    ensures CoolingOk(e + [m], after, w)
  {
    ReachStays(e, [m], w.throughTurnId);
    if after.Some? {
      ReachStays(e, [m], after.value);
    }
    SummaryUnlessLater(e, [m], 1);
  }

  /** A watermark chosen while a turn runs is before that turn. */
  lemma ChosenIsCooling(all: seq<Message>, e: seq<Message>, c: Option<nat>, turn: string, keep: nat)
    requires HistoryOk(all, Some(turn)) && ShownIs(all, e, c) && OpeningShown(all, e, Some(turn))
    ensures CoolingOk(e, Some(turn), Candidate(InTurnOrder(e), turn, keep))
  {
    var x := RunningShown(all, e, c, turn);
    hide ShownIs, HistoryOk, OpeningShown, InTurnOrder, ColdTurns;
    var w := Candidate(InTurnOrder(e), turn, keep);
    CurrentTurnIsWarm(e, turn, keep, x);
    CandidateOccurs(e, turn, keep);
    SameSummary(e);
    ColdByFirst(e, w, turn);
  }

  // ----- every step

  ghost predicate Inv(s: Session) {
    && HistoryOk(s.all, s.running) && TailsKnown(s.all, s.tails)
    && ShownOk(s.all, Shown(s), LastCompaction(s.all, s.tails, |s.all|), s.running)
    && CoolingOk(Shown(s), s.running, s.cooling)
  }

  lemma NowhereIn(ms: seq<Message>, turn: string)
    requires forall i :: 0 <= i < |ms| ==> ms[i].turnId != turn
    ensures !Occurs(ms, turn)
  {
  }

  lemma NotHere(all: seq<Message>, e: seq<Message>, c: Option<nat>, turn: string)
    requires ShownIs(all, e, c) && forall i :: 0 <= i < |all| ==> all[i].turnId != turn
    ensures !Occurs(all, turn) && !Occurs(e, turn)
  {
    NowhereIn(all, turn);
    ShownStored(all, e, c);
    forall x | 0 <= x < |e| ensures e[x].turnId != turn {
      assert e[x] in all;
    }
    NowhereIn(e, turn);
  }

  lemma TailsMore(all: seq<Message>, tails: Tails, m: Message)
    requires TailsKnown(all, tails)
    ensures TailsKnown(all + [m], tails)
  {
    IdsMore(all, m);
  }

  lemma TailsListed(all: seq<Message>, tails: Tails, m: Message, tail: seq<Message>)
    requires TailsKnown(all, tails) && Ids(tail) <= Ids(all)
    ensures TailsKnown(all + [m], tails[m.id := IdList(tail)])
  {
    IdsMore(all, m);
    assert forall i :: 0 <= i < |tail| ==> tail[i].id in Ids(tail);
  }

  /** Storing a message of a turn that is running, of a new turn, or of none. */
  lemma StoringKeeps(s: Session, m: Message, after: Option<string>)
    requires Inv(s) && HistoryOk(s.all + [m], after) && m.id !in Ids(s.all) && !m.role.Summary?
    requires || (m.turnId == "" && after == s.running)
             || (s.running == Some(m.turnId) == after)
             || (FreshTurn(s, m.turnId) && (after == s.running || (after == Some(m.turnId) && Counts(m))))
    ensures Inv(Stored(s, m).(running := after))
  {
    var all, e, c := s.all, Shown(s), LastCompaction(s.all, s.tails, |s.all|);
    StoringShows(all, s.tails, m);
    TailsMore(all, s.tails, m);
    if s.running.Some? {
      var x := RunningShown(all, e, c, s.running.value);
    }
    if FreshTurn(s, m.turnId) {
      NotHere(all, e, c, m.turnId);
    }
    hide HistoryOk, ShownIs, Shown;
    StoredKeepsShown(all, e, c, s.running, m, after);
    StoredKeepsCooling(e, s.running, s.cooling, m, after);
  }

  lemma {:induction false} ByIDIsUnique(all: seq<Message>, i: nat)
    requires DistinctIds(all) && i < |all|
    ensures ByID(all, all[i].id) == Some(all[i])
  {
    var n := |all| - 1;
    if i < n {
      assert forall x :: 0 <= x < n ==> all[..n][x] == all[x];
      ByIDIsUnique(all[..n], i);
    }
  }

  lemma TailIsFound(all: seq<Message>, e: seq<Message>, c: Option<nat>, keep: nat, running: Option<string>)
    requires HistoryOk(all, running) && ShownIs(all, e, c) && Cold(e, keep, running) != []
    ensures var tail := Tail(e, keep, running);
            && (forall x :: 0 <= x < |tail| ==> ByID(all, tail[x].id) == Some(tail[x]))
            && DistinctIds(tail) && Ids(tail) <= Ids(all)
  {
    var tail := Tail(e, keep, running);
    TailIsSelection(all, e, c, keep, running);
    VisibleIsVisible(all, Ids(tail));
    VisibleDistinct(all, Ids(tail));
    ShownStored(all, e, c);
    hide Tail, Cold, Visible, ShownIs;
    forall x | 0 <= x < |tail| ensures ByID(all, tail[x].id) == Some(tail[x]) {
      assert tail[x] in tail;
      var i :| 0 <= i < |all| && all[i] == tail[x];
      ByIDIsUnique(all, i);
    }
  }

  lemma CompactionKeeps(s: Session, m: Message, keep: nat)
    requires Inv(s) && Enabled(s, Compact(m, keep)) && HistoryOk(s.all + [m], s.running)
    ensures Inv(Step(s, Compact(m, keep)))
  {
    var all, e, c := s.all, Shown(s), LastCompaction(s.all, s.tails, |s.all|);
    var tail := Tail(e, keep, s.running);
    TailIsFound(all, e, c, keep, s.running);
    hide Tail, Cold, HistoryOk, ShownIs, Effective;
    CompactingShows(all, s.tails, m, tail);
    TailsListed(all, s.tails, m, tail);
    CompactingKeepsShown(all, e, c, keep, s.running, m);
  }

  lemma StepKeeps(s: Session, e: Event)
    requires Inv(s) && Enabled(s, e)
    ensures Inv(Step(s, e))
  {
    HistoryKeeps(s, e);
    hide HistoryOk, ShownOk, CoolingOk, Shown, Candidate, InTurnOrder, IsInputTurnBoundary, WidgetNotification;
    match e
    case Begin(m) => InputCounts(m); StoringKeeps(s, m, Some(m.turnId));
    case Steer(m) => StoringKeeps(s, m, s.running);
    case Output(m) => StoringKeeps(s, m, s.running);
    case Collect(m) => StoringKeeps(s, m, s.running);
    case Notify(m) => ReceiptIsUser(m); StoringKeeps(s, m, s.running);
    case Finish => FinishKeeps(s);
    case Compact(m, keep) => CompactionKeeps(s, m, keep);
    case Cool(keep) => CoolKeeps(s, keep);
  }

  lemma ReceiptIsUser(m: Message)
    ensures WidgetNotification(m).Some? ==> m.role.User?
  {
  }

  lemma FinishKeeps(s: Session)
    requires Inv(s) && HistoryOk(s.all, None)
    ensures Inv(s.(running := None))
  {
    hide HistoryOk, ShownIs;
  }

  lemma CoolKeeps(s: Session, keep: nat)
    requires Inv(s) && s.running.Some?
    ensures Inv(Step(s, Cool(keep)))
  {
    hide Candidate, InTurnOrder;
    ChosenIsCooling(s.all, Shown(s), LastCompaction(s.all, s.tails, |s.all|), s.running.value, keep);
  }

  lemma StartsWell()
    ensures Inv(START)
  {
    assert DistinctIds([]);
  }

  lemma {:induction false} RunKeeps(s: Session, events: seq<Event>)
    requires Inv(s) && CanRun(s, events)
    ensures Inv(Run(s, events))
    decreases |events|
  {
    hide Inv, Enabled, Step;
    if events != [] {
      StepKeeps(s, events[0]);
      RunKeeps(Step(s, events[0]), events[1..]);
    }
  }
}
