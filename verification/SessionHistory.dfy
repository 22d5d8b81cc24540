/** What every step keeps of the stored history: turns do not interleave but for receipts, a
    receipt is alone in its turn, and the running turn is the last one that works. */
module SessionHistory {

  import opened Results
  import opened Messages
  import opened HistoryOrder
  import opened Cooling
  import opened CoolingProofs
  import opened CoolingPipeline
  import opened Compaction
  import opened Sessions
  import opened SkillReferences
  import opened SkillReferencesProofs

  // ----- the stored history

  /** What speaks belongs to a turn, only what speaks has tool results, and a summary has no
      calls. */
  predicate MessageOk(m: Message) {
    && m.id != "" && (Speaks(m) ==> m.turnId != "")
    && (forall j :: 0 <= j < |m.parts| && m.parts[j].kind.ToolResult? ==> Speaks(m))
    && (m.role.Summary? ==> Plain(m))
  }

  /** It takes part in its turn: everything does but summaries, receipts and what has none. */
  predicate Works(m: Message) {
    Counts(m) && WidgetNotification(m).None?
  }

  /** Between two messages of a turn only receipts are of another turn. */
  predicate ApartAt(all: seq<Message>, f: nat, m: nat, l: nat) {
    f < m < l < |all| && Counts(all[f]) && Works(all[m]) && Counts(all[l]) && all[f].turnId == all[l].turnId ==>
      all[m].turnId == all[f].turnId
  }

  predicate BoundaryOpens(all: seq<Message>, b: nat) {
    b < |all| && IsInputTurnBoundary(all[b]) ==> forall a :: 0 <= a < b && Counts(all[a]) ==> all[a].turnId != all[b].turnId
  }

  predicate ReceiptAlone(all: seq<Message>, i: nat) {
    i < |all| && WidgetNotification(all[i]).Some? ==> Alone(all, i)
  }

  /** The running turn was opened by an input, and nothing else has worked since. */
  predicate RunningOk(all: seq<Message>, turn: string) {
    var c := Reach(all, turn, 0);
    && c < |all| && IsInputTurnBoundary(all[c])
    && forall m :: c < m < |all| && Works(all[m]) ==> all[m].turnId == turn
  }

  ghost predicate HistoryOk(all: seq<Message>, running: Option<string>) {
    && DistinctIds(all)
    && (forall i :: 0 <= i < |all| ==> MessageOk(all[i]))
    && (forall f: nat, m: nat, l: nat :: ApartAt(all, f, m, l))
    && (forall b: nat :: BoundaryOpens(all, b))
    && (forall i: nat :: ReceiptAlone(all, i))
    && (running.Some? ==> RunningOk(all, running.value))
  }

  lemma OldOnes(all: seq<Message>, m: Message)
    ensures forall i :: 0 <= i < |all| ==> (all + [m])[i] == all[i]
    ensures (all + [m])[|all|] == m
  {
  }

  lemma DistinctMore(all: seq<Message>, m: Message)
    requires DistinctIds(all) && m.id !in Ids(all)
    ensures DistinctIds(all + [m])
  {
    OldOnes(all, m);
    assert forall i :: 0 <= i < |all| ==> all[i].id in Ids(all);
  }

  /** A message of the running turn. */
  lemma {:induction false} OwnTurnKeeps(all: seq<Message>, m: Message)
    requires HistoryOk(all, Some(m.turnId)) && m.id !in Ids(all) && MessageOk(m)
    requires WidgetNotification(m).None? && !IsInputTurnBoundary(m) && m.turnId != ""
    ensures HistoryOk(all + [m], Some(m.turnId))
  {
    hide WidgetNotification, IsInputTurnBoundary, MessageOk;
    var more, turn := all + [m], m.turnId;
    var c := Reach(all, turn, 0);
    OldOnes(all, m);
    DistinctMore(all, m);
    ReachStays(all, [m], turn);
    forall x: nat, y: nat, l: nat ensures ApartAt(more, x, y, l) {
      assert ApartAt(all, x, y, l);
    }
    forall b: nat ensures BoundaryOpens(more, b) {
      assert BoundaryOpens(all, b);
    }
    forall i: nat ensures ReceiptAlone(more, i) {
      assert ReceiptAlone(all, i);
      assert i < |all| && WidgetNotification(all[i]).Some? ==> all[i].turnId != turn by { ReceiptIsNoOpening(all, i, c); }
    }
  }

  lemma ReceiptIsNoOpening(all: seq<Message>, i: nat, c: nat)
    requires ReceiptAlone(all, i) && c < |all| && IsInputTurnBoundary(all[c])
    ensures i < |all| && WidgetNotification(all[i]).Some? ==> all[i].turnId != all[c].turnId
  {
  }

  /** A message that opens a turn nobody had. */
  lemma {:induction false} NewTurnKeeps(all: seq<Message>, m: Message, running: Option<string>, after: Option<string>)
    requires HistoryOk(all, running) && m.id !in Ids(all) && MessageOk(m)
    requires m.turnId != "" && forall i :: 0 <= i < |all| ==> all[i].turnId != m.turnId
    requires if IsInputTurnBoundary(m) then running.None? && after == Some(m.turnId)
             else after == running && (running.Some? ==> WidgetNotification(m).Some?)
    ensures HistoryOk(all + [m], after)
  {
    assert m.id != "";
    hide MessageOk;
    var more := all + [m];
    OldOnes(all, m);
    DistinctMore(all, m);
    forall x: nat, y: nat, l: nat ensures ApartAt(more, x, y, l) {
      assert ApartAt(all, x, y, l);
    }
    forall b: nat ensures BoundaryOpens(more, b) {
      assert BoundaryOpens(all, b);
    }
    forall i: nat ensures ReceiptAlone(more, i) {
      assert ReceiptAlone(all, i);
    }
    if after.Some? {
      ReachStays(all, [m], after.value);
    }
  }

  /** A message without a turn. */
  lemma {:induction false} NoTurnKeeps(all: seq<Message>, m: Message, running: Option<string>)
    requires HistoryOk(all, running) && m.id !in Ids(all) && MessageOk(m)
    requires m.turnId == "" && WidgetNotification(m).None?
    ensures HistoryOk(all + [m], running)
  {
    hide MessageOk, WidgetNotification;
    var more := all + [m];
    OldOnes(all, m);
    DistinctMore(all, m);
    forall x: nat, y: nat, l: nat ensures ApartAt(more, x, y, l) {
      assert ApartAt(all, x, y, l);
    }
    forall b: nat ensures BoundaryOpens(more, b) {
      assert BoundaryOpens(all, b);
    }
    forall i: nat ensures ReceiptAlone(more, i) {
      assert ReceiptAlone(all, i);
    }
    if running.Some? {
      ReachStays(all, [m], running.value);
    }
  }

  /** The stored history after a step. */
  lemma HistoryKeeps(s: Session, e: Event)
    requires HistoryOk(s.all, s.running) && Enabled(s, e)
    ensures HistoryOk(Step(s, e).all, Step(s, e).running)
  {
    hide HistoryOk, Shown, Cold, Tail, Candidate, InTurnOrder;
    match e
    case Begin(m) => NewTurnKeeps(s.all, m, s.running, Some(m.turnId));
    case Steer(m) => RunningTurn(s); OwnTurnKeeps(s.all, m);
    case Output(m) => RunningTurn(s); OwnTurnKeeps(s.all, m);
    case Collect(m) => NoTurnKeeps(s.all, m, s.running);
    case Notify(m) => NewTurnKeeps(s.all, m, s.running, s.running);
    case Finish => NotRunning(s);
    case Compact(m, _) =>
      if s.running.Some? {
        RunningTurn(s);
        OwnTurnKeeps(s.all, m);
      } else {
        NewTurnKeeps(s.all, m, s.running, s.running);
      }
    case Cool(_) =>
  }

  lemma RunningTurn(s: Session)
    requires HistoryOk(s.all, s.running) && s.running.Some?
    ensures s.running.value != ""
  {
  }

  lemma NotRunning(s: Session)
    requires HistoryOk(s.all, s.running)
    ensures HistoryOk(s.all, None)
  {
  }
}
