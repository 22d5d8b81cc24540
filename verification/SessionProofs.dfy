/** What holds of every request of every session, whatever happened before. */
module SessionProofs {

  import opened Results
  import opened Messages
  import opened HistoryOrder
  import Regrouping
  import opened Cooling
  import opened CoolingProofs
  import opened CoolingPipeline
  import opened Compaction
  import opened RequestPath
  import opened Sessions
  import opened SessionHistory
  import opened SessionInvariants
  import opened SkillReferences
  import opened SkillReferencesProofs

  /** The messages a request of the session is built from. */
  function Request(rd: Reader, loaded: set<string>, s: Session): seq<Message> {
    if Shown(s) == [] then [] else Projected(rd, loaded, s.all, Shown(s))
  }

  // ----- what is carried

  lemma CarriedWhenNone(rd: Reader, loaded: set<string>, all: seq<Message>)
    ensures CarriedOn(rd, loaded, all, all) == []
  {
    assert forall i :: 0 <= i < |all| ==> all[i].id in Ids(all);
    NothingCarriedFromVisible(rd, ScanMessages(rd, loaded, all).latest, Ids(all), all);
  }

  lemma HiddenSpeaker(all: seq<Message>, ids: set<string>, c: Message) returns (i: nat)
    requires ComesFrom(c, Hidden(all, ids))
    ensures i < |all| && Speaks(all[i]) && all[i].turnId == c.turnId && all[i].id !in ids
  {
    var hidden := Hidden(all, ids);
    var x :| 0 <= x < |hidden| && Speaks(hidden[x]) && hidden[x].turnId == c.turnId;
    assert hidden[x] in hidden;
    VisibleIsVisible(all, ids);
    i :| 0 <= i < |all| && all[i] == hidden[x];
  }

  lemma HiddenIsOk(all: seq<Message>, running: Option<string>, ids: set<string>)
    requires HistoryOk(all, running)
    ensures Tidy(all) && Tidy(Hidden(all, ids))
    ensures forall i :: 0 <= i < |Hidden(all, ids)| && Speaks(Hidden(all, ids)[i]) ==> Hidden(all, ids)[i].turnId != ""
    ensures forall i :: 0 <= i < |all| && Speaks(all[i]) ==> Counts(all[i])
  {
    assert forall i :: 0 <= i < |all| ==> MessageOk(all[i]);
    VisibleIsTidy(all, ids);
    VisibleIsVisible(all, ids);
    var hidden := Hidden(all, ids);
    forall i | 0 <= i < |hidden| && Speaks(hidden[i]) ensures hidden[i].turnId != "" {
      assert hidden[i] in hidden;
      var x :| 0 <= x < |all| && all[x] == hidden[i];
    }
  }

  lemma CarriedIsFirst(all: seq<Message>, e: seq<Message>, carried: seq<Message>)
    requires forall i: nat :: StraddleAt(all, e, i)
    requires forall m :: m in carried ==> ComesFrom(m, Hidden(all, Ids(e)))
    ensures StraddlersFirst(e, carried)
  {
    hide Hidden, Ids, ComesFrom, Occurs, IsFirst;
    forall x | 0 <= x < |carried| && Occurs(e, carried[x].turnId) ensures IsFirst(e, carried[x].turnId) {
      assert carried[x] in carried;
      var i := HiddenSpeaker(all, Ids(e), carried[x]);
      assert StraddleAt(all, e, i);
    }
  }

  /** Of every session: what is carried is hidden and stands behind a summary, and a turn it
      belongs to is shown first, if at all. */
  lemma SessionIsProjectable(rd: Reader, loaded: set<string>, s: Session)
    requires Inv(s)
    ensures Projectable(rd, loaded, s.all, Shown(s))
    ensures StraddlersFirst(Shown(s), CarriedOn(rd, loaded, s.all, Shown(s)))
  {
    var all, e, c := s.all, Shown(s), LastCompaction(s.all, s.tails, |s.all|);
    var ids, latest := Ids(e), ScanMessages(rd, loaded, all).latest;
    var carried := CarriedOn(rd, loaded, all, e);
    HiddenIsOk(all, s.running, ids);
    if c.None? {
      CarriedWhenNone(rd, loaded, all);
    }
    CarriedFromHidden(rd, latest, ids, all);
    CarriedCome(rd, latest, ids, Hidden(all, ids));
    hide CarriedMessages, ScanMessages, Hidden, HistoryOk, StraddlersFirst;
    CarriedIsFirst(all, e, carried);
  }

  // ----- the running turn

  /** Over every run of a session, with compactions inside the running turn and out of it, and
      whatever watermark was committed when, no message of the running turn is altered in a
      request. */
  lemma RunningTurnNeverCooled(events: seq<Event>, stubs: Stubs, rd: Reader, loaded: set<string>, i: nat)
    requires CanRun(START, events) && Run(START, events).running.Some?
    requires var s := Run(START, events);
             var ms := InTurnOrder(Request(rd, loaded, s)); i < |ms| && ms[i].turnId == s.running.value
    ensures var s := Run(START, events);
            var ms := InTurnOrder(Request(rd, loaded, s)); Cooled(stubs, ms, s.cooling)[i] == ms[i]
  {
    StartsWell();
    RunKeeps(START, events);
    var s := Run(START, events);
    var e, turn := Shown(s), s.running.value;
    SessionIsProjectable(rd, loaded, s);
    var x := RunningShown(s.all, e, LastCompaction(s.all, s.tails, |s.all|), turn);
    hide InTurnOrder, Projectable, StraddlersFirst, Projected, ColdTurns, Shown, Run, CanRun, ShownOk, HistoryOk, CarriedOn;
    OccursSomewhere(e, x);
    ColdByFirst(e, s.cooling, turn);
    ProjectionCoolsTheSame(rd, loaded, s.all, e, s.cooling, turn);
    CooledAt(stubs, InTurnOrder(Request(rd, loaded, s)), s.cooling, i);
  }

  // ----- every turn

  /** Where a shown message is in the request before cooling. */
  lemma ShownIsRequested(rd: Reader, loaded: set<string>, s: Session, x: nat) returns (i: nat)
    requires x < |Shown(s)|
    ensures var ms := InTurnOrder(Request(rd, loaded, s)); i < |ms| && ms[i] == Shown(s)[x]
  {
    hide InTurnOrder, CarriedMessages, ScanMessages, Shown;
    var e, r := Shown(s), Request(rd, loaded, s);
    var carried := CarriedMessages(rd, ScanMessages(rd, loaded, s.all).latest, Ids(e), s.all);
    assert e[x] in r by {
      if carried != [] {
        assert r[if x == 0 then 0 else x + |carried|] == e[x];
      }
    }
    KeepsMessages(r);
    assert e[x] in multiset(r);
    assert e[x] in multiset(InTurnOrder(r));
    i :| 0 <= i < |InTurnOrder(r)| && InTurnOrder(r)[i] == e[x];
  }

  /** Over every run, what a request does to each message that is shown: with a watermark, what
      belongs to a turn first shown no later than the watermark's turn is in its short form;
      everything else is as it was stored. */
  lemma {:induction false} ShownIsCooledExactly(events: seq<Event>, stubs: Stubs, rd: Reader, loaded: set<string>, x: nat) returns (i: nat)
    requires CanRun(START, events) && x < |Shown(Run(START, events))|
    ensures var s := Run(START, events);
            var e, ms := Shown(s), InTurnOrder(Request(rd, loaded, s));
            var out := Cooled(stubs, ms, s.cooling);
            && i < |ms| && ms[i] == e[x]
            && if Counts(e[x]) && s.cooling.throughTurnId != "" && Reach(e, e[x].turnId, 0) <= Reach(e, s.cooling.throughTurnId, 0)
               then ShortForm(stubs, e[x], out[i])
               else out[i] == e[x]
  {
    StartsWell();
    RunKeeps(START, events);
    hide Run, CanRun;
    i := SessionCools(Run(START, events), stubs, rd, loaded, x);
  }

  lemma {:induction false} SessionCools(s: Session, stubs: Stubs, rd: Reader, loaded: set<string>, x: nat) returns (i: nat)
    requires Inv(s) && x < |Shown(s)|
    ensures var e, ms := Shown(s), InTurnOrder(Request(rd, loaded, s));
            var out := Cooled(stubs, ms, s.cooling);
            && i < |ms| && ms[i] == e[x]
            && if Counts(e[x]) && s.cooling.throughTurnId != "" && Reach(e, e[x].turnId, 0) <= Reach(e, s.cooling.throughTurnId, 0)
               then ShortForm(stubs, e[x], out[i])
               else out[i] == e[x]
  {
    var e, w, m := Shown(s), s.cooling, Shown(s)[x];
    SessionIsProjectable(rd, loaded, s);
    i := ShownIsRequested(rd, loaded, s, x);
    hide InTurnOrder, Projectable, StraddlersFirst, Projected, ColdTurns, Shown, ShownOk, HistoryOk, CarriedOn, ShortForm, Cooled;
    var ms := InTurnOrder(Request(rd, loaded, s));
    CoolingKeepsShape(stubs, ms, w, i);
    if Counts(m) {
      OccursSomewhere(e, x);
      ColdByFirst(e, w, m.turnId);
      ProjectionCoolsTheSame(rd, loaded, s.all, e, w, m.turnId);
      if m.turnId in ColdTurns(ms, w) {
        ColdIsShort(stubs, ms, w, i);
      }
    } else {
      UncountedStays(ms, w, i, stubs);
    }
  }

  lemma UncountedStays(ms: seq<Message>, w: Watermark, i: nat, stubs: Stubs)
    requires i < |ms| && !Counts(ms[i])
    ensures Cooled(stubs, ms, w)[i] == ms[i]
  {
  }

  // ----- receipts

  /** The running turn answers this receipt. */
  predicate Cites(s: Session, n: nat) {
    && s.running.Some? && n < |s.all| && WidgetNotification(s.all[n]).Some?
    && Occurs(s.all, s.running.value) && WidgetActionSource(s.all[Reach(s.all, s.running.value, 0)]) == s.all[n].id
  }

  /** The receipt is hidden by a compaction, or warm. */
  ghost predicate Spared(s: Session, n: nat) {
    n < |s.all| && (s.all[n].id in Ids(Shown(s)) ==> s.all[n].turnId !in ColdTurns(InTurnOrder(Shown(s)), s.cooling))
  }

  lemma ReceiptShown(s: Session, n: nat) returns (x: nat)
    requires Inv(s) && n < |s.all| && WidgetNotification(s.all[n]).Some? && s.all[n].id in Ids(Shown(s))
    ensures Alone(s.all, n) && Alone(Shown(s), x) && Shown(s)[x] == s.all[n]
    ensures Opens(Shown(s), x) && Reach(Shown(s), s.all[n].turnId, 0) == x
  {
    var all, e, c := s.all, Shown(s), LastCompaction(s.all, s.tails, |s.all|);
    assert ReceiptAlone(all, n);
    x := ShownPlace(all, e, c, n);
    ShownStored(all, e, c);
    ShownDistinct(all, e, c);
    forall y | 0 <= y < |e| && e[y].turnId == e[x].turnId ensures y == x {
      assert e[y] in all;
      var j :| 0 <= j < |all| && all[j] == e[y];
    }
    OpeningIsReach(e, x);
  }

  /** A watermark that is chosen now spares the receipt the running turn answers. */
  lemma ChosenSparesCited(s: Session, n: nat, keep: nat)
    requires Inv(s) && Cites(s, n) && s.all[n].id in Ids(Shown(s))
    ensures var e := Shown(s);
            s.all[n].turnId !in ColdTurns(InTurnOrder(e), Candidate(InTurnOrder(e), s.running.value, keep))
  {
    var all, e, turn := s.all, Shown(s), s.running.value;
    var x := ReceiptShown(s, n);
    var o := RunningShown(all, e, LastCompaction(s.all, s.tails, |s.all|), turn);
    hide ColdTurns, Candidate, Shown, Inv, HistoryOk, ShownOk, InTurnOrder;
    var ms := InTurnOrder(e);
    OrderingKeepsOpenings(e, x);
    OrderingKeepsOpenings(e, o);
    ActionIsHot(e, turn, keep, o);
    CitedSourceIsWarm(ms, turn, keep, Place(e, x), Place(e, o));
  }

  /** The opening of the running turn is in the hot part, however much is kept. */
  lemma ActionIsHot(e: seq<Message>, turn: string, keep: nat, o: nat)
    requires Opens(e, o) && IsInputTurnBoundary(e[o]) && e[o].turnId == turn
    requires forall z :: o < z < |e| ==> !IsInputTurnBoundary(e[z])
    ensures var ms := InTurnOrder(e); keep < |InputTurns(ms, turn, |ms|)| ==> FirstHot(ms, turn, keep) <= Place(e, o)
  {
    hide FirstHot, InputTurns;
    var ms, a := InTurnOrder(e), Place(e, o);
    OrderingKeepsOpenings(e, o);
    forall x | a <= x < |ms| && IsInputTurnBoundary(ms[x]) ensures ms[x].turnId == turn {
      if a < x {
        LaterWasLater(e, o, x);
      }
    }
    NoInputsFrom(ms, turn, a);
    if keep < |InputTurns(ms, turn, |ms|)| {
      HotWhenFewFollow(ms, turn, keep, a);
    }
  }

  lemma StoringKeepsWarm(e: seq<Message>, m: Message, running: Option<string>, w: Watermark, x: nat)
    requires CoolingOk(e, running, w) && !m.role.Summary? && x < |e| && Counts(e[x])
    ensures e[x].turnId in ColdTurns(InTurnOrder(e + [m]), w) <==> e[x].turnId in ColdTurns(InTurnOrder(e), w)
  {
    hide ColdTurns, InTurnOrder;
    if w.throughTurnId == "" {
      ColdByFirst(e, w, e[x].turnId);
      ColdByFirst(e + [m], w, e[x].turnId);
    } else {
      ColdTurnsStay(e, [m], w, x);
    }
  }

  lemma NoWatermarkCools(ms: seq<Message>)
    ensures ColdTurns(ms, NONE) == {}
  {
  }

  lemma StoringSpares(s: Session, m: Message, n: nat)
    requires Inv(s) && Cites(s, n) && Spared(s, n)
    requires m.id !in Ids(s.all) && !m.role.Summary?
    ensures Cites(Stored(s, m), n) && Spared(Stored(s, m), n)
  {
    var all, e := s.all, Shown(s);
    StoringShows(all, s.tails, m);
    IdsMore(e, m);
    OldOnes(all, m);
    ReachStays(all, [m], s.running.value);
    assert all[n].id in Ids(all);
    if all[n].id in Ids(e) {
      var x := ReceiptShown(s, n);
      hide ColdTurns, InTurnOrder, Shown, HistoryOk, ShownOk;
      StoringKeepsWarm(e, m, s.running, s.cooling, x);
    }
  }

  /** While the turn that answers a receipt runs, no step cools the receipt. */
  lemma StepSpares(s: Session, e: Event, n: nat)
    requires Inv(s) && Enabled(s, e) && Cites(s, n) && Spared(s, n) && !e.Finish?
    ensures Cites(Step(s, e), n) && Spared(Step(s, e), n)
  {
    hide ColdTurns, InTurnOrder, Shown, Inv, Candidate;
    match e
    case Steer(m) => StoringSpares(s, m, n);
    case Output(m) => StoringSpares(s, m, n);
    case Collect(m) => StoringSpares(s, m, n);
    case Notify(m) => ReceiptIsUser(m); StoringSpares(s, m, n);
    case Compact(m, keep) =>
      OldOnes(s.all, m);
      ReachStays(s.all, [m], s.running.value);
      NoWatermarkCools(InTurnOrder(Shown(Step(s, e))));
    case Cool(keep) =>
      if s.all[n].id in Ids(Shown(s)) {
        ChosenSparesCited(s, n, keep);
      }
      CoolShowsTheSame(s, keep);
    case _ =>
  }

  lemma CoolShowsTheSame(s: Session, keep: nat)
    ensures Shown(Step(s, Cool(keep))) == Shown(s)
  {
  }

  /** From the moment a turn begins that answers a receipt, over everything that happens while
      it runs: a receipt that is warm then is never cooled. */
  lemma {:induction false} AnsweredStaysWarm(s: Session, events: seq<Event>, n: nat)
    requires Inv(s) && CanRun(s, events) && Cites(s, n) && Spared(s, n)
    requires forall i :: 0 <= i < |events| ==> !events[i].Finish?
    ensures Cites(Run(s, events), n) && Spared(Run(s, events), n)
    decreases |events|
  {
    hide Inv, Enabled, Step, Cites, Spared;
    if events != [] {
      StepKeeps(s, events[0]);
      StepSpares(s, events[0], n);
      AnsweredStaysWarm(Step(s, events[0]), events[1..], n);
    }
  }

  /** A receipt that is spared is in the request as it was recorded, or not at all. */
  lemma SparedIsUnaltered(s: Session, n: nat, stubs: Stubs, rd: Reader, loaded: set<string>, i: nat)
    requires Inv(s) && Spared(s, n) && WidgetNotification(s.all[n]).Some? && s.all[n].id in Ids(Shown(s))
    requires i < |InTurnOrder(Request(rd, loaded, s))| && InTurnOrder(Request(rd, loaded, s))[i].turnId == s.all[n].turnId
    ensures Cooled(stubs, InTurnOrder(Request(rd, loaded, s)), s.cooling)[i] == InTurnOrder(Request(rd, loaded, s))[i]
  {
    SessionIsProjectable(rd, loaded, s);
    var x := ReceiptShown(s, n);
    hide ColdTurns, InTurnOrder, Shown, Inv, CarriedOn, Projected, Projectable, Cooled;
    NothingCarriedOfReceipt(rd, loaded, s.all, Shown(s), n);
    ProjectionKeepsWarm(stubs, rd, loaded, s.all, Shown(s), s.cooling, s.all[n].turnId, i);
  }

  /** A receipt that is shown is spared exactly when the committed watermark is through a turn
      that was shown before it. */
  lemma SparedExactly(s: Session, n: nat)
    requires Inv(s) && n < |s.all| && WidgetNotification(s.all[n]).Some? && s.all[n].id in Ids(Shown(s))
    ensures Spared(s, n) <==>
            s.cooling.throughTurnId == "" || Reach(Shown(s), s.cooling.throughTurnId, 0) < Reach(Shown(s), s.all[n].turnId, 0)
  {
    var x := ReceiptShown(s, n);
    hide ColdTurns, InTurnOrder, Shown, HistoryOk, ShownOk;
    ColdByFirst(Shown(s), s.cooling, s.all[n].turnId);
  }

  /** So over every run: a receipt that is warm when a turn answers it is in every request of
      that turn as it was recorded, until a compaction replaces it. */
  lemma AnsweredReceiptNeverCooled(before: seq<Event>, after: seq<Event>, n: nat, stubs: Stubs, rd: Reader, loaded: set<string>, i: nat)
    requires CanRun(START, before) && Cites(Run(START, before), n) && Spared(Run(START, before), n)
    requires CanRun(Run(START, before), after) && forall x :: 0 <= x < |after| ==> !after[x].Finish?
    requires var s := Run(Run(START, before), after);
             && n < |s.all| && s.all[n].id in Ids(Shown(s))
             && i < |InTurnOrder(Request(rd, loaded, s))| && InTurnOrder(Request(rd, loaded, s))[i].turnId == s.all[n].turnId
    ensures var s := Run(Run(START, before), after);
            Cooled(stubs, InTurnOrder(Request(rd, loaded, s)), s.cooling)[i] == InTurnOrder(Request(rd, loaded, s))[i]
  {
    StartsWell();
    RunKeeps(START, before);
    var s := Run(START, before);
    AnsweredStaysWarm(s, after, n);
    RunKeeps(s, after);
    hide Run, CanRun, Inv, Spared, InTurnOrder, Cooled, Request, Shown;
    SparedIsUnaltered(Run(s, after), n, stubs, rd, loaded, i);
  }

  // ----- a receipt that is answered too late

  function Receipt2(): Message {
    Message("2", "n", 0, User, [], Some("done"), "")
  }

  function Answer(): Message {
    Message("4", "d", 0, User, [], None, "2")
  }

  function First(): seq<Event> {
    [Begin(Input("1", "b"))] + ([Notify(Receipt2())] + ([Finish] + ([Begin(Input("3", "c"))] + [])))
  }

  function Second(): seq<Event> {
    [Cool(0)] + ([Finish] + ([Begin(Answer())] + []))
  }

  function Late(): seq<Event> {
    First() + Second()
  }

  lemma RunFirst(s: Session, e: Event, rest: seq<Event>)
    requires Enabled(s, e) && CanRun(Step(s, e), rest)
    ensures CanRun(s, [e] + rest) && Run(s, [e] + rest) == Run(Step(s, e), rest)
  {
    assert ([e] + rest)[1..] == rest;
  }

  lemma {:induction false} RunAppend(s: Session, a: seq<Event>, b: seq<Event>)
    requires CanRun(s, a) && CanRun(Run(s, a), b)
    ensures CanRun(s, a + b) && Run(s, a + b) == Run(Run(s, a), b)
    decreases |a|
  {
    hide Enabled, Step;
    if a == [] {
      assert a + b == b;
    } else {
      assert (a + b)[1..] == a[1..] + b;
      RunAppend(Step(s, a[0]), a[1..], b);
    }
  }

  lemma {:induction false} NoneListed(all: seq<Message>, n: nat)
    requires n <= |all|
    ensures LastCompaction(all, map[], n) == None
  {
    if n > 0 {
      NoneListed(all, n - 1);
    }
  }

  lemma AllShown(s: Session)
    requires s.tails == map[]
    ensures Shown(s) == s.all
  {
    NoneListed(s.all, |s.all|);
  }

  /** When no two messages are of one turn, they are in order as they are. */
  lemma {:induction false} AllTurnsDiffer(ms: seq<Message>)
    requires forall i, j :: 0 <= i < j < |ms| ==> ms[i].turnId != ms[j].turnId
    ensures InTurnOrder(ms) == ms
  {
    Regrouping.NothingToGather(TurnKeys(ms));
    PickIndices(ms);
  }

  /** The three messages that are there when the watermark is chosen. */
  function Three(): seq<Message> {
    [Input("1", "b"), Receipt2(), Input("3", "c")]
  }

  lemma ThreeFacts()
    ensures var ms := Three();
            && |ms| == 3
            && IsInputTurnBoundary(ms[0]) && !IsInputTurnBoundary(ms[1]) && IsInputTurnBoundary(ms[2])
            && ms[0].turnId == "b" && ms[1].turnId == "n" && ms[2].turnId == "c"
            && ms[0].id == "1" && ms[1].id == "2" && ms[2].id == "3" && WidgetNotification(ms[1]).Some?
            && forall i :: 0 <= i < 3 ==> Counts(ms[i]) && !ms[i].role.Summary? && WidgetActionSource(ms[i]) == ""
  {
  }

  lemma ThreeInOrder()
    ensures InTurnOrder(Three()) == Three()
  {
    ThreeFacts();
    hide Three, IsInputTurnBoundary, Counts, InTurnOrder;
    AllTurnsDiffer(Three());
  }

  /** The candidate where the message between two inputs is the only one cooled. */
  lemma MiddleCandidate(ms: seq<Message>, current: string)
    requires |ms| == 3 && IsInputTurnBoundary(ms[0]) && !IsInputTurnBoundary(ms[1]) && IsInputTurnBoundary(ms[2])
    requires ms[0].turnId != ms[1].turnId && ms[1].turnId != ms[2].turnId && ms[2].turnId == current != ms[0].turnId
    requires forall i :: 0 <= i < 3 ==> Counts(ms[i]) && !ms[i].role.Summary? && WidgetActionSource(ms[i]) == ""
    ensures Candidate(ms, current, 0) == Watermark(ms[1].turnId, "")
  {
    hide IsInputTurnBoundary, WidgetActionSource, Counts;
    MiddleInputs(ms, current);
    MiddleSources(ms);
    hide InputTurns, Sources, FirstHot, NextInput;
  }

  lemma MiddleInputs(ms: seq<Message>, current: string)
    requires |ms| == 3 && IsInputTurnBoundary(ms[0]) && !IsInputTurnBoundary(ms[1]) && IsInputTurnBoundary(ms[2])
    requires ms[2].turnId == current != ms[0].turnId
    ensures InputTurns(ms, current, 3) == [0] && FirstHot(ms, current, 0) == 2
  {
    hide IsInputTurnBoundary;
    assert InputTurns(ms, current, 1) == [0];
    assert InputTurns(ms, current, 2) == [0];
    assert InputTurns(ms, current, 3) == [0];
    assert NextInput(ms, 1) == 2;
  }

  lemma MiddleSources(ms: seq<Message>)
    requires |ms| == 3 && forall i :: 0 <= i < 3 ==> Counts(ms[i]) && !ms[i].role.Summary? && WidgetActionSource(ms[i]) == ""
    ensures Sources(ms, 2, 2) == Sources(ms, 2, 3) == {} && FirstAmong(ms, {}, 0, 2) == 2
    ensures LastSummary(ms, 1) == LastSummary(ms, 2) == LastSummary(ms, 3) == ""
  {
    hide WidgetActionSource, Counts;
  }

  lemma ThreeCandidate()
    ensures Candidate(Three(), "c", 0) == Watermark("n", "")
  {
    ThreeFacts();
    hide Three, Candidate, IsInputTurnBoundary, WidgetActionSource, Counts;
    MiddleCandidate(Three(), "c");
  }

  lemma FirstRuns()
    ensures CanRun(START, First()) && Run(START, First()) == Session(Three(), map[], Some("c"), NONE)
  {
    var b, c := Input("1", "b"), Input("3", "c");
    var s1 := Step(START, Begin(b));
    assert s1 == Session([b], map[], Some("b"), NONE);
    var s2 := Step(s1, Notify(Receipt2()));
    assert s2 == Session([b, Receipt2()], map[], Some("b"), NONE);
    var s3 := Step(s2, Finish);
    var s4 := Step(s3, Begin(c));
    assert s4 == Session(Three(), map[], Some("c"), NONE);
    hide Step;
    RunFirst(s3, Begin(c), []);
    RunFirst(s2, Finish, [Begin(c)] + []);
    RunFirst(s1, Notify(Receipt2()), [Finish] + ([Begin(c)] + []));
    RunFirst(START, Begin(b), [Notify(Receipt2())] + ([Finish] + ([Begin(c)] + [])));
  }

  lemma AnswerIsFine(s: Session)
    requires s == Session(Three(), map[], None, Watermark("n", ""))
    ensures Enabled(s, Begin(Answer()))
    ensures Step(s, Begin(Answer())) == Session(Three() + [Answer()], map[], Some("d"), Watermark("n", ""))
  {
    ThreeFacts();
    assert s.all[1].id == "2";
  }

  lemma {:induction false} WatermarkIsChosen(s: Session, w: Watermark)
    requires s.running.Some? && s.tails == map[] && InTurnOrder(s.all) == s.all
    requires Candidate(s.all, s.running.value, 0) == w && w.throughTurnId != ""
    ensures Enabled(s, Cool(0)) && Step(s, Cool(0)) == s.(cooling := w)
  {
    hide Candidate, InTurnOrder, Shown;
    AllShown(s);
  }

  lemma {:induction false} RunThree(s: Session, x: Event, y: Event, z: Event)
    requires Enabled(s, x) && Enabled(Step(s, x), y) && Enabled(Step(Step(s, x), y), z)
    ensures CanRun(s, [x] + ([y] + ([z] + []))) && Run(s, [x] + ([y] + ([z] + []))) == Step(Step(Step(s, x), y), z)
  {
    hide Enabled, Step;
    RunFirst(Step(Step(s, x), y), z, []);
    RunFirst(Step(s, x), y, [z] + []);
    RunFirst(s, x, [y] + ([z] + []));
  }

  /** A watermark is chosen, the turn ends, and another one begins. */
  lemma {:induction false} ChosenThenBegun(s: Session, w: Watermark, m: Message, after: Session)
    requires s.running.Some? && s.tails == map[] && InTurnOrder(s.all) == s.all
    requires Candidate(s.all, s.running.value, 0) == w && w.throughTurnId != ""
    requires var t := s.(running := None, cooling := w); Enabled(t, Begin(m)) && Step(t, Begin(m)) == after
    ensures CanRun(s, [Cool(0)] + ([Finish] + ([Begin(m)] + [])))
    ensures Run(s, [Cool(0)] + ([Finish] + ([Begin(m)] + []))) == after
  {
    hide Candidate, InTurnOrder, Run, CanRun, IsInputTurnBoundary;
    WatermarkIsChosen(s, w);
    RunThree(s, Cool(0), Finish, Begin(m));
  }

  lemma SecondRuns()
    ensures var s, after := Session(Three(), map[], Some("c"), NONE), Session(Three() + [Answer()], map[], Some("d"), Watermark("n", ""));
            CanRun(s, Second()) && Run(s, Second()) == after
  {
    ThreeInOrder();
    ThreeCandidate();
    AnswerIsFine(Session(Three(), map[], None, Watermark("n", "")));
    hide Three, Run, CanRun, Answer, Enabled, Step, Candidate, InTurnOrder;
    ChosenThenBegun(Session(Three(), map[], Some("c"), NONE), Watermark("n", ""), Answer(),
                    Session(Three() + [Answer()], map[], Some("d"), Watermark("n", "")));
  }

  /** A receipt that comes while one turn runs, and is answered only after another one: the
      watermark that was committed in between has passed it. */
  lemma AnsweredTooLate()
    ensures CanRun(START, Late())
    ensures var s := Run(START, Late()); Cites(s, 1) && s.all[1].id in Ids(Shown(s)) && !Spared(s, 1)
  {
    FirstRuns();
    SecondRuns();
    RunAppend(START, First(), Second());
    StartsWell();
    RunKeeps(START, Late());
    var s := Run(START, Late());
    AllShown(s);
    ThreeFacts();
    assert s.all[0] == Three()[0] && s.all[1] == Three()[1] && s.all[2] == Three()[2];
    assert s.all[3].turnId == "d" && Counts(s.all[3]);
    assert s.all[1].id in Ids(s.all);
    hide Run, CanRun, Late, Inv, Shown, Three;
    SparedExactly(s, 1);
    assert Reach(s.all, "d", 0) == 3;
  }
}
