/** Cooling over the whole path a request takes: the stored history is brought into turn
    order, a watermark is chosen on what is effective of it, and applied to that with the
    skill references that are carried past a compaction. */
module CoolingPipeline {
  import opened Results
  import opened Messages
  import opened Regrouping
  import opened HistoryOrder
  import opened Cooling
  import opened CoolingProofs
  import Skills = SkillReferences
  import SkillsProofs = SkillReferencesProofs

  // ----- from the stored history to the ordered one

  /** Where a message of the stored history stands in the ordered one. */
  ghost function Place(history: seq<Message>, b: nat): (a: nat)
    requires b < |history|
    ensures a < |history| && Regroup(TurnKeys(history), |history|)[a] == b
  {
    RegroupIs(TurnKeys(history), |history|);
    var p := Regroup(TurnKeys(history), |history|);
    assert b in p;
    var a :| 0 <= a < |p| && p[a] == b;
    a
  }

  /** Where a message stands, the ordered history has it. */
  lemma PlacedThere(history: seq<Message>, b: nat)
    requires b < |history|
    ensures InTurnOrder(history)[Place(history, b)] == history[b]
  {
  }

  /** A message that counts is grouped behind one of its own turn. */
  lemma FirstOfTurn(history: seq<Message>, i: nat)
    requires i < |history| && Counts(history[i])
    ensures var f := First(TurnKeys(history), i); f <= i && Counts(history[f]) && history[f].turnId == history[i].turnId
  {
    var keys := TurnKeys(history);
    FirstJoins(keys, i);
    assert keys[First(keys, i)] == keys[i];
  }

  lemma OpensFirst(history: seq<Message>, b: nat)
    requires Opens(history, b)
    ensures First(TurnKeys(history), b) == b
  {
    FirstOfTurn(history, b);
  }

  /** What comes after an opening in the ordered history came after it in the stored one. */
  lemma {:induction false} LaterWasLater(history: seq<Message>, c: nat, x: nat)
    requires Opens(history, c) && Place(history, c) < x < |history|
    ensures Regroup(TurnKeys(history), |history|)[x] > c
  {
    hide Regroup, First;
    var keys, n := TurnKeys(history), |history|;
    var p := Regroup(keys, n);
    RegroupIs(keys, n);
    assert Before(keys, p[Place(history, c)], p[x]);
    OpensFirst(history, c);
  }

  /** Ordering keeps the openings: a message that opens its turn in the stored history
      opens it in the ordered one too. */
  lemma {:induction false} OrderingKeepsOpenings(history: seq<Message>, b: nat)
    requires Opens(history, b)
    ensures Opens(InTurnOrder(history), Place(history, b)) && InTurnOrder(history)[Place(history, b)] == history[b]
  {
    var keys := TurnKeys(history);
    var p := Regroup(keys, |history|);
    var ms := InTurnOrder(history);
    RegroupIs(keys, |history|);
    var a := Place(history, b);
    OpensFirst(history, b);
    forall x | 0 <= x < a && Counts(ms[x]) ensures ms[x].turnId != ms[a].turnId {
      assert Before(keys, p[x], p[a]);
      FirstOfTurn(history, p[x]);
    }
  }

  lemma SomeInputFrom(ms: seq<Message>, current: string, a: nat) returns (x: nat)
    requires a <= |ms| && InputsFrom(ms, current, a) != 0
    ensures a <= x < |ms| && IsInputTurnBoundary(ms[x]) && ms[x].turnId != current
  {
    InputTurnsPrefix(ms, current, a, |ms|);
    x := InputTurns(ms, current, |ms|)[|InputTurns(ms, current, a)|];
  }

  lemma NoInputsFrom(ms: seq<Message>, current: string, a: nat)
    requires a <= |ms| && forall x :: a <= x < |ms| && IsInputTurnBoundary(ms[x]) ==> ms[x].turnId == current
    ensures InputsFrom(ms, current, a) == 0
  {
    if InputsFrom(ms, current, a) != 0 {
      var x := SomeInputFrom(ms, current, a);
    }
  }

  /** The opening of the current turn, with no later input of another turn, has none after
      it in the ordered history either: the current turn is warm. */
  lemma CurrentTurnIsWarm(history: seq<Message>, current: string, keep: nat, c: nat)
    requires Opens(history, c) && IsInputTurnBoundary(history[c]) && history[c].turnId == current
    requires forall x :: c < x < |history| && IsInputTurnBoundary(history[x]) ==> history[x].turnId == current
    ensures var ms := InTurnOrder(history); current !in ColdTurns(ms, Candidate(ms, current, keep))
  {
    hide Candidate, ColdTurns, Regroup;
    var ms := InTurnOrder(history);
    OrderingKeepsOpenings(history, c);
    var a := Place(history, c);
    forall x | a <= x < |ms| && IsInputTurnBoundary(ms[x]) ensures ms[x].turnId == current {
      if a < x {
        LaterWasLater(history, c, x);
      }
    }
    NoInputsFrom(ms, current, a);
    RecentInputIsWarm(ms, current, keep, a);
  }

  // ----- which turns a watermark cools, in the order they were stored

  /** Summaries stay where they are, and nothing else takes their place. */
  lemma SummaryStays(history: seq<Message>, i: nat)
    requires i < |history|
    ensures InTurnOrder(history)[i].role.Summary? || history[i].role.Summary? ==> InTurnOrder(history)[i] == history[i]
  {
    var keys := TurnKeys(history);
    var p := Regroup(keys, |history|);
    if history[i].role.Summary? {
      BarriersKeepPlace(history, i);
    } else if InTurnOrder(history)[i].role.Summary? {
      BarrierDivides(keys, p[i], i);
    }
  }

  lemma {:induction false} SameSummaries(a: seq<Message>, b: seq<Message>, n: nat)
    requires n <= |a| && n <= |b|
    requires forall i :: 0 <= i < n && (a[i].role.Summary? || b[i].role.Summary?) ==> a[i] == b[i]
    ensures LastSummary(a, n) == LastSummary(b, n)
  {
    if n > 0 {
      SameSummaries(a, b, n - 1);
    }
  }

  lemma SameSummary(history: seq<Message>)
    ensures LastSummary(InTurnOrder(history), |history|) == LastSummary(history, |history|)
  {
    hide InTurnOrder;
    forall i | 0 <= i < |history| && (InTurnOrder(history)[i].role.Summary? || history[i].role.Summary?)
      ensures InTurnOrder(history)[i] == history[i]
    {
      SummaryStays(history, i);
    }
    SameSummaries(InTurnOrder(history), history, |history|);
  }

  /** A turn that opens earlier in the stored history opens earlier in the ordered one. */
  lemma {:induction false} OpeningsKeepOrder(history: seq<Message>, b: nat, d: nat)
    requires Opens(history, b) && Opens(history, d)
    ensures b < d <==> Place(history, b) < Place(history, d)
  {
    hide Regroup;
    var keys, n := TurnKeys(history), |history|;
    RegroupIs(keys, n);
    var p := Regroup(keys, n);
    var x, y := Place(history, b), Place(history, d);
    OpensFirst(history, b);
    OpensFirst(history, d);
    assert x < y ==> Before(keys, p[x], p[y]);
    assert y < x ==> Before(keys, p[y], p[x]);
  }

  lemma ReachOpens(ms: seq<Message>, turn: string)
    ensures var b := Reach(ms, turn, 0); b < |ms| ==> Opens(ms, b) && ms[b].turnId == turn
  {
  }

  lemma OpeningIsReach(ms: seq<Message>, b: nat)
    requires Opens(ms, b)
    ensures Reach(ms, ms[b].turnId, 0) == b
  {
  }

  /** The first message of a turn in the ordered history is its first in the stored one. */
  lemma ReachMoves(history: seq<Message>, turn: string)
    ensures var b := Reach(history, turn, 0);
            Reach(InTurnOrder(history), turn, 0) == if b < |history| then Place(history, b) else |history|
  {
    hide Regroup;
    var b := Reach(history, turn, 0);
    var ms := InTurnOrder(history);
    if b < |history| {
      ReachOpens(history, turn);
      OrderingKeepsOpenings(history, b);
      OpeningIsReach(ms, Place(history, b));
    } else {
      RegroupIs(TurnKeys(history), |history|);
      forall r | 0 <= r < |ms| ensures !(Counts(ms[r]) && ms[r].turnId == turn) {
        assert ms[r] == history[Regroup(TurnKeys(history), |history|)[r]];
      }
    }
  }

  /** A watermark cools the turns that begin no later than its own. */
  lemma ColdByReach(ms: seq<Message>, state: Watermark, turn: string)
    ensures turn in ColdTurns(ms, state) <==>
            && state.throughTurnId != "" && LastSummary(ms, |ms|) == state.summaryId
            && Reach(ms, turn, 0) <= Reach(ms, state.throughTurnId, 0) < |ms|
  {
    hide LastSummary;
    var reach := Reach(ms, state.throughTurnId, 0);
    if reach < |ms| {
      TurnsOfHas(ms, reach + 1, turn);
      var r := Reach(ms, turn, 0);
      assert r <= reach ==> Counts(ms[r]) && ms[r].turnId == turn;
    }
  }

  /** In the ordered history a watermark cools exactly the turns whose first message was
      stored no later than the first of its own turn. */
  lemma ColdByFirst(history: seq<Message>, state: Watermark, turn: string)
    ensures turn in ColdTurns(InTurnOrder(history), state) <==>
            && state.throughTurnId != "" && LastSummary(history, |history|) == state.summaryId
            && Reach(history, turn, 0) <= Reach(history, state.throughTurnId, 0) < |history|
  {
    hide ColdTurns, LastSummary, InTurnOrder, Opens;
    var ms := InTurnOrder(history);
    SameSummary(history);
    ReachMoves(history, turn);
    ReachMoves(history, state.throughTurnId);
    ColdByReach(ms, state, turn);
    var b, d := Reach(history, turn, 0), Reach(history, state.throughTurnId, 0);
    if b < |history| && d < |history| {
      ReachOpens(history, turn);
      ReachOpens(history, state.throughTurnId);
      OpeningsKeepOrder(history, d, b);
    }
  }

  // ----- later messages

  lemma ReachStays(ms: seq<Message>, later: seq<Message>, turn: string)
    ensures var r, s := Reach(ms, turn, 0), Reach(ms + later, turn, 0);
            if r < |ms| then s == r else s >= |ms|
  {
    assert forall j :: 0 <= j < |ms| ==> (ms + later)[j] == ms[j];
  }

  lemma {:induction false} SummaryUnlessLater(ms: seq<Message>, later: seq<Message>, n: nat)
    requires n <= |later| && forall i :: 0 <= i < |later| ==> !later[i].role.Summary?
    ensures LastSummary(ms + later, |ms| + n) == LastSummary(ms, |ms|)
  {
    if n > 0 {
      SummaryUnlessLater(ms, later, n - 1);
    } else {
      SameSummaries(ms + later, ms, |ms|);
    }
  }

  /** A watermark whose turn is there cools the same of the older turns when more is stored. */
  lemma ColdTurnsStay(history: seq<Message>, later: seq<Message>, state: Watermark, b: nat)
    requires forall i :: 0 <= i < |later| ==> !later[i].role.Summary?
    requires b < |history| && Counts(history[b]) && Reach(history, state.throughTurnId, 0) < |history|
    ensures history[b].turnId in ColdTurns(InTurnOrder(history + later), state) <==>
            history[b].turnId in ColdTurns(InTurnOrder(history), state)
  {
    hide ColdTurns, InTurnOrder, LastSummary;
    var all, turn := history + later, history[b].turnId;
    ColdByFirst(all, state, turn);
    ColdByFirst(history, state, turn);
    ReachStays(history, later, turn);
    ReachStays(history, later, state.throughTurnId);
    SummaryUnlessLater(history, later, |later|);
  }

  lemma CooledAt(stubs: Stubs, ms: seq<Message>, state: Watermark, i: nat)
    requires i < |ms|
    ensures Cooled(stubs, ms, state)[i] == CooledOne(stubs, ColdTurns(ms, state), ms[i])
  {
  }

  lemma NothingWithoutTurn(ms: seq<Message>, state: Watermark)
    ensures "" !in ColdTurns(ms, state)
  {
  }

  lemma CooledInPlace(stubs: Stubs, history: seq<Message>, state: Watermark, b: nat)
    requires b < |history|
    ensures var ms := InTurnOrder(history); Cooled(stubs, ms, state)[Place(history, b)] == CooledOne(stubs, ColdTurns(ms, state), history[b])
  {
    PlacedThere(history, b);
    hide InTurnOrder, ColdTurns, Place, CooledOne;
    CooledAt(stubs, InTurnOrder(history), state, Place(history, b));
  }

  lemma SummariesAreNoResults(stubs: Stubs, cold: set<string>, m: Message)
    requires m.role.Summary?
    ensures CooledOne(stubs, cold, m) == m
  {
  }

  /** A committed watermark never slides: wherever later messages are sorted in, between
      old ones too, every older message is projected as it was. */
  lemma WatermarkStays(stubs: Stubs, history: seq<Message>, later: seq<Message>, state: Watermark, b: nat)
    requires forall i :: 0 <= i < |later| ==> !later[i].role.Summary?
    requires b < |history| && Reach(history, state.throughTurnId, 0) < |history|
    ensures Cooled(stubs, InTurnOrder(history + later), state)[Place(history + later, b)] ==
            Cooled(stubs, InTurnOrder(history), state)[Place(history, b)]
  {
    hide InTurnOrder, Cooled, ColdTurns, Place, Reach, ColdMessage;
    var all, m := history + later, history[b];
    assert all[b] == m;
    CooledInPlace(stubs, all, state, b);
    CooledInPlace(stubs, history, state, b);
    if Counts(m) {
      ColdTurnsStay(history, later, state, b);
    } else if m.role.Summary? {
      SummariesAreNoResults(stubs, ColdTurns(InTurnOrder(all), state), m);
      SummariesAreNoResults(stubs, ColdTurns(InTurnOrder(history), state), m);
    } else {
      NothingWithoutTurn(InTurnOrder(all), state);
      NothingWithoutTurn(InTurnOrder(history), state);
    }
  }

  // ----- with what is carried past a compaction

  /** What the projection carries from the hidden part of a history. */
  function CarriedOn(rd: Skills.Reader, loaded: set<string>, all: seq<Message>, effective: seq<Message>): seq<Message> {
    Skills.CarriedMessages(rd, Skills.ScanMessages(rd, loaded, all).latest, Ids(effective), all)
  }

  /** A history and what is effective of it: what speaks belongs to a turn, and anything is
      carried only behind a summary. */
  predicate Projectable(rd: Skills.Reader, loaded: set<string>, all: seq<Message>, effective: seq<Message>) {
    && SkillsProofs.Tidy(all)
    && (forall i :: 0 <= i < |all| && Skills.Speaks(all[i]) ==> all[i].turnId != "")
    && (CarriedOn(rd, loaded, all, effective) != [] ==> effective != [] && effective[0].role.Summary?)
  }

  predicate Occurs(ms: seq<Message>, turn: string) {
    Reach(ms, turn, 0) < |ms|
  }

  lemma OccursSomewhere(ms: seq<Message>, i: nat)
    requires i < |ms| && Counts(ms[i])
    ensures Occurs(ms, ms[i].turnId) && Reach(ms, ms[i].turnId, 0) <= i
  {
  }

  /** What is carried belongs to a turn of the history that speaks in it. */
  ghost predicate ComesFrom(c: Message, ms: seq<Message>) {
    Counts(c) && exists i :: 0 <= i < |ms| && Skills.Speaks(ms[i]) && ms[i].turnId == c.turnId
  }

  lemma {:induction false} CarriedPartsCome(rd: Skills.Reader, latest: map<Skills.Key, Skills.Item>, m: Message, n: nat)
    requires n <= |m.parts| && (Skills.Speaks(m) ==> m.turnId != "")
    requires forall j :: 0 <= j < |m.parts| && m.parts[j].kind.ToolResult? ==> Skills.Speaks(m)
    ensures forall c :: c in Skills.CarriedParts(rd, latest, m, n) ==> Counts(c) && c.turnId == m.turnId && Skills.Speaks(m)
  {
    if n > 0 {
      CarriedPartsCome(rd, latest, m, n - 1);
    }
  }

  lemma {:induction false} CarriedCome(rd: Skills.Reader, latest: map<Skills.Key, Skills.Item>, visible: set<string>, ms: seq<Message>)
    requires SkillsProofs.Tidy(ms) && forall i :: 0 <= i < |ms| && Skills.Speaks(ms[i]) ==> ms[i].turnId != ""
    ensures forall c :: c in Skills.CarriedMessages(rd, latest, visible, ms) ==> ComesFrom(c, ms)
  {
    if ms != [] {
      var n := |ms| - 1;
      assert forall i :: 0 <= i < n ==> ms[..n][i] == ms[i];
      CarriedCome(rd, latest, visible, ms[..n]);
      CarriedPartsCome(rd, latest, ms[n], |ms[n].parts|);
      forall c | c in Skills.CarriedMessages(rd, latest, visible, ms) ensures ComesFrom(c, ms) {
        if c in Skills.CarriedMessages(rd, latest, visible, ms[..n]) {
          var i :| 0 <= i < n && Skills.Speaks(ms[..n][i]) && ms[..n][i].turnId == c.turnId;
          assert Skills.Speaks(ms[i]) && ms[i].turnId == c.turnId;
        } else {
          assert Skills.Speaks(ms[n]) && ms[n].turnId == c.turnId;
        }
      }
    }
  }

  /** Where a turn begins once messages are put behind the head. */
  lemma ReachBehindHead(effective: seq<Message>, carried: seq<Message>, turn: string)
    requires effective != [] && effective[0].role.Summary?
    requires forall c :: c in carried ==> Counts(c)
    ensures var all := effective[..1] + carried + effective[1..];
            && |all| == |effective| + |carried|
            && Reach(all, turn, 0) ==
               if Occurs(carried, turn) then 1 + Reach(carried, turn, 0) else |carried| + Reach(effective, turn, 0)
  {
    var all := effective[..1] + carried + effective[1..];
    assert forall i :: 0 <= i < |carried| ==> all[1 + i] == carried[i];
    assert forall i :: 1 <= i < |effective| ==> all[|carried| + i] == effective[i];
    var r := Reach(all, turn, 0);
    if Occurs(carried, turn) {
      assert all[1 + Reach(carried, turn, 0)] == carried[Reach(carried, turn, 0)];
      assert r > 0 && all[r] == carried[r - 1];
    } else if Occurs(effective, turn) {
      assert all[|carried| + Reach(effective, turn, 0)] == effective[Reach(effective, turn, 0)];
      assert all[r] == effective[r - |carried|];
    } else {
      forall i | 0 <= i < |all| ensures !(Counts(all[i]) && all[i].turnId == turn) {
        if 1 <= i <= |carried| {
          assert all[i] == carried[i - 1];
        } else if i > |carried| {
          assert all[i] == effective[i - |carried|];
        }
      }
    }
  }

  lemma {:induction false} SummaryBehindHead(effective: seq<Message>, carried: seq<Message>, n: nat)
    requires effective != [] && forall c :: c in carried ==> Counts(c)
    requires 1 <= n <= |effective|
    ensures LastSummary(effective[..1] + carried + effective[1..], |carried| + n) == LastSummary(effective, n)
  {
    var all := effective[..1] + carried + effective[1..];
    if n > 1 {
      SummaryBehindHead(effective, carried, n - 1);
      assert all[|carried| + n - 1] == effective[n - 1];
    } else {
      assert forall i :: 1 <= i <= |carried| ==> all[i] == carried[i - 1] && all[i] in carried;
      NoSummaryIn(all, effective, |carried|);
    }
  }

  lemma {:induction false} NoSummaryIn(all: seq<Message>, effective: seq<Message>, n: nat)
    requires effective != [] && n < |all| && all[0] == effective[0]
    requires forall i :: 1 <= i <= n ==> !all[i].role.Summary?
    ensures LastSummary(all, n + 1) == LastSummary(effective, 1)
  {
    if n > 0 {
      NoSummaryIn(all, effective, n - 1);
    } else {
      assert LastSummary(all, 0) == LastSummary(effective, 0);
    }
  }

  /** Over any compaction, a watermark cools exactly this of the projected history: when its
      own turn has a carried message, the carried turns up to that one; otherwise every
      carried turn, and what it cools of the effective history. */
  lemma ProjectedColdExactly(rd: Skills.Reader, loaded: set<string>, all: seq<Message>, effective: seq<Message>,
                             state: Watermark, turn: string)
    requires Projectable(rd, loaded, all, effective)
    ensures var carried := CarriedOn(rd, loaded, all, effective);
            turn in ColdTurns(InTurnOrder(Skills.Projected(rd, loaded, all, effective)), state) <==>
            && state.throughTurnId != "" && LastSummary(effective, |effective|) == state.summaryId
            && if Occurs(carried, state.throughTurnId)
               then Reach(carried, turn, 0) <= Reach(carried, state.throughTurnId, 0)
               else Occurs(effective, state.throughTurnId) &&
                    (Occurs(carried, turn) || Reach(effective, turn, 0) <= Reach(effective, state.throughTurnId, 0))
  {
    hide ColdTurns, InTurnOrder, LastSummary, Reach, Skills.CarriedMessages, Skills.ScanMessages, SkillsProofs.Tidy;
    var carried := CarriedOn(rd, loaded, all, effective);
    CarriedCome(rd, Skills.ScanMessages(rd, loaded, all).latest, Ids(effective), all);
    if carried == [] {
      ColdByFirst(effective, state, turn);
    } else {
      ReachBehindHead(effective, carried, turn);
      ReachBehindHead(effective, carried, state.throughTurnId);
      ColdByFirst(Skills.Projected(rd, loaded, all, effective), state, turn);
      SummaryBehindHead(effective, carried, |effective|);
    }
  }

  /** A turn that is both carried and still there has nothing of another turn before it: only
      a compaction inside a running turn cuts a turn, and it keeps nothing else. */
  ghost predicate StraddlersFirst(effective: seq<Message>, carried: seq<Message>) {
    forall i :: 0 <= i < |carried| && Occurs(effective, carried[i].turnId) ==> IsFirst(effective, carried[i].turnId)
  }

  predicate IsFirst(ms: seq<Message>, turn: string) {
    forall j :: 0 <= j < Reach(ms, turn, 0) ==> !Counts(ms[j])
  }

  /** Then what is carried makes no difference to what a watermark cools of the effective
      history. */
  lemma ProjectionCoolsTheSame(rd: Skills.Reader, loaded: set<string>, all: seq<Message>, effective: seq<Message>,
                               state: Watermark, turn: string)
    requires Projectable(rd, loaded, all, effective) && StraddlersFirst(effective, CarriedOn(rd, loaded, all, effective))
    requires Occurs(effective, turn) && (state.throughTurnId == "" || Occurs(effective, state.throughTurnId))
    ensures turn in ColdTurns(InTurnOrder(Skills.Projected(rd, loaded, all, effective)), state) <==>
            turn in ColdTurns(InTurnOrder(effective), state)
  {
    hide ColdTurns, InTurnOrder, LastSummary, Skills.Projected, CarriedOn;
    var carried := CarriedOn(rd, loaded, all, effective);
    ProjectedColdExactly(rd, loaded, all, effective, state, turn);
    hide Projectable;
    ColdByFirst(effective, state, turn);
    StraddlerIsFirst(effective, carried, turn);
    if state.throughTurnId != "" {
      StraddlerIsFirst(effective, carried, state.throughTurnId);
      OneIsFirst(effective, turn, state.throughTurnId);
    }
  }

  lemma StraddlerIsFirst(effective: seq<Message>, carried: seq<Message>, turn: string)
    requires StraddlersFirst(effective, carried) && Occurs(effective, turn)
    ensures Occurs(carried, turn) ==> IsFirst(effective, turn)
  {
    if Occurs(carried, turn) {
      assert carried[Reach(carried, turn, 0)].turnId == turn;
    }
  }

  /** Nothing begins before a turn that is first, and no other turn is first too. */
  lemma OneIsFirst(ms: seq<Message>, a: string, b: string)
    requires Occurs(ms, a) && Occurs(ms, b)
    ensures IsFirst(ms, a) ==> Reach(ms, a, 0) <= Reach(ms, b, 0)
    ensures IsFirst(ms, b) ==> Reach(ms, b, 0) <= Reach(ms, a, 0)
    ensures Reach(ms, a, 0) == Reach(ms, b, 0) ==> a == b
  {
    var x, y := Reach(ms, a, 0), Reach(ms, b, 0);
    assert Counts(ms[x]) && Counts(ms[y]) && ms[x].turnId == a && ms[y].turnId == b;
  }

  /** The turn a watermark is chosen through is in the effective history. */
  lemma CandidateOccurs(history: seq<Message>, current: string, keep: nat)
    ensures var through := Candidate(InTurnOrder(history), current, keep).throughTurnId;
            through == "" || Occurs(history, through)
  {
    hide InTurnOrder;
    var ms := InTurnOrder(history);
    var state := Candidate(ms, current, keep);
    if state.throughTurnId != "" {
      OccursSomewhere(ms, Split(ms, current, keep) - 1);
      ReachMoves(history, state.throughTurnId);
    }
  }

  /** Whatever the watermark: a turn that is warm in the effective history, and of which
      nothing is carried, is left as it is in the request. */
  lemma ProjectionKeepsWarm(stubs: Stubs, rd: Skills.Reader, loaded: set<string>, all: seq<Message>,
                            effective: seq<Message>, state: Watermark, turn: string, i: nat)
    requires Projectable(rd, loaded, all, effective)
    requires turn !in ColdTurns(InTurnOrder(effective), state) && !Occurs(CarriedOn(rd, loaded, all, effective), turn)
    requires var ms := InTurnOrder(Skills.Projected(rd, loaded, all, effective)); i < |ms| && ms[i].turnId == turn
    ensures var ms := InTurnOrder(Skills.Projected(rd, loaded, all, effective)); Cooled(stubs, ms, state)[i] == ms[i]
  {
    hide ColdTurns, InTurnOrder, LastSummary, Skills.Projected;
    ProjectedColdExactly(rd, loaded, all, effective, state, turn);
    ColdByFirst(effective, state, turn);
    CooledAt(stubs, InTurnOrder(Skills.Projected(rd, loaded, all, effective)), state, i);
  }

  /** A turn that a watermark just chosen leaves warm in the effective history is left as it
      is in the request, carried or not. */
  lemma WarmStaysWarm(stubs: Stubs, rd: Skills.Reader, loaded: set<string>, all: seq<Message>,
                      effective: seq<Message>, current: string, keep: nat, turn: string, i: nat)
    requires Projectable(rd, loaded, all, effective) && StraddlersFirst(effective, CarriedOn(rd, loaded, all, effective))
    requires Occurs(effective, turn) && turn !in ColdTurns(InTurnOrder(effective), Candidate(InTurnOrder(effective), current, keep))
    requires var ms := InTurnOrder(Skills.Projected(rd, loaded, all, effective)); i < |ms| && ms[i].turnId == turn
    ensures var ms := InTurnOrder(Skills.Projected(rd, loaded, all, effective));
            Cooled(stubs, ms, Candidate(InTurnOrder(effective), current, keep))[i] == ms[i]
  {
    hide ColdTurns, InTurnOrder, Skills.Projected, CarriedOn, Candidate, Cooled, StraddlersFirst;
    var state := Candidate(InTurnOrder(effective), current, keep);
    CandidateOccurs(effective, current, keep);
    ProjectionCoolsTheSame(rd, loaded, all, effective, state, turn);
    CooledAt(stubs, InTurnOrder(Skills.Projected(rd, loaded, all, effective)), state, i);
  }

  /** The whole path, for the current turn: while no other turn has a later input, no message
      of it is altered, not even after a compaction inside it. */
  lemma CurrentTurnNeverCooled(stubs: Stubs, rd: Skills.Reader, loaded: set<string>, all: seq<Message>,
                               effective: seq<Message>, current: string, keep: nat, c: nat, i: nat)
    requires Projectable(rd, loaded, all, effective) && StraddlersFirst(effective, CarriedOn(rd, loaded, all, effective))
    requires Opens(effective, c) && IsInputTurnBoundary(effective[c]) && effective[c].turnId == current
    requires forall x :: c < x < |effective| && IsInputTurnBoundary(effective[x]) ==> effective[x].turnId == current
    requires var ms := InTurnOrder(Skills.Projected(rd, loaded, all, effective)); i < |ms| && ms[i].turnId == current
    ensures var ms := InTurnOrder(Skills.Projected(rd, loaded, all, effective));
            Cooled(stubs, ms, Candidate(InTurnOrder(effective), current, keep))[i] == ms[i]
  {
    hide ColdTurns, InTurnOrder, Skills.Projected, CarriedOn, Candidate, Cooled, StraddlersFirst;
    CurrentTurnIsWarm(effective, current, keep, c);
    OccursSomewhere(effective, c);
    WarmStaysWarm(stubs, rd, loaded, all, effective, current, keep, current, i);
  }

  /** The whole path, for the input turns that are kept, counted in turn order. */
  lemma RecentTurnNeverCooled(stubs: Stubs, rd: Skills.Reader, loaded: set<string>, all: seq<Message>,
                              effective: seq<Message>, current: string, keep: nat, b: nat, i: nat)
    requires Projectable(rd, loaded, all, effective) && StraddlersFirst(effective, CarriedOn(rd, loaded, all, effective))
    requires Opens(effective, b) && IsInputTurnBoundary(effective[b])
    requires InputsFrom(InTurnOrder(effective), current, Place(effective, b)) <= keep
    requires var ms := InTurnOrder(Skills.Projected(rd, loaded, all, effective)); i < |ms| && ms[i].turnId == effective[b].turnId
    ensures var ms := InTurnOrder(Skills.Projected(rd, loaded, all, effective));
            Cooled(stubs, ms, Candidate(InTurnOrder(effective), current, keep))[i] == ms[i]
  {
    hide ColdTurns, InTurnOrder, Skills.Projected, CarriedOn, Candidate, Cooled, StraddlersFirst;
    var ms := InTurnOrder(effective);
    OrderingKeepsOpenings(effective, b);
    RecentInputIsWarm(ms, current, keep, Place(effective, b));
    OccursSomewhere(effective, b);
    WarmStaysWarm(stubs, rd, loaded, all, effective, current, keep, effective[b].turnId, i);
  }

  /** A receipt is the only message of its turn. */
  predicate Alone(ms: seq<Message>, r: nat) {
    && r < |ms| && WidgetNotification(ms[r]).Some? && ms[r].turnId != "" && ms[r].id != ""
    && forall j :: 0 <= j < |ms| && ms[j].turnId == ms[r].turnId ==> j == r
  }

  /** The whole path, for a receipt that an action in the hot part answers. */
  lemma CitedTurnNeverCooled(stubs: Stubs, rd: Skills.Reader, loaded: set<string>, all: seq<Message>,
                             effective: seq<Message>, current: string, keep: nat, cited: nat, receipt: nat, action: nat, i: nat)
    requires Projectable(rd, loaded, all, effective)
    requires Alone(all, receipt) && Alone(effective, cited) && effective[cited] == all[receipt]
    requires var ms := InTurnOrder(effective);
             && action < |ms| && WidgetActionSource(ms[action]) == effective[cited].id
             && (keep < |InputTurns(ms, current, |ms|)| ==> FirstHot(ms, current, keep) <= action)
    requires var ms := InTurnOrder(Skills.Projected(rd, loaded, all, effective)); i < |ms| && ms[i].turnId == effective[cited].turnId
    ensures var ms := InTurnOrder(Skills.Projected(rd, loaded, all, effective));
            Cooled(stubs, ms, Candidate(InTurnOrder(effective), current, keep))[i] == ms[i]
  {
    hide ColdTurns, InTurnOrder, Skills.Projected, Candidate, Cooled, InputTurns;
    var ms, turn := InTurnOrder(effective), effective[cited].turnId;
    assert Opens(effective, cited);
    OrderingKeepsOpenings(effective, cited);
    CitedSourceIsWarm(ms, current, keep, Place(effective, cited), action);
    NothingCarriedOfReceipt(rd, loaded, all, effective, receipt);
    ProjectionKeepsWarm(stubs, rd, loaded, all, effective, Candidate(ms, current, keep), turn, i);
  }

  lemma NothingCarriedOfReceipt(rd: Skills.Reader, loaded: set<string>, all: seq<Message>, effective: seq<Message>, receipt: nat)
    requires Projectable(rd, loaded, all, effective) && Alone(all, receipt)
    ensures !Occurs(CarriedOn(rd, loaded, all, effective), all[receipt].turnId)
  {
    var carried, turn := CarriedOn(rd, loaded, all, effective), all[receipt].turnId;
    CarriedCome(rd, Skills.ScanMessages(rd, loaded, all).latest, Ids(effective), all);
    hide CarriedOn;
    forall x | 0 <= x < |carried| ensures carried[x].turnId != turn {
      assert carried[x] in carried && ComesFrom(carried[x], all);
    }
    var r := Reach(carried, turn, 0);
    if r < |carried| {
      assert false;
    }
  }
}
