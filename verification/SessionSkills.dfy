/** Over every run of a session, the one reference of a skill that a request leaves current is
    the last one of the whole history. */
module SessionSkills {

  import opened Results
  import opened Messages
  import opened HistoryOrder
  import opened Cooling
  import opened CoolingPipeline
  import opened Compaction
  import opened RequestPath
  import opened Sessions
  import opened SessionHistory
  import opened SessionInvariants
  import opened SessionProofs
  import opened SkillReferences
  import opened SkillReferencesProofs

  // ----- where what is carried was stored

  /** For every carried message, the index of the message it was taken from. */
  function CarriedAt(rd: Reader, latest: map<Key, Item>, visible: set<string>, ms: seq<Message>): seq<nat> {
    if ms == [] then []
    else
      var n := |ms| - 1;
      CarriedAt(rd, latest, visible, ms[..n]) +
      if ms[n].id in visible then [] else seq(|CarriedParts(rd, latest, ms[n], |ms[n].parts|)|, _ => n)
  }

  predicate TakenFrom(c: Message, ms: seq<Message>, i: nat, visible: set<string>) {
    i < |ms| && Speaks(ms[i]) && c.turnId == ms[i].turnId && c.role.Assistant? && ms[i].id !in visible
  }

  /** These places were taken from, in the order in which they were stored. */
  predicate Taken(carried: seq<Message>, ms: seq<Message>, w: seq<nat>, visible: set<string>) {
    && |w| == |carried|
    && (forall x :: 0 <= x < |w| ==> TakenFrom(carried[x], ms, w[x], visible))
    && (forall x, y :: 0 <= x < y < |w| ==> w[x] <= w[y])
  }

  lemma {:induction false} PartsTaken(rd: Reader, latest: map<Key, Item>, m: Message, n: nat)
    requires n <= |m.parts| && forall j :: 0 <= j < |m.parts| && m.parts[j].kind.ToolResult? ==> Speaks(m)
    ensures forall c :: c in CarriedParts(rd, latest, m, n) ==> Speaks(m) && c.turnId == m.turnId && c.role.Assistant?
  {
    if n > 0 {
      PartsTaken(rd, latest, m, n - 1);
    }
  }

  lemma TakenMore(carried: seq<Message>, ms: seq<Message>, w: seq<nat>, visible: set<string>, parts: seq<Message>)
    requires ms != [] && Taken(carried, ms[..|ms| - 1], w, visible) && ms[|ms| - 1].id !in visible
    requires forall c :: c in parts ==> Speaks(ms[|ms| - 1]) && c.turnId == ms[|ms| - 1].turnId && c.role.Assistant?
    ensures Taken(carried + parts, ms, w + seq(|parts|, _ => |ms| - 1), visible)
  {
    var n := |ms| - 1;
    var more := w + seq(|parts|, _ => n);
    forall x | 0 <= x < |more| ensures TakenFrom((carried + parts)[x], ms, more[x], visible) {
      if x < |w| {
        assert TakenFrom(carried[x], ms[..n], w[x], visible);
      } else {
        assert parts[x - |w|] in parts;
      }
    }
  }

  lemma TakenStill(carried: seq<Message>, ms: seq<Message>, w: seq<nat>, visible: set<string>)
    requires ms != [] && Taken(carried, ms[..|ms| - 1], w, visible)
    ensures Taken(carried, ms, w, visible)
  {
    forall x | 0 <= x < |w| ensures TakenFrom(carried[x], ms, w[x], visible) {
      assert TakenFrom(carried[x], ms[..|ms| - 1], w[x], visible);
    }
  }

  lemma {:induction false} CarriedIsTaken(rd: Reader, latest: map<Key, Item>, visible: set<string>, ms: seq<Message>)
    requires Tidy(ms)
    ensures Taken(CarriedMessages(rd, latest, visible, ms), ms, CarriedAt(rd, latest, visible, ms), visible)
  {
    hide CarriedParts, Taken;
    if ms == [] {
      assert Taken([], [], [], visible) by { NothingTaken(visible); }
    } else {
      var n := |ms| - 1;
      assert forall i :: 0 <= i < n ==> ms[..n][i] == ms[i];
      CarriedIsTaken(rd, latest, visible, ms[..n]);
      var carried, w := CarriedMessages(rd, latest, visible, ms[..n]), CarriedAt(rd, latest, visible, ms[..n]);
      if ms[n].id in visible {
        NothingAdded(carried);
        NothingAdded(w);
        TakenStill(carried, ms, w, visible);
      } else {
        PartsTaken(rd, latest, ms[n], |ms[n].parts|);
        TakenMore(carried, ms, w, visible, CarriedParts(rd, latest, ms[n], |ms[n].parts|));
      }
    }
  }

  lemma NothingTaken(visible: set<string>)
    ensures Taken([], [], [], visible)
  {
  }

  // ----- turns speak one after the other in every request

  /** Where a message of the request that speaks, or opens a turn, was stored. */
  ghost predicate StoredAt(all: seq<Message>, p: Message, i: nat) {
    i < |all| && Counts(all[i]) && all[i].turnId == p.turnId && (Speaks(p) ==> Speaks(all[i]))
  }

  /** What was carried was stored before what is shown. */
  lemma CarriedThenShown(all: seq<Message>, e: seq<Message>, c: nat, running: Option<string>, carried: seq<Message>, w: seq<nat>,
                         a: nat, b: nat) returns (i: nat, j: nat)
    requires HistoryOk(all, running) && ShownIs(all, e, Some(c)) && Taken(carried, all, w, Ids(e))
    requires a < |carried| && b < |e| && Counts(e[b]) && Speaks(e[b])
    ensures i <= j && StoredAt(all, carried[a], i) && StoredAt(all, e[b], j)
    ensures i == w[a] && all[j] == e[b]
  {
    hide ShownIs, HistoryOk;
    i := w[a];
    SpeakerCounts(all, running, i);
    ShownStored(all, e, Some(c));
    assert e[b] in all;
    j :| 0 <= j < |all| && all[j] == e[b];
    HiddenAreOlder(all, e, Some(c));
    assert e[b].id in Ids(e);
  }

  lemma PutAfterFirst<T>(e: seq<T>, carried: seq<T>, x: nat)
    requires e != [] && x < |e| + |carried|
    ensures (e[..1] + carried + e[1..])[x] == if x == 0 then e[0] else if x <= |carried| then carried[x - 1] else e[x - |carried|]
  {
  }

  /** The places of two messages of the request, in order; the second one speaks. */
  lemma PlacesInOrder(all: seq<Message>, e: seq<Message>, c: nat, running: Option<string>, carried: seq<Message>, w: seq<nat>,
                      x: nat, y: nat) returns (i: nat, j: nat)
    requires HistoryOk(all, running) && ShownIs(all, e, Some(c)) && Taken(carried, all, w, Ids(e))
    requires var ms := e[..1] + carried + e[1..];
             x < y < |ms| && Counts(ms[x]) && Counts(ms[y]) && Speaks(ms[y])
    ensures var ms := e[..1] + carried + e[1..];
            i <= j && StoredAt(all, ms[x], i) && StoredAt(all, ms[y], j)
    ensures 1 <= y <= |w| ==> j == w[y - 1]
    ensures 1 <= x <= |w| ==> i == w[x - 1]
    ensures var n := |carried|; y > n ==> all[j] == e[y - n]
    ensures var n := |carried|; x > n ==> all[i] == e[x - n]
  {
    var n, ms := |carried|, e[..1] + carried + e[1..];
    PutAfterFirst(e, carried, x);
    PutAfterFirst(e, carried, y);
    assert x > 0;
    hide ShownIs, HistoryOk;
    if y <= n {
      i, j := w[x - 1], w[y - 1];
      SpeakerCounts(all, running, i);
      SpeakerCounts(all, running, j);
    } else if x > n {
      i, j := ShownOrder(all, e, Some(c), x - n, y - n);
    } else {
      i, j := CarriedThenShown(all, e, c, running, carried, w, x - 1, y - n);
    }
  }

  lemma SpeakerCounts(all: seq<Message>, running: Option<string>, i: nat)
    requires HistoryOk(all, running) && i < |all| && Speaks(all[i])
    ensures Counts(all[i]) && Works(all[i])
  {
    assert MessageOk(all[i]);
  }

  lemma ApartInHistory(all: seq<Message>, running: Option<string>, i: nat, m: nat, l: nat)
    requires HistoryOk(all, running) && i <= m <= l < |all|
    requires Counts(all[i]) && Speaks(all[m]) && Counts(all[l]) && all[i].turnId == all[l].turnId
    ensures all[m].turnId == all[i].turnId
  {
    SpeakerCounts(all, running, m);
    assert ApartAt(all, i, m, l);
  }

  lemma ProjectedApart(all: seq<Message>, e: seq<Message>, c: nat, running: Option<string>, carried: seq<Message>, w: seq<nat>,
                       f: nat, m: nat, l: nat)
    requires HistoryOk(all, running) && ShownIs(all, e, Some(c)) && Taken(carried, all, w, Ids(e))
    requires forall i :: 0 <= i < |e[..1] + carried + e[1..]| && Speaks((e[..1] + carried + e[1..])[i]) ==>
               Counts((e[..1] + carried + e[1..])[i])
    ensures SpeakersApartAt(e[..1] + carried + e[1..], f, m, l)
  {
    var ms := e[..1] + carried + e[1..];
    if f < m < l < |ms| && Counts(ms[f]) && Speaks(ms[m]) && Speaks(ms[l]) && ms[f].turnId == ms[l].turnId {
      var i, j := PlacesInOrder(all, e, c, running, carried, w, f, m);
      var j', k := PlacesInOrder(all, e, c, running, carried, w, m, l);
      hide ShownIs, HistoryOk;
      if m > |carried| {
        DistinctHistory(all, running);
        SameIndex(all, j, j');
      }
      ApartInHistory(all, running, i, j, k);
    }
  }

  lemma DistinctHistory(all: seq<Message>, running: Option<string>)
    requires HistoryOk(all, running)
    ensures DistinctIds(all)
  {
  }

  lemma HistoryApart(all: seq<Message>, running: Option<string>)
    requires HistoryOk(all, running)
    ensures SpeakersApart(all)
  {
    HiddenIsOk(all, running, {});
    forall f: nat, m: nat, l: nat ensures SpeakersApartAt(all, f, m, l) {
      if f < m < l < |all| && Counts(all[f]) && Speaks(all[m]) && Speaks(all[l]) && all[f].turnId == all[l].turnId {
        ApartInHistory(all, running, f, m, l);
      }
    }
  }

  lemma CompactedApart(all: seq<Message>, e: seq<Message>, c: nat, running: Option<string>, carried: seq<Message>, w: seq<nat>)
    requires HistoryOk(all, running) && ShownIs(all, e, Some(c)) && Taken(carried, all, w, Ids(e))
    requires Tidy(carried) && forall x :: 0 <= x < |carried| ==> Counts(carried[x])
    ensures SpeakersApart(e[..1] + carried + e[1..])
  {
    var n, ms := |carried|, e[..1] + carried + e[1..];
    assert forall z :: 1 <= z <= n ==> ms[z] == carried[z - 1];
    assert forall z :: n < z < |ms| ==> ms[z] == e[z - n];
    assert ms[0] == e[0];
    ShownStored(all, e, Some(c));
    hide Taken;
    forall z | 0 <= z < |ms|
      ensures (Speaks(ms[z]) ==> Counts(ms[z])) && (forall j :: 0 <= j < |ms[z].parts| && ms[z].parts[j].kind.ToolResult? ==> Speaks(ms[z]))
    {
      if z == 0 || z > n {
        assert ms[z] == e[if z == 0 then 0 else z - n];
        assert ms[z] in all;
        var i :| 0 <= i < |all| && all[i] == ms[z];
        assert MessageOk(all[i]);
      }
    }
    forall f: nat, m: nat, l: nat ensures SpeakersApartAt(ms, f, m, l) {
      ProjectedApart(all, e, c, running, carried, w, f, m, l);
    }
  }

  /** In every request turns speak one after the other. */
  lemma RequestApart(rd: Reader, loaded: set<string>, s: Session)
    requires Inv(s)
    ensures SpeakersApart(Request(rd, loaded, s))
  {
    var all, e, c := s.all, Shown(s), LastCompaction(s.all, s.tails, |s.all|);
    var latest := ScanMessages(rd, loaded, all).latest;
    var carried := CarriedOn(rd, loaded, all, e);
    HistoryApart(all, s.running);
    if c.None? {
      CarriedWhenNone(rd, loaded, all);
    } else if carried == [] {
      assert e[..1] + [] + e[1..] == e;
      CompactedApart(all, e, c.value, s.running, [], []);
    } else {
      CarriedIsTaken(rd, latest, Ids(e), all);
      HiddenIsOk(all, s.running, {});
      CarriedCome(rd, latest, Ids(e), all);
      assert forall x :: 0 <= x < |carried| ==> carried[x] in carried;
      TakenIsTidy(carried, all, CarriedAt(rd, latest, Ids(e), all), Ids(e));
      CompactedApart(all, e, c.value, s.running, carried, CarriedAt(rd, latest, Ids(e), all));
    }
  }

  lemma TakenIsTidy(carried: seq<Message>, ms: seq<Message>, w: seq<nat>, visible: set<string>)
    requires Taken(carried, ms, w, visible)
    ensures Tidy(carried)
  {
    assert forall x :: 0 <= x < |carried| ==> TakenFrom(carried[x], ms, w[x], visible);
  }

  // ----- every reference has its call

  ghost predicate AllAnswered(all: seq<Message>) {
    forall i: nat :: Answered(all, i)
  }

  lemma AnsweredMore(all: seq<Message>, m: Message)
    requires AllAnswered(all) && Answered(all + [m], |all|)
    ensures AllAnswered(all + [m])
  {
    OldOnes(all, m);
    forall i: nat ensures Answered(all + [m], i) {
      if i < |all| {
        assert Answered(all, i);
        forall j | 0 <= j < |all[i].parts| && all[i].parts[j].kind.ToolResult? ensures CallBefore(all + [m], i, j) {
          assert CallBefore(all, i, j);
        }
      }
    }
  }

  lemma PlainIsAnswered(all: seq<Message>, m: Message)
    requires Plain(m)
    ensures Answered(all + [m], |all|)
  {
    OldOnes(all, m);
  }

  lemma StepAnswers(s: Session, e: Event)
    requires AllAnswered(s.all) && Enabled(s, e)
    ensures AllAnswered(Step(s, e).all)
  {
    hide AllAnswered, Answered, Shown, Candidate, InTurnOrder, Cold, Tail;
    match e
    case Begin(m) => PlainIsAnswered(s.all, m); AnsweredMore(s.all, m);
    case Steer(m) => PlainIsAnswered(s.all, m); AnsweredMore(s.all, m);
    case Output(m) => AnsweredMore(s.all, m);
    case Collect(m) => PlainIsAnswered(s.all, m); AnsweredMore(s.all, m);
    case Notify(m) => PlainIsAnswered(s.all, m); AnsweredMore(s.all, m);
    case Compact(m, _) => PlainIsAnswered(s.all, m); AnsweredMore(s.all, m);
    case Finish =>
    case Cool(_) =>
  }

  lemma {:induction false} RunAnswers(s: Session, events: seq<Event>)
    requires AllAnswered(s.all) && CanRun(s, events)
    ensures AllAnswered(Run(s, events).all)
    decreases |events|
  {
    hide AllAnswered, Enabled, Step;
    if events != [] {
      StepAnswers(s, events[0]);
      RunAnswers(Step(s, events[0]), events[1..]);
    }
  }

  /** The calls of the messages scanned so far are known. */
  predicate KnowsCalls(calls: map<string, Part>, ms: seq<Message>) {
    forall i, j :: 0 <= i < |ms| && 0 <= j < |ms[i].parts| && Speaks(ms[i]) && ms[i].parts[j].kind.ToolUse? ==>
      CallKey(ms[i], ms[i].parts[j]) in calls
  }

  ghost predicate AllCalled(latest: map<Key, Item>) {
    forall k :: k in latest ==> latest[k].call.Some?
  }

  lemma {:induction false} PartsKnow(rd: Reader, loaded: set<string>, s: Scan, ms: seq<Message>, n: nat)
    requires ms != [] && n <= |ms[|ms| - 1].parts|
    requires KnowsCalls(s.calls, ms[..|ms| - 1]) && AllCalled(s.latest) && Answered(ms, |ms| - 1)
    ensures var m := ms[|ms| - 1];
            var after := ScanParts(rd, loaded, s, m, n);
            && KnowsCalls(after.calls, ms[..|ms| - 1]) && AllCalled(after.latest)
            && forall j :: 0 <= j < n && m.parts[j].kind.ToolUse? ==> CallKey(m, m.parts[j]) in after.calls
  {
    if n > 0 {
      hide KnowsCalls, CallKey;
      PartsKnow(rd, loaded, s, ms, n - 1);
      var m := ms[|ms| - 1];
      var before := ScanParts(rd, loaded, s, m, n - 1);
      PartKnows(rd, loaded, before, ms, n - 1);
    }
  }

  lemma PartKnows(rd: Reader, loaded: set<string>, s: Scan, ms: seq<Message>, n: nat)
    requires ms != [] && n < |ms[|ms| - 1].parts|
    requires KnowsCalls(s.calls, ms[..|ms| - 1]) && AllCalled(s.latest) && Answered(ms, |ms| - 1)
    requires var m := ms[|ms| - 1]; forall j :: 0 <= j < n && m.parts[j].kind.ToolUse? ==> CallKey(m, m.parts[j]) in s.calls
    ensures var m := ms[|ms| - 1];
            var after := ScanPart(rd, loaded, s, m, m.parts[n]);
            && KnowsCalls(after.calls, ms[..|ms| - 1]) && AllCalled(after.latest)
            && forall j :: 0 <= j <= n && m.parts[j].kind.ToolUse? ==> CallKey(m, m.parts[j]) in after.calls
  {
    hide Eligible;
    var m := ms[|ms| - 1];
    var p := m.parts[n];
    if p.kind.ToolResult? {
      assert CallBefore(ms, |ms| - 1, n);
      if y :| 0 <= y < n && IsCall(m.parts[y], p.callId) {
        assert CallKey(m, m.parts[y]) == CallKey(m, p);
      } else {
        var x, y :| 0 <= x < |ms| - 1 && 0 <= y < |ms[x].parts| && Speaks(ms[x]) && ms[x].turnId == m.turnId
          && IsCall(ms[x].parts[y], p.callId);
        assert ms[..|ms| - 1][x] == ms[x];
        assert CallKey(ms[x], ms[x].parts[y]) == CallKey(m, p);
      }
      assert CallKey(m, p) in s.calls;
    }
  }

  lemma KnowsMore(calls: map<string, Part>, ms: seq<Message>)
    requires ms != [] && KnowsCalls(calls, ms[..|ms| - 1])
    requires var m := ms[|ms| - 1];
             forall j :: 0 <= j < |m.parts| && Speaks(m) && m.parts[j].kind.ToolUse? ==> CallKey(m, m.parts[j]) in calls
    ensures KnowsCalls(calls, ms)
  {
    forall i, j | 0 <= i < |ms| && 0 <= j < |ms[i].parts| && Speaks(ms[i]) && ms[i].parts[j].kind.ToolUse?
      ensures CallKey(ms[i], ms[i].parts[j]) in calls
    {
      if i < |ms| - 1 {
        assert ms[..|ms| - 1][i] == ms[i];
      }
    }
  }

  lemma AnsweredBefore(ms: seq<Message>)
    requires ms != [] && AllAnswered(ms)
    ensures AllAnswered(ms[..|ms| - 1])
  {
    var init := ms[..|ms| - 1];
    forall i: nat ensures Answered(init, i) {
      if i < |init| {
        assert Answered(ms, i) && init[i] == ms[i];
        forall j | 0 <= j < |init[i].parts| && init[i].parts[j].kind.ToolResult? ensures CallBefore(init, i, j) {
          assert CallBefore(ms, i, j);
          assert forall x :: 0 <= x < i ==> init[x] == ms[x];
        }
      }
    }
  }

  /** The scan finds the call of every latest reference. */
  lemma {:induction false} ScanFindsCalls(rd: Reader, loaded: set<string>, ms: seq<Message>)
    requires AllAnswered(ms)
    ensures KnowsCalls(ScanMessages(rd, loaded, ms).calls, ms) && AllCalled(ScanMessages(rd, loaded, ms).latest)
  {
    if ms != [] {
      var n := |ms| - 1;
      AnsweredBefore(ms);
      ScanFindsCalls(rd, loaded, ms[..n]);
      assert Answered(ms, n);
      hide KnowsCalls, AllCalled, AllAnswered, Answered, ScanParts;
      if Speaks(ms[n]) {
        PartsKnow(rd, loaded, ScanMessages(rd, loaded, ms[..n]), ms, |ms[n].parts|);
      }
      KnowsMore(ScanMessages(rd, loaded, ms).calls, ms);
    }
  }

  // ----- the skill that is left current

  /** Over every run, however often the history was compacted, also inside a running turn,
      whatever order notifications came in and whatever watermark is committed: the one
      reference of a skill that a request leaves current is the last one of the whole
      history. */
  lemma SessionSkillIsLast(events: seq<Event>, rd: Reader, judge: (Part, Ref) -> Judgement, stubs: Stubs, loaded: set<string>,
                           k: Key, here: Position)
    requires CanRun(START, events)
    requires Faithful(rd) && (forall p, r :: !judge(p, r).status.Superseded?) && KeepsReferences(stubs, rd)
    requires Eligible(k, loaded) && References(rd, k, Run(START, events).all) != []
    requires var s := Run(START, events);
             LeftCurrent(rd, judge, Cooled(stubs, InTurnOrder(Request(rd, loaded, s)), s.cooling), here, k)
    ensures var s := Run(START, events);
            var refs := References(rd, k, s.all);
            var last, out := refs[|refs| - 1], Cooled(stubs, InTurnOrder(Request(rd, loaded, s)), s.cooling);
            && here.0 < |out| && here.1 < |out[here.0].parts|
            && out[here.0].id == last.message.id
            && out[here.0].parts[here.1].(content := last.part.content) == last.part
  {
    StartsWell();
    RunKeeps(START, events);
    RunAnswers(START, events);
    hide Run, CanRun, Inv, Faithful, KeepsReferences, LeftCurrent, Eligible, References, Cooled, InTurnOrder, Request;
    ScanFindsCalls(rd, loaded, Run(START, events).all);
    SkillIsLast(Run(START, events), rd, judge, stubs, loaded, k, here);
  }

  lemma SkillIsLast(s: Session, rd: Reader, judge: (Part, Ref) -> Judgement, stubs: Stubs, loaded: set<string>,
                    k: Key, here: Position)
    requires Inv(s) && Faithful(rd) && (forall p, r :: !judge(p, r).status.Superseded?) && KeepsReferences(stubs, rd)
    requires Eligible(k, loaded) && References(rd, k, s.all) != []
    requires LeftCurrent(rd, judge, Cooled(stubs, InTurnOrder(Request(rd, loaded, s)), s.cooling), here, k)
    ensures var refs, item := References(rd, k, s.all), ScanMessages(rd, loaded, s.all).latest;
            var last, out := refs[|refs| - 1], Cooled(stubs, InTurnOrder(Request(rd, loaded, s)), s.cooling);
            k in item && (last.message.id in Ids(Shown(s)) || item[k].call.Some? ==>
              && here.0 < |out| && here.1 < |out[here.0].parts|
              && out[here.0].id == last.message.id
              && out[here.0].parts[here.1].(content := last.part.content) == last.part)
  {
    hide Faithful, KeepsReferences, LeftCurrent, Cooled, InTurnOrder, SpeakersApart, Eligible, References, ScanMessages,
      Projected, Inv, Tidy, Ids, Shown, Compacted, PlainSummary, Request;
    var all, c := s.all, LastCompaction(s.all, s.tails, |s.all|);
    RequestApart(rd, loaded, s);
    RequestIs(rd, loaded, s);
    if c.None? {
      ScanFindsLast(rd, loaded, all, k);
      CurrentIsLastOf(rd, judge, stubs, all, s.cooling, k, here);
    } else {
      RequestHasHistorysLast(rd, judge, stubs, loaded, all, Shown(s), c.value, s.cooling, k, here);
    }
  }

  /** Without a compaction a request is made of the whole history, and otherwise of a compacted
      one. */
  lemma RequestIs(rd: Reader, loaded: set<string>, s: Session)
    requires Inv(s)
    ensures Tidy(s.all)
    ensures match LastCompaction(s.all, s.tails, |s.all|)
            case None => Request(rd, loaded, s) == s.all
            case Some(at) => Compacted(s.all, Shown(s), at) && PlainSummary(s.all[at])
                             && Shown(s) != [] && Request(rd, loaded, s) == Projected(rd, loaded, s.all, Shown(s))
  {
    HiddenIsOk(s.all, s.running, {});
    var c := LastCompaction(s.all, s.tails, |s.all|);
    if c.None? {
      CarriedWhenNone(rd, loaded, s.all);
    } else {
      SummaryIsPlain(s, c.value);
    }
  }

  lemma SummaryIsPlain(s: Session, c: nat)
    requires Inv(s) && LastCompaction(s.all, s.tails, |s.all|) == Some(c)
    ensures Compacted(s.all, Shown(s), c) && PlainSummary(s.all[c]) && Shown(s) != []
  {
    assert MessageOk(s.all[c]);
  }
}
