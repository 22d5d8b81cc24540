/** What cooling never touches, what it exactly touches, and how the watermark moves. */
module CoolingProofs {
  import opened Results
  import opened Messages
  import opened Regrouping
  import opened HistoryOrder
  import opened Cooling

  /** `b` is the first message of its turn that counts. */
  ghost predicate Opens(ms: seq<Message>, b: nat) {
    b < |ms| && Counts(ms[b]) && forall a :: 0 <= a < b && Counts(ms[a]) ==> ms[a].turnId != ms[b].turnId
  }

  /** Every message but possibly the first has a turn and is not a summary: the effective
      history, with at most its compaction summary at the head. */
  ghost predicate HeadOnly(ms: seq<Message>) {
    (forall i :: 0 < i < |ms| ==> Counts(ms[i])) && (|ms| > 0 ==> Counts(ms[0]) || ms[0].role.Summary?)
  }

  // ----- nothing but cold parts changes

  /** Cooling keeps the number of messages, their identities, roles and turns; a message
      of a turn that is not cold is the very same message. */
  lemma CoolingKeepsShape(stubs: Stubs, ms: seq<Message>, state: Watermark, i: nat)
    requires i < |ms|
    ensures var m := Cooled(stubs, ms, state)[i];
            m.id == ms[i].id && m.role == ms[i].role && m.turnId == ms[i].turnId && m.turnIndex == ms[i].turnIndex &&
            m.actionSource == ms[i].actionSource
    ensures ms[i].turnId !in ColdTurns(ms, state) ==> Cooled(stubs, ms, state)[i] == ms[i]
  {
  }

  // ----- what is cold

  /** A result in its short form: the stub stands for the content, and what else the tool put
      out is dropped when that changes the content. */
  predicate ShortResult(stubs: Stubs, turnId: string, p: Part, q: Part) {
    && q.kind == p.kind && q.name == p.name && q.callId == p.callId && q.ok == p.ok
    && q.content == stubs.result(p.name, p.ok, p.content, turnId, p.callId)
    && (if q.content != p.content then q.modelOutput.None? && q.mcpResult.None? else q == p)
  }

  /** What a cold message looks like: a notification has its stub, if there is one; in what the
      tools and the assistant said every result is short and every other part as it was. */
  predicate ShortForm(stubs: Stubs, m: Message, c: Message) {
    if WidgetNotification(m).Some? then
      match stubs.notice(m)
      case None => c == m
      case Some(stub) => c.parts == stub.parts && c.notice == Some(stub.notice)
    else if m.role.Tool? || m.role.Assistant? then
      && |c.parts| == |m.parts| && c.notice == m.notice
      && forall j :: 0 <= j < |m.parts| ==>
           if m.parts[j].kind.ToolResult? then ShortResult(stubs, m.turnId, m.parts[j], c.parts[j]) else c.parts[j] == m.parts[j]
    else c == m
  }

  /** Every message of a cold turn is in its short form. */
  lemma ColdIsShort(stubs: Stubs, ms: seq<Message>, state: Watermark, i: nat)
    requires i < |ms| && ms[i].turnId in ColdTurns(ms, state)
    ensures ShortForm(stubs, ms[i], Cooled(stubs, ms, state)[i])
  {
    hide ColdTurns;
    var m, c := ms[i], Cooled(stubs, ms, state)[i];
    if WidgetNotification(m).None? && (m.role.Tool? || m.role.Assistant?) {
      forall j | 0 <= j < |m.parts| && m.parts[j].kind.ToolResult? ensures ShortResult(stubs, m.turnId, m.parts[j], c.parts[j]) {
        assert c.parts[j] == ColdPart(stubs, m.turnId, m.parts[j]);
      }
    }
  }

  lemma TurnsOfHas(ms: seq<Message>, n: nat, turn: string)
    requires n <= |ms|
    ensures turn in TurnsOf(ms, n) <==> exists a :: 0 <= a < n && Counts(ms[a]) && ms[a].turnId == turn
  {
  }

  // ----- protected turns

  /** Only turns that occur before the split can be cold. */
  lemma ColdBeforeSplit(ms: seq<Message>, current: string, keep: nat, turn: string) returns (a: nat)
    requires turn in ColdTurns(ms, Candidate(ms, current, keep))
    ensures keep < |InputTurns(ms, current, |ms|)|
    ensures a < Split(ms, current, keep) && Counts(ms[a]) && ms[a].turnId == turn
  {
    var state := Candidate(ms, current, keep);
    var reach := Reach(ms, state.throughTurnId, 0);
    var split := Split(ms, current, keep);
    assert Counts(ms[split - 1]);
    assert reach < split;
    TurnsOfHas(ms, reach + 1, turn);
    a :| 0 <= a < reach + 1 && Counts(ms[a]) && ms[a].turnId == turn;
  }

  lemma OpenedAfterSplitIsHot(ms: seq<Message>, current: string, keep: nat, b: nat)
    requires Opens(ms, b)
    requires keep < |InputTurns(ms, current, |ms|)| ==> Split(ms, current, keep) <= b
    ensures ms[b].turnId !in ColdTurns(ms, Candidate(ms, current, keep))
  {
    if ms[b].turnId in ColdTurns(ms, Candidate(ms, current, keep)) {
      var a := ColdBeforeSplit(ms, current, keep, ms[b].turnId);
      assert false;
    }
  }

  lemma {:induction false} InputTurnsPrefix(ms: seq<Message>, current: string, c: nat, n: nat)
    requires c <= n <= |ms|
    ensures InputTurns(ms, current, c) <= InputTurns(ms, current, n)
    ensures forall k :: |InputTurns(ms, current, c)| <= k < |InputTurns(ms, current, n)| ==> c <= InputTurns(ms, current, n)[k]
  {
    if c < n {
      InputTurnsPrefix(ms, current, c, n - 1);
    }
  }

  /** How many input turns other than the current one begin at or after `c`. */
  function InputsFrom(ms: seq<Message>, current: string, c: nat): int
    requires c <= |ms|
  {
    |InputTurns(ms, current, |ms|)| - |InputTurns(ms, current, c)|
  }

  /** An input boundary is at or after the first hot input exactly when no more than the
      kept number of input turns follow it. */
  lemma HotWhenFewFollow(ms: seq<Message>, current: string, keep: nat, c: nat)
    requires c < |ms| && IsInputTurnBoundary(ms[c])
    requires keep < |InputTurns(ms, current, |ms|)|
    ensures FirstHot(ms, current, keep) <= c <==> InputsFrom(ms, current, c) <= keep
  {
    var turns := InputTurns(ms, current, |ms|);
    var last := turns[|turns| - keep - 1];
    InputTurnsPrefix(ms, current, c, |ms|);
    var before := InputTurns(ms, current, c);
    if InputsFrom(ms, current, c) <= keep {
      assert last == before[|turns| - keep - 1] < c;
    } else {
      assert last >= c;
    }
  }

  /** The last `keep` input turns before the current one stay warm. */
  lemma RecentInputIsWarm(ms: seq<Message>, current: string, keep: nat, b: nat)
    requires Opens(ms, b) && IsInputTurnBoundary(ms[b]) && InputsFrom(ms, current, b) <= keep
    ensures ms[b].turnId !in ColdTurns(ms, Candidate(ms, current, keep))
  {
    if keep < |InputTurns(ms, current, |ms|)| {
      HotWhenFewFollow(ms, current, keep, b);
    }
    OpenedAfterSplitIsHot(ms, current, keep, b);
  }

  /** So they are left as they are. */
  lemma KeepsRecentInputs(stubs: Stubs, ms: seq<Message>, current: string, keep: nat, b: nat, i: nat)
    requires Opens(ms, b) && IsInputTurnBoundary(ms[b]) && InputsFrom(ms, current, b) <= keep
    requires i < |ms| && ms[i].turnId == ms[b].turnId
    ensures Cooled(stubs, ms, Candidate(ms, current, keep))[i] == ms[i]
  {
    RecentInputIsWarm(ms, current, keep, b);
    CoolingKeepsShape(stubs, ms, Candidate(ms, current, keep), i);
  }

  /** So is the current turn, as long as no more than `keep` other input turns follow its
      opening. */
  lemma KeepsCurrentTurn(stubs: Stubs, ms: seq<Message>, current: string, keep: nat, c: nat, i: nat)
    requires Opens(ms, c) && IsInputTurnBoundary(ms[c]) && ms[c].turnId == current
    requires InputsFrom(ms, current, c) <= keep
    requires i < |ms| && ms[i].turnId == current
    ensures Cooled(stubs, ms, Candidate(ms, current, keep))[i] == ms[i]
  {
    KeepsRecentInputs(stubs, ms, current, keep, c, i);
  }

  lemma {:induction false} InSources(ms: seq<Message>, from: nat, end: nat, action: nat)
    requires from <= action < end <= |ms| && WidgetActionSource(ms[action]) != ""
    ensures WidgetActionSource(ms[action]) in Sources(ms, from, end)
  {
    if action < end - 1 {
      InSources(ms, from, end - 1, action);
    }
  }

  /** What an action in the hot part answers stays warm, however old. */
  lemma CitedSourceIsWarm(ms: seq<Message>, current: string, keep: nat, cited: nat, action: nat)
    requires Opens(ms, cited) && action < |ms| && ms[cited].id != ""
    requires WidgetActionSource(ms[action]) == ms[cited].id
    requires keep < |InputTurns(ms, current, |ms|)| ==> FirstHot(ms, current, keep) <= action
    ensures ms[cited].turnId !in ColdTurns(ms, Candidate(ms, current, keep))
  {
    if keep < |InputTurns(ms, current, |ms|)| {
      InSources(ms, FirstHot(ms, current, keep), |ms|, action);
    }
    OpenedAfterSplitIsHot(ms, current, keep, cited);
  }

  /** So it is left as it is. */
  lemma KeepsCitedSources(stubs: Stubs, ms: seq<Message>, current: string, keep: nat, cited: nat, action: nat, i: nat)
    requires Opens(ms, cited) && action < |ms| && ms[cited].id != ""
    requires WidgetActionSource(ms[action]) == ms[cited].id
    requires keep < |InputTurns(ms, current, |ms|)| ==> FirstHot(ms, current, keep) <= action
    requires i < |ms| && ms[i].turnId == ms[cited].turnId
    ensures Cooled(stubs, ms, Candidate(ms, current, keep))[i] == ms[i]
  {
    CitedSourceIsWarm(ms, current, keep, cited, action);
    CoolingKeepsShape(stubs, ms, Candidate(ms, current, keep), i);
  }

  // ----- exactly which turns are cold

  lemma BeforeSplitIsCold(ms: seq<Message>, current: string, keep: nat, a: nat)
    requires TurnOrdered(ms) && HeadOnly(ms) && keep < |InputTurns(ms, current, |ms|)|
    requires a < Split(ms, current, keep) && Counts(ms[a])
    ensures ms[a].turnId in ColdTurns(ms, Candidate(ms, current, keep))
  {
    hide InputTurns, NextInput, FirstAmong, Sources, LastSummary, Reach, TurnsOf, FirstHot, Split;
    var state := Candidate(ms, current, keep);
    var split := Split(ms, current, keep);
    assert Counts(ms[split - 1]);
    var reach := Reach(ms, state.throughTurnId, 0);
    assert reach < split;
    if reach < a {
      TurnIsTogether(ms, reach, a, split - 1);
      assert ms[reach].turnId == ms[a].turnId;
    }
    TurnsOfHas(ms, reach + 1, ms[a].turnId);
  }

  /** In an ordered history the cold turns are exactly those that occur before the split. */
  lemma ColdExactly(ms: seq<Message>, current: string, keep: nat, turn: string)
    requires TurnOrdered(ms) && HeadOnly(ms)
    ensures turn in ColdTurns(ms, Candidate(ms, current, keep)) <==>
            keep < |InputTurns(ms, current, |ms|)| &&
            exists a :: 0 <= a < Split(ms, current, keep) && Counts(ms[a]) && ms[a].turnId == turn
  {
    if turn in ColdTurns(ms, Candidate(ms, current, keep)) {
      var a := ColdBeforeSplit(ms, current, keep, turn);
    } else if keep < |InputTurns(ms, current, |ms|)| {
      forall a | 0 <= a < Split(ms, current, keep) && Counts(ms[a]) ensures ms[a].turnId != turn {
        BeforeSplitIsCold(ms, current, keep, a);
      }
    }
  }

  /** The current turn is cooled exactly when more than `keep` other input turns begin after
      its opening, and no action in what stays hot answers its opening or anything before. */
  lemma CurrentTurnColdExactly(ms: seq<Message>, current: string, keep: nat, c: nat)
    requires TurnOrdered(ms) && HeadOnly(ms)
    requires Opens(ms, c) && IsInputTurnBoundary(ms[c]) && ms[c].turnId == current
    ensures current in ColdTurns(ms, Candidate(ms, current, keep)) <==>
            && keep < |InputTurns(ms, current, |ms|)|
            && InputsFrom(ms, current, c) > keep
            && forall j :: 0 <= j <= c ==> ms[j].id !in Sources(ms, FirstHot(ms, current, keep), |ms|)
  {
    ColdExactly(ms, current, keep, current);
    if keep < |InputTurns(ms, current, |ms|)| {
      HotWhenFewFollow(ms, current, keep, c);
      var split := Split(ms, current, keep);
      assert current in ColdTurns(ms, Candidate(ms, current, keep)) <==> c < split;
    }
  }

  function Input(id: string, turnId: string): Message {
    Message(id, turnId, 0, User, [], None, "")
  }

  /** The rule protects the current turn only where it is last: here a later input turn
      follows it, nothing is kept, and the current turn goes cold. */
  lemma CurrentTurnCanCool()
    ensures var ms := [Input("1", "now"), Input("2", "later")];
            "now" in ColdTurns(ms, Candidate(ms, "now", 0))
  {
    var ms := [Input("1", "now"), Input("2", "later")];
    assert InputTurns(ms, "now", 1) == [];
    assert InputTurns(ms, "now", 2) == [1];
    assert Sources(ms, 2, 2) == {};
    assert FirstHot(ms, "now", 0) == 2;
    assert FirstAmong(ms, {}, 1, 2) == 2;
    assert Split(ms, "now", 0) == 2;
    assert LastSummary(ms, 1) == "";
    assert Reach(ms, "later", 1) == 1;
    assert ms[0].turnId in TurnsOf(ms, 2);
  }

  // ----- the watermark against the number of kept turns

  lemma FirstHotShrinks(ms: seq<Message>, current: string, keep: nat, more: nat)
    requires keep <= more < |InputTurns(ms, current, |ms|)|
    ensures FirstHot(ms, current, more) <= FirstHot(ms, current, keep)
  {
    var turns := InputTurns(ms, current, |ms|);
    assert keep < more ==> turns[|turns| - more - 1] < turns[|turns| - keep - 1];
  }

  lemma {:induction false} SourcesGrow(ms: seq<Message>, lo: nat, hi: nat, end: nat)
    requires lo <= hi <= end <= |ms|
    ensures Sources(ms, hi, end) <= Sources(ms, lo, end)
  {
    if hi < end {
      SourcesGrow(ms, lo, hi, end - 1);
    }
  }

  /** Keeping more never moves the split forward, although the retreat looks at more. */
  lemma SplitShrinks(ms: seq<Message>, current: string, keep: nat, more: nat)
    requires keep <= more < |InputTurns(ms, current, |ms|)|
    ensures Split(ms, current, more) <= Split(ms, current, keep)
  {
    FirstHotShrinks(ms, current, keep, more);
    SourcesGrow(ms, FirstHot(ms, current, more), FirstHot(ms, current, keep), |ms|);
  }

  /** Keeping more turns never cools a turn that was warm. */
  lemma KeepingMoreCoolsLess(ms: seq<Message>, current: string, keep: nat, more: nat)
    requires TurnOrdered(ms) && HeadOnly(ms) && keep <= more
    ensures ColdTurns(ms, Candidate(ms, current, more)) <= ColdTurns(ms, Candidate(ms, current, keep))
  {
    forall turn | turn in ColdTurns(ms, Candidate(ms, current, more))
      ensures turn in ColdTurns(ms, Candidate(ms, current, keep))
    {
      ColdExactly(ms, current, more, turn);
      ColdExactly(ms, current, keep, turn);
      SplitShrinks(ms, current, keep, more);
    }
  }
}
