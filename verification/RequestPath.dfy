/** The skill references of a request: projected past a compaction, brought into turn order,
    cooled and resolved. */
module RequestPath {

  import opened Results
  import opened Messages
  import opened Regrouping
  import opened HistoryOrder
  import opened Cooling
  import opened CoolingPipeline
  import opened SkillReferences
  import opened SkillReferencesProofs

  // ----- turn order

  /** Between a turn's first message and one in which it speaks no other turn speaks. */
  predicate SpeakersApartAt(ms: seq<Message>, f: nat, m: nat, l: nat) {
    f < m < l < |ms| && Counts(ms[f]) && Speaks(ms[m]) && Speaks(ms[l]) && ms[f].turnId == ms[l].turnId ==>
      ms[m].turnId == ms[f].turnId
  }

  /** What can hold references belongs to a turn, and turns do not speak in between others. */
  ghost predicate SpeakersApart(ms: seq<Message>) {
    && Tidy(ms)
    && (forall i :: 0 <= i < |ms| && Speaks(ms[i]) ==> Counts(ms[i]))
    && (forall f: nat, m: nat, l: nat :: SpeakersApartAt(ms, f, m, l))
  }

  /** Ordering moves nothing that speaks past anything else that speaks. */
  lemma {:induction false} OrderKeepsSpeakers(ms: seq<Message>, c: nat, a: nat)
    requires SpeakersApart(ms) && c < a < |ms|
    requires Speaks(InTurnOrder(ms)[c]) && Speaks(InTurnOrder(ms)[a])
    ensures var p := Regroup(TurnKeys(ms), |ms|); p[c] < p[a]
  {
    var keys := TurnKeys(ms);
    var p := Regroup(keys, |ms|);
    RegroupIs(keys, |ms|);
    assert Before(keys, p[c], p[a]);
    var f := First(keys, p[c]);
    FirstOfTurn(ms, p[c]);
    FirstJoins(keys, p[c]);
    FirstJoins(keys, p[a]);
    FirstIsOwnFirst(keys, p[c]);
    if p[a] < p[c] && f < p[a] {
      assert SpeakersApartAt(ms, f, p[a], p[c]);
      FirstBetween(keys, f, p[a], p[c]);
    }
    InOrderDiffer(keys, |ms|, c, a);
  }

  lemma FirstBetween<K>(keys: seq<Regrouping.Key<K>>, f: nat, m: nat, l: nat)
    requires f < m < l < |keys| && Joins(keys, f, l) && keys[m] == keys[f]
    ensures First(keys, m) <= f
  {
    FirstJoins(keys, m);
    assert Joins(keys, f, m);
  }

  lemma InOrderDiffer<K>(keys: seq<Regrouping.Key<K>>, n: nat, c: nat, a: nat)
    requires n <= |keys| && c < a < n
    ensures Regroup(keys, n)[c] != Regroup(keys, n)[a]
  {
    RegroupIs(keys, n);
    assert Before(keys, Regroup(keys, n)[c], Regroup(keys, n)[a]);
  }

  /** The last reference of a key stays the last one. */
  lemma {:induction false} LastStaysLast(rd: Reader, k: SkillReferences.Key, ms: seq<Message>, here: Position) returns (i: nat)
    requires SpeakersApart(ms) && RefAt(rd, InTurnOrder(ms), here, k)
    requires forall there: Position :: RefAt(rd, InTurnOrder(ms), there, k) ==> !After(there, here)
    ensures i < |ms| && ms[i] == InTurnOrder(ms)[here.0] && RefAt(rd, ms, (i, here.1), k)
    ensures forall there: Position :: RefAt(rd, ms, there, k) ==> !After(there, (i, here.1))
  {
    var ordered, p := InTurnOrder(ms), Regroup(TurnKeys(ms), |ms|);
    RegroupIs(TurnKeys(ms), |ms|);
    i := p[here.0];
    assert ordered[here.0] == ms[i];
    RefSpeaks(rd, ms, (i, here.1), k);
    forall there: Position | RefAt(rd, ms, there, k) ensures !After(there, (i, here.1)) {
      var c := Place(ms, there.0);
      PlacedThere(ms, there.0);
      assert RefAt(rd, ordered, (c, there.1), k) && !After((c, there.1), here);
      RefSpeaks(rd, ms, there, k);
      if c < here.0 {
        OrderKeepsSpeakers(ms, c, here.0);
      }
    }
  }

  lemma RefSpeaks(rd: Reader, ms: seq<Message>, here: Position, k: SkillReferences.Key)
    requires Tidy(ms) && RefAt(rd, ms, here, k)
    ensures Speaks(ms[here.0])
  {
  }

  // ----- cooling

  /** A result that refers to a skill is not shortened, no other becomes a reference, and the
      stub of a receipt has no results. */
  ghost predicate KeepsReferences(stubs: Stubs, rd: Reader) {
    && (forall name, ok, content, turn, call ::
          var cold := stubs.result(name, ok, content, turn, call);
          rd.refOf(name, ok, cold) == rd.refOf(name, ok, content) && (rd.refOf(name, ok, content).Some? ==> cold == content))
    && (forall m :: NoResults(stubs.notice(m)))
  }

  predicate NoResults(stub: Option<NoticeStub>) {
    stub.Some? ==> forall j :: 0 <= j < |stub.value.parts| ==> !stub.value.parts[j].kind.ToolResult?
  }

  lemma ColdPartRefers(rd: Reader, stubs: Stubs, turn: string, p: Part, k: SkillReferences.Key)
    requires KeepsReferences(stubs, rd)
    ensures HasKey(rd, ColdPart(stubs, turn, p), k) == HasKey(rd, p, k)
    ensures HasKey(rd, p, k) ==> ColdPart(stubs, turn, p) == p
  {
  }

  /** Cooling changes no reference and moves none. */
  lemma CoolingKeepsReferences(rd: Reader, stubs: Stubs, ms: seq<Message>, state: Watermark, here: Position, k: SkillReferences.Key)
    requires KeepsReferences(stubs, rd) && Tidy(ms)
    ensures RefAt(rd, Cooled(stubs, ms, state), here, k) <==> RefAt(rd, ms, here, k)
    ensures RefAt(rd, ms, here, k) ==>
      var m := Cooled(stubs, ms, state)[here.0];
      m.id == ms[here.0].id && m.parts[here.1] == ms[here.0].parts[here.1]
  {
    if here.0 < |ms| {
      CooledAt(stubs, ms, state, here.0);
      hide Cooled, ColdTurns, HasKey;
      var m := ms[here.0];
      if WidgetNotification(m).Some? {
        assert NoResults(stubs.notice(m));
        if here.1 < |m.parts| {
          NoKey(rd, m.parts[here.1], k);
        }
        var cold := CooledOne(stubs, ColdTurns(ms, state), m);
        if here.1 < |cold.parts| {
          NoKey(rd, cold.parts[here.1], k);
        }
      } else if here.1 < |m.parts| {
        ColdPartRefers(rd, stubs, m.turnId, m.parts[here.1], k);
      }
    }
  }

  lemma NoKey(rd: Reader, p: Part, k: SkillReferences.Key)
    ensures !p.kind.ToolResult? ==> !HasKey(rd, p, k)
  {
  }

  // ----- the request

  /** Of the history a request is built from, ordered, cooled and resolved, the one reference
      of a skill that stays current is the last. */
  lemma {:induction false} CurrentIsLastOf(rd: Reader, judge: (Part, Ref) -> Judgement, stubs: Stubs, ms: seq<Message>,
                                           state: Watermark, k: SkillReferences.Key, here: Position)
    requires Faithful(rd) && (forall p, r :: !judge(p, r).status.Superseded?) && KeepsReferences(stubs, rd)
    requires SpeakersApart(ms)
    requires LeftCurrent(rd, judge, Cooled(stubs, InTurnOrder(ms), state), here, k)
    ensures var out, refs := Cooled(stubs, InTurnOrder(ms), state), References(rd, k, ms);
            && refs != [] && here.0 < |out| && here.1 < |out[here.0].parts|
            && out[here.0].id == refs[|refs| - 1].message.id && out[here.0].parts[here.1] == refs[|refs| - 1].part
  {
    var ordered := InTurnOrder(ms);
    var out := Cooled(stubs, ordered, state);
    ResolvesLast(rd, judge, out, here);
    OrderedIsTidy(ms);
    hide Resolved, Cooled, InTurnOrder, Faithful, KeepsReferences, HasKey;
    CoolingKeepsReferences(rd, stubs, ordered, state, here, k);
    forall there: Position | RefAt(rd, ordered, there, k) ensures !After(there, here) {
      CoolingKeepsReferences(rd, stubs, ordered, state, there, k);
    }
    var i := LastStaysLast(rd, k, ms, here);
    LastIsSeenLast(rd, k, ms, (i, here.1));
  }

  lemma {:induction false} OrderedIsTidy(ms: seq<Message>)
    requires Tidy(ms)
    ensures Tidy(InTurnOrder(ms))
  {
    var p := Regroup(TurnKeys(ms), |ms|);
    RegroupIs(TurnKeys(ms), |ms|);
    assert forall a :: 0 <= a < |ms| ==> InTurnOrder(ms)[a] == ms[p[a]];
  }

  /** The same over a compaction: it is the last of the whole history. */
  lemma {:induction false} RequestHasHistorysLast(rd: Reader, judge: (Part, Ref) -> Judgement, stubs: Stubs, loaded: set<string>,
                                                  all: seq<Message>, effective: seq<Message>, at: nat, state: Watermark,
                                                  k: SkillReferences.Key, here: Position)
    requires Faithful(rd) && (forall p, r :: !judge(p, r).status.Superseded?) && KeepsReferences(stubs, rd)
    requires Compacted(all, effective, at) && Tidy(all) && PlainSummary(all[at])
    requires Eligible(k, loaded) && References(rd, k, all) != []
    requires SpeakersApart(Projected(rd, loaded, all, effective))
    requires LeftCurrent(rd, judge, Cooled(stubs, InTurnOrder(Projected(rd, loaded, all, effective)), state), here, k)
    ensures var refs, item := References(rd, k, all), ScanMessages(rd, loaded, all).latest;
            var last, out := refs[|refs| - 1], Cooled(stubs, InTurnOrder(Projected(rd, loaded, all, effective)), state);
            k in item && (last.message.id in Ids(effective) || item[k].call.Some? ==>
              && here.0 < |out| && here.1 < |out[here.0].parts|
              && out[here.0].id == last.message.id
              && out[here.0].parts[here.1].(content := last.part.content) == last.part)
  {
    assert effective != [];
    hide Projected, Resolved, Cooled, InTurnOrder, Faithful, KeepsReferences, HasKey, Eligible, ScanMessages, Compacted, References, Ids;
    LastProjected(rd, loaded, all, effective, at, k);
    CurrentIsLastOf(rd, judge, stubs, Projected(rd, loaded, all, effective), state, k, here);
  }
}
