/** Model-history ordering: each turn's messages are replayed together, and nothing
    crosses a compaction summary or a message without a turn. */
module HistoryOrder {
  import opened Messages
  import opened Regrouping

  function TurnKey(m: Message): Key<string> {
    if m.role.Summary? || m.turnId == "" then Barrier else Group(m.turnId)
  }

  function TurnKeys(messages: seq<Message>): (keys: seq<Key<string>>)
    ensures |keys| == |messages| && forall i :: 0 <= i < |keys| ==> keys[i] == TurnKey(messages[i])
  {
    seq(|messages|, i requires 0 <= i < |messages| => TurnKey(messages[i]))
  }

  /** The order of replay. */
  ghost function InTurnOrder(messages: seq<Message>): (out: seq<Message>)
    ensures |out| == |messages|
  {
    Pick(messages, Regroup(TurnKeys(messages), |messages|))
  }

  method Flush(out: seq<Message>, groups: seq<seq<Message>>) returns (flushed: seq<Message>)
    ensures flushed == out + Flatten(groups)
  {
    flushed := out;
    for g := 0 to |groups|
      invariant flushed == out + Flatten(groups[..g])
    {
      assert groups[..g + 1][..g] == groups[..g];
      flushed := flushed + groups[g];
    }
    assert groups[..|groups|] == groups;
  }

  /** `out` is final up to `from`; the groups and their map hold the stretch up to `i`. */
  ghost predicate Ordering(messages: seq<Message>, from: nat, i: nat, out: seq<Message>,
                           groups: seq<seq<Message>>, slots: seq<seq<nat>>, positions: map<string, nat>) {
    Tracks(messages, TurnKeys(messages), from, i, out, groups, slots, positions)
  }

  lemma OrderingStarts(messages: seq<Message>)
    ensures Ordering(messages, 0, 0, [], [], [], map[])
  {
    Started(messages, TurnKeys(messages));
  }

  lemma OrderingEnds(messages: seq<Message>, from: nat, out: seq<Message>,
                     groups: seq<seq<Message>>, slots: seq<seq<nat>>, positions: map<string, nat>)
    requires Ordering(messages, from, |messages|, out, groups, slots, positions)
    ensures out + Flatten(groups) == InTurnOrder(messages)
  {
    Flushed(messages, TurnKeys(messages), from, |messages|, out, groups, slots, positions);
  }

  lemma OrderingAtBarrier(messages: seq<Message>, from: nat, i: nat, out: seq<Message>,
                          groups: seq<seq<Message>>, slots: seq<seq<nat>>, positions: map<string, nat>)
    requires Ordering(messages, from, i, out, groups, slots, positions) && i < |messages|
    requires TurnKey(messages[i]).Barrier?
    ensures Ordering(messages, i + 1, i + 1, out + Flatten(groups) + [messages[i]], [], [], map[])
  {
    AtBarrier(messages, TurnKeys(messages), from, i, out, groups, slots, positions);
  }

  lemma OrderingAtKnownTurn(messages: seq<Message>, from: nat, i: nat, out: seq<Message>, groups: seq<seq<Message>>,
                            slots: seq<seq<nat>>, positions: map<string, nat>, turn: string)
    returns (wider: seq<seq<nat>>)
    requires Ordering(messages, from, i, out, groups, slots, positions) && i < |messages|
    requires TurnKey(messages[i]) == Group(turn) && turn in positions
    ensures positions[turn] < |groups|
    ensures var g := positions[turn];
            Ordering(messages, from, i + 1, out, groups[g := groups[g] + [messages[i]]], wider, positions)
  {
    wider := AtKnown(messages, TurnKeys(messages), from, i, out, groups, slots, positions, turn);
  }

  lemma OrderingAtNewTurn(messages: seq<Message>, from: nat, i: nat, out: seq<Message>, groups: seq<seq<Message>>,
                          slots: seq<seq<nat>>, positions: map<string, nat>, turn: string)
    returns (wider: seq<seq<nat>>)
    requires Ordering(messages, from, i, out, groups, slots, positions) && i < |messages|
    requires TurnKey(messages[i]) == Group(turn) && turn !in positions
    ensures Ordering(messages, from, i + 1, out, groups + [[messages[i]]], wider, positions[turn := |groups|])
  {
    wider := AtNew(messages, TurnKeys(messages), from, i, out, groups, slots, positions);
  }

  method HistoryInTurnOrder(messages: seq<Message>) returns (out: seq<Message>)
    ensures out == InTurnOrder(messages)
  {
    hide Ordering, InTurnOrder, Flatten;
    out := [];
    var groups: seq<seq<Message>> := [];
    var positions: map<string, nat> := map[];
    ghost var from: nat, slots: seq<seq<nat>> := 0, [];
    OrderingStarts(messages);
    for i := 0 to |messages|
      invariant Ordering(messages, from, i, out, groups, slots, positions)
    {
      var message := messages[i];
      if message.role.Summary? || message.turnId == "" {
        OrderingAtBarrier(messages, from, i, out, groups, slots, positions);
        out := Flush(out, groups);
        out := out + [message];
        groups, positions := [], map[];
        from, slots := i + 1, [];
        continue;
      }
      if message.turnId !in positions {
        slots := OrderingAtNewTurn(messages, from, i, out, groups, slots, positions, message.turnId);
        positions := positions[message.turnId := |groups|];
        groups := groups + [[message]];
      } else {
        slots := OrderingAtKnownTurn(messages, from, i, out, groups, slots, positions, message.turnId);
        var position := positions[message.turnId];
        groups := groups[position := groups[position] + [message]];
      }
    }
    OrderingEnds(messages, from, out, groups, slots, positions);
    out := Flush(out, groups);
  }

  // ----- what the order promises

  /** Reordering is a permutation of the messages. */
  lemma KeepsMessages(messages: seq<Message>)
    ensures multiset(InTurnOrder(messages)) == multiset(messages)
  {
    KeepsElements(messages, TurnKeys(messages), |messages|);
    assert messages[..|messages|] == messages;
  }

  /** A summary, and a message without a turn, keep their index. */
  lemma BarriersKeepPlace(messages: seq<Message>, i: nat)
    requires i < |messages| && (messages[i].role.Summary? || messages[i].turnId == "")
    ensures InTurnOrder(messages)[i] == messages[i]
  {
    BarrierStays(TurnKeys(messages), |messages|, i);
  }

  /** A permutation that keeps the order inside each turn, keeps each turn together
      between barriers, and orders turns by first occurrence is the one computed. */
  lemma OnlyTurnOrder(messages: seq<Message>, p: seq<nat>)
    requires Gathers(TurnKeys(messages), |messages|, p)
    ensures Pick(messages, p) == InTurnOrder(messages)
  {
    GathersIsRegrouping(TurnKeys(messages), |messages|, p);
  }

  /** The history is already in turn order. */
  ghost predicate TurnOrdered(messages: seq<Message>) {
    Regroup(TurnKeys(messages), |messages|) == Indices(|messages|)
  }

  lemma PickIndices<T>(xs: seq<T>)
    ensures Pick(xs, Indices(|xs|)) == xs
  {
  }

  lemma OrderIsTurnOrdered(messages: seq<Message>)
    ensures TurnOrdered(InTurnOrder(messages))
  {
    var keys := TurnKeys(messages);
    var p := Regroup(keys, |keys|);
    assert TurnKeys(InTurnOrder(messages)) == Pick(keys, p);
    Idempotent(keys);
  }

  /** Ordering an ordered history changes nothing. */
  lemma OrderIsIdempotent(messages: seq<Message>)
    ensures InTurnOrder(InTurnOrder(messages)) == InTurnOrder(messages)
  {
    OrderIsTurnOrdered(messages);
    PickIndices(InTurnOrder(messages));
  }

  /** In an ordered history, two messages of one turn with no barrier between them have
      only that turn between them. */
  lemma TurnIsTogether(messages: seq<Message>, a: nat, m: nat, b: nat)
    requires TurnOrdered(messages) && a <= m <= b < |messages|
    requires messages[a].turnId == messages[b].turnId != ""
    requires forall i :: a <= i <= b ==> !messages[i].role.Summary? && messages[i].turnId != ""
    ensures messages[m].turnId == messages[a].turnId
  {
    var keys := TurnKeys(messages);
    if a < b {
      assert Joins(keys, a, b);
      FirstOfJoined(keys, a, b);
      Contiguous(keys, |keys|, a, m, b);
      FirstJoins(keys, a);
      FirstJoins(keys, m);
    }
  }
}
