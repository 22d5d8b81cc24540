/** A session over its whole life: inputs begin turns, running turns speak, receipts are
    recorded at any time, results of other sessions are collected, histories are compacted,
    also inside a running turn, and watermarks for cooling are committed. */
module Sessions {

  import opened Results
  import opened Messages
  import opened HistoryOrder
  import opened Cooling
  import opened Compaction
  import opened SkillReferences

  datatype Session = Session(
    all: seq<Message>,         // everything ever stored, in order
    tails: Tails,              // what the compaction summaries list
    running: Option<string>,   // the turn that is running
    cooling: Watermark)        // the committed watermark

  const START := Session([], map[], None, NONE)
  const NONE := Watermark("", "")

  datatype Event =
    | Begin(m: Message)
    | Steer(m: Message)
    | Output(m: Message)
    | Collect(m: Message)
    | Notify(m: Message)
    | Finish
    | Compact(m: Message, keep: nat)
    | Cool(keep: nat)

  /** What is effective of the history. */
  function Shown(s: Session): seq<Message> {
    Effective(s.all, s.tails)
  }

  predicate Plain(m: Message) {
    forall j :: 0 <= j < |m.parts| ==> !m.parts[j].kind.ToolUse? && !m.parts[j].kind.ToolResult?
  }

  predicate FreshId(s: Session, m: Message) {
    m.id != "" && m.id !in Ids(s.all)
  }

  predicate FreshTurn(s: Session, turn: string) {
    turn != "" && forall i :: 0 <= i < |s.all| ==> s.all[i].turnId != turn
  }

  /** A tool result comes after its call, in the same message or earlier in its turn. */
  predicate CallBefore(all: seq<Message>, i: nat, j: nat)
    requires i < |all| && j < |all[i].parts|
  {
    || (exists y :: 0 <= y < j && IsCall(all[i].parts[y], all[i].parts[j].callId))
    || (exists x, y :: 0 <= x < i && 0 <= y < |all[x].parts| && Speaks(all[x]) && all[x].turnId == all[i].turnId
          && IsCall(all[x].parts[y], all[i].parts[j].callId))
  }

  predicate IsCall(p: Part, callId: string) {
    p.kind.ToolUse? && p.callId == callId
  }

  predicate Answered(all: seq<Message>, i: nat) {
    i < |all| ==> forall j :: 0 <= j < |all[i].parts| && all[i].parts[j].kind.ToolResult? ==> CallBefore(all, i, j)
  }

  /** There is a receipt with this id. */
  predicate Receipt(s: Session, id: string) {
    exists i :: 0 <= i < |s.all| && s.all[i].id == id && WidgetNotification(s.all[i]).Some?
  }

  /** One turn runs at a time; a result follows its call; a widget action answers a receipt
      that is recorded; a compaction replaces something. */
  ghost predicate Enabled(s: Session, e: Event) {
    match e
    case Begin(m) =>
      && s.running.None? && FreshId(s, m) && FreshTurn(s, m.turnId) && Plain(m)
      && m.turnIndex == 0 && (m.role.User? || m.role.System?) && WidgetNotification(m).None?
      && (WidgetActionSource(m) != "" ==> Receipt(s, WidgetActionSource(m)))
    case Steer(m) =>
      && s.running == Some(m.turnId) && FreshId(s, m) && Plain(m) && m.role.User? && m.turnIndex > 0
      && WidgetNotification(m).None? && WidgetActionSource(m) == ""
    case Output(m) => s.running == Some(m.turnId) && FreshId(s, m) && Speaks(m) && Answered(s.all + [m], |s.all|)
    case Collect(m) => s.running.Some? && FreshId(s, m) && Plain(m) && m.role.System? && m.turnId == ""
    case Notify(m) =>
      && FreshId(s, m) && FreshTurn(s, m.turnId) && Plain(m)
      && WidgetNotification(m).Some? && WidgetActionSource(m) == ""
    case Finish => s.running.Some?
    case Compact(m, keep) =>
      && FreshId(s, m) && Plain(m) && m.role.Summary?
      && (if s.running.Some? then m.turnId == s.running.value else FreshTurn(s, m.turnId))
      && Cold(Shown(s), keep, s.running) != []
    case Cool(_) => s.running.Some?
  }

  function Stored(s: Session, m: Message): Session {
    s.(all := s.all + [m])
  }

  ghost function Step(s: Session, e: Event): Session {
    match e
    case Begin(m) => Stored(s, m).(running := Some(m.turnId))
    case Steer(m) => Stored(s, m)
    case Output(m) => Stored(s, m)
    case Collect(m) => Stored(s, m)
    case Notify(m) => Stored(s, m)
    case Finish => s.(running := None)
    case Compact(m, keep) =>
      Stored(s, m).(tails := s.tails[m.id := IdList(Tail(Shown(s), keep, s.running))], cooling := NONE)
    case Cool(keep) =>
      if s.running.None? then s
      else
        var next := Candidate(InTurnOrder(Shown(s)), s.running.value, keep);
        if next.throughTurnId == "" then s else s.(cooling := next)
  }

  ghost predicate CanRun(s: Session, events: seq<Event>)
    decreases |events|
  {
    events == [] || (Enabled(s, events[0]) && CanRun(Step(s, events[0]), events[1..]))
  }

  ghost function Run(s: Session, events: seq<Event>): Session
    decreases |events|
  {
    if events == [] then s else Run(Step(s, events[0]), events[1..])
  }

  // ----- what a step does to what is effective

  /** The summaries that count are stored, and list stored messages. */
  ghost predicate TailsKnown(all: seq<Message>, tails: Tails) {
    forall id :: id in tails ==> id in Ids(all) && forall i :: 0 <= i < |tails[id]| ==> tails[id][i] in Ids(all)
  }

  lemma IdsAppend(a: seq<Message>, b: seq<Message>)
    ensures Ids(a + b) == Ids(a) + Ids(b)
  {
    forall id | id in Ids(a) + Ids(b) ensures id in Ids(a + b) {
      if id in Ids(a) {
        var i :| 0 <= i < |a| && a[i].id == id;
        assert (a + b)[i] == a[i];
      } else {
        var i :| 0 <= i < |b| && b[i].id == id;
        assert (a + b)[|a| + i] == b[i];
      }
    }
    forall id | id in Ids(a + b) ensures id in Ids(a) + Ids(b) {
      var i :| 0 <= i < |a + b| && (a + b)[i].id == id;
      if i < |a| {
        assert a[i] == (a + b)[i];
      } else {
        assert b[i - |a|] == (a + b)[i];
      }
    }
  }

  lemma {:induction false} CompactionStays(all: seq<Message>, tails: Tails, m: Message, n: nat)
    requires n <= |all|
    ensures LastCompaction(all + [m], tails, n) == LastCompaction(all, tails, n)
  {
    if n > 0 {
      CompactionStays(all, tails, m, n - 1);
    }
  }

  /** A compaction before is still the last one with a new summary listed after it. */
  lemma {:induction false} CompactionKnown(all: seq<Message>, tails: Tails, id: string, ids: seq<string>, n: nat)
    requires n <= |all| && id !in Ids(all)
    ensures LastCompaction(all, tails[id := ids], n) == LastCompaction(all, tails, n)
  {
    if n > 0 {
      CompactionKnown(all, tails, id, ids, n - 1);
      assert all[n - 1].id in Ids(all);
    }
  }

  lemma {:induction false} FoundStays(all: seq<Message>, m: Message, ids: seq<string>)
    requires m.id !in ids
    ensures Found(all + [m], ids) == Found(all, ids)
  {
    if ids != [] {
      var n := |ids| - 1;
      assert ids[n] in ids;
      FoundStays(all, m, ids[..n]);
      assert (all + [m])[..|all|] == all;
    }
  }

  lemma {:induction false} AddAllIds(out: seq<Message>, ms: seq<Message>)
    ensures Ids(AddAll(out, ms)) == Ids(out) + Ids(ms)
  {
    if ms == [] {
    } else {
      var n := |ms| - 1;
      AddAllIds(out, ms[..n]);
      assert ms == ms[..n] + [ms[n]];
      IdsAppend(ms[..n], [ms[n]]);
      IdsOfOne(ms[n]);
      IdsMore(AddAll(out, ms[..n]), ms[n]);
    }
  }

  lemma {:induction false} FoundIds(all: seq<Message>, ids: seq<string>)
    ensures Ids(Found(all, ids)) <= Ids(all)
  {
    if ids != [] {
      var n := |ids| - 1;
      FoundIds(all, ids[..n]);
      var m := ByID(all, ids[n]);
      if m.Some? {
        ByIDIsThere(all, ids[n]);
        IdsMore(Found(all, ids[..n]), m.value);
      }
    }
  }

  lemma {:induction false} ByIDIsThere(all: seq<Message>, id: string)
    ensures ByID(all, id).Some? ==> ByID(all, id).value in all && ByID(all, id).value.id == id && id in Ids(all)
  {
    if all != [] {
      var n := |all| - 1;
      if all[n].id == id {
        assert all[n].id in Ids(all);
      } else {
        ByIDIsThere(all[..n], id);
        IdsAppend(all[..n], [all[n]]);
        assert all == all[..n] + [all[n]];
      }
    }
  }

  lemma ShownIds(all: seq<Message>, tails: Tails)
    ensures Ids(Effective(all, tails)) <= Ids(all)
  {
    var c := LastCompaction(all, tails, |all|);
    if c.Some? {
      var i, ids := c.value, tails[all[c.value].id];
      AddAllIds([all[i]], Found(all, ids));
      AddAllIds(AddAll([all[i]], Found(all, ids)), all[i + 1..]);
      FoundIds(all, ids);
      IdsOfOne(all[i]);
      assert all == all[..i + 1] + all[i + 1..];
      IdsAppend(all[..i + 1], all[i + 1..]);
      assert all[i].id in Ids(all);
    }
  }

  lemma AddAllMore(out: seq<Message>, ms: seq<Message>, m: Message)
    requires m.id !in Ids(AddAll(out, ms))
    ensures AddAll(out, ms + [m]) == AddAll(out, ms) + [m]
  {
    assert (ms + [m])[..|ms|] == ms;
  }

  /** What is stored is effective. */
  lemma StoringShows(all: seq<Message>, tails: Tails, m: Message)
    requires TailsKnown(all, tails) && m.id !in Ids(all)
    ensures LastCompaction(all + [m], tails, |all| + 1) == LastCompaction(all, tails, |all|)
    ensures Effective(all + [m], tails) == Effective(all, tails) + [m]
  {
    hide Ids, AddAll, Found;
    CompactionStays(all, tails, m, |all|);
    assert (all + [m])[|all|] == m;
    var c := LastCompaction(all, tails, |all|);
    if c.Some? {
      var i := c.value;
      var ids, rest := tails[all[i].id], all[i + 1..];
      assert m.id !in ids;
      FoundStays(all, m, ids);
      assert (all + [m])[i] == all[i] && (all + [m])[i + 1..] == rest + [m];
      ShownIds(all, tails);
      AddAllMore(AddAll([all[i]], Found(all, ids)), rest, m);
    }
  }

  lemma {:induction false} AllFound(all: seq<Message>, tail: seq<Message>)
    requires forall i :: 0 <= i < |tail| ==> ByID(all, tail[i].id) == Some(tail[i])
    ensures Found(all, IdList(tail)) == tail
  {
    if tail != [] {
      var n := |tail| - 1;
      AllFound(all, tail[..n]);
      assert IdList(tail)[..n] == IdList(tail[..n]);
    } else {
      assert IdList(tail) == [];
    }
  }

  lemma {:induction false} AllNew(out: seq<Message>, ms: seq<Message>)
    requires forall i :: 0 <= i < |ms| ==> ms[i].id !in Ids(out)
    requires forall i, j :: 0 <= i < j < |ms| ==> ms[i].id != ms[j].id
    ensures AddAll(out, ms) == out + ms
  {
    if ms != [] {
      var n := |ms| - 1;
      AllNew(out, ms[..n]);
      IdsAppend(out, ms[..n]);
      assert ms == ms[..n] + [ms[n]];
    }
  }

  /** After a compaction its summary and the listed tail are effective. */
  lemma CompactingShows(all: seq<Message>, tails: Tails, m: Message, tail: seq<Message>)
    requires m.id !in Ids(all)
    requires forall i :: 0 <= i < |tail| ==> ByID(all, tail[i].id) == Some(tail[i])
    requires forall i, j :: 0 <= i < j < |tail| ==> tail[i].id != tail[j].id
    ensures LastCompaction(all + [m], tails[m.id := IdList(tail)], |all| + 1) == Some(|all|)
    ensures Effective(all + [m], tails[m.id := IdList(tail)]) == [m] + tail
  {
    var more := all + [m];
    forall i | 0 <= i < |tail| ensures tail[i].id in Ids(all) && ByID(more, tail[i].id) == Some(tail[i]) {
      ByIDIsThere(all, tail[i].id);
      assert more[..|all|] == all;
    }
    AllFound(more, tail);
    IdsOfOne(m);
    AllNew([m], tail);
    assert more[|all| + 1..] == [];
  }
}
