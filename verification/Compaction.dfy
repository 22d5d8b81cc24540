/** Compaction: which messages a summary replaces, which of them stay behind it, and what is
    effective of a stored history afterwards. */
module Compaction {

  import opened Results
  import opened Messages

  function IdList(ms: seq<Message>): (ids: seq<string>)
    ensures |ids| == |ms| && forall i :: 0 <= i < |ms| ==> ids[i] == ms[i].id
  {
    seq(|ms|, i requires 0 <= i < |ms| => ms[i].id)
  }

  // ----- the recent input turns

  /** Where the `keep`-th input boundary from the end of the first `n` messages is. */
  function CutAt(ms: seq<Message>, keep: nat, n: nat): (i: Option<nat>)
    requires keep > 0 && n <= |ms|
    ensures i.Some? ==> i.value < n && IsInputTurnBoundary(ms[i.value])
  {
    if n == 0 then None
    else if !IsInputTurnBoundary(ms[n - 1]) then CutAt(ms, keep, n - 1)
    else if keep == 1 then Some(n - 1)
    else CutAt(ms, keep - 1, n - 1)
  }

  /** Where the messages that stay begin: nothing stays when no turn is to be kept, and all
      of them when there are not that many. */
  function TailStart(ms: seq<Message>, keep: nat): (i: nat)
    ensures i <= |ms|
  {
    if keep == 0 then |ms|
    else
      match CutAt(ms, keep, |ms|)
      case None => 0
      case Some(i) => i
  }

  method SplitRecentInputTail(ms: seq<Message>, keep: nat) returns (cold: seq<Message>, tail: seq<Message>)
    ensures cold == ms[..TailStart(ms, keep)] && tail == ms[TailStart(ms, keep)..]
  {
    hide IsInputTurnBoundary;
    if keep == 0 || |ms| == 0 {
      return ms, [];
    }
    var seen, i: nat := 0, |ms|;
    while i > 0
      invariant i <= |ms| && seen < keep
      invariant CutAt(ms, keep, |ms|) == CutAt(ms, keep - seen, i)
    {
      i := i - 1;
      if IsInputTurnBoundary(ms[i]) {
        seen := seen + 1;
        if seen == keep {
          return ms[..i], ms[i..];
        }
      }
    }
    return [], ms;
  }

  // ----- a running turn

  predicate Calls(m: Message) {
    exists j :: 0 <= j < |m.parts| && m.parts[j].kind.ToolUse?
  }

  /** The last message of the turn, among the first `n`, that calls a tool. */
  function LastCall(ms: seq<Message>, turn: string, n: nat): (i: nat)
    requires n <= |ms|
    ensures i < n || i == |ms|
    ensures i < n ==> ms[i].turnId == turn && Calls(ms[i])
  {
    if n == 0 then |ms|
    else if ms[n - 1].turnId == turn && Calls(ms[n - 1]) then n - 1
    else LastCall(ms, turn, n - 1)
  }

  predicate Answers(m: Message, turn: string) {
    m.turnId == turn && m.role.Assistant?
  }

  /** Back over the answers of the turn right before. */
  function Back(ms: seq<Message>, turn: string, start: nat): (i: nat)
    requires start <= |ms|
    ensures i <= start && forall j :: i <= j < start ==> Answers(ms[j], turn)
  {
    if start > 0 && Answers(ms[start - 1], turn) then Back(ms, turn, start - 1) else start
  }

  predicate Attachment(m: Message) {
    |m.parts| == 1 && m.parts[0].kind.Media?
  }

  /** On past attachments, which belong to the exchange before. */
  function Past(ms: seq<Message>, start: nat): (i: nat)
    requires start <= |ms|
    ensures start <= i <= |ms|
    decreases |ms| - start
  {
    if start < |ms| && Attachment(ms[start]) then Past(ms, start + 1) else start
  }

  /** Where the latest exchange of the turn begins; the end when it has called nothing. */
  function ExchangeStart(ms: seq<Message>, turn: string): (i: nat)
    ensures i <= |ms|
  {
    var call := LastCall(ms, turn, |ms|);
    if call == |ms| then call else Past(ms, Back(ms, turn, call))
  }

  predicate Protected(turn: string, start: nat, m: Message, i: nat) {
    m.turnId == turn && (m.role.User? || m.role.System? || i >= start)
  }

  /** Of the first `n` messages, those of the turn that are inputs or of its latest exchange,
      and the others. */
  function Kept(ms: seq<Message>, turn: string, start: nat, n: nat): seq<Message>
    requires n <= |ms|
  {
    if n == 0 then []
    else Kept(ms, turn, start, n - 1) + if Protected(turn, start, ms[n - 1], n - 1) then [ms[n - 1]] else []
  }

  function Dropped(ms: seq<Message>, turn: string, start: nat, n: nat): seq<Message>
    requires n <= |ms|
  {
    if n == 0 then []
    else Dropped(ms, turn, start, n - 1) + if Protected(turn, start, ms[n - 1], n - 1) then [] else [ms[n - 1]]
  }

  /** What a compaction leaves behind its summary, and what it replaces. */
  function Tail(ms: seq<Message>, keep: nat, running: Option<string>): seq<Message> {
    if keep > 0 || running.None? then ms[TailStart(ms, keep)..]
    else Kept(ms, running.value, ExchangeStart(ms, running.value), |ms|)
  }

  function Cold(ms: seq<Message>, keep: nat, running: Option<string>): seq<Message> {
    if keep > 0 || running.None? then ms[..TailStart(ms, keep)]
    else Dropped(ms, running.value, ExchangeStart(ms, running.value), |ms|)
  }

  method FindExchange(ms: seq<Message>, turn: string) returns (start: nat)
    ensures start == ExchangeStart(ms, turn)
  {
    hide Calls, Attachment, Answers;
    start := |ms|;
    var i: nat := |ms|;
    while i > 0
      invariant i <= |ms| == start && LastCall(ms, turn, |ms|) == LastCall(ms, turn, i)
    {
      i := i - 1;
      if ms[i].turnId != turn {
        continue;
      }
      if Calls(ms[i]) {
        start := i;
        break;
      }
    }
    assert start == LastCall(ms, turn, |ms|);
    if start < |ms| {
      ghost var call := start;
      while start > 0 && Answers(ms[start - 1], turn)
        invariant start <= |ms| && Back(ms, turn, call) == Back(ms, turn, start)
      {
        start := start - 1;
      }
      ghost var back := start;
      while start < |ms| && Attachment(ms[start])
        invariant start <= |ms| && Past(ms, back) == Past(ms, start)
      {
        start := start + 1;
      }
    }
  }

  method CompactPartition(ms: seq<Message>, keep: nat, running: Option<string>)
    returns (cold: seq<Message>, tail: seq<Message>)
    ensures cold == Cold(ms, keep, running) && tail == Tail(ms, keep, running)
  {
    hide ExchangeStart, Protected;
    if keep > 0 || running.None? {
      cold, tail := SplitRecentInputTail(ms, keep);
      return;
    }
    var start := FindExchange(ms, running.value);
    cold, tail := [], [];
    for i := 0 to |ms|
      invariant cold == Dropped(ms, running.value, start, i) && tail == Kept(ms, running.value, start, i)
    {
      if Protected(running.value, start, ms[i], i) {
        tail := tail + [ms[i]];
      } else {
        cold := cold + [ms[i]];
      }
    }
  }

  // ----- what is effective

  /** The tail that each compaction summary lists in its metadata, by ids. */
  type Tails = map<string, seq<string>>

  /** The last compaction summary among the first `n` messages. */
  function LastCompaction(all: seq<Message>, tails: Tails, n: nat): (i: Option<nat>)
    requires n <= |all|
    ensures i.Some? ==> i.value < n && all[i.value].id in tails
  {
    if n == 0 then None
    else if all[n - 1].id in tails then Some(n - 1)
    else LastCompaction(all, tails, n - 1)
  }

  /** The last message with an id. */
  function ByID(all: seq<Message>, id: string): Option<Message> {
    if all == [] then None
    else if all[|all| - 1].id == id then Some(all[|all| - 1])
    else ByID(all[..|all| - 1], id)
  }

  /** The messages that have these ids, as far as there are any. */
  function Found(all: seq<Message>, ids: seq<string>): seq<Message> {
    if ids == [] then []
    else
      var m := ByID(all, ids[|ids| - 1]);
      Found(all, ids[..|ids| - 1]) + if m.Some? then [m.value] else []
  }

  function AddNew(out: seq<Message>, m: Message): seq<Message> {
    if m.id in Ids(out) then out else out + [m]
  }

  function AddAll(out: seq<Message>, ms: seq<Message>): seq<Message> {
    if ms == [] then out else AddNew(AddAll(out, ms[..|ms| - 1]), ms[|ms| - 1])
  }

  /** The last compaction summary, the tail it lists, and what was stored after it. */
  function Effective(all: seq<Message>, tails: Tails): seq<Message> {
    match LastCompaction(all, tails, |all|)
    case None => all
    case Some(i) => AddAll(AddAll([all[i]], Found(all, tails[all[i].id])), all[i + 1..])
  }

  method EffectiveMessages(all: seq<Message>, tails: Tails) returns (out: seq<Message>)
    ensures out == Effective(all, tails)
  {
    hide AddNew, ByID;
    var compactIndex := -1;
    for i := 0 to |all|
      invariant LastCompaction(all, tails, i) == if compactIndex < 0 then None else Some(compactIndex)
      invariant -1 <= compactIndex < i
    {
      if all[i].id in tails {
        compactIndex := i;
      }
    }
    if compactIndex < 0 {
      return all;
    }
    var byID := IndexByID(all);
    var first := all[compactIndex];
    var ids, rest := tails[first.id], all[compactIndex + 1..];
    out := [first];
    var seen := {first.id};
    IdsOfOne(first);
    assert ids[..0] == [];
    for i := 0 to |ids|
      invariant out == AddAll([first], Found(all, ids[..i])) && seen == Ids(out)
    {
      assert ids[..i + 1][..i] == ids[..i];
      FoundMore(all, ids, i, [first]);
      if ids[i] in byID {
        out, seen := AppendMessage(out, seen, byID[ids[i]]);
      }
    }
    assert ids[..|ids|] == ids;
    ghost var tail := out;
    for i := 0 to |rest|
      invariant out == AddAll(tail, rest[..i]) && seen == Ids(out)
    {
      assert rest[..i + 1][..i] == rest[..i];
      out, seen := AppendMessage(out, seen, rest[i]);
    }
    assert rest[..|rest|] == rest;
  }

  lemma FoundMore(all: seq<Message>, ids: seq<string>, i: nat, out: seq<Message>)
    requires i < |ids|
    ensures var m := ByID(all, ids[i]);
            AddAll(out, Found(all, ids[..i + 1])) ==
            if m.Some? then AddNew(AddAll(out, Found(all, ids[..i])), m.value) else AddAll(out, Found(all, ids[..i]))
  {
    hide AddNew, ByID;
    assert ids[..i + 1][..i] == ids[..i];
    var found, m := Found(all, ids[..i]), ByID(all, ids[i]);
    if m.Some? {
      assert (found + [m.value])[..|found|] == found;
    } else {
      assert found + [] == found;
    }
  }

  method AppendMessage(out: seq<Message>, seen: set<string>, m: Message) returns (more: seq<Message>, also: set<string>)
    requires seen == Ids(out)
    ensures more == AddNew(out, m) && also == Ids(more)
  {
    if m.id in seen {
      return out, seen;
    }
    more, also := out + [m], seen + {m.id};
    IdsMore(out, m);
  }

  lemma IdsOfOne(m: Message)
    ensures Ids([m]) == {m.id}
  {
    assert [m][0] == m;
  }

  lemma IdsMore(out: seq<Message>, m: Message)
    ensures Ids(out + [m]) == Ids(out) + {m.id}
  {
    var more := out + [m];
    assert forall i :: 0 <= i < |out| ==> more[i] == out[i];
    assert more[|out|] == m;
    forall id | id in Ids(out) + {m.id} ensures id in Ids(more) {
      if id in Ids(out) {
        var i :| 0 <= i < |out| && out[i].id == id;
        assert more[i].id == id;
      }
    }
  }

  method IndexByID(all: seq<Message>) returns (byID: map<string, Message>)
    ensures forall id :: ByID(all, id) == if id in byID then Some(byID[id]) else None
  {
    byID := map[];
    for i := 0 to |all|
      invariant forall id :: ByID(all[..i], id) == if id in byID then Some(byID[id]) else None
    {
      assert all[..i + 1][..i] == all[..i];
      byID := byID[all[i].id := all[i]];
    }
    assert all[..|all|] == all;
  }
}
