/** Cooling: choosing the turn up to which old tool results may be shortened, and the
    projection that shortens them. */
module Cooling {
  import opened Results
  import opened Messages
  import opened HistoryOrder

  /** The persisted watermark: the last cold turn, and the summary it was chosen under. */
  datatype Watermark = Watermark(throughTurnId: string, summaryId: string)

  // ----- choosing the watermark

  /** The id of the last summary among the first `n` messages. */
  function LastSummary(ms: seq<Message>, n: nat): string
    requires n <= |ms|
  {
    if n == 0 then "" else if ms[n - 1].role.Summary? then ms[n - 1].id else LastSummary(ms, n - 1)
  }

  /** Where the input turns other than the current one begin, among the first `n`. */
  function InputTurns(ms: seq<Message>, current: string, n: nat): (turns: seq<nat>)
    requires n <= |ms|
    ensures forall k :: 0 <= k < |turns| ==> turns[k] < n
    ensures forall k :: 0 <= k < |turns| ==> IsInputTurnBoundary(ms[turns[k]]) && ms[turns[k]].turnId != current
    ensures forall k, l :: 0 <= k < l < |turns| ==> turns[k] < turns[l]
  {
    if n == 0 then []
    else if IsInputTurnBoundary(ms[n - 1]) && ms[n - 1].turnId != current then InputTurns(ms, current, n - 1) + [n - 1]
    else InputTurns(ms, current, n - 1)
  }

  /** The first input boundary at or after `from`; the end when there is none. */
  function NextInput(ms: seq<Message>, from: nat): (i: nat)
    requires from <= |ms|
    ensures from <= i <= |ms|
    ensures i < |ms| ==> IsInputTurnBoundary(ms[i])
    ensures forall j :: from <= j < i ==> !IsInputTurnBoundary(ms[j])
    decreases |ms| - from
  {
    if from == |ms| || IsInputTurnBoundary(ms[from]) then from else NextInput(ms, from + 1)
  }

  /** The messages that actions in `ms[from..end]` answer. */
  function Sources(ms: seq<Message>, from: nat, end: nat): set<string>
    requires from <= end <= |ms|
  {
    if from == end then {}
    else
      var source := WidgetActionSource(ms[end - 1]);
      Sources(ms, from, end - 1) + if source != "" then {source} else {}
  }

  /** The first of `ms[from..end]` whose id is in `ids`; `end` when there is none. */
  function FirstAmong(ms: seq<Message>, ids: set<string>, from: nat, end: nat): (i: nat)
    requires from <= end <= |ms|
    ensures from <= i <= end
    ensures i < end ==> ms[i].id in ids
    ensures forall j :: from <= j < i ==> ms[j].id !in ids
    decreases end - from
  {
    if from == end || ms[from].id in ids then from else FirstAmong(ms, ids, from + 1, end)
  }

  /** The first input that stays hot. */
  function FirstHot(ms: seq<Message>, current: string, keep: nat): (i: nat)
    requires keep < |InputTurns(ms, current, |ms|)|
    ensures 0 < i <= |ms|
  {
    var turns := InputTurns(ms, current, |ms|);
    NextInput(ms, turns[|turns| - keep - 1] + 1)
  }

  /** Messages before the split may be cooled: everything before the first hot input,
      less what a hot action still refers to. */
  function Split(ms: seq<Message>, current: string, keep: nat): (i: nat)
    requires keep < |InputTurns(ms, current, |ms|)|
    ensures i <= FirstHot(ms, current, keep)
  {
    var hot := FirstHot(ms, current, keep);
    FirstAmong(ms, Sources(ms, hot, |ms|), 0, hot)
  }

  function Candidate(ms: seq<Message>, current: string, keep: nat): Watermark {
    var none := Watermark("", LastSummary(ms, |ms|));
    if |InputTurns(ms, current, |ms|)| <= keep then none
    else
      var split := Split(ms, current, keep);
      if split > 0 && !ms[split - 1].role.Summary? then none.(throughTurnId := ms[split - 1].turnId) else none
  }

  method ScanInputs(ms: seq<Message>, currentTurnId: string) returns (turns: seq<nat>, summaryId: string)
    ensures turns == InputTurns(ms, currentTurnId, |ms|) && summaryId == LastSummary(ms, |ms|)
  {
    turns, summaryId := [], "";
    for i := 0 to |ms|
      invariant summaryId == LastSummary(ms, i)
      invariant turns == InputTurns(ms, currentTurnId, i)
    {
      if ms[i].role.Summary? {
        summaryId := ms[i].id;
      }
      if IsInputTurnBoundary(ms[i]) && ms[i].turnId != currentTurnId {
        turns := turns + [i];
      }
    }
  }

  method Retreat(ms: seq<Message>, hot: nat) returns (split: nat)
    requires hot <= |ms|
    ensures split == FirstAmong(ms, Sources(ms, hot, |ms|), 0, hot)
  {
    var sources: set<string> := {};
    for i := hot to |ms|
      invariant sources == Sources(ms, hot, i)
    {
      var source := WidgetActionSource(ms[i]);
      if source != "" {
        sources := sources + {source};
      }
    }
    for i := 0 to hot
      invariant FirstAmong(ms, sources, i, hot) == FirstAmong(ms, sources, 0, hot)
    {
      if ms[i].id in sources {
        return i;
      }
    }
    split := hot;
  }

  /** `messages` are the effective ones; they are brought into turn order first. */
  method CoolingCandidate(messages: seq<Message>, currentTurnId: string, keepEnded: nat) returns (state: Watermark)
    ensures state == Candidate(InTurnOrder(messages), currentTurnId, keepEnded)
  {
    hide InputTurns, FirstAmong, Sources, LastSummary, IsInputTurnBoundary, InTurnOrder;
    var ms := HistoryInTurnOrder(messages);
    var turns, summaryId := ScanInputs(ms, currentTurnId);
    state := Watermark("", summaryId);
    if |turns| <= keepEnded {
      return;
    }
    var split := turns[|turns| - keepEnded - 1] + 1;
    while split < |ms| && !IsInputTurnBoundary(ms[split])
      invariant split <= |ms|
      invariant NextInput(ms, split) == FirstHot(ms, currentTurnId, keepEnded)
    {
      split := split + 1;
    }
    split := Retreat(ms, split);
    if split > 0 && !ms[split - 1].role.Summary? {
      state := state.(throughTurnId := ms[split - 1].turnId);
    }
  }

  // ----- the projection

  /** How a result and a notification look when cold.  The stub of a result depends on
      the tool, its outcome and content, the turn and the call; a notification too short
      to be worth a stub stays as it is. */
  datatype Stubs = Stubs(
    result: (string, bool, string, string, string) -> string,
    notice: Message -> Option<NoticeStub>)

  datatype NoticeStub = NoticeStub(parts: seq<Part>, notice: string)

  function ColdPart(stubs: Stubs, turnId: string, p: Part): Part {
    if !p.kind.ToolResult? then p
    else
      var content := stubs.result(p.name, p.ok, p.content, turnId, p.callId);
      if content == p.content then p else p.(content := content, modelOutput := None, mcpResult := None)
  }

  function ColdParts(stubs: Stubs, turnId: string, parts: seq<Part>): (r: seq<Part>)
    ensures |r| == |parts| && forall j :: 0 <= j < |r| ==> r[j] == ColdPart(stubs, turnId, parts[j])
  {
    seq(|parts|, j requires 0 <= j < |parts| => ColdPart(stubs, turnId, parts[j]))
  }

  function ColdMessage(stubs: Stubs, m: Message): Message {
    if WidgetNotification(m).Some? then
      match stubs.notice(m)
      case None => m
      case Some(stub) => m.(parts := stub.parts, notice := Some(stub.notice))
    else if m.role.Tool? || m.role.Assistant? then m.(parts := ColdParts(stubs, m.turnId, m.parts))
    else m
  }

  /** A message that counts towards the watermark. */
  predicate Counts(m: Message) {
    m.turnId != "" && !m.role.Summary?
  }

  /** The first message of the watermark's turn; the end when it is not there. */
  function Reach(ms: seq<Message>, through: string, from: nat): (i: nat)
    requires from <= |ms|
    ensures from <= i <= |ms|
    ensures i < |ms| ==> Counts(ms[i]) && ms[i].turnId == through
    ensures forall j :: from <= j < i ==> !(Counts(ms[j]) && ms[j].turnId == through)
    decreases |ms| - from
  {
    if from == |ms| || (Counts(ms[from]) && ms[from].turnId == through) then from else Reach(ms, through, from + 1)
  }

  function TurnsOf(ms: seq<Message>, n: nat): set<string>
    requires n <= |ms|
  {
    set i | 0 <= i < n && Counts(ms[i]) :: ms[i].turnId
  }

  /** The turns a watermark cools in this history: none when it is empty, when its turn
      is gone, or when it was chosen under another summary. */
  function ColdTurns(ms: seq<Message>, state: Watermark): set<string> {
    var reach := Reach(ms, state.throughTurnId, 0);
    if state.throughTurnId == "" || reach == |ms| || LastSummary(ms, |ms|) != state.summaryId then {}
    else TurnsOf(ms, reach + 1)
  }

  function CooledOne(stubs: Stubs, cold: set<string>, m: Message): Message {
    if m.turnId in cold then ColdMessage(stubs, m) else m
  }

  function Cooled(stubs: Stubs, ms: seq<Message>, state: Watermark): (out: seq<Message>)
    ensures |out| == |ms|
  {
    var cold := ColdTurns(ms, state);
    seq(|ms|, i requires 0 <= i < |ms| => CooledOne(stubs, cold, ms[i]))
  }

  method CoolParts(stubs: Stubs, turnId: string, original: seq<Part>) returns (parts: seq<Part>)
    ensures parts == ColdParts(stubs, turnId, original)
  {
    parts := original;
    for j := 0 to |parts|
      invariant |parts| == |original|
      invariant forall k :: 0 <= k < j ==> parts[k] == ColdPart(stubs, turnId, original[k])
      invariant forall k :: j <= k < |parts| ==> parts[k] == original[k]
    {
      var part := parts[j];
      if part.kind.ToolResult? {
        var content := stubs.result(part.name, part.ok, part.content, turnId, part.callId);
        parts := parts[j := part.(content := content)];
        if content != part.content {
          parts := parts[j := parts[j].(modelOutput := None, mcpResult := None)];
        }
      }
    }
  }

  method CooledMessages(stubs: Stubs, messages: seq<Message>, state: Watermark) returns (out: seq<Message>)
    ensures out == Cooled(stubs, messages, state)
  {
    hide ColdParts, WidgetNotification;
    if state.throughTurnId == "" {
      return messages;
    }
    var summaryId := "";
    var coldTurns: set<string> := {};
    var found := false;
    ghost var reach := Reach(messages, state.throughTurnId, 0);
    for i := 0 to |messages|
      invariant summaryId == LastSummary(messages, i)
      invariant found <==> reach < i
      invariant coldTurns == TurnsOf(messages, if found then reach + 1 else i)
    {
      var m := messages[i];
      if m.role.Summary? {
        summaryId := m.id;
      }
      if !found && m.turnId != "" && !m.role.Summary? {
        coldTurns := coldTurns + {m.turnId};
        found := m.turnId == state.throughTurnId;
      }
    }
    if !found || summaryId != state.summaryId {
      return messages;
    }
    out := messages;
    for i := 0 to |messages|
      invariant |out| == |messages|
      invariant forall k :: 0 <= k < i ==> out[k] == CooledOne(stubs, coldTurns, messages[k])
      invariant forall k :: i <= k < |messages| ==> out[k] == messages[k]
    {
      var m := messages[i];
      if m.turnId !in coldTurns {
        continue;
      }
      if WidgetNotification(m).Some? {
        var stub := stubs.notice(m);
        if stub.Some? {
          out := out[i := m.(parts := stub.value.parts, notice := Some(stub.value.notice))];
        }
        continue;
      }
      if !m.role.Tool? && !m.role.Assistant? {
        continue;
      }
      var parts := CoolParts(stubs, m.turnId, m.parts);
      out := out[i := m.(parts := parts)];
    }
  }
}
