/** Skill references in a model's history: the projection that carries the latest reference
    of every skill past a compaction, and the resolution that leaves one of each current. */
module SkillReferences {

  import opened Results
  import opened Messages

  datatype SkillKind = PluginSkill | GlobalSkill | OtherSkill(name: string)

  datatype Ref = Ref(kind: SkillKind, pluginID: string, skillID: string)

  /** What a reference is latest of: the plugin, or the skill itself. */
  datatype Key = Key(kind: SkillKind, id: string)

  function KeyOf(r: Ref): Key {
    Key(r.kind, if r.kind.PluginSkill? then r.pluginID else r.skillID)
  }

  datatype Status = Superseded | Current | Unloaded | CapabilityRequired | Unavailable

  /** How tool results are read and rewritten: the reference a result holds, the content
      reduced to that reference, and the content with a status and body filled in. */
  datatype Reader = Reader(
    refOf: (string, bool, string) -> Option<Ref>,
    only: (string, bool, string) -> string,
    payload: (string, Ref, Status, string) -> string,
    status: string -> Status,
    body: string -> string)

  /** Reducing a result keeps its key, and so does filling it in; a status and a body that were
      filled in can be read off. */
  ghost predicate Faithful(rd: Reader) {
    && (forall name, ok, content :: rd.refOf(name, ok, content).Some? ==>
          var reduced := rd.refOf(name, ok, rd.only(name, ok, content));
          reduced.Some? && KeyOf(reduced.value) == KeyOf(rd.refOf(name, ok, content).value))
    && (forall content, ref, status, body ::
          var filled := rd.payload(content, ref, status, body); rd.status(filled) == status && rd.body(filled) == body)
    && (forall name, ok, content, status, body :: rd.refOf(name, ok, content).Some? ==>
          var ref := rd.refOf(name, ok, content).value;
          var filled := rd.refOf(name, ok, rd.payload(content, ref, status, body));
          filled.Some? && KeyOf(filled.value) == KeyOf(ref))
  }

  function RefIn(rd: Reader, p: Part): Option<Ref> {
    if p.kind.ToolResult? then rd.refOf(p.name, p.ok, p.content) else None
  }

  predicate HasKey(rd: Reader, p: Part, k: Key) {
    var r := RefIn(rd, p);
    r.Some? && KeyOf(r.value) == k
  }

  /** Skills of a plugin that is not loaded are not carried on. */
  predicate Eligible(k: Key, loaded: set<string>) {
    k.kind.PluginSkill? ==> k.id in loaded
  }

  predicate Speaks(m: Message) {
    m.role.Assistant? || m.role.Tool?
  }

  function CallKey(m: Message, p: Part): string {
    m.turnId + ":" + p.callId
  }

  // ----- the scan of the whole history

  datatype Item = Item(message: Message, part: Part, call: Option<Part>)

  datatype Scan = Scan(latest: map<Key, Item>, calls: map<string, Part>)

  function ScanPart(rd: Reader, loaded: set<string>, s: Scan, m: Message, p: Part): Scan {
    var calls := if p.kind.ToolUse? then s.calls[CallKey(m, p) := p] else s.calls;
    var r := RefIn(rd, p);
    if r.Some? && Eligible(KeyOf(r.value), loaded) then
      var call := if CallKey(m, p) in calls then Some(calls[CallKey(m, p)]) else None;
      Scan(s.latest[KeyOf(r.value) := Item(m, p, call)], calls)
    else Scan(s.latest, calls)
  }

  function ScanParts(rd: Reader, loaded: set<string>, s: Scan, m: Message, n: nat): Scan
    requires n <= |m.parts|
  {
    if n == 0 then s else ScanPart(rd, loaded, ScanParts(rd, loaded, s, m, n - 1), m, m.parts[n - 1])
  }

  function ScanMessages(rd: Reader, loaded: set<string>, ms: seq<Message>): Scan {
    if ms == [] then Scan(map[], map[])
    else
      var s, m := ScanMessages(rd, loaded, ms[..|ms| - 1]), ms[|ms| - 1];
      if Speaks(m) then ScanParts(rd, loaded, s, m, |m.parts|) else s
  }

  // ----- what is carried on

  /** A hidden result is carried when it is its key's latest and has a call. */
  predicate Carries(rd: Reader, latest: map<Key, Item>, m: Message, p: Part) {
    var r := RefIn(rd, p);
    && r.Some? && KeyOf(r.value) in latest
    && var item := latest[KeyOf(r.value)];
       item.message.id == m.id && item.part.callId == p.callId && item.call.Some?
  }

  /** The call and the reference alone, in a message of their own. */
  function Carried(rd: Reader, m: Message, call: Part, p: Part): Message {
    Message(m.id, m.turnId, 0, Assistant, [call, p.(content := rd.only(p.name, p.ok, p.content))], None, "")
  }

  function CarriedParts(rd: Reader, latest: map<Key, Item>, m: Message, n: nat): seq<Message>
    requires n <= |m.parts|
  {
    if n == 0 then []
    else
      var p := m.parts[n - 1];
      CarriedParts(rd, latest, m, n - 1) +
      if Carries(rd, latest, m, p) then [Carried(rd, m, latest[KeyOf(RefIn(rd, p).value)].call.value, p)] else []
  }

  function CarriedMessages(rd: Reader, latest: map<Key, Item>, visible: set<string>, ms: seq<Message>): seq<Message> {
    if ms == [] then []
    else
      var m := ms[|ms| - 1];
      CarriedMessages(rd, latest, visible, ms[..|ms| - 1]) +
      if m.id in visible then [] else CarriedParts(rd, latest, m, |m.parts|)
  }

  function Projected(rd: Reader, loaded: set<string>, all: seq<Message>, effective: seq<Message>): seq<Message>
    requires effective == [] ==> CarriedMessages(rd, ScanMessages(rd, loaded, all).latest, Ids(effective), all) == []
  {
    var carried := CarriedMessages(rd, ScanMessages(rd, loaded, all).latest, Ids(effective), all);
    if carried == [] then effective else effective[..1] + carried + effective[1..]
  }

  // ----- the code

  method MessagesWithSkillReferences(rd: Reader, all: seq<Message>, effective: seq<Message>, loaded: set<string>)
    returns (out: seq<Message>)
    requires effective == [] ==> CarriedMessages(rd, ScanMessages(rd, loaded, all).latest, Ids(effective), all) == []
    ensures out == if |all| == |effective| then effective else Projected(rd, loaded, all, effective)
  {
    hide RefIn, Eligible, Speaks, Carried;
    if |all| == |effective| {
      return effective;
    }
    var latest: map<Key, Item>, calls: map<string, Part> := map[], map[];
    for i := 0 to |all|
      invariant Scan(latest, calls) == ScanMessages(rd, loaded, all[..i])
    {
      var m := all[i];
      assert all[..i + 1][..i] == all[..i];
      if Speaks(m) {
        ghost var before := Scan(latest, calls);
        for j := 0 to |m.parts|
          invariant Scan(latest, calls) == ScanParts(rd, loaded, before, m, j)
        {
          var p := m.parts[j];
          if p.kind.ToolUse? {
            calls := calls[CallKey(m, p) := p];
          }
          var r := RefIn(rd, p);
          if r.Some? && Eligible(KeyOf(r.value), loaded) {
            latest := latest[KeyOf(r.value) := Item(m, p, if CallKey(m, p) in calls then Some(calls[CallKey(m, p)]) else None)];
          }
        }
      }
    }
    assert all[..|all|] == all;
    var visible := Ids(effective);
    var carried: seq<Message> := [];
    for i := 0 to |all|
      invariant carried == CarriedMessages(rd, latest, visible, all[..i])
    {
      var m := all[i];
      assert all[..i + 1][..i] == all[..i];
      if m.id !in visible {
        ghost var before := carried;
        for j := 0 to |m.parts|
          invariant carried == before + CarriedParts(rd, latest, m, j)
        {
          var p := m.parts[j];
          if Carries(rd, latest, m, p) {
            carried := carried + [Carried(rd, m, latest[KeyOf(RefIn(rd, p).value)].call.value, p)];
          }
        }
      }
    }
    if carried == [] {
      return effective;
    }
    out := effective[..1] + carried + effective[1..];
  }

  // ----- resolution

  /** What the sources say about a reference that is its key's latest. */
  datatype Judgement = Judgement(status: Status, body: string)

  type Position = (nat, nat)

  predicate After(a: Position, b: Position) {
    a.0 > b.0 || (a.0 == b.0 && a.1 > b.1)
  }

  function PositionsIn(rd: Reader, at: map<Key, Position>, i: nat, m: Message, n: nat): map<Key, Position>
    requires n <= |m.parts|
  {
    if n == 0 then at
    else
      var r := RefIn(rd, m.parts[n - 1]);
      var before := PositionsIn(rd, at, i, m, n - 1);
      if r.Some? then before[KeyOf(r.value) := (i, n - 1)] else before
  }

  function Positions(rd: Reader, ms: seq<Message>): map<Key, Position> {
    if ms == [] then map[]
    else PositionsIn(rd, Positions(rd, ms[..|ms| - 1]), |ms| - 1, ms[|ms| - 1], |ms[|ms| - 1].parts|)
  }

  function ResolvedPart(rd: Reader, judge: (Part, Ref) -> Judgement, at: map<Key, Position>, here: Position, p: Part): Part {
    var r := RefIn(rd, p);
    if r.None? then p
    else if KeyOf(r.value) in at && at[KeyOf(r.value)] != here then
      p.(content := rd.payload(p.content, r.value, Superseded, ""))
    else
      var j := judge(p, r.value);
      p.(ok := p.ok && !j.status.Unavailable?, content := rd.payload(p.content, r.value, j.status, j.body))
  }

  function ResolvedMessage(rd: Reader, judge: (Part, Ref) -> Judgement, at: map<Key, Position>, i: nat, m: Message): Message {
    m.(parts := seq(|m.parts|, j requires 0 <= j < |m.parts| => ResolvedPart(rd, judge, at, (i, j), m.parts[j])))
  }

  function Resolved(rd: Reader, judge: (Part, Ref) -> Judgement, ms: seq<Message>): seq<Message> {
    var at := Positions(rd, ms);
    seq(|ms|, i requires 0 <= i < |ms| => ResolvedMessage(rd, judge, at, i, ms[i]))
  }

  /** Marks every reference but its key's latest as superseded, and fills that one in. */
  method ResolveSkillReferences(rd: Reader, judge: (Part, Ref) -> Judgement, ms: seq<Message>) returns (out: seq<Message>)
    ensures out == Resolved(rd, judge, ms)
  {
    hide RefIn, ResolvedPart;
    var at: map<Key, Position> := map[];
    for i := 0 to |ms|
      invariant at == Positions(rd, ms[..i])
    {
      var m := ms[i];
      assert ms[..i + 1][..i] == ms[..i];
      ghost var before := at;
      for j := 0 to |m.parts|
        invariant at == PositionsIn(rd, before, i, m, j)
      {
        var r := RefIn(rd, m.parts[j]);
        if r.Some? {
          at := at[KeyOf(r.value) := (i, j)];
        }
      }
    }
    assert ms[..|ms|] == ms;
    if at == map[] {
      NothingToResolve(rd, judge, ms);
      return ms;
    }
    out := [];
    for i := 0 to |ms|
      invariant |out| == i && forall x :: 0 <= x < i ==> out[x] == ResolvedMessage(rd, judge, at, x, ms[x])
    {
      var m := ms[i];
      var parts: seq<Part> := [];
      for j := 0 to |m.parts|
        invariant |parts| == j && forall y :: 0 <= y < j ==> parts[y] == ResolvedPart(rd, judge, at, (i, y), m.parts[y])
      {
        parts := parts + [ResolvedPart(rd, judge, at, (i, j), m.parts[j])];
      }
      out := out + [m.(parts := parts)];
    }
  }

  lemma {:induction false} PositionsStay(rd: Reader, at: map<Key, Position>, i: nat, m: Message, n: nat)
    requires n <= |m.parts|
    ensures at.Keys <= PositionsIn(rd, at, i, m, n).Keys
    ensures PositionsIn(rd, at, i, m, n) == map[] ==> forall j :: 0 <= j < n ==> RefIn(rd, m.parts[j]).None?
  {
    if n > 0 {
      PositionsStay(rd, at, i, m, n - 1);
      assert PositionsIn(rd, at, i, m, n - 1).Keys <= PositionsIn(rd, at, i, m, n).Keys;
      assert RefIn(rd, m.parts[n - 1]).Some? ==> KeyOf(RefIn(rd, m.parts[n - 1]).value) in PositionsIn(rd, at, i, m, n).Keys;
    }
  }

  /** A list without positions has no references. */
  lemma {:induction false} NoPositions(rd: Reader, ms: seq<Message>)
    requires Positions(rd, ms) == map[]
    ensures forall i, j :: 0 <= i < |ms| && 0 <= j < |ms[i].parts| ==> RefIn(rd, ms[i].parts[j]).None?
  {
    hide RefIn;
    if ms != [] {
      var n := |ms| - 1;
      PositionsStay(rd, Positions(rd, ms[..n]), n, ms[n], |ms[n].parts|);
      assert Positions(rd, ms[..n]).Keys == {};
      NoPositions(rd, ms[..n]);
      forall i, j | 0 <= i < |ms| && 0 <= j < |ms[i].parts| ensures RefIn(rd, ms[i].parts[j]).None? {
        assert i < n ==> ms[..n][i] == ms[i];
      }
    }
  }

  lemma NothingToResolve(rd: Reader, judge: (Part, Ref) -> Judgement, ms: seq<Message>)
    requires Positions(rd, ms) == map[]
    ensures Resolved(rd, judge, ms) == ms
  {
    NoPositions(rd, ms);
    hide Positions, RefIn;
    var at := Positions(rd, ms);
    forall i | 0 <= i < |ms| ensures ResolvedMessage(rd, judge, at, i, ms[i]) == ms[i] {
      assert ResolvedMessage(rd, judge, at, i, ms[i]).parts == ms[i].parts;
    }
  }
}
