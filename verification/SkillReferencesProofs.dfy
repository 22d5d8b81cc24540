/** The last reference of every skill survives a compaction, and resolution leaves exactly
    that one current. */
module SkillReferencesProofs {

  import opened Results
  import opened Messages
  import opened SkillReferences

  /** A reference of some key, where it stands. */
  datatype Seen = Seen(message: Message, part: Part)

  function SeenIn(rd: Reader, k: Key, m: Message, n: nat): seq<Seen>
    requires n <= |m.parts|
  {
    if n == 0 then []
    else SeenIn(rd, k, m, n - 1) + if HasKey(rd, m.parts[n - 1], k) then [Seen(m, m.parts[n - 1])] else []
  }

  /** The references of a key, in order. */
  function References(rd: Reader, k: Key, ms: seq<Message>): seq<Seen> {
    if ms == [] then []
    else
      var m := ms[|ms| - 1];
      References(rd, k, ms[..|ms| - 1]) + SeenIn(rd, k, m, |m.parts|)
  }

  lemma {:induction false} ReferencesAppend(rd: Reader, k: Key, a: seq<Message>, b: seq<Message>)
    ensures References(rd, k, a + b) == References(rd, k, a) + References(rd, k, b)
    decreases |b|
  {
    if b == [] {
      assert a + b == a;
    } else {
      var n := |b| - 1;
      assert (a + b)[..|a| + n] == a + b[..n];
      ReferencesAppend(rd, k, a, b[..n]);
    }
  }

  /** Only assistant and tool messages have tool results. */
  predicate Tidy(ms: seq<Message>) {
    forall i, j :: 0 <= i < |ms| && 0 <= j < |ms[i].parts| && ms[i].parts[j].kind.ToolResult? ==> Speaks(ms[i])
  }

  predicate DistinctIds(ms: seq<Message>) {
    forall i, j :: 0 <= i < |ms| && 0 <= j < |ms| && ms[i].id == ms[j].id ==> i == j
  }

  // ----- the scan finds the last reference

  /** What the scan has under a key, against the references it has passed. */
  predicate Found(s: Scan, k: Key, loaded: set<string>, refs: seq<Seen>) {
    && (k in s.latest <==> Eligible(k, loaded) && refs != [])
    && (k in s.latest ==> Seen(s.latest[k].message, s.latest[k].part) == refs[|refs| - 1])
  }

  lemma {:induction false} ScanPartsFinds(rd: Reader, loaded: set<string>, s: Scan, m: Message, n: nat, k: Key, refs: seq<Seen>)
    requires n <= |m.parts| && Found(s, k, loaded, refs)
    ensures Found(ScanParts(rd, loaded, s, m, n), k, loaded, refs + SeenIn(rd, k, m, n))
  {
    hide Eligible, RefIn;
    if n > 0 {
      ScanPartsFinds(rd, loaded, s, m, n - 1, k, refs);
      var before := refs + SeenIn(rd, k, m, n - 1);
      var p := m.parts[n - 1];
      assert refs + SeenIn(rd, k, m, n) == before + if HasKey(rd, p, k) then [Seen(m, p)] else [];
    } else {
      assert refs + SeenIn(rd, k, m, 0) == refs;
    }
  }

  lemma {:induction false} NoneSeen(rd: Reader, k: Key, m: Message, n: nat)
    requires n <= |m.parts| && forall j :: 0 <= j < n ==> !m.parts[j].kind.ToolResult?
    ensures SeenIn(rd, k, m, n) == []
  {
    if n > 0 {
      NoneSeen(rd, k, m, n - 1);
    }
  }

  lemma {:induction false} ScanFindsLast(rd: Reader, loaded: set<string>, ms: seq<Message>, k: Key)
    requires Tidy(ms)
    ensures Found(ScanMessages(rd, loaded, ms), k, loaded, References(rd, k, ms))
  {
    hide Eligible, RefIn, Found;
    if ms != [] {
      var n := |ms| - 1;
      assert forall i :: 0 <= i < n ==> ms[..n][i] == ms[i];
      ScanFindsLast(rd, loaded, ms[..n], k);
      if Speaks(ms[n]) {
        ScanPartsFinds(rd, loaded, ScanMessages(rd, loaded, ms[..n]), ms[n], |ms[n].parts|, k, References(rd, k, ms[..n]));
      } else {
        NoneSeen(rd, k, ms[n], |ms[n].parts|);
        assert References(rd, k, ms) == References(rd, k, ms[..n]);
      }
    } else {
      NothingFound(rd, loaded, k);
    }
  }

  lemma NothingFound(rd: Reader, loaded: set<string>, k: Key)
    ensures Found(ScanMessages(rd, loaded, []), k, loaded, References(rd, k, []))
  {
  }

  // ----- what is carried on, key by key

  /** Of some references of a key, the ones that are carried, as they are carried. */
  function CarriedOf(rd: Reader, item: Item, refs: seq<Seen>): seq<Seen>
    requires item.call.Some?
  {
    if refs == [] then []
    else
      var r := refs[|refs| - 1];
      CarriedOf(rd, item, refs[..|refs| - 1]) +
      if r.message.id == item.message.id && r.part.callId == item.part.callId then
        var c := Carried(rd, r.message, item.call.value, r.part);
        [Seen(c, c.parts[1])]
      else []
  }

  lemma {:induction false} CarriedOfAppend(rd: Reader, item: Item, a: seq<Seen>, b: seq<Seen>)
    requires item.call.Some?
    ensures CarriedOf(rd, item, a + b) == CarriedOf(rd, item, a) + CarriedOf(rd, item, b)
    decreases |b|
  {
    if b == [] {
      assert a + b == a;
    } else {
      var n := |b| - 1;
      assert (a + b)[..|a| + n] == a + b[..n];
      CarriedOfAppend(rd, item, a, b[..n]);
    }
  }

  /** A carried message holds one reference, of the key it had. */
  lemma CarriedHas(rd: Reader, k: Key, m: Message, call: Part, p: Part)
    requires Faithful(rd) && RefIn(rd, p).Some? && !call.kind.ToolResult?
    ensures var c := Carried(rd, m, call, p);
            References(rd, k, [c]) == if HasKey(rd, p, k) then [Seen(c, c.parts[1])] else []
  {
    var c := Carried(rd, m, call, p);
    assert [c][..0] == [];
    assert SeenIn(rd, k, c, 1) == [];
    assert HasKey(rd, c.parts[1], k) == HasKey(rd, p, k);
    assert References(rd, k, [c]) == References(rd, k, []) + SeenIn(rd, k, c, 2);
  }

  /** A tool call made in some turn under this key. */
  ghost predicate CallFor(call: Part, key: string) {
    call.kind.ToolUse? && exists turn: string :: key == turn + ":" + call.callId
  }

  /** Calls are calls, and a reference is paired with the call of its own key. */
  ghost predicate CallsAreCalls(s: Scan) {
    && (forall key :: key in s.calls ==> CallFor(s.calls[key], key))
    && (forall k :: k in s.latest && s.latest[k].call.Some? ==>
          CallFor(s.latest[k].call.value, CallKey(s.latest[k].message, s.latest[k].part)))
  }

  lemma {:induction false} ScanPartsCalls(rd: Reader, loaded: set<string>, s: Scan, m: Message, n: nat)
    requires n <= |m.parts| && CallsAreCalls(s)
    ensures CallsAreCalls(ScanParts(rd, loaded, s, m, n))
  {
    hide RefIn, Eligible;
    if n > 0 {
      ScanPartsCalls(rd, loaded, s, m, n - 1);
      var p := m.parts[n - 1];
      assert CallKey(m, p) == m.turnId + ":" + p.callId;
      assert p.kind.ToolUse? ==> CallFor(p, CallKey(m, p));
      hide CallFor, CallKey;
    }
  }

  lemma {:induction false} ScanCalls(rd: Reader, loaded: set<string>, ms: seq<Message>)
    ensures CallsAreCalls(ScanMessages(rd, loaded, ms))
  {
    if ms != [] {
      ScanCalls(rd, loaded, ms[..|ms| - 1]);
      var m := ms[|ms| - 1];
      ScanPartsCalls(rd, loaded, ScanMessages(rd, loaded, ms[..|ms| - 1]), m, |m.parts|);
    }
  }

  lemma {:induction false} CarriedPartsHave(rd: Reader, s: Scan, m: Message, n: nat, k: Key)
    requires Faithful(rd) && CallsAreCalls(s) && n <= |m.parts| && k in s.latest && s.latest[k].call.Some?
    ensures References(rd, k, CarriedParts(rd, s.latest, m, n)) == CarriedOf(rd, s.latest[k], SeenIn(rd, k, m, n))
  {
    hide Faithful, RefIn, References, Carried;
    if n == 0 {
      assert References(rd, k, []) == [] by { NoReferences(rd, k); }
    } else {
      CarriedPartsHave(rd, s, m, n - 1, k);
      var p := m.parts[n - 1];
      var last := if HasKey(rd, p, k) then [Seen(m, p)] else [];
      CarriedOfAppend(rd, s.latest[k], SeenIn(rd, k, m, n - 1), last);
      OneCarried(rd, s, m, p, k);
      ReferencesAppend(rd, k, CarriedParts(rd, s.latest, m, n - 1),
        if Carries(rd, s.latest, m, p) then [Carried(rd, m, s.latest[KeyOf(RefIn(rd, p).value)].call.value, p)] else []);
    }
  }

  lemma NoReferences(rd: Reader, k: Key)
    ensures References(rd, k, []) == []
  {
  }

  lemma OneCarried(rd: Reader, s: Scan, m: Message, p: Part, k: Key)
    requires Faithful(rd) && CallsAreCalls(s) && k in s.latest && s.latest[k].call.Some?
    ensures References(rd, k, if Carries(rd, s.latest, m, p) then [Carried(rd, m, s.latest[KeyOf(RefIn(rd, p).value)].call.value, p)] else [])
         == CarriedOf(rd, s.latest[k], if HasKey(rd, p, k) then [Seen(m, p)] else [])
  {
    hide Faithful, RefIn, Carried, References;
    NoReferences(rd, k);
    if Carries(rd, s.latest, m, p) {
      CarriedHas(rd, k, m, s.latest[KeyOf(RefIn(rd, p).value)].call.value, p);
    }
    if HasKey(rd, p, k) {
      assert [Seen(m, p)][..0] == [];
    }
  }

  /** The carried references of a key are those of the hidden messages that are its latest. */
  lemma {:induction false} CarriedMessagesHave(rd: Reader, s: Scan, visible: set<string>, ms: seq<Message>, k: Key)
    requires Faithful(rd) && CallsAreCalls(s) && k in s.latest && s.latest[k].call.Some?
    requires forall i :: 0 <= i < |ms| ==> ms[i].id !in visible
    ensures References(rd, k, CarriedMessages(rd, s.latest, visible, ms)) == CarriedOf(rd, s.latest[k], References(rd, k, ms))
  {
    hide Faithful, CallsAreCalls, CarriedParts;
    if ms != [] {
      var n := |ms| - 1;
      CarriedMessagesHave(rd, s, visible, ms[..n], k);
      CarriedPartsHave(rd, s, ms[n], |ms[n].parts|, k);
      ReferencesAppend(rd, k, CarriedMessages(rd, s.latest, visible, ms[..n]), CarriedParts(rd, s.latest, ms[n], |ms[n].parts|));
      CarriedOfAppend(rd, s.latest[k], References(rd, k, ms[..n]), SeenIn(rd, k, ms[n], |ms[n].parts|));
    }
  }

  lemma {:induction false} NothingCarriedFromVisible(rd: Reader, latest: map<Key, Item>, visible: set<string>, ms: seq<Message>)
    requires forall i :: 0 <= i < |ms| ==> ms[i].id in visible
    ensures CarriedMessages(rd, latest, visible, ms) == []
  {
    if ms != [] {
      NothingCarriedFromVisible(rd, latest, visible, ms[..|ms| - 1]);
    }
  }

  lemma {:induction false} CarriedMessagesAppend(rd: Reader, latest: map<Key, Item>, visible: set<string>, a: seq<Message>, b: seq<Message>)
    ensures CarriedMessages(rd, latest, visible, a + b) == CarriedMessages(rd, latest, visible, a) + CarriedMessages(rd, latest, visible, b)
    decreases |b|
  {
    hide CarriedParts;
    if b == [] {
      assert a + b == a;
    } else {
      var n := |b| - 1;
      assert (a + b)[..|a| + n] == a + b[..n];
      CarriedMessagesAppend(rd, latest, visible, a, b[..n]);
    }
  }

  // ----- the theorem

  /** The messages with one of these ids, and the others, in order. */
  function Visible(ms: seq<Message>, ids: set<string>): seq<Message> {
    if ms == [] then []
    else Visible(ms[..|ms| - 1], ids) + if ms[|ms| - 1].id in ids then [ms[|ms| - 1]] else []
  }

  function Hidden(ms: seq<Message>, ids: set<string>): seq<Message> {
    if ms == [] then []
    else Hidden(ms[..|ms| - 1], ids) + if ms[|ms| - 1].id in ids then [] else [ms[|ms| - 1]]
  }

  /** What is visible of the messages that can hold references comes after what is not. */
  predicate HiddenFirst(ms: seq<Message>, ids: set<string>) {
    forall i, j :: 0 <= i < j < |ms| && Speaks(ms[i]) && Speaks(ms[j]) && ms[i].id in ids ==> ms[j].id in ids
  }

  /** A compacted history: the summary first, then what else is visible in its own order; it
      need not be the end of the history, but the references in it are its last ones. */
  predicate Compacted(all: seq<Message>, effective: seq<Message>, at: nat) {
    && at < |all| && effective == [all[at]] + Visible(Rest(all, at), Ids(effective))
    && HiddenFirst(Rest(all, at), Ids(effective))
  }

  /** The history without its summary. */
  function Rest(all: seq<Message>, at: nat): (r: seq<Message>)
    requires at < |all|
    ensures |r| == |all| - 1
  {
    all[..at] + all[at + 1..]
  }

  /** The summary itself refers to no skill. */
  predicate PlainSummary(m: Message) {
    forall j :: 0 <= j < |m.parts| ==> !m.parts[j].kind.ToolResult?
  }

  lemma {:induction false} VisibleIsVisible(ms: seq<Message>, ids: set<string>)
    ensures forall m :: m in Visible(ms, ids) <==> m in ms && m.id in ids
    ensures forall m :: m in Hidden(ms, ids) <==> m in ms && m.id !in ids
    ensures |Visible(ms, ids)| + |Hidden(ms, ids)| == |ms|
  {
    if ms != [] {
      var n := |ms| - 1;
      VisibleIsVisible(ms[..n], ids);
      assert ms == ms[..n] + [ms[n]];
    }
  }

  lemma {:induction false} HiddenAppend(a: seq<Message>, b: seq<Message>, ids: set<string>)
    ensures Hidden(a + b, ids) == Hidden(a, ids) + Hidden(b, ids)
    decreases |b|
  {
    if b == [] {
      assert a + b == a;
    } else {
      var n := |b| - 1;
      assert (a + b)[..|a| + n] == a + b[..n];
      HiddenAppend(a, b[..n], ids);
    }
  }

  lemma {:induction false} NoneSpeaks(rd: Reader, k: Key, ms: seq<Message>)
    requires Tidy(ms) && forall m :: m in ms ==> !Speaks(m)
    ensures References(rd, k, ms) == []
  {
    if ms != [] {
      var n := |ms| - 1;
      assert forall i :: 0 <= i < n ==> ms[..n][i] == ms[i];
      NoneSpeaks(rd, k, ms[..n]);
      NoneSeen(rd, k, ms[n], |ms[n].parts|);
    }
  }

  lemma {:induction false} ReferencesSplit(rd: Reader, k: Key, ms: seq<Message>, ids: set<string>)
    requires Tidy(ms) && HiddenFirst(ms, ids)
    ensures References(rd, k, ms) == References(rd, k, Hidden(ms, ids)) + References(rd, k, Visible(ms, ids))
  {
    hide References;
    if ms == [] {
      NoReferences(rd, k);
    } else {
      var n := |ms| - 1;
      var init, m := ms[..n], ms[n];
      assert forall i :: 0 <= i < n ==> init[i] == ms[i];
      assert Tidy(init) && HiddenFirst(init, ids);
      ReferencesSplit(rd, k, init, ids);
      var hidden, visible, seen := Hidden(init, ids), Visible(init, ids), SeenIn(rd, k, m, |m.parts|);
      ReferencesAppend(rd, k, hidden, [m]);
      ReferencesAppend(rd, k, visible, [m]);
      ReferencesAppend(rd, k, init, [m]);
      assert ms == init + [m];
      OneReferences(rd, k, m);
      if m.id in ids {
        assert Hidden(ms, ids) == hidden && Visible(ms, ids) == visible + [m];
      } else {
        assert Hidden(ms, ids) == hidden + [m] && Visible(ms, ids) == visible;
        if Speaks(m) {
          NoneVisibleSpeaks(ms, ids);
          VisibleIsTidy(init, ids);
          NoneSpeaks(rd, k, visible);
        } else {
          NoneSeen(rd, k, m, |m.parts|);
        }
      }
    }
  }

  /** Before a hidden message that can hold references nothing that can is visible. */
  lemma NoneVisibleSpeaks(ms: seq<Message>, ids: set<string>)
    requires HiddenFirst(ms, ids) && ms != [] && Speaks(ms[|ms| - 1]) && ms[|ms| - 1].id !in ids
    ensures forall m :: m in Visible(ms[..|ms| - 1], ids) ==> !Speaks(m)
  {
    var init := ms[..|ms| - 1];
    VisibleIsVisible(init, ids);
    forall m | m in Visible(init, ids) ensures !Speaks(m) {
      var j :| 0 <= j < |init| && init[j] == m;
      assert ms[j] == init[j];
    }
  }

  lemma VisibleIsTidy(ms: seq<Message>, ids: set<string>)
    requires Tidy(ms)
    ensures Tidy(Visible(ms, ids)) && Tidy(Hidden(ms, ids))
  {
    VisibleIsVisible(ms, ids);
    forall i, j | 0 <= i < |Visible(ms, ids)| && 0 <= j < |Visible(ms, ids)[i].parts| && Visible(ms, ids)[i].parts[j].kind.ToolResult?
      ensures Speaks(Visible(ms, ids)[i])
    {
      assert Visible(ms, ids)[i] in Visible(ms, ids);
      var x :| 0 <= x < |ms| && ms[x] == Visible(ms, ids)[i];
    }
    forall i, j | 0 <= i < |Hidden(ms, ids)| && 0 <= j < |Hidden(ms, ids)[i].parts| && Hidden(ms, ids)[i].parts[j].kind.ToolResult?
      ensures Speaks(Hidden(ms, ids)[i])
    {
      assert Hidden(ms, ids)[i] in Hidden(ms, ids);
      var x :| 0 <= x < |ms| && ms[x] == Hidden(ms, ids)[i];
    }
  }

  lemma OneReferences(rd: Reader, k: Key, m: Message)
    ensures References(rd, k, [m]) == SeenIn(rd, k, m, |m.parts|)
  {
    assert [m][..0] == [];
    NoReferences(rd, k);
  }

  lemma RestHasAll(rd: Reader, k: Key, all: seq<Message>, effective: seq<Message>, at: nat)
    requires Compacted(all, effective, at) && Tidy(all) && PlainSummary(all[at])
    ensures References(rd, k, all) == References(rd, k, Hidden(all, Ids(effective))) + References(rd, k, Visible(Rest(all, at), Ids(effective)))
  {
    hide References, PlainSummary;
    var rest, ids := Rest(all, at), Ids(effective);
    assert Tidy(rest) by {
      assert forall i :: 0 <= i < |rest| ==> rest[i] == all[if i < at then i else i + 1];
    }
    NothingAdded(References(rd, k, all[..at]));
    assert all == all[..at] + [all[at]] + all[at + 1..];
    ReferencesAppend(rd, k, all[..at] + [all[at]], all[at + 1..]);
    ReferencesAppend(rd, k, all[..at], [all[at]]);
    ReferencesAppend(rd, k, all[..at], all[at + 1..]);
    SummaryHasNone(rd, k, all[at]);
    ReferencesSplit(rd, k, rest, ids);
    HiddenRest(all, effective, at);
  }

  lemma HiddenRest(all: seq<Message>, effective: seq<Message>, at: nat)
    requires at < |all| && effective != [] && effective[0] == all[at]
    ensures Hidden(all, Ids(effective)) == Hidden(Rest(all, at), Ids(effective))
  {
    var ids := Ids(effective);
    assert all == all[..at] + [all[at]] + all[at + 1..];
    HiddenAppend(all[..at] + [all[at]], all[at + 1..], ids);
    HiddenAppend(all[..at], [all[at]], ids);
    HiddenAppend(all[..at], all[at + 1..], ids);
    assert [all[at]][..0] == [];
    assert effective[0].id in ids;
    NothingAdded(Hidden(all[..at], ids));
  }

  lemma SummaryHasNone(rd: Reader, k: Key, m: Message)
    requires PlainSummary(m)
    ensures References(rd, k, [m]) == []
  {
    NoneSeen(rd, k, m, |m.parts|);
    assert [m][..0] == [];
  }

  lemma {:induction false} CarriedFromHidden(rd: Reader, latest: map<Key, Item>, visible: set<string>, ms: seq<Message>)
    ensures CarriedMessages(rd, latest, visible, ms) == CarriedMessages(rd, latest, visible, Hidden(ms, visible))
  {
    hide CarriedParts;
    if ms != [] {
      var n := |ms| - 1;
      CarriedFromHidden(rd, latest, visible, ms[..n]);
      if ms[n].id in visible {
        NothingAdded(CarriedMessages(rd, latest, visible, ms[..n]));
        NothingAdded(Hidden(ms[..n], visible));
      } else {
        CarriedMessagesAppend(rd, latest, visible, Hidden(ms[..n], visible), [ms[n]]);
        assert [ms[n]][..0] == [] && CarriedMessages(rd, latest, visible, []) == [];
      }
    }
  }

  /** The projection is the summary, what is carried from the hidden messages, and the rest
      of the effective history as it was. */
  lemma ProjectionShape(rd: Reader, loaded: set<string>, all: seq<Message>, effective: seq<Message>, at: nat)
    requires Compacted(all, effective, at)
    ensures var hidden := Hidden(all, Ids(effective));
            && Projected(rd, loaded, all, effective) ==
                 [all[at]] + CarriedMessages(rd, ScanMessages(rd, loaded, all).latest, Ids(effective), hidden)
                 + Visible(Rest(all, at), Ids(effective))
            && (forall i :: 0 <= i < |hidden| ==> hidden[i].id !in Ids(effective))
    ensures |all| == |effective| ==> Projected(rd, loaded, all, effective) == effective
  {
    hide ScanMessages, CarriedMessages, Ids, Visible, Hidden, HiddenFirst;
    var latest, ids := ScanMessages(rd, loaded, all).latest, Ids(effective);
    CarriedFromHidden(rd, latest, ids, all);
    VisibleIsVisible(all, ids);
    HiddenRest(all, effective, at);
    forall i | 0 <= i < |Hidden(all, ids)| ensures Hidden(all, ids)[i].id !in ids {
      assert Hidden(all, ids)[i] in Hidden(all, ids);
    }
    assert effective[..1] == [all[at]] && effective[1..] == Visible(Rest(all, at), ids);
    if |all| == |effective| {
      VisibleIsVisible(Rest(all, at), ids);
      NothingCarriedFromVisible(rd, latest, ids, []);
    }
  }

  lemma NothingAdded<T>(s: seq<T>)
    ensures s + [] == s
  {
  }

  /** After a compaction, also one inside a running turn, the last reference of a skill is the
      one that was last in the whole history: where it stood when it is still there, and
      otherwise in a message with its call just before it. */
  lemma LastReferenceSurvives(rd: Reader, loaded: set<string>, all: seq<Message>, effective: seq<Message>, at: nat, k: Key)
    requires Faithful(rd) && Compacted(all, effective, at) && Tidy(all) && PlainSummary(all[at])
    requires Eligible(k, loaded) && References(rd, k, all) != []
    ensures var item := ScanMessages(rd, loaded, all).latest;
            var refs, out := References(rd, k, all), References(rd, k, Projected(rd, loaded, all, effective));
            var last := refs[|refs| - 1];
            && k in item && Seen(item[k].message, item[k].part) == last
            && (item[k].call.Some? ==> CallFor(item[k].call.value, CallKey(last.message, last.part)))
            && (last.message.id in Ids(effective) ==> out != [] && out[|out| - 1] == last)
            && (last.message.id !in Ids(effective) && item[k].call.Some? ==>
                  && out != []
                  && var seen := out[|out| - 1];
                     && seen.part == last.part.(content := rd.only(last.part.name, last.part.ok, last.part.content))
                     && seen.message == Message(last.message.id, last.message.turnId, 0, Assistant, [item[k].call.value, seen.part], None, ""))
  {
    hide ScanMessages, CarriedMessages, Faithful, Tidy, Projected, Eligible, Carried, Ids;
    var ids, s := Ids(effective), ScanMessages(rd, loaded, all);
    var hidden, visible := Hidden(all, ids), Visible(Rest(all, at), ids);
    ScanFindsLast(rd, loaded, all, k);
    ScanCalls(rd, loaded, all);
    RestHasAll(rd, k, all, effective, at);
    ProjectionShape(rd, loaded, all, effective, at);
    var carried := CarriedMessages(rd, s.latest, ids, hidden);
    ReferencesAppend(rd, k, [all[at]] + carried, visible);
    ReferencesAppend(rd, k, [all[at]], carried);
    SummaryHasNone(rd, k, all[at]);
    var refs := References(rd, k, all);
    var last := refs[|refs| - 1];
    VisibleIsVisible(Rest(all, at), ids);
    VisibleIsVisible(all, ids);
    if References(rd, k, visible) != [] {
      ReferencesComeFrom(rd, k, visible);
      assert last.message in visible;
    } else {
      ReferencesComeFrom(rd, k, hidden);
      assert last.message in hidden;
      if s.latest[k].call.Some? {
        CarriedMessagesHave(rd, s, ids, hidden, k);
        CarriedLooks(rd, last.message, s.latest[k].call.value, last.part);
      }
    }
  }

  /** What a reference is carried in: a message of the assistant under the id and the turn it
      had, with its call and the reference alone. */
  lemma CarriedLooks(rd: Reader, m: Message, call: Part, p: Part)
    ensures var c := Carried(rd, m, call, p);
            && |c.parts| == 2
            && c.parts[1] == p.(content := rd.only(p.name, p.ok, p.content))
            && c == Message(m.id, m.turnId, 0, Assistant, [call, c.parts[1]], None, "")
  {
  }

  /** A carried message, and the last reference of a skill that it is there for: one of a
      plugin that is loaded, or of no plugin. */
  ghost predicate CarriedFor(rd: Reader, loaded: set<string>, all: seq<Message>, visible: set<string>, c: Message, k: Key) {
    var refs := References(rd, k, all);
    && refs != [] && (k.kind.PluginSkill? ==> k.id in loaded)
    && var last := refs[|refs| - 1];
       && c.id == last.message.id && c.id !in visible && c.role.Assistant? && |c.parts| == 2
       && c.parts[0].kind.ToolUse? && c.parts[1].callId == last.part.callId
  }

  lemma {:induction false} PartsAreCarriedFor(rd: Reader, loaded: set<string>, all: seq<Message>, visible: set<string>, m: Message, n: nat)
    requires Tidy(all) && n <= |m.parts| && m.id !in visible
    ensures forall c :: c in CarriedParts(rd, ScanMessages(rd, loaded, all).latest, m, n) ==> exists k :: CarriedFor(rd, loaded, all, visible, c, k)
  {
    if n > 0 {
      PartsAreCarriedFor(rd, loaded, all, visible, m, n - 1);
      var s, p := ScanMessages(rd, loaded, all), m.parts[n - 1];
      if Carries(rd, s.latest, m, p) {
        var k := KeyOf(RefIn(rd, p).value);
        ScanFindsLast(rd, loaded, all, k);
        ScanCalls(rd, loaded, all);
        CarriedLooks(rd, m, s.latest[k].call.value, p);
        hide References, RefIn, ScanMessages, Carried;
        assert CarriedFor(rd, loaded, all, visible, Carried(rd, m, s.latest[k].call.value, p), k);
      }
    }
  }

  /** Nothing else is carried: every carried message is hidden, and is there for the last
      reference of a skill in the whole history. */
  lemma {:induction false} OnlyLastIsCarried(rd: Reader, loaded: set<string>, all: seq<Message>, visible: set<string>, ms: seq<Message>, c: Message)
    requires Tidy(all) && c in CarriedMessages(rd, ScanMessages(rd, loaded, all).latest, visible, ms)
    ensures exists k :: CarriedFor(rd, loaded, all, visible, c, k)
  {
    var n := |ms| - 1;
    if c in CarriedMessages(rd, ScanMessages(rd, loaded, all).latest, visible, ms[..n]) {
      OnlyLastIsCarried(rd, loaded, all, visible, ms[..n], c);
    } else {
      PartsAreCarriedFor(rd, loaded, all, visible, ms[n], |ms[n].parts|);
    }
  }

  lemma {:induction false} SeenComesFrom(rd: Reader, k: Key, m: Message, n: nat)
    requires n <= |m.parts|
    ensures forall x :: 0 <= x < |SeenIn(rd, k, m, n)| ==> SeenIn(rd, k, m, n)[x].message == m
  {
    if n > 0 {
      SeenComesFrom(rd, k, m, n - 1);
    }
  }

  lemma {:induction false} ReferencesComeFrom(rd: Reader, k: Key, ms: seq<Message>)
    ensures forall x :: 0 <= x < |References(rd, k, ms)| ==> References(rd, k, ms)[x].message in ms
  {
    if ms != [] {
      ReferencesComeFrom(rd, k, ms[..|ms| - 1]);
      var m := ms[|ms| - 1];
      SeenComesFrom(rd, k, m, |m.parts|);
    }
  }

  // ----- resolution

  predicate RefAt(rd: Reader, ms: seq<Message>, here: Position, k: Key) {
    here.0 < |ms| && here.1 < |ms[here.0].parts| && HasKey(rd, ms[here.0].parts[here.1], k)
  }

  /** Of the references of a key among the first parts of message `i` and all messages
      before it, the recorded one is there and is the last. */
  ghost predicate LastAt(rd: Reader, ms: seq<Message>, at: map<Key, Position>, k: Key, i: nat, n: nat) {
    && (k in at ==> RefAt(rd, ms, at[k], k) && (at[k].0 < i || (at[k].0 == i && at[k].1 < n)))
    && (forall here: Position :: RefAt(rd, ms, here, k) && (here.0 < i || (here.0 == i && here.1 < n)) ==>
          k in at && (here == at[k] || After(at[k], here)))
  }

  lemma {:induction false} PositionsInLast(rd: Reader, ms: seq<Message>, at: map<Key, Position>, i: nat, n: nat, k: Key)
    requires i < |ms| && n <= |ms[i].parts| && LastAt(rd, ms, at, k, i, 0)
    ensures LastAt(rd, ms, PositionsIn(rd, at, i, ms[i], n), k, i, n)
  {
    hide RefIn;
    if n > 0 {
      PositionsInLast(rd, ms, at, i, n - 1, k);
    }
  }

  lemma {:induction false} PositionsLast(rd: Reader, ms: seq<Message>, i: nat, k: Key)
    requires i <= |ms|
    ensures LastAt(rd, ms, Positions(rd, ms[..i]), k, i, 0)
  {
    hide LastAt, PositionsIn;
    if i > 0 {
      PositionsLast(rd, ms, i - 1, k);
      assert ms[..i][..i - 1] == ms[..i - 1];
      PositionsInLast(rd, ms, Positions(rd, ms[..i - 1]), i - 1, |ms[i - 1].parts|, k);
      NextMessage(rd, ms, Positions(rd, ms[..i]), k, i - 1);
    } else {
      assert LastAt(rd, ms, map[], k, 0, 0) by { NowhereYet(rd, ms, k); }
    }
  }

  lemma NextMessage(rd: Reader, ms: seq<Message>, at: map<Key, Position>, k: Key, i: nat)
    requires i < |ms| && LastAt(rd, ms, at, k, i, |ms[i].parts|)
    ensures LastAt(rd, ms, at, k, i + 1, 0)
  {
    hide HasKey;
  }

  lemma NowhereYet(rd: Reader, ms: seq<Message>, k: Key)
    ensures LastAt(rd, ms, map[], k, 0, 0)
  {
  }

  /** Resolution keeps every message and every part that is no reference, in place; and of
      the references of one key the last is the one it does not mark as superseded. */
  lemma ResolvesLast(rd: Reader, judge: (Part, Ref) -> Judgement, ms: seq<Message>, here: Position)
    requires Faithful(rd) && forall p, r :: !judge(p, r).status.Superseded?
    requires here.0 < |ms| && here.1 < |ms[here.0].parts|
    ensures var out, p := Resolved(rd, judge, ms), ms[here.0].parts[here.1];
            && |out| == |ms| && |out[here.0].parts| == |ms[here.0].parts|
            && out[here.0].(parts := ms[here.0].parts) == ms[here.0]
            && var q := out[here.0].parts[here.1];
               && q.(ok := p.ok, content := p.content) == p
               && (RefIn(rd, p).None? ==> q == p)
               && (RefIn(rd, p).Some? ==>
                     (rd.status(q.content) == Superseded <==>
                      exists there: Position :: RefAt(rd, ms, there, KeyOf(RefIn(rd, p).value)) && After(there, here)))
  {
    hide RefIn, Positions;
    var p := ms[here.0].parts[here.1];
    if RefIn(rd, p).Some? {
      var k := KeyOf(RefIn(rd, p).value);
      PositionsLast(rd, ms, |ms|, k);
      assert ms[..|ms|] == ms;
      var at := Positions(rd, ms);
      assert RefAt(rd, ms, here, k);
      assert k in at && RefAt(rd, ms, at[k], k) && (here == at[k] || After(at[k], here));
      if there: Position :| RefAt(rd, ms, there, k) && After(there, here) {
        assert there == at[k] || After(at[k], there);
      }
    }
  }

  predicate LeftCurrent(rd: Reader, judge: (Part, Ref) -> Judgement, ms: seq<Message>, here: Position, k: Key) {
    RefAt(rd, ms, here, k) && rd.status(Resolved(rd, judge, ms)[here.0].parts[here.1].content) != Superseded
  }

  /** What each reference reads as once resolved: one that a later one supersedes has no body
      and keeps its outcome; the last one of its key has the status and the body that its
      source gave, and its outcome only changes to a failure when it is unavailable.  Unless
      it failed, it is still a reference of its key. */
  lemma ResolvedReadsBack(rd: Reader, judge: (Part, Ref) -> Judgement, ms: seq<Message>, here: Position, k: Key)
    requires Faithful(rd) && (forall p, r :: !judge(p, r).status.Superseded?) && RefAt(rd, ms, here, k)
    ensures var p, q := ms[here.0].parts[here.1], Resolved(rd, judge, ms)[here.0].parts[here.1];
            var given := judge(p, RefIn(rd, p).value);
            && (if exists there: Position :: RefAt(rd, ms, there, k) && After(there, here)
                then rd.status(q.content) == Superseded && rd.body(q.content) == "" && q.ok == p.ok
                else rd.status(q.content) == given.status && rd.body(q.content) == given.body
                     && q.ok == (p.ok && !given.status.Unavailable?))
            && (q.ok == p.ok ==> HasKey(rd, q, k))
  {
    ResolvesLast(rd, judge, ms, here);
    hide RefAt, Positions, After;
  }

  /** Two references are to one thing: to skills of one plugin, whichever they are, or to one
      other skill. */
  predicate SameSubject(a: Ref, b: Ref) {
    a.kind == b.kind && if a.kind.PluginSkill? then a.pluginID == b.pluginID else a.skillID == b.skillID
  }

  /** A reference is superseded exactly by a later one to the same thing: loading another skill
      of a plugin takes the place of the one before. */
  lemma SupersededExactly(rd: Reader, judge: (Part, Ref) -> Judgement, ms: seq<Message>, here: Position)
    requires Faithful(rd) && (forall p, r :: !judge(p, r).status.Superseded?)
    requires here.0 < |ms| && here.1 < |ms[here.0].parts| && RefIn(rd, ms[here.0].parts[here.1]).Some?
    ensures rd.status(Resolved(rd, judge, ms)[here.0].parts[here.1].content) == Superseded <==>
            exists there: Position :: there.0 < |ms| && there.1 < |ms[there.0].parts| && After(there, here)
              && RefIn(rd, ms[there.0].parts[there.1]).Some?
              && SameSubject(RefIn(rd, ms[here.0].parts[here.1]).value, RefIn(rd, ms[there.0].parts[there.1]).value)
  {
    ResolvesLast(rd, judge, ms, here);
    hide RefIn, Resolved, After;
  }

  /** The one reference of a key that is left current has what its source gave. */
  lemma LeftCurrentIsFilledIn(rd: Reader, judge: (Part, Ref) -> Judgement, ms: seq<Message>, here: Position, k: Key)
    requires Faithful(rd) && (forall p, r :: !judge(p, r).status.Superseded?) && LeftCurrent(rd, judge, ms, here, k)
    ensures var p, q := ms[here.0].parts[here.1], Resolved(rd, judge, ms)[here.0].parts[here.1];
            var given := judge(p, RefIn(rd, p).value);
            rd.status(q.content) == given.status && rd.body(q.content) == given.body && q.ok == (p.ok && !given.status.Unavailable?)
  {
    hide Resolved, RefIn, After;
    ResolvedReadsBack(rd, judge, ms, here, k);
  }

  /** Every key that is referred to has exactly one reference that is not superseded. */
  lemma ExactlyOneCurrent(rd: Reader, judge: (Part, Ref) -> Judgement, ms: seq<Message>, k: Key, some: Position)
    requires Faithful(rd) && (forall p, r :: !judge(p, r).status.Superseded?) && RefAt(rd, ms, some, k)
    ensures exists here: Position :: LeftCurrent(rd, judge, ms, here, k)
    ensures forall x: Position, y: Position :: LeftCurrent(rd, judge, ms, x, k) && LeftCurrent(rd, judge, ms, y, k) ==> x == y
  {
    hide RefIn, Positions, Resolved;
    PositionsLast(rd, ms, |ms|, k);
    assert ms[..|ms|] == ms;
    var last := Positions(rd, ms)[k];
    ResolvesLast(rd, judge, ms, last);
    assert forall there: Position :: RefAt(rd, ms, there, k) ==> !After(there, last);
    assert LeftCurrent(rd, judge, ms, last, k);
    forall x: Position | LeftCurrent(rd, judge, ms, x, k) ensures x == last {
      ResolvesLast(rd, judge, ms, x);
      assert RefAt(rd, ms, last, k) && (x == last || After(last, x));
    }
  }

  lemma {:induction false} LastSeenIn(rd: Reader, k: Key, m: Message, n: nat, j: nat)
    requires j < n <= |m.parts| && HasKey(rd, m.parts[j], k)
    requires forall x :: j < x < n ==> !HasKey(rd, m.parts[x], k)
    ensures SeenIn(rd, k, m, n) != [] && SeenIn(rd, k, m, n)[|SeenIn(rd, k, m, n)| - 1] == Seen(m, m.parts[j])
  {
    hide HasKey;
    if j < n - 1 {
      LastSeenIn(rd, k, m, n - 1, j);
    }
  }

  lemma {:induction false} NoneSeenIn(rd: Reader, k: Key, m: Message, n: nat)
    requires n <= |m.parts| && forall x :: 0 <= x < n ==> !HasKey(rd, m.parts[x], k)
    ensures SeenIn(rd, k, m, n) == []
  {
    if n > 0 {
      NoneSeenIn(rd, k, m, n - 1);
    }
  }

  /** The position after which there is no reference is the last reference. */
  lemma {:induction false} LastIsSeenLast(rd: Reader, k: Key, ms: seq<Message>, here: Position)
    requires RefAt(rd, ms, here, k) && forall there: Position :: RefAt(rd, ms, there, k) ==> !After(there, here)
    ensures var refs := References(rd, k, ms);
            refs != [] && refs[|refs| - 1] == Seen(ms[here.0], ms[here.0].parts[here.1])
    decreases |ms|
  {
    hide HasKey;
    var n := |ms| - 1;
    if here.0 == n {
      forall x | here.1 < x < |ms[n].parts| ensures !HasKey(rd, ms[n].parts[x], k) {
        assert After((n, x), here);
        assert RefAt(rd, ms, (n, x), k) == HasKey(rd, ms[n].parts[x], k);
      }
      LastSeenIn(rd, k, ms[n], |ms[n].parts|, here.1);
    } else {
      forall x | 0 <= x < |ms[n].parts| ensures !HasKey(rd, ms[n].parts[x], k) {
        assert After((n, x), here);
        assert RefAt(rd, ms, (n, x), k) == HasKey(rd, ms[n].parts[x], k);
      }
      NoneSeenIn(rd, k, ms[n], |ms[n].parts|);
      assert forall there: Position :: RefAt(rd, ms[..n], there, k) ==> RefAt(rd, ms, there, k);
      LastIsSeenLast(rd, k, ms[..n], here);
    }
  }

  lemma LastProjected(rd: Reader, loaded: set<string>, all: seq<Message>, effective: seq<Message>, at: nat, k: Key)
    requires Faithful(rd) && Compacted(all, effective, at) && Tidy(all) && PlainSummary(all[at])
    requires Eligible(k, loaded) && References(rd, k, all) != []
    ensures var refs, item := References(rd, k, all), ScanMessages(rd, loaded, all).latest;
            var last, out := refs[|refs| - 1], References(rd, k, Projected(rd, loaded, all, effective));
            k in item && (last.message.id in Ids(effective) || item[k].call.Some? ==>
              && out != [] && out[|out| - 1].message.id == last.message.id
              && out[|out| - 1].part.(content := last.part.content) == last.part)
  {
    assert effective != [];
    hide Projected, Faithful, Eligible, ScanMessages, Compacted, References, Ids, Tidy, CallFor;
    LastReferenceSurvives(rd, loaded, all, effective, at, k);
  }

  /** Projection and resolution together: the one reference of a skill that stays current in
      a compacted history is the last one of the whole history. */
  lemma CurrentIsHistorysLast(rd: Reader, judge: (Part, Ref) -> Judgement, loaded: set<string>, all: seq<Message>,
                              effective: seq<Message>, at: nat, k: Key, here: Position)
    requires Faithful(rd) && (forall p, r :: !judge(p, r).status.Superseded?)
    requires Compacted(all, effective, at) && Tidy(all) && PlainSummary(all[at])
    requires Eligible(k, loaded) && References(rd, k, all) != []
    requires LeftCurrent(rd, judge, Projected(rd, loaded, all, effective), here, k)
    ensures var refs, out, item := References(rd, k, all), Projected(rd, loaded, all, effective), ScanMessages(rd, loaded, all).latest;
            var last := refs[|refs| - 1];
            k in item && (last.message.id in Ids(effective) || item[k].call.Some? ==>
              && out[here.0].id == last.message.id
              && out[here.0].parts[here.1].(content := last.part.content) == last.part)
  {
    assert effective != [];
    hide Projected, Resolved, Faithful, RefIn, Eligible, References, ScanMessages, Tidy, Compacted, Ids;
    var out := Projected(rd, loaded, all, effective);
    LastProjected(rd, loaded, all, effective, at, k);
    ResolvesLast(rd, judge, out, here);
    LastIsSeenLast(rd, k, out, here);
  }
}
