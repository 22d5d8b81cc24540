/** The saved plugin switches: reading them moves every legacy spelling to its current id and
    splits the content switch, once. */
module PluginEnablement {

  import opened Text
  import opened PluginIdentity

  type Switches = map<string, bool>

  datatype Settings = Settings(enabled: Switches, contentSplit: bool)

  // ----- which legacy switch counts

  /** The order switches are moved in: "subagent" first, and then alphabetically. */
  predicate Ahead(a: string, b: string) {
    if (a == "subagent") != (b == "subagent") then a == "subagent" else Less(a, b)
  }

  lemma AheadIsTotal(a: string, b: string)
    ensures a == b || Ahead(a, b) || Ahead(b, a)
    ensures !(Ahead(a, b) && Ahead(b, a))
  {
    LessIsTotal(a, b);
  }

  lemma AheadIsTransitive(a: string, b: string, c: string)
    requires Ahead(a, b) && Ahead(b, c)
    ensures Ahead(a, c)
  {
    if a != "subagent" && b != "subagent" && c != "subagent" {
      LessIsTransitive(a, b, c);
    } else {
      LessIsTotal("subagent", "subagent");
    }
  }

  ghost predicate InOrder(ids: seq<string>) {
    forall i, j :: 0 <= i < j < |ids| ==> Ahead(ids[i], ids[j])
  }

  /** The ids in the order they are moved in, whatever order the map was walked in. */
  method SortIds(ids: set<string>) returns (r: seq<string>)
    ensures InOrder(r) && |r| == |ids| && forall x :: x in r <==> x in ids
  {
    var rest := Sort(ids - {"subagent"});
    LessIsTotal("subagent", "subagent");
    r := if "subagent" in ids then ["subagent"] + rest else rest;
    forall i, j | 0 <= i < j < |r| ensures Ahead(r[i], r[j]) {
      assert r[j] in rest;
      assert r[i] == "subagent" || r[i] in rest;
      if r[i] != "subagent" {
        assert "subagent" !in ids || i > 0;
      }
    }
  }

  predicate IsAlias(id: string, current: string) {
    id != current && CurrentPluginID(id) == current
  }

  /** The legacy spelling of a plugin that is moved first. */
  ghost predicate IsFirstAlias(m: Switches, current: string, id: string) {
    id in m && IsAlias(id, current) && forall other :: other in m && IsAlias(other, current) && other != id ==> Ahead(id, other)
  }

  /** What the switches are once moved: each current id has its own switch if there was one,
      and that of its first legacy spelling otherwise; and there is nothing else. */
  ghost predicate MovedTo(m: Switches, after: Switches) {
    && (forall id :: id in after <==> IsCurrent(id) && exists saved :: saved in m && CurrentPluginID(saved) == id)
    && (forall id :: id in after && id in m ==> after[id] == m[id])
    && (forall id, alias :: id in after && id !in m && IsFirstAlias(m, id, alias) ==> after[id] == m[alias])
  }

  ghost predicate IsFirstOf(left: set<string>, id: string) {
    id in left && forall other :: other in left && other != id ==> Ahead(id, other)
  }

  lemma {:induction false} FirstExists(left: set<string>)
    requires left != {}
    ensures exists id :: IsFirstOf(left, id)
    decreases |left|
  {
    hide Ahead;
    var x :| x in left;
    if left == {x} {
      assert IsFirstOf(left, x);
    } else {
      FirstExists(left - {x});
      var y :| IsFirstOf(left - {x}, y);
      AheadIsTotal(x, y);
      if Ahead(x, y) {
        forall z | z in left && z != x ensures Ahead(x, z) {
          if z != y {
            AheadIsTransitive(x, y, z);
          }
        }
        assert IsFirstOf(left, x);
      } else {
        assert IsFirstOf(left, y);
      }
    }
  }

  /** There is only one way to move switches: nothing depends on the order of the map. */
  lemma MovedOneWay(m: Switches, a: Switches, b: Switches)
    requires MovedTo(m, a) && MovedTo(m, b)
    ensures a == b
  {
    hide CurrentPluginID, Ahead;
    forall id | id in a ensures id in b && a[id] == b[id] {
      if id !in m {
        var saved :| saved in m && CurrentPluginID(saved) == id;
        var left := set x | x in m && IsAlias(x, id);
        assert saved in left;
        FirstExists(left);
        var alias :| IsFirstOf(left, alias);
        assert IsFirstAlias(m, id, alias);
      }
    }
    assert a.Keys == b.Keys;
  }

  ghost predicate AliasBefore(ids: seq<string>, i: nat, k: string)
    requires i <= |ids|
  {
    exists j :: 0 <= j < i && IsAlias(ids[j], k)
  }

  /** The value is that of the first legacy spelling among the first switches in order. */
  ghost predicate FromFirst(m: Switches, ids: seq<string>, i: nat, k: string, value: bool)
    requires i <= |ids|
  {
    exists j :: 0 <= j < i && IsAlias(ids[j], k) && ids[j] in m && value == m[ids[j]] && forall l :: 0 <= l < j ==> !IsAlias(ids[l], k)
  }

  /** How an id stands after the first switches in order were moved. */
  ghost predicate MovingAt(m: Switches, ids: seq<string>, i: nat, e: Switches, k: string)
    requires i <= |ids|
  {
    && (k in e <==> (k in m && (IsCurrent(k) || k !in ids[..i])) || AliasBefore(ids, i, k))
    && (k in e && k in m ==> e[k] == m[k])
    && (k in e && k !in m ==> FromFirst(m, ids, i, k, e[k]))
  }

  ghost predicate Moving(m: Switches, ids: seq<string>, i: nat, e: Switches)
    requires i <= |ids|
  {
    forall k :: MovingAt(m, ids, i, e, k)
  }

  function Moved(e: Switches, id: string): Switches
    requires id in e
  {
    var current := CurrentPluginID(id);
    if current == id then e else (if current in e then e else e[current := e[id]]) - {id}
  }

  lemma AliasBeforeMore(ids: seq<string>, i: nat, k: string)
    requires i < |ids|
    ensures AliasBefore(ids, i + 1, k) <==> AliasBefore(ids, i, k) || IsAlias(ids[i], k)
  {
    hide IsAlias;
  }

  lemma FromFirstMore(m: Switches, ids: seq<string>, i: nat, k: string, value: bool)
    requires i < |ids|
    ensures FromFirst(m, ids, i, k, value) ==> FromFirst(m, ids, i + 1, k, value)
    ensures !AliasBefore(ids, i, k) && IsAlias(ids[i], k) && ids[i] in m && value == m[ids[i]] ==> FromFirst(m, ids, i + 1, k, value)
  {
    hide IsAlias;
  }

  lemma MoveOneAt(m: Switches, ids: seq<string>, i: nat, e: Switches, k: string)
    requires i < |ids| && (forall x :: x in ids <==> x in m) && InOrder(ids)
    requires MovingAt(m, ids, i, e, k) && MovingAt(m, ids, i, e, ids[i])
    ensures ids[i] in e && e[ids[i]] == m[ids[i]] && MovingAt(m, ids, i + 1, Moved(e, ids[i]), k)
  {
    hide CurrentPluginID, Ahead, AliasBefore, FromFirst, InOrder;
    var id := ids[i];
    CurrentIsIdempotent(id);
    OrderedOnce(ids, i);
    assert ids[..i + 1] == ids[..i] + [id];
    AliasBeforeMore(ids, i, k);
    AliasIsCurrent(ids, i + 1, k);
    if k in Moved(e, id) {
      FromFirstMore(m, ids, i, k, Moved(e, id)[k]);
    }
  }

  lemma MoveOne(m: Switches, ids: seq<string>, i: nat, e: Switches)
    requires i < |ids| && (forall x :: x in ids <==> x in m) && InOrder(ids) && Moving(m, ids, i, e)
    ensures ids[i] in e && e[ids[i]] == m[ids[i]] && Moving(m, ids, i + 1, Moved(e, ids[i]))
  {
    hide MovingAt, Moved, InOrder;
    assert MovingAt(m, ids, i, e, ids[i]);
    MoveOneAt(m, ids, i, e, ids[i]);
    var n, next := i + 1, Moved(e, ids[i]);
    forall k ensures MovingAt(m, ids, n, next, k) {
      assert MovingAt(m, ids, i, e, k);
      MoveOneAt(m, ids, i, e, k);
    }
  }

  /** What something is an alias of is current. */
  lemma AliasIsCurrent(ids: seq<string>, n: nat, k: string)
    requires n <= |ids|
    ensures AliasBefore(ids, n, k) ==> IsCurrent(k)
  {
    if j :| 0 <= j < n && IsAlias(ids[j], k) {
      CurrentIsIdempotent(ids[j]);
    }
  }

  lemma OrderedOnce(ids: seq<string>, i: nat)
    requires i < |ids| && InOrder(ids)
    ensures ids[i] !in ids[..i]
  {
    forall j | 0 <= j < i ensures ids[j] != ids[i] {
      assert Ahead(ids[j], ids[i]);
      AheadIsTotal(ids[j], ids[j]);
    }
  }

  lemma MoveDone(m: Switches, ids: seq<string>, e: Switches)
    requires (forall x :: x in ids <==> x in m) && InOrder(ids) && Moving(m, ids, |ids|, e)
    ensures MovedTo(m, e)
  {
    hide CurrentPluginID, Ahead, Moving, InOrder;
    forall id ensures id in e <==> IsCurrent(id) && exists saved :: saved in m && CurrentPluginID(saved) == id {
      MovedKey(m, ids, e, id);
    }
    forall id | id in e && id in m ensures e[id] == m[id] {
      MovedKey(m, ids, e, id);
    }
    forall id, alias | id in e && id !in m && IsFirstAlias(m, id, alias) ensures e[id] == m[alias] {
      MovedKey(m, ids, e, id);
      FirstIsFirstAlias(m, ids, id, alias, e[id]);
    }
  }

  lemma MovedKey(m: Switches, ids: seq<string>, e: Switches, id: string)
    requires (forall x :: x in ids <==> x in m) && Moving(m, ids, |ids|, e)
    ensures id in e <==> IsCurrent(id) && exists saved :: saved in m && CurrentPluginID(saved) == id
    ensures id in e && id in m ==> e[id] == m[id]
    ensures id in e && id !in m ==> FromFirst(m, ids, |ids|, id, e[id])
  {
    hide CurrentPluginID, FromFirst;
    assert ids[..|ids|] == ids;
    assert MovingAt(m, ids, |ids|, e, id);
    AliasIsCurrent(ids, |ids|, id);
    if saved :| saved in m && CurrentPluginID(saved) == id {
      var j :| 0 <= j < |ids| && ids[j] == saved;
      assert saved != id ==> IsAlias(ids[j], id);
    }
    if AliasBefore(ids, |ids|, id) {
      var j :| 0 <= j < |ids| && IsAlias(ids[j], id);
      assert ids[j] in m;
    }
  }

  lemma FirstIsFirstAlias(m: Switches, ids: seq<string>, id: string, alias: string, value: bool)
    requires (forall x :: x in ids <==> x in m) && InOrder(ids)
    requires FromFirst(m, ids, |ids|, id, value) && IsFirstAlias(m, id, alias)
    ensures value == m[alias]
  {
    hide CurrentPluginID, Ahead;
    var j :| 0 <= j < |ids| && IsAlias(ids[j], id) && ids[j] in m && value == m[ids[j]] && forall l :: 0 <= l < j ==> !IsAlias(ids[l], id);
    var a :| 0 <= a < |ids| && ids[a] == alias;
    AheadIsTotal(ids[j], alias);
    assert j <= a;
  }

  // ----- the one-time split

  /** On an upgrade the content switch is inherited where there is no explicit one. */
  function SplitContent(s: Settings): Settings {
    if s.contentSplit || "artifact" !in s.enabled then s.(contentSplit := true)
    else
      var page := if "page-authoring" in s.enabled then s.enabled else s.enabled["page-authoring" := s.enabled["artifact"]];
      Settings(if "sheet-authoring" in page then page else page["sheet-authoring" := s.enabled["artifact"]], true)
  }

  /** What a read makes of saved settings. */
  ghost predicate MigratedTo(s: Settings, after: Settings) {
    exists moved :: MovedTo(s.enabled, moved) && after == SplitContent(s.(enabled := moved))
  }

  method ReadSettings(s: Settings) returns (after: Settings, changed: bool)
    ensures MigratedTo(s, after)
    ensures changed <==> after != s
  {
    hide CurrentPluginID, Ahead, Moving, MovedTo, InOrder;
    changed := false;
    var enabled := s.enabled;
    var ids := SortIds(enabled.Keys);
    NothingMoved(s.enabled, ids);
    for i := 0 to |ids|
      invariant Moving(s.enabled, ids, i, enabled)
      invariant !changed ==> enabled == s.enabled
      invariant changed ==> exists id :: id in s.enabled && !IsCurrent(id)
    {
      var id := ids[i];
      MoveOne(s.enabled, ids, i, enabled);
      var current := CurrentPluginID(id);
      if current == id {
        continue;
      }
      if current !in enabled {
        enabled := enabled[current := enabled[id]];
      }
      enabled := enabled - {id};
      changed := true;
    }
    MoveDone(s.enabled, ids, enabled);
    OnlyCurrentLeft(s.enabled, enabled);
    ghost var moved := enabled;
    var split := s.contentSplit;
    if !split {
      if "artifact" in enabled {
        var value := enabled["artifact"];
        if "page-authoring" !in enabled {
          enabled := enabled["page-authoring" := value];
        }
        if "sheet-authoring" !in enabled {
          enabled := enabled["sheet-authoring" := value];
        }
      }
      split := true;
      changed := true;
    }
    after := Settings(enabled, split);
    assert after == SplitContent(s.(enabled := moved));
  }

  lemma NothingMoved(m: Switches, ids: seq<string>)
    ensures Moving(m, ids, 0, m)
  {
  }

  lemma OnlyCurrentLeft(m: Switches, after: Switches)
    requires MovedTo(m, after)
    ensures forall id :: id in after ==> IsCurrent(id)
  {
  }

  // ----- what that means

  /** Reading what a read stored changes nothing. */
  lemma MigratedOnce(s: Settings, after: Settings, again: Settings)
    requires MigratedTo(s, after) && MigratedTo(after, again)
    ensures again == after
  {
    hide IsCurrent, MovedTo;
    ExplicitSwitchesWin(s, after);
    var twice :| MovedTo(after.enabled, twice) && again == SplitContent(after.(enabled := twice));
    CurrentStay(after.enabled);
    MovedOneWay(after.enabled, twice, after.enabled);
  }

  lemma CurrentStay(m: Switches)
    requires forall id :: id in m ==> IsCurrent(id)
    ensures MovedTo(m, m)
  {
    hide CurrentPluginID, Ahead;
  }

  /** Only current ids are left, and an explicit switch of one keeps its value, also through
      the split. */
  lemma ExplicitSwitchesWin(s: Settings, after: Settings)
    requires MigratedTo(s, after)
    ensures forall id :: id in after.enabled ==> IsCurrent(id)
    ensures forall id :: id in s.enabled && IsCurrent(id) ==> id in after.enabled && after.enabled[id] == s.enabled[id]
    ensures after.contentSplit
  {
    hide CurrentPluginID, Ahead;
    KnownIds();
  }

  /** The split, in terms of the switches once moved: where it was not done yet and there is a
      content switch, page and sheet authoring take its value if they have none of their own;
      no other switch comes or changes, and once done nothing does. */
  lemma SplitInherits(s: Settings, moved: Switches, after: Settings)
    requires MovedTo(s.enabled, moved) && MigratedTo(s, after)
    ensures forall id :: id in moved ==> id in after.enabled && after.enabled[id] == moved[id]
    ensures if s.contentSplit || "artifact" !in moved then after.enabled == moved
            else after.enabled.Keys == moved.Keys + {"page-authoring", "sheet-authoring"} &&
                 forall id :: id in after.enabled && id !in moved ==> after.enabled[id] == moved["artifact"]
  {
    hide MovedTo;
    var other :| MovedTo(s.enabled, other) && after == SplitContent(s.(enabled := other));
    MovedOneWay(s.enabled, moved, other);
  }

  /** "subagent" counts rather than any other spelling of its plugin. */
  lemma SubagentWins(m: Switches, after: Switches)
    requires MovedTo(m, after) && "subsession" !in m && "subagent" in m
    ensures "subsession" in after && after["subsession"] == m["subagent"]
  {
    KnownIds();
    hide CurrentPluginID, Less;
    assert IsAlias("subagent", "subsession") by { SubagentIsAnother(); }
    assert IsFirstAlias(m, "subsession", "subagent");
  }

  lemma SubagentIsAnother()
    ensures "subagent" != "subsession"
  {
    assert "subagent"[3] == 'a' && "subsession"[3] == 's';
  }

  /** Among trimmed spellings "artifacts" counts rather than the older "studio". */
  lemma ArtifactsWins(m: Switches, after: Switches)
    requires MovedTo(m, after) && "artifact" !in m && "artifacts" in m
    requires forall id :: id in m ==> Trimmed(id)
    ensures "artifact" in after && after["artifact"] == m["artifacts"]
  {
    KnownIds();
    ArtifactSpellings(m);
    hide CurrentPluginID, Ahead, Trimmed;
    assert IsFirstAlias(m, "artifact", "artifacts");
  }

  lemma ArtifactSpellings(m: Switches)
    requires forall id :: id in m ==> Trimmed(id)
    ensures IsAlias("artifacts", "artifact")
    ensures forall id :: id in m && IsAlias(id, "artifact") && id != "artifacts" ==> Ahead("artifacts", id)
  {
    hide Trim, Trimmed;
    assert Trimmed("artifacts") by { ArtifactsTrimmed(); }
    TrimIsTrimmed("artifacts");
    forall id | id in m && IsAlias(id, "artifact") && id != "artifacts" ensures Ahead("artifacts", id) {
      TrimIsTrimmed(id);
      assert id == "studio";
      assert "artifacts"[0] < "studio"[0];
    }
  }

  lemma ArtifactsTrimmed()
    ensures Trimmed("artifacts")
  {
  }
}
