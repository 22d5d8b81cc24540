/** A provider's saved models: cleaning a list, grouping it by family, and merging the
    provider's catalogue into it. */
module ProviderModels {

  import opened Results
  import opened Text
  import opened Regrouping

  datatype Caps = Caps(image: bool, audio: bool, tools: bool)

  datatype Limits = Limits(maxOutputTokens: int, maxToolLoops: int)

  datatype Model = Model(
    id: string,
    displayName: string,
    contextWindow: int,
    costMultiplier: Option<real>,
    capabilities: Option<Caps>,
    limits: Option<Limits>,
    options: Option<string>,
    unavailable: bool)

  /** A model in the catalogue; of its limits only the output tokens are taken over. */
  datatype Candidate = Candidate(
    id: string,
    displayName: string,
    contextWindow: int,
    costMultiplier: Option<real>,
    capabilities: map<string, bool>,
    maxOutputTokens: Option<int>)

  // ----- cleaning and grouping

  function Tidied(m: Model): Model {
    m.(id := Trim(m.id), displayName := Trim(m.displayName))
  }

  function IdsOf(ms: seq<Model>): set<string> {
    set i | 0 <= i < |ms| :: ms[i].id
  }

  /** The first model of every id that is not empty, tidied. */
  function Firsts(ms: seq<Model>): seq<Model> {
    if ms == [] then []
    else
      var before, m := Firsts(ms[..|ms| - 1]), Tidied(ms[|ms| - 1]);
      if m.id == "" || m.id in IdsOf(before) then before else before + [m]
  }

  /** A model's family by its id, or else by its name; without one it stands alone. */
  function FamilyKey(family: string -> string, m: Model): Key<string> {
    var f := if family(m.id) != "" then family(m.id) else family(m.displayName);
    if f == "" then Single else Group(f)
  }

  function FamilyKeys(family: string -> string, ms: seq<Model>): (keys: seq<Key<string>>)
    ensures |keys| == |ms| && forall i :: 0 <= i < |ms| ==> keys[i] == FamilyKey(family, ms[i])
  {
    seq(|ms|, i requires 0 <= i < |ms| => FamilyKey(family, ms[i]))
  }

  ghost function Grouped(family: string -> string, ms: seq<Model>): (out: seq<Model>)
    ensures |out| == |ms|
  {
    Pick(ms, Regroup(FamilyKeys(family, ms), |ms|))
  }

  /** The groups and their index hold the models up to `i`. */
  ghost predicate Grouping(family: string -> string, ms: seq<Model>, i: nat, groups: seq<seq<Model>>, slots: seq<seq<nat>>,
                           indices: map<string, nat>) {
    Tracks(ms, FamilyKeys(family, ms), 0, i, [], groups, slots, indices)
  }

  lemma GroupingStarts(family: string -> string, ms: seq<Model>)
    ensures Grouping(family, ms, 0, [], [], map[])
  {
    Started(ms, FamilyKeys(family, ms));
  }

  lemma GroupingEnds(family: string -> string, ms: seq<Model>, groups: seq<seq<Model>>, slots: seq<seq<nat>>, indices: map<string, nat>)
    requires Grouping(family, ms, |ms|, groups, slots, indices)
    ensures Flatten(groups) == Grouped(family, ms)
  {
    Flushed(ms, FamilyKeys(family, ms), 0, |ms|, [], groups, slots, indices);
    assert [] + Flatten(groups) == Flatten(groups);
  }

  lemma GroupingAtKnown(family: string -> string, ms: seq<Model>, i: nat, groups: seq<seq<Model>>, slots: seq<seq<nat>>,
                        indices: map<string, nat>, f: string)
    returns (wider: seq<seq<nat>>)
    requires Grouping(family, ms, i, groups, slots, indices) && i < |ms| && FamilyKey(family, ms[i]) == Group(f) && f in indices
    ensures indices[f] < |groups|
    ensures Grouping(family, ms, i + 1, AppendTo(groups, indices[f], ms[i]), wider, indices)
  {
    wider := AtKnown(ms, FamilyKeys(family, ms), 0, i, [], groups, slots, indices, f);
  }

  lemma GroupingAtNew(family: string -> string, ms: seq<Model>, i: nat, groups: seq<seq<Model>>, slots: seq<seq<nat>>,
                      indices: map<string, nat>)
    returns (wider: seq<seq<nat>>)
    requires Grouping(family, ms, i, groups, slots, indices) && i < |ms|
    requires FamilyKey(family, ms[i]).Group? ==> FamilyKey(family, ms[i]).k !in indices
    ensures Grouping(family, ms, i + 1, groups + [[ms[i]]], wider,
                     if FamilyKey(family, ms[i]).Group? then indices[FamilyKey(family, ms[i]).k := |groups|] else indices)
  {
    wider := AtNew(ms, FamilyKeys(family, ms), 0, i, [], groups, slots, indices);
  }

  lemma NothingFlattened(groups: seq<seq<Model>>)
    ensures Flatten(groups[..0]) == []
  {
  }

  method GroupModelsByFamily(family: string -> string, ms: seq<Model>) returns (ordered: seq<Model>)
    ensures ordered == Grouped(family, ms)
  {
    hide Grouping, Grouped, Flatten;
    var groups: seq<seq<Model>>, indices: map<string, nat> := [], map[];
    ghost var slots: seq<seq<nat>> := [];
    GroupingStarts(family, ms);
    for i := 0 to |ms|
      invariant Grouping(family, ms, i, groups, slots, indices)
    {
      var model := ms[i];
      var f := family(model.id);
      if f == "" {
        f := family(model.displayName);
      }
      if f != "" && f in indices {
        slots := GroupingAtKnown(family, ms, i, groups, slots, indices, f);
        groups := AppendTo(groups, indices[f], model);
        continue;
      }
      slots := GroupingAtNew(family, ms, i, groups, slots, indices);
      if f != "" {
        indices := indices[f := |groups|];
      }
      groups := groups + [[model]];
    }
    GroupingEnds(family, ms, groups, slots, indices);
    ordered := [];
    NothingFlattened(groups);
    for g := 0 to |groups|
      invariant ordered == Flatten(groups[..g])
    {
      assert Flatten(groups[..g + 1]) == Flatten(groups[..g]) + groups[g] by {
        assert groups[..g + 1] == groups[..g] + [groups[g]];
        FlattenMore(groups[..g], groups[g]);
      }
      ordered := ordered + groups[g];
    }
    assert groups[..|groups|] == groups;
  }

  ghost function Cleaned(family: string -> string, ms: seq<Model>): seq<Model> {
    Grouped(family, Firsts(ms))
  }

  method CleanModels(family: string -> string, ms: seq<Model>) returns (out: seq<Model>)
    ensures out == Cleaned(family, ms)
  {
    hide Grouped;
    out := [];
    var seen: set<string> := {};
    for i := 0 to |ms|
      invariant out == Firsts(ms[..i]) && seen == IdsOf(out)
    {
      assert ms[..i + 1][..i] == ms[..i];
      var m := Tidied(ms[i]);
      if m.id == "" || m.id in seen {
        continue;
      }
      IdsMore(out, m);
      seen := seen + {m.id};
      out := out + [m];
    }
    assert ms[..|ms|] == ms;
    out := GroupModelsByFamily(family, out);
  }

  // ----- the catalogue

  function Reported(reported: map<string, bool>, name: string, otherwise: bool): bool {
    if name in reported then reported[name] else otherwise
  }

  /** Without a report nothing changes; a capability that is not reported keeps its value,
      and starts as tools and nothing else. */
  function MergedCapabilities(existing: Option<Caps>, reported: map<string, bool>): Option<Caps> {
    if reported == map[] then existing
    else
      var caps := if existing.Some? then existing.value else Caps(false, false, true);
      Some(Caps(Reported(reported, "image", caps.image), Reported(reported, "audio", caps.audio), Reported(reported, "tools", caps.tools)))
  }

  /** The last candidate of every id that is not empty. */
  function Catalogue(cs: seq<Candidate>): map<string, Candidate> {
    if cs == [] then map[]
    else
      var before, c := Catalogue(cs[..|cs| - 1]), cs[|cs| - 1];
      if Trim(c.id) != "" then before[Trim(c.id) := c] else before
  }

  /** A saved model, brought up to date with its candidate or marked as gone. */
  function BuzzHiveUpdated(m: Model, catalogue: map<string, Candidate>): Model {
    if Trim(m.id) !in catalogue then m.(unavailable := true)
    else
      var c := catalogue[Trim(m.id)];
      m.(unavailable := false, contextWindow := c.contextWindow, costMultiplier := c.costMultiplier,
         limits := if c.maxOutputTokens.Some?
                   then Some(Limits(c.maxOutputTokens.value, if m.limits.Some? then m.limits.value.maxToolLoops else 0))
                   else m.limits,
         capabilities := MergedCapabilities(m.capabilities, c.capabilities))
  }

  function NewModel(c: Candidate): Model {
    Model(Trim(c.id), Trim(c.displayName), c.contextWindow, c.costMultiplier, MergedCapabilities(None, c.capabilities),
          if c.maxOutputTokens.Some? then Some(Limits(c.maxOutputTokens.value, 0)) else None, None, false)
  }

  function OpenRouterUpdated(m: Model, catalogue: map<string, Candidate>): Model {
    if Trim(m.id) !in catalogue then m.(unavailable := true)
    else
      var c := catalogue[Trim(m.id)];
      m.(unavailable := false, contextWindow := if c.contextWindow > 0 then c.contextWindow else m.contextWindow,
         costMultiplier := c.costMultiplier, capabilities := MergedCapabilities(m.capabilities, c.capabilities))
  }

  /** Every model of a list, updated. */
  function Updated(update: (Model, map<string, Candidate>) -> Model, ms: seq<Model>, catalogue: map<string, Candidate>): (r: seq<Model>)
    ensures |r| == |ms| && forall i :: 0 <= i < |ms| ==> r[i] == update(ms[i], catalogue)
  {
    seq(|ms|, i requires 0 <= i < |ms| => update(ms[i], catalogue))
  }

  function TrimmedIds(ms: seq<Model>): set<string> {
    set i | 0 <= i < |ms| :: Trim(ms[i].id)
  }

  /** The first candidate of every id that is not empty and not known, as models. */
  function Added(cs: seq<Candidate>, known: set<string>): seq<Model> {
    if cs == [] then []
    else
      var before, c := Added(cs[..|cs| - 1], known), cs[|cs| - 1];
      if Trim(c.id) == "" || Trim(c.id) in known || Trim(c.id) in IdsOf(before) then before else before + [NewModel(c)]
  }

  function BuzzHiveMerged(existing: seq<Model>, cs: seq<Candidate>): seq<Model> {
    Updated(BuzzHiveUpdated, existing, Catalogue(cs)) + Added(cs, TrimmedIds(existing) * Catalogue(cs).Keys)
  }

  ghost function BuzzHiveSynced(family: string -> string, existing: seq<Model>, cs: seq<Candidate>): seq<Model> {
    Cleaned(family, BuzzHiveMerged(existing, cs))
  }

  ghost function OpenRouterSynced(family: string -> string, existing: seq<Model>, cs: seq<Candidate>): seq<Model> {
    Cleaned(family, Updated(OpenRouterUpdated, existing, Catalogue(cs)))
  }

  method CatalogueOf(cs: seq<Candidate>) returns (catalogue: map<string, Candidate>)
    ensures catalogue == Catalogue(cs)
  {
    catalogue := map[];
    for i := 0 to |cs|
      invariant catalogue == Catalogue(cs[..i])
    {
      assert cs[..i + 1][..i] == cs[..i];
      var id := Trim(cs[i].id);
      if id != "" {
        catalogue := catalogue[id := cs[i]];
      }
    }
    assert cs[..|cs|] == cs;
  }

  method SyncBuzzHiveModels(family: string -> string, existing: seq<Model>, cs: seq<Candidate>) returns (out: seq<Model>)
    ensures out == BuzzHiveSynced(family, existing, cs)
  {
    hide Cleaned, Trim, MergedCapabilities, Catalogue, Added, IdsOf, TrimmedIds, NewModel;
    var catalogue := CatalogueOf(cs);
    var merged: seq<Model>, seen: set<string> := [], {};
    NothingYet(existing, cs);
    for i := 0 to |existing|
      invariant |merged| == i && forall j :: 0 <= j < i ==> merged[j] == BuzzHiveUpdated(existing[j], catalogue)
      invariant seen == TrimmedIds(existing[..i]) * catalogue.Keys
    {
      var m := existing[i];
      var id := Trim(m.id);
      TrimmedIdsMore(existing, i);
      if id !in catalogue {
        merged := merged + [m.(unavailable := true)];
        continue;
      }
      var c := catalogue[id];
      seen := seen + {id};
      m := m.(unavailable := false, contextWindow := c.contextWindow, costMultiplier := c.costMultiplier);
      if c.maxOutputTokens.Some? {
        m := m.(limits := Some(Limits(c.maxOutputTokens.value, if m.limits.Some? then m.limits.value.maxToolLoops else 0)));
      }
      merged := merged + [m.(capabilities := MergedCapabilities(m.capabilities, c.capabilities))];
    }
    assert existing[..|existing|] == existing;
    assert merged == Updated(BuzzHiveUpdated, existing, catalogue);
    merged := AddCandidates(cs, seen, merged);
    out := CleanModels(family, merged);
  }

  lemma NothingYet(existing: seq<Model>, cs: seq<Candidate>)
    ensures TrimmedIds(existing[..0]) == {} && forall known :: Added(cs[..0], known) == [] && IdsOf(Added(cs[..0], known)) == {}
  {
  }

  /** The second loop of the merge: candidates nobody had saved. */
  method AddCandidates(cs: seq<Candidate>, known: set<string>, updated: seq<Model>) returns (merged: seq<Model>)
    ensures merged == updated + Added(cs, known)
  {
    hide Trim, Added, IdsOf, NewModel;
    var seen := known;
    merged := updated;
    NothingYet([], cs);
    for i := 0 to |cs|
      invariant merged == updated + Added(cs[..i], known)
      invariant seen == known + IdsOf(Added(cs[..i], known))
    {
      var id := Trim(cs[i].id);
      AddedMore(cs, known, i);
      if id == "" || id in seen {
        continue;
      }
      seen := seen + {id};
      merged := merged + [NewModel(cs[i])];
    }
    assert cs[..|cs|] == cs;
  }

  lemma AddedMore(cs: seq<Candidate>, known: set<string>, i: nat)
    requires i < |cs|
    ensures var before, id := Added(cs[..i], known), Trim(cs[i].id);
            var after := Added(cs[..i + 1], known);
            if id == "" || id in known + IdsOf(before) then after == before
            else after == before + [NewModel(cs[i])] && IdsOf(after) == IdsOf(before) + {id}
  {
    hide Trim, IdsOf;
    assert cs[..i + 1][..i] == cs[..i];
    IdsMore(Added(cs[..i], known), NewModel(cs[i]));
  }

  lemma TrimmedIdsMore(ms: seq<Model>, i: nat)
    requires i < |ms|
    ensures TrimmedIds(ms[..i + 1]) == TrimmedIds(ms[..i]) + {Trim(ms[i].id)}
  {
    assert forall j :: 0 <= j < i ==> ms[..i + 1][j] == ms[..i][j];
    assert ms[..i + 1][i] == ms[i];
  }

  lemma IdsMore(ms: seq<Model>, m: Model)
    ensures IdsOf(ms + [m]) == IdsOf(ms) + {m.id}
  {
    assert forall j :: 0 <= j < |ms| ==> (ms + [m])[j] == ms[j];
    assert (ms + [m])[|ms|] == m;
  }

  method SyncOpenRouterModels(family: string -> string, existing: seq<Model>, cs: seq<Candidate>) returns (out: seq<Model>)
    ensures out == OpenRouterSynced(family, existing, cs)
  {
    hide Cleaned, Trim, MergedCapabilities;
    var catalogue := CatalogueOf(cs);
    var merged: seq<Model> := [];
    for i := 0 to |existing|
      invariant |merged| == i && forall j :: 0 <= j < i ==> merged[j] == OpenRouterUpdated(existing[j], catalogue)
    {
      var m := existing[i];
      var id := Trim(m.id);
      if id !in catalogue {
        merged := merged + [m.(unavailable := true)];
        continue;
      }
      var c := catalogue[id];
      m := m.(unavailable := false);
      if c.contextWindow > 0 {
        m := m.(contextWindow := c.contextWindow);
      }
      merged := merged + [m.(costMultiplier := c.costMultiplier, capabilities := MergedCapabilities(m.capabilities, c.capabilities))];
    }
    assert merged == Updated(OpenRouterUpdated, existing, catalogue);
    out := CleanModels(family, merged);
  }
}
