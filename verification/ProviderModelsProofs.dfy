/** What a merge with a provider's catalogue guarantees, and when repeating it changes
    nothing. */
module ProviderModelsProofs {

  import opened Results
  import opened Text
  import opened Regrouping
  import opened ProviderModels

  predicate DistinctIds(ms: seq<Model>) {
    forall i, j :: 0 <= i < j < |ms| ==> ms[i].id != ms[j].id
  }

  /** Nothing for a cleaning to do but group. */
  predicate Clean(ms: seq<Model>) {
    DistinctIds(ms) && forall i :: 0 <= i < |ms| ==> ms[i].id != "" && Tidied(ms[i]) == ms[i]
  }

  lemma InIds(ms: seq<Model>, id: string)
    ensures id in IdsOf(ms) <==> exists i :: 0 <= i < |ms| && ms[i].id == id
  {
  }

  lemma TidiedTwice(m: Model)
    ensures Tidied(Tidied(m)) == Tidied(m)
  {
    hide Trim;
    TrimIsTrimmed(m.id);
    TrimIsTrimmed(m.displayName);
    TrimIsTrimmed(Trim(m.id));
    TrimIsTrimmed(Trim(m.displayName));
  }

  // ----- cleaning

  lemma {:induction false} FirstsAreClean(ms: seq<Model>)
    ensures Clean(Firsts(ms))
    ensures IdsOf(Firsts(ms)) == TrimmedIds(ms) - {""}
  {
    hide Trim;
    if ms != [] {
      var n := |ms| - 1;
      FirstsAreClean(ms[..n]);
      TidiedTwice(ms[n]);
      TrimmedIdsMore(ms, n);
      assert ms[..n + 1] == ms;
      IdsMore(Firsts(ms[..n]), Tidied(ms[n]));
      CleanMore(Firsts(ms[..n]), Tidied(ms[n]));
      hide Clean, Tidied, IdsOf, TrimmedIds;
    }
  }

  lemma CleanMore(ms: seq<Model>, m: Model)
    requires Clean(ms) && Tidied(m) == m
    ensures m.id != "" && m.id !in IdsOf(ms) ==> Clean(ms + [m])
  {
    hide Tidied;
    forall i | 0 <= i < |ms| ensures ms[i].id in IdsOf(ms) {}
  }

  /** Each first model is the tidied form of one in the list. */
  lemma {:induction false} FirstsComeFrom(ms: seq<Model>, i: nat)
    requires i < |Firsts(ms)|
    ensures exists j :: 0 <= j < |ms| && Firsts(ms)[i] == Tidied(ms[j])
  {
    hide Tidied;
    var n := |ms| - 1;
    if i < |Firsts(ms[..n])| {
      FirstsComeFrom(ms[..n], i);
      var j :| 0 <= j < n && Firsts(ms[..n])[i] == Tidied(ms[..n][j]);
      assert Firsts(ms)[i] == Tidied(ms[j]);
    } else {
      assert Firsts(ms)[i] == Tidied(ms[n]);
    }
  }

  lemma {:induction false} FirstsOfClean(ms: seq<Model>)
    requires Clean(ms)
    ensures Firsts(ms) == ms
  {
    hide Tidied;
    if ms != [] {
      var n := |ms| - 1;
      FirstsOfClean(ms[..n]);
      InIds(ms[..n], ms[n].id);
      assert ms == ms[..n] + [ms[n]];
    }
  }

  /** Grouping rearranges. */
  lemma GroupedFrom(family: string -> string, ms: seq<Model>, a: nat) returns (i: nat)
    requires a < |ms|
    ensures i < |ms| && Grouped(family, ms)[a] == ms[i]
  {
    hide Regroup;
    i := Regroup(FamilyKeys(family, ms), |ms|)[a];
  }

  lemma GroupedTo(family: string -> string, ms: seq<Model>, i: nat) returns (a: nat)
    requires i < |ms|
    ensures a < |ms| && Grouped(family, ms)[a] == ms[i]
  {
    hide Regroup;
    var p := Regroup(FamilyKeys(family, ms), |ms|);
    RegroupIs(FamilyKeys(family, ms), |ms|);
    assert i in p;
    a :| 0 <= a < |p| && p[a] == i;
  }

  lemma GroupedKeepsClean(family: string -> string, ms: seq<Model>)
    requires Clean(ms)
    ensures Clean(Grouped(family, ms)) && IdsOf(Grouped(family, ms)) == IdsOf(ms)
  {
    hide Regroup, Tidied;
    var out, p := Grouped(family, ms), Regroup(FamilyKeys(family, ms), |ms|);
    RegroupIs(FamilyKeys(family, ms), |ms|);
    GroupedOrder(FamilyKeys(family, ms), p);
    forall id ensures id in IdsOf(out) <==> id in IdsOf(ms) {
      InIds(out, id);
      InIds(ms, id);
      if i :| 0 <= i < |ms| && ms[i].id == id {
        var a := GroupedTo(family, ms, i);
      }
    }
  }

  lemma GroupedOrder(keys: seq<Key<string>>, p: seq<nat>)
    requires IsRegrouping(keys, |keys|, p)
    ensures forall a, b :: 0 <= a < b < |p| ==> p[a] != p[b]
  {
    hide First;
  }

  /** Families are together, in order of first appearance, and each keeps its order; and no
      other arrangement does that. */
  lemma FamiliesTogether(family: string -> string, ms: seq<Model>, p: seq<nat>)
    requires Gathers(FamilyKeys(family, ms), |ms|, p)
    ensures Pick(ms, p) == Grouped(family, ms)
  {
    GathersIsRegrouping(FamilyKeys(family, ms), |ms|, p);
  }

  lemma GroupedOnce(family: string -> string, ms: seq<Model>)
    ensures Grouped(family, Grouped(family, ms)) == Grouped(family, ms)
  {
    var keys := FamilyKeys(family, ms);
    var out := Grouped(family, ms);
    assert FamilyKeys(family, out) == Pick(keys, Regroup(keys, |keys|));
    Idempotent(keys);
    assert Pick(out, Indices(|out|)) == out;
  }

  /** Between two models of one family there are only models of that family. */
  lemma FamilyIsTogether(family: string -> string, ms: seq<Model>, a: nat, m: nat, b: nat)
    requires a <= m <= b < |ms|
    requires var out := Grouped(family, ms); FamilyKey(family, out[a]).Group? && FamilyKey(family, out[a]) == FamilyKey(family, out[b])
    ensures var out := Grouped(family, ms); FamilyKey(family, out[m]) == FamilyKey(family, out[a])
  {
    hide Regroup, First, Joins;
    var out, keys := Grouped(family, ms), FamilyKeys(family, Grouped(family, ms));
    GroupedOnce(family, ms);
    GroupedStays(family, ms);
    JoinedWithout(keys, a, b);
    FirstOfJoined(keys, a, b);
    Contiguous(keys, |keys|, a, m, b);
    FirstJoins(keys, a);
    FirstJoins(keys, m);
    SameFirstSameKey(keys, a, m);
  }

  /** Without barriers an equal key is enough to be in one group. */
  lemma JoinedWithout(keys: seq<Key<string>>, j: nat, i: nat)
    requires j <= i < |keys| && keys[j].Group? && keys[j] == keys[i] && forall m :: 0 <= m < |keys| ==> !keys[m].Barrier?
    ensures Joins(keys, j, i)
  {
  }

  lemma SameFirstSameKey(keys: seq<Key<string>>, a: nat, m: nat)
    requires a < |keys| && m < |keys| && keys[a].Group? && First(keys, a) == First(keys, m)
    ensures keys[m] == keys[a]
  {
    FirstJoins(keys, a);
    FirstJoins(keys, m);
  }

  lemma GroupedStays(family: string -> string, ms: seq<Model>)
    ensures var keys := FamilyKeys(family, Grouped(family, ms)); Regroup(keys, |keys|) == Indices(|keys|)
  {
    var keys := FamilyKeys(family, ms);
    assert FamilyKeys(family, Grouped(family, ms)) == Pick(keys, Regroup(keys, |keys|));
    Idempotent(keys);
  }

  /** A cleaned list has every id that is not empty exactly once, and cleaning it again
      changes nothing. */
  lemma CleaningCleans(family: string -> string, ms: seq<Model>)
    ensures Clean(Cleaned(family, ms)) && IdsOf(Cleaned(family, ms)) == TrimmedIds(ms) - {""}
    ensures Cleaned(family, Cleaned(family, ms)) == Cleaned(family, ms)
  {
    hide Firsts, Grouped, Clean;
    FirstsAreClean(ms);
    GroupedKeepsClean(family, Firsts(ms));
    FirstsOfClean(Cleaned(family, ms));
    GroupedOnce(family, Firsts(ms));
  }

  /** Each cleaned model is the tidied form of one in the list. */
  lemma CleanedFrom(family: string -> string, ms: seq<Model>, a: nat) returns (j: nat)
    requires a < |Cleaned(family, ms)|
    ensures j < |ms| && Cleaned(family, ms)[a] == Tidied(ms[j])
  {
    hide Firsts, Tidied;
    var i := GroupedFrom(family, Firsts(ms), a);
    FirstsComeFrom(ms, i);
    j :| 0 <= j < |ms| && Firsts(ms)[i] == Tidied(ms[j]);
  }

  // ----- the catalogue

  lemma {:induction false} CatalogueIds(cs: seq<Candidate>)
    ensures forall id :: id in Catalogue(cs) ==> id != "" && Trim(id) == id && Trim(Catalogue(cs)[id].id) == id
    ensures forall i :: 0 <= i < |cs| && Trim(cs[i].id) != "" ==> Trim(cs[i].id) in Catalogue(cs)
  {
    hide Trim;
    if cs != [] {
      CatalogueIds(cs[..|cs| - 1]);
      TrimIsTrimmed(cs[|cs| - 1].id);
      TrimIsTrimmed(Trim(cs[|cs| - 1].id));
    }
  }

  /** The candidate is the first of its id, and the id is not known. */
  predicate FirstNew(cs: seq<Candidate>, known: set<string>, i: nat)
    requires i < |cs|
  {
    && Trim(cs[i].id) != "" && Trim(cs[i].id) !in known
    && forall j :: 0 <= j < i ==> Trim(cs[j].id) != Trim(cs[i].id)
  }

  lemma {:induction false} AddedIds(cs: seq<Candidate>, known: set<string>)
    ensures IdsOf(Added(cs, known)) == Catalogue(cs).Keys - known
    ensures DistinctIds(Added(cs, known))
  {
    hide Trim;
    if cs != [] {
      var n := |cs| - 1;
      AddedIds(cs[..n], known);
      IdsMore(Added(cs[..n], known), NewModel(cs[n]));
      forall i | 0 <= i < |Added(cs[..n], known)| ensures Added(cs[..n], known)[i].id in IdsOf(Added(cs[..n], known)) {}
    }
  }

  lemma {:induction false} AddedFrom(cs: seq<Candidate>, known: set<string>, a: nat) returns (i: nat)
    requires a < |Added(cs, known)|
    ensures i < |cs| && FirstNew(cs, known, i) && Added(cs, known)[a] == NewModel(cs[i])
  {
    hide Trim, NewModel;
    var n := |cs| - 1;
    if a < |Added(cs[..n], known)| {
      i := AddedFrom(cs[..n], known, a);
    } else {
      i := n;
      AddedIds(cs[..n], known);
      CatalogueIds(cs[..n]);
    }
  }

  lemma {:induction false} AddedTo(cs: seq<Candidate>, known: set<string>, i: nat) returns (a: nat)
    requires i < |cs| && FirstNew(cs, known, i)
    ensures a < |Added(cs, known)| && Added(cs, known)[a] == NewModel(cs[i])
  {
    hide Trim, NewModel;
    var n := |cs| - 1;
    if i < n {
      a := AddedTo(cs[..n], known, i);
    } else {
      a := |Added(cs[..n], known)|;
      AddedIds(cs[..n], known);
      NotInCatalogue(cs[..n], Trim(cs[n].id));
    }
  }

  lemma {:induction false} NotInCatalogue(cs: seq<Candidate>, id: string)
    requires forall j :: 0 <= j < |cs| ==> Trim(cs[j].id) != id
    ensures id !in Catalogue(cs)
  {
    if cs != [] {
      NotInCatalogue(cs[..|cs| - 1], id);
    }
  }

  // ----- what a merge promises

  lemma UpdatedIds(existing: seq<Model>, cs: seq<Candidate>)
    ensures TrimmedIds(Updated(BuzzHiveUpdated, existing, Catalogue(cs))) == TrimmedIds(existing)
    ensures TrimmedIds(Updated(OpenRouterUpdated, existing, Catalogue(cs))) == TrimmedIds(existing)
  {
    hide Trim, Catalogue, MergedCapabilities;
  }

  lemma TrimmedIdsAppend(a: seq<Model>, b: seq<Model>)
    ensures TrimmedIds(a + b) == TrimmedIds(a) + TrimmedIds(b)
  {
    assert forall i :: 0 <= i < |a| ==> (a + b)[i] == a[i];
    assert forall i :: 0 <= i < |b| ==> (a + b)[|a| + i] == b[i];
  }

  lemma AddedTrimmed(cs: seq<Candidate>, known: set<string>)
    ensures TrimmedIds(Added(cs, known)) == IdsOf(Added(cs, known))
  {
    hide Trim, Added;
    var ms := Added(cs, known);
    forall a | 0 <= a < |ms| ensures Trim(ms[a].id) == ms[a].id {
      var i := AddedFrom(cs, known, a);
      TrimIsTrimmed(cs[i].id);
      TrimIsTrimmed(Trim(cs[i].id));
    }
  }

  /** A merge has every id of either list that is not empty, exactly once. */
  lemma MergeHasEveryIdOnce(family: string -> string, existing: seq<Model>, cs: seq<Candidate>)
    ensures DistinctIds(BuzzHiveSynced(family, existing, cs))
    ensures IdsOf(BuzzHiveSynced(family, existing, cs)) == TrimmedIds(existing) + Catalogue(cs).Keys - {""}
  {
    hide Updated, Added, Catalogue, Cleaned, Tidied;
    var known := TrimmedIds(existing) * Catalogue(cs).Keys;
    CleaningCleans(family, BuzzHiveMerged(existing, cs));
    UpdatedIds(existing, cs);
    TrimmedIdsAppend(Updated(BuzzHiveUpdated, existing, Catalogue(cs)), Added(cs, known));
    AddedTrimmed(cs, known);
    AddedIds(cs, known);
  }

  /** A merged model comes from a saved one or from a candidate nobody had saved. */
  lemma MergedFrom(family: string -> string, existing: seq<Model>, cs: seq<Candidate>, a: nat) returns (saved: bool, j: nat)
    requires a < |BuzzHiveSynced(family, existing, cs)|
    ensures saved ==>
      && j < |existing|
      && BuzzHiveSynced(family, existing, cs)[a] == Tidied(BuzzHiveUpdated(existing[j], Catalogue(cs)))
    ensures !saved ==>
      && j < |cs| && FirstNew(cs, TrimmedIds(existing), j)
      && BuzzHiveSynced(family, existing, cs)[a] == NewModel(cs[j])
  {
    hide Cleaned, Added, Catalogue, NewModel, BuzzHiveUpdated;
    var known := TrimmedIds(existing) * Catalogue(cs).Keys;
    j := CleanedFrom(family, BuzzHiveMerged(existing, cs), a);
    saved := j < |existing|;
    if !saved {
      var i := AddedFrom(cs, known, j - |existing|);
      CatalogueIds(cs);
      NewIsTidied(cs[i]);
      j := i;
    }
  }

  lemma NewIsTidied(c: Candidate)
    ensures Tidied(NewModel(c)) == NewModel(c)
  {
    hide Trim, MergedCapabilities;
    TrimIsTrimmed(c.id);
    TrimIsTrimmed(Trim(c.id));
    TrimIsTrimmed(c.displayName);
    TrimIsTrimmed(Trim(c.displayName));
  }

  lemma UpdatedMarks(m: Model, catalogue: map<string, Candidate>)
    ensures Tidied(BuzzHiveUpdated(m, catalogue)).unavailable <==> Tidied(BuzzHiveUpdated(m, catalogue)).id !in catalogue
    ensures Tidied(OpenRouterUpdated(m, catalogue)).unavailable <==> Tidied(OpenRouterUpdated(m, catalogue)).id !in catalogue
  {
    hide Trim, MergedCapabilities;
  }

  /** After a merge a model is marked unavailable exactly when the catalogue lacks it. */
  lemma MergeMarksMissing(family: string -> string, existing: seq<Model>, cs: seq<Candidate>, a: nat)
    requires a < |BuzzHiveSynced(family, existing, cs)|
    ensures var m := BuzzHiveSynced(family, existing, cs)[a]; m.unavailable <==> m.id !in Catalogue(cs)
  {
    hide Cleaned, Added, BuzzHiveUpdated, Catalogue, BuzzHiveSynced, Trim, Tidied, MergedCapabilities;
    var saved, j := MergedFrom(family, existing, cs, a);
    CatalogueIds(cs);
    if saved {
      UpdatedMarks(existing[j], Catalogue(cs));
    }
  }

  // ----- merging twice

  lemma MergedCapabilitiesTwice(existing: Option<Caps>, reported: map<string, bool>)
    ensures MergedCapabilities(MergedCapabilities(existing, reported), reported) == MergedCapabilities(existing, reported)
  {
  }

  /** Bringing a model up to date twice is bringing it up to date once. */
  lemma UpdatedTwice(m: Model, catalogue: map<string, Candidate>)
    ensures var u := Tidied(BuzzHiveUpdated(m, catalogue)); BuzzHiveUpdated(u, catalogue) == u
    ensures var u := Tidied(OpenRouterUpdated(m, catalogue)); OpenRouterUpdated(u, catalogue) == u
  {
    hide Trim, MergedCapabilities;
    TrimIsTrimmed(m.id);
    TrimIsTrimmed(Trim(m.id));
    if Trim(m.id) in catalogue {
      MergedCapabilitiesTwice(m.capabilities, catalogue[Trim(m.id)].capabilities);
    }
  }

  /** The values a merge takes from the last candidate of an id are those a new model got
      from the first. */
  predicate Agrees(first: Candidate, last: Candidate) {
    && first.contextWindow == last.contextWindow && first.costMultiplier == last.costMultiplier
    && (last.maxOutputTokens.Some? ==> first.maxOutputTokens == last.maxOutputTokens)
    && MergedCapabilities(MergedCapabilities(None, first.capabilities), last.capabilities) == MergedCapabilities(None, first.capabilities)
  }

  lemma AgreeingStays(first: Candidate, catalogue: map<string, Candidate>)
    requires Trim(first.id) in catalogue
    ensures BuzzHiveUpdated(NewModel(first), catalogue) == NewModel(first) <==> Agrees(first, catalogue[Trim(first.id)])
  {
    hide Trim, MergedCapabilities;
    TrimIsTrimmed(first.id);
    TrimIsTrimmed(Trim(first.id));
  }

  /** Wherever the catalogue repeats an id that is not saved yet, its first and its last
      candidate agree. */
  predicate FirstsAgree(existing: seq<Model>, cs: seq<Candidate>) {
    forall i :: 0 <= i < |cs| && FirstNew(cs, TrimmedIds(existing), i) ==>
      Trim(cs[i].id) in Catalogue(cs) && Agrees(cs[i], Catalogue(cs)[Trim(cs[i].id)])
  }

  /** A clean list whose models are all up to date and that has every candidate is merged
      with them into itself. */
  lemma SettledStays(family: string -> string, ms: seq<Model>, cs: seq<Candidate>)
    requires Clean(ms) && Grouped(family, ms) == ms && Catalogue(cs).Keys <= IdsOf(ms)
    requires forall a :: 0 <= a < |ms| ==> BuzzHiveUpdated(ms[a], Catalogue(cs)) == ms[a]
    ensures BuzzHiveSynced(family, ms, cs) == ms
  {
    hide Catalogue, Added, BuzzHiveUpdated, Grouped, Firsts;
    assert Updated(BuzzHiveUpdated, ms, Catalogue(cs)) == ms;
    assert TrimmedIds(ms) == IdsOf(ms);
    var known := TrimmedIds(ms) * Catalogue(cs).Keys;
    AddedIds(cs, known);
    var added := Added(cs, known);
    assert added == [] by {
      if added != [] {
        InIds(added, added[0].id);
        assert false;
      }
    }
    assert BuzzHiveMerged(ms, cs) == ms;
    FirstsOfClean(ms);
  }

  lemma MergeTwiceIfAgreed(family: string -> string, existing: seq<Model>, cs: seq<Candidate>)
    requires FirstsAgree(existing, cs)
    ensures BuzzHiveSynced(family, BuzzHiveSynced(family, existing, cs), cs) == BuzzHiveSynced(family, existing, cs)
  {
    hide BuzzHiveMerged, Catalogue, BuzzHiveUpdated, Firsts, Grouped, Trim, Tidied, Agrees, NewModel, FirstNew;
    var ms := BuzzHiveSynced(family, existing, cs);
    CatalogueIds(cs);
    MergeHasEveryIdOnce(family, existing, cs);
    CleaningCleans(family, BuzzHiveMerged(existing, cs));
    GroupedOnce(family, Firsts(BuzzHiveMerged(existing, cs)));
    forall a | 0 <= a < |ms| ensures BuzzHiveUpdated(ms[a], Catalogue(cs)) == ms[a] {
      var saved, j := MergedFrom(family, existing, cs, a);
      if saved {
        UpdatedTwice(existing[j], Catalogue(cs));
      } else {
        AgreeingStays(cs[j], Catalogue(cs));
      }
    }
    SettledStays(family, ms, cs);
  }

  /** The first model of an id in a list is in the cleaned list, tidied. */
  lemma CleanedTo(family: string -> string, ms: seq<Model>, j: nat) returns (a: nat)
    requires j < |ms| && Trim(ms[j].id) != "" && forall i :: 0 <= i < j ==> Trim(ms[i].id) != Trim(ms[j].id)
    ensures a < |Cleaned(family, ms)| && Cleaned(family, ms)[a] == Tidied(ms[j])
  {
    hide Trim, Firsts;
    var i := FirstsTo(ms, j);
    a := GroupedTo(family, Firsts(ms), i);
  }

  lemma {:induction false} FirstsTo(ms: seq<Model>, j: nat) returns (a: nat)
    requires j < |ms| && Trim(ms[j].id) != "" && forall i :: 0 <= i < j ==> Trim(ms[i].id) != Trim(ms[j].id)
    ensures a < |Firsts(ms)| && Firsts(ms)[a] == Tidied(ms[j])
  {
    hide Trim;
    var n := |ms| - 1;
    if j < n {
      a := FirstsTo(ms[..n], j);
    } else {
      a := |Firsts(ms[..n])|;
      FirstsAreClean(ms[..n]);
      assert Trim(ms[n].id) !in TrimmedIds(ms[..n]);
    }
  }

  /** A model made for a candidate stays as it was made only if its last candidate agrees. */
  lemma MergeTwiceOnlyIfAgreed(family: string -> string, existing: seq<Model>, cs: seq<Candidate>, i: nat)
    requires BuzzHiveSynced(family, BuzzHiveSynced(family, existing, cs), cs) == BuzzHiveSynced(family, existing, cs)
    requires i < |cs| && FirstNew(cs, TrimmedIds(existing), i)
    ensures Trim(cs[i].id) in Catalogue(cs) && Agrees(cs[i], Catalogue(cs)[Trim(cs[i].id)])
  {
    hide Catalogue, BuzzHiveUpdated, Cleaned, Added, Trim, NewModel, Tidied, Agrees, Updated;
    CatalogueIds(cs);
    var ms, m := BuzzHiveSynced(family, existing, cs), NewModel(cs[i]);
    var b := MadeModel(family, existing, cs, i);
    MergeHasEveryIdOnce(family, existing, cs);
    CleaningCleans(family, BuzzHiveMerged(existing, cs));
    var c := AgainModel(family, ms, cs, b);
    KeepsNames(m, Catalogue(cs));
    NewIsTidied(cs[i]);
    assert c == b;
    AgreeingStays(cs[i], Catalogue(cs));
  }

  lemma KeepsNames(m: Model, catalogue: map<string, Candidate>)
    ensures Tidied(m) == m ==> Tidied(BuzzHiveUpdated(m, catalogue)) == BuzzHiveUpdated(m, catalogue)
    ensures BuzzHiveUpdated(m, catalogue).id == m.id
  {
    hide Trim, MergedCapabilities;
  }

  /** Where the model made for a new candidate stands after a merge. */
  lemma MadeModel(family: string -> string, existing: seq<Model>, cs: seq<Candidate>, i: nat) returns (b: nat)
    requires i < |cs| && FirstNew(cs, TrimmedIds(existing), i)
    ensures b < |BuzzHiveSynced(family, existing, cs)| && BuzzHiveSynced(family, existing, cs)[b] == NewModel(cs[i])
  {
    hide Catalogue, BuzzHiveUpdated, Cleaned, Added, Trim, NewModel, MergedCapabilities;
    var known := TrimmedIds(existing) * Catalogue(cs).Keys;
    var merged := BuzzHiveMerged(existing, cs);
    var a := AddedTo(cs, known, i);
    var j := |existing| + a;
    NewIsTidied(cs[i]);
    assert merged[j] == NewModel(cs[i]) && Tidied(merged[j]) == merged[j];
    NewHasId(cs[i]);
    AddedIds(cs, known);
    AddedTrimmed(cs, known);
    forall x | 0 <= x < j ensures Trim(merged[x].id) != Trim(merged[j].id) {
      if x < |existing| {
        KeepsNames(existing[x], Catalogue(cs));
        assert Trim(existing[x].id) in TrimmedIds(existing);
      } else {
        var y := AddedFrom(cs, known, x - |existing|);
        NewHasId(cs[y]);
        assert Added(cs, known)[x - |existing|].id != Added(cs, known)[a].id;
      }
    }
    b := CleanedTo(family, merged, j);
  }

  lemma NewHasId(c: Candidate)
    ensures NewModel(c).id == Trim(c.id) && Trim(NewModel(c).id) == Trim(c.id)
  {
    hide Trim;
    TrimIsTrimmed(c.id);
    TrimIsTrimmed(Trim(c.id));
  }

  /** Where a model of a clean list stands after another merge. */
  lemma AgainModel(family: string -> string, ms: seq<Model>, cs: seq<Candidate>, b: nat) returns (c: nat)
    requires Clean(ms) && b < |ms|
    ensures c < |BuzzHiveSynced(family, ms, cs)|
    ensures BuzzHiveSynced(family, ms, cs)[c] == Tidied(BuzzHiveUpdated(ms[b], Catalogue(cs)))
    ensures BuzzHiveSynced(family, ms, cs)[c].id == ms[b].id
  {
    hide Catalogue, BuzzHiveUpdated, Cleaned, Added, Trim, MergedCapabilities;
    var merged := BuzzHiveMerged(ms, cs);
    forall x | 0 <= x <= b ensures Trim(merged[x].id) == ms[x].id {
      KeepsNames(ms[x], Catalogue(cs));
      assert Tidied(ms[x]) == ms[x];
    }
    c := CleanedTo(family, merged, b);
  }

  /** Repeating a merge with the same catalogue changes nothing exactly when the catalogue
      agrees with itself about the ids it adds. */
  lemma MergeTwice(family: string -> string, existing: seq<Model>, cs: seq<Candidate>)
    ensures BuzzHiveSynced(family, BuzzHiveSynced(family, existing, cs), cs) == BuzzHiveSynced(family, existing, cs)
            <==> FirstsAgree(existing, cs)
  {
    hide BuzzHiveSynced, Catalogue, Agrees, FirstNew, Trim;
    if FirstsAgree(existing, cs) {
      MergeTwiceIfAgreed(family, existing, cs);
    }
    if BuzzHiveSynced(family, BuzzHiveSynced(family, existing, cs), cs) == BuzzHiveSynced(family, existing, cs) {
      forall i | 0 <= i < |cs| && FirstNew(cs, TrimmedIds(existing), i)
        ensures Trim(cs[i].id) in Catalogue(cs) && Agrees(cs[i], Catalogue(cs)[Trim(cs[i].id)])
      {
        MergeTwiceOnlyIfAgreed(family, existing, cs, i);
      }
    }
  }

  /** A catalogue without repeated ids agrees with itself. */
  lemma DistinctCandidatesAgree(existing: seq<Model>, cs: seq<Candidate>)
    requires forall i, j :: 0 <= i < j < |cs| ==> Trim(cs[i].id) != Trim(cs[j].id)
    ensures FirstsAgree(existing, cs)
  {
    hide Trim, MergedCapabilities;
    CatalogueIds(cs);
    forall i | 0 <= i < |cs| && FirstNew(cs, TrimmedIds(existing), i)
      ensures Trim(cs[i].id) in Catalogue(cs) && Agrees(cs[i], Catalogue(cs)[Trim(cs[i].id)])
    {
      CatalogueHas(cs, i);
      MergedCapabilitiesTwice(None, cs[i].capabilities);
    }
  }

  lemma {:induction false} CatalogueHas(cs: seq<Candidate>, i: nat)
    requires i < |cs| && Trim(cs[i].id) != "" && forall j :: i < j < |cs| ==> Trim(cs[j].id) != Trim(cs[i].id)
    ensures Trim(cs[i].id) in Catalogue(cs) && Catalogue(cs)[Trim(cs[i].id)] == cs[i]
  {
    hide Trim;
    if i < |cs| - 1 {
      CatalogueHas(cs[..|cs| - 1], i);
    }
  }

  /** A repeated id can make a second merge change what the first one stored. */
  lemma RepeatedCandidateCanChange(family: string -> string)
    ensures var cs := [Candidate("m", "", 1, None, map[], None), Candidate("m", "", 2, None, map[], None)];
            BuzzHiveSynced(family, BuzzHiveSynced(family, [], cs), cs) != BuzzHiveSynced(family, [], cs)
  {
    var first, last := Candidate("m", "", 1, None, map[], None), Candidate("m", "", 2, None, map[], None);
    var cs := [first, last];
    TrimIsTrimmed("m");
    MergeTwice(family, [], cs);
    hide BuzzHiveSynced;
    assert TrimmedIds([]) == {};
    assert FirstNew(cs, TrimmedIds([]), 0);
    CatalogueHas(cs, 1);
    assert !Agrees(first, last);
  }

  /** The other merge, which adds no models, can be repeated with any catalogue. */
  lemma OpenRouterTwice(family: string -> string, existing: seq<Model>, cs: seq<Candidate>)
    ensures OpenRouterSynced(family, OpenRouterSynced(family, existing, cs), cs) == OpenRouterSynced(family, existing, cs)
    ensures IdsOf(OpenRouterSynced(family, existing, cs)) == TrimmedIds(existing) - {""}
  {
    hide OpenRouterUpdated, Tidied, Catalogue, Firsts, Grouped;
    var catalogue := Catalogue(cs);
    var merged := Updated(OpenRouterUpdated, existing, catalogue);
    var ms := Cleaned(family, merged);
    CleaningCleans(family, merged);
    UpdatedIds(existing, cs);
    forall a | 0 <= a < |ms| ensures OpenRouterUpdated(ms[a], catalogue) == ms[a] {
      var j := CleanedFrom(family, merged, a);
      UpdatedTwice(existing[j], catalogue);
    }
    assert Updated(OpenRouterUpdated, ms, catalogue) == ms;
  }
}
