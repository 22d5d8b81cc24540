/** What a merged model has, field by field. */
module ProviderModelFields {

  import opened Results
  import opened Text
  import opened ProviderModels
  import opened ProviderModelsProofs

  // ----- where the fields come from

  /** The last candidate with this id. */
  predicate LastWith(cs: seq<Candidate>, id: string, i: nat) {
    i < |cs| && Trim(cs[i].id) == id && forall j :: i < j < |cs| ==> Trim(cs[j].id) != id
  }

  /** The first candidate with this id. */
  predicate FirstWith(cs: seq<Candidate>, id: string, i: nat) {
    i < |cs| && Trim(cs[i].id) == id && forall j :: 0 <= j < i ==> Trim(cs[j].id) != id
  }

  predicate Lacks(cs: seq<Candidate>, id: string) {
    forall i :: 0 <= i < |cs| ==> Trim(cs[i].id) != id
  }

  /** The first saved model with this id. */
  predicate FirstSaved(ms: seq<Model>, id: string, j: nat) {
    j < |ms| && Trim(ms[j].id) == id && forall h :: 0 <= h < j ==> Trim(ms[h].id) != id
  }

  predicate NotSaved(ms: seq<Model>, id: string) {
    forall j :: 0 <= j < |ms| ==> Trim(ms[j].id) != id
  }

  // ----- the fields

  /** What is reported counts; of the rest what was known, and of a model nothing was known of
      that it takes tools. */
  predicate CapsAre(caps: Option<Caps>, before: Option<Caps>, reported: map<string, bool>) {
    if reported == map[] then caps == before
    else
      && caps.Some?
      && caps.value.image == (if "image" in reported then reported["image"] else before.Some? && before.value.image)
      && caps.value.audio == (if "audio" in reported then reported["audio"] else before.Some? && before.value.audio)
      && caps.value.tools == (if "tools" in reported then reported["tools"] else before.None? || before.value.tools)
  }

  /** The output tokens of the catalogue count, if it states them; tool loops are the user's. */
  predicate LimitsAre(limits: Option<Limits>, before: Option<Limits>, stated: Option<int>) {
    match stated
    case None => limits == before
    case Some(tokens) =>
      && limits.Some? && limits.value.maxOutputTokens == tokens
      && limits.value.maxToolLoops == (if before.Some? then before.value.maxToolLoops else 0)
  }

  /** What the user can set of a saved model stays. */
  predicate OwnFieldsOf(m: Model, saved: Model) {
    m.displayName == Trim(saved.displayName) && m.options == saved.options
  }

  /** A saved model of which the provider's catalogue has this candidate. */
  predicate TakenOver(m: Model, saved: Model, c: Candidate) {
    && OwnFieldsOf(m, saved) && !m.unavailable
    && m.contextWindow == c.contextWindow && m.costMultiplier == c.costMultiplier
    && LimitsAre(m.limits, saved.limits, c.maxOutputTokens) && CapsAre(m.capabilities, saved.capabilities, c.capabilities)
  }

  /** The same where limits are not taken over, and the context window only when it is stated. */
  predicate PartlyTakenOver(m: Model, saved: Model, c: Candidate) {
    && OwnFieldsOf(m, saved) && !m.unavailable
    && m.contextWindow == (if c.contextWindow > 0 then c.contextWindow else saved.contextWindow)
    && m.costMultiplier == c.costMultiplier && m.limits == saved.limits
    && CapsAre(m.capabilities, saved.capabilities, c.capabilities)
  }

  /** A saved model that the catalogue lacks. */
  predicate Gone(m: Model, saved: Model) {
    && OwnFieldsOf(m, saved) && m.unavailable
    && m.contextWindow == saved.contextWindow && m.costMultiplier == saved.costMultiplier
    && m.limits == saved.limits && m.capabilities == saved.capabilities
  }

  /** A model nobody had saved. */
  predicate AsOffered(m: Model, c: Candidate) {
    && m.displayName == Trim(c.displayName) && m.options.None? && !m.unavailable
    && m.contextWindow == c.contextWindow && m.costMultiplier == c.costMultiplier
    && LimitsAre(m.limits, None, c.maxOutputTokens) && CapsAre(m.capabilities, None, c.capabilities)
  }

  // ----- proofs

  lemma {:induction false} CatalogueIsLast(cs: seq<Candidate>, id: string) returns (i: nat)
    requires id in Catalogue(cs)
    ensures LastWith(cs, id, i) && Catalogue(cs)[id] == cs[i]
  {
    hide Trim;
    var n := |cs| - 1;
    if Trim(cs[n].id) != "" && Trim(cs[n].id) == id {
      i := n;
    } else {
      i := CatalogueIsLast(cs[..n], id);
      CatalogueIds(cs[..n]);
    }
  }

  lemma {:induction false} FirstsAreFirst(ms: seq<Model>, i: nat) returns (j: nat)
    requires i < |Firsts(ms)|
    ensures j < |ms| && Firsts(ms)[i] == Tidied(ms[j]) && FirstSaved(ms, Trim(ms[j].id), j)
  {
    hide Trim;
    var n := |ms| - 1;
    if i < |Firsts(ms[..n])| {
      j := FirstsAreFirst(ms[..n], i);
    } else {
      j := n;
      FirstsAreClean(ms[..n]);
      forall h | 0 <= h < n ensures Trim(ms[h].id) != Trim(ms[n].id) {
        assert Trim(ms[..n][h].id) in TrimmedIds(ms[..n]);
      }
    }
  }

  lemma CleanedAreFirst(family: string -> string, ms: seq<Model>, a: nat) returns (j: nat)
    requires a < |Cleaned(family, ms)|
    ensures j < |ms| && Cleaned(family, ms)[a] == Tidied(ms[j]) && FirstSaved(ms, Trim(ms[j].id), j)
    ensures Cleaned(family, ms)[a].id != "" && Trim(Cleaned(family, ms)[a].id) == Cleaned(family, ms)[a].id
  {
    CleaningCleans(family, ms);
    hide Firsts, Trim;
    var i := GroupedFrom(family, Firsts(ms), a);
    j := FirstsAreFirst(ms, i);
  }

  lemma UpdatedHas(m: Model, catalogue: map<string, Candidate>)
    ensures var after := Tidied(BuzzHiveUpdated(m, catalogue));
            && after.id == Trim(m.id)
            && if Trim(m.id) in catalogue then TakenOver(after, m, catalogue[Trim(m.id)]) else Gone(after, m)
    ensures var after := Tidied(OpenRouterUpdated(m, catalogue));
            && after.id == Trim(m.id)
            && if Trim(m.id) in catalogue then PartlyTakenOver(after, m, catalogue[Trim(m.id)]) else Gone(after, m)
  {
    hide Trim;
  }

  lemma NewHas(c: Candidate)
    ensures NewModel(c).id == Trim(c.id) && AsOffered(NewModel(c), c)
  {
    hide Trim;
  }

  /** A model of the merged list: the first saved one of its id, with the last candidate of the
      id taken over, or marked when there is none; or, when none was saved, the first candidate
      of the id. */
  lemma MergedModelHas(family: string -> string, existing: seq<Model>, cs: seq<Candidate>, a: nat) returns (j: nat, i: nat)
    requires a < |BuzzHiveSynced(family, existing, cs)|
    ensures var m := BuzzHiveSynced(family, existing, cs)[a];
            if NotSaved(existing, m.id) then FirstWith(cs, m.id, i) && AsOffered(m, cs[i])
            else FirstSaved(existing, m.id, j) &&
                 if Lacks(cs, m.id) then Gone(m, existing[j]) else LastWith(cs, m.id, i) && TakenOver(m, existing[j], cs[i])
  {
    hide Cleaned, Added, Trim, BuzzHiveUpdated, Tidied, NewModel, TakenOver, Gone, AsOffered;
    var merged, catalogue, known := BuzzHiveMerged(existing, cs), Catalogue(cs), TrimmedIds(existing) * Catalogue(cs).Keys;
    var m := BuzzHiveSynced(family, existing, cs)[a];
    j := CleanedAreFirst(family, merged, a);
    i := 0;
    CatalogueIds(cs);
    if j < |existing| {
      UpdatedHas(existing[j], catalogue);
      forall h | 0 <= h <= j ensures Trim(existing[h].id) == Trim(merged[h].id) {
        UpdatedKeepsId(existing[h], catalogue);
      }
      if m.id in catalogue {
        i := CatalogueIsLast(cs, m.id);
      }
    } else {
      i := AddedFrom(cs, known, j - |existing|);
      NewIsTidied(cs[i]);
      NewHas(cs[i]);
      forall h | 0 <= h < |existing| ensures Trim(existing[h].id) != m.id {
        UpdatedKeepsId(existing[h], catalogue);
      }
    }
  }

  lemma UpdatedKeepsId(m: Model, catalogue: map<string, Candidate>)
    ensures BuzzHiveUpdated(m, catalogue).id == OpenRouterUpdated(m, catalogue).id == m.id
  {
  }

  /** The same for the merge that adds nothing. */
  lemma OpenRouterModelHas(family: string -> string, existing: seq<Model>, cs: seq<Candidate>, a: nat) returns (j: nat, i: nat)
    requires a < |OpenRouterSynced(family, existing, cs)|
    ensures var m := OpenRouterSynced(family, existing, cs)[a];
            && FirstSaved(existing, m.id, j)
            && if Lacks(cs, m.id) then Gone(m, existing[j]) else LastWith(cs, m.id, i) && PartlyTakenOver(m, existing[j], cs[i])
  {
    hide Cleaned, Trim, OpenRouterUpdated, Tidied, PartlyTakenOver, Gone;
    var catalogue := Catalogue(cs);
    var merged := Updated(OpenRouterUpdated, existing, catalogue);
    var m := OpenRouterSynced(family, existing, cs)[a];
    j := CleanedAreFirst(family, merged, a);
    i := 0;
    CatalogueIds(cs);
    UpdatedHas(existing[j], catalogue);
    forall h | 0 <= h <= j ensures Trim(existing[h].id) == Trim(merged[h].id) {
      UpdatedKeepsId(existing[h], catalogue);
    }
    if m.id in catalogue {
      i := CatalogueIsLast(cs, m.id);
    }
  }

  /** The family of a model: by its id, or else by its name; "" when there is none. */
  function FamilyName(family: string -> string, m: Model): string {
    if family(m.id) == "" then family(m.displayName) else family(m.id)
  }

  /** Between two models of a family there are only models of that family. */
  lemma FamilyIsContiguous(family: string -> string, ms: seq<Model>, a: nat, m: nat, b: nat)
    requires a <= m <= b < |ms|
    requires var out := Grouped(family, ms); FamilyName(family, out[a]) == FamilyName(family, out[b]) != ""
    ensures var out := Grouped(family, ms); FamilyName(family, out[m]) == FamilyName(family, out[a])
  {
    hide Grouped;
    FamilyIsTogether(family, ms, a, m, b);
  }
}
