/** What a patch of the web tools does to the connections of each provider. */
module PluginWebPatch {

  import opened Results
  import opened Text
  import opened FreshIds
  import opened PluginIdentity
  import opened ConfigStore
  import opened PluginConnections
  import opened PluginConnectionsProofs

  // ----- what is said of a configuration

  /** The id names a connection of the provider. */
  predicate Of(c: Conf, provider: string, id: string) {
    id in c.entries && IsWeb(c.entries[id], provider)
  }

  /** The connection of a provider that a patch is about: the active one, or else its first. */
  ghost predicate Main(c: Conf, provider: string, id: string) {
    && Of(c, provider, id)
    && (id == Active(c) ||
        (!Of(c, provider, Active(c)) && forall other :: Of(c, provider, other) && other != id ==> Less(id, other)))
  }

  /** The connection that a patch makes for a provider. */
  function Made(provider: string, token: string, now: int): Connection {
    Item(Public(if provider == "tavily" then "Tavily" else "DeepSeek", WEB, provider, "bearer", now, now, ""),
         Secrets(token, "", "", "", map[]))
  }

  predicate Names(name: string, provider: string) {
    NormalizeWebProvider(name) == Some(provider)
  }

  /** The update selects the provider. */
  predicate Picks(upd: WebUpdate, provider: string) {
    if upd.search.Some? then Names(upd.search.value, provider) else upd.fetch.Some? && Names(upd.fetch.value, provider)
  }

  lemma MainIs(c: Conf, provider: string)
    ensures match WebConnection(c, provider)
            case None => forall id :: !Of(c, provider, id)
            case Some(main) => Main(c, provider, main) && forall id :: Main(c, provider, id) ==> id == main
  {
    hide IsWeb, Less;
    var found := WebConnections(c, provider);
    forall id ensures Of(c, provider, id) <==> id in found {}
    if found != {} {
      var main := WebConnection(c, provider).value;
      assert Of(c, provider, main);
      forall id | Main(c, provider, id) ensures id == main {
        if id != main {
          LessIsTotal(id, main);
        }
      }
    }
  }

  // ----- one provider does not touch another

  predicate Stays(c: Conf, d: Conf, id: string) {
    id in c.entries && id in d.entries && d.entries[id] == c.entries[id]
  }

  /** The two agree on the connections of the provider. */
  ghost predicate SameConnections(c: Conf, d: Conf, provider: string) {
    && (forall id :: Of(c, provider, id) <==> Of(d, provider, id))
    && (forall id :: Of(c, provider, id) ==> Stays(c, d, id))
  }

  /** They also agree on which one a patch is about. */
  ghost predicate SameOf(c: Conf, d: Conf, provider: string) {
    && SameConnections(c, d, provider)
    && (forall id :: Main(c, provider, id) <==> Main(d, provider, id))
  }

  lemma SameTwice(c: Conf, d: Conf, e: Conf, provider: string)
    requires SameOf(c, d, provider) && SameOf(d, e, provider)
    ensures SameOf(c, e, provider)
  {
    hide Main, Of;
    forall id | Of(c, provider, id) ensures Stays(c, e, id) {
      assert Of(d, provider, id) && Stays(c, d, id) && Stays(d, e, id);
    }
  }

  /** When the connections of a provider are the same ones, so is the main one, unless another
      active one came. */
  lemma SameMain(c: Conf, d: Conf, provider: string)
    requires forall id :: Of(c, provider, id) <==> Of(d, provider, id)
    requires forall id :: Of(c, provider, id) ==> Stays(c, d, id)
    requires Active(d) == Active(c) || (Active(d) == "" && !Of(c, provider, Active(c)))
    ensures SameOf(c, d, provider)
  {
    hide Of, Active;
    forall id ensures Main(c, provider, id) <==> Main(d, provider, id) {
      if Active(d) != Active(c) && Of(c, provider, "") {
        LessIsTotal(id, "");
        assert id != "" ==> Less("", id) && !Less(id, "");
      }
    }
  }

  lemma RemovedSelects(c: Conf, gone: string)
    ensures Active(Removed(c, gone)) == if Active(c) == gone then "" else Active(c)
    ensures forall plugin, purpose, id :: SelectedAs(Removed(c, gone).rest.bindings, plugin, purpose, id) <==>
              id != gone && SelectedAs(c.rest.bindings, plugin, purpose, id)
  {
  }

  lemma KeyOfAnother(c: Conf, given: string, apiKey: Option<string>, now: int, provider: string)
    requires NormalizeWebProvider(given).Some? && !Names(given, provider)
    ensures SameOf(c, KeyPatched(c, given, apiKey, now), provider)
  {
    hide Trim, Lower, CurrentPluginID, WebConnection, NewWebID, Less, Main, NormalizeWebProvider;
    var name := NormalizeWebProvider(given).value;
    var d := KeyPatched(c, given, apiKey, now);
    if apiKey.Some? && name != "" {
      MainIs(c, name);
      var found := WebConnection(c, name);
      if found.Some? {
        assert Of(c, name, found.value) by { MainIsOne(c, name, found.value); }
        RemovedSelects(c, found.value);
      }
    }
    SameMain(c, d, provider);
  }

  lemma MainIsOne(c: Conf, provider: string, id: string)
    requires Main(c, provider, id)
    ensures Of(c, provider, id)
  {
  }

  /** No key of another provider touches a provider's connections, in whatever order. */
  lemma {:induction false} KeysOfOthers(c: Conf, upd: WebUpdate, order: seq<string>, from: nat, upto: nat, now: int, provider: string)
    requires WebUpdateOk(upd) && (forall name :: name in order ==> name in upd.providers) && from <= upto <= |order|
    requires forall j :: from <= j < upto ==> !Names(order[j], provider)
    ensures SameOf(KeysPatched(c, upd, order[..from], now), KeysPatched(c, upd, order[..upto], now), provider)
    decreases upto
  {
    hide SameOf, KeyPatched, Names, NormalizeWebProvider;
    if from == upto {
      assert SameOf(KeysPatched(c, upd, order[..from], now), KeysPatched(c, upd, order[..from], now), provider) by {
        SameAsItself(KeysPatched(c, upd, order[..from], now), provider);
      }
    } else {
      var n := upto - 1;
      KeysOfOthers(c, upd, order, from, n, now, provider);
      OneKeyMore(c, upd, order, n, now);
      KeyOfAnother(KeysPatched(c, upd, order[..n], now), order[n], upd.providers[order[n]], now, provider);
      SameTwice(KeysPatched(c, upd, order[..from], now), KeysPatched(c, upd, order[..n], now), KeysPatched(c, upd, order[..upto], now), provider);
    }
  }

  lemma SameAsItself(c: Conf, provider: string)
    ensures SameOf(c, c, provider)
  {
  }

  lemma OneKeyMore(c: Conf, upd: WebUpdate, order: seq<string>, n: nat, now: int)
    requires WebUpdateOk(upd) && (forall name :: name in order ==> name in upd.providers) && n < |order|
    ensures order[n] in upd.providers && NormalizeWebProvider(order[n]).Some?
    ensures KeysPatched(c, upd, order[..n + 1], now) == KeyPatched(KeysPatched(c, upd, order[..n], now), order[n], upd.providers[order[n]], now)
  {
    hide KeyPatched, NormalizeWebProvider;
    assert order[n] in order;
    assert order[..n + 1][..n] == order[..n];
  }

  // ----- what a key does to its own provider

  /** Only the main connection changes, into one with the key. */
  ghost predicate KeyStored(c: Conf, d: Conf, provider: string, key: string, now: int) {
    if exists id :: Of(c, provider, id) then
      && (forall id :: Of(d, provider, id) <==> Of(c, provider, id))
      && (forall id :: Of(c, provider, id) && !Main(c, provider, id) ==> Stays(c, d, id))
      && (forall id :: Main(c, provider, id) ==>
            && id in c.entries && id in d.entries
            && d.entries[id].secret == c.entries[id].secret.(token := key)
            && d.entries[id].pub == c.entries[id].pub.(updatedAt := now))
    else
      exists id :: id in d.entries && d.entries[id] == Made(provider, key, now) && forall other :: Of(d, provider, other) <==> other == id
  }

  /** The main connection goes, and the others stay. */
  ghost predicate KeyRemoved(c: Conf, d: Conf, provider: string) {
    && (forall id :: Of(d, provider, id) <==> Of(c, provider, id) && !Main(c, provider, id))
    && (forall id :: Of(d, provider, id) ==> Stays(c, d, id))
  }

  /** What a patch does to a provider that it names once. */
  ghost predicate KeyApplied(c: Conf, d: Conf, provider: string, apiKey: Option<string>, now: int) {
    match apiKey
    case None => SameConnections(c, d, provider)
    case Some(given) => if Trim(given) == "" then KeyRemoved(c, d, provider) else KeyStored(c, d, provider, Trim(given), now)
  }

  lemma OwnKey(c: Conf, given: string, apiKey: Option<string>, now: int, provider: string)
    requires Names(given, provider) && provider != ""
    ensures KeyApplied(c, KeyPatched(c, given, apiKey, now), provider, apiKey, now)
  {
    hide Trim, Lower, CurrentPluginID, WebConnection, NewWebID, Less, Main;
    KnownIds();
    var d := KeyPatched(c, given, apiKey, now);
    if apiKey.Some? {
      MainIs(c, provider);
      var found := WebConnection(c, provider);
      if found.Some? {
        MainIsOne(c, provider, found.value);
      } else if Trim(apiKey.value) != "" {
        var id := NewWebID(c, provider);
        assert d.entries[id] == Made(provider, Trim(apiKey.value), now) && Of(d, provider, id);
        forall other ensures Of(d, provider, other) <==> other == id {
          assert other != id ==> (Of(d, provider, other) <==> Of(c, provider, other));
        }
      }
    } else {
      SameAsItself(c, provider);
    }
  }

  lemma AppliedBetween(b: Conf, c: Conf, d: Conf, e: Conf, provider: string, apiKey: Option<string>, now: int)
    requires SameOf(b, c, provider) && KeyApplied(c, d, provider, apiKey, now) && SameConnections(d, e, provider)
    ensures KeyApplied(b, e, provider, apiKey, now)
  {
    hide Main, IsWeb, Trim;
    if apiKey.None? {
      forall id | Of(b, provider, id) ensures Stays(b, e, id) {
        assert Of(c, provider, id) && Of(d, provider, id) && Stays(b, c, id) && Stays(c, d, id) && Stays(d, e, id);
      }
    } else if Trim(apiKey.value) == "" {
      forall id | Of(e, provider, id) ensures Stays(b, e, id) {
        assert Of(d, provider, id) && Of(c, provider, id) && Of(b, provider, id);
        assert Stays(b, c, id) && Stays(c, d, id) && Stays(d, e, id);
      }
    } else {
      StoredBetween(b, c, d, e, provider, Trim(apiKey.value), now);
    }
  }

  lemma StoredBetween(b: Conf, c: Conf, d: Conf, e: Conf, provider: string, key: string, now: int)
    requires SameOf(b, c, provider) && KeyStored(c, d, provider, key, now) && SameConnections(d, e, provider)
    ensures KeyStored(b, e, provider, key, now)
  {
    hide IsWeb;
    if some :| Of(b, provider, some) {
      assert Of(c, provider, some);
      forall id | Of(b, provider, id) && !Main(b, provider, id) ensures Stays(b, e, id) {
        assert Of(c, provider, id) && Of(d, provider, id) && Stays(b, c, id) && Stays(c, d, id) && Stays(d, e, id);
      }
      forall id | Main(b, provider, id)
        ensures id in b.entries && id in e.entries
        ensures e.entries[id].secret == b.entries[id].secret.(token := key) && e.entries[id].pub == b.entries[id].pub.(updatedAt := now)
      {
        MainIsOne(b, provider, id);
        assert Main(c, provider, id) && Of(d, provider, id) && Stays(b, c, id) && Stays(d, e, id);
      }
    } else {
      var id :| id in d.entries && d.entries[id] == Made(provider, key, now) && forall other :: Of(d, provider, other) <==> other == id;
      assert Of(d, provider, id) && Stays(d, e, id);
      assert forall other :: Of(e, provider, other) <==> other == id;
    }
  }

  // ----- the selection

  /** The selection keeps every connection, and makes one only for a picked provider that has
      none. */
  ghost predicate EntriesKept(c: Conf, d: Conf, upd: WebUpdate, now: int) {
    && (forall id :: id in c.entries ==> Stays(c, d, id))
    && (forall id :: id in d.entries && id !in c.entries ==>
          && d.entries.Keys == c.entries.Keys + {id}
          && exists provider :: provider != "" && Picks(upd, provider) && d.entries[id] == Made(provider, "", now)
                                && forall other :: !Of(c, provider, other))
  }

  /** A picked provider's main connection, or the new one, is the active one. */
  ghost predicate PickedIsActive(c: Conf, d: Conf, upd: WebUpdate) {
    forall provider :: provider != "" && Picks(upd, provider) ==>
      Of(d, provider, Active(d)) && (Main(c, provider, Active(d)) || Active(d) !in c.entries)
  }

  /** No other selection changes. */
  ghost predicate OtherSelectionsStay(c: Conf, d: Conf, upd: WebUpdate) {
    forall plugin, purpose, id :: !(plugin == WEB && purpose == "active") || (upd.search.None? && upd.fetch.None?) ==>
      (SelectedAs(d.rest.bindings, plugin, purpose, id) <==> SelectedAs(c.rest.bindings, plugin, purpose, id))
  }

  lemma PickedName(upd: WebUpdate, name: string, provider: string)
    requires WebUpdateOk(upd) && (upd.search.Some? || upd.fetch.Some?)
    requires name == NormalizeWebProvider(if upd.search.Some? then upd.search.value else upd.fetch.value).value
    ensures Picks(upd, provider) <==> provider == name
  {
    hide NormalizeWebProvider;
  }

  lemma ChosenKeepsOthers(c: Conf, upd: WebUpdate, now: int)
    requires WebUpdateOk(upd)
    ensures OtherSelectionsStay(c, Chosen(c, upd, now), upd)
  {
    hide NormalizeWebProvider, CurrentPluginID, WebConnection, NewWebID;
  }

  lemma ChosenKeepsEntries(c: Conf, upd: WebUpdate, now: int)
    requires WebUpdateOk(upd)
    ensures EntriesKept(c, Chosen(c, upd, now), upd, now)
  {
    hide Trim, Lower, CurrentPluginID, WebConnection, NewWebID, Of, Picks;
    var value := if upd.search.Some? then upd.search else upd.fetch;
    if value.Some? {
      var name := NormalizeWebProvider(value.value).value;
      PickedName(upd, name, name);
      MainIs(c, name);
    }
  }

  lemma ChosenIsActive(c: Conf, upd: WebUpdate, now: int)
    requires WebUpdateOk(upd)
    ensures PickedIsActive(c, Chosen(c, upd, now), upd)
  {
    hide NormalizeWebProvider, CurrentPluginID, WebConnection, NewWebID, Main, Picks;
    KnownIds();
    forall provider | provider != "" && Picks(upd, provider)
      ensures var d := Chosen(c, upd, now); Of(d, provider, Active(d)) && (Main(c, provider, Active(d)) || Active(d) !in c.entries)
    {
      var value := if upd.search.Some? then upd.search else upd.fetch;
      assert value.Some? by { PickedSomething(upd, provider); }
      PickedName(upd, NormalizeWebProvider(value.value).value, provider);
      MainIs(c, provider);
      if WebConnection(c, provider).Some? {
        MainIsOne(c, provider, WebConnection(c, provider).value);
      }
    }
  }

  lemma PickedSomething(upd: WebUpdate, provider: string)
    requires Picks(upd, provider)
    ensures upd.search.Some? || upd.fetch.Some?
  {
  }

  // ----- a whole patch

  /** Nothing of the provider is left once the key is applied. */
  ghost predicate NoneLeft(c: Conf, provider: string, apiKey: Option<string>) {
    if apiKey.None? then forall id :: !Of(c, provider, id)
    else Trim(apiKey.value) == "" && forall id :: Of(c, provider, id) ==> Main(c, provider, id)
  }

  ghost predicate OnlyMade(d: Conf, provider: string, token: string, now: int) {
    exists id :: id in d.entries && d.entries[id] == Made(provider, token, now) && forall other :: Of(d, provider, other) <==> other == id
  }

  lemma SelectionKeepsKeys(b: Conf, c: Conf, d: Conf, upd: WebUpdate, provider: string, apiKey: Option<string>, now: int)
    requires KeyApplied(b, c, provider, apiKey, now) && EntriesKept(c, d, upd, now) && PickedIsActive(c, d, upd)
    requires provider in {"tavily", "deepseek"}
    ensures if Picks(upd, provider) && NoneLeft(b, provider, apiKey) then OnlyMade(d, provider, "", now)
            else KeyApplied(b, d, provider, apiKey, now)
  {
    NoneLeftIsNone(b, c, provider, apiKey, now);
    hide KeyApplied, NoneLeft, Main, Trim, CurrentPluginID, Picks;
    if Picks(upd, provider) && NoneLeft(b, provider, apiKey) {
      SelectionMakesOne(c, d, upd, provider, now);
    } else {
      hide OnlyMade, EntriesKept, PickedIsActive;
      SelectionMakesNone(c, d, upd, provider, now);
      SameAsItself(b, provider);
      AppliedBetween(b, b, c, d, provider, apiKey, now);
    }
  }

  lemma SelectionMakesOne(c: Conf, d: Conf, upd: WebUpdate, provider: string, now: int)
    requires EntriesKept(c, d, upd, now) && PickedIsActive(c, d, upd) && provider in {"tavily", "deepseek"}
    requires Picks(upd, provider) && forall id :: !Of(c, provider, id)
    ensures OnlyMade(d, provider, "", now)
  {
    hide Main, CurrentPluginID, Picks;
    var id := Active(d);
    MainIsNone(c, provider, id);
    assert d.entries[id] == Made(provider, "", now);
    forall other | Of(d, provider, other) ensures other == id {
      assert other in c.entries ==> Stays(c, d, other) && Of(c, provider, other);
      assert id in d.entries.Keys && id !in c.entries;
    }
  }

  lemma SelectionMakesNone(c: Conf, d: Conf, upd: WebUpdate, provider: string, now: int)
    requires EntriesKept(c, d, upd, now) && provider in {"tavily", "deepseek"}
    requires !Picks(upd, provider) || exists id :: Of(c, provider, id)
    ensures SameConnections(c, d, provider)
  {
    hide CurrentPluginID, Picks;
    forall id ensures Of(c, provider, id) <==> Of(d, provider, id) {
      assert id in c.entries ==> Stays(c, d, id);
    }
  }

  lemma MainIsNone(c: Conf, provider: string, id: string)
    requires !Of(c, provider, id)
    ensures !Main(c, provider, id)
  {
  }

  lemma NoneLeftIsNone(b: Conf, c: Conf, provider: string, apiKey: Option<string>, now: int)
    requires KeyApplied(b, c, provider, apiKey, now) && provider in {"tavily", "deepseek"}
    ensures NoneLeft(b, provider, apiKey) <==> forall id :: !Of(c, provider, id)
  {
    hide Trim, CurrentPluginID, Main;
    if apiKey.Some? && Trim(apiKey.value) != "" && !exists id :: Of(b, provider, id) {
      var id :| id in c.entries && c.entries[id] == Made(provider, Trim(apiKey.value), now)
        && forall other :: Of(c, provider, other) <==> other == id;
      assert Of(c, provider, id);
    }
  }

  /** A patch and a provider that it names once, whatever else it does, in whatever order the
      keys come: with a key, the provider's connection is the same one with that key, or a new
      one when it had none; with an empty key that connection is gone; without one nothing
      changes.  Only a provider that is picked and has none left gets one more. */
  lemma PatchWebAppliesKey(c: Conf, upd: WebUpdate, order: seq<string>, now: int, a: nat, provider: string)
    requires (forall name :: name in order ==> name in upd.providers) && PatchWeb(c, upd, order, now).Ok?
    requires a < |order| && provider in {"tavily", "deepseek"} && Names(order[a], provider)
    requires forall j :: 0 <= j < |order| && j != a ==> !Names(order[j], provider)
    ensures var d, apiKey := PatchWeb(c, upd, order, now).value, upd.providers[order[a]];
            if Picks(upd, provider) && NoneLeft(c, provider, apiKey) then OnlyMade(d, provider, "", now)
            else KeyApplied(c, d, provider, apiKey, now)
  {
    hide KeysPatched, KeyPatched, Chosen, KeyApplied, NoneLeft, OnlyMade, EntriesKept, PickedIsActive, Names, SameOf, SameConnections;
    var before, after := KeysPatched(c, upd, order[..a], now), KeysPatched(c, upd, order[..a + 1], now);
    var all, apiKey := KeysPatched(c, upd, order[..|order|], now), upd.providers[order[a]];
    NoKeys(c, upd, order, now);
    KeysOfOthers(c, upd, order, 0, a, now, provider);
    OneKeyMore(c, upd, order, a, now);
    OwnKey(before, order[a], apiKey, now, provider);
    KeysOfOthers(c, upd, order, a + 1, |order|, now, provider);
    SameHasConnections(after, all, provider);
    AppliedBetween(c, before, after, all, provider, apiKey, now);
    ChosenKeepsEntries(all, upd, now);
    ChosenIsActive(all, upd, now);
    SelectionKeepsKeys(c, all, Chosen(all, upd, now), upd, provider, apiKey, now);
  }

  lemma SameHasConnections(c: Conf, d: Conf, provider: string)
    requires SameOf(c, d, provider)
    ensures SameConnections(c, d, provider)
  {
  }

  lemma NoKeys(c: Conf, upd: WebUpdate, order: seq<string>, now: int)
    requires WebUpdateOk(upd) && forall name :: name in order ==> name in upd.providers
    ensures KeysPatched(c, upd, order[..0], now) == c
    ensures order[..|order|] == order
  {
  }

  // ----- what a patch leaves alone

  /** The update has a key, also an empty one, for the provider. */
  predicate Keyed(upd: WebUpdate, provider: string) {
    provider != "" && exists name :: name in upd.providers && upd.providers[name].Some? && Names(name, provider)
  }

  /** Nothing of a keyed provider. */
  ghost predicate Foreign(c: Conf, upd: WebUpdate, id: string) {
    id in c.entries && forall provider :: Keyed(upd, provider) ==> !IsWeb(c.entries[id], provider)
  }

  ghost predicate SelectedSame(c: Conf, d: Conf, id: string) {
    forall plugin, purpose :: SelectedAs(d.rest.bindings, plugin, purpose, id) <==> SelectedAs(c.rest.bindings, plugin, purpose, id)
  }

  lemma KeyLeavesForeign(c: Conf, upd: WebUpdate, name: string, now: int, id: string)
    requires NormalizeWebProvider(name).Some? && name in upd.providers && Foreign(c, upd, id)
    ensures var d := KeyPatched(c, name, upd.providers[name], now); Stays(c, d, id) && Foreign(d, upd, id) && SelectedSame(c, d, id)
  {
    hide Trim, CurrentPluginID, WebConnection, NewWebID, Main, NormalizeWebProvider;
    var provider := NormalizeWebProvider(name).value;
    if upd.providers[name].Some? && provider != "" {
      assert Keyed(upd, provider);
      MainIs(c, provider);
      if WebConnection(c, provider).Some? {
        MainIsOne(c, provider, WebConnection(c, provider).value);
        RemovedSelects(c, WebConnection(c, provider).value);
      }
    }
  }

  lemma {:induction false} KeysLeaveForeign(c: Conf, upd: WebUpdate, order: seq<string>, now: int, n: nat, id: string)
    requires WebUpdateOk(upd) && (forall name :: name in order ==> name in upd.providers) && n <= |order| && Foreign(c, upd, id)
    ensures var d := KeysPatched(c, upd, order[..n], now); Stays(c, d, id) && Foreign(d, upd, id) && SelectedSame(c, d, id)
  {
    hide KeyPatched, Foreign, NormalizeWebProvider, Names, SelectedAs;
    if n == 0 {
      NoKeys(c, upd, order, now);
      assert Stays(c, c, id) by { ForeignIsThere(c, upd, id); }
    } else {
      KeysLeaveForeign(c, upd, order, now, n - 1, id);
      OneKeyMore(c, upd, order, n - 1, now);
      KeyLeavesForeign(KeysPatched(c, upd, order[..n - 1], now), upd, order[n - 1], now, id);
    }
  }

  lemma ForeignIsThere(c: Conf, upd: WebUpdate, id: string)
    requires Foreign(c, upd, id)
    ensures id in c.entries
  {
  }

  /** A connection of no provider that the patch has a key for stays as it is, and is selected
      for what it was selected for, but for what the patch selects itself. */
  lemma PatchWebLeavesForeign(c: Conf, upd: WebUpdate, order: seq<string>, now: int, id: string)
    requires (forall name :: name in order ==> name in upd.providers) && PatchWeb(c, upd, order, now).Ok? && Foreign(c, upd, id)
    ensures var d := PatchWeb(c, upd, order, now).value;
            && Stays(c, d, id)
            && forall plugin, purpose :: !(plugin == WEB && purpose == "active") || (upd.search.None? && upd.fetch.None?) ==>
                 (SelectedAs(d.rest.bindings, plugin, purpose, id) <==> SelectedAs(c.rest.bindings, plugin, purpose, id))
  {
    hide KeysPatched, Chosen, Foreign, SelectedAs;
    NoKeys(c, upd, order, now);
    KeysLeaveForeign(c, upd, order, now, |order|, id);
    ChosenKeepsEntries(KeysPatched(c, upd, order, now), upd, now);
    ChosenKeepsOthers(KeysPatched(c, upd, order, now), upd, now);
  }

  // ----- what is removed is selected no more

  lemma KeyOnlyUnselects(c: Conf, given: string, apiKey: Option<string>, now: int, plugin: string, purpose: string, id: string)
    requires NormalizeWebProvider(given).Some? && SelectedAs(KeyPatched(c, given, apiKey, now).rest.bindings, plugin, purpose, id)
    ensures SelectedAs(c.rest.bindings, plugin, purpose, id)
  {
    hide Trim, CurrentPluginID, WebConnection, NewWebID, NormalizeWebProvider;
    var found := WebConnection(c, NormalizeWebProvider(given).value);
    if found.Some? {
      RemovedSelects(c, found.value);
    }
  }

  lemma {:induction false} KeysOnlyUnselect(c: Conf, upd: WebUpdate, order: seq<string>, now: int, from: nat, n: nat, plugin: string, purpose: string, id: string)
    requires WebUpdateOk(upd) && (forall name :: name in order ==> name in upd.providers) && from <= n <= |order|
    requires SelectedAs(KeysPatched(c, upd, order[..n], now).rest.bindings, plugin, purpose, id)
    ensures SelectedAs(KeysPatched(c, upd, order[..from], now).rest.bindings, plugin, purpose, id)
    decreases n
  {
    hide KeyPatched, NormalizeWebProvider, SelectedAs;
    if from < n {
      OneKeyMore(c, upd, order, n - 1, now);
      KeyOnlyUnselects(KeysPatched(c, upd, order[..n - 1], now), order[n - 1], upd.providers[order[n - 1]], now, plugin, purpose, id);
      KeysOnlyUnselect(c, upd, order, now, from, n - 1, plugin, purpose, id);
    }
  }

  lemma EmptyKeyUnselects(c: Conf, given: string, apiKey: Option<string>, now: int, provider: string, id: string)
    requires Names(given, provider) && provider != "" && apiKey.Some? && Trim(apiKey.value) == "" && Main(c, provider, id)
    ensures forall plugin, purpose :: !SelectedAs(KeyPatched(c, given, apiKey, now).rest.bindings, plugin, purpose, id)
  {
    MainIs(c, provider);
    MainIsOne(c, provider, id);
    hide Trim, CurrentPluginID, WebConnection, NewWebID, NormalizeWebProvider, Main;
    RemovedSelects(c, id);
  }

  /** The connection that an empty key removes is selected for nothing any more, unless the
      patch itself selects what it made in its place. */
  lemma EmptyKeyLeavesNoSelection(c: Conf, upd: WebUpdate, order: seq<string>, now: int, a: nat, provider: string, id: string,
                                  plugin: string, purpose: string)
    requires (forall name :: name in order ==> name in upd.providers) && PatchWeb(c, upd, order, now).Ok?
    requires a < |order| && provider in {"tavily", "deepseek"} && Names(order[a], provider)
    requires forall j :: 0 <= j < |order| && j != a ==> !Names(order[j], provider)
    requires upd.providers[order[a]].Some? && Trim(upd.providers[order[a]].value) == "" && Main(c, provider, id)
    requires SelectedAs(PatchWeb(c, upd, order, now).value.rest.bindings, plugin, purpose, id)
    ensures plugin == WEB && purpose == "active" && (upd.search.Some? || upd.fetch.Some?)
  {
    hide KeysPatched, KeyPatched, Chosen, Names, SameConnections, SelectedAs, Main, Trim;
    NoKeys(c, upd, order, now);
    var before := KeysPatched(c, upd, order[..a], now);
    KeysOfOthers(c, upd, order, 0, a, now, provider);
    OneKeyMore(c, upd, order, a, now);
    EmptyKeyUnselects(before, order[a], upd.providers[order[a]], now, provider, id);
    if !(plugin == WEB && purpose == "active") || (upd.search.None? && upd.fetch.None?) {
      ChosenKeepsOthers(KeysPatched(c, upd, order, now), upd, now);
      KeysOnlyUnselect(c, upd, order, now, a + 1, |order|, plugin, purpose, id);
    }
  }
}
