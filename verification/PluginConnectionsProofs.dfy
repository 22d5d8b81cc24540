/** What stays true of plugin connections and bindings over every run of operations. */
module PluginConnectionsProofs {

  import opened Results
  import opened Text
  import opened FreshIds
  import opened PluginIdentity
  import opened ConfigStore
  import opened PluginConnections

  /** The connection is there, and is one of the plugin it is bound for. */
  predicate SelectsOwn(c: Conf, plugin: string, id: string) {
    id in c.entries && CurrentPluginID(c.entries[id].pub.pluginID) == CurrentPluginID(plugin)
  }

  predicate WellBound(c: Conf) {
    forall plugin, purpose :: plugin in c.rest.bindings && purpose in c.rest.bindings[plugin] ==>
      SelectsOwn(c, plugin, c.rest.bindings[plugin][purpose])
  }

  /** Once both migrations are done the web plugin binds nothing but "active". */
  predicate SingleOk(c: Conf) {
    c.rest.singleActive ==>
      && c.rest.webMigrated && "web" !in c.rest.bindings
      && (WEB in c.rest.bindings ==> c.rest.bindings[WEB].Keys <= {"active"})
  }

  predicate Good(c: Conf) {
    WellBound(c) && SingleOk(c)
  }

  lemma PutKeeps(c: Conf, givenID: string, conn: Public, secret: Secrets, expected: Option<int>, now: int)
    requires Good(c) && Put(c, givenID, conn, secret, expected, now).Ok?
    ensures Good(Put(c, givenID, conn, secret, expected, now).value)
  {
    hide CurrentPluginID, Trim;
    var after := Put(c, givenID, conn, secret, expected, now).value;
    CurrentIsIdempotent(conn.pluginID);
    CurrentStays(conn.pluginID);
    forall plugin, purpose | plugin in after.rest.bindings && purpose in after.rest.bindings[plugin]
      ensures SelectsOwn(after, plugin, after.rest.bindings[plugin][purpose])
    {
      assert SelectsOwn(c, plugin, c.rest.bindings[plugin][purpose]);
      assert IsBound(c.rest.bindings, c.rest.bindings[plugin][purpose]);
    }
  }

  /** A put stores the connection under its trimmed id and current plugin id with the
      secrets it was given, keeps the time it was created, and touches nothing else. */
  lemma PutStores(c: Conf, givenID: string, conn: Public, secret: Secrets, expected: Option<int>, now: int)
    requires Put(c, givenID, conn, secret, expected, now).Ok?
    ensures var after, id := Put(c, givenID, conn, secret, expected, now).value, Trim(givenID);
            && after.rest == c.rest && after.entries - {id} == c.entries - {id} && id in after.entries
            && after.entries[id].secret == secret && IsCurrent(after.entries[id].pub.pluginID)
            && after.entries[id].pub.pluginID == CurrentPluginID(conn.pluginID)
            && after.entries[id].pub.methodID == conn.methodID && after.entries[id].pub.authType == conn.authType
            && after.entries[id].pub.details == conn.details && after.entries[id].pub.updatedAt == now
            && after.entries[id].pub.createdAt == (if id in c.entries && c.entries[id].pub.createdAt != 0
                                                   then c.entries[id].pub.createdAt else now)
            && after.entries[id].pub.name == (if Trim(conn.name) == "" then id else conn.name)
  {
    hide CurrentPluginID, Trim;
    CurrentIsIdempotent(conn.pluginID);
  }

  /** When the stored connection was last changed; 0 when there is none. */
  function LastChanged(c: Conf, id: string): int {
    if id in c.entries then c.entries[id].pub.updatedAt else 0
  }

  /** A put is accepted exactly when it names a connection and a plugin, was made from what is
      stored now, and, while the connection is selected, leaves its plugin, its method and its
      authentication type as they are. */
  lemma PutAcceptedExactly(c: Conf, givenID: string, conn: Public, secret: Secrets, expected: Option<int>, now: int)
    ensures var id, plugin := Trim(givenID), CurrentPluginID(conn.pluginID);
            Put(c, givenID, conn, secret, expected, now).Ok? <==>
              && id != "" && '/' !in id && ' ' !in id && plugin != ""
              && (expected.Some? ==> expected.value == LastChanged(c, id))
              && (id in c.entries && IsBound(c.rest.bindings, id) ==>
                    && plugin == CurrentPluginID(c.entries[id].pub.pluginID)
                    && conn.methodID == c.entries[id].pub.methodID && conn.authType == c.entries[id].pub.authType)
  {
    hide CurrentPluginID, Trim, IsBound;
    var id := Trim(givenID);
    assert ContainsAny(id, "/ ") <==> '/' in id || ' ' in id by {
      assert forall x: char :: x in "/ " <==> x == '/' || x == ' ';
    }
  }

  /** Of two puts that were made from the same state of a connection the second is refused. */
  lemma SecondPutIsRefused(c: Conf, givenID: string, first: Public, firstSecret: Secrets, now: int,
                           again: string, second: Public, secondSecret: Secrets, later: int)
    requires Trim(again) == Trim(givenID) && now != LastChanged(c, Trim(givenID))
    requires Put(c, givenID, first, firstSecret, Some(LastChanged(c, Trim(givenID))), now).Ok?
    ensures Put(Put(c, givenID, first, firstSecret, Some(LastChanged(c, Trim(givenID))), now).value,
                again, second, secondSecret, Some(LastChanged(c, Trim(givenID))), later).Err?
  {
    var seen := Some(LastChanged(c, Trim(givenID)));
    PutStores(c, givenID, first, firstSecret, seen, now);
    PutAcceptedExactly(Put(c, givenID, first, firstSecret, seen, now).value, again, second, secondSecret, seen, later);
    hide Put, Trim, CurrentPluginID, IsBound;
  }

  /** An update of a plugin's selections applies to that plugin alone, purpose by purpose. */
  lemma PatchBindingsApplies(c: Conf, plugin: string, update: map<string, string>, purpose: string, other: string)
    requires Rebound(c, plugin, update).Ok? && other != plugin
    ensures var after := Rebound(c, plugin, update).value;
            && after.entries == c.entries
            && BindingsOf(after.rest.bindings, other) == BindingsOf(c.rest.bindings, other)
            && (purpose in update ==> Get(BindingsOf(after.rest.bindings, plugin), purpose) == update[purpose])
            && (purpose !in update ==>
                  Get(BindingsOf(after.rest.bindings, plugin), purpose) == Get(BindingsOf(c.rest.bindings, plugin), purpose))
  {
    hide CurrentPluginID;
  }

  lemma CurrentStays(plugin: string)
    ensures CurrentPluginID(CurrentPluginID(plugin)) == CurrentPluginID(plugin)
  {
    CurrentIsIdempotent(plugin);
  }

  lemma RemovedKeeps(c: Conf, id: string)
    requires Good(c)
    ensures Good(Removed(c, id))
  {
    hide CurrentPluginID;
    var after := Removed(c, id);
    forall plugin, purpose | plugin in after.rest.bindings && purpose in after.rest.bindings[plugin]
      ensures SelectsOwn(after, plugin, after.rest.bindings[plugin][purpose])
    {
      assert SelectsOwn(c, plugin, c.rest.bindings[plugin][purpose]);
    }
  }

  predicate SelectedAs(bindings: Bindings, plugin: string, purpose: string, id: string) {
    plugin in bindings && purpose in bindings[plugin] && bindings[plugin][purpose] == id
  }

  /** After a delete the connection is gone and nothing selects it, while every other
      connection and selection is as it was. */
  lemma DeleteUnbinds(c: Conf, givenID: string)
    requires Delete(c, givenID).Ok?
    ensures Delete(c, givenID).value.entries == c.entries - {Trim(givenID)}
    ensures !IsBound(Delete(c, givenID).value.rest.bindings, Trim(givenID))
    ensures forall plugin, purpose, other :: other != Trim(givenID) ==>
      (SelectedAs(Delete(c, givenID).value.rest.bindings, plugin, purpose, other) <==>
       SelectedAs(c.rest.bindings, plugin, purpose, other))
  {
    hide Trim;
  }

  lemma ReboundKeeps(c: Conf, plugin: string, update: map<string, string>)
    requires Good(c) && Rebound(c, plugin, update).Ok? && IsCurrent(plugin)
    requires c.rest.singleActive && plugin == WEB ==> update.Keys <= {"active"}
    ensures Good(Rebound(c, plugin, update).value)
  {
    hide CurrentPluginID;
    var after := Rebound(c, plugin, update).value;
    forall p, purpose | p in after.rest.bindings && purpose in after.rest.bindings[p]
      ensures SelectsOwn(after, p, after.rest.bindings[p][purpose])
    {
      if p == plugin && purpose in update {
        assert MaySelect(c, plugin, update[purpose]);
      } else {
        assert SelectsOwn(c, p, c.rest.bindings[p][purpose]);
      }
    }
    WebIsNotItsAlias(plugin);
  }

  /** The alias of the web plugin is not a current id, so nothing is bound under it again. */
  lemma WebIsNotItsAlias(plugin: string)
    requires IsCurrent(plugin)
    ensures plugin != "web"
  {
    KnownIds();
  }

  lemma PatchBindingsKeeps(c: Conf, givenPlugin: string, update: map<string, string>)
    requires Good(c) && PatchBindings(c, givenPlugin, update).Ok?
    ensures Good(PatchBindings(c, givenPlugin, update).value)
  {
    hide CurrentPluginID;
    CurrentIsIdempotent(givenPlugin);
    KnownIds();
    var plugin := CurrentPluginID(givenPlugin);
    if plugin == WEB {
      var base := c.(rest := c.rest.(legacyWeb := map[]));
      assert forall p, id :: SelectsOwn(c, p, id) ==> SelectsOwn(base, p, id);
      ReboundKeeps(base, WEB, OneWebPurpose(update).value);
    } else {
      ReboundKeeps(c, plugin, update);
    }
  }

  // ----- web tools

  lemma WebConnectionIsWeb(c: Conf, provider: string)
    requires WebConnection(c, provider).Some?
    ensures var id := WebConnection(c, provider).value; id in c.entries && IsWeb(c.entries[id], provider)
  {
    hide CurrentPluginID;
    assert WebConnection(c, provider).value in WebConnections(c, provider);
  }

  /** A connection under an unused id disturbs no binding. */
  lemma AddedKeeps(c: Conf, id: string, provider: string, key: string, now: int)
    requires Good(c) && id !in c.entries
    ensures Good(AddedAs(c, id, provider, key, now)) && IsWeb(AddedAs(c, id, provider, key, now).entries[id], provider)
  {
    hide CurrentPluginID;
    KnownIds();
    var after := AddedAs(c, id, provider, key, now);
    forall p, purpose | p in after.rest.bindings && purpose in after.rest.bindings[p]
      ensures SelectsOwn(after, p, after.rest.bindings[p][purpose])
    {
      assert SelectsOwn(c, p, c.rest.bindings[p][purpose]);
    }
  }

  lemma RekeyedKeeps(c: Conf, id: string, key: string, now: int)
    requires Good(c)
    ensures Good(Rekeyed(c, id, key, now))
  {
    hide CurrentPluginID;
    var after := Rekeyed(c, id, key, now);
    forall p, purpose | p in after.rest.bindings && purpose in after.rest.bindings[p]
      ensures SelectsOwn(after, p, after.rest.bindings[p][purpose])
    {
      assert SelectsOwn(c, p, c.rest.bindings[p][purpose]);
    }
  }

  lemma KeyPatchedKeeps(c: Conf, given: string, apiKey: Option<string>, now: int)
    requires Good(c) && NormalizeWebProvider(given).Some?
    ensures Good(KeyPatched(c, given, apiKey, now))
    ensures KeyPatched(c, given, apiKey, now).rest.(bindings := c.rest.bindings) == c.rest
  {
    hide Good, Trim, Lower, CurrentPluginID, WebConnection;
    var name := NormalizeWebProvider(given).value;
    if apiKey.Some? && name != "" {
      var key, found := Trim(apiKey.value), WebConnection(c, name);
      if found.None? {
        AddedKeeps(c, NewWebID(c, name), name, key, now);
      } else {
        RemovedKeeps(c, found.value);
        RekeyedKeeps(c, found.value, key, now);
      }
    }
  }

  lemma {:induction false} KeysPatchedKeeps(c: Conf, upd: WebUpdate, order: seq<string>, now: int)
    requires Good(c) && WebUpdateOk(upd) && forall name :: name in order ==> name in upd.providers
    ensures Good(KeysPatched(c, upd, order, now))
    ensures KeysPatched(c, upd, order, now).rest.(bindings := c.rest.bindings) == c.rest
  {
    hide Good, KeyPatched, NormalizeWebProvider;
    if order != [] {
      KeysPatchedKeeps(c, upd, order[..|order| - 1], now);
      var last := order[|order| - 1];
      KeyPatchedKeeps(KeysPatched(c, upd, order[..|order| - 1], now), last, upd.providers[last], now);
    }
  }

  /** Replacing the web selections by ones that were there or are of the web plugin. */
  lemma WebSelectionKeeps(c: Conf, selected: map<string, string>, legacyWeb: map<string, string>)
    requires Good(c)
    requires forall purpose :: purpose in selected ==>
               || SelectsOwn(c, WEB, selected[purpose])
               || (purpose in BindingsOf(c.rest.bindings, WEB) && BindingsOf(c.rest.bindings, WEB)[purpose] == selected[purpose])
    requires c.rest.singleActive ==> selected.Keys <= {"active"}
    ensures Good(c.(rest := c.rest.(bindings := c.rest.bindings[WEB := selected], legacyWeb := legacyWeb)))
  {
    hide CurrentPluginID;
    var after := c.(rest := c.rest.(bindings := c.rest.bindings[WEB := selected], legacyWeb := legacyWeb));
    forall p, purpose | p in after.rest.bindings && purpose in after.rest.bindings[p]
      ensures SelectsOwn(after, p, after.rest.bindings[p][purpose])
    {
      if p == WEB {
        assert WEB in c.rest.bindings && purpose in c.rest.bindings[WEB] ==> SelectsOwn(c, WEB, c.rest.bindings[WEB][purpose]);
      } else {
        assert SelectsOwn(c, p, c.rest.bindings[p][purpose]);
      }
    }
  }

  lemma ChosenKeeps(c: Conf, upd: WebUpdate, now: int)
    requires Good(c) && WebUpdateOk(upd)
    ensures Good(Chosen(c, upd, now))
    ensures Chosen(c, upd, now).rest.singleActive == c.rest.singleActive
  {
    hide Trim, Lower, CurrentPluginID, WebConnection, WellBound;
    KnownIds();
    var value := if upd.search.Some? then upd.search else upd.fetch;
    var selected := BindingsOf(c.rest.bindings, WEB);
    if value.None? {
      WebSelectionKeeps(c, selected, c.rest.legacyWeb);
    } else {
      var name := NormalizeWebProvider(value.value).value;
      if name == "" {
        WebSelectionKeeps(c, selected - {"active"}, map[]);
      } else {
        var found := WebConnection(c, name);
        var id := if found.Some? then found.value else NewWebID(c, name);
        if found.Some? {
          WebConnectionIsWeb(c, name);
          WebSelectionKeeps(c, selected["active" := id], map[]);
        } else {
          AddedKeeps(c, id, name, "", now);
          WebSelectionKeeps(AddedAs(c, id, name, "", now), selected["active" := id], map[]);
        }
      }
    }
  }

  lemma PatchWebKeeps(c: Conf, upd: WebUpdate, order: seq<string>, now: int)
    requires Good(c) && (forall name :: name in order ==> name in upd.providers) && PatchWeb(c, upd, order, now).Ok?
    ensures Good(PatchWeb(c, upd, order, now).value)
  {
    hide Good, KeysPatched, Chosen;
    KeysPatchedKeeps(c, upd, order, now);
    ChosenKeeps(KeysPatched(c, upd, order, now), upd, now);
  }

  /** A patch that selects a provider makes a connection of that provider the active one. */
  lemma PatchWebSelects(c: Conf, upd: WebUpdate, order: seq<string>, now: int)
    requires (forall name :: name in order ==> name in upd.providers) && PatchWeb(c, upd, order, now).Ok?
    requires upd.search.Some? || upd.fetch.Some?
    ensures var name := NormalizeWebProvider(if upd.search.Some? then upd.search.value else upd.fetch.value).value;
            var after := PatchWeb(c, upd, order, now).value;
            if name == "" then Active(after) == ""
            else Active(after) in after.entries && IsWeb(after.entries[Active(after)], name)
  {
    hide Trim, Lower, CurrentPluginID, WebConnection, KeysPatched;
    KnownIds();
    var base := KeysPatched(c, upd, order, now);
    var name := NormalizeWebProvider(if upd.search.Some? then upd.search.value else upd.fetch.value).value;
    if name != "" && WebConnection(base, name).Some? {
      WebConnectionIsWeb(base, name);
    }
  }

  // ----- migrations

  lemma StampedKeeps(c: Conf, now: int)
    requires Good(c)
    ensures Good(Stamped(c, now))
  {
    hide CurrentPluginID;
    var after := Stamped(c, now);
    forall p, purpose | p in after.rest.bindings && purpose in after.rest.bindings[p]
      ensures SelectsOwn(after, p, after.rest.bindings[p][purpose])
    {
      assert SelectsOwn(c, p, c.rest.bindings[p][purpose]);
    }
  }

  /** A migration in progress: nothing there before was touched, and what it has selected
      so far was selected before or is a connection of the web plugin. */
  predicate MigratingOk(before: Conf, m: Migrating) {
    && Good(m.c) && m.c.rest == before.rest
    && (forall id :: id in before.entries ==> id in m.c.entries && m.c.entries[id] == before.entries[id])
    && (forall purpose :: purpose in m.selected ==>
          || SelectsOwn(m.c, WEB, m.selected[purpose])
          || (purpose in BindingsOf(before.rest.bindings, WEB) && BindingsOf(before.rest.bindings, WEB)[purpose] == m.selected[purpose]))
  }

  /** The key of a legacy provider is the token of one of its connections. */
  predicate KeyKept(c: Conf, legacy: WebTools, name: string) {
    var key := Trim(Get(legacy.providers, name));
    key != "" ==> exists id :: id in c.entries && IsWeb(c.entries[id], name) && c.entries[id].secret.token == key
  }

  lemma ProviderMigratedKeeps(before: Conf, m: Migrating, legacy: WebTools, name: string, now: int)
    requires MigratingOk(before, m) && !before.rest.singleActive
    ensures MigratingOk(before, ProviderMigrated(m, legacy, name, now))
    ensures KeyKept(ProviderMigrated(m, legacy, name, now).c, legacy, name)
    ensures forall id :: id in m.c.entries ==>
      id in ProviderMigrated(m, legacy, name, now).c.entries && ProviderMigrated(m, legacy, name, now).c.entries[id] == m.c.entries[id]
  {
    hide Trim, CurrentPluginID, WebConnection, WellBound;
    KnownIds();
    var key := Trim(Get(legacy.providers, name));
    var found := WebConnection(m.c, name);
    var next := ProviderMigrated(m, legacy, name, now);
    AddedKeeps(m.c, NewWebID(m.c, name), name, key, now);
    if found.Some? {
      WebConnectionIsWeb(m.c, name);
    }
    forall purpose | purpose in next.selected
      ensures || SelectsOwn(next.c, WEB, next.selected[purpose])
              || (purpose in BindingsOf(before.rest.bindings, WEB) && BindingsOf(before.rest.bindings, WEB)[purpose] == next.selected[purpose])
    {
      assert purpose in m.selected && m.selected[purpose] == next.selected[purpose] && SelectsOwn(m.c, WEB, m.selected[purpose]) ==>
          SelectsOwn(next.c, WEB, next.selected[purpose]);
    }
  }

  /** Moving the old web settings in loses none of its keys and touches no connection that
      was there, and bindings stay sound. */
  lemma WebMigratedKeeps(c: Conf, legacy: WebTools, now: int)
    requires Good(c) && WebMigrated(c, legacy, now).Some?
    ensures Good(WebMigrated(c, legacy, now).value) && WebMigrated(c, legacy, now).value.rest.webMigrated
    ensures forall id :: id in c.entries ==>
      id in WebMigrated(c, legacy, now).value.entries && WebMigrated(c, legacy, now).value.entries[id] == c.entries[id]
    ensures !c.rest.webMigrated ==>
      KeyKept(WebMigrated(c, legacy, now).value, legacy, "tavily") && KeyKept(WebMigrated(c, legacy, now).value, legacy, "deepseek")
  {
    hide Trim, Lower, CurrentPluginID, ProviderMigrated;
    if !c.rest.webMigrated {
      var start := Migrating(c, BindingsOf(c.rest.bindings, WEB));
      var first := ProviderMigrated(start, legacy, "tavily", now);
      var done := ProviderMigrated(first, legacy, "deepseek", now);
      ProviderMigratedKeeps(c, start, legacy, "tavily", now);
      ProviderMigratedKeeps(c, first, legacy, "deepseek", now);
      assert KeyKept(done.c, legacy, "tavily");
      WebSelectionKeeps(done.c, done.selected, done.c.rest.legacyWeb);
      var after := WebMigrated(c, legacy, now).value;
      assert after.entries == done.c.entries;
      MarkerKeeps(done.c.(rest := done.c.rest.(bindings := c.rest.bindings[WEB := done.selected])));
    }
  }

  lemma MarkerKeeps(c: Conf)
    requires Good(c)
    ensures Good(c.(rest := c.rest.(webMigrated := true)))
  {
    var after := c.(rest := c.rest.(webMigrated := true));
    forall p, purpose | p in after.rest.bindings && purpose in after.rest.bindings[p]
      ensures SelectsOwn(after, p, after.rest.bindings[p][purpose])
    {
      assert SelectsOwn(c, p, c.rest.bindings[p][purpose]);
    }
  }

  lemma SingleActiveKeeps(c: Conf)
    requires Good(c) && c.rest.webMigrated
    ensures Good(SingleActive(c)) && SingleActive(c).rest.singleActive
    ensures SingleActive(c).entries == c.entries
  {
    hide CurrentPluginID;
    KnownIds();
    if !c.rest.singleActive {
      var after := SingleActive(c);
      var from := if WEB in c.rest.bindings then WEB else "web";
      forall p, purpose | p in after.rest.bindings && purpose in after.rest.bindings[p]
        ensures SelectsOwn(after, p, after.rest.bindings[p][purpose])
      {
        if p == WEB {
          var b := BindingsOf(c.rest.bindings, from);
          assert "active" in b ==> SelectsOwn(c, from, b["active"]);
          assert "search" in b ==> SelectsOwn(c, from, b["search"]);
          assert "fetch" in b ==> SelectsOwn(c, from, b["fetch"]);
        } else {
          assert SelectsOwn(c, p, c.rest.bindings[p][purpose]);
        }
      }
    }
  }

  /** Every read leaves a sound configuration with both migrations done. */
  lemma MigratedKeeps(c: Conf, legacy: WebTools, now: int)
    requires Good(c) && Migrated(c, legacy, now).Some?
    ensures Good(Migrated(c, legacy, now).value) && Migrated(c, legacy, now).value.rest.singleActive
    ensures WEB in Migrated(c, legacy, now).value.rest.bindings ==>
      Migrated(c, legacy, now).value.rest.bindings[WEB].Keys <= {"active"}
  {
    hide WellBound, WebMigrated, Stamped, SingleActive;
    StampedKeeps(c, now);
    WebMigratedKeeps(Stamped(c, now), legacy, now);
    SingleActiveKeeps(WebMigrated(Stamped(c, now), legacy, now).value);
  }

  predicate AllStamped(c: Conf) {
    forall id :: id in c.entries ==> c.entries[id].pub.createdAt != 0
  }

  lemma StampedOnce(c: Conf, now: int)
    requires AllStamped(c)
    ensures Stamped(c, now) == c
  {
    assert Stamped(c, now).entries == c.entries;
  }

  lemma ProviderMigratedStamped(m: Migrating, legacy: WebTools, name: string, now: int)
    requires AllStamped(m.c) && now != 0
    ensures AllStamped(ProviderMigrated(m, legacy, name, now).c)
  {
    hide Trim, WebConnection, NewWebID;
  }

  lemma MigratedIsStamped(c: Conf, legacy: WebTools, now: int)
    requires Migrated(c, legacy, now).Some? && now != 0
    ensures AllStamped(Migrated(c, legacy, now).value)
    ensures Migrated(c, legacy, now).value.rest.webMigrated && Migrated(c, legacy, now).value.rest.singleActive
  {
    hide NormalizeWebProvider, ProviderMigrated;
    var s := Stamped(c, now);
    var start := Migrating(s, BindingsOf(s.rest.bindings, WEB));
    ProviderMigratedStamped(start, legacy, "tavily", now);
    ProviderMigratedStamped(ProviderMigrated(start, legacy, "tavily", now), legacy, "deepseek", now);
  }

  /** Reading again changes nothing, whatever the old settings file says by then. */
  lemma MigratedOnce(c: Conf, legacy: WebTools, now: int, again: WebTools, later: int)
    requires Migrated(c, legacy, now).Some? && now != 0
    ensures Migrated(Migrated(c, legacy, now).value, again, later) == Migrated(c, legacy, now)
  {
    MigratedIsStamped(c, legacy, now);
    StampedOnce(Migrated(c, legacy, now).value, later);
    SettledStays(Migrated(c, legacy, now).value, again, later);
  }

  lemma SettledStays(c: Conf, legacy: WebTools, now: int)
    requires c.rest.webMigrated && c.rest.singleActive && Stamped(c, now) == c
    ensures Migrated(c, legacy, now) == Some(c)
  {
    hide Stamped;
  }

  /** Under whichever id they were saved, selections that conflict are both kept for review
      and neither becomes the active one; otherwise nothing is set aside, and a selection
      that is made becomes the active one. */
  lemma ConflictSetAside(c: Conf)
    requires !c.rest.singleActive
    ensures var b, after := OldSelections(c.rest.bindings), SingleActive(c);
            && (Conflicts(b) ==> Active(after) == "" && after.rest.legacyWeb == ForReview(b))
            && (!Conflicts(b) ==> after.rest.legacyWeb == c.rest.legacyWeb)
            && (Active(after) == "" <==> Conflicts(b) || (Get(b, "active") == "" && Get(b, "search") == "" && Get(b, "fetch") == ""))
            && (Active(after) != "" ==> Active(after) in {Get(b, "active"), Get(b, "search"), Get(b, "fetch")})
  {
  }

  /** Two configurations the web migration cannot tell apart. */
  predicate SameForWeb(c: Conf, d: Conf) {
    c.entries == d.entries && BindingsOf(c.rest.bindings, WEB) == BindingsOf(d.rest.bindings, WEB)
  }

  lemma ProviderMigratedSame(m: Migrating, n: Migrating, legacy: WebTools, name: string, now: int)
    requires SameForWeb(m.c, n.c) && m.selected == n.selected
    ensures var x, y := ProviderMigrated(m, legacy, name, now), ProviderMigrated(n, legacy, name, now);
            SameForWeb(x.c, y.c) && x.selected == y.selected && x.c.rest == m.c.rest && y.c.rest == n.c.rest
  {
    hide Trim, CurrentPluginID, IsFirstUnused;
    FirstUnusedIsUnique(WebStem(name), WebStem(name), m.c.entries.Keys, NewWebID(m.c, name), NewWebID(n.c, name));
    assert WebConnections(m.c, name) == WebConnections(n.c, name);
    assert WebConnection(m.c, name) == WebConnection(n.c, name);
    hide WebConnection, NewWebID;
  }

  /** A first migration that is still to run leaves an entry under the plugin's id. */
  lemma AliasIgnoredWhenFirst(c: Conf, legacy: WebTools, now: int)
    requires !c.rest.webMigrated && !c.rest.singleActive
    ensures Migrated(c, legacy, now) == Migrated(WithoutAlias(c), legacy, now)
  {
    hide NormalizeWebProvider, ProviderMigrated;
    var d := WithoutAlias(c);
    WebIsNotWeb();
    var m := Migrating(Stamped(c, now), BindingsOf(c.rest.bindings, WEB));
    var n := Migrating(Stamped(d, now), BindingsOf(d.rest.bindings, WEB));
    ProviderMigratedSame(m, n, legacy, "tavily", now);
    ProviderMigratedSame(ProviderMigrated(m, legacy, "tavily", now), ProviderMigrated(n, legacy, "tavily", now), legacy, "deepseek", now);
    var x := WebMigrated(Stamped(c, now), legacy, now);
    var y := WebMigrated(Stamped(d, now), legacy, now);
    if x.Some? {
      SingleActiveForgetsAlias(x.value, y.value);
    }
  }

  function WithoutAlias(c: Conf): Conf {
    c.(rest := c.rest.(bindings := c.rest.bindings - {"web"}))
  }

  /** What is saved under the plugin's old id counts: the old settings file was moved in
      before, nothing stands under the plugin's id, and there is a selection, or a conflict
      that is not set aside already. */
  predicate AliasCounts(c: Conf) {
    var b := BindingsOf(c.rest.bindings, "web");
    && c.rest.webMigrated && WEB !in c.rest.bindings
    && (OneSelection(b) != "" || (Conflicts(b) && c.rest.legacyWeb != ForReview(b)))
  }

  /** Until the selections are reduced, what is saved under the plugin's old id makes a
      difference exactly when it counts, and then it is what the result has. */
  lemma AliasCountsExactly(c: Conf, legacy: WebTools, now: int)
    requires !c.rest.singleActive
    ensures Migrated(c, legacy, now) != Migrated(WithoutAlias(c), legacy, now) <==> AliasCounts(c)
    ensures AliasCounts(c) ==>
      var b, after := BindingsOf(c.rest.bindings, "web"), Migrated(c, legacy, now);
      after.Some? && Active(after.value) == OneSelection(b) && (Conflicts(b) ==> after.value.rest.legacyWeb == ForReview(b))
  {
    WebIsNotWeb();
    if !c.rest.webMigrated {
      AliasIgnoredWhenFirst(c, legacy, now);
    } else {
      var x, y := Stamped(c, now), Stamped(WithoutAlias(c), now);
      if WEB in c.rest.bindings {
        SingleActiveForgetsAlias(x, y);
      } else {
        ReducedDiffers(x, y);
      }
    }
  }

  /** Without an entry under the plugin's id the old one decides. */
  lemma ReducedDiffers(c: Conf, d: Conf)
    requires !c.rest.singleActive && WEB !in c.rest.bindings && d == WithoutAlias(c)
    ensures var b := BindingsOf(c.rest.bindings, "web");
            SingleActive(c) != SingleActive(d) <==> OneSelection(b) != "" || (Conflicts(b) && c.rest.legacyWeb != ForReview(b))
    ensures var b := BindingsOf(c.rest.bindings, "web");
            Active(SingleActive(c)) == OneSelection(b) && (Conflicts(b) ==> SingleActive(c).rest.legacyWeb == ForReview(b))
  {
    var none: map<string, string> := map[];
    assert OldSelections(d.rest.bindings) == none;
    assert OneSelection(none) == "" && !Conflicts(none);
    var b := BindingsOf(c.rest.bindings, "web");
    assert OldSelections(c.rest.bindings) == b;
    assert c.rest.bindings - {"web"} == d.rest.bindings - {"web"};
    var x, y := SingleActive(c), SingleActive(d);
    assert Active(x) == OneSelection(b);
    assert Active(y) == "";
  }

  /** A saved connection of a web provider that is selected, under the plugin's old id. */
  function SelectedUnderAlias(webMigrated: bool, under: Bindings): Conf {
    View(map["mine" := Item(Public("Mine", WEB, "tavily", "bearer", 1, 1, ""), NO_SECRETS)],
         Rest(under["web" := map["active" := "mine"]], webMigrated, false, map[]))
  }

  /** A selection that is lost to the first migration, and one that is lost to an empty entry
      such as that migration leaves behind; with neither it is kept. */
  lemma AliasSelectionLost(now: int)
    ensures var none := WebTools("", "", map[]);
            var first, second := Migrated(SelectedUnderAlias(false, map[]), none, now), Migrated(SelectedUnderAlias(true, map[WEB := map[]]), none, now);
            var kept := Migrated(SelectedUnderAlias(true, map[]), none, now);
            && first.Some? && Active(first.value) == ""
            && second.Some? && Active(second.value) == ""
            && kept.Some? && Active(kept.value) == "mine"
  {
    var none := WebTools("", "", map[]);
    var a, b, c := SelectedUnderAlias(false, map[]), SelectedUnderAlias(true, map[WEB := map[]]), SelectedUnderAlias(true, map[]);
    WebIsNotWeb();
    NothingSelected(a, none, now);
    assert Stamped(b, now).rest == b.rest;
    assert OldSelections(b.rest.bindings) == map[];
    AliasCountsExactly(c, none, now);
    assert BindingsOf(c.rest.bindings, "web") == map["active" := "mine"];
  }

  /** An old settings file that selects no provider adds no selection. */
  lemma NothingSelected(c: Conf, legacy: WebTools, now: int)
    requires legacy.search == "" && legacy.fetch == "" && !c.rest.webMigrated && !c.rest.singleActive && WEB !in c.rest.bindings
    ensures Migrated(c, legacy, now).Some? && Active(Migrated(c, legacy, now).value) == ""
  {
    hide WebConnection, NewWebID;
    TrimIsTrimmed("");
    assert Lower("") == "";
    WebIsNotWeb();
    var s := Stamped(c, now);
    var start := Migrating(s, BindingsOf(s.rest.bindings, WEB));
    var first := ProviderMigrated(start, legacy, "tavily", now);
    var done := ProviderMigrated(first, legacy, "deepseek", now);
    assert "tavily" != "" && "deepseek" != "";
    assert done.selected == map[];
    assert OldSelections(WebMigrated(s, legacy, now).value.rest.bindings) == map[];
  }

  lemma SingleActiveForgetsAlias(c: Conf, d: Conf)
    requires WEB in c.rest.bindings && !c.rest.singleActive
    requires c.entries == d.entries && d.rest == c.rest.(bindings := d.rest.bindings)
    requires d.rest.bindings == c.rest.bindings - {"web"} && WEB in d.rest.bindings
    ensures SingleActive(c) == SingleActive(d)
  {
    assert c.rest.bindings - {"web"} == d.rest.bindings - {"web"};
    assert d.rest.bindings[WEB] == c.rest.bindings[WEB];
  }

  lemma WebIsNotWeb()
    ensures "web" != WEB
  {
    assert |"web"| == 3;
  }

  // ----- runs

  datatype Operation =
    | DoPut(id: string, conn: Public, secret: Secrets, expected: Option<int>)
    | DoDelete(id: string)
    | DoPatchBindings(plugin: string, update: map<string, string>)
    | DoPatchWeb(upd: WebUpdate, order: seq<string>)
    | DoRead

  /** One operation, the settings file it finds and the time it runs at. */
  datatype Event = Event(op: Operation, legacy: WebTools, now: int)

  /** What an operation makes of a migrated configuration. */
  ghost function Attempted(c: Conf, op: Operation, now: int): Result<Conf, OpFault> {
    match op
    case DoPut(id, conn, secret, expected) => Put(c, id, conn, secret, expected, now)
    case DoDelete(id) => Delete(c, id)
    case DoPatchBindings(plugin, update) => PatchBindings(c, plugin, update)
    case DoPatchWeb(upd, order) =>
      if forall name :: name in order ==> name in upd.providers then PatchWeb(c, upd, order, now) else Err(InvalidSetting)
    case DoRead => Ok(c)
  }

  /** Every operation migrates first; one that is refused stores nothing more. */
  ghost function Stored(c: Conf, e: Event): Conf {
    var base := Migrated(c, e.legacy, e.now);
    if base.None? then c
    else
      var r := Attempted(base.value, e.op, e.now);
      if r.Ok? then r.value else base.value
  }

  ghost function Run(c: Conf, events: seq<Event>): Conf {
    if events == [] then c else Stored(Run(c, events[..|events| - 1]), events[|events| - 1])
  }

  lemma OperationKeeps(c: Conf, op: Operation, now: int)
    requires Good(c) && Attempted(c, op, now).Ok?
    ensures Good(Attempted(c, op, now).value)
  {
    hide Good, Put, Delete, PatchBindings, PatchWeb;
    match op
    case DoPut(id, conn, secret, expected) => PutKeeps(c, id, conn, secret, expected, now);
    case DoDelete(id) => DeleteKeeps(c, id);
    case DoPatchBindings(plugin, update) => PatchBindingsKeeps(c, plugin, update);
    case DoPatchWeb(upd, order) => PatchWebKeeps(c, upd, order, now);
    case DoRead =>
  }

  lemma DeleteKeeps(c: Conf, givenID: string)
    requires Good(c) && Delete(c, givenID).Ok?
    ensures Good(Delete(c, givenID).value)
  {
    hide Good, Removed, Trim;
    RemovedKeeps(c, Trim(givenID));
  }

  /** Over every run from an empty or sound store, every binding selects an existing
      connection of its plugin, and once migrated the web plugin binds only "active". */
  lemma {:induction false} RunKeepsBindings(c: Conf, events: seq<Event>)
    requires Good(c)
    ensures Good(Run(c, events))
  {
    hide Good, Migrated, Attempted;
    if events != [] {
      var before, e := Run(c, events[..|events| - 1]), events[|events| - 1];
      RunKeepsBindings(c, events[..|events| - 1]);
      var base := Migrated(before, e.legacy, e.now);
      if base.Some? {
        MigratedKeeps(before, e.legacy, e.now);
        if Attempted(base.value, e.op, e.now).Ok? {
          OperationKeeps(base.value, e.op, e.now);
        }
      }
    }
  }
}
