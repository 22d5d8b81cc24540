/** When the operations on plugin connections are accepted, and what the migrations make of old
    selections. */
module PluginOperations {

  import opened Results
  import opened Text
  import opened FreshIds
  import opened PluginIdentity
  import opened ConfigStore
  import opened PluginConnections
  import opened PluginConnectionsProofs
  import opened PluginWebPatch

  // ----- when operations are accepted

  /** A delete is accepted exactly when the connection is there. */
  lemma DeleteAcceptedExactly(c: Conf, givenID: string)
    ensures Delete(c, givenID).Ok? <==> Trim(givenID) in c.entries
  {
    hide Trim;
  }

  /** What an update selects: nothing, or connections of the plugin. */
  predicate SelectsFor(c: Conf, plugin: string, update: map<string, string>) {
    forall purpose :: purpose in update && update[purpose] != "" ==>
      update[purpose] in c.entries && CurrentPluginID(c.entries[update[purpose]].pub.pluginID) == plugin
  }

  /** The purposes of the web plugin are one: an update of them names only these, and agrees. */
  predicate Agrees(update: map<string, string>) {
    && (forall purpose :: purpose in update ==> purpose in {"active", "search", "fetch"})
    && (forall p, q :: p in update && q in update ==> update[p] == update[q])
  }

  /** An update of a plugin's selections is accepted exactly when it selects connections of that
      plugin, and for the web plugin, when it also agrees. */
  lemma PatchBindingsAcceptedExactly(c: Conf, givenPlugin: string, update: map<string, string>)
    ensures var plugin := CurrentPluginID(givenPlugin);
            PatchBindings(c, givenPlugin, update).Ok? <==> SelectsFor(c, plugin, update) && (plugin == WEB ==> Agrees(update))
  {
    hide CurrentPluginID;
    if CurrentPluginID(givenPlugin) == WEB {
      OneWebPurposeExactly(update);
      if update != map[] && Agrees(update) {
        var purpose :| purpose in update;
        assert OneWebPurpose(update).value["active"] == update[purpose];
      }
    }
  }

  lemma OneWebPurposeExactly(update: map<string, string>)
    ensures OneWebPurpose(update).Some? <==> Agrees(update)
    ensures Agrees(update) && update == map[] ==> OneWebPurpose(update) == Some(map[])
    ensures Agrees(update) ==> forall purpose :: purpose in update ==> OneWebPurpose(update) == Some(map["active" := update[purpose]])
  {
    forall purpose | purpose in update ensures IsWebPurpose(purpose) <==> purpose in {"active", "search", "fetch"} {}
  }

  /** An accepted update of the web plugin sets the one active connection, or clears it, ends any
      review, and leaves every other plugin's selections alone. */
  lemma PatchWebBindingsApplies(c: Conf, givenPlugin: string, update: map<string, string>, other: string)
    requires CurrentPluginID(givenPlugin) == WEB && PatchBindings(c, givenPlugin, update).Ok? && other != WEB
    ensures var after := PatchBindings(c, givenPlugin, update).value;
            && after.entries == c.entries && after.rest.legacyWeb == map[]
            && BindingsOf(after.rest.bindings, other) == BindingsOf(c.rest.bindings, other)
            && (update == map[] ==> Active(after) == Active(c))
            && (forall purpose :: purpose in update ==> Active(after) == update[purpose])
            && (forall purpose :: purpose != "active" ==>
                  Get(BindingsOf(after.rest.bindings, WEB), purpose) == Get(BindingsOf(c.rest.bindings, WEB), purpose))
  {
    hide CurrentPluginID;
    OneWebPurposeExactly(update);
  }

  /** An accepted update of another plugin's selections applies purpose by purpose, and to that
      plugin alone. */
  lemma PatchPluginBindingsApplies(c: Conf, givenPlugin: string, update: map<string, string>, purpose: string, other: string)
    requires CurrentPluginID(givenPlugin) != WEB && PatchBindings(c, givenPlugin, update).Ok? && other != CurrentPluginID(givenPlugin)
    ensures var after, plugin := PatchBindings(c, givenPlugin, update).value, CurrentPluginID(givenPlugin);
            && after == c.(rest := c.rest.(bindings := after.rest.bindings))
            && BindingsOf(after.rest.bindings, other) == BindingsOf(c.rest.bindings, other)
            && Get(BindingsOf(after.rest.bindings, plugin), purpose) ==
                 if purpose in update then update[purpose] else Get(BindingsOf(c.rest.bindings, plugin), purpose)
  {
    hide CurrentPluginID;
    PatchBindingsApplies(c, CurrentPluginID(givenPlugin), update, purpose, other);
  }

  predicate KnownProvider(name: string) {
    Lower(Trim(name)) in {"", "tavily", "deepseek"}
  }

  /** A patch of the web tools is accepted exactly when it names known providers, and search and
      fetch are not to be served by different ones. */
  lemma PatchWebAcceptedExactly(c: Conf, upd: WebUpdate, order: seq<string>, now: int)
    requires forall name :: name in order ==> name in upd.providers
    ensures PatchWeb(c, upd, order, now).Ok? <==>
            && (upd.search.Some? ==> KnownProvider(upd.search.value))
            && (upd.fetch.Some? ==> KnownProvider(upd.fetch.value))
            && (upd.search.Some? && upd.fetch.Some? ==> Lower(Trim(upd.search.value)) == Lower(Trim(upd.fetch.value)))
            && (forall name :: name in upd.providers ==> KnownProvider(name))
  {
    hide Trim, Lower;
    forall name ensures NormalizeWebProvider(name) == if KnownProvider(name) then Some(Lower(Trim(name))) else None {}
  }

  // ----- what the migrations make of old selections

  /** Connections from before there were instance identities get one, and nothing else changes. */
  lemma StampsWhatHasNone(c: Conf, now: int, id: string)
    requires id in c.entries
    ensures var after := Stamped(c, now);
            && after.rest == c.rest && after.entries.Keys == c.entries.Keys
            && after.entries[id].secret == c.entries[id].secret
            && after.entries[id].pub == c.entries[id].pub.(createdAt := if c.entries[id].pub.createdAt == 0 then now else c.entries[id].pub.createdAt)
  {
  }

  /** The provider that the old settings file selects for a purpose. */
  function Wanted(legacy: WebTools, purpose: string): string {
    if purpose == "search" then legacy.search else if purpose == "fetch" then legacy.fetch else ""
  }

  /** A connection of the provider, with its old key if it had one. */
  predicate Serves(c: Conf, legacy: WebTools, name: string, id: string) {
    Of(c, name, id) && (Trim(Get(legacy.providers, name)) != "" ==> c.entries[id].secret.token == Trim(Get(legacy.providers, name)))
  }

  /** One provider: a purpose that selects nothing and is to be served by it selects a connection
      that serves, and every other selection stays. */
  lemma ProviderSelects(m: Migrating, legacy: WebTools, name: string, now: int, purpose: string)
    requires name in {"tavily", "deepseek"}
    ensures var next := ProviderMigrated(m, legacy, name, now);
            if Get(m.selected, purpose) == "" && Wanted(legacy, purpose) == name
            then Get(next.selected, purpose) != "" ==> Serves(next.c, legacy, name, Get(next.selected, purpose))
            else Get(next.selected, purpose) == Get(m.selected, purpose)
    ensures var next := ProviderMigrated(m, legacy, name, now);
            Get(m.selected, purpose) == "" && Wanted(legacy, purpose) == name && "" !in m.c.entries ==> Get(next.selected, purpose) != ""
  {
    hide Trim, Lower, CurrentPluginID, WebConnection, NewWebID, Less, Main, IsFirstUnused;
    KnownIds();
    MainIs(m.c, name);
    var found := WebConnection(m.c, name);
    if found.Some? {
      MainIsOne(m.c, name, found.value);
    }
    NewIdIsNamed(m.c, name);
  }

  /** It only adds connections, under names that are not empty. */
  lemma ProviderAdds(m: Migrating, legacy: WebTools, name: string, now: int)
    ensures forall id :: id in m.c.entries ==> Stays(m.c, ProviderMigrated(m, legacy, name, now).c, id)
    ensures "" !in m.c.entries ==> "" !in ProviderMigrated(m, legacy, name, now).c.entries
  {
    hide Trim, WebConnection, NewWebID;
    NewIdIsNamed(m.c, name);
  }

  lemma NewIdIsNamed(c: Conf, name: string)
    ensures NewWebID(c, name) != "" && NewWebID(c, name) !in c.entries
  {
    var id := NewWebID(c, name);
    assert |WebStem(name)| > 0;
    assert IsFirstUnused(WebStem(name), WebStem(name), c.entries.Keys, id);
    hide NewWebID, WebStem;
  }

  /** The one-time move of the old settings file: a purpose that selected something keeps it; one
      that did not selects a connection of the provider that was to serve it, with its key; and
      no other selection changes. */
  lemma OldSettingsAreSelected(c: Conf, legacy: WebTools, now: int, purpose: string)
    requires !c.rest.webMigrated && WebMigrated(c, legacy, now).Some? && "" !in c.entries
    ensures var after, before := WebMigrated(c, legacy, now).value, Get(BindingsOf(c.rest.bindings, WEB), purpose);
            var selected := Get(BindingsOf(after.rest.bindings, WEB), purpose);
            if before == "" && Wanted(legacy, purpose) in {"tavily", "deepseek"}
            then Serves(after, legacy, Wanted(legacy, purpose), selected)
            else selected == before
    ensures forall other :: other != WEB ==>
      BindingsOf(WebMigrated(c, legacy, now).value.rest.bindings, other) == BindingsOf(c.rest.bindings, other)
  {
    hide Trim, Lower, NormalizeWebProvider, ProviderMigrated, Serves;
    var start := Migrating(c, BindingsOf(c.rest.bindings, WEB));
    var first := ProviderMigrated(start, legacy, "tavily", now);
    var done := ProviderMigrated(first, legacy, "deepseek", now);
    ProviderAdds(start, legacy, "tavily", now);
    ProviderAdds(first, legacy, "deepseek", now);
    ProviderSelects(start, legacy, "tavily", now, purpose);
    ProviderSelects(first, legacy, "deepseek", now, purpose);
    var selected := Get(first.selected, purpose);
    if Serves(first.c, legacy, "tavily", selected) {
      StillServes(first.c, done.c, legacy, "tavily", selected);
    }
    var after := WebMigrated(c, legacy, now).value;
    StillServesWith(done.c, after, legacy);
  }

  lemma StillServes(c: Conf, d: Conf, legacy: WebTools, name: string, id: string)
    requires Serves(c, legacy, name, id) && (id in c.entries ==> Stays(c, d, id))
    ensures Serves(d, legacy, name, id)
  {
  }

  lemma StillServesWith(c: Conf, d: Conf, legacy: WebTools)
    requires c.entries == d.entries
    ensures forall name, id :: Serves(c, legacy, name, id) <==> Serves(d, legacy, name, id)
  {
  }

  /** Reducing selections to one: the active one stays; without one the connection that search
      and fetch agree on, or that only one of them selects, becomes active. */
  lemma OneSelectionIsMade(c: Conf)
    requires !c.rest.singleActive
    ensures var b, after := OldSelections(c.rest.bindings), SingleActive(c);
            var search, fetch := Get(b, "search"), Get(b, "fetch");
            && after.entries == c.entries
            && (Get(b, "active") != "" ==> Active(after) == Get(b, "active"))
            && (Get(b, "active") == "" && search != "" && (fetch == "" || fetch == search) ==> Active(after) == search)
            && (Get(b, "active") == "" && search == "" ==> Active(after) == fetch)
            && forall other :: other != WEB && other != "web" ==>
                 BindingsOf(after.rest.bindings, other) == BindingsOf(c.rest.bindings, other)
  {
  }
}
