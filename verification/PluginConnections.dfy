/** Plugin connections and their bindings: what each operation does to a configuration. */
module PluginConnections {

  import opened Results
  import opened Text
  import opened FreshIds
  import opened PluginIdentity
  import opened ConfigStore

  /** What a connection shows in the file; `details` stands for the fields no operation here
      looks at.  A time of 0 is the zero time. */
  datatype Public = Public(
    name: string,
    pluginID: string,
    methodID: string,
    authType: string,
    createdAt: int,
    updatedAt: int,
    details: string)

  datatype Secrets = Secrets(
    token: string,
    accessToken: string,
    refreshToken: string,
    password: string,
    fields: map<string, string>)

  const NO_SECRETS := Secrets("", "", "", "", map[])

  type Bindings = map<string, map<string, string>>

  datatype Rest = Rest(
    bindings: Bindings,
    webMigrated: bool,
    singleActive: bool,
    legacyWeb: map<string, string>)

  type Connection = Item<Public, Secrets>
  type Conf = View<Public, Secrets, Rest>

  datatype OpFault = NotFound | InvalidSetting

  function Get(m: map<string, string>, key: string): string {
    if key in m then m[key] else ""
  }

  function BindingsOf(bindings: Bindings, plugin: string): map<string, string> {
    if plugin in bindings then bindings[plugin] else map[]
  }

  // ----- put and delete

  /** The connection is selected for some purpose. */
  predicate IsBound(bindings: Bindings, id: string) {
    exists plugin, purpose :: plugin in bindings && purpose in bindings[plugin] && bindings[plugin][purpose] == id
  }

  predicate ContainsAny(s: string, chars: string) {
    exists i :: 0 <= i < |s| && s[i] in chars
  }

  /** A connection is stored under its trimmed id and current plugin id.  It cannot change
      its plugin or authentication method while it is bound, nor be replaced when it was
      edited since the caller looked. */
  function Put(c: Conf, givenID: string, conn: Public, secret: Secrets, expected: Option<int>, now: int): Result<Conf, OpFault> {
    var id, plugin := Trim(givenID), CurrentPluginID(conn.pluginID);
    if id == "" || ContainsAny(id, "/ ") || plugin == "" then Err(NotFound)
    else
      var existing := if id in c.entries then Some(c.entries[id]) else None;
      if expected.Some? && expected.value != (if existing.Some? then existing.value.pub.updatedAt else 0) then Err(InvalidSetting)
      else if existing.Some? && Rebinds(existing.value.pub, conn.(pluginID := plugin)) && IsBound(c.rest.bindings, id) then
        Err(InvalidSetting)
      else
        var pub := conn.(
          pluginID := plugin,
          name := if Trim(conn.name) == "" then id else conn.name,
          createdAt := if existing.Some? && existing.value.pub.createdAt != 0 then existing.value.pub.createdAt else now,
          updatedAt := now);
        Ok(c.(entries := c.entries[id := Item(pub, secret)]))
  }

  predicate Rebinds(before: Public, after: Public) {
    || CurrentPluginID(before.pluginID) != after.pluginID
    || before.methodID != after.methodID
    || before.authType != after.authType
  }

  function Unbound(selected: map<string, string>, id: string): map<string, string> {
    map purpose | purpose in selected && selected[purpose] != id :: selected[purpose]
  }

  /** No purpose of any plugin selects the connection any more. */
  function Cleared(bindings: Bindings, id: string): Bindings {
    map plugin | plugin in bindings :: Unbound(bindings[plugin], id)
  }

  function Removed(c: Conf, id: string): Conf {
    c.(entries := c.entries - {id}, rest := c.rest.(bindings := Cleared(c.rest.bindings, id)))
  }

  function Delete(c: Conf, givenID: string): Result<Conf, OpFault> {
    var id := Trim(givenID);
    if id in c.entries then Ok(Removed(c, id)) else Err(NotFound)
  }

  // ----- bindings

  /** A selection names a connection of the plugin, or nothing. */
  predicate MaySelect(c: Conf, plugin: string, id: string) {
    id != "" ==> id in c.entries && CurrentPluginID(c.entries[id].pub.pluginID) == plugin
  }

  function Selected(selected: map<string, string>, update: map<string, string>): map<string, string> {
    map purpose | purpose in selected.Keys + update.Keys && (purpose in update ==> update[purpose] != "")
      :: if purpose in update then update[purpose] else selected[purpose]
  }

  predicate IsWebPurpose(purpose: string) {
    purpose == "active" || purpose == "search" || purpose == "fetch"
  }

  /** All purposes of the web plugin are one, so they have to agree. */
  ghost function OneWebPurpose(update: map<string, string>): Option<map<string, string>> {
    if update == map[] then Some(map[])
    else
      var first :| first in update;
      if forall purpose :: purpose in update ==> IsWebPurpose(purpose) && update[purpose] == update[first]
      then Some(map["active" := update[first]])
      else None
  }

  function Rebound(c: Conf, plugin: string, update: map<string, string>): Result<Conf, OpFault> {
    if forall purpose :: purpose in update ==> MaySelect(c, plugin, update[purpose]) then
      Ok(c.(rest := c.rest.(bindings := c.rest.bindings[plugin := Selected(BindingsOf(c.rest.bindings, plugin), update)])))
    else Err(InvalidSetting)
  }

  ghost function PatchBindings(c: Conf, givenPlugin: string, update: map<string, string>): Result<Conf, OpFault> {
    var plugin := CurrentPluginID(givenPlugin);
    if plugin == WEB then
      match OneWebPurpose(update)
      case None => Err(InvalidSetting)
      case Some(one) => Rebound(c.(rest := c.rest.(legacyWeb := map[])), WEB, one)
    else Rebound(c, plugin, update)
  }

  // ----- the web plugin

  predicate IsWeb(conn: Connection, provider: string) {
    CurrentPluginID(conn.pub.pluginID) == WEB && conn.pub.methodID == provider
  }

  function WebConnections(c: Conf, provider: string): set<string> {
    set id | id in c.entries && IsWeb(c.entries[id], provider)
  }

  function Active(c: Conf): string {
    Get(BindingsOf(c.rest.bindings, WEB), "active")
  }

  /** The connection of a provider: the active one if it is the provider's, or its first. */
  ghost function WebConnection(c: Conf, provider: string): Option<string> {
    var found := WebConnections(c, provider);
    if Active(c) in found then Some(Active(c))
    else if found == {} then None
    else Some(LeastOf(found))
  }

  function ProviderName(provider: string): string {
    if provider == "tavily" then "Tavily" else if provider == "deepseek" then "DeepSeek" else ""
  }

  function WebStem(provider: string): string {
    "web-search-fetch-" + provider
  }

  ghost function NewWebID(c: Conf, provider: string): (id: string)
    ensures IsFirstUnused(WebStem(provider), WebStem(provider), c.entries.Keys, id)
  {
    PlainIsNotNumbered(WebStem(provider), WebStem(provider));
    FirstUnusedExists(WebStem(provider), WebStem(provider), c.entries.Keys, 1);
    var id :| IsFirstUnused(WebStem(provider), WebStem(provider), c.entries.Keys, id);
    id
  }

  function AddedAs(c: Conf, id: string, provider: string, key: string, now: int): Conf {
    c.(entries := c.entries[id := Item(Public(ProviderName(provider), WEB, provider, "bearer", now, now, ""),
                                       NO_SECRETS.(token := key))])
  }

  ghost function AddWeb(c: Conf, provider: string, key: string, now: int): Conf {
    AddedAs(c, NewWebID(c, provider), provider, key, now)
  }

  function NormalizeWebProvider(name: string): Option<string> {
    var lowered := Lower(Trim(name));
    if lowered == "" || lowered == "tavily" || lowered == "deepseek" then Some(lowered) else None
  }

  datatype WebUpdate = WebUpdate(search: Option<string>, fetch: Option<string>, providers: map<string, Option<string>>)

  predicate WebUpdateOk(upd: WebUpdate) {
    && (upd.search.Some? ==> NormalizeWebProvider(upd.search.value).Some?)
    && (upd.fetch.Some? ==> NormalizeWebProvider(upd.fetch.value).Some?)
    && (upd.search.Some? && upd.fetch.Some? ==> NormalizeWebProvider(upd.search.value) == NormalizeWebProvider(upd.fetch.value))
    && (forall name :: name in upd.providers ==> NormalizeWebProvider(name).Some?)
  }

  /** One key of an update: a new key makes or changes the provider's connection, an empty
      one removes it. */
  ghost function KeyPatched(c: Conf, given: string, apiKey: Option<string>, now: int): Conf
    requires NormalizeWebProvider(given).Some?
  {
    var name := NormalizeWebProvider(given).value;
    if apiKey.None? || name == "" then c
    else
      var key, found := Trim(apiKey.value), WebConnection(c, name);
      if found.None? then if key != "" then AddWeb(c, name, key, now) else c
      else if key == "" then Removed(c, found.value)
      else Rekeyed(c, found.value, key, now)
  }

  function Rekeyed(c: Conf, id: string, key: string, now: int): Conf {
    if id in c.entries then
      var e := c.entries[id];
      c.(entries := c.entries[id := e.(pub := e.pub.(updatedAt := now), secret := e.secret.(token := key))])
    else c
  }

  /** The keys of an update, in the order the map happened to be walked. */
  ghost function KeysPatched(c: Conf, upd: WebUpdate, order: seq<string>, now: int): Conf
    requires WebUpdateOk(upd) && forall name :: name in order ==> name in upd.providers
  {
    if order == [] then c
    else
      var last := order[|order| - 1];
      KeyPatched(KeysPatched(c, upd, order[..|order| - 1], now), last, upd.providers[last], now)
  }

  /** The selection of an update: the provider's connection becomes the active one, and is
      made when there is none. */
  ghost function Chosen(c: Conf, upd: WebUpdate, now: int): Conf
    requires WebUpdateOk(upd)
  {
    var value := if upd.search.Some? then upd.search else upd.fetch;
    var selected := BindingsOf(c.rest.bindings, WEB);
    if value.None? then c.(rest := c.rest.(bindings := c.rest.bindings[WEB := selected]))
    else
      var name := NormalizeWebProvider(value.value).value;
      if name == "" then c.(rest := c.rest.(bindings := c.rest.bindings[WEB := selected - {"active"}], legacyWeb := map[]))
      else
        var found := WebConnection(c, name);
        var id := if found.Some? then found.value else NewWebID(c, name);
        var with := if found.Some? then c else AddedAs(c, id, name, "", now);
        with.(rest := c.rest.(bindings := c.rest.bindings[WEB := selected["active" := id]], legacyWeb := map[]))
  }

  ghost function PatchWeb(c: Conf, upd: WebUpdate, order: seq<string>, now: int): Result<Conf, OpFault>
    requires forall name :: name in order ==> name in upd.providers
  {
    if WebUpdateOk(upd) then Ok(Chosen(KeysPatched(c, upd, order, now), upd, now)) else Err(InvalidSetting)
  }

  // ----- what every read does first

  /** Connections from before instance identities get one. */
  function Stamped(c: Conf, now: int): Conf {
    c.(entries := map id | id in c.entries ::
      if c.entries[id].pub.createdAt == 0 then c.entries[id].(pub := c.entries[id].pub.(createdAt := now)) else c.entries[id])
  }

  /** The settings file web providers had of their own. */
  datatype WebTools = WebTools(search: string, fetch: string, providers: map<string, string>)

  datatype Migrating = Migrating(c: Conf, selected: map<string, string>)

  ghost function ProviderMigrated(m: Migrating, legacy: WebTools, name: string, now: int): Migrating {
    var key := Trim(Get(legacy.providers, name));
    var found := WebConnection(m.c, name);
    var adds := if key != "" then found.None? || found.value !in m.c.entries || m.c.entries[found.value].secret.token != key
                else found.None? && (legacy.search == name || legacy.fetch == name);
    var id := if adds then NewWebID(m.c, name) else if found.Some? then found.value else "";
    var c := if adds then AddedAs(m.c, id, name, key, now) else m.c;
    var searching := if id != "" && legacy.search == name && Get(m.selected, "search") == "" then m.selected["search" := id] else m.selected;
    var fetching := if id != "" && legacy.fetch == name && Get(searching, "fetch") == "" then searching["fetch" := id] else searching;
    Migrating(c, fetching)
  }

  /** The old settings file becomes standard connections and per-purpose selections, once. */
  ghost function WebMigrated(c: Conf, legacy: WebTools, now: int): Option<Conf> {
    if c.rest.webMigrated then Some(c)
    else if NormalizeWebProvider(legacy.search).None? || NormalizeWebProvider(legacy.fetch).None? then None
    else
      var start := Migrating(c, BindingsOf(c.rest.bindings, WEB));
      var done := ProviderMigrated(ProviderMigrated(start, legacy, "tavily", now), legacy, "deepseek", now);
      Some(done.c.(rest := c.rest.(bindings := c.rest.bindings[WEB := done.selected], webMigrated := true)))
  }

  /** Search and fetch were selected differently, and no active connection was. */
  predicate Conflicts(b: map<string, string>) {
    Get(b, "active") == "" && Get(b, "search") != "" && Get(b, "fetch") != "" && Get(b, "search") != Get(b, "fetch")
  }

  /** The one connection old selections amount to. */
  function OneSelection(b: map<string, string>): string {
    if Get(b, "active") != "" then Get(b, "active")
    else if Conflicts(b) then ""
    else if Get(b, "search") != "" then Get(b, "search")
    else Get(b, "fetch")
  }

  function ForReview(b: map<string, string>): map<string, string> {
    map["search" := Get(b, "search"), "fetch" := Get(b, "fetch")]
  }

  /** The selections there are under the plugin's id, or else under its old one. */
  function OldSelections(bindings: Bindings): map<string, string> {
    if WEB in bindings then bindings[WEB] else BindingsOf(bindings, "web")
  }

  /** Per-purpose selections become one, once; a conflict is set aside for review. */
  function SingleActive(c: Conf): Conf {
    if c.rest.singleActive then c
    else
      var b := OldSelections(c.rest.bindings);
      c.(rest := c.rest.(
        bindings := (c.rest.bindings - {"web"})[WEB := if OneSelection(b) != "" then map["active" := OneSelection(b)] else map[]],
        singleActive := true,
        legacyWeb := if Conflicts(b) then ForReview(b) else c.rest.legacyWeb))
  }

  /** Everything a read migrates. */
  ghost function Migrated(c: Conf, legacy: WebTools, now: int): Option<Conf> {
    var web := WebMigrated(Stamped(c, now), legacy, now);
    if web.Some? then Some(SingleActive(web.value)) else None
  }
}
