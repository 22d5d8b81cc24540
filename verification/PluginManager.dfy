/** The operations on plugin connections as they run: each reads the stored configuration,
    migrating it on the way, changes it in place and writes it back. */
module PluginManager {

  import opened Results
  import opened Text
  import opened FreshIds
  import opened PluginIdentity
  import opened ConfigStore
  import opened PluginConnections
  import opened PluginConnectionsProofs

  /** A configuration in memory, with the references of its records. */
  type Loaded = Config<Public, Secrets, Rest>

  datatype Failure = Storage(fault: Fault) | Refused(op: OpFault) | Unreadable

  /** How connection files are kept, for some encoding of the secrets. */
  function PluginKind(encode: Secrets -> string, parse: string -> Option<Secrets>): Kind<Secrets, Rest> {
    Kind(NO_SECRETS, encode, parse, Some(Rest(map[], false, false, map[])))
  }

  // ----- changes in memory, as their users see them

  lemma ViewPut(c: Loaded, id: string, e: Entry<Public, Secrets>)
    ensures ViewOf(c.(entries := c.entries[id := e])) == ViewOf(c).(entries := ViewOf(c).entries[id := Item(e.pub, e.secret)])
  {
    assert ViewOf(c.(entries := c.entries[id := e])).entries == ViewOf(c).entries[id := Item(e.pub, e.secret)];
  }

  lemma ViewRemove(c: Loaded, id: string)
    ensures ViewOf(c.(entries := c.entries - {id})) == ViewOf(c).(entries := ViewOf(c).entries - {id})
  {
    assert ViewOf(c.(entries := c.entries - {id})).entries == ViewOf(c).entries - {id};
  }

  lemma RefsPut(c: Loaded, id: string, e: Entry<Public, Secrets>)
    requires e.ref == "" || (id in c.entries && c.entries[id].ref == e.ref)
    ensures RefsWithin(c.(entries := c.entries[id := e]), c)
  {
  }

  lemma RefsFewer(c: Loaded, after: Loaded)
    requires forall id :: id in after.entries ==> id in c.entries && after.entries[id].ref == c.entries[id].ref
    ensures RefsWithin(after, c)
  {
  }

  lemma RefsTransitive(a: Loaded, b: Loaded, c: Loaded)
    requires RefsWithin(a, b) && RefsWithin(b, c)
    ensures RefsWithin(a, c)
  {
  }

  /** Whether some purpose of some plugin selects a connection. */
  method FindBound(bindings: Bindings, id: string) returns (found: bool)
    ensures found == IsBound(bindings, id)
  {
    var plugins := bindings.Keys;
    while plugins != {}
      invariant plugins <= bindings.Keys
      invariant forall p, purpose :: p in bindings && p !in plugins && purpose in bindings[p] ==> bindings[p][purpose] != id
      decreases |plugins|
    {
      var plugin :| plugin in plugins;
      plugins := plugins - {plugin};
      var selected := bindings[plugin];
      var purposes := selected.Keys;
      while purposes != {}
        invariant purposes <= selected.Keys
        invariant forall purpose :: purpose in selected && purpose !in purposes ==> selected[purpose] != id
        decreases |purposes|
      {
        var purpose :| purpose in purposes;
        purposes := purposes - {purpose};
        if selected[purpose] == id {
          return true;
        }
      }
    }
    found := false;
  }

  /** Drops every selection of a connection. */
  method ClearBindings(bindings: Bindings, id: string) returns (r: Bindings)
    ensures r == Cleared(bindings, id)
  {
    r := bindings;
    var plugins := bindings.Keys;
    while plugins != {}
      invariant plugins <= bindings.Keys && r.Keys == bindings.Keys
      invariant forall p :: p in bindings ==> r[p] == if p in plugins then bindings[p] else Unbound(bindings[p], id)
      decreases |plugins|
    {
      var plugin :| plugin in plugins;
      var selected := Unbind(bindings[plugin], id);
      r := r[plugin := selected];
      plugins := plugins - {plugin};
    }
  }

  method Unbind(selected: map<string, string>, id: string) returns (r: map<string, string>)
    ensures r == Unbound(selected, id)
  {
    r := selected;
    var purposes := selected.Keys;
    while purposes != {}
      invariant purposes <= selected.Keys
      invariant forall purpose :: purpose in r <==> purpose in selected && (purpose in purposes || selected[purpose] != id)
      invariant forall purpose :: purpose in r ==> r[purpose] == selected[purpose]
      decreases |purposes|
    {
      var purpose :| purpose in purposes;
      if selected[purpose] == id {
        r := r - {purpose};
      }
      purposes := purposes - {purpose};
    }
  }

  /** Web purposes are one, whatever order they come in. */
  method NormalizeWebBindingUpdate(update: map<string, string>) returns (r: Option<map<string, string>>)
    ensures r == OneWebPurpose(update)
  {
    hide IsWebPurpose;
    var out: map<string, string>, left := map[], update.Keys;
    while left != {}
      invariant left <= update.Keys
      invariant out == map[] <==> left == update.Keys
      invariant out != map[] ==> "active" in out && out == map["active" := out["active"]]
      invariant forall p :: p in update && p !in left ==> IsWebPurpose(p) && "active" in out && update[p] == out["active"]
      decreases |left|
    {
      var purpose :| purpose in left;
      if !IsWebPurpose(purpose) {
        return None;
      }
      if "active" in out && out["active"] != update[purpose] {
        return None;
      }
      out := out["active" := update[purpose]];
      left := left - {purpose};
    }
    r := Some(out);
  }

  /** Selections with an update applied to the purposes walked so far. */
  ghost predicate SelectedSoFar(before: map<string, string>, update: map<string, string>, left: set<string>, selected: map<string, string>) {
    forall p :: if p in update && p !in left then Get(selected, p) == update[p] && (p in selected <==> update[p] != "")
                else (p in selected <==> p in before) && (p in before ==> selected[p] == before[p])
  }

  lemma SelectOne(before: map<string, string>, update: map<string, string>, left: set<string>, selected: map<string, string>,
                  purpose: string)
    requires SelectedSoFar(before, update, left, selected) && purpose in left && purpose in update
    ensures var next := if update[purpose] == "" then selected - {purpose} else selected[purpose := update[purpose]];
            SelectedSoFar(before, update, left - {purpose}, next)
  {
  }

  lemma SelectedAll(before: map<string, string>, update: map<string, string>, selected: map<string, string>)
    requires SelectedSoFar(before, update, {}, selected)
    ensures selected == Selected(before, update)
  {
  }

  /** Checks and applies an update of a plugin's selections. */
  method Rebind(c: Loaded, plugin: string, update: map<string, string>) returns (r: Result<Loaded, OpFault>)
    ensures r.Ok? ==> Rebound(ViewOf(c), plugin, update) == Ok(ViewOf(r.value)) && r.value.entries == c.entries
    ensures r.Err? ==> Rebound(ViewOf(c), plugin, update) == Err(r.error)
  {
    hide CurrentPluginID, SelectedSoFar, Selected;
    var before := BindingsOf(c.rest.bindings, plugin);
    var selected, left := before, update.Keys;
    assert SelectedSoFar(before, update, left, selected) by { SelectNone(before, update); }
    while left != {}
      invariant left <= update.Keys
      invariant forall p :: p in update && p !in left ==> MaySelect(ViewOf(c), plugin, update[p])
      invariant SelectedSoFar(before, update, left, selected)
      decreases |left|
    {
      var purpose :| purpose in left;
      var id := update[purpose];
      if id != "" {
        if id !in c.entries || CurrentPluginID(c.entries[id].pub.pluginID) != plugin {
          assert !MaySelect(ViewOf(c), plugin, update[purpose]);
          return Err(InvalidSetting);
        }
      }
      SelectOne(before, update, left, selected, purpose);
      if id == "" {
        selected := selected - {purpose};
      } else {
        selected := selected[purpose := id];
      }
      left := left - {purpose};
    }
    SelectedAll(before, update, selected);
    r := Ok(c.(rest := c.rest.(bindings := c.rest.bindings[plugin := selected])));
  }

  lemma SelectNone(before: map<string, string>, update: map<string, string>)
    ensures SelectedSoFar(before, update, update.Keys, before)
  {
  }

  /** The connection of a web provider: the active one first, then by id. */
  method FindWebConnection(c: Loaded, provider: string) returns (r: Option<string>)
    ensures r == WebConnection(ViewOf(c), provider)
    ensures r.Some? ==> r.value in c.entries
  {
    hide CurrentPluginID;
    var v := ViewOf(c);
    var active := Get(BindingsOf(c.rest.bindings, WEB), "active");
    if active in c.entries && CurrentPluginID(c.entries[active].pub.pluginID) == WEB && c.entries[active].pub.methodID == provider {
      return Some(active);
    }
    ghost var found := WebConnections(v, provider);
    var ids := Sort(c.entries.Keys);
    for i := 0 to |ids|
      invariant forall j :: 0 <= j < i ==> ids[j] !in found
    {
      assert ids[i] in c.entries;
      var e := c.entries[ids[i]];
      if CurrentPluginID(e.pub.pluginID) == WEB && e.pub.methodID == provider {
        FirstIsLeast(ids, i, found);
        LeastIsUnique(found, ids[i], LeastOf(found));
        return Some(ids[i]);
      }
    }
    assert forall id :: id in found ==> id in ids;
    r := None;
  }

  /** Adds a connection of a web provider under an unused id. */
  method AddWebConnection(c: Loaded, provider: string, key: string, now: int) returns (r: Loaded, id: string)
    ensures id == NewWebID(ViewOf(c), provider) && ViewOf(r) == AddWeb(ViewOf(c), provider, key, now)
    ensures r.rest == c.rest && id in r.entries && RefsWithin(r, c)
  {
    hide IsFirstUnused;
    PlainIsNotNumbered(WebStem(provider), WebStem(provider));
    ghost var probes;
    id, probes := FirstUnused(WebStem(provider), WebStem(provider), c.entries.Keys);
    UnusedIsFirst(WebStem(provider), WebStem(provider), c.entries.Keys, id, probes);
    assert ViewOf(c).entries.Keys == c.entries.Keys;
    FirstUnusedIsUnique(WebStem(provider), WebStem(provider), c.entries.Keys, id, NewWebID(ViewOf(c), provider));
    var e := Entry(Public(ProviderName(provider), WEB, provider, "bearer", now, now, ""), NO_SECRETS.(token := key), "");
    ViewPut(c, id, e);
    RefsPut(c, id, e);
    r := c.(entries := c.entries[id := e]);
  }

  /** One key of a web update. */
  method PatchKey(c: Loaded, given: string, apiKey: Option<string>, now: int) returns (r: Loaded)
    requires NormalizeWebProvider(given).Some?
    ensures ViewOf(r) == KeyPatched(ViewOf(c), given, apiKey, now) && RefsWithin(r, c)
  {
    RefsFewer(c, c);
    hide RefsWithin, NormalizeWebProvider, Trim, WebConnection, NewWebID;
    var name := NormalizeWebProvider(given).value;
    if apiKey.None? || name == "" {
      return c;
    }
    var key := Trim(apiKey.value);
    var found := FindWebConnection(c, name);
    if found.None? {
      r := c;
      if key != "" {
        var id;
        r, id := AddWebConnection(c, name, key, now);
      }
      return r;
    }
    var id := found.value;
    if key == "" {
      var bindings := ClearBindings(c.rest.bindings, id);
      ViewRemove(c, id);
      r := c.(entries := c.entries - {id}, rest := c.rest.(bindings := bindings));
      RefsFewer(c, r);
    } else {
      var e := c.entries[id];
      RefsPut(c, id, e.(pub := e.pub.(updatedAt := now), secret := e.secret.(token := key)));
      ViewPut(c, id, e.(pub := e.pub.(updatedAt := now), secret := e.secret.(token := key)));
      r := c.(entries := c.entries[id := e.(pub := e.pub.(updatedAt := now), secret := e.secret.(token := key))]);
    }
  }

  /** The selection of a web update. */
  method Choose(c: Loaded, upd: WebUpdate, now: int) returns (r: Loaded)
    requires WebUpdateOk(upd)
    ensures ViewOf(r) == Chosen(ViewOf(c), upd, now) && RefsWithin(r, c)
  {
    hide NormalizeWebProvider, WebConnection, NewWebID;
    var selected := BindingsOf(c.rest.bindings, WEB);
    var value := if upd.search.Some? then upd.search else upd.fetch;
    var legacyWeb := c.rest.legacyWeb;
    r := c;
    if value.Some? {
      var name := NormalizeWebProvider(value.value).value;
      if name == "" {
        selected := selected - {"active"};
      } else {
        var found := FindWebConnection(c, name);
        var id;
        if found.None? {
          r, id := AddWebConnection(c, name, "", now);
        } else {
          id := found.value;
        }
        selected := selected["active" := id];
      }
      legacyWeb := map[];
    }
    r := r.(rest := r.rest.(bindings := r.rest.bindings[WEB := selected], legacyWeb := legacyWeb));
  }

  /** One provider of the old settings file. */
  method MigrateProvider(c: Loaded, given: map<string, string>, legacy: WebTools, name: string, now: int)
    returns (r: Loaded, selected: map<string, string>)
    ensures Migrating(ViewOf(r), selected) == ProviderMigrated(Migrating(ViewOf(c), given), legacy, name, now)
    ensures RefsWithin(r, c)
  {
    hide Trim, WebConnection, NewWebID;
    var key := Trim(Get(legacy.providers, name));
    var chosen := legacy.search == name || legacy.fetch == name;
    var found := FindWebConnection(c, name);
    var id := "";
    r, selected := c, given;
    if key != "" && (found.None? || c.entries[found.value].secret.token != key) {
      r, id := AddWebConnection(c, name, key, now);
    } else if found.Some? {
      id := found.value;
    } else if chosen {
      r, id := AddWebConnection(c, name, key, now);
    }
    if id != "" {
      if legacy.search == name && Get(selected, "search") == "" {
        selected := selected["search" := id];
      }
      if legacy.fetch == name && Get(selected, "fetch") == "" {
        selected := selected["fetch" := id];
      }
    }
  }

  /** Gives every connection without a creation time one. */
  method Stamp(c: Loaded, now: int) returns (r: Loaded, changed: bool)
    ensures ViewOf(r) == Stamped(ViewOf(c), now) && RefsWithin(r, c)
    ensures !changed ==> r == c
  {
    hide RefsWithin, ViewOf, Stamped;
    r, changed := c, false;
    var left := c.entries.Keys;
    while left != {}
      invariant left <= c.entries.Keys && r.entries.Keys == c.entries.Keys && r.rest == c.rest
      invariant !changed ==> r == c
      invariant forall id :: id in c.entries ==>
        r.entries[id] == if id in left || c.entries[id].pub.createdAt != 0 then c.entries[id]
                         else c.entries[id].(pub := c.entries[id].pub.(createdAt := now))
      decreases |left|
    {
      var id :| id in left;
      left := left - {id};
      var e := c.entries[id];
      if e.pub.createdAt == 0 {
        r := r.(entries := r.entries[id := e.(pub := e.pub.(createdAt := now))]);
        changed := true;
      }
    }
    StampedView(c, r, now);
    RefsFewer(c, r);
  }

  lemma StampedView(c: Loaded, r: Loaded, now: int)
    requires r.rest == c.rest && r.entries.Keys == c.entries.Keys
    requires forall id :: id in c.entries ==>
      r.entries[id] == if c.entries[id].pub.createdAt != 0 then c.entries[id]
                       else c.entries[id].(pub := c.entries[id].pub.(createdAt := now))
    ensures ViewOf(r) == Stamped(ViewOf(c), now)
  {
    assert ViewOf(r).entries == Stamped(ViewOf(c), now).entries;
  }

  // ----- the operations

  /** Nothing stored is an empty configuration, whose bindings are sound. */
  lemma NothingIsGood(encode: Secrets -> string, parse: string -> Option<Secrets>)
    ensures Keeps(PluginKind(encode, parse), Disk(None, true, None, map[], map[]), Good)
  {
  }

  lemma ProviderNamed(upd: WebUpdate, name: string)
    requires WebUpdateOk(upd) && name in upd.providers
    ensures NormalizeWebProvider(name).Some?
  {
  }

  lemma KeysPatchedMore(c: Conf, upd: WebUpdate, order: seq<string>, name: string, now: int)
    requires WebUpdateOk(upd) && (forall n :: n in order ==> n in upd.providers) && name in upd.providers
    ensures NormalizeWebProvider(name).Some? && forall n :: n in order + [name] ==> n in upd.providers
    ensures KeysPatched(c, upd, order + [name], now) == KeyPatched(KeysPatched(c, upd, order, now), name, upd.providers[name], now)
  {
    assert (order + [name])[..|order|] == order;
  }

  /** A web update for an order its keys can be walked in. */
  ghost function OrderedPatch(c: Conf, upd: WebUpdate, order: seq<string>, now: int): Result<Conf, OpFault> {
    if forall name :: name in order ==> name in upd.providers then PatchWeb(c, upd, order, now) else Err(InvalidSetting)
  }

  /** An operation that reports success stored what it says about the migrated configuration
      it found; one that refuses does so for the reason it says.  As long as nothing goes wrong
      on the disk each operation does one or the other. */
  ghost predicate Outcome(before: Option<Conf>, legacy: WebTools, now: int, op: Conf -> Result<Conf, OpFault>, after: Option<Conf>,
                          r: Option<Failure>)
  {
    var base := if before.Some? then Migrated(before.value, legacy, now) else None;
    && (r.None? ==> base.Some? && after.Some? && op(base.value) == Ok(after.value))
    && (r.Some? && r.value.Refused? && base.Some? ==> op(base.value) == Err(r.value.op))
  }

  /** What was stored can be read and migrated. */
  ghost predicate Settled(before: Option<Conf>, legacy: WebTools, now: int) {
    before.Some? && Migrated(before.value, legacy, now).Some?
  }

  lemma WebMigratedKeepsIfSome(c: Conf, legacy: WebTools, now: int)
    requires Good(c)
    ensures WebMigrated(c, legacy, now).Some? ==>
      Good(WebMigrated(c, legacy, now).value) && WebMigrated(c, legacy, now).value.rest.webMigrated
  {
    if WebMigrated(c, legacy, now).Some? {
      WebMigratedKeeps(c, legacy, now);
    }
  }

  lemma RestIsKept(m: Migrating, legacy: WebTools, name: string, now: int)
    ensures ProviderMigrated(m, legacy, name, now).c.rest == m.c.rest
  {
  }

  lemma SameEntriesOwn(f: Option<File<Public, Secrets, Rest>>, c: Loaded, rest: Rest)
    requires OwnsEach(f, c)
    ensures OwnsEach(f, c.(rest := rest))
  {
  }

  class Manager {
    const store: Store<Public, Secrets, Rest>
    /** The settings file the web plugin had of its own. */
    var webTools: Option<WebTools>

    /** A manager over a store that nothing has been written to is sound from the start. */
    constructor Empty(encode: Secrets -> string, parse: string -> Option<Secrets>, webTools: Option<WebTools>,
                      faults: nat -> bool, names: nat -> string)
      requires Faithful(PluginKind(encode, parse))
      ensures fresh(store) && Sound(0) && store.trace == [] && this.webTools == webTools
      ensures Stored() == Some(View(map[], Rest(map[], false, false, map[])))
    {
      NothingIsGood(encode, parse);
      var made := new Store<Public, Secrets, Rest>(PluginKind(encode, parse), None, map[], faults, names);
      this.store := made;
      this.webTools := webTools;
    }

    /** Since `start` every state of the disk, whichever file a crash brings back, decodes to
        a configuration whose bindings are sound. */
    ghost predicate Sound(start: nat)
      reads store
    {
      store.Valid() && store.KeptSince(start, Good)
    }

    ghost function Stored(): Option<Conf>
      reads store
    {
      var c := Decode(store.kind, store.visible, store.records);
      if c.Some? then Some(ViewOf(c.value)) else None
    }

    /** Nothing went wrong on the disk since then. */
    ghost predicate Smooth(from: nat, taken: Records)
      reads store
    {
      store.QuietSince(from, taken)
    }

    /** The steps and the names in use were counted since then. */
    ghost predicate Counted(from: nat, taken: Records)
      reads store
    {
      from <= store.steps && OnlyNamed(store.names, from, store.steps, taken, store.records)
    }

    /** One step on the file that the web plugin had of its own. */
    method Step(ghost start: nat, ghost from: nat, ghost taken: Records) returns (done: bool)
      requires Sound(start) && Counted(from, taken)
      modifies store`steps
      ensures Sound(start) && Counted(from, taken) && (Smooth(from, taken) ==> done)
      ensures Stored() == old(Stored())
    {
      hide Good, Keeps;
      done := store.Try();
    }

    function Legacy(): WebTools
      reads this
    {
      if webTools.Some? then webTools.value else WebTools("", "", map[])
    }

    /** Writes a configuration whose bindings are sound. */
    method Save(c: Loaded, ghost start: nat, ghost from: nat, ghost taken: Records) returns (r: Result<Loaded, Failure>)
      requires Sound(start) && Good(ViewOf(c)) && OwnsEach(store.visible, c) && Counted(from, taken)
      modifies store
      ensures Sound(start)
      ensures r.Err? ==> !r.error.Refused?
      ensures r.Ok? ==> Stored() == Some(ViewOf(c)) && ViewOf(r.value) == ViewOf(c) && OwnsEach(store.visible, r.value)
      ensures Counted(from, taken)
      ensures Smooth(from, taken) ==> r.Ok?
    {
      hide Good, Keeps, Owns, OwnsEach, Quiet, OnlyNamed;
      EachIsOwned(store.visible, c);
      ghost var at, mid := store.steps, store.records;
      var written := store.Write(c, Good, start);
      NamedTwice(store.names, from, at, store.steps, taken, mid, store.records);
      if Smooth(from, taken) {
        QuietThen(store.faults, store.names, from, at, store.steps, taken, mid);
      }
      if written.Ok? {
        ReadOwns(store.kind, store.visible, store.records, written.value);
      }
      r := if written.Ok? then Ok(written.value) else Err(Storage(written.error));
    }

    method MigrateWebConnections(c: Loaded, now: int, ghost start: nat, ghost from: nat, ghost taken: Records)
      returns (r: Result<Loaded, Failure>)
      requires Counted(from, taken)
      requires Sound(start) && Stored() == Some(ViewOf(c)) && Good(ViewOf(c)) && OwnsEach(store.visible, c)
      modifies this`webTools, store
      ensures Sound(start)
      ensures r.Err? ==> !r.error.Refused?
      ensures r.Ok? ==> OwnsEach(store.visible, r.value)
      ensures r.Ok? ==> Stored() == Some(ViewOf(r.value)) && WebMigrated(ViewOf(c), old(Legacy()), now) == Some(ViewOf(r.value))
      ensures Counted(from, taken)
      ensures Smooth(from, taken) && WebMigrated(ViewOf(c), old(Legacy()), now).Some? ==> r.Ok?
    {
      hide Good, Keeps, NormalizeWebProvider, ProviderMigrated, Owns, OwnsEach, RefsWithin, Quiet, OnlyNamed, Counted, Smooth, Sound, Stored;
      if c.rest.webMigrated {
        return Ok(c);
      }
      var readable := Step(start, from, taken);
      if !readable {
        return Err(Unreadable);
      }
      var legacy := Legacy();
      if NormalizeWebProvider(legacy.search).None? || NormalizeWebProvider(legacy.fetch).None? {
        return Err(Unreadable);
      }
      var first, selected := MigrateProvider(c, BindingsOf(c.rest.bindings, WEB), legacy, "tavily", now);
      var second;
      second, selected := MigrateProvider(first, selected, legacy, "deepseek", now);
      var done := second.(rest := second.rest.(bindings := c.rest.bindings[WEB := selected], webMigrated := true));
      ghost var begun := Migrating(ViewOf(c), BindingsOf(c.rest.bindings, WEB));
      RestIsKept(begun, legacy, "tavily", now);
      RestIsKept(ProviderMigrated(begun, legacy, "tavily", now), legacy, "deepseek", now);
      WebMigratedKeeps(ViewOf(c), legacy, now);
      RefsTransitive(second, first, c);
      RefsFewer(second, done);
      RefsTransitive(done, second, c);
      OwnsWithin(store.visible, c, done);
      r := Save(done, start, from, taken);
      if r.Ok? {
        var removed := Step(start, from, taken);
        if !removed {
          return Err(Storage(Interrupted));
        }
        webTools := None;
      }
    }

    method MigrateWebSingleActive(c: Loaded, ghost start: nat, ghost from: nat, ghost taken: Records)
      returns (r: Result<Loaded, Failure>)
      requires Counted(from, taken)
      requires Sound(start) && Stored() == Some(ViewOf(c)) && Good(ViewOf(c)) && OwnsEach(store.visible, c) && c.rest.webMigrated
      modifies store
      ensures Sound(start)
      ensures r.Err? ==> !r.error.Refused?
      ensures r.Ok? ==> OwnsEach(store.visible, r.value)
      ensures r.Ok? ==> Stored() == Some(ViewOf(r.value)) && ViewOf(r.value) == SingleActive(ViewOf(c))
      ensures Counted(from, taken)
      ensures Smooth(from, taken) ==> r.Ok?
    {
      hide Good, Keeps, Counted, Smooth;
      if c.rest.singleActive {
        return Ok(c);
      }
      var b := if WEB in c.rest.bindings then c.rest.bindings[WEB] else BindingsOf(c.rest.bindings, "web");
      var active, legacyWeb := Get(b, "active"), c.rest.legacyWeb;
      if active == "" {
        var search, fetch := Get(b, "search"), Get(b, "fetch");
        if search != "" && fetch != "" && search != fetch {
          legacyWeb := map["search" := search, "fetch" := fetch];
        } else if search != "" {
          active := search;
        } else {
          active := fetch;
        }
      }
      var selected: map<string, string> := map[];
      if active != "" {
        selected := selected["active" := active];
      }
      SingleActiveKeeps(ViewOf(c));
      SameEntriesOwn(store.visible, c, c.rest.(bindings := (c.rest.bindings - {"web"})[WEB := selected], singleActive := true,
                                               legacyWeb := legacyWeb));
      r := Save(c.(rest := c.rest.(bindings := (c.rest.bindings - {"web"})[WEB := selected], singleActive := true,
                                   legacyWeb := legacyWeb)), start, from, taken);
    }

    /** What every operation begins with. */
    method Load(now: int, ghost start: nat, ghost from: nat, ghost taken: Records) returns (r: Result<Loaded, Failure>)
      requires Sound(start) && Counted(from, taken)
      modifies this`webTools, store
      ensures Sound(start)
      ensures r.Err? ==> !r.error.Refused?
      ensures r.Ok? ==> Stored() == Some(ViewOf(r.value)) && Good(ViewOf(r.value)) && r.value.rest.singleActive
      ensures r.Ok? ==> OwnsEach(store.visible, r.value)
      ensures r.Ok? ==> old(Stored()).Some? && Migrated(old(Stored()).value, old(Legacy()), now) == Some(ViewOf(r.value))
      ensures Counted(from, taken)
      ensures Smooth(from, taken) && Settled(old(Stored()), old(Legacy()), now) ==> r.Ok?
    {
      hide Good, Keeps, Stamped, WebMigrated, SingleActive, Owns, OwnsEach, RefsWithin, Quiet, OnlyNamed;
      ghost var legacy := Legacy();
      ghost var at, mid := store.steps, store.records;
      var read := store.Read(Good, start);
      NamedTwice(store.names, from, at, store.steps, taken, mid, store.records);
      if Smooth(from, taken) {
        QuietThen(store.faults, store.names, from, at, store.steps, taken, mid);
      }
      if read.Err? {
        return Err(Storage(read.error));
      }
      KeptView(store.kind, store.Now(), read.value, Good);
      ReadOwns(store.kind, store.visible, store.records, read.value);
      var c, changed := Stamp(read.value, now);
      OwnsWithin(store.visible, read.value, c);
      StampedKeeps(ViewOf(read.value), now);
      if changed {
        var saved := Save(c, start, from, taken);
        if saved.Err? {
          return saved;
        }
        c := saved.value;
      }
      WebMigratedKeepsIfSome(ViewOf(c), legacy, now);
      r := MigrateWebConnections(c, now, start, from, taken);
      if r.Ok? {
        SingleActiveKeeps(ViewOf(r.value));
        r := MigrateWebSingleActive(r.value, start, from, taken);
      }
    }

    method PutPluginConnection(givenID: string, conn: Public, secret: Secrets, expected: Option<int>, now: int)
      returns (r: Option<Failure>)
      requires Sound(|store.trace|)
      modifies this`webTools, store
      ensures Sound(|old(store.trace)|)
      ensures Outcome(old(Stored()), old(Legacy()), now, base => Put(base, givenID, conn, secret, expected, now), Stored(), r)
      ensures Smooth(old(store.steps), old(store.records)) && Settled(old(Stored()), old(Legacy()), now) ==> r.None? || r.value.Refused?
    {
      hide Good, Keeps, Migrated, Trim, CurrentPluginID, Owns, OwnsEach, RefsWithin, Quiet, OnlyNamed;
      ghost var start := |store.trace|;
      var id, plugin := Trim(givenID), CurrentPluginID(conn.pluginID);
      if id == "" || ContainsAny(id, "/ ") || plugin == "" {
        return Some(Refused(NotFound));
      }
      assert Counted(store.steps, store.records) by { NothingNamed(store.names, store.steps, store.records); }
      var loaded := Load(now, start, store.steps, store.records);
      if loaded.Err? {
        return Some(loaded.error);
      }
      var c := loaded.value;
      var present := id in c.entries;
      if expected.Some? && expected.value != (if present then c.entries[id].pub.updatedAt else 0) {
        return Some(Refused(InvalidSetting));
      }
      if present && Rebinds(c.entries[id].pub, conn.(pluginID := plugin)) {
        var bound := FindBound(c.rest.bindings, id);
        if bound {
          return Some(Refused(InvalidSetting));
        }
      }
      var pub := conn.(
        pluginID := plugin,
        name := if Trim(conn.name) == "" then id else conn.name,
        createdAt := if present && c.entries[id].pub.createdAt != 0 then c.entries[id].pub.createdAt else now,
        updatedAt := now);
      // the reference belongs to the stored connection, never to what the caller passes
      var e := Entry(pub, secret, if present then c.entries[id].ref else "");
      ViewPut(c, id, e);
      RefsPut(c, id, e);
      OwnsWithin(store.visible, c, c.(entries := c.entries[id := e]));
      PutKeeps(ViewOf(c), givenID, conn, secret, expected, now);
      r := Conclude(c.(entries := c.entries[id := e]), start, old(store.steps), old(store.records));
    }

    /** The write an operation ends with. */
    method Conclude(c: Loaded, ghost start: nat, ghost from: nat, ghost taken: Records) returns (r: Option<Failure>)
      requires Counted(from, taken)
      requires Sound(start) && Good(ViewOf(c)) && OwnsEach(store.visible, c)
      modifies store
      ensures Sound(start)
      ensures r.None? ==> Stored() == Some(ViewOf(c))
      ensures r.Some? ==> !r.value.Refused?
      ensures Smooth(from, taken) ==> r.None?
    {
      var saved := Save(c, start, from, taken);
      r := if saved.Ok? then None else Some(saved.error);
    }

    method DeletePluginConnection(givenID: string, now: int) returns (r: Option<Failure>)
      requires Sound(|store.trace|)
      modifies this`webTools, store
      ensures Sound(|old(store.trace)|)
      ensures Outcome(old(Stored()), old(Legacy()), now, base => Delete(base, givenID), Stored(), r)
      ensures Smooth(old(store.steps), old(store.records)) && Settled(old(Stored()), old(Legacy()), now) ==> r.None? || r.value.Refused?
    {
      hide Good, Keeps, Migrated, Trim, Cleared, Owns, OwnsEach, RefsWithin, Quiet, OnlyNamed;
      ghost var start := |store.trace|;
      assert Counted(store.steps, store.records) by { NothingNamed(store.names, store.steps, store.records); }
      var loaded := Load(now, start, store.steps, store.records);
      if loaded.Err? {
        return Some(loaded.error);
      }
      var c, id := loaded.value, Trim(givenID);
      if id !in c.entries {
        return Some(Refused(NotFound));
      }
      var bindings := ClearBindings(c.rest.bindings, id);
      ViewRemove(c, id);
      RemovedKeeps(ViewOf(c), id);
      RefsFewer(c, c.(entries := c.entries - {id}, rest := c.rest.(bindings := bindings)));
      OwnsWithin(store.visible, c, c.(entries := c.entries - {id}, rest := c.rest.(bindings := bindings)));
      r := Conclude(c.(entries := c.entries - {id}, rest := c.rest.(bindings := bindings)), start, old(store.steps), old(store.records));
    }

    method PatchPluginConnectionBindings(givenPlugin: string, update: map<string, string>, now: int) returns (r: Option<Failure>)
      requires Sound(|store.trace|)
      modifies this`webTools, store
      ensures Sound(|old(store.trace)|)
      ensures Outcome(old(Stored()), old(Legacy()), now, base => PatchBindings(base, givenPlugin, update), Stored(), r)
      ensures Smooth(old(store.steps), old(store.records)) && Settled(old(Stored()), old(Legacy()), now) ==> r.None? || r.value.Refused?
    {
      hide Good, Keeps, Migrated, CurrentPluginID, Rebound, OneWebPurpose, Owns, OwnsEach, RefsWithin, Quiet, OnlyNamed;
      ghost var start := |store.trace|;
      assert Counted(store.steps, store.records) by { NothingNamed(store.names, store.steps, store.records); }
      var loaded := Load(now, start, store.steps, store.records);
      if loaded.Err? {
        return Some(loaded.error);
      }
      var c, plugin, applied := loaded.value, CurrentPluginID(givenPlugin), update;
      ghost var base := ViewOf(c);
      if plugin == WEB {
        var one := NormalizeWebBindingUpdate(update);
        if one.None? {
          return Some(Refused(InvalidSetting));
        }
        applied := one.value;
        c := c.(rest := c.rest.(legacyWeb := map[]));
      }
      var rebound := Rebind(c, plugin, applied);
      if rebound.Err? {
        return Some(Refused(rebound.error));
      }
      PatchBindingsKeeps(base, givenPlugin, update);
      RefsFewer(loaded.value, rebound.value);
      OwnsWithin(store.visible, loaded.value, rebound.value);
      r := Conclude(rebound.value, start, old(store.steps), old(store.records));
    }

    method PatchWebTools(upd: WebUpdate, now: int) returns (r: Option<Failure>, ghost order: seq<string>)
      requires Sound(|store.trace|)
      modifies this`webTools, store
      ensures Sound(|old(store.trace)|)
      ensures forall name :: name in order ==> name in upd.providers
      ensures r.None? ==> |order| == |upd.providers| && forall name :: name in upd.providers ==> name in order
      ensures Outcome(old(Stored()), old(Legacy()), now, base => OrderedPatch(base, upd, order, now), Stored(), r)
      ensures Smooth(old(store.steps), old(store.records)) && Settled(old(Stored()), old(Legacy()), now) ==> r.None? || r.value.Refused?
    {
      hide Good, Keeps, Migrated, WebUpdateOk, NormalizeWebProvider, KeyPatched, Chosen, Owns, OwnsEach, RefsWithin, Quiet, OnlyNamed;
      ghost var start := |store.trace|;
      order := [];
      assert Counted(store.steps, store.records) by { NothingNamed(store.names, store.steps, store.records); }
      var loaded := Load(now, start, store.steps, store.records);
      if loaded.Err? {
        return Some(loaded.error), order;
      }
      if !WebUpdateOk(upd) {
        return Some(Refused(InvalidSetting)), order;
      }
      var c, left := loaded.value, upd.providers.Keys;
      ghost var base := ViewOf(c);
      while left != {}
        invariant left <= upd.providers.Keys
        invariant |order| + |left| == |upd.providers.Keys|
        invariant forall name :: name in order <==> name in upd.providers && name !in left
        invariant ViewOf(c) == KeysPatched(base, upd, order, now)
        invariant Sound(start) && Stored() == Some(base)
        invariant OwnsEach(store.visible, c) && Counted(old(store.steps), old(store.records))
        decreases |left|
      {
        var name :| name in left;
        left := left - {name};
        ProviderNamed(upd, name);
        KeysPatchedMore(base, upd, order, name, now);
        var patched := PatchKey(c, name, upd.providers[name], now);
        OwnsWithin(store.visible, c, patched);
        c := patched;
        order := order + [name];
      }
      var chosen := Choose(c, upd, now);
      OwnsWithin(store.visible, c, chosen);
      c := chosen;
      PatchWebKeeps(base, upd, order, now);
      r := Conclude(c, start, old(store.steps), old(store.records));
    }
  }
}
