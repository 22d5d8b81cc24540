/** Provider profiles: the second kind of file kept by the commit protocol, with the API key
    as the only secret. */
module ProviderProfiles {

  import opened Results
  import opened Text
  import opened ConfigStore

  /** What a profile shows in the file; `details` stands for everything but its names. */
  datatype Public = Public(displayName: string, details: string)

  type Profiles = View<Public, string, ()>
  type Loaded = Config<Public, string, ()>

  /** A record without a key is no record of a profile's credentials. */
  function NonEmpty(key: Option<string>): Option<string> {
    if key == Some("") then None else key
  }

  function ProfileKind(marshal: string -> string, unmarshal: string -> Option<string>): Kind<string, ()> {
    Kind("", marshal, data => NonEmpty(unmarshal(data)), None)
  }

  /** Keys can be read back as long as their encoding can. */
  lemma ProfileKindIsFaithful(marshal: string -> string, unmarshal: string -> Option<string>)
    requires forall key :: unmarshal(marshal(key)) == Some(key)
    ensures Faithful(ProfileKind(marshal, unmarshal))
  {
    var k := ProfileKind(marshal, unmarshal);
    forall key | key != k.none ensures k.parse(k.encode(key)) == Some(key) {
      assert unmarshal(marshal(key)) == Some(key);
    }
  }

  /** The id a profile is stored under. */
  function ProfileID(givenID: string, p: Public): string {
    Trim(if givenID != "" then givenID else p.displayName)
  }

  function Put(v: Profiles, givenID: string, p: Public, key: string): Option<Profiles> {
    var id := ProfileID(givenID, p);
    if id == "" then None else Some(v.(entries := v.entries[id := Item(p, key)]))
  }

  function Delete(v: Profiles, id: string): Option<Profiles> {
    if id in v.entries then Some(v.(entries := v.entries - {id})) else None
  }

  /** A profile is stored as given, under the id given for it, or else under its name, without
      blanks around it; one with neither is refused.  No other profile is touched. */
  lemma PutStoresAsGiven(v: Profiles, givenID: string, p: Public, key: string)
    ensures var id := if givenID == "" then Trim(p.displayName) else Trim(givenID);
            && (Put(v, givenID, p, key).Some? <==> id != "")
            && (id != "" ==>
                  var after := Put(v, givenID, p, key).value;
                  id in after.entries && after.entries[id].pub == p && after.entries[id].secret == key
                  && after.entries - {id} == v.entries - {id})
  {
    hide Trim;
  }

  /** The profiles after an operation, or the same ones when it is refused. */
  function Otherwise(after: Option<Profiles>, before: Profiles): Profiles {
    if after.Some? then after.value else before
  }

  lemma ViewWith(c: Loaded, id: string, e: Entry<Public, string>)
    ensures ViewOf(c.(entries := c.entries[id := e])) == ViewOf(c).(entries := ViewOf(c).entries[id := Item(e.pub, e.secret)])
  {
    assert ViewOf(c.(entries := c.entries[id := e])).entries == ViewOf(c).entries[id := Item(e.pub, e.secret)];
  }

  lemma ViewWithout(c: Loaded, id: string)
    ensures ViewOf(c.(entries := c.entries - {id})) == ViewOf(c).(entries := ViewOf(c).entries - {id})
    ensures id in c.entries <==> id in ViewOf(c).entries
  {
    assert ViewOf(c.(entries := c.entries - {id})).entries == ViewOf(c).entries - {id};
  }

  class ProfileManager {
    const store: Store<Public, string, ()>

    /** The manager over what is on the disk, with an encoding that can be read back. */
    constructor (marshal: string -> string, unmarshal: string -> Option<string>,
                 file: Option<File<Public, string, ()>>, records: Records, faults: nat -> bool, names: nat -> string)
      requires (forall key :: unmarshal(marshal(key)) == Some(key)) && "" !in records
      ensures fresh(store) && store.kind == ProfileKind(marshal, unmarshal)
      ensures store.Valid() && store.Now() == Disk(file, true, file, records, records)
      ensures var c := Decode(store.kind, file, records); c.Some? ==> Holds(ViewOf(c.value), Only(ViewOf(c.value)))
    {
      ProfileKindIsFaithful(marshal, unmarshal);
      store := new Store(ProfileKind(marshal, unmarshal), file, records, faults, names);
    }

    /** A reader finds these profiles now, and after a crash some that have the property. */
    ghost predicate Holds(now: Profiles, ok: Profiles -> bool)
      reads this, store
    {
      store.Valid() && Stands(store.kind, store.Now(), now, ok)
    }

    /** Adds or replaces a profile, also after writes that failed.  Wherever it stops, a crash
        leaves what it could have left before or the whole new set; a reader finds the whole
        old or the whole new set; and a put that reports success leaves only the new one,
        without plain text.  When nothing goes wrong it succeeds if the profile has an id. */
    method PutProviderProfile(givenID: string, p: Public, key: string, ghost now: Profiles, ghost ok: Profiles -> bool)
      returns (done: bool)
      requires Holds(now, ok)
      modifies store
      ensures var after := Otherwise(Put(now, givenID, p, key), now);
              && (forall i :: |old(store.trace)| <= i < |store.trace| ==> Keeps(store.kind, store.trace[i], Or(ok, after)))
              && (Holds(now, Or(ok, after)) || Holds(after, Or(ok, after)))
              && (done ==> Put(now, givenID, p, key).Some? && Holds(after, Only(after)))
      ensures done ==> store.visible.Some? && !HasPlaintext(store.kind, store.visible.value)
      ensures store.QuietSince(old(store.steps), old(store.records)) ==> (done <==> Put(now, givenID, p, key).Some?)
    {
      hide ProfileID, Decode, HasPlaintext, Refers, RefOf, Quiet, OnlyNamed, ViewOf, Keeps;
      ghost var after := Otherwise(Put(now, givenID, p, key), now);
      KeepsMore(store.kind, store.Now(), ok, after);
      var id := ProfileID(givenID, p);
      if id == "" {
        return false;
      }
      ghost var start := |store.trace|;
      var read := store.Read(Or(ok, after), start);
      if read.Err? {
        return false;
      }
      var c := read.value;
      var e := Entry(p, key, if id in c.entries then c.entries[id].ref else "");
      ViewWith(c, id, e);
      ReadOwns(store.kind, store.visible, store.records, c);
      ghost var at, mid := store.steps, store.records;
      EachIsOwned(store.visible, c.(entries := c.entries[id := e]));
      var written := store.Write(c.(entries := c.entries[id := e]), Or(ok, after), start);
      if store.QuietSince(old(store.steps), old(store.records)) {
        QuietThen(store.faults, store.names, old(store.steps), at, store.steps, old(store.records), mid);
      }
      done := written.Ok?;
      if done {
        KeptIsFlushed(store.kind, store.Now(), Or(ok, after));
        WrittenStands(store.kind, store.Now(), written.value);
      }
    }

    /** Removes a profile, in the same way. */
    method DeleteProviderProfile(id: string, ghost now: Profiles, ghost ok: Profiles -> bool) returns (done: bool)
      requires Holds(now, ok)
      modifies store
      ensures var after := Otherwise(Delete(now, id), now);
              && (forall i :: |old(store.trace)| <= i < |store.trace| ==> Keeps(store.kind, store.trace[i], Or(ok, after)))
              && (Holds(now, Or(ok, after)) || Holds(after, Or(ok, after)))
              && (done ==> Delete(now, id).Some? && Holds(after, Only(after)))
      ensures store.QuietSince(old(store.steps), old(store.records)) ==> (done <==> Delete(now, id).Some?)
    {
      hide Decode, HasPlaintext, Refers, RefOf, Quiet, OnlyNamed, ViewOf, Keeps;
      ghost var after := Otherwise(Delete(now, id), now);
      KeepsMore(store.kind, store.Now(), ok, after);
      ghost var start := |store.trace|;
      var read := store.Read(Or(ok, after), start);
      if read.Err? {
        return false;
      }
      var c := read.value;
      ViewWithout(c, id);
      if id !in c.entries {
        return false;
      }
      ReadOwns(store.kind, store.visible, store.records, c);
      ghost var at, mid := store.steps, store.records;
      EachIsOwned(store.visible, c.(entries := c.entries - {id}));
      var written := store.Write(c.(entries := c.entries - {id}), Or(ok, after), start);
      if store.QuietSince(old(store.steps), old(store.records)) {
        QuietThen(store.faults, store.names, old(store.steps), at, store.steps, old(store.records), mid);
      }
      done := written.Ok?;
      if done {
        KeptIsFlushed(store.kind, store.Now(), Or(ok, after));
        WrittenStands(store.kind, store.Now(), written.value);
      }
    }
  }
}
