/** The commit protocol of the encrypted configuration files.

    A file lists entries, each with public fields, secrets in plain text (only in files
    written before encryption) and a reference to an immutable record of its secrets.  A
    write adds new records, replaces the file atomically, and then removes records nothing
    refers to.  Plugin connections and provider profiles are two instances: `P` is what an
    entry shows in the file, `S` its secrets and `R` whatever else the file holds. */
module ConfigStore {

  import opened Results

  datatype Entry<+P, +S> = Entry(pub: P, secret: S, ref: string)

  datatype File<+P, +S, +R> = File(version: nat, entries: map<string, Option<Entry<P, S>>>, rest: R)

  datatype Config<+P, +S, +R> = Config(entries: map<string, Entry<P, S>>, rest: R)

  datatype Record = Sealed(owner: string, data: string) | Damaged

  type Records = map<string, Record>

  /** What programs see and what a crash leaves.  `visible` is the file programs read, and
      `flushed` tells that its bytes are on the medium; `durable` is the file the directory
      has for sure.  `records` are the records programs read, and `kept` those among them
      that survive a crash for sure. */
  datatype Disk<+P, +S, +R> = Disk(
    visible: Option<File<P, S, R>>,
    flushed: bool,
    durable: Option<File<P, S, R>>,
    records: Records,
    kept: Records)

  datatype Fault = NoFile | Unsupported | NullEntry | Mixed | Unavailable | Garbled | Interrupted

  /** How one kind of file works: the value that means "no secrets", how secrets are put in
      a record and read back, and what a missing file means, if that is no error. */
  datatype Kind<!S, +R> = Kind(none: S, encode: S -> string, parse: string -> Option<S>, missing: Option<R>)

  ghost predicate Faithful<S(!new), R>(k: Kind<S, R>) {
    forall s :: s != k.none ==> k.parse(k.encode(s)) == Some(s)
  }

  // ----- reading

  /** Reading a record: it must be there, undamaged, and belong to the entry. */
  function RecordOf(records: Records, ref: string, owner: string): Result<string, Fault> {
    if ref in records && records[ref].Sealed? && records[ref].owner == owner then Ok(records[ref].data) else Err(Unavailable)
  }

  /** An entry with its secrets, from the file or from its record. */
  function OpenEntry<P, S(==), R>(k: Kind<S, R>, records: Records, id: string, e: Option<Entry<P, S>>): Result<Entry<P, S>, Fault> {
    if e.None? then Err(NullEntry)
    else if e.value.ref == "" then Ok(e.value)
    else if e.value.secret != k.none then Err(Mixed)
    else match RecordOf(records, e.value.ref, id)
      case Err(fault) => Err(fault)
      case Ok(data) =>
        match k.parse(data)
        case None => Err(Garbled)
        case Some(s) => Ok(e.value.(secret := s))
  }

  predicate Opens<P, S(==), R>(k: Kind<S, R>, records: Records, f: File<P, S, R>, id: string)
    requires id in f.entries
  {
    OpenEntry(k, records, id, f.entries[id]).Ok?
  }

  /** What a file means together with the records: all of it, or nothing. */
  function Decode<P, S(==), R>(k: Kind<S, R>, f: Option<File<P, S, R>>, records: Records): Option<Config<P, S, R>> {
    if f.None? then
      if k.missing.Some? then Some(Config(map[], k.missing.value)) else None
    else if f.value.version <= 2 && forall id :: id in f.value.entries ==> Opens(k, records, f.value, id) then
      Some(Config(map id | id in f.value.entries :: OpenEntry(k, records, id, f.value.entries[id]).value, f.value.rest))
    else None
  }

  /** An entry as it is read: without a reference it has what the file says; with one it has
      none of its secrets in the file, and those of a record that is sealed for this entry. */
  ghost predicate OpenedAs<P, S, R>(k: Kind<S, R>, records: Records, id: string, e: Option<Entry<P, S>>, c: Entry<P, S>) {
    && e.Some? && c.pub == e.value.pub && c.ref == e.value.ref
    && if c.ref == "" then c.secret == e.value.secret
       else && e.value.secret == k.none && c.ref in records
            && records[c.ref].Sealed? && records[c.ref].owner == id && k.parse(records[c.ref].data) == Some(c.secret)
  }

  /** A file is read as a configuration exactly when its version is known and every one of its
      entries can be read, and there are no others. */
  lemma DecodesExactly<P, S, R>(k: Kind<S, R>, f: File<P, S, R>, records: Records, c: Config<P, S, R>)
    ensures Decode(k, Some(f), records) == Some(c) <==>
            && f.version <= 2 && c.rest == f.rest && c.entries.Keys == f.entries.Keys
            && forall id :: id in f.entries ==> OpenedAs(k, records, id, f.entries[id], c.entries[id])
  {
    if f.version <= 2 && c.rest == f.rest && c.entries.Keys == f.entries.Keys
      && forall id :: id in f.entries ==> OpenedAs(k, records, id, f.entries[id], c.entries[id])
    {
      forall id | id in f.entries ensures OpenEntry(k, records, id, f.entries[id]) == Ok(c.entries[id]) {
        assert OpenedAs(k, records, id, f.entries[id], c.entries[id]);
      }
      hide OpenEntry, OpenedAs;
      forall id | id in f.entries ensures Opens(k, records, f, id) {}
      assert Decode(k, Some(f), records).value.entries == c.entries;
    }
  }

  /** A configuration as its users see it, without the references. */
  datatype View<+P, +S, +R> = View(entries: map<string, Item<P, S>>, rest: R)

  datatype Item<+P, +S> = Item(pub: P, secret: S)

  function ViewOf<P, S, R>(c: Config<P, S, R>): View<P, S, R> {
    View(map id | id in c.entries :: Item(c.entries[id].pub, c.entries[id].secret), c.rest)
  }

  /** The file decodes to exactly this. */
  predicate Shows<P(==), S(==), R(==)>(k: Kind<S, R>, f: Option<File<P, S, R>>, records: Records, v: View<P, S, R>) {
    var c := Decode(k, f, records);
    c.Some? && ViewOf(c.value) == v
  }

  /** What programs read has a property, and so has either file a crash may leave, with no
      more records than survive for sure. */
  ghost predicate Keeps<P, S, R>(k: Kind<S, R>, d: Disk<P, S, R>, ok: View<P, S, R> -> bool) {
    d.flushed && Meets(k, d.visible, d.records, ok) && Meets(k, d.visible, d.kept, ok) && Meets(k, d.durable, d.kept, ok)
  }

  ghost predicate Meets<P, S, R>(k: Kind<S, R>, f: Option<File<P, S, R>>, records: Records, ok: View<P, S, R> -> bool) {
    var c := Decode(k, f, records);
    c.Some? && ok(ViewOf(c.value))
  }

  /** What programs read is `now`, and whatever a crash may leave has the property. */
  ghost predicate Stands<P, S, R>(k: Kind<S, R>, d: Disk<P, S, R>, now: View<P, S, R>, ok: View<P, S, R> -> bool) {
    Shows(k, d.visible, d.records, now) && Keeps(k, d, ok)
  }

  ghost function Or<P, S, R>(ok: View<P, S, R> -> bool, v: View<P, S, R>): View<P, S, R> -> bool {
    x => ok(x) || x == v
  }

  ghost function Only<P, S, R>(v: View<P, S, R>): View<P, S, R> -> bool {
    x => x == v
  }

  lemma KeepsMore<P, S, R>(k: Kind<S, R>, d: Disk<P, S, R>, ok: View<P, S, R> -> bool, v: View<P, S, R>)
    requires Keeps(k, d, ok)
    ensures Keeps(k, d, Or(ok, v))
  {
    hide Decode;
  }

  /** A file that is seen, durable, and means the same with all records and with those sure
      to be there is all a crash can leave. */
  lemma WrittenStands<P, S, R>(k: Kind<S, R>, d: Disk<P, S, R>, c: Config<P, S, R>)
    requires d.flushed && d.visible == d.durable
    requires Decode(k, d.visible, d.records) == Some(c) && Decode(k, d.durable, d.kept) == Some(c)
    ensures Stands(k, d, ViewOf(c), Only(ViewOf(c)))
  {
    hide Decode;
  }

  predicate HasPlaintext<P, S(==), R>(k: Kind<S, R>, f: File<P, S, R>) {
    exists id :: id in f.entries && f.entries[id].Some? && f.entries[id].value.secret != k.none
  }

  /** Why a file cannot be read. */
  ghost predicate Faulty<P, S, R>(k: Kind<S, R>, f: Option<File<P, S, R>>, records: Records, fault: Fault) {
    || (f.None? && fault == NoFile)
    || (f.Some? && f.value.version > 2 && fault == Unsupported)
    || (f.Some? && exists id :: id in f.value.entries && OpenEntry(k, records, id, f.value.entries[id]) == Err(fault))
  }

  /** Reading in progress: the entries read so far, and whether one had plain text. */
  ghost predicate Reading<P, S, R>(k: Kind<S, R>, records: Records, f: File<P, S, R>, left: set<string>,
                                   entries: map<string, Entry<P, S>>, legacy: bool) {
    && left <= f.entries.Keys && entries.Keys == f.entries.Keys - left
    && (forall id :: id in entries ==> OpenEntry(k, records, id, f.entries[id]) == Ok(entries[id]))
    && (legacy <==> exists id :: id in entries && f.entries[id].Some? && f.entries[id].value.secret != k.none)
  }

  lemma ReadingStarts<P, S, R>(k: Kind<S, R>, records: Records, f: File<P, S, R>)
    ensures Reading(k, records, f, f.entries.Keys, map[], false)
  {
  }

  lemma ReadingMore<P, S, R>(k: Kind<S, R>, records: Records, f: File<P, S, R>, left: set<string>,
                             entries: map<string, Entry<P, S>>, legacy: bool, id: string, e: Entry<P, S>)
    requires Reading(k, records, f, left, entries, legacy) && id in left
    requires OpenEntry(k, records, id, f.entries[id]) == Ok(e)
    ensures f.entries[id].Some?
    ensures Reading(k, records, f, left - {id}, entries[id := e], legacy || f.entries[id].value.secret != k.none)
  {
    var more := entries[id := e];
    if legacy {
      var x :| x in entries && f.entries[x].Some? && f.entries[x].value.secret != k.none;
      assert x in more;
    }
    assert id in more;
  }

  lemma ReadingDone<P, S, R>(k: Kind<S, R>, records: Records, f: File<P, S, R>, entries: map<string, Entry<P, S>>, legacy: bool)
    requires Reading(k, records, f, {}, entries, legacy) && f.version <= 2
    ensures Decode(k, Some(f), records) == Some(Config(entries, f.rest)) && legacy == HasPlaintext(k, f)
  {
    forall id | id in f.entries ensures Opens(k, records, f, id) {}
    assert Decode(k, Some(f), records).value.entries == entries;
  }

  lemma MissingMeans<P, S, R>(k: Kind<S, R>, file: Option<File<P, S, R>>, records: Records)
    requires file.None?
    ensures Decode(k, file, records) == if k.missing.Some? then Some(Config(map[], k.missing.value)) else None
  {
  }

  lemma NewerMeans<P, S, R>(k: Kind<S, R>, f: File<P, S, R>, records: Records)
    ensures f.version > 2 ==> Decode(k, Some(f), records).None?
  {
  }

  lemma KeptDecodes<P, S, R>(k: Kind<S, R>, d: Disk<P, S, R>, ok: View<P, S, R> -> bool)
    requires Keeps(k, d, ok)
    ensures Decode(k, d.visible, d.records).Some?
  {
  }

  lemma KeptIsFlushed<P, S, R>(k: Kind<S, R>, d: Disk<P, S, R>, ok: View<P, S, R> -> bool)
    requires Keeps(k, d, ok)
    ensures d.flushed
  {
  }

  lemma KeptView<P, S, R>(k: Kind<S, R>, d: Disk<P, S, R>, c: Config<P, S, R>, ok: View<P, S, R> -> bool)
    requires Keeps(k, d, ok) && Decode(k, d.visible, d.records) == Some(c)
    ensures ok(ViewOf(c))
  {
  }

  lemma ReadingStopped<P, S, R>(k: Kind<S, R>, records: Records, f: File<P, S, R>, id: string)
    requires id in f.entries && OpenEntry(k, records, id, f.entries[id]).Err?
    ensures Decode(k, Some(f), records).None?
    ensures Faulty(k, Some(f), records, OpenEntry(k, records, id, f.entries[id]).error)
  {
    assert !Opens(k, records, f, id);
  }

  // ----- writing

  /** How an entry has to stand in a new file: without its secrets, and with a reference to
      its own record exactly when it has some. */
  ghost predicate SealedAs<P, S, R>(k: Kind<S, R>, records: Records, id: string, e: Entry<P, S>, out: Option<Entry<P, S>>) {
    && out.Some? && out.value.pub == e.pub && out.value.secret == k.none
    && (if e.secret == k.none then out.value.ref == ""
        else out.value.ref in records && records[out.value.ref] == Sealed(id, k.encode(e.secret)))
  }

  /** A new file for a configuration. */
  ghost predicate Encodes<P, S, R>(k: Kind<S, R>, records: Records, c: Config<P, S, R>, f: File<P, S, R>) {
    && f.version == 2 && f.rest == c.rest && f.entries.Keys == c.entries.Keys
    && forall id :: id in c.entries ==> SealedAs(k, records, id, c.entries[id], f.entries[id])
  }

  /** The configuration in memory once its references are those of the new file. */
  function Refreshed<P, S, R>(c: Config<P, S, R>, out: map<string, Option<Entry<P, S>>>): Config<P, S, R>
    requires forall id :: id in c.entries ==> id in out && out[id].Some?
  {
    c.(entries := map id | id in c.entries :: c.entries[id].(ref := out[id].value.ref))
  }

  /** A new file means the configuration it was written for. */
  lemma EncodedIsRead<P, S(!new), R>(k: Kind<S, R>, records: Records, c: Config<P, S, R>, f: File<P, S, R>)
    requires Faithful(k) && "" !in records && Encodes(k, records, c, f)
    ensures (forall id :: id in c.entries ==> f.entries[id].Some?)
            && Decode(k, Some(f), records) == Some(Refreshed(c, f.entries)) && ViewOf(Refreshed(c, f.entries)) == ViewOf(c)
    ensures !HasPlaintext(k, f)
  {
    forall id | id in f.entries
      ensures f.entries[id].Some? && f.entries[id].value.secret == k.none
      ensures OpenEntry(k, records, id, f.entries[id]) == Ok(c.entries[id].(ref := f.entries[id].value.ref))
    {
      assert SealedAs(k, records, id, c.entries[id], f.entries[id]);
    }
    hide OpenEntry, SealedAs;
    forall id | id in f.entries ensures Opens(k, records, f, id) {}
    assert Decode(k, Some(f), records).value.entries == Refreshed(c, f.entries).entries;
    assert ViewOf(Refreshed(c, f.entries)).entries == ViewOf(c).entries;
  }

  /** Records that a file refers to, all of which stay when others come or go. */
  predicate Refers<P, S, R>(f: Option<File<P, S, R>>, ref: string) {
    ref != "" && f.Some? && exists id :: id in f.value.entries && f.value.entries[id].Some? && f.value.entries[id].value.ref == ref
  }

  /** Only the records a file refers to matter to what it means. */
  lemma SameRecordsSameMeaning<P, S, R>(k: Kind<S, R>, f: Option<File<P, S, R>>, before: Records, after: Records)
    requires Decode(k, f, before).Some?
    requires forall ref :: ref in before && Refers(f, ref) ==> ref in after && after[ref] == before[ref]
    ensures Decode(k, f, after) == Decode(k, f, before)
  {
    if f.Some? {
      forall id | id in f.value.entries
        ensures OpenEntry(k, after, id, f.value.entries[id]) == OpenEntry(k, before, id, f.value.entries[id])
      {
        assert Opens(k, before, f.value, id);
        var e := f.value.entries[id].value;
        assert e.ref != "" ==> Refers(f, e.ref);
      }
      forall id | id in f.value.entries ensures Opens(k, after, f.value, id) {
        assert Opens(k, before, f.value, id);
      }
      if f.value.version <= 2 {
        assert Decode(k, f, after).value.entries == Decode(k, f, before).value.entries;
      }
    }
  }

  // ----- what a step of a write does to what the files mean

  /** Records come and go without a change of meaning as long as those referred to stay. */
  lemma RecordsMove<P, S, R>(k: Kind<S, R>, d: Disk<P, S, R>, records: Records, kept: Records, ok: View<P, S, R> -> bool)
    requires Keeps(k, d, ok)
    requires forall ref :: Refers(d.visible, ref) || Refers(d.durable, ref) ==>
      && (ref in d.records ==> ref in records && records[ref] == d.records[ref])
      && (ref in d.kept ==> ref in kept && kept[ref] == d.kept[ref])
    ensures Keeps(k, d.(records := records, kept := kept), ok)
  {
    hide Decode, Refers;
    SameRecordsSameMeaning(k, d.visible, d.records, records);
    SameRecordsSameMeaning(k, d.visible, d.kept, kept);
    SameRecordsSameMeaning(k, d.durable, d.kept, kept);
  }

  /** A record under an unused name changes no meaning, whatever is in it. */
  lemma NewRecordKeeps<P, S, R>(k: Kind<S, R>, d: Disk<P, S, R>, ref: string, r: Record, ok: View<P, S, R> -> bool)
    requires Keeps(k, d, ok) && ref !in d.records
    ensures Keeps(k, d.(records := d.records[ref := r]), ok)
  {
    hide Keeps;
    RecordsMove(k, d, d.records[ref := r], d.kept, ok);
  }

  /** Nor does its reaching the medium. */
  lemma KeptRecordKeeps<P, S, R>(k: Kind<S, R>, d: Disk<P, S, R>, ref: string, r: Record, ok: View<P, S, R> -> bool)
    requires Keeps(k, d, ok) && ref !in d.kept
    ensures Keeps(k, d.(kept := d.kept[ref := r]), ok)
  {
    hide Keeps;
    RecordsMove(k, d, d.records, d.kept[ref := r], ok);
  }

  /** A file that is flushed and has the property can be seen before it is durable. */
  lemma SeenKeeps<P, S, R>(k: Kind<S, R>, d: Disk<P, S, R>, f: File<P, S, R>, ok: View<P, S, R> -> bool)
    requires Keeps(k, d, ok) && Meets(k, Some(f), d.records, ok) && Meets(k, Some(f), d.kept, ok)
    ensures Keeps(k, d.(visible := Some(f), flushed := true), ok)
    ensures Keeps(k, d.(visible := Some(f), flushed := true, durable := Some(f)), ok)
  {
    hide Decode;
  }

  /** So does the disappearance of a record no file refers to. */
  lemma LostRecordKeeps<P, S, R>(k: Kind<S, R>, d: Disk<P, S, R>, ref: string, ok: View<P, S, R> -> bool)
    requires Keeps(k, d, ok) && !Refers(d.visible, ref) && !Refers(d.durable, ref)
    ensures Keeps(k, d.(records := d.records - {ref}, kept := d.kept - {ref}), ok)
  {
    hide Keeps;
    RecordsMove(k, d, d.records - {ref}, d.kept - {ref}, ok);
  }

  // ----- where references come from

  /** The references of a configuration are those of a file, or none. */
  ghost predicate Owns<P, S, R>(f: Option<File<P, S, R>>, c: Config<P, S, R>) {
    forall id :: id in c.entries && c.entries[id].ref != "" ==> Refers(f, c.entries[id].ref)
  }

  /** The reference of an entry in a file, "" if it has none. */
  function RefOf<P, S, R>(f: Option<File<P, S, R>>, id: string): string {
    if f.Some? && id in f.value.entries && f.value.entries[id].Some? then f.value.entries[id].value.ref else ""
  }

  /** Each entry has the reference that it has in the file, or none. */
  ghost predicate OwnsEach<P, S, R>(f: Option<File<P, S, R>>, c: Config<P, S, R>) {
    forall id :: id in c.entries && c.entries[id].ref != "" ==> c.entries[id].ref == RefOf(f, id)
  }

  /** No reference is new. */
  ghost predicate RefsWithin<P, S, R>(after: Config<P, S, R>, before: Config<P, S, R>) {
    forall id :: id in after.entries && after.entries[id].ref != "" ==>
      id in before.entries && before.entries[id].ref == after.entries[id].ref
  }

  lemma OwnsWithin<P, S, R>(f: Option<File<P, S, R>>, before: Config<P, S, R>, after: Config<P, S, R>)
    requires OwnsEach(f, before) && RefsWithin(after, before)
    ensures OwnsEach(f, after)
  {
    hide RefOf;
  }

  lemma EachIsOwned<P, S, R>(f: Option<File<P, S, R>>, c: Config<P, S, R>)
    requires OwnsEach(f, c)
    ensures Owns(f, c)
  {
  }

  /** What was read from a file has the references of the file. */
  lemma ReadOwns<P, S, R>(k: Kind<S, R>, f: Option<File<P, S, R>>, records: Records, c: Config<P, S, R>)
    requires Decode(k, f, records) == Some(c)
    ensures OwnsEach(f, c) && Owns(f, c)
  {
    forall id | id in c.entries && c.entries[id].ref != "" ensures c.entries[id].ref == RefOf(f, id) {
      assert Opens(k, records, f.value, id);
    }
    EachIsOwned(f, c);
  }

  /** The record that an entry of a file that decodes refers to can be read. */
  lemma OwnRecordIsRead<P, S, R>(k: Kind<S, R>, f: Option<File<P, S, R>>, records: Records, id: string)
    requires Decode(k, f, records).Some? && RefOf(f, id) != ""
    ensures RecordOf(records, RefOf(f, id), id).Ok?
  {
    assert Opens(k, records, f.value, id);
  }

  // ----- what can go wrong

  /** No step in this range fails, and the names drawn in it are new and differ. */
  ghost predicate Quiet(faults: nat -> bool, names: nat -> string, from: nat, upto: nat, taken: Records) {
    && (forall n :: from <= n < upto ==> !faults(n) && names(n) != "" && names(n) !in taken)
    && (forall m, n :: from <= m < n < upto ==> names(m) != names(n))
  }

  /** The records that came in this range have names drawn in it. */
  ghost predicate OnlyNamed(names: nat -> string, from: nat, upto: nat, before: Records, after: Records) {
    forall ref :: ref in after ==> ref in before || exists n :: from <= n < upto && names(n) == ref
  }

  lemma NothingNamed(names: nat -> string, from: nat, records: Records)
    ensures OnlyNamed(names, from, from, records, records)
  {
  }

  lemma NamedTwice(names: nat -> string, a: nat, b: nat, c: nat, before: Records, mid: Records, after: Records)
    requires a <= b <= c && OnlyNamed(names, a, b, before, mid) && OnlyNamed(names, b, c, mid, after)
    ensures OnlyNamed(names, a, c, before, after)
  {
  }

  lemma QuietThen(faults: nat -> bool, names: nat -> string, a: nat, b: nat, c: nat, before: Records, mid: Records)
    requires a <= b <= c && OnlyNamed(names, a, b, before, mid) && Quiet(faults, names, a, c, before)
    ensures Quiet(faults, names, a, b, before) && Quiet(faults, names, b, c, mid)
  {
  }

  /** A file that decodes has the records it refers to. */
  lemma ReferredIsThere<P, S, R>(k: Kind<S, R>, f: Option<File<P, S, R>>, records: Records, ref: string)
    requires Decode(k, f, records).Some? && Refers(f, ref)
    ensures ref in records
  {
    var id :| id in f.value.entries && f.value.entries[id].Some? && f.value.entries[id].value.ref == ref;
    assert Opens(k, records, f.value, id);
  }

  /** A write in progress: the entries done so far stand in the new file, their records are
      there, and the records it may not lose are known. */
  ghost predicate Writing<P, S, R>(k: Kind<S, R>, records: Records, c: Config<P, S, R>, left: set<string>,
                                   out: map<string, Option<Entry<P, S>>>, live: set<string>) {
    && left <= c.entries.Keys && out.Keys == c.entries.Keys - left
    && (forall id :: id in out ==> SealedAs(k, records, id, c.entries[id], out[id]))
    && (forall id :: id in out ==> out[id].value.ref == "" || out[id].value.ref in live)
    && live <= records.Keys
  }

  /** A new record leaves the entries done so far as they stand. */
  lemma WritingKept<P, S, R>(k: Kind<S, R>, before: Records, after: Records, c: Config<P, S, R>, left: set<string>,
                             out: map<string, Option<Entry<P, S>>>, live: set<string>)
    requires Writing(k, before, c, left, out, live)
    requires forall ref :: ref in before ==> ref in after && after[ref] == before[ref]
    ensures Writing(k, after, c, left, out, live)
  {
    forall id | id in out ensures SealedAs(k, after, id, c.entries[id], out[id]) {
      assert SealedAs(k, before, id, c.entries[id], out[id]);
    }
  }

  lemma WritingMore<P, S, R>(k: Kind<S, R>, records: Records, c: Config<P, S, R>, left: set<string>,
                             out: map<string, Option<Entry<P, S>>>, live: set<string>, id: string, e: Entry<P, S>)
    requires Writing(k, records, c, left, out, live) && id in left
    requires SealedAs(k, records, id, c.entries[id], Some(e))
    ensures Writing(k, records, c, left - {id}, out[id := Some(e)], if e.ref == "" then live else live + {e.ref})
  {
  }

  /** When all entries are done the new file means the configuration, and refers to no
      record that may be lost. */
  lemma WritingDone<P, S(!new), R>(k: Kind<S, R>, records: Records, c: Config<P, S, R>,
                                   out: map<string, Option<Entry<P, S>>>, live: set<string>)
    requires Faithful(k) && "" !in records && Writing(k, records, c, {}, out, live)
    ensures (forall id :: id in c.entries ==> id in out && out[id].Some?)
            && Decode(k, Some(File(2, out, c.rest)), records) == Some(Refreshed(c, out)) && ViewOf(Refreshed(c, out)) == ViewOf(c)
    ensures !HasPlaintext(k, File(2, out, c.rest))
    ensures forall ref :: Refers(Some(File(2, out, c.rest)), ref) ==> ref in live && ref in records
  {
    EncodedIsRead(k, records, c, File(2, out, c.rest));
  }

  /** A crash leaves either file, the visible one whole only if its bytes had been flushed,
      and of the records those kept for sure, with any others there, damaged or gone: what
      is found still has the property. */
  lemma CrashImage<P, S, R>(k: Kind<S, R>, d: Disk<P, S, R>, image: Disk<P, S, R>, ok: View<P, S, R> -> bool)
    requires Keeps(k, d, ok)
    requires image.flushed && image.visible == image.durable && image.records == image.kept
    requires image.visible == d.durable || (d.flushed ==> image.visible == d.visible)
    requires forall ref :: ref in d.kept ==> ref in image.records && image.records[ref] == d.kept[ref]
    ensures Keeps(k, image, ok)
  {
    hide Decode, Refers;
    SameRecordsSameMeaning(k, image.visible, d.kept, image.records);
  }

  // ----- the code

  class Store<P(==), S(==, !new), R(==)> {
    const kind: Kind<S, R>
    var visible: Option<File<P, S, R>>
    ghost var flushed: bool
    ghost var durable: Option<File<P, S, R>>
    var records: Records
    ghost var kept: Records
    /** Which steps on the disk fail, and which names are drawn at random, step by step. */
    const faults: nat -> bool
    const names: nat -> string
    var steps: nat
    /** Every state the disk has been in, any of which a crash may strike. */
    ghost var trace: seq<Disk<P, S, R>>

    ghost predicate Valid()
      reads this
    {
      Faithful(kind) && "" !in records && forall ref :: ref in kept ==> ref in records && records[ref] == kept[ref]
    }

    ghost function Now(): Disk<P, S, R>
      reads this
    {
      Disk(visible, flushed, durable, records, kept)
    }

    /** Whatever happened since then, every state had the property. */
    ghost predicate KeptSince(start: nat, ok: View<P, S, R> -> bool)
      reads this
    {
      start <= |trace| && (forall i :: start <= i < |trace| ==> Keeps(kind, trace[i], ok)) && Keeps(kind, Now(), ok)
    }

    constructor (kind: Kind<S, R>, file: Option<File<P, S, R>>, records: Records, faults: nat -> bool, names: nat -> string)
      requires Faithful(kind) && "" !in records
      ensures Valid() && this.kind == kind && Now() == Disk(file, true, file, records, records) && trace == []
      ensures this.faults == faults && this.names == names && steps == 0
    {
      this.kind, this.faults, this.names, steps := kind, faults, names, 0;
      this.visible, this.flushed, this.durable, this.records, this.kept := file, true, file, records, records;
      trace := [];
    }

    /** One step on the disk, which can fail. */
    method Try() returns (done: bool)
      modifies this`steps
      ensures steps == old(steps) + 1 && done == !faults(old(steps))
    {
      done := !faults(steps);
      steps := steps + 1;
    }

    /** Nothing went wrong since then. */
    ghost predicate QuietSince(from: nat, taken: Records)
      reads this
    {
      from <= steps && Quiet(faults, names, from, steps, taken)
    }

    /** Makes the name of a record last: if its bytes were flushed, the record is kept. */
    method SyncRecord(ref: string, ghost bytes: bool, ghost ok: View<P, S, R> -> bool, ghost start: nat) returns (done: bool)
      requires Valid() && KeptSince(start, ok) && ref in records && ref !in kept
      modifies this`kept, this`trace, this`steps
      ensures Valid() && KeptSince(start, ok)
      ensures steps == old(steps) + 1 && done == !faults(old(steps))
      ensures kept == if done && bytes then old(kept)[ref := records[ref]] else old(kept)
    {
      hide Keeps;
      done := Try();
      if done {
        if bytes {
          KeptRecordKeeps(kind, Now(), ref, records[ref], ok);
          kept := kept[ref := records[ref]];
        }
        trace := trace + [Now()];
      }
    }

    /** Fills a new record and flushes its bytes; one that cannot be finished is removed, if
        that can be done. */
    method WriteBytes(ref: string, owner: string, data: string, ghost ok: View<P, S, R> -> bool, ghost start: nat)
      returns (done: bool, ghost bytes: bool)
      requires Valid() && KeptSince(start, ok) && ref != "" && ref !in records
      modifies this`records, this`trace, this`steps
      ensures Valid() && KeptSince(start, ok)
      ensures forall other :: other in old(records) ==> other in records && records[other] == old(records[other])
      ensures records.Keys <= old(records).Keys + {ref}
      ensures done ==> bytes && records == old(records)[ref := Sealed(owner, data)]
      ensures old(steps) < steps && (done <==> forall n :: old(steps) <= n < steps ==> !faults(n))
    {
      hide Keeps, Faithful;
      NewRecordKeeps(kind, Now(), ref, Damaged, ok);
      NewRecordKeeps(kind, Now(), ref, Sealed(owner, data), ok);
      ghost var before := records;
      Enter(ref, Damaged, ok, start);
      bytes := false;
      var synced := false;
      var written := Try();
      if written {
        assert before[ref := Damaged][ref := Sealed(owner, data)] == before[ref := Sealed(owner, data)];
        Enter(ref, Sealed(owner, data), ok, start);
        synced := Try();
        if synced {
          bytes := true;
        }
      }
      done := written && synced;
      if !done {
        assert records - {ref} == before;
        Discard(ref, before, ok, start);
      }
    }

    /** Puts something under the name of a record that is not sure to last yet. */
    method Enter(ref: string, r: Record, ghost ok: View<P, S, R> -> bool, ghost start: nat)
      requires Valid() && KeptSince(start, ok) && ref !in kept && ref != ""
      requires Keeps(kind, Now().(records := records[ref := r]), ok)
      modifies this`records, this`trace
      ensures Valid() && KeptSince(start, ok)
      ensures records == old(records)[ref := r]
    {
      hide Keeps;
      records := records[ref := r];
      trace := trace + [Now()];
    }

    /** Removes a record that could not be finished, if that can be done. */
    method Discard(ref: string, ghost before: Records, ghost ok: View<P, S, R> -> bool, ghost start: nat)
      requires Valid() && KeptSince(start, ok) && ref !in kept
      requires records - {ref} == before && Keeps(kind, Now().(records := before), ok)
      modifies this`records, this`trace, this`steps
      ensures Valid() && KeptSince(start, ok)
      ensures records == before || records == old(records)
      ensures steps == old(steps) + 1
    {
      hide Keeps;
      var removed := Try();
      if removed {
        records := records - {ref};
        trace := trace + [Now()];
      }
    }

    /** Seals secrets in a record of their own under a random name.  It fails rather than
        use a name twice, and can fail, or be cut off, at any point.  A record it reports
        survives a crash. */
    method WriteRecord(owner: string, data: string, ghost ok: View<P, S, R> -> bool, ghost start: nat)
      returns (r: Result<string, Fault>)
      requires Valid() && KeptSince(start, ok)
      modifies this`records, this`kept, this`trace, this`steps
      ensures Valid() && KeptSince(start, ok)
      ensures forall ref :: ref in old(records) ==> ref in records && records[ref] == old(records[ref])
      ensures forall ref :: ref in old(kept) ==> ref in kept && kept[ref] == old(kept[ref])
      ensures r.Ok? ==> r.value in kept && kept[r.value] == Sealed(owner, data)
      ensures old(steps) <= steps && OnlyNamed(names, old(steps), steps, old(records), records)
      ensures QuietSince(old(steps), old(records)) ==> r.Ok?
    {
      hide Keeps;
      var ref := names(steps);
      var sealed := Try();
      if !sealed {
        return Err(Interrupted);
      }
      if ref == "" || ref in records {
        return Err(Interrupted);
      }
      var written, bytes := WriteBytes(ref, owner, data, ok, start);
      if !written {
        return Err(Interrupted);
      }
      var named := SyncRecord(ref, bytes, ok, start);
      if !named {
        return Err(Interrupted);
      }
      r := Ok(ref);
    }

    /** The record of an entry with secrets: the one it has, when that holds exactly these
        secrets, with nothing written, and a new one otherwise.  Either survives a crash. */
    method SealEntry(id: string, e: Entry<P, S>, ghost ok: View<P, S, R> -> bool, ghost start: nat)
      returns (r: Result<Entry<P, S>, Fault>)
      requires Valid() && KeptSince(start, ok) && (e.ref != "" ==> Refers(visible, e.ref))
      modifies this`records, this`kept, this`trace, this`steps
      ensures Valid() && KeptSince(start, ok)
      ensures forall ref :: ref in old(records) ==> ref in records && records[ref] == old(records[ref])
      ensures forall ref :: ref in old(kept) ==> ref in kept && kept[ref] == old(kept[ref])
      ensures r.Ok? ==> SealedAs(kind, kept, id, e, Some(r.value)) && (r.value.ref == "" || r.value.ref in kept)
      ensures old(steps) <= steps && OnlyNamed(names, old(steps), steps, old(records), records)
      ensures QuietSince(old(steps), old(records)) && (e.ref == "" || e.ref == RefOf(visible, id)) ==> r.Ok?
      ensures e.secret != kind.none && e.ref in old(records) && old(records)[e.ref] == Sealed(id, kind.encode(e.secret)) ==>
        r == Ok(e.(secret := kind.none)) && records == old(records) && kept == old(kept)
    {
      hide Decode, Refers, RefOf, Quiet;
      if e.secret == kind.none {
        return Ok(e.(ref := ""));
      }
      var data := kind.encode(e.secret);
      var ref, same := e.ref, false;
      if ref != "" {
        ReferredIsThere(kind, visible, kept, ref);
        if ref == RefOf(visible, id) {
          OwnRecordIsRead(kind, visible, records, id);
        }
        var current := RecordOf(records, ref, id);
        if current.Err? {
          return Err(current.error);
        }
        same := current.value == data;
      }
      if !same {
        var written := WriteRecord(id, data, ok, start);
        if written.Err? {
          return Err(written.error);
        }
        ref := written.value;
      }
      r := Ok(e.(secret := kind.none, ref := ref));
    }

    /** Makes the name of the file last. */
    method SyncDirectory(ghost ok: View<P, S, R> -> bool, ghost start: nat) returns (done: bool)
      requires Valid() && KeptSince(start, ok)
      modifies this`durable, this`trace, this`steps
      ensures Valid() && KeptSince(start, ok)
      ensures steps == old(steps) + 1 && done == !faults(old(steps))
      ensures durable == if done then visible else old(durable)
    {
      done := Try();
      if done {
        durable := visible;
        trace := trace + [Now()];
      }
    }

    /** Replaces the file: its bytes are flushed, the new one is seen at once, and it survives
        a crash once the directory is synced. */
    method ReplaceFile(f: File<P, S, R>, ghost ok: View<P, S, R> -> bool, ghost start: nat) returns (done: bool)
      requires Valid() && KeptSince(start, ok) && Meets(kind, Some(f), records, ok) && Meets(kind, Some(f), kept, ok)
      modifies this`visible, this`flushed, this`durable, this`trace, this`steps
      ensures Valid() && KeptSince(start, ok)
      ensures old(steps) < steps && (done <==> forall n :: old(steps) <= n < steps ==> !faults(n))
      ensures (visible, durable) in {(old(visible), old(durable)), (Some(f), old(durable)), (Some(f), Some(f))}
      ensures done ==> visible == durable == Some(f)
    {
      hide Keeps, Meets, Faithful;
      SeenKeeps(kind, Now(), f, ok);
      ghost var bytes := false;
      var written := Try();
      if !written {
        return false;
      }
      var synced := Try();
      if !synced {
        return false;
      } else {
        bytes := true;
      }
      var renamed := Try();
      if !renamed {
        return false;
      }
      visible := Some(f);
      flushed := bytes;
      trace := trace + [Now()];
      done := SyncDirectory(ok, start);
    }

    /** Removes the records nothing refers to, in any order, as far as it gets. */
    method Prune(live: set<string>, ghost ok: View<P, S, R> -> bool, ghost start: nat) returns (done: bool)
      requires Valid() && KeptSince(start, ok)
      requires visible == durable && forall ref :: Refers(visible, ref) ==> ref in live
      modifies this`records, this`kept, this`trace, this`steps
      ensures Valid() && KeptSince(start, ok)
      ensures old(steps) <= steps && records.Keys <= old(records).Keys
      ensures (forall n :: old(steps) <= n < steps ==> !faults(n)) ==> done
      ensures forall ref :: ref in old(records) && ref in live ==> ref in records && records[ref] == old(records[ref])
      ensures forall ref :: ref in old(kept) && ref in live ==> ref in kept && kept[ref] == old(kept[ref])
      ensures done ==> records.Keys <= live
    {
      hide Keeps, Refers;
      var left := records.Keys;
      while left != {}
        invariant Valid() && KeptSince(start, ok) && visible == durable == old(visible) && old(steps) <= steps
        invariant forall ref :: ref in records ==> ref in old(records)
        invariant forall ref :: ref in old(records) && ref in live ==> ref in records && records[ref] == old(records[ref])
        invariant forall ref :: ref in old(kept) && ref in live ==> ref in kept && kept[ref] == old(kept[ref])
        invariant forall ref :: ref in records && ref !in left ==> ref in live
        decreases |left|
      {
        var ref :| ref in left;
        left := left - {ref};
        if ref !in live && ref in records {
          var removed := Try();
          if !removed {
            return false;
          }
          LostRecordKeeps(kind, Now(), ref, ok);
          records, kept := records - {ref}, kept - {ref};
          trace := trace + [Now()];
        }
      }
      done := true;
    }

    /** The first half of a write: every entry gets the form it has in the new file, and its
        record. */
    method SealAll(c: Config<P, S, R>, ghost ok: View<P, S, R> -> bool, ghost start: nat)
      returns (r: Result<(map<string, Option<Entry<P, S>>>, set<string>), Fault>)
      requires Valid() && KeptSince(start, ok) && Owns(visible, c)
      modifies this`records, this`kept, this`trace, this`steps
      ensures Valid() && KeptSince(start, ok)
      ensures forall ref :: ref in old(records) ==> ref in records && records[ref] == old(records[ref])
      ensures old(steps) <= steps && OnlyNamed(names, old(steps), steps, old(records), records)
      ensures QuietSince(old(steps), old(records)) && OwnsEach(visible, c) ==> r.Ok?
      ensures r.Ok? ==> Writing(kind, kept, c, {}, r.value.0, r.value.1)
    {
      hide Keeps, Meets, SealedAs, Refers, Decode, Quiet, OnlyNamed, RefOf;
      assert OnlyNamed(names, steps, steps, records, records) by { NothingNamed(names, steps, records); }
      var out: map<string, Option<Entry<P, S>>>, live: set<string> := map[], {};
      var left := c.entries.Keys;
      while left != {}
        invariant Valid() && KeptSince(start, ok)
        invariant forall ref :: ref in old(records) ==> ref in records && records[ref] == old(records[ref])
        invariant Writing(kind, kept, c, left, out, live)
        invariant old(steps) <= steps && OnlyNamed(names, old(steps), steps, old(records), records)
        decreases |left|
      {
        var id :| id in left;
        ghost var before, mid, at := kept, records, steps;
        var sealed := SealEntry(id, c.entries[id], ok, start);
        NamedTwice(names, old(steps), at, steps, old(records), mid, records);
        if sealed.Err? {
          if QuietSince(old(steps), old(records)) {
            QuietThen(faults, names, old(steps), at, steps, old(records), mid);
          }
          return Err(sealed.error);
        }
        WritingKept(kind, before, kept, c, left, out, live);
        WritingMore(kind, kept, c, left, out, live, id, sealed.value);
        out := out[id := Some(sealed.value)];
        if sealed.value.ref != "" {
          live := live + {sealed.value.ref};
        }
        left := left - {id};
      }
      r := Ok((out, live));
    }

    /** Writes a configuration, whose references are those of the stored file.  For every
        property that what is there has, whatever a crash may leave of it, and the new
        configuration has too, every state on the way has it.  Programs read what they read
        before or the new configuration; a write that reports success has replaced the file
        for good, and one in which nothing goes wrong does report success. */
    method Write(c: Config<P, S, R>, ghost ok: View<P, S, R> -> bool, ghost start: nat) returns (r: Result<Config<P, S, R>, Fault>)
      requires Valid() && KeptSince(start, ok) && ok(ViewOf(c)) && Owns(visible, c)
      modifies this`visible, this`flushed, this`durable, this`records, this`kept, this`trace, this`steps
      ensures Valid() && KeptSince(start, ok)
      ensures (visible == old(visible) && Decode(kind, visible, records) == old(Decode(kind, visible, records)))
              || Shows(kind, visible, records, ViewOf(c))
      ensures visible != old(visible) ==> visible.Some? && !HasPlaintext(kind, visible.value)
      ensures r.Ok? ==> visible == durable && Decode(kind, visible, records) == Some(r.value) && ViewOf(r.value) == ViewOf(c)
      ensures r.Ok? ==> Decode(kind, durable, kept) == Some(r.value)
      ensures r.Ok? ==> visible.Some? && !HasPlaintext(kind, visible.value)
      ensures old(steps) <= steps && OnlyNamed(names, old(steps), steps, old(records), records)
      ensures QuietSince(old(steps), old(records)) && OwnsEach(old(visible), c) ==> r.Ok?
    {
      hide Keeps, Meets, SealedAs, Refers, Decode, Owns, OwnsEach;
      KeptDecodes(kind, Now(), ok);
      var sealed := SealAll(c, ok, start);
      SameRecordsSameMeaning(kind, visible, old(records), records);
      if sealed.Err? {
        return Err(sealed.error);
      }
      var (out, live) := sealed.value;
      WritingDone(kind, kept, c, out, live);
      r := Finish(c, File(2, out, c.rest), Refreshed(c, out), live, ok, start);
    }

    /** The second half of a write, from the finished file on. */
    method Finish(c: Config<P, S, R>, f: File<P, S, R>, refreshed: Config<P, S, R>, live: set<string>,
                  ghost ok: View<P, S, R> -> bool, ghost start: nat)
      returns (r: Result<Config<P, S, R>, Fault>)
      requires Valid() && KeptSince(start, ok) && ok(ViewOf(c))
      requires Decode(kind, Some(f), kept) == Some(refreshed) && ViewOf(refreshed) == ViewOf(c)
      requires forall ref :: Refers(Some(f), ref) ==> ref in live
      modifies this`visible, this`flushed, this`durable, this`records, this`kept, this`trace, this`steps
      ensures Valid() && KeptSince(start, ok)
      ensures (visible == old(visible) && records == old(records)) || visible == Some(f)
      ensures visible == Some(f) ==> Decode(kind, visible, records) == Some(refreshed)
      ensures r.Ok? ==> visible == durable == Some(f) && r.value == refreshed && Decode(kind, durable, kept) == Some(refreshed)
      ensures old(steps) <= steps && records.Keys <= old(records).Keys
      ensures (forall n :: old(steps) <= n < steps ==> !faults(n)) ==> r.Ok?
    {
      hide Keeps, Decode, Refers;
      SameRecordsSameMeaning(kind, Some(f), kept, records);
      var replaced := ReplaceFile(f, ok, start);
      if !replaced {
        return Err(Interrupted);
      }
      ghost var before, sure := records, kept;
      var pruned := Prune(live, ok, start);
      SameRecordsSameMeaning(kind, visible, before, records);
      SameRecordsSameMeaning(kind, visible, sure, kept);
      r := Ok(refreshed);
    }

    /** Opens every entry of the file, or names the fault. */
    method OpenAll() returns (r: Result<Config<P, S, R>, Fault>, legacy: bool)
      requires Valid()
      ensures r.Ok? ==>
        Decode(kind, visible, records) == Some(r.value) && (legacy <==> visible.Some? && HasPlaintext(kind, visible.value))
      ensures r.Err? ==> Decode(kind, visible, records).None? && Faulty(kind, visible, records, r.error)
    {
      hide Decode, Reading, OpenEntry, HasPlaintext;
      legacy := false;
      if visible.None? {
        MissingMeans(kind, visible, records);
        r := if kind.missing.Some? then Ok(Config(map[], kind.missing.value)) else Err(NoFile);
        return;
      }
      var f := visible.value;
      NewerMeans(kind, f, records);
      if f.version > 2 {
        return Err(Unsupported), false;
      }
      var entries: map<string, Entry<P, S>> := map[];
      var left := f.entries.Keys;
      ReadingStarts(kind, records, f);
      while left != {}
        invariant left <= f.entries.Keys && Reading(kind, records, f, left, entries, legacy)
        decreases |left|
      {
        var id :| id in left;
        var e := OpenEntry(kind, records, id, f.entries[id]);
        if e.Err? {
          ReadingStopped(kind, records, f, id);
          return Err(e.error), false;
        }
        ReadingMore(kind, records, f, left, entries, legacy, id, e.value);
        if f.entries[id].value.secret != kind.none {
          legacy := true;
        }
        entries := entries[id := e.value];
        left := left - {id};
      }
      ReadingDone(kind, records, f, entries, legacy);
      r := Ok(Config(entries, f.rest));
    }

    /** Reads the configuration, all of it or nothing, and rewrites a file that still has
        plain text.  A file that cannot be read is left alone. */
    method Read(ghost ok: View<P, S, R> -> bool, ghost start: nat) returns (r: Result<Config<P, S, R>, Fault>)
      requires Valid() && (Decode(kind, visible, records).Some? ==> KeptSince(start, ok))
      modifies this`visible, this`flushed, this`durable, this`records, this`kept, this`trace, this`steps
      ensures Valid() && (old(Decode(kind, visible, records)).Some? ==> KeptSince(start, ok))
      ensures old(Decode(kind, visible, records)).Some? ==>
        Shows(kind, visible, records, ViewOf(old(Decode(kind, visible, records)).value))
      ensures old(Decode(kind, visible, records)).None? ==>
        Now() == old(Now()) && trace == old(trace) && r.Err? && Faulty(kind, visible, records, r.error)
      ensures r.Ok? ==>
        && old(Decode(kind, visible, records)).Some?
        && ViewOf(r.value) == ViewOf(old(Decode(kind, visible, records)).value)
        && Decode(kind, visible, records) == Some(r.value)
        && (visible.Some? ==> !HasPlaintext(kind, visible.value))
      ensures old(Decode(kind, visible, records)).Some? && (old(visible).Some? ==> !HasPlaintext(kind, old(visible).value)) ==>
        r == Ok(old(Decode(kind, visible, records)).value) && Now() == old(Now())
      ensures old(steps) <= steps && OnlyNamed(names, old(steps), steps, old(records), records)
      ensures QuietSince(old(steps), old(records)) && old(Decode(kind, visible, records)).Some? ==> r.Ok?
    {
      hide Keeps, Decode, HasPlaintext, Owns, OwnsEach, Faulty, Quiet;
      var legacy;
      r, legacy := OpenAll();
      if r.Ok? && legacy {
        KeptView(kind, Now(), r.value, ok);
        ReadOwns(kind, visible, records, r.value);
        r := Write(r.value, ok, start);
      }
    }

    /** A write over a disk that programs read as one configuration, and that a crash may
        turn into any that has the property, as after writes that failed.  Wherever it stops,
        a crash leaves one of those or the new one, whole; programs read the whole old or the
        whole new one; and when it reports success only the new one is left. */
    method Replace(c: Config<P, S, R>, ghost now: View<P, S, R>, ghost ok: View<P, S, R> -> bool)
      returns (r: Result<Config<P, S, R>, Fault>)
      requires Valid() && Stands(kind, Now(), now, ok) && Owns(visible, c)
      modifies this`visible, this`flushed, this`durable, this`records, this`kept, this`trace, this`steps
      ensures Valid() && |old(trace)| <= |trace|
      ensures forall i :: |old(trace)| <= i < |trace| ==> Keeps(kind, trace[i], Or(ok, ViewOf(c)))
      ensures Stands(kind, Now(), now, Or(ok, ViewOf(c))) || Stands(kind, Now(), ViewOf(c), Or(ok, ViewOf(c)))
      ensures r.Ok? ==> Stands(kind, Now(), ViewOf(c), Only(ViewOf(c))) && visible.Some? && !HasPlaintext(kind, visible.value)
      ensures QuietSince(old(steps), old(records)) && OwnsEach(old(visible), c) ==> r.Ok?
    {
      hide Decode, HasPlaintext, Owns, OwnsEach, Meets, Quiet;
      KeepsMore(kind, Now(), ok, ViewOf(c));
      r := Write(c, Or(ok, ViewOf(c)), |trace|);
      if r.Ok? {
        WrittenStands(kind, Now(), r.value);
      }
    }
  }
}
