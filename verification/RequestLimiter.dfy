/** The widget request limiter: fixed one-minute windows per item, a cap on concurrent
    requests, eviction of idle entries, and release closures that keep a pointer to the
    entry they were granted from. */
module RequestLimiter {

  const MINUTE := 60_000_000_000  // nanoseconds

  datatype Limits = Limits(concurrent: nat, perMinute: nat)

  datatype Entry = Entry(window: int, count: nat, active: nat)

  type Table = map<string, Entry>

  predicate Idle(e: Entry, now: int) {
    e.active == 0 && now - e.window >= MINUTE
  }

  /** The entries that survive a sweep at `now`. */
  function Swept(t: Table, now: int): Table {
    map id | id in t && !Idle(t[id], now) :: t[id]
  }

  /** The entry a request of `id` is counted in. */
  function Current(t: Table, id: string, now: int): Entry {
    if id !in t || Idle(t[id], now) then Entry(now, 0, 0)
    else if now - t[id].window >= MINUTE then Entry(now, 0, t[id].active)
    else t[id]
  }

  predicate Admits(limits: Limits, e: Entry) {
    e.active < limits.concurrent && e.count < limits.perMinute
  }

  /** The current entry, with the request counted in when it is admitted. */
  function Asked(limits: Limits, e: Entry): Entry {
    if Admits(limits, e) then Entry(e.window, e.count + 1, e.active + 1) else e
  }

  function Acquired(limits: Limits, t: Table, id: string, now: int): Table {
    var e := Current(t, id, now);
    Swept(t, now)[id := Asked(limits, e)]
  }

  function Released(t: Table, id: string): Table
    requires id in t && t[id].active > 0
  {
    t[id := t[id].(active := t[id].active - 1)]
  }

  /** The table once the item has an entry. */
  function Opened(t: Table, id: string, now: int): Table {
    if id in t then t else t[id := Entry(now, 0, 0)]
  }

  /** Sweeping, opening and then starting a new window when the old one is over is the
      same as counting in the current entry. */
  lemma EntryFound(limits: Limits, start: Table, t: Table, id: string, now: int)
    requires t == Opened(Swept(start, now), id, now)
    ensures var e := if now - t[id].window >= MINUTE then Entry(now, 0, t[id].active) else t[id];
            && Current(start, id, now) == e
            && Acquired(limits, start, id, now) ==
                 t[id := Asked(limits, e)]
  {
  }

  // ----- the code, over shared entries

  class Budget {
    var window: int
    var count: nat
    var active: nat

    constructor (now: int)
      ensures window == now && count == 0 && active == 0
    {
      window, count, active := now, 0, 0;
    }

    ghost function Value(): Entry
      reads this
    {
      Entry(window, count, active)
    }
  }

  /** No entry is shared, entries count the releases still to come, and every entry that
      has such a release is listed. */
  ghost predicate Consistent(m: map<string, Budget>, outstanding: multiset<Budget>)
    reads m.Values
  {
    && Unshared(m)
    && (forall id :: id in m ==> m[id].active == outstanding[m[id]])
    && Listed(m, outstanding)
  }

  ghost predicate Unshared(m: map<string, Budget>) {
    forall a, b :: a in m && b in m && a != b ==> m[a] != m[b]
  }

  ghost predicate Listed(m: map<string, Budget>, outstanding: multiset<Budget>) {
    forall b :: b in outstanding ==> exists id :: id in m && m[id] == b
  }

  ghost function Values(m: map<string, Budget>): Table
    reads m.Values
  {
    map id | id in m :: m[id].Value()
  }

  lemma AddEntry(m: map<string, Budget>, outstanding: multiset<Budget>, id: string, b: Budget)
    requires Consistent(m, outstanding) && id !in m && b.active == 0
    requires b !in m.Values
    ensures Consistent(m[id := b], outstanding)
  {
    var next := m[id := b];
    forall c | c in outstanding ensures exists k :: k in next && next[k] == c {
      var k :| k in m && m[k] == c;
      assert next[k] == c;
    }
    assert b !in outstanding;
  }

  /** What the entries held when a consistent limiter was last looked at. */
  ghost predicate Snapshot(m: map<string, Budget>, was: Table, outstanding: multiset<Budget>) {
    && Unshared(m) && Listed(m, outstanding) && was.Keys == m.Keys
    && forall id :: id in m ==> was[id].active == outstanding[m[id]]
  }

  lemma TakeSnapshot(m: map<string, Budget>, outstanding: multiset<Budget>)
    requires Consistent(m, outstanding)
    ensures Unshared(m) && Snapshot(m, Values(m), outstanding)
    ensures Values(m).Keys == m.Keys && forall id :: id in m ==> Values(m)[id] == m[id].Value()
  {
  }

  /** Writing to one entry is seen under one name, and counting one request in, or one
      out, on the entry and on the ledger keeps them consistent. */
  lemma WriteOne(m: map<string, Budget>, was: Table, id: string, before: multiset<Budget>, outstanding: multiset<Budget>)
    requires id in m && Snapshot(m, was, before)
    requires forall k :: k in m && k != id ==> m[k].Value() == was[k]
    requires outstanding == before[m[id] := m[id].active]
    ensures Values(m) == was[id := m[id].Value()]
    ensures Consistent(m, outstanding)
  {
    forall k | k in m ensures m[k].active == outstanding[m[k]] {
      assert k != id ==> m[k].Value() == was[k];
    }
  }

  lemma NameOf(m: map<string, Budget>, outstanding: multiset<Budget>, b: Budget) returns (id: string)
    requires Consistent(m, outstanding) && b in outstanding
    ensures id in m && m[id] == b && b.active == outstanding[b]
    ensures Values(m).Keys == m.Keys && Values(m)[id] == b.Value()
  {
    id :| id in m && m[id] == b;
  }

  /** Of the entries walked so far, the idle ones and no others are gone. */
  predicate Sorted(was: Table, left: set<string>, gone: set<string>, now: int) {
    && gone <= was.Keys
    && forall id :: id in was && id !in left ==> (id in gone <==> Idle(was[id], now))
  }

  lemma SortOne(was: Table, left: set<string>, gone: set<string>, key: string, now: int)
    requires key in left && key in was && gone !! left && Sorted(was, left, gone, now)
    ensures Sorted(was, left - {key}, if Idle(was[key], now) then gone + {key} else gone, now)
    ensures gone !! left - {key} && gone + {key} !! left - {key}
    ensures Idle(was[key], now) == (was[key].active == 0 && now - was[key].window >= MINUTE)
  {
  }

  lemma RemoveOne(start: map<string, Budget>, gone: set<string>, key: string)
    ensures start - gone - {key} == start - (gone + {key})
  {
  }

  /** Dropping the idle entries detaches no entry somebody will release. */
  lemma DropIdle(m: map<string, Budget>, outstanding: multiset<Budget>, was: Table, gone: set<string>, now: int)
    requires Consistent(m, outstanding) && was == Values(m) && Sorted(was, {}, gone, now)
    ensures Consistent(m - gone, outstanding) && Values(m - gone) == Swept(was, now)
  {
    forall b | b in outstanding ensures exists id :: id in m - gone && (m - gone)[id] == b {
      var id :| id in m && m[id] == b;
      assert was[id].active != 0;
      assert id in m - gone && (m - gone)[id] == b;
    }
  }

  /** The only entry written to is the item's, and it now holds what the table says. */
  lemma Settled(limits: Limits, start: Table, m: map<string, Budget>, was: Table, id: string, now: int,
                before: multiset<Budget>, outstanding: multiset<Budget>)
    requires id in m && Snapshot(m, was, before)
    requires forall k :: k in m && k != id ==> m[k].Value() == was[k]
    requires was == Opened(Swept(start, now), id, now)
    requires m[id].Value() == Asked(limits, Current(start, id, now))
    requires outstanding == if Admits(limits, Current(start, id, now)) then before + multiset{m[id]} else before
    ensures Consistent(m, outstanding)
    ensures Values(m) == Acquired(limits, start, id, now)
  {
    hide Consistent, Values, Swept, Opened, Acquired, Current;
    EntryFound(limits, start, was, id, now);
    assert was[id].active == before[m[id]];
    WriteOne(m, was, id, before, outstanding);
  }

  class Limiter {
    const limits: Limits
    var budgets: map<string, Budget>
    /** One entry per release that has not been called yet. */
    ghost var outstanding: multiset<Budget>

    ghost predicate Valid()
      reads this, budgets.Values
    {
      Consistent(budgets, outstanding)
    }

    ghost function Contents(): Table
      reads this, budgets.Values
    {
      Values(budgets)
    }

    constructor (limits: Limits)
      ensures Valid() && this.limits == limits && Contents() == map[] && outstanding == multiset{}
    {
      this.limits := limits;
      budgets := map[];
      outstanding := multiset{};
    }

    /** Idle entries go, in whatever order the map is walked. */
    method Sweep(now: int)
      requires Valid()
      modifies this`budgets
      ensures Valid()
      ensures budgets.Values <= old(budgets.Values)
      ensures Contents() == Swept(old(Contents()), now)
    {
      hide Consistent, Values, Idle, Swept;
      ghost var start, was, gone: set<string> := budgets, Contents(), {};
      TakeSnapshot(start, outstanding);
      var left := budgets.Keys;
      while left != {}
        invariant left <= was.Keys && gone !! left && Sorted(was, left, gone, now)
        invariant budgets == start - gone
        decreases |left|
      {
        var key :| key in left;
        var b := budgets[key];
        assert b.Value() == was[key];
        SortOne(was, left, gone, key, now);
        left := left - {key};
        if b.active == 0 && now - b.window >= MINUTE {
          RemoveOne(start, gone, key);
          gone := gone + {key};
          budgets := budgets - {key};
        }
      }
      DropIdle(start, outstanding, was, gone, now);
    }

    /** Grants a request and returns the entry its release will decrement, or refuses. */
    method Acquire(id: string, now: int) returns (granted: Budget?)
      requires Valid()
      modifies this, budgets.Values
      ensures Valid() && fresh(budgets.Values - old(budgets.Values))
      ensures Contents() == Acquired(limits, old(Contents()), id, now)
      ensures (granted != null) == Admits(limits, Current(old(Contents()), id, now))
      ensures granted == null ==> outstanding == old(outstanding)
      ensures granted != null ==> outstanding == old(outstanding) + multiset{granted} && id in budgets && budgets[id] == granted
    {
      hide Consistent, Values, Snapshot, Swept, Opened, Acquired, Current;
      ghost var start, before := Contents(), outstanding;
      Sweep(now);
      var b := Find(id, now);
      ghost var was := Contents();
      EntryFound(limits, start, was, id, now);
      TakeSnapshot(budgets, before);
      if now - b.window >= MINUTE {
        b.window := now;
        b.count := 0;
      }
      if b.active >= limits.concurrent || b.count >= limits.perMinute {
        Settled(limits, start, budgets, was, id, now, before, outstanding);
        return null;
      }
      b.active := b.active + 1;
      b.count := b.count + 1;
      outstanding := outstanding + multiset{b};
      granted := b;
      Settled(limits, start, budgets, was, id, now, before, outstanding);
    }

    /** The entry of an item, made on first use. */
    method Find(id: string, now: int) returns (b: Budget)
      requires Valid()
      modifies this`budgets
      ensures Valid() && id in budgets && budgets[id] == b
      ensures Contents() == Opened(old(Contents()), id, now) && b.Value() == Contents()[id]
      ensures fresh(budgets.Values - old(budgets.Values)) && (fresh(b) || b in old(budgets.Values))
    {
      hide Consistent;
      if id in budgets {
        b := budgets[id];
      } else {
        b := new Budget(now);
        AddEntry(budgets, outstanding, id, b);
        assert Values(budgets[id := b]) == Values(budgets)[id := b.Value()];
        budgets := budgets[id := b];
      }
    }

    /** What the closure of a granted request does. */
    method Release(b: Budget)
      requires Valid() && b in outstanding
      modifies this`outstanding, b
      ensures Valid() && budgets == old(budgets) && outstanding == old(outstanding) - multiset{b}
      ensures exists id :: id in budgets && budgets[id] == b
      ensures forall id :: id in budgets && budgets[id] == b ==>
        old(Contents()[id].active) > 0 && Contents() == Released(old(Contents()), id)
    {
      hide Consistent, Values, Snapshot;
      ghost var m, was, before := budgets, Contents(), outstanding;
      ghost var id := NameOf(m, before, b);
      TakeSnapshot(m, before);
      b.active := b.active - 1;
      outstanding := outstanding - multiset{b};
      WriteOne(m, was, id, before, outstanding);
    }
  }
}
