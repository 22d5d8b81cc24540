/** What the request limiter guarantees over whole runs of requests and releases. */
module RequestLimiterProofs {

  import opened RequestLimiter

  datatype Event =
    | Ask(id: string, now: int)
    | Return(id: string)          // the release of one granted request of the item

  /** A granted request, when it was granted and the window it was counted in. */
  datatype Grant = Grant(id: string, at: int, window: int)

  datatype State = State(table: Table, clock: int, outstanding: multiset<string>, grants: seq<Grant>)

  /** The clock is monotone, and each release is called at most once. */
  predicate Enabled(s: State, e: Event) {
    match e
    case Ask(_, now) => now >= s.clock
    case Return(id) => id in s.outstanding
  }

  function Step(limits: Limits, s: State, e: Event): State {
    match e
    case Ask(id, now) =>
      var entry := Current(s.table, id, now);
      var next := s.(table := Acquired(limits, s.table, id, now), clock := now);
      if Admits(limits, entry)
      then next.(outstanding := s.outstanding + multiset{id}, grants := s.grants + [Grant(id, now, entry.window)])
      else next
    case Return(id) =>
      // a detached entry would be decremented unseen
      var table := if id in s.table && s.table[id].active > 0 then Released(s.table, id) else s.table;
      s.(table := table, outstanding := s.outstanding - multiset{id})
  }

  function Start(clock: int): State {
    State(map[], clock, multiset{}, [])
  }

  predicate CanRun(limits: Limits, s: State, events: seq<Event>)
    decreases |events|
  {
    events == [] || (Enabled(s, events[0]) && CanRun(limits, Step(limits, s, events[0]), events[1..]))
  }

  function Run(limits: Limits, s: State, events: seq<Event>): State
    decreases |events|
  {
    if events == [] then s else Run(limits, Step(limits, s, events[0]), events[1..])
  }

  /** How many requests of an item were counted in the window that began at `w`. */
  function InWindow(grants: seq<Grant>, id: string, w: int): nat {
    if grants == [] then 0
    else
      var g := grants[|grants| - 1];
      InWindow(grants[..|grants| - 1], id, w) + if g.id == id && g.window == w then 1 else 0
  }

  /** How many requests of an item were granted in the minute from `t` on. */
  function Within(grants: seq<Grant>, id: string, t: int): nat {
    if grants == [] then 0
    else
      var g := grants[|grants| - 1];
      Within(grants[..|grants| - 1], id, t) + if g.id == id && t <= g.at < t + MINUTE then 1 else 0
  }

  // ----- the invariant

  predicate EntryOk(limits: Limits, s: State, id: string) {
    if id in s.table then
      var e := s.table[id];
      && e.active == s.outstanding[id] && e.active <= limits.concurrent
      && e.count == InWindow(s.grants, id, e.window) && e.window <= s.clock
    else s.outstanding[id] == 0
  }

  /** A grant lies in its window, and later windows of the item begin a minute or more on. */
  predicate GrantOk(s: State, g: Grant) {
    && g.window <= g.at <= s.clock && g.at < g.window + MINUTE
    && (if g.id in s.table
        then g.window == s.table[g.id].window || g.window + MINUTE <= s.table[g.id].window
        else g.window + MINUTE <= s.clock)
  }

  predicate Apart(g: Grant, h: Grant) {
    g.id == h.id ==> g.window == h.window || g.window + MINUTE <= h.window || h.window + MINUTE <= g.window
  }

  ghost predicate Inv(limits: Limits, s: State) {
    && (forall id :: EntryOk(limits, s, id))
    && (forall i :: 0 <= i < |s.grants| ==> GrantOk(s, s.grants[i]))
    && (forall i, j :: 0 <= i < |s.grants| && 0 <= j < |s.grants| ==> Apart(s.grants[i], s.grants[j]))
    && (forall id, w :: InWindow(s.grants, id, w) <= limits.perMinute)
  }

  lemma InWindowMore(grants: seq<Grant>, g: Grant, id: string, w: int)
    ensures InWindow(grants + [g], id, w) == InWindow(grants, id, w) + if g.id == id && g.window == w then 1 else 0
  {
    assert (grants + [g])[..|grants|] == grants;
  }

  /** Windows nothing was counted in, in particular one that begins now. */
  lemma {:induction false} NothingInWindow(grants: seq<Grant>, id: string, w: int)
    requires forall i :: 0 <= i < |grants| ==> grants[i].id != id || grants[i].window != w
    ensures InWindow(grants, id, w) == 0
  {
    if grants != [] {
      NothingInWindow(grants[..|grants| - 1], id, w);
    }
  }

  /** Looking an item up, before anything is granted: the window is the old one or is new. */
  lemma CurrentWindow(limits: Limits, s: State, id: string, now: int)
    requires Inv(limits, s) && now >= s.clock
    ensures var e := Current(s.table, id, now);
            && e.active == s.outstanding[id] && e.active <= limits.concurrent && e.count <= limits.perMinute
            && e.count == InWindow(s.grants, id, e.window) && now - MINUTE < e.window <= now
            && forall i :: 0 <= i < |s.grants| && s.grants[i].id == id ==>
                 s.grants[i].window == e.window || s.grants[i].window + MINUTE <= e.window
  {
    hide InWindow, CanRun, Run;
    assert EntryOk(limits, s, id);
    var e := Current(s.table, id, now);
    forall i | 0 <= i < |s.grants| && s.grants[i].id == id
      ensures s.grants[i].window == e.window || s.grants[i].window + MINUTE <= e.window
    {
      assert GrantOk(s, s.grants[i]);
    }
    if id !in s.table || now - s.table[id].window >= MINUTE {
      assert forall i :: 0 <= i < |s.grants| ==> GrantOk(s, s.grants[i]);
      NothingInWindow(s.grants, id, e.window);
    }
    assert InWindow(s.grants, id, e.window) <= limits.perMinute;
  }

  /** What a request leaves in the table for its own item, and for the others. */
  lemma AskedEntries(limits: Limits, t: Table, id: string, now: int, other: string)
    ensures var e := Current(t, id, now);
            var next := Acquired(limits, t, id, now);
            && id in next
            && next[id] == (if Admits(limits, e) then Entry(e.window, e.count + 1, e.active + 1) else e)
            && (other != id ==> (other in next <==> other in t && !Idle(t[other], now))
                                && (other in next ==> next[other] == t[other]))
  {
  }

  lemma AskKeepsEntry(limits: Limits, s: State, id: string, now: int, other: string)
    requires Inv(limits, s) && now >= s.clock
    ensures EntryOk(limits, Step(limits, s, Ask(id, now)), other)
  {
    hide Acquired, InWindow;
    CurrentWindow(limits, s, id, now);
    AskedEntries(limits, s.table, id, now, other);
    assert EntryOk(limits, s, other);
    var e := Current(s.table, id, now);
    var next := Step(limits, s, Ask(id, now));
    if other in next.table {
      InWindowMore(s.grants, Grant(id, now, e.window), other, next.table[other].window);
    }
  }

  lemma AskKeepsGrants(limits: Limits, s: State, id: string, now: int, i: nat, j: nat)
    requires Inv(limits, s) && now >= s.clock
    requires var next := Step(limits, s, Ask(id, now)); i < |next.grants| && j < |next.grants|
    ensures var next := Step(limits, s, Ask(id, now));
            GrantOk(next, next.grants[i]) && Apart(next.grants[i], next.grants[j])
  {
    hide Acquired, InWindow;
    CurrentWindow(limits, s, id, now);
    var next := Step(limits, s, Ask(id, now));
    AskedEntries(limits, s.table, id, now, next.grants[i].id);
    assert i < |s.grants| ==> GrantOk(s, s.grants[i]);
    assert i < |s.grants| && j < |s.grants| ==> Apart(s.grants[i], s.grants[j]);
  }

  lemma AskKeepsWindows(limits: Limits, s: State, id: string, now: int, other: string, w: int)
    requires Inv(limits, s) && now >= s.clock
    ensures InWindow(Step(limits, s, Ask(id, now)).grants, other, w) <= limits.perMinute
  {
    hide Acquired, InWindow;
    CurrentWindow(limits, s, id, now);
    InWindowMore(s.grants, Grant(id, now, Current(s.table, id, now).window), other, w);
    assert InWindow(s.grants, other, w) <= limits.perMinute;
  }

  lemma StepKeeps(limits: Limits, s: State, e: Event)
    requires Inv(limits, s) && Enabled(s, e)
    ensures Inv(limits, Step(limits, s, e))
  {
    hide InWindow;
    var next := Step(limits, s, e);
    match e
    case Ask(id, now) =>
      hide Step, EntryOk, GrantOk, Apart;
      forall other ensures EntryOk(limits, next, other) { AskKeepsEntry(limits, s, id, now, other); }
      forall i | 0 <= i < |next.grants| ensures GrantOk(next, next.grants[i]) { AskKeepsGrants(limits, s, id, now, i, i); }
      forall i, j | 0 <= i < |next.grants| && 0 <= j < |next.grants| ensures Apart(next.grants[i], next.grants[j]) {
        AskKeepsGrants(limits, s, id, now, i, j);
      }
      forall other, w ensures InWindow(next.grants, other, w) <= limits.perMinute {
        AskKeepsWindows(limits, s, id, now, other, w);
      }
    case Return(id) =>
      assert EntryOk(limits, s, id);
      forall other ensures EntryOk(limits, next, other) { assert EntryOk(limits, s, other); }
      forall i | 0 <= i < |next.grants| ensures GrantOk(next, next.grants[i]) { assert GrantOk(s, s.grants[i]); }
  }

  lemma {:induction false} RunKeeps(limits: Limits, s: State, events: seq<Event>)
    requires Inv(limits, s) && CanRun(limits, s, events)
    ensures Inv(limits, Run(limits, s, events))
    decreases |events|
  {
    hide Inv, Enabled, Step;
    if events != [] {
      StepKeeps(limits, s, events[0]);
      RunKeeps(limits, Step(limits, s, events[0]), events[1..]);
    }
  }

  // ----- what that means

  /** Over every run, an item's entry is listed and counts exactly the releases still to
      come, which stay within the limit: eviction detaches no entry in use. */
  lemma ActiveIsOutstanding(limits: Limits, clock: int, events: seq<Event>, id: string)
    requires CanRun(limits, Start(clock), events)
    ensures var s := Run(limits, Start(clock), events);
            && s.outstanding[id] == (if id in s.table then s.table[id].active else 0)
            && s.outstanding[id] <= limits.concurrent
  {
    RunKeeps(limits, Start(clock), events);
    assert EntryOk(limits, Run(limits, Start(clock), events), id);
  }

  /** Two windows hold every grant of one minute. */
  lemma {:induction false} WithinTwoWindows(grants: seq<Grant>, id: string, t: int, w1: int, w2: int)
    requires forall i :: 0 <= i < |grants| && grants[i].id == id && t <= grants[i].at < t + MINUTE ==>
               grants[i].window == w1 || grants[i].window == w2
    ensures Within(grants, id, t) <= InWindow(grants, id, w1) + InWindow(grants, id, w2)
  {
    if grants != [] {
      WithinTwoWindows(grants[..|grants| - 1], id, t, w1, w2);
    }
  }

  /** The windows that reach into a minute are no more than two. */
  lemma TwoWindows(limits: Limits, s: State, id: string, t: int) returns (w1: int, w2: int)
    requires Inv(limits, s)
    ensures forall i :: 0 <= i < |s.grants| && s.grants[i].id == id && t <= s.grants[i].at < t + MINUTE ==>
              s.grants[i].window == w1 || s.grants[i].window == w2
  {
    hide InWindow;
    w1, w2 := 0, 0;
    if i :| 0 <= i < |s.grants| && s.grants[i].id == id && t <= s.grants[i].at < t + MINUTE {
      w1 := s.grants[i].window;
      if j :| 0 <= j < |s.grants| && s.grants[j].id == id && t <= s.grants[j].at < t + MINUTE && s.grants[j].window != w1 {
        w2 := s.grants[j].window;
        forall k | 0 <= k < |s.grants| && s.grants[k].id == id && t <= s.grants[k].at < t + MINUTE
          ensures s.grants[k].window == w1 || s.grants[k].window == w2
        {
          assert GrantOk(s, s.grants[i]) && GrantOk(s, s.grants[j]) && GrantOk(s, s.grants[k]);
          assert Apart(s.grants[i], s.grants[j]) && Apart(s.grants[i], s.grants[k]) && Apart(s.grants[j], s.grants[k]);
        }
      }
    }
  }

  /** Over every run, any half-open minute, wherever it begins, grants an item at most twice
      the limit of one window. */
  lemma RateBound(limits: Limits, clock: int, events: seq<Event>, id: string, t: int)
    requires CanRun(limits, Start(clock), events)
    ensures Within(Run(limits, Start(clock), events).grants, id, t) <= 2 * limits.perMinute
  {
    RunKeeps(limits, Start(clock), events);
    hide Run, CanRun, InWindow, Within;
    var s := Run(limits, Start(clock), events);
    var w1, w2 := TwoWindows(limits, s, id, t);
    WithinTwoWindows(s.grants, id, t, w1, w2);
    assert InWindow(s.grants, id, w1) <= limits.perMinute && InWindow(s.grants, id, w2) <= limits.perMinute;
  }

  // ----- the bound is exact

  lemma {:induction false} RunAppend(limits: Limits, s: State, a: seq<Event>, b: seq<Event>)
    requires CanRun(limits, s, a)
    ensures Run(limits, s, a + b) == Run(limits, Run(limits, s, a), b)
    ensures CanRun(limits, s, a + b) == CanRun(limits, Run(limits, s, a), b)
    decreases |a|
  {
    hide Enabled, Step;
    if a == [] {
      assert a + b == b;
    } else {
      assert (a + b)[1..] == a[1..] + b;
      RunAppend(limits, Step(limits, s, a[0]), a[1..], b);
    }
  }

  lemma RunNothing(limits: Limits, s: State)
    ensures CanRun(limits, s, []) && Run(limits, s, []) == s
  {
  }

  lemma RunOne(limits: Limits, s: State, e: Event)
    ensures CanRun(limits, s, [e]) == Enabled(s, e) && Run(limits, s, [e]) == Step(limits, s, e)
  {
    assert [e][1..] == [];
  }

  lemma RunTwo(limits: Limits, s: State, e: Event, f: Event)
    ensures CanRun(limits, s, [e, f]) == (Enabled(s, e) && Enabled(Step(limits, s, e), f))
    ensures Run(limits, s, [e, f]) == Step(limits, Step(limits, s, e), f)
  {
    hide Enabled, Step;
    assert [e, f][1..] == [f];
    RunOne(limits, Step(limits, s, e), f);
  }

  /** The item has an entry like this, and its clock has come no further than now. */
  predicate Stands(s: State, id: string, e: Entry, now: int) {
    id in s.table && s.table[id] == e && s.outstanding[id] == e.active && s.clock <= now
  }

  /** The entry a request at some time is counted in, given one that is in use. */
  function InUse(e: Entry, now: int): Entry {
    if now - e.window >= MINUTE then Entry(now, 0, e.active) else e
  }

  /** One request of an item that has an entry. */
  lemma AskStands(limits: Limits, s: State, id: string, e: Entry, before: int, now: int)
    requires Inv(limits, s) && Stands(s, id, e, before) && before <= now
    ensures var f, next := InUse(e, now), Step(limits, s, Ask(id, now));
            && Inv(limits, next) && Stands(next, id, Asked(limits, f), now)
            && next.grants == s.grants + if Admits(limits, f) then [Grant(id, now, f.window)] else []
  {
    hide Inv, Acquired, Swept;
    StepKeeps(limits, s, Ask(id, now));
    AskedEntries(limits, s.table, id, now, id);
  }

  lemma ReturnStands(limits: Limits, s: State, id: string, e: Entry, now: int)
    requires Inv(limits, s) && Stands(s, id, e, now) && e.active > 0
    ensures Enabled(s, Return(id))
    ensures var next := Step(limits, s, Return(id));
            Inv(limits, next) && Stands(next, id, e.(active := e.active - 1), now) && next.grants == s.grants
  {
    hide Inv;
    StepKeeps(limits, s, Return(id));
  }

  lemma FirstStands(limits: Limits, id: string)
    requires limits.concurrent >= 1 && limits.perMinute >= 1
    ensures Enabled(Start(0), Ask(id, 0))
    ensures var s := Step(limits, Start(0), Ask(id, 0)); Inv(limits, s) && Stands(s, id, Entry(0, 1, 1), 0)
  {
    assert Inv(limits, Start(0));
    hide Inv;
    StepKeeps(limits, Start(0), Ask(id, 0));
  }

  /** Requests a minute apart that are not released. */
  function Holding(id: string, n: nat): seq<Event> {
    if n == 0 then [] else Holding(id, n - 1) + [Ask(id, (n - 1) * MINUTE)]
  }

  lemma {:induction false} HoldingFills(limits: Limits, id: string, n: nat)
    requires 1 <= n <= limits.concurrent && limits.perMinute >= 1
    ensures CanRun(limits, Start(0), Holding(id, n))
    ensures var s := Run(limits, Start(0), Holding(id, n));
            Inv(limits, s) && Stands(s, id, Entry((n - 1) * MINUTE, 1, n), (n - 1) * MINUTE)
  {
    hide Inv, Step, CanRun, Run;
    var e := Ask(id, (n - 1) * MINUTE);
    if n == 1 {
      FirstStands(limits, id);
      assert Holding(id, 0) == [] && Holding(id, 1) == [e];
      RunOne(limits, Start(0), e);
    } else {
      HoldingFills(limits, id, n - 1);
      var s := Run(limits, Start(0), Holding(id, n - 1));
      AskStands(limits, s, id, Entry((n - 2) * MINUTE, 1, n - 1), (n - 2) * MINUTE, (n - 1) * MINUTE);
      RunAppend(limits, Start(0), Holding(id, n - 1), [e]);
      RunOne(limits, s, e);
    }
  }

  lemma WithinMore(grants: seq<Grant>, g: Grant, id: string, t: int)
    ensures Within(grants + [g], id, t) == Within(grants, id, t) + if g.id == id && t <= g.at < t + MINUTE then 1 else 0
  {
    assert (grants + [g])[..|grants|] == grants;
  }

  /** A request that is released at once, in the window of its time. */
  lemma PairIsGranted(limits: Limits, s: State, id: string, e: Entry, before: int, now: int, t: int)
    requires Inv(limits, s) && Stands(s, id, e, before) && before <= now && t <= now < t + MINUTE
    requires Admits(limits, InUse(e, now))
    ensures CanRun(limits, s, [Ask(id, now), Return(id)])
    ensures var next, f := Run(limits, s, [Ask(id, now), Return(id)]), InUse(e, now);
            && Inv(limits, next) && Stands(next, id, f.(count := f.count + 1), now)
            && Within(next.grants, id, t) == Within(s.grants, id, t) + 1
  {
    hide Inv, Step, CanRun, Run, Within;
    AskStands(limits, s, id, e, before, now);
    var mid := Step(limits, s, Ask(id, now));
    ReturnStands(limits, mid, id, Asked(limits, InUse(e, now)), now);
    WithinMore(s.grants, Grant(id, now, InUse(e, now).window), id, t);
    RunTwo(limits, s, Ask(id, now), Return(id));
  }

  /** Requests that are released at once, all at one time. */
  function Pairs(id: string, n: nat, now: int): seq<Event> {
    if n == 0 then [] else Pairs(id, n - 1, now) + [Ask(id, now), Return(id)]
  }

  /** As many such requests as the window has left are all granted. */
  lemma {:induction false} PairsAreGranted(limits: Limits, s: State, id: string, e: Entry, now: int, n: nat, t: int)
    requires Inv(limits, s) && Stands(s, id, e, now) && now - e.window < MINUTE
    requires e.active < limits.concurrent && e.count + n <= limits.perMinute && t <= now < t + MINUTE
    ensures CanRun(limits, s, Pairs(id, n, now))
    ensures var next := Run(limits, s, Pairs(id, n, now));
            && Inv(limits, next) && Stands(next, id, e.(count := e.count + n), now)
            && Within(next.grants, id, t) == Within(s.grants, id, t) + n
  {
    hide Inv, Step, CanRun, Run, Within;
    if n == 0 {
      RunNothing(limits, s);
    } else {
      PairsAreGranted(limits, s, id, e, now, n - 1, t);
      var before := Run(limits, s, Pairs(id, n - 1, now));
      var f := e.(count := e.count + n - 1);
      PairIsGranted(limits, before, id, f, now, now, t);
      RunAppend(limits, s, Pairs(id, n - 1, now), [Ask(id, now), Return(id)]);
    }
  }

  /** A request that finds all concurrent ones held opens a window and is refused; then one
      of the others is released. */
  lemma RefusedAndReleased(limits: Limits, s: State, id: string, e: Entry, before: int, now: int)
    requires Inv(limits, s) && Stands(s, id, e, before) && before <= now && now - e.window >= MINUTE
    requires e.active == limits.concurrent >= 1
    ensures CanRun(limits, s, [Ask(id, now), Return(id)])
    ensures var next := Run(limits, s, [Ask(id, now), Return(id)]);
            Inv(limits, next) && Stands(next, id, Entry(now, 0, e.active - 1), now) && next.grants == s.grants
  {
    hide Inv, Step, CanRun, Run;
    AskStands(limits, s, id, e, before, now);
    ReturnStands(limits, Step(limits, s, Ask(id, now)), id, Entry(now, 0, e.active), now);
    RunTwo(limits, s, Ask(id, now), Return(id));
  }

  /** All concurrent requests are held while a refused one opens a window; one is released;
      the window grants all it has at its last instant, and the next one all it has at once. */
  function Burst(limits: Limits, id: string): seq<Event>
    requires limits.perMinute >= 1
  {
    var t := limits.concurrent * MINUTE;
    Holding(id, limits.concurrent) + ([Ask(id, t), Return(id)]
      + (Pairs(id, limits.perMinute, t + MINUTE - 1)
         + ([Ask(id, t + MINUTE), Return(id)] + Pairs(id, limits.perMinute - 1, t + MINUTE))))
  }

  /** The two windows of a burst, from the refused request on. */
  lemma BurstGrants(limits: Limits, s: State, id: string, t: int)
    requires limits.concurrent >= 1 && limits.perMinute >= 1
    requires Inv(limits, s) && Stands(s, id, Entry(t, 0, limits.concurrent - 1), t)
    ensures var p, from := limits.perMinute, t + MINUTE - 1;
            var rest := Pairs(id, p, from) + ([Ask(id, t + MINUTE), Return(id)] + Pairs(id, p - 1, t + MINUTE));
            CanRun(limits, s, rest) && Within(Run(limits, s, rest).grants, id, from) == Within(s.grants, id, from) + 2 * p
  {
    hide Inv, CanRun, Run, Within, Pairs;
    var p, from, held := limits.perMinute, t + MINUTE - 1, limits.concurrent - 1;
    PairsAreGranted(limits, s, id, Entry(t, 0, held), from, p, from);
    var s1 := Run(limits, s, Pairs(id, p, from));
    PairIsGranted(limits, s1, id, Entry(t, p, held), from, t + MINUTE, from);
    var two := [Ask(id, t + MINUTE), Return(id)];
    var s2 := Run(limits, s1, two);
    PairsAreGranted(limits, s2, id, Entry(t + MINUTE, 1, held), t + MINUTE, p - 1, from);
    RunAppend(limits, s1, two, Pairs(id, p - 1, t + MINUTE));
    RunAppend(limits, s, Pairs(id, p, from), two + Pairs(id, p - 1, t + MINUTE));
  }

  lemma {:induction false} NoneWithin(grants: seq<Grant>, id: string, t: int)
    requires forall i :: 0 <= i < |grants| ==> grants[i].at < t
    ensures Within(grants, id, t) == 0
  {
    if grants != [] {
      NoneWithin(grants[..|grants| - 1], id, t);
    }
  }

  /** Whatever the limits, as long as they let anything through, some minute of some run
      grants exactly twice the limit of a window: the bound cannot be lowered. */
  lemma BoundIsReached(limits: Limits, id: string)
    requires limits.concurrent >= 1 && limits.perMinute >= 1
    ensures CanRun(limits, Start(0), Burst(limits, id))
    ensures Within(Run(limits, Start(0), Burst(limits, id)).grants, id, (limits.concurrent + 1) * MINUTE - 1) == 2 * limits.perMinute
  {
    hide CanRun, Run, Within, Pairs, Holding;
    var c, p, t := limits.concurrent, limits.perMinute, limits.concurrent * MINUTE;
    var from, two := t + MINUTE - 1, [Ask(id, t), Return(id)];
    HoldingFills(limits, id, c);
    var s1 := Run(limits, Start(0), Holding(id, c));
    assert forall i :: 0 <= i < |s1.grants| ==> GrantOk(s1, s1.grants[i]);
    NoneWithin(s1.grants, id, from);
    hide Inv;
    RefusedAndReleased(limits, s1, id, Entry((c - 1) * MINUTE, 1, c), (c - 1) * MINUTE, t);
    var s2 := Run(limits, s1, two);
    BurstGrants(limits, s2, id, t);
    var rest := Pairs(id, p, from) + ([Ask(id, t + MINUTE), Return(id)] + Pairs(id, p - 1, t + MINUTE));
    RunAppend(limits, s1, two, rest);
    RunAppend(limits, Start(0), Holding(id, c), two + rest);
  }

  /** No minute of any run grants more than a window may. */
  ghost predicate WindowLimitHolds(limits: Limits) {
    forall clock, events, id, t :: CanRun(limits, Start(clock), events) ==>
      Within(Run(limits, Start(clock), events).grants, id, t) <= limits.perMinute
  }

  lemma {:induction false} NothingGranted(limits: Limits, s: State, events: seq<Event>)
    requires limits.concurrent == 0 && s.grants == []
    ensures Run(limits, s, events).grants == []
    decreases |events|
  {
    hide Current, Acquired;
    if events != [] {
      NothingGranted(limits, Step(limits, s, events[0]), events[1..]);
    }
  }

  /** The limit of a window holds for every minute exactly when the limits let nothing
      through at all. */
  lemma WindowLimitHoldsExactly(limits: Limits)
    ensures WindowLimitHolds(limits) <==> limits.concurrent == 0 || limits.perMinute == 0
  {
    hide CanRun, Run, Within;
    if limits.concurrent == 0 || limits.perMinute == 0 {
      forall clock, events, id, t | CanRun(limits, Start(clock), events)
        ensures Within(Run(limits, Start(clock), events).grants, id, t) <= limits.perMinute
      {
        if limits.concurrent == 0 {
          NothingGranted(limits, Start(clock), events);
          NoneWithin([], id, t);
        } else {
          RateBound(limits, clock, events, id, t);
        }
      }
    } else {
      BoundIsReached(limits, "item");
    }
  }

  /** Over every run, a request is refused only when the item has all its concurrent
      requests in flight or was granted a full window's worth in the minute ending now. */
  lemma RefusedOnlyWhenFull(limits: Limits, clock: int, events: seq<Event>, id: string, now: int)
    requires CanRun(limits, Start(clock), events)
    requires var s := Run(limits, Start(clock), events); now >= s.clock && !Admits(limits, Current(s.table, id, now))
    ensures var s := Run(limits, Start(clock), events);
            s.outstanding[id] == limits.concurrent || Within(s.grants, id, now - MINUTE + 1) >= limits.perMinute
  {
    RunKeeps(limits, Start(clock), events);
    hide Run, CanRun, InWindow, Within;
    var s := Run(limits, Start(clock), events);
    CurrentWindow(limits, s, id, now);
    var w := Current(s.table, id, now).window;
    assert forall i :: 0 <= i < |s.grants| ==> GrantOk(s, s.grants[i]);
    WindowIsWithin(s.grants, id, w, now - MINUTE + 1);
  }

  lemma {:induction false} WindowIsWithin(grants: seq<Grant>, id: string, w: int, t: int)
    requires forall i :: 0 <= i < |grants| && grants[i].id == id && grants[i].window == w ==> t <= grants[i].at < t + MINUTE
    ensures InWindow(grants, id, w) <= Within(grants, id, t)
  {
    if grants != [] {
      WindowIsWithin(grants[..|grants| - 1], id, w, t);
    }
  }

  /** After a request nothing idle is left in the table but possibly what was asked for, and
      every other entry that is left is as it was. */
  lemma NothingIdleIsKept(limits: Limits, t: Table, id: string, now: int, other: string)
    requires other != id
    ensures var after := Acquired(limits, t, id, now);
            && (other in after <==> other in t && (t[other].active > 0 || now < t[other].window + MINUTE))
            && (other in after ==> after[other] == t[other])
  {
  }
}
