/** The per-group lifecycle lock: a mutex, a map from session group to a channel that is
    closed on release, and a retry loop.

    The steps of any number of callers interleave.  Inside the mutex the steps are still
    separate, because closing a channel is seen by waiters that do not hold the mutex. */
module LifecycleLock {

  import opened Results

  type Caller = nat
  type Channel = nat

  /** Where a caller is; phases marked (m) hold the mutex. */
  datatype Phase =
    | Arriving(session: string)
    | Resolving(session: string)                // past the first cancellation check
    | Retrying(group: string)                   // at the top of the loop
    | Locking(group: string)                    // past the cancellation check
    | Entered(group: string)                    // (m) about to look at the map
    | Created(group: string, ch: Channel)       // (m) has put its own channel there
    | Found(group: string, ch: Channel)         // (m) has found another's channel
    | Waiting(group: string, ch: Channel)
    | Holding(group: string, ch: Channel)
    | Releasing(group: string, ch: Channel)     // (m) about to delete its entry
    | Removed(group: string, ch: Channel)       // (m) about to close its channel
    | Closed(group: string, ch: Channel)        // (m) about to leave
    | Done
    | Failed

  /** `makers` lists who made each channel so far, in order; `sessions` is the session each
      caller came with. */
  datatype World = World(
    mutex: Option<Caller>,
    table: map<string, Channel>,
    makers: seq<Caller>,
    closed: set<Channel>,
    cancelled: set<Caller>,
    callers: map<Caller, Phase>,
    sessions: map<Caller, string>)

  datatype Action =
    | Call(c: Caller, session: string)
    | Cancel(c: Caller)
    | Resolve(c: Caller)       // look the parent up
    | Fail(c: Caller)          // the parent cannot be looked up
    | Check(c: Caller)         // look for cancellation
    | Lock(c: Caller)
    | Look(c: Caller)
    | Leave(c: Caller)         // unlock the mutex
    | Wake(c: Caller)
    | GiveUp(c: Caller)        // cancelled while waiting
    | BeginRelease(c: Caller)
    | Delete(c: Caller)
    | Close(c: Caller)

  /** A session's group is its parent's, or its own when it has no parent. */
  function Group(parent: string -> string, session: string): string {
    if parent(session) != "" then parent(session) else session
  }

  predicate Is(w: World, c: Caller) {
    c in w.callers
  }

  predicate Enabled(w: World, a: Action) {
    match a
    case Call(c, _) => c !in w.callers
    case Cancel(c) => true
    case Resolve(c) => Is(w, c) && w.callers[c].Resolving?
    case Fail(c) => Is(w, c) && w.callers[c].Resolving?
    case Check(c) => Is(w, c) && (w.callers[c].Arriving? || w.callers[c].Retrying?)
    case Lock(c) => Is(w, c) && w.callers[c].Locking? && w.mutex.None?
    case Look(c) => Is(w, c) && w.callers[c].Entered?
    case Leave(c) => Is(w, c) && (w.callers[c].Created? || w.callers[c].Found? || w.callers[c].Closed?)
    case Wake(c) => Is(w, c) && w.callers[c].Waiting? && w.callers[c].ch in w.closed
    case GiveUp(c) => Is(w, c) && w.callers[c].Waiting? && c in w.cancelled
    case BeginRelease(c) => Is(w, c) && w.callers[c].Holding? && w.mutex.None?
    case Delete(c) => Is(w, c) && w.callers[c].Releasing?
    case Close(c) => Is(w, c) && w.callers[c].Removed?
  }

  function Move(w: World, c: Caller, p: Phase): World {
    w.(callers := w.callers[c := p])
  }

  function Step(parent: string -> string, w: World, a: Action): World
    requires Enabled(w, a)
  {
    match a
    case Call(c, session) => Move(w, c, Arriving(session)).(sessions := w.sessions[c := session])
    case Cancel(c) => w.(cancelled := w.cancelled + {c})
    case Resolve(c) => Move(w, c, Retrying(Group(parent, w.callers[c].session)))
    case Fail(c) => Move(w, c, Failed)
    case Check(c) =>
      Move(w, c, if c in w.cancelled then Failed
                 else if w.callers[c].Arriving? then Resolving(w.callers[c].session)
                 else Locking(w.callers[c].group))
    case Lock(c) => Move(w, c, Entered(w.callers[c].group)).(mutex := Some(c))
    case Look(c) =>
      var g := w.callers[c].group;
      if g in w.table then Move(w, c, Found(g, w.table[g]))
      else
        var ch := |w.makers|;
        Move(w, c, Created(g, ch)).(table := w.table[g := ch], makers := w.makers + [c])
    case Leave(c) =>
      var p := w.callers[c];
      var next := match p case Created(g, ch) => Holding(g, ch) case Found(g, ch) => Waiting(g, ch) case _ => Done;
      Move(w, c, next).(mutex := None)
    case Wake(c) => Move(w, c, Retrying(w.callers[c].group))
    case GiveUp(c) => Move(w, c, Failed)
    case BeginRelease(c) => Move(w, c, Releasing(w.callers[c].group, w.callers[c].ch)).(mutex := Some(c))
    case Delete(c) =>
      Move(w, c, Removed(w.callers[c].group, w.callers[c].ch)).(table := w.table - {w.callers[c].group})
    case Close(c) =>
      Move(w, c, Closed(w.callers[c].group, w.callers[c].ch)).(closed := w.closed + {w.callers[c].ch})
  }

  const START := World(None, map[], [], {}, {}, map[], map[])

  ghost predicate CanRun(parent: string -> string, w: World, actions: seq<Action>)
    decreases |actions|
  {
    actions == [] || (Enabled(w, actions[0]) && CanRun(parent, Step(parent, w, actions[0]), actions[1..]))
  }

  ghost function Run(parent: string -> string, w: World, actions: seq<Action>): World
    requires CanRun(parent, w, actions)
    decreases |actions|
  {
    if actions == [] then w else Run(parent, Step(parent, w, actions[0]), actions[1..])
  }

  // ----- the invariant

  predicate InMutex(p: Phase) {
    p.Entered? || p.Created? || p.Found? || p.Releasing? || p.Removed? || p.Closed?
  }

  /** The caller has the group: its channel is the group's entry. */
  predicate Owns(p: Phase, g: string, ch: Channel) {
    p == Created(g, ch) || p == Holding(g, ch) || p == Releasing(g, ch)
  }

  /** Whoever is inside the mutex has it. */
  predicate InsideOk(w: World, c: Caller) {
    c in w.callers && InMutex(w.callers[c]) ==> w.mutex == Some(c)
  }

  /** An entry belongs to the maker of its channel, who owns the group. */
  predicate EntryOk(w: World, g: string) {
    g in w.table ==>
      && w.table[g] < |w.makers|
      && w.makers[w.table[g]] in w.callers
      && Owns(w.callers[w.makers[w.table[g]]], g, w.table[g])
  }

  /** An owner made the channel, which is open and is the group's entry until deleted. */
  predicate OwnerOk(w: World, c: Caller) {
    c in w.callers ==>
      var p := w.callers[c];
      && ((p.Created? || p.Holding? || p.Releasing?) ==>
            p.ch < |w.makers| && w.makers[p.ch] == c && p.ch !in w.closed && p.group in w.table && w.table[p.group] == p.ch)
      && (p.Removed? ==>
            p.ch < |w.makers| && w.makers[p.ch] == c && p.ch !in w.closed && p.group !in w.table)
  }

  /** The channel somebody waits for is closed, or is the group's entry, or is the one the
      mutex holder is about to close. */
  predicate WaiterOk(w: World, c: Caller) {
    c in w.callers && (w.callers[c].Waiting? || w.callers[c].Found?) ==>
      var p := w.callers[c];
      && p.ch < |w.makers|
      && (|| p.ch in w.closed
          || (p.group in w.table && w.table[p.group] == p.ch)
          || (w.mutex.Some? && w.mutex.value in w.callers && w.callers[w.mutex.value] == Removed(p.group, p.ch)))
  }

  ghost predicate Inv(w: World) {
    && (w.mutex.Some? ==> w.mutex.value in w.callers && InMutex(w.callers[w.mutex.value]))
    && (forall c :: InsideOk(w, c))
    && (forall g :: EntryOk(w, g))
    && (forall c :: OwnerOk(w, c))
    && (forall c :: WaiterOk(w, c))
    && (forall ch :: ch in w.closed ==> ch < |w.makers|)
  }

  /** Outside the mutex a caller only changes its own place. */
  predicate Quiet(p: Phase) {
    !InMutex(p) && !p.Holding?
  }

  lemma QuietMove(w: World, c: Caller, p: Phase)
    requires Inv(w) && (c in w.callers ==> Quiet(w.callers[c])) && Quiet(p) && !p.Waiting?
    ensures Inv(Move(w, c, p))
  {
    var next := Move(w, c, p);
    forall d ensures InsideOk(next, d) { assert InsideOk(w, d); }
    forall d ensures OwnerOk(next, d) { assert OwnerOk(w, d); }
    forall d ensures WaiterOk(next, d) { assert WaiterOk(w, d); }
    forall g ensures EntryOk(next, g) { assert EntryOk(w, g); }
  }

  /** Taking the mutex, from outside it. */
  lemma TakeMutex(w: World, c: Caller, p: Phase)
    requires Inv(w) && w.mutex.None? && c in w.callers
    requires (w.callers[c].Locking? && p.Entered?) ||
             (w.callers[c].Holding? && p == Releasing(w.callers[c].group, w.callers[c].ch))
    ensures Inv(Move(w, c, p).(mutex := Some(c)))
  {
    var next := Move(w, c, p).(mutex := Some(c));
    forall d ensures InsideOk(next, d) { assert InsideOk(w, d); }
    forall d ensures OwnerOk(next, d) { assert OwnerOk(w, d); }
    forall d ensures WaiterOk(next, d) { assert WaiterOk(w, d); }
    forall g ensures EntryOk(next, g) { assert EntryOk(w, g) && OwnerOk(w, c); }
  }

  /** Looking at the map, inside the mutex: an entry is found, or a new channel put there. */
  lemma LookKeeps(parent: string -> string, w: World, c: Caller)
    requires Inv(w) && Enabled(w, Look(c))
    ensures Inv(Step(parent, w, Look(c)))
  {
    var next := Step(parent, w, Look(c));
    assert InsideOk(w, c) && EntryOk(w, w.callers[c].group);
    forall d ensures InsideOk(next, d) { assert InsideOk(w, d); }
    forall d ensures OwnerOk(next, d) { assert OwnerOk(w, d) && InsideOk(w, d); }
    forall d ensures WaiterOk(next, d) { assert WaiterOk(w, d); }
    forall g ensures EntryOk(next, g) { assert EntryOk(w, g); }
  }

  /** Leaving the mutex. */
  lemma LeaveKeeps(parent: string -> string, w: World, c: Caller)
    requires Inv(w) && Enabled(w, Leave(c))
    ensures Inv(Step(parent, w, Leave(c)))
  {
    var next := Step(parent, w, Leave(c));
    assert InsideOk(w, c);
    forall d ensures InsideOk(next, d) { assert InsideOk(w, d); }
    forall d ensures OwnerOk(next, d) { assert OwnerOk(w, d); }
    forall d ensures WaiterOk(next, d) { assert WaiterOk(w, d) && WaiterOk(w, c); }
    forall g ensures EntryOk(next, g) { assert EntryOk(w, g) && OwnerOk(w, c); }
  }

  /** First half of a release: the entry goes. */
  lemma DeleteKeeps(parent: string -> string, w: World, c: Caller)
    requires Inv(w) && Enabled(w, Delete(c))
    ensures Inv(Step(parent, w, Delete(c)))
  {
    var next := Step(parent, w, Delete(c));
    assert InsideOk(w, c) && OwnerOk(w, c);
    forall d ensures InsideOk(next, d) { assert InsideOk(w, d); }
    forall d ensures OwnerOk(next, d) { assert OwnerOk(w, d); }
    forall d ensures WaiterOk(next, d) { assert WaiterOk(w, d); }
    forall g ensures EntryOk(next, g) { assert EntryOk(w, g); }
  }

  /** Second half: the channel is closed. */
  lemma CloseKeeps(parent: string -> string, w: World, c: Caller)
    requires Inv(w) && Enabled(w, Close(c))
    ensures Inv(Step(parent, w, Close(c)))
  {
    var next := Step(parent, w, Close(c));
    assert InsideOk(w, c) && OwnerOk(w, c);
    forall d ensures InsideOk(next, d) { assert InsideOk(w, d); }
    forall d ensures OwnerOk(next, d) { assert OwnerOk(w, d); }
    forall d ensures WaiterOk(next, d) { assert WaiterOk(w, d); }
    forall g ensures EntryOk(next, g) { assert EntryOk(w, g); }
  }

  lemma StepKeeps(parent: string -> string, w: World, a: Action)
    requires Inv(w) && Enabled(w, a)
    ensures Inv(Step(parent, w, a))
  {
    hide Inv;
    match a
    case Call(c, session) => CallKeeps(w, c, session);
    case Cancel(c) => CancelKeeps(w, c);
    case Resolve(c) => QuietMove(w, c, Retrying(Group(parent, w.callers[c].session)));
    case Fail(c) => QuietMove(w, c, Failed);
    case Check(c) =>
      QuietMove(w, c, if c in w.cancelled then Failed
                      else if w.callers[c].Arriving? then Resolving(w.callers[c].session)
                      else Locking(w.callers[c].group));
    case Lock(c) => TakeMutex(w, c, Entered(w.callers[c].group));
    case Look(c) => LookKeeps(parent, w, c);
    case Leave(c) => LeaveKeeps(parent, w, c);
    case Wake(c) => QuietMove(w, c, Retrying(w.callers[c].group));
    case GiveUp(c) => QuietMove(w, c, Failed);
    case BeginRelease(c) => TakeMutex(w, c, Releasing(w.callers[c].group, w.callers[c].ch));
    case Delete(c) => DeleteKeeps(parent, w, c);
    case Close(c) => CloseKeeps(parent, w, c);
  }

  lemma CallKeeps(w: World, c: Caller, session: string)
    requires Inv(w) && c !in w.callers
    ensures Inv(Move(w, c, Arriving(session)).(sessions := w.sessions[c := session]))
  {
    var before := Move(w, c, Arriving(session));
    var next := before.(sessions := w.sessions[c := session]);
    QuietMove(w, c, Arriving(session));
    forall d ensures InsideOk(next, d) { assert InsideOk(before, d); }
    forall d ensures OwnerOk(next, d) { assert OwnerOk(before, d); }
    forall d ensures WaiterOk(next, d) { assert WaiterOk(before, d); }
    forall g ensures EntryOk(next, g) { assert EntryOk(before, g); }
  }

  lemma CancelKeeps(w: World, c: Caller)
    requires Inv(w)
    ensures Inv(w.(cancelled := w.cancelled + {c}))
  {
    var next := w.(cancelled := w.cancelled + {c});
    forall d ensures InsideOk(next, d) { assert InsideOk(w, d); }
    forall d ensures OwnerOk(next, d) { assert OwnerOk(w, d); }
    forall d ensures WaiterOk(next, d) { assert WaiterOk(w, d); }
    forall g ensures EntryOk(next, g) { assert EntryOk(w, g); }
  }

  lemma {:induction false} RunKeeps(parent: string -> string, w: World, actions: seq<Action>)
    requires Inv(w) && CanRun(parent, w, actions)
    ensures Inv(Run(parent, w, actions))
    decreases |actions|
  {
    hide Inv, Enabled, Step;
    if actions != [] {
      StepKeeps(parent, w, actions[0]);
      RunKeeps(parent, Step(parent, w, actions[0]), actions[1..]);
    }
  }

  // ----- what that means

  /** The caller is between getting the group and giving it up. */
  predicate Has(w: World, c: Caller, g: string) {
    c in w.callers && (w.callers[c].Created? || w.callers[c].Holding? || w.callers[c].Releasing?) && w.callers[c].group == g
  }

  /** Over every run, no two callers have one group. */
  lemma MutualExclusion(parent: string -> string, actions: seq<Action>, c: Caller, d: Caller, g: string)
    requires CanRun(parent, START, actions)
    requires Has(Run(parent, START, actions), c, g) && Has(Run(parent, START, actions), d, g)
    ensures c == d
  {
    RunKeeps(parent, START, actions);
    hide Run, CanRun;
    var w := Run(parent, START, actions);
    assert OwnerOk(w, c) && OwnerOk(w, d);
  }

  /** Over every run, a group has an entry exactly while some caller has the group. */
  lemma EntryWhileHeld(parent: string -> string, actions: seq<Action>, g: string)
    requires CanRun(parent, START, actions)
    ensures var w := Run(parent, START, actions); g in w.table <==> exists c :: Has(w, c, g)
  {
    RunKeeps(parent, START, actions);
    hide Run, CanRun;
    var w := Run(parent, START, actions);
    if g in w.table {
      assert EntryOk(w, g);
      assert Has(w, w.makers[w.table[g]], g);
    }
    if c :| Has(w, c, g) {
      assert OwnerOk(w, c);
    }
  }

  /** Over every run, the channel a caller waits for is closed, or is the channel of the
      caller that has the group, or is the one the mutex holder closes in its next step. */
  lemma NoLostWakeup(parent: string -> string, actions: seq<Action>, c: Caller)
    requires CanRun(parent, START, actions)
    requires var w := Run(parent, START, actions); c in w.callers && w.callers[c].Waiting?
    ensures var w := Run(parent, START, actions);
            var p := w.callers[c];
            || p.ch in w.closed
            || (exists d :: Has(w, d, p.group) && w.callers[d].ch == p.ch)
            || (exists d :: w.mutex == Some(d) && d in w.callers && w.callers[d] == Removed(p.group, p.ch))
  {
    RunKeeps(parent, START, actions);
    hide Run, CanRun;
    var w := Run(parent, START, actions);
    var p := w.callers[c];
    assert WaiterOk(w, c);
    if p.group in w.table && w.table[p.group] == p.ch {
      assert EntryOk(w, p.group);
      assert Has(w, w.makers[p.ch], p.group);
    }
  }

  /** Over every run, a caller that failed, by cancellation or otherwise, made none of the
      channels in the map and does not have the mutex. */
  lemma FailedHoldsNothing(parent: string -> string, actions: seq<Action>, c: Caller)
    requires CanRun(parent, START, actions)
    requires var w := Run(parent, START, actions); c in w.callers && w.callers[c].Failed?
    ensures var w := Run(parent, START, actions);
            w.mutex != Some(c) &&
            forall g :: g in w.table ==> w.table[g] < |w.makers| && w.makers[w.table[g]] != c
  {
    RunKeeps(parent, START, actions);
    hide Run, CanRun;
    var w := Run(parent, START, actions);
    forall g | g in w.table ensures w.table[g] < |w.makers| && w.makers[w.table[g]] != c {
      assert EntryOk(w, g);
    }
  }

  /** Somebody other than the environment can take a step. */
  predicate CanAct(w: World, c: Caller) {
    || Enabled(w, Resolve(c)) || Enabled(w, Check(c)) || Enabled(w, Lock(c)) || Enabled(w, Look(c))
    || Enabled(w, Leave(c)) || Enabled(w, Wake(c)) || Enabled(w, BeginRelease(c)) || Enabled(w, Delete(c))
    || Enabled(w, Close(c))
  }

  /** The mutex is never kept: whoever is inside it has a next step. */
  lemma InsideCanAct(w: World, c: Caller)
    requires c in w.callers && InMutex(w.callers[c])
    ensures CanAct(w, c)
  {
    match w.callers[c]
    case Entered(_) => assert Enabled(w, Look(c));
    case Created(_, _) => assert Enabled(w, Leave(c));
    case Found(_, _) => assert Enabled(w, Leave(c));
    case Closed(_, _) => assert Enabled(w, Leave(c));
    case Releasing(_, _) => assert Enabled(w, Delete(c));
    case Removed(_, _) => assert Enabled(w, Close(c));
  }

  /** With the mutex free, only an open channel can hold a caller up. */
  lemma OutsideCanAct(w: World, c: Caller)
    requires w.mutex.None? && c in w.callers && !InMutex(w.callers[c])
    requires !w.callers[c].Done? && !w.callers[c].Failed?
    requires w.callers[c].Waiting? ==> w.callers[c].ch in w.closed
    ensures CanAct(w, c)
  {
    match w.callers[c]
    case Arriving(_) => assert Enabled(w, Check(c));
    case Resolving(_) => assert Enabled(w, Resolve(c));
    case Retrying(_) => assert Enabled(w, Check(c));
    case Locking(_) => assert Enabled(w, Lock(c));
    case Waiting(_, _) => assert Enabled(w, Wake(c));
    case Holding(_, _) => assert Enabled(w, BeginRelease(c));
  }

  /** Over every run, as long as some caller is neither done nor failed, some caller can
      take its next step: waiting never becomes a deadlock. */
  lemma NoDeadlock(parent: string -> string, actions: seq<Action>, c: Caller) returns (d: Caller)
    requires CanRun(parent, START, actions)
    requires var w := Run(parent, START, actions); c in w.callers && !w.callers[c].Done? && !w.callers[c].Failed?
    ensures CanAct(Run(parent, START, actions), d)
  {
    RunKeeps(parent, START, actions);
    hide Run, CanRun, CanAct, Enabled;
    var w := Run(parent, START, actions);
    assert InsideOk(w, c) && WaiterOk(w, c);
    if w.mutex.Some? {
      d := w.mutex.value;
      InsideCanAct(w, d);
    } else if w.callers[c].Waiting? && w.callers[c].ch !in w.closed {
      assert EntryOk(w, w.callers[c].group);
      d := w.makers[w.callers[c].ch];
      assert InsideOk(w, d);
      OutsideCanAct(w, d);
    } else {
      d := c;
      OutsideCanAct(w, d);
    }
  }
}
