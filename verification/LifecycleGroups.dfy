/** What the lifecycle lock means for sessions: a session, its parent and its siblings exclude
    each other, and nobody else; a cancelled caller never gets in. */
module LifecycleGroups {

  import opened Results
  import opened LifecycleLock

  // ----- which sessions share a lock

  /** A parent has no parent of its own. */
  ghost predicate OneLevel(parent: string -> string) {
    forall s :: parent(s) != "" ==> parent(parent(s)) == ""
  }

  /** The same session, parent and child, or two children of one parent. */
  predicate Family(parent: string -> string, s: string, t: string) {
    || s == t
    || (parent(s) != "" && parent(s) == t)
    || (parent(t) != "" && parent(t) == s)
    || (parent(s) != "" && parent(s) == parent(t))
  }

  /** The caller came with the session, and has got what it waits for and not given it up. */
  predicate HasFor(w: World, c: Caller, s: string) {
    && c in w.callers && c in w.sessions && w.sessions[c] == s
    && (w.callers[c].Created? || w.callers[c].Holding? || w.callers[c].Releasing?)
  }

  /** Where a caller is agrees with the session it came with. */
  predicate CameWith(parent: string -> string, w: World, c: Caller) {
    && (c in w.callers <==> c in w.sessions)
    && (c in w.callers ==>
          match w.callers[c]
          case Arriving(s) => s == w.sessions[c]
          case Resolving(s) => s == w.sessions[c]
          case Done => true
          case Failed => true
          case p => p.group == Group(parent, w.sessions[c]))
  }

  lemma StepKeepsSessions(parent: string -> string, w: World, a: Action)
    requires Enabled(w, a) && forall c :: CameWith(parent, w, c)
    ensures forall c :: CameWith(parent, Step(parent, w, a), c)
  {
    hide Group;
    forall c ensures CameWith(parent, Step(parent, w, a), c) {
      assert CameWith(parent, w, c);
    }
  }

  lemma {:induction false} RunKeepsSessions(parent: string -> string, w: World, actions: seq<Action>)
    requires CanRun(parent, w, actions) && forall c :: CameWith(parent, w, c)
    ensures forall c :: CameWith(parent, Run(parent, w, actions), c)
    decreases |actions|
  {
    hide Enabled, Step, CameWith;
    if actions != [] {
      StepKeepsSessions(parent, w, actions[0]);
      RunKeepsSessions(parent, Step(parent, w, actions[0]), actions[1..]);
    }
  }

  /** Over every run, of two sessions of a family only one is held, by one caller. */
  lemma FamilyExcludes(parent: string -> string, actions: seq<Action>, c: Caller, d: Caller, s: string, t: string)
    requires OneLevel(parent) && Family(parent, s, t) && CanRun(parent, START, actions)
    requires HasFor(Run(parent, START, actions), c, s) && HasFor(Run(parent, START, actions), d, t)
    ensures c == d
  {
    forall e ensures CameWith(parent, START, e) {}
    RunKeepsSessions(parent, START, actions);
    var w := Run(parent, START, actions);
    assert CameWith(parent, w, c) && CameWith(parent, w, d);
    hide Run, CanRun;
    MutualExclusion(parent, actions, c, d, w.callers[c].group);
  }

  // ----- and which do not

  lemma {:induction false} RunAppend(parent: string -> string, w: World, xs: seq<Action>, ys: seq<Action>)
    requires CanRun(parent, w, xs) && CanRun(parent, Run(parent, w, xs), ys)
    ensures CanRun(parent, w, xs + ys) && Run(parent, w, xs + ys) == Run(parent, Run(parent, w, xs), ys)
    decreases |xs|
  {
    hide Enabled, Step;
    if xs == [] {
      assert xs + ys == ys;
    } else {
      RunAppend(parent, Step(parent, w, xs[0]), xs[1..], ys);
      assert (xs + ys)[1..] == xs[1..] + ys;
    }
  }

  lemma RunOne(parent: string -> string, w: World, a: Action)
    requires Enabled(w, a)
    ensures CanRun(parent, w, [a]) && Run(parent, w, [a]) == Step(parent, w, a)
  {
    assert [a][1..] == [];
  }

  lemma RunMore(parent: string -> string, w: World, xs: seq<Action>, a: Action)
    requires CanRun(parent, w, xs) && Enabled(Run(parent, w, xs), a)
    ensures CanRun(parent, w, xs + [a]) && Run(parent, w, xs + [a]) == Step(parent, Run(parent, w, xs), a)
  {
    hide Enabled, Step, Run, CanRun;
    RunOne(parent, Run(parent, w, xs), a);
    RunAppend(parent, w, xs, [a]);
  }

  /** A caller that comes while its group is free, and runs undisturbed, gets it. */
  lemma Undisturbed(parent: string -> string, w: World, xs: seq<Action>, c: Caller, s: string) returns (ys: seq<Action>)
    requires CanRun(parent, w, xs)
    requires var v := Run(parent, w, xs); v.mutex.None? && c !in v.callers && c !in v.cancelled && Group(parent, s) !in v.table
    ensures CanRun(parent, w, ys)
    ensures var v, g := Run(parent, w, xs), Group(parent, s);
            Run(parent, w, ys) == v.(table := v.table[g := |v.makers|], makers := v.makers + [c],
                                     callers := v.callers[c := Holding(g, |v.makers|)], sessions := v.sessions[c := s])
  {
    hide Group, CanRun, Run;
    ys := xs;
    RunMore(parent, w, ys, Call(c, s)); ys := ys + [Call(c, s)];
    RunMore(parent, w, ys, Check(c)); ys := ys + [Check(c)];
    RunMore(parent, w, ys, Resolve(c)); ys := ys + [Resolve(c)];
    RunMore(parent, w, ys, Check(c)); ys := ys + [Check(c)];
    RunMore(parent, w, ys, Lock(c)); ys := ys + [Lock(c)];
    RunMore(parent, w, ys, Look(c)); ys := ys + [Look(c)];
    RunMore(parent, w, ys, Leave(c)); ys := ys + [Leave(c)];
  }

  /** Callers of sessions that are no family can hold at the same time. */
  lemma StrangersHoldTogether(parent: string -> string, s: string, t: string) returns (actions: seq<Action>)
    requires !Family(parent, s, t)
    ensures CanRun(parent, START, actions)
    ensures HasFor(Run(parent, START, actions), 0, s) && HasFor(Run(parent, START, actions), 1, t)
  {
    assert Group(parent, s) != Group(parent, t);
    hide Group, CanRun, Family;
    var one := Undisturbed(parent, START, [], 0, s);
    actions := Undisturbed(parent, START, one, 1, t);
  }

  ghost predicate TwoHold(parent: string -> string, actions: seq<Action>, s: string, t: string) {
    CanRun(parent, START, actions) &&
    exists c, d :: c != d && HasFor(Run(parent, START, actions), c, s) && HasFor(Run(parent, START, actions), d, t)
  }

  /** Two callers can hold at the same time if and only if their sessions are no family. */
  lemma HoldTogetherExactly(parent: string -> string, s: string, t: string)
    requires OneLevel(parent)
    ensures (exists actions :: TwoHold(parent, actions, s, t)) <==> !Family(parent, s, t)
  {
    if Family(parent, s, t) {
      forall actions ensures !TwoHold(parent, actions, s, t) {
        if TwoHold(parent, actions, s, t) {
          var c, d :| c != d && HasFor(Run(parent, START, actions), c, s) && HasFor(Run(parent, START, actions), d, t);
          FamilyExcludes(parent, actions, c, d, s, t);
        }
      }
    } else {
      var actions := StrangersHoldTogether(parent, s, t);
      assert TwoHold(parent, actions, s, t);
    }
  }

  // ----- cancellation

  /** Cancelled before it passed its last check. */
  predicate Doomed(w: World, c: Caller) {
    && c in w.cancelled
    && (c in w.callers ==>
          var p := w.callers[c];
          p.Arriving? || p.Resolving? || p.Retrying? || p.Found? || p.Waiting? || p.Failed?)
  }

  lemma StepDooms(parent: string -> string, w: World, a: Action, c: Caller)
    requires Enabled(w, a) && Doomed(w, c)
    ensures Doomed(Step(parent, w, a), c)
  {
    hide Group;
  }

  /** Once cancelled on its way to the lock, in no continuation does a caller get it. */
  lemma {:induction false} CancelledNeverHolds(parent: string -> string, w: World, actions: seq<Action>, c: Caller)
    requires CanRun(parent, w, actions) && Doomed(w, c)
    ensures Doomed(Run(parent, w, actions), c) && forall s :: !HasFor(Run(parent, w, actions), c, s)
    decreases |actions|
  {
    hide Enabled, Step;
    if actions != [] {
      StepDooms(parent, w, actions[0], c);
      hide Doomed;
      CancelledNeverHolds(parent, Step(parent, w, actions[0]), actions[1..], c);
    }
  }

  /** A cancelled caller need not wait for anybody: it can go on to fail on its own. */
  lemma CancelledCanFail(parent: string -> string, w: World, c: Caller) returns (own: seq<Action>)
    requires Doomed(w, c) && c in w.callers && !w.callers[c].Found?
    ensures |own| <= 2 && (forall i :: 0 <= i < |own| ==> own[i] in {Check(c), Resolve(c), GiveUp(c)})
    ensures CanRun(parent, w, own) && c in Run(parent, w, own).callers && Run(parent, w, own).callers[c].Failed?
  {
    hide CanRun, Run, Group;
    match w.callers[c]
    case Resolving(_) =>
      own := [Resolve(c)] + [Check(c)];
      RunOne(parent, w, Resolve(c));
      RunMore(parent, w, [Resolve(c)], Check(c));
    case Waiting(_, _) =>
      own := [GiveUp(c)];
      RunOne(parent, w, GiveUp(c));
    case Failed =>
      own := [];
      NoSteps(parent, w);
    case _ =>
      own := [Check(c)];
      RunOne(parent, w, Check(c));
  }

  lemma NoSteps(parent: string -> string, w: World)
    ensures CanRun(parent, w, []) && Run(parent, w, []) == w
  {
  }
}
