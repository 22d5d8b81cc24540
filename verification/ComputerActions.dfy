/** Computer Use actions: normalizing a batch, and dispatching it. */
module ComputerActions {

  import opened Results
  import opened Text

  const MAX_ACTIONS := 32
  const MAX_VALUE := 20000

  datatype Kind =
    | Press | SetValue | Select | Submit | Focus | SelectText
    | PressKey | TypeText | Paste
    | Click | Drag | Scroll
    | Unknown

  function KindOf(name: string): Kind {
    if name == "press" then Press
    else if name == "set_value" then SetValue
    else if name == "select" then Select
    else if name == "submit" then Submit
    else if name == "focus" then Focus
    else if name == "select_text" then SelectText
    else if name == "press_key" then PressKey
    else if name == "type_text" then TypeText
    else if name == "paste" then Paste
    else if name == "click" then Click
    else if name == "drag" then Drag
    else if name == "scroll" then Scroll
    else Unknown
  }

  predicate IsKeyboard(k: Kind) {
    k.PressKey? || k.TypeText? || k.Paste?
  }

  predicate IsSemantic(k: Kind) {
    k.Press? || k.SetValue? || k.Select? || k.Submit? || k.Focus? || k.SelectText?
  }

  predicate IsPointer(k: Kind) {
    k.Click? || k.Drag? || k.Scroll?
  }

  datatype Action = Action(
    name: string,
    elementID: string,
    value: Option<string>,
    key: string,
    modifiers: seq<string>,
    delivery: string,
    x: Option<real>,
    y: Option<real>,
    toX: Option<real>,
    toY: Option<real>,
    button: string,
    clickCount: Option<int>,
    deltaX: Option<int>,
    deltaY: Option<int>)

  // ----- one action

  predicate HasPointerFields(a: Action) {
    || a.delivery != "" || a.x.Some? || a.y.Some? || a.toX.Some? || a.toY.Some?
    || a.button != "" || a.clickCount.Some? || a.deltaX.Some? || a.deltaY.Some?
  }

  predicate Normalized(c: Option<real>) {
    c.Some? && 0.0 <= c.value < 1.0
  }

  predicate IsModifier(m: string) {
    m == "command" || m == "shift" || m == "option" || m == "control"
  }

  predicate ModifiersOk(ms: seq<string>) {
    (forall i :: 0 <= i < |ms| ==> IsModifier(ms[i])) && forall i, j :: 0 <= i < j < |ms| ==> ms[i] != ms[j]
  }

  method CheckModifiers(ms: seq<string>) returns (ok: bool)
    ensures ok == ModifiersOk(ms)
  {
    hide IsModifier;
    var seen: set<string> := {};
    for i := 0 to |ms|
      invariant ModifiersOk(ms[..i]) && forall x :: x in seen <==> x in ms[..i]
    {
      if ms[i] in seen || !IsModifier(ms[i]) {
        return false;
      }
      seen := seen + {ms[i]};
    }
    assert ms[..|ms|] == ms;
    ok := true;
  }

  function NormalizeKeyboard(lower: string -> string, a: Action): Option<Action> {
    if a.elementID != "" || HasPointerFields(a) then None
    else if KindOf(a.name).PressKey? then
      var b := a.(key := lower(a.key));
      if b.key == "" || b.value.Some? || !ModifiersOk(b.modifiers) then None else Some(b)
    else if a.value.None? || a.value.value == "" || |a.value.value| > MAX_VALUE || a.key != "" || a.modifiers != [] then None
    else Some(a)
  }

  function NormalizeSemantic(a: Action): Option<Action> {
    var valued := KindOf(a.name).SetValue? || KindOf(a.name).SelectText?;
    if a.elementID == "" || HasPointerFields(a) then None
    else if valued != a.value.Some? then None
    else if a.value.Some? && |a.value.value| > MAX_VALUE then None
    else Some(a)
  }

  function Defaulted<T>(o: Option<T>, otherwise: T): Option<T> {
    if o.Some? then o else Some(otherwise)
  }

  function NormalizePointer(a: Action): Option<Action> {
    if a.delivery != "" && a.delivery != "foreground" && a.delivery != "background" then None
    else
      var d := if a.delivery == "" then a.(delivery := "background") else a;
      if d.elementID != "" || d.value.Some? || !Normalized(d.x) || !Normalized(d.y) then None
      else match KindOf(d.name)
        case Click =>
          if d.toX.Some? || d.toY.Some? || d.deltaX.Some? || d.deltaY.Some? then None
          else
            var b := d.(button := if d.button == "" then "left" else d.button, clickCount := Defaulted(d.clickCount, 1));
            if b.button != "left" && b.button != "right" then None
            else if b.clickCount.value != 1 && !(b.button == "left" && b.clickCount.value == 2) then None
            else Some(b)
        case Drag =>
          if !Normalized(d.toX) || !Normalized(d.toY) then None
          else if d.button != "" || d.clickCount.Some? || d.deltaX.Some? || d.deltaY.Some? then None
          else Some(d)
        case Scroll =>
          if d.toX.Some? || d.toY.Some? || d.button != "" || d.clickCount.Some? then None
          else
            var b := d.(deltaX := Defaulted(d.deltaX, 0), deltaY := Defaulted(d.deltaY, 0));
            if (b.deltaX.value == 0 && b.deltaY.value == 0) || !(-5000 <= b.deltaX.value <= 5000) || !(-5000 <= b.deltaY.value <= 5000)
            then None else Some(b)
        case _ => None
  }

  function Tidied(a: Action): Action {
    a.(name := Trim(a.name), elementID := Trim(a.elementID), button := Trim(a.button))
  }

  /** One action made canonical, or refused. */
  function NormalizeAction(lower: string -> string, a: Action): Option<Action> {
    var b := Tidied(a);
    if IsKeyboard(KindOf(b.name)) then NormalizeKeyboard(lower, b)
    else if b.key != "" || b.modifiers != [] then None
    else if IsSemantic(KindOf(b.name)) then NormalizeSemantic(b)
    else NormalizePointer(b)
  }

  /** All of a batch made canonical, or none of it. */
  function NormalizeAll(lower: string -> string, actions: seq<Action>): Option<seq<Action>> {
    if 1 <= |actions| <= MAX_ACTIONS && forall i :: 0 <= i < |actions| ==> NormalizeAction(lower, actions[i]).Some?
    then Some(seq(|actions|, i requires 0 <= i < |actions| => NormalizeAction(lower, actions[i]).value))
    else None
  }

  method NormalizeActions(lower: string -> string, actions: seq<Action>) returns (r: Option<seq<Action>>)
    ensures r == NormalizeAll(lower, actions)
  {
    hide NormalizeAction;
    if |actions| < 1 || |actions| > MAX_ACTIONS {
      return None;
    }
    var validated: seq<Action> := [];
    for i := 0 to |actions|
      invariant |validated| == i
      invariant forall j :: 0 <= j < i ==> NormalizeAction(lower, actions[j]) == Some(validated[j])
    {
      var resolved := NormalizeAction(lower, actions[i]);
      if resolved.None? {
        return None;
      }
      validated := validated + [resolved.value];
    }
    assert NormalizeAll(lower, actions).Some?;
    assert validated == NormalizeAll(lower, actions).value;
    r := Some(validated);
  }

  // ----- what a canonical action has

  /** Everything the dispatch of an action reads is there. */
  predicate Complete(a: Action) {
    var k := KindOf(a.name);
    && (IsKeyboard(k) || IsSemantic(k) || IsPointer(k))
    && (IsSemantic(k) ==> a.elementID != "")
    && (IsPointer(k) ==> Normalized(a.x) && Normalized(a.y) && (a.delivery == "foreground" || a.delivery == "background"))
    && (k.Click? ==> a.clickCount.Some? && (a.button == "left" || (a.button == "right" && a.clickCount == Some(1))))
    && (k.Drag? ==> Normalized(a.toX) && Normalized(a.toY))
    && (k.Scroll? ==> a.deltaX.Some? && a.deltaY.Some? && (a.deltaX.value != 0 || a.deltaY.value != 0))
  }

  /** Putting a key in lower case twice is doing it once. */
  ghost predicate Lowers(lower: string -> string) {
    forall s :: lower(lower(s)) == lower(s)
  }

  lemma TidiedTwice(a: Action)
    ensures Tidied(Tidied(a)) == Tidied(a)
  {
    hide Trim, Trimmed;
    TrimIsTrimmed(a.name);
    TrimIsTrimmed(a.elementID);
    TrimIsTrimmed(a.button);
    TrimIsTrimmed(Trim(a.name));
    TrimIsTrimmed(Trim(a.elementID));
    TrimIsTrimmed(Trim(a.button));
  }

  lemma ButtonsAreTrimmed()
    ensures Trim("left") == "left" && Trim("right") == "right" && Trim("") == ""
  {
    TrimIsTrimmed("left");
    TrimIsTrimmed("right");
    TrimIsTrimmed("");
  }

  lemma KeyboardTwice(lower: string -> string, a: Action)
    requires Lowers(lower) && NormalizeKeyboard(lower, a).Some?
    ensures NormalizeKeyboard(lower, NormalizeKeyboard(lower, a).value) == NormalizeKeyboard(lower, a)
    ensures var b := NormalizeKeyboard(lower, a).value; b.(key := a.key) == a
  {
    hide KindOf, ModifiersOk;
  }

  lemma PointerTwice(a: Action)
    requires NormalizePointer(a).Some?
    ensures var b := NormalizePointer(a).value;
            && NormalizePointer(b) == Some(b) && Complete(b)
            && b.name == a.name && b.elementID == "" && b.key == a.key && b.modifiers == a.modifiers
            && (b.button == a.button || b.button == "left")
  {
    hide KindOf;
  }

  /** Normalizing a canonical action changes nothing, and a canonical action is complete. */
  lemma NormalizedTwice(lower: string -> string, a: Action)
    requires Lowers(lower) && NormalizeAction(lower, a).Some?
    ensures var b := NormalizeAction(lower, a).value; NormalizeAction(lower, b) == Some(b) && Complete(b)
  {
    hide KindOf, Trim, NormalizePointer, ModifiersOk;
    TidiedTwice(a);
    ButtonsAreTrimmed();
    var t, b := Tidied(a), NormalizeAction(lower, a).value;
    if IsKeyboard(KindOf(t.name)) {
      KeyboardTwice(lower, t);
    } else if !IsSemantic(KindOf(t.name)) {
      PointerTwice(t);
    }
    assert Tidied(b) == b;
  }

  /** A normalized batch is normalized into itself, and every action of it is complete. */
  lemma BatchNormalizedTwice(lower: string -> string, actions: seq<Action>)
    requires Lowers(lower) && NormalizeAll(lower, actions).Some?
    ensures var b := NormalizeAll(lower, actions).value;
            NormalizeAll(lower, b) == Some(b) && |b| == |actions| && forall i :: 0 <= i < |b| ==> Complete(b[i])
  {
    hide NormalizeAction, Complete;
    var b := NormalizeAll(lower, actions).value;
    forall i | 0 <= i < |b| ensures NormalizeAction(lower, b[i]) == Some(b[i]) && Complete(b[i]) {
      NormalizedTwice(lower, actions[i]);
    }
    assert NormalizeAll(lower, b).value == b;
  }

  // ----- dispatching a batch

  datatype Pointer = Pointer(
    delivery: string,
    action: string,
    x: real,
    y: real,
    toX: Option<real>,
    toY: Option<real>,
    button: string,
    clickCount: int,
    deltaX: Option<int>,
    deltaY: Option<int>)

  /** The pointer's part of an action, defined when it has its coordinates. */
  function PointerInput(a: Action): Pointer
    requires a.x.Some? && a.y.Some?
  {
    Pointer(a.delivery, a.name, a.x.value, a.y.value, a.toX, a.toY, a.button,
            if a.clickCount.Some? then a.clickCount.value else 0, a.deltaX, a.deltaY)
  }

  /** What is asked of the native service. */
  datatype Call =
    | SemanticCall(elementID: string, name: string, value: Option<string>)
    | KeyboardCall(action: Action)
    | PointerCall(pointer: Pointer)

  function CallOf(a: Action): Call
    requires Complete(a)
  {
    var k := KindOf(a.name);
    if IsSemantic(k) then SemanticCall(a.elementID, a.name, a.value)
    else if IsKeyboard(k) then KeyboardCall(a)
    else PointerCall(PointerInput(a))
  }

  /** What the native service says it did. */
  datatype Native = Native(
    completed: bool,
    appID: string,
    elementID: string,
    action: string,
    key: string,
    modifiers: seq<string>,
    delivery: string,
    x: Option<real>,
    y: Option<real>,
    toX: Option<real>,
    toY: Option<real>,
    button: string,
    clickCount: int,
    deltaX: Option<int>,
    deltaY: Option<int>)

  predicate MatchesPointer(n: Native, appID: string, p: Pointer) {
    && n.delivery == p.delivery && n.completed && n.appID == appID && n.elementID == "" && n.action == p.action
    && n.x == Some(p.x) && n.y == Some(p.y)
    && match KindOf(p.action)
       case Click =>
         n.toX.None? && n.toY.None? && n.button == p.button && n.clickCount == p.clickCount && n.deltaX.None? && n.deltaY.None?
       case Drag =>
         && n.toX.Some? && n.toY.Some? && n.toX == p.toX && n.toY == p.toY
         && n.button == "" && n.clickCount == 0 && n.deltaX.None? && n.deltaY.None?
       case Scroll =>
         && n.toX.None? && n.toY.None? && n.button == "" && n.clickCount == 0
         && n.deltaX.Some? && n.deltaY.Some? && n.deltaX == p.deltaX && n.deltaY == p.deltaY
       case _ => false
  }

  predicate Matches(n: Native, appID: string, a: Action)
    requires Complete(a)
  {
    var k := KindOf(a.name);
    if IsKeyboard(k) then
      n.completed && n.appID == appID && n.elementID == "" && n.action == a.name && n.key == a.key && n.modifiers == a.modifiers
    else if IsSemantic(k) then
      n.completed && n.appID == appID && n.elementID == a.elementID && n.action == a.name
    else MatchesPointer(n, appID, PointerInput(a))
  }

  /** The native service: it may answer anything, and remembers what it was asked and what it
      answered. */
  class Service {
    ghost var calls: seq<Call>
    ghost var answers: seq<Option<Native>>

    constructor ()
      ensures calls == [] && answers == []
    {
      calls, answers := [], [];
    }

    method Dispatch(call: Call) returns (r: Option<Native>)
      modifies this
      ensures calls == old(calls) + [call] && answers == old(answers) + [r]
    {
      calls := calls + [call];
      r := *;
      answers := answers + [r];
    }
  }

  datatype Outcome = Outcome(actions: seq<Native>, completedCount: nat, failedIndex: Option<nat>)

  /** The calls the first actions of a batch lead to. */
  function CallsOf(batch: seq<Action>): (calls: seq<Call>)
    requires forall i :: 0 <= i < |batch| ==> Complete(batch[i])
    ensures |calls| == |batch| && forall i :: 0 <= i < |batch| ==> calls[i] == CallOf(batch[i])
  {
    seq(|batch|, i requires 0 <= i < |batch| => CallOf(batch[i]))
  }

  /** The service did what it was asked. */
  predicate Answered(r: Option<Native>, appID: string, a: Action)
    requires Complete(a)
  {
    r.Some? && Matches(r.value, appID, a)
  }

  /** Runs a batch.  A batch that is refused asks nothing of the service.  Otherwise the
      service is asked for the normalized actions, in order, up to the first one before which
      the call was cancelled or that the service did not answer as it should; that one is
      reported, with nothing asked for after it, and the answers before it are handed on. */
  method Act(service: Service, lower: string -> string, appID: string, actions: seq<Action>, cancelled: nat -> bool)
    returns (r: Option<Outcome>)
    requires Lowers(lower)
    modifies service
    ensures r.None? <==> NormalizeAll(lower, actions).None?
    ensures r.None? ==> service.calls == old(service.calls) && service.answers == old(service.answers)
    ensures old(service.answers) <= service.answers
    ensures r.Some? ==>
      var batch, n, answers := NormalizeAll(lower, actions).value, r.value.completedCount, service.answers[|old(service.answers)|..];
      && (forall i :: 0 <= i < |batch| ==> Complete(batch[i]))
      && |r.value.actions| == n <= |batch|
      && r.value.failedIndex == (if n == |batch| then None else Some(n))
      && (forall i :: 0 <= i < n ==>
            !cancelled(i) && i < |answers| && answers[i] == Some(r.value.actions[i]) && Answered(answers[i], appID, batch[i]))
      && if n < |batch| && !cancelled(n)
         then service.calls == old(service.calls) + CallsOf(batch[..n + 1])
              && n < |answers| && !Answered(answers[n], appID, batch[n])
         else service.calls == old(service.calls) + CallsOf(batch[..n])
  {
    hide NormalizeAll, Complete, CallOf, Matches;
    var normalized := NormalizeActions(lower, actions);
    if normalized.None? {
      return None;
    }
    var batch := normalized.value;
    BatchNormalizedTwice(lower, actions);
    var done: seq<Native>, count: nat := [], 0;
    ghost var before := |service.answers|;
    assert CallsOf(batch[..0]) == [];
    for index := 0 to |batch|
      invariant count == |done| == index
      invariant old(service.answers) <= service.answers && |service.answers| == before + index
      invariant forall i :: 0 <= i < index ==>
        !cancelled(i) && service.answers[before + i] == Some(done[i]) && Answered(service.answers[before + i], appID, batch[i])
      invariant service.calls == old(service.calls) + CallsOf(batch[..index])
    {
      if cancelled(index) {
        return Some(Outcome(done, count, Some(index)));
      }
      var native := service.Dispatch(CallOf(batch[index]));
      assert CallsOf(batch[..index + 1]) == CallsOf(batch[..index]) + [CallOf(batch[index])];
      if native.None? {
        return Some(Outcome(done, count, Some(index)));
      }
      if !Matches(native.value, appID, batch[index]) {
        return Some(Outcome(done, count, Some(index)));
      }
      done := done + [native.value];
      count := count + 1;
    }
    r := Some(Outcome(done, count, None));
  }

  // ----- what a call asks for, in terms of the action that was given

  /** No pointer field is given. */
  predicate NoPointer(a: Action) {
    && a.delivery == "" && a.x == a.y == a.toX == a.toY == None
    && Trim(a.button) == "" && a.clickCount == a.deltaX == a.deltaY == None
  }

  predicate Given(c: Option<real>) {
    c.Some? && 0.0 <= c.value && c.value < 1.0
  }

  /** A scroll distance; none counts as 0. */
  function Distance(d: Option<int>): int {
    if d.None? then 0 else d.value
  }

  /** What each kind of action has to come with, and may come with. */
  predicate Acceptable(lower: string -> string, a: Action) {
    match KindOf(Trim(a.name))
    case PressKey =>
      && Trim(a.elementID) == "" && NoPointer(a) && a.value == None && lower(a.key) != ""
      && (forall i :: 0 <= i < |a.modifiers| ==> a.modifiers[i] in {"command", "shift", "option", "control"})
      && (forall i, j :: 0 <= i < j < |a.modifiers| ==> a.modifiers[i] != a.modifiers[j])
    case TypeText => Trim(a.elementID) == "" && NoPointer(a) && a.key == "" && a.modifiers == [] && a.value.Some? && 1 <= |a.value.value| <= 20000
    case Paste => Trim(a.elementID) == "" && NoPointer(a) && a.key == "" && a.modifiers == [] && a.value.Some? && 1 <= |a.value.value| <= 20000
    case SetValue => Trim(a.elementID) != "" && NoPointer(a) && a.key == "" && a.modifiers == [] && a.value.Some? && |a.value.value| <= 20000
    case SelectText => Trim(a.elementID) != "" && NoPointer(a) && a.key == "" && a.modifiers == [] && a.value.Some? && |a.value.value| <= 20000
    case Click =>
      && Trim(a.elementID) == "" && a.value == None && a.key == "" && a.modifiers == [] && a.delivery in {"", "foreground", "background"}
      && Given(a.x) && Given(a.y) && a.toX == a.toY == None && a.deltaX == a.deltaY == None
      && (|| (Trim(a.button) in {"", "left"} && a.clickCount in {None, Some(1), Some(2)})
          || (Trim(a.button) == "right" && a.clickCount in {None, Some(1)}))
    case Drag =>
      && Trim(a.elementID) == "" && a.value == None && a.key == "" && a.modifiers == [] && a.delivery in {"", "foreground", "background"}
      && Given(a.x) && Given(a.y) && Given(a.toX) && Given(a.toY)
      && Trim(a.button) == "" && a.clickCount == None && a.deltaX == a.deltaY == None
    case Scroll =>
      && Trim(a.elementID) == "" && a.value == None && a.key == "" && a.modifiers == [] && a.delivery in {"", "foreground", "background"}
      && Given(a.x) && Given(a.y) && a.toX == a.toY == None && Trim(a.button) == "" && a.clickCount == None
      && (Distance(a.deltaX) != 0 || Distance(a.deltaY) != 0)
      && -5000 <= Distance(a.deltaX) <= 5000 && -5000 <= Distance(a.deltaY) <= 5000
    case Unknown => false
    case _ => Trim(a.elementID) != "" && NoPointer(a) && a.key == "" && a.modifiers == [] && a.value == None
  }

  /** The call an action asks for: everything that was given, as it was given, and only for what
      was left out the default. */
  predicate AsksFor(lower: string -> string, a: Action, call: Call) {
    match call
    case SemanticCall(id, name, value) =>
      IsSemantic(KindOf(Trim(a.name))) && id == Trim(a.elementID) && name == Trim(a.name) && value == a.value
    case KeyboardCall(b) =>
      && IsKeyboard(KindOf(Trim(a.name))) && b.name == Trim(a.name) && b.modifiers == a.modifiers && b.value == a.value
      && (if Trim(a.name) == "press_key" then b.key == lower(a.key) else b.key == a.key)
    case PointerCall(p) =>
      && IsPointer(KindOf(Trim(a.name))) && p.action == Trim(a.name)
      && a.x == Some(p.x) && a.y == Some(p.y) && p.toX == a.toX && p.toY == a.toY
      && p.delivery == (if a.delivery == "" then "background" else a.delivery)
      && (if Trim(a.name) == "click"
          then p.button == (if Trim(a.button) == "" then "left" else Trim(a.button)) && p.clickCount == (if a.clickCount.None? then 1 else a.clickCount.value)
          else p.button == "" && p.clickCount == 0)
      && (if Trim(a.name) == "scroll"
          then p.deltaX == Some(Distance(a.deltaX)) && p.deltaY == Some(Distance(a.deltaY))
          else p.deltaX == p.deltaY == None)
  }

  lemma KindsByName(name: string)
    ensures KindOf(name).PressKey? <==> name == "press_key"
    ensures KindOf(name).Click? <==> name == "click"
    ensures KindOf(name).Scroll? <==> name == "scroll"
  {
  }

  /** Each action is accepted exactly when it has what its kind needs and nothing else. */
  lemma AcceptedExactly(lower: string -> string, a: Action)
    ensures NormalizeAction(lower, a).Some? <==> Acceptable(lower, a)
  {
    hide KindOf, Trim;
    forall i | 0 <= i < |a.modifiers| ensures IsModifier(a.modifiers[i]) <==> a.modifiers[i] in {"command", "shift", "option", "control"} {}
  }

  lemma ActionAsks(lower: string -> string, a: Action)
    requires NormalizeAction(lower, a).Some? && Complete(NormalizeAction(lower, a).value)
    ensures AsksFor(lower, a, CallOf(NormalizeAction(lower, a).value))
  {
    KindsByName(Trim(a.name));
    hide KindOf, Trim, ModifiersOk;
  }

  /** A batch is accepted exactly when it has 1 to 32 actions that are acceptable, and its calls
      ask for what was given. */
  lemma BatchAsksForWhatWasGiven(lower: string -> string, actions: seq<Action>)
    requires Lowers(lower)
    ensures var batch := NormalizeAll(lower, actions);
            && (batch.Some? <==> 1 <= |actions| <= 32 && forall i :: 0 <= i < |actions| ==> Acceptable(lower, actions[i]))
            && (batch.Some? ==>
                  && |batch.value| == |actions|
                  && (forall i :: 0 <= i < |actions| ==> Complete(batch.value[i]))
                  && forall i :: 0 <= i < |actions| ==> AsksFor(lower, actions[i], CallsOf(batch.value)[i]))
  {
    hide NormalizeAction, Acceptable, Complete, AsksFor, CallOf;
    forall i | 0 <= i < |actions| ensures NormalizeAction(lower, actions[i]).Some? <==> Acceptable(lower, actions[i]) {
      AcceptedExactly(lower, actions[i]);
    }
    if NormalizeAll(lower, actions).Some? {
      BatchNormalizedTwice(lower, actions);
      forall i | 0 <= i < |actions| ensures AsksFor(lower, actions[i], CallsOf(NormalizeAll(lower, actions).value)[i]) {
        assert NormalizeAll(lower, actions).value[i] == NormalizeAction(lower, actions[i]).value;
        ActionAsks(lower, actions[i]);
      }
    }
  }

  /** An answer fits a call when it reports it as completed for this application, and repeats
      what the call asked for and nothing else. */
  predicate Repeats(n: Native, appID: string, call: Call) {
    && n.completed && n.appID == appID
    && match call
       case SemanticCall(id, name, _) => n.elementID == id && n.action == name
       case KeyboardCall(b) => n.elementID == "" && n.action == b.name && n.key == b.key && n.modifiers == b.modifiers
       case PointerCall(p) =>
         && n.elementID == "" && n.action == p.action && n.delivery == p.delivery && n.x == Some(p.x) && n.y == Some(p.y)
         && n.toX == p.toX && n.toY == p.toY && n.button == p.button && n.clickCount == p.clickCount
         && n.deltaX == p.deltaX && n.deltaY == p.deltaY
  }

  /** The answers that count as success are exactly those that repeat their call. */
  lemma AnsweredExactly(lower: string -> string, a: Action, n: Native, appID: string)
    requires NormalizeAction(lower, a).Some? && Complete(NormalizeAction(lower, a).value)
    ensures var b := NormalizeAction(lower, a).value;
            Answered(Some(n), appID, b) <==> Repeats(n, appID, CallOf(b))
  {
    hide KindOf, Trim, ModifiersOk;
  }
}
