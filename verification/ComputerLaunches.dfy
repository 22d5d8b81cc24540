/** Which session may quit which application: the launch records of Computer Use. */
module ComputerLaunches {

  import opened Results
  import opened Text

  datatype Launch = Launch(launchID: string, appID: string, name: string, pid: int)

  datatype Window = Window(windowID: nat, pid: int, appID: Option<string>, width: real, height: real)

  datatype Failure = Failure(code: string, message: string)

  /** What was found out about the windows of an application. */
  datatype Discovery = Discovery(status: string, failure: Option<Failure>, windows: seq<Window>)

  datatype NativeUse = NativeUse(appID: string, name: string, pid: int, newlyLaunched: bool, found: Discovery)

  datatype NativeQuit = NativeQuit(appID: string, pid: int, closed: bool)

  datatype UseResult = UseResult(launchID: Option<string>, appID: string, name: string, pid: int, found: Discovery)

  datatype QuitResult = QuitResult(launch: Launch, closed: bool)

  /** Windows are listed exactly when they were found, and a failure is named exactly when it
      is one. */
  predicate ValidDiscovery(d: Discovery) {
    || (d.status == "ready" && d.windows != [] && d.failure.None?)
    || (d.status == "none" && d.windows == [] && d.failure.None?)
    || (d.status == "failed" && d.windows == [] && d.failure.Some?
        && Trim(d.failure.value.code) != "" && Trim(d.failure.value.message) != "")
  }

  predicate ValidWindow(w: Window, appID: string, pid: int) {
    w.windowID != 0 && w.pid == pid && w.appID == Some(appID) && w.width > 0.0 && w.height > 0.0
  }

  /** An answer that is for the application asked for, and complete. */
  predicate Accepted(n: NativeUse, appID: string, pid: int) {
    && n.appID == appID && n.pid > 0 && (pid != 0 ==> n.pid == pid) && Trim(n.name) != ""
    && ValidDiscovery(n.found)
    && forall i :: 0 <= i < |n.found.windows| ==> ValidWindow(n.found.windows[i], appID, n.pid)
  }

  /** What the native service did or was asked to do for a session. */
  datatype Deed =
    | Launched(session: string, appID: string, pid: int)
    | QuitAsked(session: string, appID: string, pid: int)

  /** Every quit was for an application the same session had launched before. */
  ghost predicate OnlyOwnQuit(deeds: seq<Deed>) {
    forall j :: 0 <= j < |deeds| && deeds[j].QuitAsked? ==>
      Launched(deeds[j].session, deeds[j].appID, deeds[j].pid) in deeds[..j]
  }

  lemma QuitMore(deeds: seq<Deed>, d: Deed)
    requires OnlyOwnQuit(deeds)
    requires d.QuitAsked? ==> Launched(d.session, d.appID, d.pid) in deeds
    ensures OnlyOwnQuit(deeds + [d])
  {
    forall j | 0 <= j <= |deeds| && (deeds + [d])[j].QuitAsked?
      ensures Launched((deeds + [d])[j].session, (deeds + [d])[j].appID, (deeds + [d])[j].pid) in (deeds + [d])[..j]
    {
      if j < |deeds| {
        assert (deeds + [d])[..j] == deeds[..j];
      } else {
        assert (deeds + [d])[..j] == deeds;
      }
    }
  }

  type Table = map<string, map<string, Launch>>

  function Records(t: Table, session: string): map<string, Launch> {
    if session in t then t[session] else map[]
  }

  predicate RecordOk(deeds: seq<Deed>, session: string, id: string, l: Launch) {
    l.launchID == id && Launched(session, l.appID, l.pid) in deeds
  }

  ghost predicate SessionOk(t: Table, deeds: seq<Deed>, session: string) {
    && (session in t ==> t[session] != map[])
    && forall id :: id in Records(t, session) ==> RecordOk(deeds, session, id, Records(t, session)[id])
  }

  /** A record stands under its own id, for an application that was launched for the session
      it is listed for; no session is listed without a record; and nobody's application was
      quit by another session. */
  ghost predicate Sound(t: Table, deeds: seq<Deed>) {
    OnlyOwnQuit(deeds) && forall session :: SessionOk(t, deeds, session)
  }

  /** One session's records change, and the deeds only grow. */
  lemma SessionChanges(t: Table, deeds: seq<Deed>, session: string, records: map<string, Launch>, more: seq<Deed>)
    requires Sound(t, deeds) && deeds <= more && OnlyOwnQuit(more)
    requires forall id :: id in records ==> RecordOk(more, session, id, records[id])
    ensures var next := if records == map[] then t - {session} else t[session := records];
            && Sound(next, more) && Records(next, session) == records
            && forall other :: other != session ==> Records(next, other) == Records(t, other)
  {
    hide OnlyOwnQuit;
    var next := if records == map[] then t - {session} else t[session := records];
    forall d | d in deeds ensures d in more {
      var i :| 0 <= i < |deeds| && deeds[i] == d;
      assert more[i] == d;
    }
    assert Records(next, session) == records;
    forall other ensures SessionOk(next, more, other) {
      assert SessionOk(t, deeds, other);
      assert other != session ==> Records(next, other) == Records(t, other);
    }
  }

  lemma DeedsGrow(t: Table, deeds: seq<Deed>, more: seq<Deed>)
    requires Sound(t, deeds) && deeds <= more && OnlyOwnQuit(more)
    ensures Sound(t, more)
  {
    hide OnlyOwnQuit;
    forall d | d in deeds ensures d in more {
      var i :| 0 <= i < |deeds| && deeds[i] == d;
      assert more[i] == d;
    }
    forall other ensures SessionOk(t, more, other) {
      assert SessionOk(t, deeds, other);
    }
  }

  lemma RecordIsOk(t: Table, deeds: seq<Deed>, session: string, id: string)
    requires Sound(t, deeds) && id in Records(t, session)
    ensures RecordOk(deeds, session, id, Records(t, session)[id])
  {
    assert SessionOk(t, deeds, session);
  }

  lemma RecordsAreOk(t: Table, deeds: seq<Deed>, session: string)
    requires Sound(t, deeds)
    ensures forall id :: id in Records(t, session) ==> RecordOk(deeds, session, id, Records(t, session)[id])
    ensures session in t ==> t[session] != map[]
  {
    assert SessionOk(t, deeds, session);
  }

  predicate IsFor(l: Launch, appID: string, pid: int) {
    l.appID == appID && l.pid == pid
  }

  function QuitFor(session: string, l: Launch): Deed {
    QuitAsked(session, l.appID, l.pid)
  }

  lemma SoundQuits(t: Table, deeds: seq<Deed>)
    requires Sound(t, deeds)
    ensures OnlyOwnQuit(deeds)
  {
  }

  lemma LaunchRecorded(t: Table, deeds: seq<Deed>, session: string, records: map<string, Launch>, l: Launch)
    requires Sound(t, deeds) && records == Records(t, session)[l.launchID := l]
    ensures var more := deeds + [Launched(session, l.appID, l.pid)];
            && Sound(t[session := records], more) && Records(t[session := records], session) == records
            && forall other :: other != session ==> Records(t[session := records], other) == Records(t, other)
  {
    var more := deeds + [Launched(session, l.appID, l.pid)];
    QuitMore(deeds, Launched(session, l.appID, l.pid));
    hide OnlyOwnQuit;
    RecordsAreOk(t, deeds, session);
    assert more[|deeds|] == Launched(session, l.appID, l.pid);
    assert l.launchID in records;
    SessionChanges(t, deeds, session, records, more);
  }

  lemma QuitRecorded(t: Table, deeds: seq<Deed>, session: string, id: string, rest: map<string, Launch>)
    requires Sound(t, deeds) && id in Records(t, session) && rest == Records(t, session) - {id}
    ensures var more := deeds + [QuitFor(session, Records(t, session)[id])];
            var next := if rest == map[] then t - {session} else t[session := rest];
            && Sound(t, more) && Sound(next, more) && Records(next, session) == rest
            && forall other :: other != session ==> Records(next, other) == Records(t, other)
  {
    var d := QuitFor(session, Records(t, session)[id]);
    RecordsAreOk(t, deeds, session);
    QuitMore(deeds, d);
    hide OnlyOwnQuit;
    DeedsGrow(t, deeds, deeds + [d]);
    SessionChanges(t, deeds, session, rest, deeds + [d]);
  }

  lemma QuitAgain(t: Table, before: seq<Deed>, deeds: seq<Deed>, session: string, id: string, l: Launch)
    requires Sound(t, deeds) && before <= deeds && RecordOk(before, session, id, l)
    ensures Sound(t, deeds + [QuitFor(session, l)])
  {
    var i :| 0 <= i < |before| && before[i] == Launched(session, l.appID, l.pid);
    assert deeds[i] == before[i];
    QuitMore(deeds, QuitFor(session, l));
    hide OnlyOwnQuit;
    DeedsGrow(t, deeds, deeds + [QuitFor(session, l)]);
  }

  /** The quits that were asked for since `before`, of the records that are not left to ask for. */
  ghost predicate Asked(before: seq<Deed>, deeds: seq<Deed>, session: string, owned: map<string, Launch>, left: set<string>) {
    && before <= deeds && left <= owned.Keys && |deeds| == |before| + |owned.Keys| - |left|
    && (forall id :: id in owned && id !in left ==> QuitFor(session, owned[id]) in deeds[|before|..])
    && (forall i :: |before| <= i < |deeds| ==> exists id :: id in owned && deeds[i] == QuitFor(session, owned[id]))
  }

  lemma AskedMore(before: seq<Deed>, deeds: seq<Deed>, session: string, owned: map<string, Launch>, left: set<string>, id: string)
    requires Asked(before, deeds, session, owned, left) && id in left
    ensures Asked(before, deeds + [QuitFor(session, owned[id])], session, owned, left - {id})
  {
    var more := deeds + [QuitFor(session, owned[id])];
    assert more[|before|..] == deeds[|before|..] + [QuitFor(session, owned[id])];
  }

  class Manager {
    var launches: Table
    ghost var deeds: seq<Deed>

    constructor ()
      ensures Valid() && launches == map[] && deeds == []
    {
      launches, deeds := map[], [];
    }

    ghost predicate Valid()
      reads this
    {
      Sound(launches, deeds)
    }

    /** Uses an application; `native` is what the service answered, or an error.  Only an
        application that was newly launched under an accepted answer is recorded. */
    method UseApp(session: string, appID: string, pid: int, native: Option<NativeUse>, newID: string) returns (r: Option<UseResult>)
      requires Valid()
      modifies this
      ensures Valid()
      ensures r.Some? <==> native.Some? && Accepted(native.value, appID, pid)
      ensures r.Some? ==> r.value.appID == appID && r.value.pid == native.value.pid && r.value.found == native.value.found
      ensures r.Some? ==> r.value.pid > 0 && (pid != 0 ==> r.value.pid == pid)
      ensures r.Some? ==> (r.value.found.status == "ready" <==> r.value.found.windows != [])
                          && (r.value.found.status == "failed" <==> r.value.found.failure.Some?)
      ensures r.Some? ==> forall i :: 0 <= i < |r.value.found.windows| ==>
        r.value.found.windows[i].pid == r.value.pid && r.value.found.windows[i].appID == Some(appID)
      ensures r.Some? && !native.value.newlyLaunched ==>
        if exists id :: id in Records(old(launches), session) && IsFor(Records(old(launches), session)[id], appID, native.value.pid)
        then r.value.launchID.Some? else r.value.launchID.None? && r.value.name == native.value.name
      ensures var recorded := r.Some? && native.value.newlyLaunched;
              && (recorded ==> r.value.launchID == Some(newID) && deeds == old(deeds) + [Launched(session, appID, native.value.pid)])
              && (!recorded ==> launches == old(launches) && deeds == old(deeds))
              && Records(launches, session) ==
                   if recorded then Records(old(launches), session)[newID := Launch(newID, appID, native.value.name, native.value.pid)]
                   else Records(old(launches), session)
      ensures r.Some? && r.value.launchID.Some? ==>
        var id := r.value.launchID.value;
        && id in Records(launches, session)
        && IsFor(Records(launches, session)[id], appID, native.value.pid) && r.value.name == Records(launches, session)[id].name
      ensures forall other :: other != session ==> Records(launches, other) == Records(old(launches), other)
    {
      hide Sound, OnlyOwnQuit;
      if native.None? {
        return None;
      }
      var n := native.value;
      if n.appID != appID || n.pid <= 0 || (pid != 0 && n.pid != pid) || Trim(n.name) == "" {
        return None;
      }
      if !ValidDiscovery(n.found) {
        return None;
      }
      for i := 0 to |n.found.windows|
        invariant forall j :: 0 <= j < i ==> ValidWindow(n.found.windows[j], appID, n.pid)
      {
        if !ValidWindow(n.found.windows[i], n.appID, n.pid) {
          return None;
        }
      }
      if !n.newlyLaunched {
        var found := FindLaunch(session, n.appID, n.pid);
        return if found.Some? then Some(UseResult(Some(found.value.launchID), found.value.appID, found.value.name, found.value.pid, n.found))
               else Some(UseResult(None, n.appID, n.name, n.pid, n.found));
      }
      var records := Records(launches, session)[newID := Launch(newID, n.appID, n.name, n.pid)];
      LaunchRecorded(launches, deeds, session, records, Launch(newID, n.appID, n.name, n.pid));
      deeds := deeds + [Launched(session, n.appID, n.pid)];
      launches := launches[session := records];
      r := Some(UseResult(Some(newID), n.appID, n.name, n.pid, n.found));
    }

    /** Some record of the session for the application, if there is one. */
    method FindLaunch(session: string, appID: string, pid: int) returns (r: Option<Launch>)
      requires Valid()
      ensures r.Some? ==> r.value.launchID in Records(launches, session) && Records(launches, session)[r.value.launchID] == r.value
      ensures r.Some? ==> r.value.appID == appID && r.value.pid == pid
      ensures r.None? ==> forall id :: id in Records(launches, session) ==> !IsFor(Records(launches, session)[id], appID, pid)
    {
      hide Sound;
      var records := Records(launches, session);
      var left := records.Keys;
      while left != {}
        invariant left <= records.Keys
        invariant forall id :: id in records && id !in left ==> records[id].appID != appID || records[id].pid != pid
        decreases |left|
      {
        var id :| id in left;
        left := left - {id};
        if records[id].appID == appID && records[id].pid == pid {
          RecordIsOk(launches, deeds, session, id);
          return Some(records[id]);
        }
      }
      r := None;
    }

    /** Quits an application by its launch record, which only its own session has; `native`
        is what the service answers.  The record goes once the application is closed. */
    method QuitApp(session: string, givenID: string, native: Option<NativeQuit>) returns (r: Option<QuitResult>)
      requires Valid()
      modifies this
      ensures Valid()
      ensures var id, before := Trim(givenID), Records(old(launches), session);
              var owned := id != "" && id in before;
              && deeds == old(deeds) + (if owned then [QuitAsked(session, before[id].appID, before[id].pid)] else [])
              && (r.Some? <==> owned && native.Some? && IsFor(before[id], native.value.appID, native.value.pid))
              && (r.Some? ==> r.value == QuitResult(before[id], native.value.closed))
              && Records(launches, session) == if r.Some? && r.value.closed then before - {id} else before
      ensures forall other :: other != session ==> Records(launches, other) == Records(old(launches), other)
    {
      hide Sound, OnlyOwnQuit, Trim;
      var id := Trim(givenID);
      var records := Records(launches, session);
      if id == "" || id !in records {
        return None;
      }
      var record := records[id];
      QuitRecorded(launches, deeds, session, id, records - {id});
      deeds := deeds + [QuitAsked(session, record.appID, record.pid)];
      if native.None? || native.value.appID != record.appID || native.value.pid != record.pid {
        return None;
      }
      if native.value.closed {
        launches := if records - {id} == map[] then launches - {session} else launches[session := records - {id}];
      }
      r := Some(QuitResult(record, native.value.closed));
    }

    /** Ends a session: everything recorded for it is asked to quit, once and in any order, and
        it has no records. */
    method ReleaseSession(session: string)
      requires Valid()
      modifies this
      ensures Valid() && Records(launches, session) == map[]
      ensures forall other :: other != session ==> Records(launches, other) == Records(old(launches), other)
      ensures old(deeds) <= deeds && |deeds| == |old(deeds)| + |Records(old(launches), session)|
      ensures forall id :: id in Records(old(launches), session) ==>
        QuitFor(session, Records(old(launches), session)[id]) in deeds[|old(deeds)|..]
      ensures forall i :: |old(deeds)| <= i < |deeds| ==>
        exists id :: id in Records(old(launches), session) && deeds[i] == QuitFor(session, Records(old(launches), session)[id])
    {
      hide Sound, OnlyOwnQuit, RecordOk, IsFor;
      var owned := Records(launches, session);
      RecordsAreOk(launches, deeds, session);
      SoundQuits(launches, deeds);
      SessionChanges(launches, deeds, session, map[], deeds);
      launches := launches - {session};
      var left := owned.Keys;
      ghost var table := launches;
      assert Asked(deeds, deeds, session, owned, left);
      while left != {}
        invariant launches == table && Sound(launches, deeds) && Asked(old(deeds), deeds, session, owned, left)
        invariant old(deeds) <= deeds && forall id :: id in owned ==> RecordOk(old(deeds), session, id, owned[id])
        decreases |left|
      {
        var id :| id in left;
        QuitAgain(launches, old(deeds), deeds, session, id, owned[id]);
        AskedMore(old(deeds), deeds, session, owned, left, id);
        left := left - {id};
        deeds := deeds + [QuitFor(session, owned[id])];
      }
    }
  }
}
