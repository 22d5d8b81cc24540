/** What the stream does with events that carry no number: none is lost while a connection
    lasts, none overtakes another, and the client receives everything as it was sent. */
module EventTransients {

  import opened Decimals
  import opened Results
  import opened EventStream
  import opened EventStreamProofs
  import opened EventHandler

  /** The events that carry no number. */
  function Plain(evs: seq<Event>): seq<Event> {
    if evs == [] then []
    else Plain(evs[..|evs| - 1]) + if evs[|evs| - 1].seqNo <= 0 then [evs[|evs| - 1]] else []
  }

  lemma PlainMore(evs: seq<Event>, ev: Event)
    ensures Plain(evs + [ev]) == Plain(evs) + if ev.seqNo <= 0 then [ev] else []
  {
    assert (evs + [ev])[..|evs|] == evs;
  }

  lemma {:induction false} PlainHead(evs: seq<Event>)
    requires evs != []
    ensures Plain(evs) == (if evs[0].seqNo <= 0 then [evs[0]] else []) + Plain(evs[1..])
  {
    if |evs| > 1 {
      var init := evs[..|evs| - 1];
      PlainHead(init);
      assert init[1..] == evs[1..][..|evs| - 2];
    }
  }

  // ----- the handler

  /** These places, and no others, hold what is new or has no number; in order. */
  ghost predicate Selects(p: seq<nat>, evs: seq<Event>, mark: int) {
    && (forall i :: 0 <= i < |p| ==> p[i] < |evs| && !(0 < evs[p[i]].seqNo <= mark))
    && (forall i, j :: 0 <= i < j < |p| ==> p[i] < p[j])
    && (forall k :: 0 <= k < |evs| && !(0 < evs[k].seqNo <= mark) ==> k in p)
  }

  lemma SelectsMore(p: seq<nat>, evs: seq<Event>, mark: int)
    requires evs != [] && Selects(p, evs[..|evs| - 1], mark)
    ensures var n := |evs| - 1; Selects(if 0 < evs[n].seqNo <= mark then p else p + [n], evs, mark)
  {
    var n := |evs| - 1;
    var more := if 0 < evs[n].seqNo <= mark then p else p + [n];
    forall k | 0 <= k < |evs| && !(0 < evs[k].seqNo <= mark) ensures k in more {
      if k < n {
        assert evs[..n][k] == evs[k];
        var i :| 0 <= i < |p| && p[i] == k;
        assert more[i] == k;
      } else {
        assert more[|p|] == n;
      }
    }
  }

  /** The list has what stands at these places. */
  ghost predicate StandsAt(out: seq<Event>, p: seq<nat>, evs: seq<Event>) {
    |p| == |out| && forall i :: 0 <= i < |p| ==> p[i] < |evs| && out[i] == evs[p[i]]
  }

  lemma StandsMore(out: seq<Event>, p: seq<nat>, evs: seq<Event>)
    requires evs != [] && StandsAt(out, p, evs[..|evs| - 1])
    ensures StandsAt(out, p, evs) && StandsAt(out + [evs[|evs| - 1]], p + [|evs| - 1], evs)
  {
  }

  lemma NothingSelected(mark: int)
    ensures Selects([], [], mark) && StandsAt(Newer([], mark), [], [])
  {
  }

  lemma NewerStep(evs: seq<Event>, mark: int)
    requires evs != []
    ensures var n := |evs| - 1;
            Newer(evs, mark) == if 0 < evs[n].seqNo <= mark then Newer(evs[..n], mark) else Newer(evs[..n], mark) + [evs[n]]
  {
    assert Newer(evs[..|evs| - 1], mark) + [] == Newer(evs[..|evs| - 1], mark);
  }

  /** What the handler sends of the live events: in their order, all but the numbered ones up to
      the mark. */
  lemma {:induction false} NewerIsSelection(evs: seq<Event>, mark: int) returns (p: seq<nat>)
    ensures Selects(p, evs, mark) && StandsAt(Newer(evs, mark), p, evs)
  {
    hide Selects, StandsAt, Newer;
    if evs == [] {
      NothingSelected(mark);
      p := [];
    } else {
      var n := |evs| - 1;
      var before := NewerIsSelection(evs[..n], mark);
      SelectsMore(before, evs, mark);
      StandsMore(Newer(evs[..n], mark), before, evs);
      NewerStep(evs, mark);
      p := if 0 < evs[n].seqNo <= mark then before else before + [n];
    }
  }

  // ----- nothing is lost

  /** The first list is in the second one, in its order. */
  predicate Within(a: seq<Event>, b: seq<Event>)
    decreases |b|
  {
    a == [] ||
    (b != [] &&
     (|| (a[|a| - 1] == b[|b| - 1] && Within(a[..|a| - 1], b[..|b| - 1]))
      || Within(a, b[..|b| - 1])))
  }

  lemma {:induction false} WithinItself(a: seq<Event>)
    ensures Within(a, a)
  {
    if a != [] {
      WithinItself(a[..|a| - 1]);
    }
  }

  lemma WithinMore(a: seq<Event>, b: seq<Event>, x: Event)
    requires Within(a, b)
    ensures Within(a, b + [x]) && Within(a + [x], b + [x])
  {
    assert (b + [x])[..|b|] == b && (a + [x])[..|a|] == a;
  }

  lemma {:induction false} WithinAppend(a: seq<Event>, b: seq<Event>, c: seq<Event>)
    requires Within(a, b)
    ensures Within(a + c, b + c)
    decreases |c|
  {
    hide Within;
    if c == [] {
      assert a + c == a && b + c == b;
    } else {
      var n := |c| - 1;
      WithinAppend(a, b, c[..n]);
      WithinMore(a + c[..n], b + c[..n], c[n]);
      assert a + c == a + c[..n] + [c[n]] && b + c == b + c[..n] + [c[n]];
    }
  }

  lemma {:induction false} WithinThrough(a: seq<Event>, b: seq<Event>, c: seq<Event>)
    requires Within(a, b) && Within(b, c)
    ensures Within(a, c)
    decreases |c|
  {
    if a != [] {
      var n := |c| - 1;
      if b[|b| - 1] == c[n] && Within(b[..|b| - 1], c[..n]) {
        if a[|a| - 1] == b[|b| - 1] && Within(a[..|a| - 1], b[..|b| - 1]) {
          WithinThrough(a[..|a| - 1], b[..|b| - 1], c[..n]);
        } else {
          WithinThrough(a, b[..|b| - 1], c[..n]);
        }
      } else {
        WithinThrough(a, b, c[..n]);
      }
    }
  }

  predicate Connected(h: Handler) {
    h.Subscribed? || h.Streaming?
  }

  /** What the connection has sent or has still to send of the events without a number. */
  function Told(h: Handler): seq<Event>
    requires Connected(h)
  {
    match h
    case Subscribed(_, ch) => Plain(ch.buffer)
    case Streaming(_, ch, _, c) => Plain(c.sent) + Plain(ch.buffer)
  }

  predicate KeepsConnection(a: Action) {
    !a.HangUp? && !a.Disconnect?
  }

  lemma SendLiveTells(w: World)
    requires Enabled(w, SendLive)
    ensures Told(Step(w, SendLive).handler) == Told(w.handler)
  {
    hide Plain;
    var c, buffer := w.handler.cursor, w.handler.channel.buffer;
    PlainHead(buffer);
    PlainMore(c.sent, buffer[0]);
    assert Plain(c.sent) + ([buffer[0]] + Plain(buffer[1..])) == Plain(c.sent) + [buffer[0]] + Plain(buffer[1..]);
    assert Plain(c.sent) + ([] + Plain(buffer[1..])) == Plain(c.sent) + [] + Plain(buffer[1..]);
  }

  lemma PingTells(w: World, ev: Event)
    requires Enabled(w, Ping(ev))
    ensures Within(Told(w.handler), Told(Step(w, Ping(ev)).handler))
  {
    hide Plain;
    var c := w.handler.cursor;
    PlainMore(c.sent, ev);
    WithinItself(Plain(c.sent));
    WithinMore(Plain(c.sent), Plain(c.sent), ev);
    WithinAppend(Plain(c.sent), Plain(c.sent) + [ev], Plain(w.handler.channel.buffer));
  }

  lemma OfferTells(h: Handler, ev: Event)
    requires Connected(h)
    ensures Told(Notify(h, ev)) == Told(h) + if ev.seqNo <= 0 && h.channel.open && |h.channel.buffer| < SUBSCRIBER_BUFFER then [ev] else []
    ensures h.channel.open && !Notify(h, ev).channel.open ==> |h.channel.buffer| >= SUBSCRIBER_BUFFER
  {
    hide Plain;
    PlainMore(h.channel.buffer, ev);
    assert Told(h) + [] == Told(h);
    if h.Streaming? {
      assert Plain(h.cursor.sent) + (Plain(h.channel.buffer) + [ev]) == Told(h) + [ev];
    }
  }

  lemma StepTells(w: World, a: Action)
    requires Increasing(w.log) && Enabled(w, a) && KeepsConnection(a) && Connected(w.handler)
    ensures var h := Step(w, a).handler; Connected(h) && Within(Told(w.handler), Told(h))
    ensures a.Broadcast? && w.handler.channel.open && |w.handler.channel.buffer| < SUBSCRIBER_BUFFER ==>
      Told(Step(w, a).handler) == Told(w.handler) + [a.ev]
  {
    WithinItself(Told(w.handler));
    hide Plain, Within, Told, EventsAfter, Increasing, Offer, WriteLive, WriteStored, LatestSeq, Receive;
    match a
    case Publish =>
      OfferTells(w.handler, w.log[w.published]);
      assert Told(w.handler) + [] == Told(w.handler);
    case Broadcast(ev) =>
      OfferTells(w.handler, ev);
      assert Told(w.handler) + [] == Told(w.handler);
      WithinMore(Told(w.handler), Told(w.handler), ev);
    case ReadBacklog => assert Told(Step(w, a).handler) == Told(w.handler) by { ReadingTells(w); }
    case SendStored => SendStoredTells(w);
    case SendLive => SendLiveTells(w);
    case Ping(ev) => PingTells(w, ev);
    case _ =>
  }

  lemma ReadingTells(w: World)
    requires Enabled(w, ReadBacklog)
    ensures Told(Step(w, ReadBacklog).handler) == Told(w.handler)
  {
    hide EventsAfter;
    assert Plain([]) == [] && [] + Plain(w.handler.channel.buffer) == Plain(w.handler.channel.buffer);
  }

  lemma SendStoredTells(w: World)
    requires Enabled(w, SendStored)
    ensures Within(Told(w.handler), Told(Step(w, SendStored).handler))
  {
    hide Plain;
    var c, ev := w.handler.cursor, w.handler.backlog[0];
    PlainMore(c.sent, ev);
    WithinItself(Plain(c.sent));
    WithinMore(Plain(c.sent), Plain(c.sent), ev);
    assert Plain(c.sent) + [] == Plain(c.sent);
    WithinAppend(Plain(c.sent), Plain(c.sent + [ev]), Plain(w.handler.channel.buffer));
  }

  lemma StepIncreases(w: World, a: Action)
    requires Increasing(w.log) && Enabled(w, a)
    ensures Increasing(Step(w, a).log)
  {
    if a.Append? {
      UptoAppend(w.log, a.ev, 0);
    }
  }

  /** As long as a connection lasts, whatever happens: an event without a number that has
      reached its channel has been sent or is still to be sent, in order. */
  lemma {:induction false} TransientsAreKept(w: World, actions: seq<Action>)
    requires Increasing(w.log) && CanRun(w, actions) && Connected(w.handler)
    requires forall i :: 0 <= i < |actions| ==> KeepsConnection(actions[i])
    ensures var h := Run(w, actions).handler; Connected(h) && Within(Told(w.handler), Told(h))
    decreases |actions|
  {
    hide Within, Told, Increasing, Enabled, Step;
    if actions == [] {
      WithinItself(Told(w.handler));
    } else {
      var next := Step(w, actions[0]);
      StepTells(w, actions[0]);
      StepIncreases(w, actions[0]);
      TransientsAreKept(next, actions[1..]);
      WithinThrough(Told(w.handler), Told(next.handler), Told(Run(w, actions).handler));
    }
  }

  // ----- what the client receives

  /** What the client received on this connection is what the handler sent, up to there. */
  predicate AsSent(w: World) {
    if w.handler.Streaming? then
      && w.delivered <= |w.handler.cursor.sent| && w.delivered <= |w.received|
      && w.received[|w.received| - w.delivered..] == w.handler.cursor.sent[..w.delivered]
    else w.delivered == 0
  }

  lemma StepDelivers(w: World, a: Action)
    requires AsSent(w) && Enabled(w, a)
    ensures AsSent(Step(w, a))
  {
    hide EventsAfter;
    var next := Step(w, a);
    if a.Deliver? {
      var sent, d := w.handler.cursor.sent, w.delivered;
      assert next.received[|next.received| - (d + 1)..] == w.received[|w.received| - d..] + [sent[d]];
      assert sent[..d + 1] == sent[..d] + [sent[d]];
    } else if w.handler.Streaming? && next.handler.Streaming? {
      assert next.handler.cursor.sent[..w.delivered] == w.handler.cursor.sent[..w.delivered];
    }
  }

  lemma {:induction false} RunDelivers(w: World, actions: seq<Action>)
    requires AsSent(w) && CanRun(w, actions)
    ensures AsSent(Run(w, actions))
    decreases |actions|
  {
    hide AsSent, Enabled, Step;
    if actions != [] {
      StepDelivers(w, actions[0]);
      RunDelivers(Step(w, actions[0]), actions[1..]);
    }
  }

  /** Over every run, what the client has received on its connection is exactly what the handler
      sent, with or without a number, in order, up to what is still on its way. */
  lemma ReceivedAsSent(w: World, actions: seq<Action>)
    requires Initial(w) && CanRun(w, actions) && Run(w, actions).handler.Streaming?
    ensures var v := Run(w, actions);
            && v.delivered <= |v.received| && v.delivered <= |v.handler.cursor.sent|
            && v.received[|v.received| - v.delivered..] == v.handler.cursor.sent[..v.delivered]
  {
    RunDelivers(w, actions);
  }

  // ----- headers that are no numbers

  lemma {:induction false} DigitsOnly(s: string)
    ensures ParseDigits(s).Some? ==> forall i :: 0 <= i < |s| ==> IsDigit(s[i])
  {
    if |s| > 1 {
      DigitsOnly(s[..|s| - 1]);
    }
  }

  /** A header with anything but digits after at most one sign asks for no resume point, whatever
      the query parameter says; so does one that is only a sign. */
  lemma NoNumberAsksForNone(header: string, query: string, i: nat)
    requires i < |header| && !IsDigit(header[i]) && !(i == 0 && |header| > 1 && header[0] in {'+', '-'})
    ensures LastEventId(header, query).None?
  {
    hide ParseDigits;
    if header[0] == '+' || header[0] == '-' {
      DigitsOnly(header[1..]);
      if i > 0 {
        assert header[1..][i - 1] == header[i];
      } else {
        assert header[1..] == [] && ParseDigits([]).None? by { NoDigits(); }
      }
    } else {
      DigitsOnly(header);
    }
  }

  lemma NoDigits()
    ensures ParseDigits([]).None?
  {
  }
}
