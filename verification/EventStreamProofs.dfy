/** Delivery of the event stream: exactly once, in order and without gaps. */
module EventStreamProofs {
  import opened Decimals
  import opened Results
  import opened EventStream

  ghost predicate Increasing(log: seq<Event>) {
    (forall i :: 0 <= i < |log| ==> log[i].seqNo > 0) &&
    (forall i, j :: 0 <= i < j < |log| ==> log[i].seqNo < log[j].seqNo)
  }

  /** How many logged events have a number up to `n`. */
  ghost function Upto(log: seq<Event>, n: int): (k: nat)
    ensures k <= |log|
  {
    if log == [] then 0
    else if log[|log| - 1].seqNo <= n then |log|
    else Upto(log[..|log| - 1], n)
  }

  lemma {:induction false} UptoSplits(log: seq<Event>, n: int)
    requires Increasing(log)
    ensures forall i :: 0 <= i < Upto(log, n) ==> log[i].seqNo <= n
    ensures forall i :: Upto(log, n) <= i < |log| ==> log[i].seqNo > n
  {
    if log != [] && log[|log| - 1].seqNo > n {
      UptoSplits(log[..|log| - 1], n);
    }
  }

  lemma UptoUnique(log: seq<Event>, n: int, k: nat)
    requires Increasing(log) && k <= |log|
    requires k > 0 ==> log[k - 1].seqNo <= n
    requires k < |log| ==> log[k].seqNo > n
    ensures Upto(log, n) == k
  {
    UptoSplits(log, n);
  }

  lemma UptoStep(log: seq<Event>, n: int)
    requires Increasing(log) && log != []
    ensures var init, last := log[..|log| - 1], log[|log| - 1];
            Upto(log, n) == (if last.seqNo <= n then |log| else Upto(init, n)) &&
            (last.seqNo <= n ==> Upto(init, n) == |init|)
  {
    UptoSplits(log[..|log| - 1], n);
  }

  lemma SliceMore<T>(xs: seq<T>, a: nat, n: nat)
    requires a <= n < |xs|
    ensures xs[a..n + 1] == xs[a..n] + [xs[n]] && xs[..n][a..n] == xs[a..n]
  {
  }

  lemma SliceLess<T>(xs: seq<T>, a: nat, n: nat)
    requires a < n <= |xs|
    ensures xs[a..n] == [xs[a]] + xs[a + 1..n]
  {
  }

  lemma SameHead<T>(x: T, xs: seq<T>, y: T, ys: seq<T>)
    requires [x] + xs == [y] + ys
    ensures x == y && xs == ys
  {
    assert ([x] + xs)[0] == x && ([x] + xs)[1..] == xs;
    assert ([y] + ys)[0] == y && ([y] + ys)[1..] == ys;
  }

  lemma SliceOfTake<T>(xs: seq<T>, x: nat, y: nat, n: nat)
    requires x <= y <= n <= |xs|
    ensures xs[..n][x..y] == xs[x..y]
  {
  }

  lemma BetweenStep(log: seq<Event>, lo: int, hi: int)
    requires log != []
    ensures var n := |log| - 1;
            Between(log, lo, hi) == Between(log[..n], lo, hi) + if lo < log[n].seqNo <= hi then [log[n]] else []
  {
  }

  /** In an increasing log an interval of numbers is a slice. */
  lemma {:induction false} BetweenIsSlice(log: seq<Event>, lo: int, hi: int)
    requires Increasing(log) && lo <= hi
    ensures Upto(log, lo) <= Upto(log, hi)
    ensures Between(log, lo, hi) == log[Upto(log, lo)..Upto(log, hi)]
  {
    hide Upto;
    if log != [] {
      var n := |log| - 1;
      BetweenIsSlice(log[..n], lo, hi);
      UptoStep(log, lo);
      UptoStep(log, hi);
      var x, y := Upto(log[..n], lo), Upto(log[..n], hi);
      BetweenStep(log, lo, hi);
      hide Between;
      if log[n].seqNo <= lo {
        assert Upto(log, lo) == Upto(log, hi) == n + 1;
      } else if log[n].seqNo <= hi {
        SliceMore(log, x, n);
      } else {
        SliceOfTake(log, x, y, n);
      }
    }
  }

  lemma {:induction false} AfterIsSlice(log: seq<Event>, n: int)
    requires Increasing(log)
    ensures EventsAfter(log, n) == log[Upto(log, n)..]
  {
    hide Upto;
    if log != [] {
      AfterIsSlice(log[..|log| - 1], n);
      UptoStep(log, n);
    }
  }

  lemma {:induction false} BetweenNone(log: seq<Event>, n: int)
    ensures Between(log, n, n) == []
  {
    if log != [] { BetweenNone(log[..|log| - 1], n); }
  }

  /** The event right after `mark` extends every interval that ends there. */
  lemma BetweenNext(log: seq<Event>, lo: int, mark: int)
    requires Increasing(log) && lo <= mark && Upto(log, mark) < |log|
    ensures var e := log[Upto(log, mark)];
            e.seqNo > mark && Upto(log, e.seqNo) == Upto(log, mark) + 1 &&
            Between(log, lo, e.seqNo) == Between(log, lo, mark) + [e]
  {
    hide Upto, Between;
    var k := Upto(log, mark);
    UptoSplits(log, mark);
    UptoUnique(log, log[k].seqNo, k + 1);
    BetweenIsSlice(log, lo, mark);
    BetweenIsSlice(log, lo, log[k].seqNo);
  }

  /** No later event can fall into the interval from `lo` to `mark`. */
  ghost predicate Steady(log: seq<Event>, lo: int, mark: int) {
    mark == lo || (lo <= mark && log != [] && mark <= log[|log| - 1].seqNo)
  }

  lemma BetweenStays(log: seq<Event>, ev: Event, lo: int, mark: int)
    requires Steady(log, lo, mark) && ev.seqNo > LatestSeq(log)
    ensures Between(log + [ev], lo, mark) == Between(log, lo, mark)
    ensures Steady(log + [ev], lo, mark)
  {
    assert (log + [ev])[..|log|] == log;
  }

  lemma UptoAppend(log: seq<Event>, ev: Event, n: int)
    requires Increasing(log) && ev.seqNo > LatestSeq(log) && ev.seqNo > 0
    ensures Increasing(log + [ev])
    ensures Upto(log + [ev], n) >= Upto(log, n)
    ensures Upto(log, n) < |log| ==> Upto(log + [ev], n) == Upto(log, n)
  {
    var grown := log + [ev];
    assert grown[..|log|] == log;
    UptoSplits(log, n);
  }

  // ----- numbered events

  lemma NumberedMore(evs: seq<Event>, ev: Event)
    ensures Numbered(evs + [ev]) == Numbered(evs) + if ev.seqNo > 0 then [ev] else []
  {
    assert (evs + [ev])[..|evs|] == evs;
  }

  lemma {:induction false} NumberedHead(evs: seq<Event>)
    requires evs != []
    ensures Numbered(evs) == (if evs[0].seqNo > 0 then [evs[0]] else []) + Numbered(evs[1..])
  {
    if |evs| > 1 {
      var init := evs[..|evs| - 1];
      NumberedHead(init);
      assert init[1..] == evs[1..][..|evs| - 2];
    }
  }

  lemma {:induction false} NumberedPrefix(evs: seq<Event>, k: nat)
    requires k < |evs|
    ensures Numbered(evs[..k + 1]) == Numbered(evs[..k]) + if evs[k].seqNo > 0 then [evs[k]] else []
    ensures Numbered(evs[..k + 1]) <= Numbered(evs)
    decreases |evs|
  {
    assert evs[..k + 1] == evs[..k] + [evs[k]];
    NumberedMore(evs[..k], evs[k]);
    if k + 1 < |evs| {
      var init := evs[..|evs| - 1];
      NumberedPrefix(init, k);
      assert init[..k + 1] == evs[..k + 1];
    } else {
      assert evs[..k + 1] == evs;
    }
  }

  lemma {:induction false} NumberedOfTransient(evs: seq<Event>)
    requires Transient(evs)
    ensures Numbered(evs) == []
  {
    if evs != [] { NumberedOfTransient(evs[..|evs| - 1]); }
  }

  // ----- the invariant

  /** The channel holds the logged events from `q` on, up to what was published; a closed
      channel may stop short. */
  ghost predicate Queued(log: seq<Event>, published: nat, ch: Channel, q: nat) {
    var n := |Numbered(ch.buffer)|;
    && q + n <= published <= |log|
    && Numbered(ch.buffer) == log[q..q + n]
    && (ch.open ==> q + n == published)
  }

  /** What was sent is exact, the backlog comes next, and the channel leaves no gap. */
  ghost predicate Exact(log: seq<Event>, after: int, backlog: seq<Event>, c: Cursor, q: nat) {
    var b := Upto(log, c.lastSent);
    && Steady(log, after, c.lastSent)
    && Numbered(c.sent) == Between(log, after, c.lastSent)
    && b + |backlog| <= |log| && backlog == log[b..b + |backlog|]
    && q <= b + |backlog|
  }

  ghost predicate HandlerOk(w: World, q: nat) {
    match w.handler
    case Off => true
    case Opened(_) => true
    case Subscribed(_, ch) => Queued(w.log, w.published, ch, q)
    case Streaming(after, ch, backlog, c) =>
      Queued(w.log, w.published, ch, q) && Exact(w.log, after, backlog, c, q)
  }

  /** Over all connections, the client has exactly the log from its base to its last id. */
  ghost predicate ClientOk(w: World) {
    match w.client
    case Fresh => Numbered(w.received) == []
    case Resumes(base, lastId) =>
      Steady(w.log, base, lastId) && Numbered(w.received) == Between(w.log, base, lastId)
  }

  /** What this connection has delivered ends at the client's last id. */
  ghost predicate WireOk(w: World) {
    match w.handler
    case Off => w.delivered == 0
    case Opened(after) => w.delivered == 0 && (w.client.Resumes? ==> w.client.lastId == after)
    case Subscribed(after, _) => w.delivered == 0 && (w.client.Resumes? ==> w.client.lastId == after)
    case Streaming(after, _, _, c) =>
      && w.delivered <= |c.sent|
      && (w.client.Fresh? ==> Numbered(c.sent[..w.delivered]) == [])
      && (w.client.Resumes? ==>
            Steady(w.log, after, w.client.lastId) &&
            Numbered(c.sent[..w.delivered]) == Between(w.log, after, w.client.lastId))
  }

  ghost predicate Inv(w: World, q: nat) {
    Increasing(w.log) && w.published <= |w.log| && HandlerOk(w, q) && ClientOk(w) && WireOk(w)
  }

  // ----- every step keeps it

  lemma AppendKeeps(w: World, a: Action, q: nat)
    requires Inv(w, q) && Enabled(w, a) && a.Append?
    ensures Inv(Step(w, a), q)
  {
    hide Upto, Between, Numbered;
    var log := w.log;
    UptoAppend(log, a.ev, 0);
    if w.client.Resumes? {
      BetweenStays(log, a.ev, w.client.base, w.client.lastId);
    }
    if w.handler.Streaming? {
      var after, c := w.handler.after, w.handler.cursor;
      BetweenStays(log, a.ev, after, c.lastSent);
      UptoAppend(log, a.ev, c.lastSent);
      if w.client.Resumes? {
        BetweenStays(log, a.ev, after, w.client.lastId);
      }
    }
  }

  lemma OfferKeeps(log: seq<Event>, published: nat, ch: Channel, q: nat, ev: Event)
    requires Queued(log, published, ch, q)
    ensures ev.seqNo <= 0 ==> Queued(log, published, Offer(ch, ev), q)
    ensures ev.seqNo > 0 && published < |log| && ev == log[published] ==> Queued(log, published + 1, Offer(ch, ev), q)
  {
    hide Numbered;
    NumberedMore(ch.buffer, ev);
  }

  lemma PublishKeeps(w: World, a: Action, q: nat)
    requires Inv(w, q) && Enabled(w, a) && (a.Publish? || a.Broadcast?)
    ensures Inv(Step(w, a), q)
  {
    hide Upto, Between, Numbered, Offer;
    if w.handler.Subscribed? || w.handler.Streaming? {
      OfferKeeps(w.log, w.published, w.handler.channel, q, if a.Publish? then w.log[w.published] else a.ev);
    }
  }

  lemma SubscribeKeeps(w: World, a: Action, q: nat)
    requires Inv(w, q) && Enabled(w, a) && a.Subscribe?
    ensures Inv(Step(w, a), w.published)
  {
    NumberedOfTransient(a.snapshot);
  }

  lemma ReadBacklogKeeps(w: World, a: Action, q: nat)
    requires Inv(w, q) && Enabled(w, a) && a.ReadBacklog?
    ensures Inv(Step(w, a), q)
  {
    hide Upto, Between, Numbered, EventsAfter, Queued;
    var after := w.handler.after;
    AfterIsSlice(w.log, after);
    BetweenNone(w.log, after);
    NumberedOfTransient([]);
    assert Queued(w.log, w.published, w.handler.channel, q) ==> q <= |w.log| by { QueuedWithin(w.log, w.published, w.handler.channel, q); }
  }

  lemma QueuedWithin(log: seq<Event>, published: nat, ch: Channel, q: nat)
    ensures Queued(log, published, ch, q) ==> q <= |log|
  {
  }

  lemma StoredKeepsExact(log: seq<Event>, after: int, backlog: seq<Event>, c: Cursor, q: nat)
    requires Increasing(log) && Exact(log, after, backlog, c, q) && backlog != []
    ensures Exact(log, after, backlog[1..], WriteStored(c, backlog[0]), q)
    ensures Upto(log, backlog[0].seqNo) == Upto(log, c.lastSent) + 1
    ensures backlog[0].seqNo > c.lastSent
  {
    hide Upto, Between, Numbered;
    assert backlog[0] == log[Upto(log, c.lastSent)];
    BetweenNext(log, after, c.lastSent);
    NumberedMore(c.sent, backlog[0]);
  }

  lemma SendStoredKeeps(w: World, a: Action, q: nat)
    requires Inv(w, q) && Enabled(w, a) && a.SendStored?
    ensures Inv(Step(w, a), q)
  {
    hide Upto, Between, Numbered, Exact;
    var h := w.handler;
    StoredKeepsExact(w.log, h.after, h.backlog, h.cursor, q);
    assert WriteStored(h.cursor, h.backlog[0]).sent[..w.delivered] == h.cursor.sent[..w.delivered];
  }

  /** The first numbered event of the channel is the one due. */
  lemma HeadOfQueue(log: seq<Event>, published: nat, ch: Channel, q: nat)
    requires Queued(log, published, ch, q) && ch.buffer != [] && ch.buffer[0].seqNo > 0
    ensures q < |log| && ch.buffer[0] == log[q]
    ensures Queued(log, published, ch.(buffer := ch.buffer[1..]), q + 1)
  {
    hide Numbered;
    var rest := Numbered(ch.buffer[1..]);
    assert Numbered(ch.buffer) == [ch.buffer[0]] + rest by { NumberedHead(ch.buffer); }
    SliceLess(log, q, q + 1 + |rest|);
    SameHead(ch.buffer[0], rest, log[q], log[q + 1..q + 1 + |rest|]);
  }

  /** It is either old news or the very next one. */
  lemma LiveIsNext(log: seq<Event>, published: nat, ch: Channel, q: nat, after: int, c: Cursor)
    requires Increasing(log) && Queued(log, published, ch, q) && Exact(log, after, [], c, q)
    requires ch.buffer != [] && ch.buffer[0].seqNo > 0
    ensures q < |log| && ch.buffer[0] == log[q]
    ensures Queued(log, published, ch.(buffer := ch.buffer[1..]), q + 1)
    ensures ch.buffer[0].seqNo <= c.lastSent <==> q < Upto(log, c.lastSent)
    ensures ch.buffer[0].seqNo > c.lastSent <==> q == Upto(log, c.lastSent)
  {
    hide Upto, Between, Numbered, Queued;
    HeadOfQueue(log, published, ch, q);
    UptoSplits(log, c.lastSent);
  }

  lemma LiveKeepsExact(log: seq<Event>, published: nat, ch: Channel, q: nat, after: int, c: Cursor) returns (q': nat)
    requires Increasing(log) && Queued(log, published, ch, q) && Exact(log, after, [], c, q) && ch.buffer != []
    ensures var next := WriteLive(c, ch.buffer[0]);
            && q' == (if ch.buffer[0].seqNo > 0 then q + 1 else q)
            && Queued(log, published, ch.(buffer := ch.buffer[1..]), q') && Exact(log, after, [], next, q')
            && Upto(log, next.lastSent) == (if Upto(log, c.lastSent) < q' then q' else Upto(log, c.lastSent))
  {
    hide Upto, Between, Numbered;
    var ev := ch.buffer[0];
    NumberedMore(c.sent, ev);
    if ev.seqNo > 0 {
      q' := q + 1;
      LiveIsNext(log, published, ch, q, after, c);
      if ev.seqNo > c.lastSent {
        BetweenNext(log, after, c.lastSent);
      }
    } else {
      q' := q;
      NumberedHead(ch.buffer);
    }
  }

  lemma SendLiveKeeps(w: World, a: Action, q: nat) returns (q': nat)
    requires Inv(w, q) && Enabled(w, a) && a.SendLive?
    ensures Inv(Step(w, a), q')
  {
    hide Upto, Between, Numbered, Exact, Queued;
    var h := w.handler;
    var ev := h.channel.buffer[0];
    q' := LiveKeepsExact(w.log, w.published, h.channel, q, h.after, h.cursor);
    assert (h.cursor.sent + [ev])[..w.delivered] == h.cursor.sent[..w.delivered];
  }

  lemma PingKeeps(w: World, a: Action, q: nat)
    requires Inv(w, q) && Enabled(w, a) && a.Ping?
    ensures Inv(Step(w, a), q)
  {
    hide Upto, Between, Numbered;
    var sent := w.handler.cursor.sent;
    NumberedMore(sent, a.ev);
    assert (sent + [a.ev])[..w.delivered] == sent[..w.delivered];
  }

  /** The next numbered event on the wire is the next logged one after the client's mark. */
  lemma DeliveredIsNext(log: seq<Event>, sent: seq<Event>, d: nat, after: int, lastSent: int, mark: int)
    requires Increasing(log) && d < |sent| && sent[d].seqNo > 0 && after <= lastSent && after <= mark
    requires Numbered(sent) == Between(log, after, lastSent)
    requires Numbered(sent[..d]) == Between(log, after, mark)
    ensures Upto(log, mark) < |log| && sent[d] == log[Upto(log, mark)]
  {
    hide Upto, Between, Numbered;
    NumberedPrefix(sent, d);
    BetweenIsSlice(log, after, lastSent);
    BetweenIsSlice(log, after, mark);
    var k := Upto(log, mark) - Upto(log, after);
    assert Numbered(sent[..d + 1])[k] == sent[d];
    assert Numbered(sent)[k] == sent[d];
  }

  lemma DeliverKeeps(w: World, a: Action, q: nat)
    requires Inv(w, q) && Enabled(w, a) && a.Deliver?
    ensures Inv(Step(w, a), q)
  {
    hide Upto, Between, Numbered;
    var h := w.handler;
    var ev := h.cursor.sent[w.delivered];
    NumberedPrefix(h.cursor.sent, w.delivered);
    NumberedMore(w.received, ev);
    if ev.seqNo > 0 {
      var mark := if w.client.Resumes? then w.client.lastId else h.after;
      BetweenNone(w.log, h.after);
      DeliveredIsNext(w.log, h.cursor.sent, w.delivered, h.after, h.cursor.lastSent, mark);
      BetweenNext(w.log, h.after, mark);
      if w.client.Resumes? {
        BetweenNext(w.log, w.client.base, mark);
      }
    }
  }

  lemma StepKeeps(w: World, a: Action, q: nat) returns (q': nat)
    requires Inv(w, q) && Enabled(w, a)
    ensures Inv(Step(w, a), q')
  {
    q' := q;
    match a
    case Append(_) => AppendKeeps(w, a, q);
    case Publish => PublishKeeps(w, a, q);
    case Broadcast(_) => PublishKeeps(w, a, q);
    case Connect =>
    case Subscribe(_) => q' := w.published; SubscribeKeeps(w, a, q);
    case ReadBacklog => ReadBacklogKeeps(w, a, q);
    case SendStored => SendStoredKeeps(w, a, q);
    case SendLive => q' := SendLiveKeeps(w, a, q);
    case Ping(_) => PingKeeps(w, a, q);
    case HangUp =>
    case Deliver => DeliverKeeps(w, a, q);
    case Disconnect =>
  }

  lemma {:induction false} RunKeeps(w: World, actions: seq<Action>, q: nat) returns (q': nat)
    requires Inv(w, q) && CanRun(w, actions)
    ensures Inv(Run(w, actions), q')
    decreases |actions|
  {
    q' := q;
    if actions != [] {
      q' := StepKeeps(w, actions[0], q);
      q' := RunKeeps(Step(w, actions[0]), actions[1..], q');
    }
  }

  // ----- what that means

  /** Over every run, what a handler has sent of the log is exactly the logged events from
      its resume point to its mark: in order, without repeats and without gaps. */
  lemma SentExactly(start: World, actions: seq<Action>)
    requires Initial(start) && CanRun(start, actions)
    ensures var w := Run(start, actions);
            w.handler.Streaming? ==>
              Numbered(w.handler.cursor.sent) == Between(w.log, w.handler.after, w.handler.cursor.lastSent)
  {
    var q := RunKeeps(start, actions, 0);
  }

  /** What a handler has sent up to, and what it has read, or will read, of the log. */
  function Mark(h: Handler): int
    requires h.Subscribed? || h.Streaming?
  {
    if h.Streaming? then h.cursor.lastSent else h.after
  }

  function Backlog(w: World): seq<Event>
    requires w.handler.Subscribed? || w.handler.Streaming?
  {
    if w.handler.Streaming? then w.handler.backlog else EventsAfter(w.log, w.handler.after)
  }

  /** Over every run, from the moment it has subscribed, a logged event the handler still
      owes is in its backlog, in its channel, or not published yet, unless the hub has
      closed the channel. */
  lemma NothingIsLost(start: World, actions: seq<Action>, i: nat)
    requires Initial(start) && CanRun(start, actions)
    requires var w := Run(start, actions);
             && (w.handler.Subscribed? || w.handler.Streaming?) && w.handler.channel.open
             && i < |w.log| && w.log[i].seqNo > Mark(w.handler)
    ensures var w := Run(start, actions);
            w.log[i] in Backlog(w) || w.log[i] in w.handler.channel.buffer || w.published <= i
  {
    var q := RunKeeps(start, actions, 0);
    hide Numbered, Between, Upto, Run, CanRun, ClientOk, WireOk, EventsAfter;
    var w := Run(start, actions);
    if w.handler.Streaming? {
      Owed(w.log, w.published, w.handler.channel, w.handler.after, w.handler.backlog, w.handler.cursor, q, i);
    } else {
      AfterIsSlice(w.log, w.handler.after);
      UptoSplits(w.log, w.handler.after);
      assert w.log[Upto(w.log, w.handler.after)..][i - Upto(w.log, w.handler.after)] == w.log[i];
    }
  }

  lemma Owed(log: seq<Event>, published: nat, ch: Channel, after: int, backlog: seq<Event>, c: Cursor, q: nat, i: nat)
    requires Increasing(log) && Queued(log, published, ch, q) && ch.open && Exact(log, after, backlog, c, q)
    requires i < |log| && log[i].seqNo > c.lastSent
    ensures log[i] in backlog || log[i] in ch.buffer || published <= i
  {
    hide Numbered, Between, Upto;
    UptoSplits(log, c.lastSent);
    var b := Upto(log, c.lastSent);
    if i < b + |backlog| {
      assert backlog[i - b] == log[i];
    } else if i < published {
      assert Numbered(ch.buffer)[i - q] == log[i];
      NumberedWithin(ch.buffer, log[i]);
    }
  }

  lemma {:induction false} NumberedWithin(evs: seq<Event>, ev: Event)
    requires ev in Numbered(evs)
    ensures ev in evs
  {
    var n := |evs| - 1;
    if ev != evs[n] { NumberedWithin(evs[..n], ev); }
  }

  /** A handler that has caught up has sent the whole log from its resume point on. */
  lemma CaughtUp(start: World, actions: seq<Action>)
    requires Initial(start) && CanRun(start, actions)
    requires var w := Run(start, actions);
             w.handler.Streaming? && w.handler.channel == Channel([], true) && w.handler.backlog == [] &&
             w.published == |w.log|
    ensures var w := Run(start, actions); Numbered(w.handler.cursor.sent) == EventsAfter(w.log, w.handler.after)
  {
    var q := RunKeeps(start, actions, 0);
    hide Numbered, Between, Upto;
    var w := Run(start, actions);
    assert Numbered([]) == [] by { NumberedOfTransient([]); }
    AfterIsSlice(w.log, w.handler.after);
    BetweenIsSlice(w.log, w.handler.after, w.handler.cursor.lastSent);
  }

  /** Over every run, with any number of disconnects, a client that has an id has received
      exactly the log from the point its stream began to that id. */
  lemma ClientStreamIsGapless(start: World, actions: seq<Action>)
    requires Initial(start) && CanRun(start, actions)
    ensures var w := Run(start, actions);
            match w.client
            case Fresh => Numbered(w.received) == []
            case Resumes(base, lastId) => Numbered(w.received) == Between(w.log, base, lastId)
  {
    var q := RunKeeps(start, actions, 0);
  }

  /** Once a client has an id, its stream never begins again: the base stays, the id only
      moves forward, and it moves only with a numbered event. */
  lemma {:induction false} ResumePointOnlyAdvances(w: World, actions: seq<Action>, q: nat)
    requires Inv(w, q) && CanRun(w, actions) && w.client.Resumes?
    ensures var c := Run(w, actions).client;
            c.Resumes? && c.base == w.client.base && c.lastId >= w.client.lastId
    ensures Numbered(Run(w, actions).received) == Numbered(w.received) ==>
            Run(w, actions).client.lastId == w.client.lastId
    decreases |actions|
  {
    hide Numbered, Between, Upto, Exact, Queued, ClientOk;
    if actions != [] {
      var a := actions[0];
      var next := Step(w, a);
      var q' := StepKeeps(w, a, q);
      if a.Deliver? {
        var h := w.handler;
        var ev := h.cursor.sent[w.delivered];
        NumberedMore(w.received, ev);
        if ev.seqNo > 0 {
          ForwardBy(w, q);
        }
      }
      ResumePointOnlyAdvances(next, actions[1..], q');
      ReceivedGrows(next, actions[1..]);
    }
  }

  /** What is delivered next carries a larger number than the client's id. */
  lemma ForwardBy(w: World, q: nat)
    requires Inv(w, q) && Enabled(w, Deliver) && w.client.Resumes?
    requires w.handler.cursor.sent[w.delivered].seqNo > 0
    ensures w.handler.cursor.sent[w.delivered].seqNo > w.client.lastId
  {
    hide Upto, Between, Numbered;
    var h := w.handler;
    DeliveredIsNext(w.log, h.cursor.sent, w.delivered, h.after, h.cursor.lastSent, w.client.lastId);
    UptoSplits(w.log, w.client.lastId);
  }

  lemma {:induction false} ReceivedGrows(w: World, actions: seq<Action>)
    requires CanRun(w, actions)
    ensures |Numbered(w.received)| <= |Numbered(Run(w, actions).received)|
    decreases |actions|
  {
    hide Numbered;
    if actions != [] {
      if actions[0].Deliver? {
        NumberedMore(w.received, w.handler.cursor.sent[w.delivered]);
      }
      ReceivedGrows(Step(w, actions[0]), actions[1..]);
    }
  }

  // ----- where a client resumes

  /** The header a client sends: the id line of the last numbered event it received. */
  function IdHeader(c: Client): string
    requires c.Resumes? ==> c.lastId >= 0
  {
    match c
    case Fresh => ""
    case Resumes(_, lastId) => Decimal(lastId)
  }

  /** Every 64-bit event number comes back from the header it is sent in, and from the
      query parameter; a header that is no number from zero up asks for none, whatever the
      parameter says. */
  lemma EventIdComesBack(ev: Event, query: string)
    requires 0 < ev.seqNo < INT64_LIMIT
    ensures LastEventId(IdLine(ev), query) == Some(ev.seqNo) == LastEventId("", IdLine(ev))
    ensures LastEventId("-" + IdLine(ev), query) == None == LastEventId("", "")
  {
    DigitsAreRead(ev.seqNo);
    DecimalIsRead(ev.seqNo);
    assert ("-" + IdLine(ev))[1..] == IdLine(ev);
  }

  /** The resume point of a connection is the one its header is read as, and the tail of
      the log without one. */
  lemma ConnectReadsHeader(w: World)
    requires Enabled(w, Connect) && (w.client.Resumes? ==> 0 <= w.client.lastId < INT64_LIMIT)
    ensures Step(w, Connect).handler ==
            Opened(match LastEventId(IdHeader(w.client), "")
                   case Some(n) => n
                   case None => LatestSeq(w.log))
  {
    if w.client.Resumes? {
      DecimalIsRead(w.client.lastId);
    }
  }

  // ----- what a client misses

  /** The stream of the client begins at `n` or later, now and ever after. */
  predicate Passed(w: World, n: int) {
    match w.client
    case Fresh => n <= LatestSeq(w.log) && (!w.handler.Off? ==> n <= w.handler.after)
    case Resumes(base, _) => n <= base
  }

  lemma StepPasses(w: World, a: Action, n: int)
    requires Enabled(w, a) && Passed(w, n)
    ensures Passed(Step(w, a), n)
  {
  }

  lemma {:induction false} RunPasses(w: World, actions: seq<Action>, n: int)
    requires CanRun(w, actions) && Passed(w, n)
    ensures Passed(Run(w, actions), n)
    decreases |actions|
  {
    hide Passed;
    if actions != [] {
      StepPasses(w, actions[0], n);
      RunPasses(Step(w, actions[0]), actions[1..], n);
    }
  }

  /** The first connection is known from then on, and the stream begins no earlier; without
      an id, a connection begins inside the log. */
  predicate Began(w: World) {
    && (w.client.Fresh? && !w.handler.Off? ==> w.handler.after <= LatestSeq(w.log))
    && match w.first
       case None => w.handler.Off? && (w.client.Resumes? ==> w.client.base == w.client.lastId)
       case Some(first) => Passed(w, first)
  }

  lemma StepBegan(w: World, a: Action)
    requires Enabled(w, a) && Began(w)
    ensures Began(Step(w, a)) && (w.first.Some? ==> Step(w, a).first == w.first)
  {
  }

  lemma {:induction false} RunBegan(w: World, actions: seq<Action>)
    requires CanRun(w, actions) && Began(w)
    ensures Began(Run(w, actions))
    ensures w.first.Some? ==> Run(w, actions).first == w.first
    decreases |actions|
  {
    hide Began;
    if actions != [] {
      StepBegan(w, actions[0]);
      RunBegan(Step(w, actions[0]), actions[1..]);
    }
  }

  /** In an increasing log an interval splits at any number inside it. */
  lemma BetweenSplits(log: seq<Event>, lo: int, mid: int, hi: int)
    requires Increasing(log) && lo <= mid <= hi
    ensures Between(log, lo, hi) == Between(log, lo, mid) + Between(log, mid, hi)
  {
    hide Between, Upto;
    BetweenIsSlice(log, lo, mid);
    BetweenIsSlice(log, mid, hi);
    BetweenIsSlice(log, lo, hi);
  }

  /** Over every run, a client that has an id has everything logged since its first
      connection exactly when nothing was logged between that connection and the one its
      stream began at, the last it made without an id. */
  lemma NothingMissedExactly(start: World, actions: seq<Action>)
    requires Initial(start) && CanRun(start, actions)
    requires var w := Run(start, actions); w.client.Resumes? && w.first.Some?
    ensures var w := Run(start, actions);
            var first, base, lastId := w.first.value, w.client.base, w.client.lastId;
            && first <= base
            && (Numbered(w.received) == Between(w.log, first, lastId) <==> Between(w.log, first, base) == [])
  {
    var q := RunKeeps(start, actions, 0);
    RunBegan(start, actions);
    hide Between, Upto, Numbered, Run, CanRun;
    var w := Run(start, actions);
    BetweenSplits(w.log, w.first.value, w.client.base, w.client.lastId);
  }

  lemma {:induction false} BetweenAbove(log: seq<Event>, lo: int, hi: int, ev: Event)
    requires ev in Between(log, lo, hi)
    ensures ev.seqNo > lo
  {
    var n := |log| - 1;
    if ev in Between(log[..n], lo, hi) {
      BetweenAbove(log[..n], lo, hi, ev);
    }
  }

  lemma {:induction false} NumberedHas(evs: seq<Event>, ev: Event)
    requires ev in evs && ev.seqNo > 0
    ensures ev in Numbered(evs)
  {
    var n := |evs| - 1;
    if ev != evs[n] {
      NumberedHas(evs[..n], ev);
    }
  }

  /** While a client without an id is connected, whatever was logged up to its resume point
      reaches it in no continuation of the run. */
  lemma SkippedNeverArrives(start: World, actions: seq<Action>, more: seq<Action>, ev: Event)
    requires Initial(start) && CanRun(start, actions)
    requires var w := Run(start, actions);
             w.client.Fresh? && !w.handler.Off? && CanRun(w, more)
    requires ev in Run(Run(start, actions), more).received && ev.seqNo > 0
    ensures ev.seqNo > Run(start, actions).handler.after
  {
    var w := Run(start, actions);
    var q := RunKeeps(start, actions, 0);
    var q' := RunKeeps(w, more, q);
    RunBegan(start, actions);
    RunPasses(w, more, w.handler.after);
    hide Between, Upto, Numbered, Run, CanRun;
    var end := Run(w, more);
    NumberedHas(end.received, ev);
    if end.client.Resumes? {
      BetweenAbove(end.log, end.client.base, end.client.lastId, ev);
    }
  }

  lemma {:induction false} LogGrows(w: World, actions: seq<Action>)
    requires CanRun(w, actions)
    ensures w.log <= Run(w, actions).log
    decreases |actions|
  {
    if actions != [] {
      LogGrows(Step(w, actions[0]), actions[1..]);
    }
  }

  lemma {:induction false} BetweenHas(log: seq<Event>, lo: int, hi: int, i: nat)
    requires i < |log| && lo < log[i].seqNo <= hi
    ensures log[i] in Between(log, lo, hi)
  {
    if i < |log| - 1 {
      BetweenHas(log[..|log| - 1], lo, hi, i);
    }
  }

  lemma RunFirst(w: World, a: Action, rest: seq<Action>)
    requires Enabled(w, a) && CanRun(Step(w, a), rest)
    ensures CanRun(w, [a] + rest) && Run(w, [a] + rest) == Run(Step(w, a), rest)
  {
    assert ([a] + rest)[1..] == rest;
  }

  const START := World([], 0, Off, 0, Fresh, None, [])

  /** Two connections without an id, and an event logged between them. */
  function Losing(first: Event, second: Event): seq<Action> {
    [Append(first)] + ([Connect] + ([Disconnect] + ([Append(second)] + ([Connect] + []))))
  }

  lemma LosingRuns(first: Event, second: Event)
    requires 0 < first.seqNo < second.seqNo
    ensures Initial(START) && CanRun(START, Losing(first, second))
    ensures Run(START, Losing(first, second)) ==
            World([first, second], 0, Opened(second.seqNo), 0, Fresh, Some(first.seqNo), [])
  {
    var w1 := Step(START, Append(first));
    assert w1.log == [first];
    var w2 := Step(w1, Connect);
    var w3 := Step(w2, Disconnect);
    var w4 := Step(w3, Append(second));
    assert w4.log == [first, second];
    hide Step;
    RunFirst(w4, Connect, []);
    RunFirst(w3, Append(second), [Connect] + []);
    RunFirst(w2, Disconnect, [Append(second)] + ([Connect] + []));
    RunFirst(w1, Connect, [Disconnect] + ([Append(second)] + ([Connect] + [])));
    RunFirst(START, Append(first), [Connect] + ([Disconnect] + ([Append(second)] + ([Connect] + []))));
  }

  /** A client whose stream begins at an event it has not received is without that event. */
  lemma HoleStays(w: World, more: seq<Action>, lo: int, n: int)
    requires CanRun(w, more) && Passed(w, n) && lo < n && Inv(w, 0)
    requires 1 < |Run(w, more).log| && Run(w, more).log[1].seqNo == n && Run(w, more).log[1] !in Run(w, more).received
    ensures var end := Run(w, more);
            end.client.Resumes? ==> Numbered(end.received) != Between(end.log, lo, end.client.lastId)
  {
    RunPasses(w, more, n);
    var q := RunKeeps(w, more, 0);
    hide Between, Numbered, Run, CanRun;
    var end := Run(w, more);
    if end.client.Resumes? {
      BetweenHas(end.log, lo, end.client.lastId, 1);
      if Numbered(end.received) == Between(end.log, lo, end.client.lastId) {
        NumberedWithin(end.received, end.log[1]);
      }
    }
  }

  /** However such a run goes on, the client never receives the second event, and once it
      has an id its stream has a hole there. */
  lemma FreshClientCanMiss(first: Event, second: Event, more: seq<Action>)
    requires 0 < first.seqNo < second.seqNo
    ensures CanRun(START, Losing(first, second))
    ensures var w := Run(START, Losing(first, second));
            CanRun(w, more) ==>
              var end := Run(w, more);
              && second in end.log && second !in end.received
              && (end.client.Resumes? ==>
                    Numbered(end.received) != Between(end.log, first.seqNo, end.client.lastId))
  {
    LosingRuns(first, second);
    hide Between, Numbered, Run, CanRun, Losing;
    var w := Run(START, Losing(first, second));
    if CanRun(w, more) {
      if second in Run(w, more).received {
        SkippedNeverArrives(START, Losing(first, second), more, second);
      }
      LogGrows(w, more);
      assert Run(w, more).log[1] == second;
      HoleStays(w, more, first.seqNo, second.seqNo);
    }
  }
}
