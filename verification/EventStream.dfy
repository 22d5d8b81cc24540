/** The resumable event stream of a session.

    Lifecycle events are appended to a log with increasing sequence numbers and then
    published, in log order, to a hub that fans them out; transient events are published
    without being logged and carry no sequence number.  One handler serves one connection:
    it picks a resume point, subscribes, reads the backlog and then follows the live
    channel, skipping what it has already sent.  The client reconnects with the last
    sequence number it received.  The log, the publisher, the hub, the handler, the wire
    and the client take their steps in any interleaving. */
module EventStream {

  import opened Decimals
  import opened Results

  /** `seqNo` is positive for logged events and zero for transient ones. */
  datatype Event = Event(seqNo: int, kind: string, data: string)

  const SUBSCRIBER_BUFFER := 64

  // ----- one handler

  /** What a handler has written so far, and the mark it skips up to. */
  datatype Cursor = Cursor(lastSent: int, sent: seq<Event>)

  function WriteStored(c: Cursor, ev: Event): Cursor {
    Cursor(ev.seqNo, c.sent + [ev])
  }

  function WriteLive(c: Cursor, ev: Event): Cursor {
    if ev.seqNo > 0 && ev.seqNo <= c.lastSent then c
    else Cursor(if ev.seqNo > 0 then ev.seqNo else c.lastSent, c.sent + [ev])
  }

  // ----- the whole system

  /** A hub channel; when its buffer is full the hub closes it instead of dropping an event. */
  datatype Channel = Channel(buffer: seq<Event>, open: bool)

  datatype Handler =
    | Off
    | Opened(after: int)
    | Subscribed(after: int, channel: Channel)
    | Streaming(after: int, channel: Channel, backlog: seq<Event>, cursor: Cursor)

  /** A client has no id yet, or resumes from the last one it received; `base` is the
      resume point its stream began at. */
  datatype Client = Fresh | Resumes(base: int, lastId: int)

  datatype World = World(
    log: seq<Event>,
    published: nat,       // how many logged events the hub has seen
    handler: Handler,
    delivered: nat,       // how much of what the handler sent has reached the client
    client: Client,
    first: Option<int>,   // the resume point of the client's first connection
    received: seq<Event>) // everything the client has received, over all connections

  datatype Action =
    | Append(ev: Event)
    | Publish
    | Broadcast(ev: Event)
    | Connect
    | Subscribe(snapshot: seq<Event>)
    | ReadBacklog
    | SendStored
    | SendLive
    | Ping(ev: Event)
    | HangUp
    | Deliver
    | Disconnect

  /** The resume point a request asks for: the header wins over the query parameter, and
      anything that is not a number from zero up asks for none. */
  function LastEventId(header: string, query: string): Option<int> {
    var v := if header != "" then header else query;
    if v == "" then None
    else match ParseInt(v)
      case None => None
      case Some(n) => if n < 0 then None else Some(n)
  }

  /** The id an event is written with; one without a number has none. */
  function IdLine(ev: Event): string {
    if ev.seqNo > 0 then Decimal(ev.seqNo) else ""
  }

  function LatestSeq(log: seq<Event>): int {
    if log == [] then 0 else log[|log| - 1].seqNo
  }

  /** The logged events above `n`, in order. */
  function EventsAfter(log: seq<Event>, n: int): seq<Event> {
    if log == [] then []
    else EventsAfter(log[..|log| - 1], n) + if log[|log| - 1].seqNo > n then [log[|log| - 1]] else []
  }

  /** The hub hands an event to the channel, or closes the channel when it is full. */
  function Offer(ch: Channel, ev: Event): Channel {
    if !ch.open then ch
    else if |ch.buffer| < SUBSCRIBER_BUFFER then ch.(buffer := ch.buffer + [ev])
    else ch.(open := false)
  }

  function Notify(h: Handler, ev: Event): Handler {
    if h.Subscribed? || h.Streaming? then h.(channel := Offer(h.channel, ev)) else h
  }

  predicate Transient(evs: seq<Event>) {
    forall i :: 0 <= i < |evs| ==> evs[i].seqNo == 0
  }

  predicate Enabled(w: World, a: Action) {
    match a
    case Append(ev) => ev.seqNo > 0 && ev.seqNo > LatestSeq(w.log)
    case Publish => w.published < |w.log|
    case Broadcast(ev) => ev.seqNo == 0
    case Connect => w.handler.Off?
    case Subscribe(snapshot) => w.handler.Opened? && Transient(snapshot) && |snapshot| <= SUBSCRIBER_BUFFER
    case ReadBacklog => w.handler.Subscribed?
    case SendStored => w.handler.Streaming? && w.handler.backlog != []
    case SendLive => w.handler.Streaming? && w.handler.backlog == [] && w.handler.channel.buffer != []
    case Ping(ev) => w.handler.Streaming? && w.handler.backlog == [] && ev.seqNo == 0
    case HangUp => w.handler.Streaming? && w.handler.backlog == [] && w.handler.channel == Channel([], false)
    case Deliver => w.handler.Streaming? && w.delivered < |w.handler.cursor.sent|
    case Disconnect => !w.handler.Off?
  }

  /** Receiving moves the resume point only for events that carry a number. */
  function Receive(c: Client, after: int, ev: Event): Client {
    if ev.seqNo <= 0 then c
    else match c
      case Fresh => Resumes(after, ev.seqNo)
      case Resumes(base, _) => Resumes(base, ev.seqNo)
  }

  function Step(w: World, a: Action): World
    requires Enabled(w, a)
  {
    match a
    case Append(ev) => w.(log := w.log + [ev])
    case Publish => w.(published := w.published + 1, handler := Notify(w.handler, w.log[w.published]))
    case Broadcast(ev) => w.(handler := Notify(w.handler, ev))
    case Connect =>
      var after := if w.client.Resumes? then w.client.lastId else LatestSeq(w.log);
      w.(delivered := 0,
         handler := Opened(after),
         first := if w.first.Some? then w.first else Some(after))
    case Subscribe(snapshot) => w.(handler := Subscribed(w.handler.after, Channel(snapshot, true)))
    case ReadBacklog =>
      var h := w.handler;
      w.(handler := Streaming(h.after, h.channel, EventsAfter(w.log, h.after), Cursor(h.after, [])))
    case SendStored =>
      var h := w.handler;
      w.(handler := h.(backlog := h.backlog[1..], cursor := WriteStored(h.cursor, h.backlog[0])))
    case SendLive =>
      var h := w.handler;
      w.(handler := h.(channel := h.channel.(buffer := h.channel.buffer[1..]),
                       cursor := WriteLive(h.cursor, h.channel.buffer[0])))
    case Ping(ev) => w.(handler := w.handler.(cursor := w.handler.cursor.(sent := w.handler.cursor.sent + [ev])))
    case HangUp => w.(handler := Off, delivered := 0)
    case Deliver =>
      var ev := w.handler.cursor.sent[w.delivered];
      w.(delivered := w.delivered + 1,
         client := Receive(w.client, w.handler.after, ev),
         received := w.received + [ev])
    case Disconnect => w.(handler := Off, delivered := 0)
  }

  predicate CanRun(w: World, actions: seq<Action>)
    decreases |actions|
  {
    actions == [] || (Enabled(w, actions[0]) && CanRun(Step(w, actions[0]), actions[1..]))
  }

  function Run(w: World, actions: seq<Action>): World
    requires CanRun(w, actions)
    decreases |actions|
  {
    if actions == [] then w else Run(Step(w, actions[0]), actions[1..])
  }

  /** Nothing logged, nobody connected; the client is new or was given a resume point. */
  predicate Initial(w: World) {
    && w == World([], 0, Off, 0, w.client, None, [])
    && (w.client.Resumes? ==> w.client.base == w.client.lastId >= 0)
  }

  // ----- what is promised

  /** The events that carry a number. */
  function Numbered(evs: seq<Event>): seq<Event> {
    if evs == [] then []
    else Numbered(evs[..|evs| - 1]) + if evs[|evs| - 1].seqNo > 0 then [evs[|evs| - 1]] else []
  }

  /** The logged events with a number above `lo` and up to `hi`, in log order. */
  function Between(log: seq<Event>, lo: int, hi: int): seq<Event> {
    if log == [] then []
    else Between(log[..|log| - 1], lo, hi) + if lo < log[|log| - 1].seqNo <= hi then [log[|log| - 1]] else []
  }
}
