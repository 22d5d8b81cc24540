/** The handler's own two loops: the backlog first, then the live channel. */
module EventHandler {

  import opened EventStream
  import opened EventStreamProofs

  /** The events that carry no number, or one above the mark. */
  function Newer(evs: seq<Event>, mark: int): seq<Event> {
    if evs == [] then []
    else
      var ev := evs[|evs| - 1];
      Newer(evs[..|evs| - 1], mark) + if ev.seqNo <= 0 || ev.seqNo > mark then [ev] else []
  }

  /** The last number of a backlog that was read above `after`. */
  function EndOf(backlog: seq<Event>, after: int): int {
    if backlog == [] then after else backlog[|backlog| - 1].seqNo
  }

  function Max(a: int, b: int): int {
    if a > b then a else b
  }

  lemma NewerMore(evs: seq<Event>, k: nat, mark: int)
    requires k < |evs|
    ensures Newer(evs[..k + 1], mark) ==
            Newer(evs[..k], mark) + if evs[k].seqNo <= 0 || evs[k].seqNo > mark then [evs[k]] else []
  {
    assert evs[..k + 1][..k] == evs[..k];
  }

  /** What the handler starts from: nothing sent, the backlog as read from the first `n`
      events of the log, and a channel that begins no later than its end. */
  lemma HandlerBegins(log: seq<Event>, i: nat, n: nat, after: int)
    requires Increasing(log) && i <= n <= |log|
    ensures Exact(log, after, EventsAfter(log[..n], after), Cursor(after, []), i)
    ensures Upto(log, after) + |EventsAfter(log[..n], after)| == Max(Upto(log, after), n)
  {
    hide Upto, Between, EventsAfter;
    AfterIsSlice(log[..n], after);
    UptoSplits(log, after);
    UptoSplits(log[..n], after);
    BetweenNone(log, after);
    NumberedOfTransient([]);
    var k := Upto(log[..n], after);
    if k < n {
      assert log[k].seqNo > after;
      UptoUnique(log, after, k);
    } else if n > 0 {
      assert log[..n][n - 1] == log[n - 1];
    }
  }

  /** A stretch of the log between two of its places, by numbers and by places. */
  lemma SentUpTo(log: seq<Event>, after: int, mark: int, m: nat)
    requires Increasing(log) && m <= |log| && after <= mark && Upto(log, mark) == Max(Upto(log, after), m)
    ensures Between(log, after, mark) == EventsAfter(log[..m], after)
  {
    hide Upto, Between, EventsAfter;
    BetweenIsSlice(log, after, mark);
    AfterIsSlice(log[..m], after);
    UptoSplits(log, after);
    UptoSplits(log[..m], after);
    var k := Upto(log[..m], after);
    if k < m {
      assert log[k].seqNo > after;
      UptoUnique(log, after, k);
    } else if m > 0 {
      assert log[..m][m - 1] == log[m - 1];
    }
  }

  lemma ChannelBegins(log: seq<Event>, live: seq<Event>, i: nat, mark: int)
    requires i + |Numbered(live)| <= |log| && Numbered(live) == log[i..i + |Numbered(live)|]
    ensures Queued(log, i + |Numbered(live)|, Channel(live, true), i)
    ensures Newer(live[..0], mark) == []
  {
  }

  lemma ChannelEnds(log: seq<Event>, published: nat, q: nat)
    requires Queued(log, published, Channel([], true), q)
    ensures q == published
  {
    NumberedOfTransient([]);
  }

  lemma SentIsBetween(log: seq<Event>, after: int, c: Cursor, q: nat)
    requires Exact(log, after, [], c, q)
    ensures Numbered(c.sent) == Between(log, after, c.lastSent)
  {
  }

  /** The moving mark skips what a mark that stays at the end of the backlog would. */
  lemma LiveMark(log: seq<Event>, published: nat, live: seq<Event>, q: nat, after: int, c: Cursor, mark: int)
    requires Increasing(log) && live != []
    requires Queued(log, published, Channel(live, true), q) && Exact(log, after, [], c, q) && mark <= c.lastSent
    requires c.lastSent == mark || (0 < q <= |log| && c.lastSent == log[q - 1].seqNo)
    ensures live[0].seqNo > 0 ==> (live[0].seqNo <= c.lastSent <==> live[0].seqNo <= mark)
    ensures live[0].seqNo > 0 ==> q < |log| && live[0] == log[q]
  {
    hide Upto, Between, Numbered;
    if live[0].seqNo > 0 {
      LiveIsNext(log, published, Channel(live, true), q, after, c);
    }
  }

  /** Whatever the backlog and the channel have in common, and wherever the resume point
      lies, the handler sends the backlog and then what is newer of the live events; of the
      log it has then sent everything above the resume point that it was given, once and in
      order. The backlog was read from the first `n` events of the log; the channel was
      subscribed to after `i` of them, and yields its events until it closes. */
  method Serve(after: int, backlog: seq<Event>, live: seq<Event>, ghost log: seq<Event>, ghost i: nat, ghost n: nat)
    returns (sent: seq<Event>)
    requires Increasing(log) && i <= n <= |log| && backlog == EventsAfter(log[..n], after)
    requires i + |Numbered(live)| <= |log| && Numbered(live) == log[i..i + |Numbered(live)|]
    ensures sent == backlog + Newer(live, EndOf(backlog, after))
    ensures Numbered(sent) == EventsAfter(log[..Max(n, i + |Numbered(live)|)], after)
  {
    hide Exact, Queued, Upto, Between, Numbered, EventsAfter, Newer;
    ghost var end := i + |Numbered(live)|;
    HandlerBegins(log, i, n, after);
    sent := [];
    var lastSent := after;
    for k := 0 to |backlog|
      invariant sent == backlog[..k] && lastSent == EndOf(backlog[..k], after) >= after
      invariant Exact(log, after, backlog[k..], Cursor(lastSent, sent), i)
      invariant Upto(log, lastSent) + |backlog| - k == Max(Upto(log, after), n)
    {
      StoredKeepsExact(log, after, backlog[k..], Cursor(lastSent, sent), i);
      sent := sent + [backlog[k]];
      lastSent := backlog[k].seqNo;
      assert backlog[k..][1..] == backlog[k + 1..];
    }
    ghost var mark: int, q: nat := lastSent, i;
    ChannelBegins(log, live, i, mark);
    assert live[0..] == live && backlog[|backlog|..] == [] && backlog[..|backlog|] == backlog;
    for k := 0 to |live|
      invariant sent == backlog + Newer(live[..k], mark) && mark == EndOf(backlog, after)
      invariant Queued(log, end, Channel(live[k..], true), q) && i <= q
      invariant Exact(log, after, [], Cursor(lastSent, sent), q) && after <= mark <= lastSent
      invariant Upto(log, lastSent) == Max(Max(Upto(log, after), n), q)
      invariant lastSent == mark || (0 < q <= |log| && lastSent == log[q - 1].seqNo)
    {
      var ev := live[k];
      assert live[k..][1..] == live[k + 1..];
      NewerMore(live, k, mark);
      LiveMark(log, end, live[k..], q, after, Cursor(lastSent, sent), mark);
      q := LiveKeepsExact(log, end, Channel(live[k..], true), q, after, Cursor(lastSent, sent));
      if ev.seqNo > 0 && ev.seqNo <= lastSent {
        continue;
      }
      sent := sent + [ev];
      if ev.seqNo > 0 {
        lastSent := ev.seqNo;
      }
    }
    assert live[..|live|] == live && live[|live|..] == [];
    ChannelEnds(log, end, q);
    assert Numbered(sent) == Between(log, after, lastSent) by { SentIsBetween(log, after, Cursor(lastSent, sent), q); }
    SentUpTo(log, after, lastSent, Max(n, end));
  }
}
