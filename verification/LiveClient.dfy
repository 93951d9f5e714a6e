/**
 The browser side of live updates: it remembers the number of the last frame it has seen, asks for the rest
 when it reconnects, reconnects on a gap, and reloads everything when the server cannot fill the gap.
 */
module LiveClient {
  import opened Basics
  import opened LiveHub

  /** What travels on a socket: the greeting, the note that no replay is possible, and frames. */
  datatype Msg = Hello(head: nat, stamp: string) | NoReplay | Data(frame: Frame)

  datatype Client = Client(
    lastSeq: int, helloSeq: int, startedAt: string,
    everConnected: bool, resyncedAtHello: bool, stopped: bool, resyncWanted: nat)

  const FRESH := Client(0, 0, "", false, false, false, 0)

  /** What a message makes the page do: use one frame, or reload everything as of a greeting. */
  datatype Event = Applied(frame: Frame) | Resynced(head: int)

  datatype Outcome = Outcome(client: Client, events: seq<Event>, reconnect: bool)

  /** The greeting comes from a server that is not the one the client last heard. */
  predicate Restarted(c: Client, head: int, stamp: string) {
    head < c.lastSeq || (c.startedAt != "" && stamp != c.startedAt)
  }

  function OnHello(c: Client, head: int, stamp: string): Outcome {
    var synced := !c.everConnected || Restarted(c, head, stamp);
    var c' := c.(startedAt := stamp, helloSeq := head, resyncedAtHello := synced, stopped := false);
    if synced then
      Outcome(c'.(everConnected := true, lastSeq := head, resyncWanted := c.resyncWanted + 1), [Resynced(head)], false)
    else
      Outcome(c', [], false)
  }

  function OnData(c: Client, f: Frame): Outcome {
    if f.body.Stopped? then Outcome(c.(stopped := true), [], false)
    else if f.seqNo <= c.lastSeq then Outcome(c, [], false)
    else if f.seqNo > c.lastSeq + 1 then Outcome(c, [], true)
    else
      var c' := c.(lastSeq := f.seqNo);
      Outcome(if f.body.Resync? then c'.(resyncWanted := c.resyncWanted + 1) else c', [Applied(f)], false)
  }

  function OnNoReplay(c: Client): Outcome {
    var c' := c.(lastSeq := Max(c.lastSeq, c.helloSeq));
    if c.resyncedAtHello then Outcome(c', [], false)
    else Outcome(c'.(resyncWanted := c.resyncWanted + 1), [Resynced(c.helloSeq)], false)
  }

  function OnMessage(c: Client, m: Msg): Outcome {
    match m
    case Hello(head, stamp) => OnHello(c, head, stamp)
    case NoReplay => OnNoReplay(c)
    case Data(f) => OnData(c, f)
  }

  /** The module's variables and handlers. `reconnect` asks the caller to drop the socket and open another. */
  class LiveConnection {
    var lastSeq: int
    var helloSeq: int
    var startedAt: string
    var everConnected: bool
    var resyncedAtHello: bool
    var stopped: bool
    var resyncWanted: nat
    ghost var events: seq<Event>

    ghost function State(): Client
      reads this
    {
      Client(lastSeq, helloSeq, startedAt, everConnected, resyncedAtHello, stopped, resyncWanted)
    }

    constructor ()
      ensures State() == FRESH && events == []
    {
      lastSeq, helloSeq, startedAt, resyncWanted := 0, 0, "", 0;
      everConnected, resyncedAtHello, stopped := false, false, false;
      events := [];
    }

    method Greet(head: int, stamp: string)
      modifies this
      ensures var o := OnHello(old(State()), head, stamp); State() == o.client && events == old(events) + o.events
    {
      stopped := false;
      var restarted := head < lastSeq || (startedAt != "" && stamp != startedAt);
      startedAt := stamp;
      helloSeq := head;
      resyncedAtHello := !everConnected || restarted;
      if resyncedAtHello {
        everConnected := true;
        lastSeq := helloSeq;
        resyncWanted := resyncWanted + 1;
        events := events + [Resynced(head)];
      }
    }

    method Apply(m: Msg) returns (reconnect: bool)
      modifies this
      ensures var o := OnMessage(old(State()), m);
              State() == o.client && events == old(events) + o.events && reconnect == o.reconnect
    {
      reconnect := false;
      if m.Hello? {
        Greet(m.head, m.stamp);
        return;
      }
      if m.Data? && m.frame.body.Stopped? {
        stopped := true;
        return;
      }
      if m.Data? {
        if m.frame.seqNo <= lastSeq {
          return;
        }
        if m.frame.seqNo > lastSeq + 1 {
          return true;
        }
        lastSeq := m.frame.seqNo;
        events := events + [Applied(m.frame)];
        if m.frame.body.Resync? {
          resyncWanted := resyncWanted + 1;
        }
      } else {
        lastSeq := Max(lastSeq, helloSeq);
        if !resyncedAtHello {
          resyncWanted := resyncWanted + 1;
          events := events + [Resynced(helloSeq)];
        }
      }
    }
  }

  // ---- one whole connection ----

  /** Everything a connection delivers in turn; it ends early when the client asks for another one. */
  function Feed(c: Client, msgs: seq<Msg>): Outcome
    decreases |msgs|
  {
    if msgs == [] then Outcome(c, [], false)
    else
      var o := OnMessage(c, msgs[0]);
      if o.reconnect then o
      else
        var rest := Feed(o.client, msgs[1..]);
        Outcome(rest.client, o.events + rest.events, rest.reconnect)
  }

  function Frames(fs: seq<Frame>): (msgs: seq<Msg>)
    ensures |msgs| == |fs| && forall i | 0 <= i < |fs| :: msgs[i] == Data(fs[i])
  {
    seq(|fs|, i requires 0 <= i < |fs| => Data(fs[i]))
  }

  function Opening(log: seq<Frame>, since: int, stamp: string): seq<Msg> {
    [Hello(|log|, stamp)] + if SubscriptionAt(log, since).replay then [] else [NoReplay]
  }

  /** What the handler writes before it starts reading the subscriber's queue. */
  function Prelude(log: seq<Frame>, since: int, stamp: string): seq<Msg> {
    Opening(log, since, stamp) + Frames(SubscriptionAt(log, since).missed)
  }

  ghost predicate NoStop(log: seq<Frame>) { forall f | f in log :: !f.body.Stopped? }

  function Uses(fs: seq<Frame>): seq<Event> { seq(|fs|, i requires 0 <= i < |fs| => Applied(fs[i])) }

  /** The frames of the log the client has not used. */
  function Unused(log: seq<Frame>, lastSeq: int): seq<Frame>
    requires 0 <= lastSeq
  {
    if lastSeq < |log| then log[lastSeq..] else []
  }

  /**
   A contiguous run of frames that starts no later than the next expected one is followed to its end: exactly the
   frames not used before are used, in order.
   */
  lemma {:induction false} FollowsRun(c: Client, log: seq<Frame>, from: nat)
    requires Numbered(log) && NoStop(log) && from <= |log| && from <= c.lastSeq
    ensures var o := Feed(c, Frames(log[from..]));
            !o.reconnect && o.client.lastSeq == Max(c.lastSeq, |log|) && o.events == Uses(Unused(log, c.lastSeq))
    decreases |log| - from
  {
    if from < |log| {
      assert log[from] in log;
      FramesHead(log, from);
      FollowsRun(OnMessage(c, Data(log[from])).client, log, from + 1);
    }
  }

  lemma FramesHead(log: seq<Frame>, from: nat)
    requires from < |log|
    ensures var msgs := Frames(log[from..]);
            msgs != [] && msgs[0] == Data(log[from]) && msgs[1..] == Frames(log[from + 1..])
    ensures Uses(log[from..]) == [Applied(log[from])] + Uses(log[from + 1..])
  {
  }

  /** A run that starts beyond the next expected frame is refused outright. */
  lemma RefusesGap(c: Client, log: seq<Frame>, from: nat)
    requires Numbered(log) && NoStop(log) && from < |log| && c.lastSeq < from
    ensures Feed(c, Frames(log[from..])) == Outcome(c, [], true)
  {
    assert log[from] in log;
    assert Frames(log[from..])[0] == Data(log[from]);
  }

  lemma {:induction false} FeedSplits(c: Client, xs: seq<Msg>, ys: seq<Msg>)
    ensures var a := Feed(c, xs);
            !a.reconnect ==>
              var b := Feed(a.client, ys);
              Feed(c, xs + ys) == Outcome(b.client, a.events + b.events, b.reconnect)
    decreases |xs|
  {
    if xs == [] {
      assert xs + ys == ys;
      var b := Feed(c, ys);
      assert [] + b.events == b.events;
    } else {
      var o := OnMessage(c, xs[0]);
      assert (xs + ys)[1..] == xs[1..] + ys;
      FeedSplits(o.client, xs[1..], ys);
      if !o.reconnect {
        var a := Feed(o.client, xs[1..]);
        var b := Feed(a.client, ys);
        assert o.events + (a.events + b.events) == (o.events + a.events) + b.events;
      }
    }
  }

  /** A client that remembers nothing it could ask to continue from, though it has been connected before. */
  predicate Stuck(c: Client, head: int, stamp: string) {
    c.everConnected && !Restarted(c, head, stamp) && c.lastSeq == 0 && head > 0
  }

  /** Before its first greeting a client remembers nothing. */
  predicate Consistent(c: Client) {
    0 <= c.lastSeq && (!c.everConnected ==> c.lastSeq == 0 && c.startedAt == "")
  }

  function AfterOpening(c: Client, log: seq<Frame>, stamp: string): Client {
    var o := OnHello(c, |log|, stamp);
    if SubscriptionAt(log, c.lastSeq).replay then o.client else OnNoReplay(o.client).client
  }

  /** Where the replayed frames start in the log. */
  function ReplayFrom(log: seq<Frame>, since: int): (from: nat)
    ensures from <= |log| && SubscriptionAt(log, since).missed == log[from..]
  {
    if SubscriptionAt(log, since).missed == [] then |log| else since
  }

  lemma OpeningIsFollowed(c: Client, log: seq<Frame>, stamp: string)
    ensures var o := Feed(c, Opening(log, c.lastSeq, stamp));
            !o.reconnect && o.client == AfterOpening(c, log, stamp)
  {
    var opening := Opening(log, c.lastSeq, stamp);
    var rest := opening[1..];
    var o := OnHello(c, |log|, stamp);
    assert Feed(c, opening).client == Feed(o.client, rest).client;
    if rest != [] {
      assert rest[0] == NoReplay && rest[1..] == [];
      assert Feed(OnNoReplay(o.client).client, rest[1..]) == Outcome(OnNoReplay(o.client).client, [], false);
    }
  }

  /** The greeting and the no-replay note, if there is one, bring the client to where the frames start. */
  lemma OpeningReachesReplay(c: Client, log: seq<Frame>, stamp: string)
    requires Numbered(log) && Consistent(c)
    ensures var mid, from := AfterOpening(c, log, stamp), ReplayFrom(log, c.lastSeq);
            if Stuck(c, |log|, stamp) then mid.lastSeq == 0 && from == |log| else from <= mid.lastSeq <= |log|
  {
  }

  /** The greeting, or the note that nothing can be replayed, makes the client reload everything. */
  predicate Reloads(c: Client, log: seq<Frame>, stamp: string) {
    !c.everConnected || Restarted(c, |log|, stamp) || !SubscriptionAt(log, c.lastSeq).replay
  }

  /** What a connection makes the client do: reload as of the greeting and use what comes later, or use what it missed. */
  function Catches(c: Client, log: seq<Frame>, later: seq<Frame>, stamp: string): seq<Event>
    requires 0 <= c.lastSeq
  {
    if Reloads(c, log, stamp) then [Resynced(|log|)] + Uses(later) else Uses(Unused(log + later, c.lastSeq))
  }

  lemma OpeningEvents(c: Client, log: seq<Frame>, stamp: string)
    requires Numbered(log) && Consistent(c) && !Stuck(c, |log|, stamp)
    ensures Feed(c, Opening(log, c.lastSeq, stamp)).events == if Reloads(c, log, stamp) then [Resynced(|log|)] else []
    ensures AfterOpening(c, log, stamp).lastSeq == if Reloads(c, log, stamp) then |log| else c.lastSeq
  {
    var opening := Opening(log, c.lastSeq, stamp);
    var rest := opening[1..];
    var o := OnHello(c, |log|, stamp);
    assert Feed(c, opening).events == o.events + Feed(o.client, rest).events;
    if rest != [] {
      assert rest[0] == NoReplay && rest[1..] == [];
      assert Feed(OnNoReplay(o.client).client, rest[1..]).events == [];
      assert Feed(o.client, rest).events == OnNoReplay(o.client).events + [];
    }
  }

  /**
   Progress. On a connection that stays up, a client that started from its own `lastSeq` ends on the server's
   latest frame exactly when it is not stuck at zero: a client connected before the first frame was published
   asks for "everything" on every reconnection, which the server reads as being new.
   */
  lemma CatchesUp(c: Client, log: seq<Frame>, later: seq<Frame>, stamp: string)
    requires Numbered(log + later) && NoStop(log + later) && Consistent(c)
    ensures var o := Feed(c, Prelude(log, c.lastSeq, stamp) + Frames(later));
            && ((!o.reconnect && o.client.lastSeq == |log| + |later|) <==> !Stuck(c, |log|, stamp))
            && (!Stuck(c, |log|, stamp) ==> o.events == Catches(c, log, later, stamp))
  {
    assert Numbered(log) by {
      assert forall k | 0 <= k < |log| :: log[k] == (log + later)[k];
    }
    WholeConnection(c, log, later, stamp);
    OpeningReachesReplay(c, log, stamp);
    var mid, from, all := AfterOpening(c, log, stamp), ReplayFrom(log, c.lastSeq), log + later;
    if Stuck(c, |log|, stamp) {
      if later != [] {
        RefusesGap(mid, all, from);
      } else {
        assert all[from..] == [];
      }
    } else {
      FollowsRun(mid, all, from);
      OpeningEvents(c, log, stamp);
      assert Unused(all, |log|) == later;
    }
  }

  ghost predicate CoveredBy(events: seq<Event>, n: int) {
    exists i :: 0 <= i < |events| && if events[i].Applied? then events[i].frame.seqNo == n else n <= events[i].head
  }

  /**
   What a reconnection covers. After it every frame of the greeted lifetime up to `lastSeq` has been used or reloaded on
   this connection exactly when the client reloads, or had no frame to its name. Otherwise it takes the greeted
   lifetime for the one it followed, and only where it really is that one have the earlier frames been dealt with.
   */
  lemma GreetingCovers(c: Client, log: seq<Frame>, stamp: string)
    requires Numbered(log) && NoStop(log) && Consistent(c) && c.everConnected
    ensures var o := Feed(c, Prelude(log, c.lastSeq, stamp));
            (forall n | 1 <= n <= o.client.lastSeq :: CoveredBy(o.events, n)) <==> Reloads(c, log, stamp) || c.lastSeq == 0
  {
    var o := Feed(c, Prelude(log, c.lastSeq, stamp));
    assert log + [] == log && Prelude(log, c.lastSeq, stamp) + Frames([]) == Prelude(log, c.lastSeq, stamp);
    CatchesUp(c, log, [], stamp);
    if Stuck(c, |log|, stamp) {
      StuckAtZero(c, log, stamp);
    } else if Reloads(c, log, stamp) {
      assert o.events[0] == Resynced(|log|);
      assert forall n | 1 <= n <= |log| :: CoveredBy(o.events, n);
    } else if c.lastSeq > 0 {
      forall i | 0 <= i < |o.events|
        ensures o.events[i].Applied? && o.events[i].frame.seqNo > 1
      {
        assert o.events[i] == Applied(log[c.lastSeq + i]);
      }
      assert !CoveredBy(o.events, 1);
    }
  }

  lemma StuckAtZero(c: Client, log: seq<Frame>, stamp: string)
    requires Numbered(log) && NoStop(log) && Consistent(c) && Stuck(c, |log|, stamp)
    ensures Feed(c, Prelude(log, c.lastSeq, stamp)).client.lastSeq == 0
  {
    assert log + [] == log && Prelude(log, c.lastSeq, stamp) + Frames([]) == Prelude(log, c.lastSeq, stamp);
    WholeConnection(c, log, [], stamp);
    OpeningReachesReplay(c, log, stamp);
    assert log[|log|..] == [];
  }

  /** How a client gets stuck: its first connection finds a server that has published nothing. */
  lemma BecomesStuck(stamp: string, head: nat)
    requires head > 0
    ensures var o := Feed(FRESH, Prelude([], 0, stamp));
            !o.reconnect && o.client.lastSeq == 0 && Stuck(o.client, head, stamp)
  {
    var msgs := Prelude([], 0, stamp);
    assert msgs == [Hello(0, stamp)];
    assert Feed(OnHello(FRESH, 0, stamp).client, msgs[1..]) == Outcome(OnHello(FRESH, 0, stamp).client, [], false);
  }

  /** A connection is its opening followed by one contiguous run of frames. */
  lemma WholeConnection(c: Client, log: seq<Frame>, later: seq<Frame>, stamp: string)
    ensures var o := Feed(c, Prelude(log, c.lastSeq, stamp) + Frames(later));
            var run := Feed(AfterOpening(c, log, stamp), Frames((log + later)[ReplayFrom(log, c.lastSeq)..]));
            && o.client == run.client && o.reconnect == run.reconnect
            && o.events == Feed(c, Opening(log, c.lastSeq, stamp)).events + run.events
  {
    var run := (log + later)[ReplayFrom(log, c.lastSeq)..];
    ConnectionSplits(log, later, c.lastSeq, stamp);
    OpeningIsFollowed(c, log, stamp);
    FeedSplits(c, Opening(log, c.lastSeq, stamp), Frames(run));
  }

  lemma ConnectionSplits(log: seq<Frame>, later: seq<Frame>, since: int, stamp: string)
    ensures Prelude(log, since, stamp) + Frames(later)
         == Opening(log, since, stamp) + Frames((log + later)[ReplayFrom(log, since)..])
  {
    var from := ReplayFrom(log, since);
    assert (log + later)[from..] == log[from..] + later;
    FramesSplit(log[from..], later);
    var opening, xs, ys := Opening(log, since, stamp), Frames(log[from..]), Frames(later);
    assert (opening + xs) + ys == opening + (xs + ys);
  }

  lemma FramesSplit(xs: seq<Frame>, ys: seq<Frame>)
    ensures Frames(xs + ys) == Frames(xs) + Frames(ys)
  {
  }

  /** While it is stuck, no connection to that server makes the client use a frame or reload anything. */
  lemma StaysStuck(c: Client, log: seq<Frame>, later: seq<Frame>, stamp: string)
    requires Numbered(log + later) && NoStop(log + later) && Consistent(c)
    requires Stuck(c, |log|, stamp)
    ensures var o := Feed(c, Prelude(log, c.lastSeq, stamp) + Frames(later));
            o.events == [] && forall head: nat | head > 0 :: Stuck(o.client, head, stamp)
  {
    var all := log + later;
    assert all[|log|..] == later;
    var opening := Opening(log, c.lastSeq, stamp);
    assert opening == [Hello(|log|, stamp)] && opening[1..] == [];
    assert Feed(c, opening).events == [];
    WholeConnection(c, log, later, stamp);
    if later != [] {
      RefusesGap(OnHello(c, |log|, stamp).client, all, |log|);
    }
  }

  /**
   Start times are compared to the second, so a server restarted within the same second is taken for the old one:
   a client that used the one frame of the first lifetime then passes the first frame of the second, whatever it
   says, without using it and without reloading.
   */
  lemma SameSecondRestartSkips(t: string, x: Body, y: Body, z: Body)
    requires !x.Stopped? && !z.Stopped?
    ensures var c := Feed(FRESH, Prelude([], 0, t) + Frames([Frame(1, x)])).client;
            var o := Feed(c, Prelude([Frame(1, y), Frame(2, z)], c.lastSeq, t));
            c.lastSeq == 1 && o.client.lastSeq == 2 && o.events == [Applied(Frame(2, z))]
  {
    var first := Prelude([], 0, t) + Frames([Frame(1, x)]);
    assert first == [Hello(0, t), Data(Frame(1, x))];
    var c := FeedsTwo(FRESH, first);
    assert [Frame(1, y), Frame(2, z)][1..] == [Frame(2, z)];
    var second := Prelude([Frame(1, y), Frame(2, z)], 1, t);
    assert second == [Hello(2, t), Data(Frame(2, z))];
    var c' := FeedsTwo(c, second);
  }

  lemma FeedsTwo(c: Client, msgs: seq<Msg>) returns (c': Client)
    requires |msgs| == 2 && !OnMessage(c, msgs[0]).reconnect
    requires !OnMessage(OnMessage(c, msgs[0]).client, msgs[1]).reconnect
    ensures var o := OnMessage(c, msgs[0]);
            var p := OnMessage(o.client, msgs[1]);
            Feed(c, msgs) == Outcome(p.client, o.events + p.events, false) && c' == p.client
  {
    var o := OnMessage(c, msgs[0]);
    var p := OnMessage(o.client, msgs[1]);
    assert msgs[1..][0] == msgs[1] && msgs[1..][1..] == [];
    assert Feed(p.client, []) == Outcome(p.client, [], false);
    assert p.events + [] == p.events;
    assert Feed(o.client, msgs[1..]) == Outcome(p.client, p.events, false);
    c' := p.client;
  }

  // ---- what the page is told ----

  predicate AsksReload(e: Event) { e.Resynced? || e.frame.body.Resync? }

  function ReloadCount(events: seq<Event>): nat {
    if events == [] then 0 else (if AsksReload(events[0]) then 1 else 0) + ReloadCount(events[1..])
  }

  lemma {:induction false} CountJoin(a: seq<Event>, b: seq<Event>)
    ensures ReloadCount(a + b) == ReloadCount(a) + ReloadCount(b)
    decreases |a|
  {
    if a == [] {
      assert a + b == b;
    } else {
      assert (a + b)[1..] == a[1..] + b;
      CountJoin(a[1..], b);
    }
  }

  lemma OneMessageCounted(c: Client, m: Msg)
    ensures var o := OnMessage(c, m); o.client.resyncWanted == c.resyncWanted + ReloadCount(o.events)
  {
    var o := OnMessage(c, m);
    assert o.events == [] || (|o.events| == 1 && o.events[1..] == []);
  }

  /** Every reload of a connection, and every frame that asks for one, raises the counter by one, and nothing else does. */
  lemma {:induction false} ReloadsCounted(c: Client, msgs: seq<Msg>)
    ensures var o := Feed(c, msgs); o.client.resyncWanted == c.resyncWanted + ReloadCount(o.events)
    decreases |msgs|
  {
    if msgs != [] {
      var o := OnMessage(c, msgs[0]);
      OneMessageCounted(c, msgs[0]);
      if !o.reconnect {
        ReloadsCounted(o.client, msgs[1..]);
        CountJoin(o.events, Feed(o.client, msgs[1..]).events);
      }
    }
  }

  predicate IsStop(m: Msg) { m.Data? && m.frame.body.Stopped? }

  predicate Greets(msgs: seq<Msg>) { exists i :: 0 <= i < |msgs| && msgs[i].Hello? }

  /** The server said that it stops, and no greeting followed. */
  predicate StopsAt(msgs: seq<Msg>, i: nat) { i < |msgs| && IsStop(msgs[i]) && forall j | i < j < |msgs| :: !msgs[j].Hello? }

  ghost predicate StoppedIn(msgs: seq<Msg>) { exists i: nat :: StopsAt(msgs, i) }

  /** The page counts the server as stopped exactly when it said so since the last greeting. */
  lemma {:induction false} StoppedSinceGreeting(c: Client, msgs: seq<Msg>)
    requires !Feed(c, msgs).reconnect
    ensures Feed(c, msgs).client.stopped <==> StoppedIn(msgs) || (c.stopped && !Greets(msgs))
    decreases |msgs|
  {
    if msgs != [] {
      StoppedSinceGreeting(OnMessage(c, msgs[0]).client, msgs[1..]);
      StoppedHead(msgs);
    }
  }

  lemma StoppedHead(msgs: seq<Msg>)
    requires msgs != []
    ensures Greets(msgs) <==> msgs[0].Hello? || Greets(msgs[1..])
    ensures StoppedIn(msgs) <==> StoppedIn(msgs[1..]) || (IsStop(msgs[0]) && !Greets(msgs[1..]))
  {
    var rest := msgs[1..];
    assert forall i | 0 <= i < |rest| :: rest[i] == msgs[i + 1];
    assert forall i | 0 < i < |msgs| :: msgs[i] == rest[i - 1];
    assert StopsAt(msgs, 0) <==> IsStop(msgs[0]) && !Greets(rest);
    forall i: nat
      ensures StopsAt(rest, i) <==> StopsAt(msgs, i + 1)
    {
    }
    if i: nat :| StopsAt(msgs, i) {
      assert i > 0 ==> StopsAt(rest, i - 1);
    }
  }
}
