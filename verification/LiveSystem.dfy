/**
 The two sides of live updates together: a server that publishes, drops slow subscribers, stops and restarts,
 and one client that connects, reads, loses its connection and comes back. Every schedule of those steps is a
 list of actions; the module proves what the client's history looks like after any such list.
 */
module LiveSystem {
  import opened LiveHub
  import opened LiveClient

  /** One server lifetime: when it started, as the greeting spells it, and everything it published. */
  datatype Life = Life(stamp: string, log: seq<Frame>)

  /**
   The client's current socket. `sent` is what the server wrote on it so far, of which the client has handled
   the first `delivered`; messages on sockets it abandoned are ignored by the client and not represented.
   */
  datatype Socket =
    | Closed
    | Connecting(since: int)
    | Open(life: nat, since: int, head: nat, sent: seq<Msg>, delivered: nat, queue: Queue)

  datatype Entry = Entry(life: nat, event: Event)

  datatype State = State(lives: seq<Life>, accepting: bool, client: Client, socket: Socket, history: seq<Entry>)

  datatype Action =
    | Publish(body: Body)   // a frame goes out; the queue may overflow
    | EndQueues             // the locked part of a shutdown
    | Restart(stamp: string)
    | Connect               // the reconnect timer fires
    | Accept                // the server subscribes the pending connection
    | Write                 // the handler takes a frame off the queue and sends it
    | Deliver               // the client handles the next message
    | Drop                  // the connection is lost or refused, at any time

  function Initial(stamp: string): State { State([Life(stamp, [])], true, FRESH, Closed, []) }

  function Tagged(life: nat, events: seq<Event>): seq<Entry> { seq(|events|, i requires 0 <= i < |events| => Entry(life, events[i])) }

  /** The state once the client has handled `m`. */
  function Handled(s: State, m: Msg): State
    requires s.socket.Open?
  {
    var o := OnMessage(s.client, m);
    s.(client := o.client, history := s.history + Tagged(s.socket.life, o.events),
       socket := if o.reconnect then Connecting(o.client.lastSeq) else s.socket.(delivered := s.socket.delivered + 1))
  }

  function Publishes(s: State, body: Body): State
    requires s.lives != []
  {
    var cur := |s.lives| - 1;
    var life := s.lives[cur];
    var f := Frame(|life.log| + 1, body);
    var s' := s.(lives := s.lives[cur := life.(log := life.log + [f])]);
    if s.socket.Open? && s.socket.life == cur && s.socket.queue.open then
      s'.(socket := s.socket.(queue := Offer(s.socket.queue, f)))
    else s'
  }

  function Ends(s: State): State {
    var s' := s.(accepting := false);
    if s.socket.Open? && s.socket.life == |s.lives| - 1 then
      s'.(socket := s.socket.(queue := s.socket.queue.(open := false)))
    else s'
  }

  function Accepts(s: State): State
    requires s.lives != []
  {
    if s.socket.Connecting? && s.accepting then
      var cur := |s.lives| - 1;
      var life := s.lives[cur];
      s.(socket := Open(cur, s.socket.since, |life.log|, Prelude(life.log, s.socket.since, life.stamp), 0, Queue([], true)))
    else s
  }

  function Writes(s: State): State {
    if s.socket.Open? && s.socket.life == |s.lives| - 1 && s.socket.queue.buf != [] then
      var q := s.socket.queue;
      s.(socket := s.socket.(sent := s.socket.sent + [Data(q.buf[0])], queue := q.(buf := q.buf[1..])))
    else s
  }

  function Delivers(s: State): State {
    if s.socket.Open? && s.socket.delivered < |s.socket.sent| then Handled(s, s.socket.sent[s.socket.delivered]) else s
  }

  /** One step; an action that is not possible in the state does nothing. */
  function Next(s: State, a: Action): (s': State)
    requires s.lives != []
    ensures s'.lives != []
  {
    match a
    case Publish(body) => Publishes(s, body)
    case EndQueues => Ends(s)
    case Restart(stamp) => s.(lives := s.lives + [Life(stamp, [])], accepting := true)
    case Connect => if s.socket.Closed? then s.(socket := Connecting(s.client.lastSeq)) else s
    case Accept => Accepts(s)
    case Write => Writes(s)
    case Deliver => Delivers(s)
    case Drop => s.(socket := Closed)
  }

  function Run(s: State, actions: seq<Action>): (s': State)
    requires s.lives != []
    ensures s'.lives != []
    decreases |actions|
  {
    if actions == [] then s else Next(Run(s, actions[..|actions| - 1]), actions[|actions| - 1])
  }

  // ---- what one subscription is sent ----

  /** Everything a subscription made at `head` stands for: the opening, the replay, and all frames since. */
  function Stream(life: Life, head: nat, since: int): seq<Msg>
    requires head <= |life.log|
  {
    Prelude(life.log[..head], since, life.stamp) + Frames(life.log[head..])
  }

  lemma StreamGrows(life: Life, head: nat, since: int, f: Frame)
    requires head <= |life.log|
    ensures Stream(life.(log := life.log + [f]), head, since) == Stream(life, head, since) + [Data(f)]
  {
    assert (life.log + [f])[..head] == life.log[..head];
    assert (life.log + [f])[head..] == life.log[head..] + [f];
  }

  /** The opening comes first and nothing but genuine frames of that lifetime follows it. */
  lemma StreamMessage(life: Life, head: nat, since: int, i: nat)
    requires head <= |life.log| && Numbered(life.log) && i < |Stream(life, head, since)|
    ensures var m := Stream(life, head, since)[i];
            && (i == 0 <==> m.Hello?) && (m.Hello? ==> m == Hello(head, life.stamp))
            && (m.NoReplay? ==> i == 1 && since < head)
            && (m.Data? ==> 1 <= m.frame.seqNo <= |life.log| && life.log[m.frame.seqNo - 1] == m.frame)
  {
    var opening := Opening(life.log[..head], since, life.stamp);
    var missed := SubscriptionAt(life.log[..head], since).missed;
    var m := Stream(life, head, since)[i];
    if i < |opening| {
      assert m == opening[i];
    } else if i < |opening| + |missed| {
      assert m == Data(missed[i - |opening|]);
    } else {
      assert m == Data(life.log[head..][i - |opening| - |missed|]);
    }
  }

  // ---- the client's history ----

  function Position(e: Event): int { if e.Applied? then e.frame.seqNo else e.head }

  /**
   Entry `i` continues the one before it: a frame is used only right after the frame (or reload) numbered one
   less in the same lifetime, and it is the frame that lifetime published under its number.
   */
  ghost predicate Continues(h: seq<Entry>, i: nat, lives: seq<Life>)
    requires i < |h|
  {
    && h[i].life < |lives|
    && var log := lives[h[i].life].log;
       match h[i].event
       case Applied(f) =>
         && i > 0 && h[i - 1].life == h[i].life && f.seqNo == Position(h[i - 1].event) + 1
         && 1 <= f.seqNo <= |log| && log[f.seqNo - 1] == f && !f.body.Stopped?
       case Resynced(head) =>
         && 0 <= head <= |log|
         && (i > 0 ==> h[i - 1].life < h[i].life || (h[i - 1].life == h[i].life && Position(h[i - 1].event) <= head))
  }

  ghost predicate Chain(h: seq<Entry>, lives: seq<Life>) {
    forall i | 0 <= i < |h| :: Continues(h, i, lives)
  }

  /** The lifetime the client believes it is following. */
  function Epoch(h: seq<Entry>): nat
    requires h != []
  {
    h[|h| - 1].life
  }

  // ---- the invariant ----

  /** A lifetime never greets with the start time of an earlier one, nor with anything after one that gave no time at all. */
  ghost predicate DistinctStamps(lives: seq<Life>) {
    forall i, j | 0 <= i < j < |lives| :: Apart(lives[i].stamp, lives[j].stamp)
  }

  predicate Apart(earlier: string, later: string) { earlier != "" && earlier != later }

  ghost predicate ClientOk(s: State) {
    if s.client.everConnected then
      && s.history != [] && Chain(s.history, s.lives) && Epoch(s.history) < |s.lives|
      && s.client.startedAt == s.lives[Epoch(s.history)].stamp
      && s.client.lastSeq == Position(s.history[|s.history| - 1].event)
    else
      s.history == [] && s.client.lastSeq == 0 && s.client.startedAt == ""
  }

  /** What is written and queued is a prefix of the subscription's stream, and all of it while the queue is open. */
  ghost predicate SocketSends(s: State)
    requires s.socket.Open? && s.socket.life < |s.lives|
  {
    var k := s.socket;
    var life := s.lives[k.life];
    && k.head <= |life.log| && k.delivered <= |k.sent|
    && k.sent + Frames(k.queue.buf) <= Stream(life, k.head, k.since)
    && (k.life == |s.lives| - 1 && k.queue.open ==> k.sent + Frames(k.queue.buf) == Stream(life, k.head, k.since))
  }

  ghost predicate SocketOk(s: State)
    requires s.client.everConnected ==> s.history != []
  {
    var k, c := s.socket, s.client;
    && (k.Connecting? ==> k.since == c.lastSeq)
    && (k.Open? ==>
      && k.life < |s.lives| && SocketSends(s)
      && (c.everConnected ==> Epoch(s.history) <= k.life)
      && (k.delivered == 0 ==> k.since == c.lastSeq)
      && (k.delivered == 1 && !c.resyncedAtHello ==> k.since == c.lastSeq)
      && (k.delivered == 0 && c.everConnected && Epoch(s.history) == k.life ==> c.lastSeq <= k.head)
      && (k.delivered > 0 ==>
            && c.everConnected && Epoch(s.history) == k.life && c.helloSeq == k.head
            && (c.resyncedAtHello ==> k.head <= c.lastSeq)))
  }

  ghost predicate Inv(s: State) {
    && s.lives != [] && (forall i | 0 <= i < |s.lives| :: Numbered(s.lives[i].log))
    && ClientOk(s) && SocketOk(s)
  }

  lemma ChainSurvives(h: seq<Entry>, lives: seq<Life>, lives': seq<Life>)
    requires Chain(h, lives) && |lives| <= |lives'|
    requires forall i | 0 <= i < |lives| :: lives[i].log <= lives'[i].log
    ensures Chain(h, lives')
  {
    forall i | 0 <= i < |h|
      ensures Continues(h, i, lives')
    {
      assert Continues(h, i, lives);
      assert lives[h[i].life].log <= lives'[h[i].life].log;
    }
  }

  lemma OfferExtends(sent: seq<Msg>, q: Queue, f: Frame)
    ensures if Offer(q, f).open then sent + Frames(Offer(q, f).buf) == sent + Frames(q.buf) + [Data(f)]
            else Offer(q, f).buf == q.buf || !q.open
  {
    assert Frames(q.buf + [f]) == Frames(q.buf) + [Data(f)];
    assert sent + (Frames(q.buf) + [Data(f)]) == (sent + Frames(q.buf)) + [Data(f)];
  }

  lemma PublishKeepsSends(s: State, body: Body)
    requires Inv(s) && s.socket.Open?
    ensures SocketSends(Publishes(s, body))
  {
    var cur := |s.lives| - 1;
    if s.socket.life == cur {
      var f := Frame(|s.lives[cur].log| + 1, body);
      StreamGrows(s.lives[cur], s.socket.head, s.socket.since, f);
      OfferExtends(s.socket.sent, s.socket.queue, f);
    }
  }

  lemma PublishKeepsClient(s: State, body: Body)
    requires Inv(s)
    ensures ClientOk(Publishes(s, body))
  {
    if s.client.everConnected {
      ChainSurvives(s.history, s.lives, Publishes(s, body).lives);
    }
  }

  lemma PublishKeepsNumbers(s: State, body: Body)
    requires Inv(s)
    ensures forall i | 0 <= i < |Publishes(s, body).lives| :: Numbered(Publishes(s, body).lives[i].log)
  {
    var cur := |s.lives| - 1;
    var log := s.lives[cur].log;
    assert Numbered(log + [Frame(|log| + 1, body)]);
  }

  lemma PublishKeepsSocket(s: State, body: Body)
    requires Inv(s)
    ensures SocketOk(Publishes(s, body))
  {
    if s.socket.Open? {
      PublishKeepsSends(s, body);
    }
  }

  lemma PublishKeeps(s: State, body: Body)
    requires Inv(s)
    ensures Inv(Publishes(s, body))
  {
    PublishKeepsNumbers(s, body);
    PublishKeepsClient(s, body);
    PublishKeepsSocket(s, body);
  }

  lemma RestartKeeps(s: State, stamp: string)
    requires Inv(s)
    ensures Inv(Next(s, Restart(stamp)))
  {
    if s.client.everConnected {
      ChainSurvives(s.history, s.lives, Next(s, Restart(stamp)).lives);
    }
  }

  lemma AcceptKeeps(s: State)
    requires Inv(s)
    ensures Inv(Accepts(s))
  {
    var log := s.lives[|s.lives| - 1].log;
    assert log[..|log|] == log && log[|log|..] == [];
    assert Frames([]) == [];
    if s.client.everConnected {
      var last := |s.history| - 1;
      assert Continues(s.history, last, s.lives);
    }
  }

  lemma WriteMovesOne(sent: seq<Msg>, buf: seq<Frame>)
    requires buf != []
    ensures (sent + [Data(buf[0])]) + Frames(buf[1..]) == sent + Frames(buf)
  {
  }

  lemma WriteKeeps(s: State)
    requires Inv(s)
    ensures Inv(Writes(s))
  {
    if s.socket.Open? && s.socket.queue.buf != [] {
      WriteMovesOne(s.socket.sent, s.socket.queue.buf);
    }
  }

  lemma ChainExtends(h: seq<Entry>, e: Entry, lives: seq<Life>)
    requires Chain(h, lives) && Continues(h + [e], |h|, lives)
    ensures Chain(h + [e], lives)
  {
    var g := h + [e];
    forall i | 0 <= i < |g|
      ensures Continues(g, i, lives)
    {
      if i < |h| {
        assert Continues(h, i, lives);
      }
    }
  }

  /** What the client may assume of the next message on its socket. */
  ghost predicate Genuine(s: State, m: Msg)
    requires s.socket.Open? && s.socket.life < |s.lives|
  {
    var k, log := s.socket, s.lives[s.socket.life].log;
    && (k.delivered == 0 <==> m.Hello?) && (m.Hello? ==> m == Hello(k.head, s.lives[k.life].stamp))
    && (m.NoReplay? ==> k.delivered == 1 && k.since < k.head)
    && (m.Data? ==> 1 <= m.frame.seqNo <= |log| && log[m.frame.seqNo - 1] == m.frame)
  }

  lemma NextIsGenuine(s: State)
    requires Inv(s) && s.socket.Open? && s.socket.delivered < |s.socket.sent|
    ensures Genuine(s, s.socket.sent[s.socket.delivered])
  {
    var k := s.socket;
    assert k.sent[k.delivered] == (k.sent + Frames(k.queue.buf))[k.delivered];
    StreamMessage(s.lives[k.life], k.head, k.since, k.delivered);
  }

  lemma QuietKeeps(s: State, m: Msg)
    requires Inv(s) && s.socket.Open? && s.socket.delivered < |s.socket.sent| && Genuine(s, m)
    requires DistinctStamps(s.lives) && OnMessage(s.client, m).events == []
    ensures Inv(Handled(s, m))
  {
    assert s.history + Tagged(s.socket.life, []) == s.history;
  }

  /** The heart of it: whatever the client acts upon next, its history stays a chain. */
  lemma EventContinues(s: State, m: Msg)
    requires Inv(s) && s.socket.Open? && s.socket.delivered < |s.socket.sent| && Genuine(s, m)
    requires OnMessage(s.client, m).events != []
    ensures var e := OnMessage(s.client, m).events[0];
            && OnMessage(s.client, m).events == [e] && Position(e) == OnMessage(s.client, m).client.lastSeq
            && Continues(s.history + [Entry(s.socket.life, e)], |s.history|, s.lives)
  {
    if s.client.everConnected {
      assert Continues(s.history, |s.history| - 1, s.lives);
    }
  }

  lemma EventKeeps(s: State, m: Msg)
    requires Inv(s) && s.socket.Open? && s.socket.delivered < |s.socket.sent| && Genuine(s, m)
    requires OnMessage(s.client, m).events != []
    ensures Inv(Handled(s, m))
  {
    EventContinues(s, m);
    var e := Entry(s.socket.life, OnMessage(s.client, m).events[0]);
    assert Tagged(s.socket.life, OnMessage(s.client, m).events) == [e];
    ChainExtends(s.history, e, s.lives);
  }

  lemma DeliverKeeps(s: State)
    requires Inv(s) && DistinctStamps(s.lives)
    ensures Inv(Delivers(s))
  {
    if s.socket.Open? && s.socket.delivered < |s.socket.sent| {
      var m := s.socket.sent[s.socket.delivered];
      NextIsGenuine(s);
      if OnMessage(s.client, m).events == [] {
        QuietKeeps(s, m);
      } else {
        EventKeeps(s, m);
      }
    }
  }

  lemma StepKeeps(s: State, a: Action)
    requires Inv(s) && DistinctStamps(s.lives)
    ensures Inv(Next(s, a))
  {
    match a
    case Publish(body) => PublishKeeps(s, body);
    case Restart(stamp) => RestartKeeps(s, stamp);
    case Accept => AcceptKeeps(s);
    case Write => WriteKeeps(s);
    case Deliver => DeliverKeeps(s);
    case _ =>
  }

  lemma StampsOfPast(s: State, a: Action)
    requires s.lives != [] && DistinctStamps(Next(s, a).lives)
    ensures DistinctStamps(s.lives)
  {
    var s' := Next(s, a);
    assert forall i | 0 <= i < |s.lives| :: s.lives[i].stamp == s'.lives[i].stamp;
  }

  lemma {:induction false} RunKeeps(stamp: string, actions: seq<Action>)
    requires DistinctStamps(Run(Initial(stamp), actions).lives)
    ensures Inv(Run(Initial(stamp), actions))
    decreases |actions|
  {
    if actions != [] {
      var past := actions[..|actions| - 1];
      StampsOfPast(Run(Initial(stamp), past), actions[|actions| - 1]);
      RunKeeps(stamp, past);
      StepKeeps(Run(Initial(stamp), past), actions[|actions| - 1]);
    }
  }

  // ---- what follows for the client ----

  /** The history since entry `r`, a reload as of frame `head`, is the log from there on, frame by frame. */
  ghost predicate FollowsFrom(s: State, r: nat, head: nat)
    requires s.history != []
  {
    var h, e := s.history, Epoch(s.history);
    && r < |h| && e < |s.lives| && h[r] == Entry(e, Resynced(head))
    && s.client.lastSeq == head + (|h| - 1 - r) <= |s.lives[e].log| && Numbered(s.lives[e].log)
    && forall i | r < i < |h| :: h[i] == Entry(e, Applied(s.lives[e].log[head + (i - r) - 1]))
  }

  lemma {:induction false} ChainSinceReload(h: seq<Entry>, lives: seq<Life>) returns (r: nat, head: nat)
    requires h != [] && Chain(h, lives)
    ensures r < |h| && h[r] == Entry(Epoch(h), Resynced(head)) && Epoch(h) < |lives|
    ensures Position(h[|h| - 1].event) == head + (|h| - 1 - r) <= |lives[Epoch(h)].log|
    ensures forall i | r < i < |h| :: h[i] == Entry(Epoch(h), Applied(lives[Epoch(h)].log[head + (i - r) - 1]))
    decreases |h|
  {
    var last := |h| - 1;
    assert Continues(h, last, lives);
    if h[last].event.Resynced? {
      r, head := last, h[last].event.head;
    } else {
      var past := h[..last];
      forall i | 0 <= i < last
        ensures Continues(past, i, lives)
      {
        assert Continues(h, i, lives);
      }
      r, head := ChainSinceReload(past, lives);
    }
  }

  /**
   Safety over every schedule: as long as no two lifetimes share a start time, the client that has been greeted
   reloaded everything at some point of the lifetime it follows, as of some frame, and has since used exactly
   that lifetime's frames from there up to `lastSeq`, each once and in order. So `lastSeq` never passes a frame
   that was neither used nor covered by a reload.
   */
  lemma ClientFollowsLog(stamp: string, actions: seq<Action>) returns (r: nat, head: nat)
    requires DistinctStamps(Run(Initial(stamp), actions).lives)
    requires Run(Initial(stamp), actions).client.everConnected
    ensures var s := Run(Initial(stamp), actions); s.history != [] && FollowsFrom(s, r, head)
  {
    RunKeeps(stamp, actions);
    var s := Run(Initial(stamp), actions);
    r, head := ChainSinceReload(s.history, s.lives);
  }

  /** A frame is in the client's past if it was used, or a reload as of a later frame was begun. */
  ghost predicate Covered(s: State, life: nat, seqNo: int) {
    exists i :: 0 <= i < |s.history| && s.history[i].life == life &&
      (if s.history[i].event.Applied? then Position(s.history[i].event) == seqNo else seqNo <= Position(s.history[i].event))
  }

  lemma FollowingCovers(s: State, r: nat, head: nat, seqNo: int)
    requires s.history != [] && FollowsFrom(s, r, head) && 1 <= seqNo <= s.client.lastSeq
    ensures Covered(s, Epoch(s.history), seqNo)
  {
    var i := if seqNo <= head then r else r + (seqNo - head);
    assert s.history[i].life == Epoch(s.history);
    if seqNo > head {
      assert s.history[i] == Entry(Epoch(s.history), Applied(s.lives[Epoch(s.history)].log[seqNo - 1]));
    }
  }

  lemma NothingSkipped(stamp: string, actions: seq<Action>, seqNo: int)
    requires DistinctStamps(Run(Initial(stamp), actions).lives)
    requires 1 <= seqNo <= Run(Initial(stamp), actions).client.lastSeq
    ensures var s := Run(Initial(stamp), actions); s.history != [] && Covered(s, Epoch(s.history), seqNo)
  {
    RunKeeps(stamp, actions);
    var r, head := ClientFollowsLog(stamp, actions);
    FollowingCovers(Run(Initial(stamp), actions), r, head, seqNo);
  }

  lemma {:induction false} ChainIsOrdered(h: seq<Entry>, lives: seq<Life>, i: nat, j: nat)
    requires Chain(h, lives) && i < j < |h|
    ensures h[i].life <= h[j].life
    ensures h[i].life == h[j].life && h[j].event.Applied? ==> Position(h[i].event) < Position(h[j].event)
    ensures h[i].life == h[j].life ==> Position(h[i].event) <= Position(h[j].event)
    decreases j
  {
    assert Continues(h, j, lives);
    if i < j - 1 {
      ChainIsOrdered(h, lives, i, j - 1);
    }
  }

  /** Within one lifetime frames are used in strictly increasing order, so never twice; `stopped` is never one of them. */
  lemma UsedInOrder(stamp: string, actions: seq<Action>, i: nat, j: nat)
    requires DistinctStamps(Run(Initial(stamp), actions).lives)
    requires i < j < |Run(Initial(stamp), actions).history|
    ensures var h := Run(Initial(stamp), actions).history;
            h[i].event.Applied? && h[j].event.Applied? ==>
              && !h[i].event.frame.body.Stopped? && !h[j].event.frame.body.Stopped?
              && (h[i].life < h[j].life || (h[i].life == h[j].life && h[i].event.frame.seqNo < h[j].event.frame.seqNo))
  {
    var s := Run(Initial(stamp), actions);
    RunKeeps(stamp, actions);
    assert Continues(s.history, i, s.lives) && Continues(s.history, j, s.lives);
    ChainIsOrdered(s.history, s.lives, i, j);
  }

  /**
   For every history: what a live subscription was sent and still has queued is its opening, its replay and all
   later frames without a hole, up to the present until its queue is closed.
   */
  lemma NothingLostWhileOpen(stamp: string, actions: seq<Action>)
    requires DistinctStamps(Run(Initial(stamp), actions).lives)
    requires Run(Initial(stamp), actions).socket.Open?
    ensures var s := Run(Initial(stamp), actions); s.socket.life < |s.lives| && SocketSends(s)
  {
    RunKeeps(stamp, actions);
  }
}
