/**
 Progress of live updates: a client that loses its connection and gets another one is up to date again when it has
 handled what that brings, and a server that shuts down lets nobody in and sends nothing new.
 */
module LiveProgress {
  import opened LiveHub
  import opened LiveClient
  import opened LiveSystem

  /** The client handles the next `n` messages. */
  function Delivered(s: State, n: nat): (s': State)
    requires s.lives != []
    ensures s'.lives != []
    decreases n
  {
    if n == 0 then s else Delivered(Next(s, Deliver), n - 1)
  }

  /** The connection is lost, and the client gets another one. */
  function Reconnected(s: State): (s': State)
    requires s.lives != []
    ensures s'.lives != []
  {
    Next(Next(Next(s, Drop), Connect), Accept)
  }

  lemma {:induction false} NothingDelivered(s: State, n: nat)
    requires s.lives != [] && !s.socket.Open?
    ensures Delivered(s, n) == s
  {
    if n > 0 {
      NothingDelivered(s, n - 1);
    }
  }

  /** Handling what is on the socket, message by message, is what the client does with a whole connection. */
  lemma {:induction false} DeliversAll(s: State)
    requires s.lives != [] && s.socket.Open? && s.socket.delivered <= |s.socket.sent|
    ensures var o := Feed(s.client, s.socket.sent[s.socket.delivered..]);
            Delivered(s, |s.socket.sent| - s.socket.delivered)
              == s.(client := o.client, history := s.history + Tagged(s.socket.life, o.events),
                    socket := if o.reconnect then Connecting(o.client.lastSeq) else s.socket.(delivered := |s.socket.sent|))
    decreases |s.socket.sent| - s.socket.delivered
  {
    var k := s.socket;
    var msgs := k.sent[k.delivered..];
    if msgs == [] {
      assert s.history + Tagged(k.life, []) == s.history;
    } else {
      var s1 := Next(s, Deliver);
      var o := OnMessage(s.client, msgs[0]);
      assert msgs[1..] == k.sent[k.delivered + 1..];
      if o.reconnect {
        NothingDelivered(s1, |msgs| - 1);
      } else {
        DeliversAll(s1);
        TaggedJoin(s.history, k.life, o.events, Feed(o.client, msgs[1..]).events);
      }
    }
  }

  lemma TaggedJoin(h: seq<Entry>, life: nat, a: seq<Event>, b: seq<Event>)
    ensures h + Tagged(life, a + b) == h + Tagged(life, a) + Tagged(life, b)
  {
    assert Tagged(life, a + b) == Tagged(life, a) + Tagged(life, b);
  }

  lemma ReconnectedIs(s: State)
    requires s.lives != [] && s.accepting
    ensures var cur := |s.lives| - 1; var life := s.lives[cur];
            Reconnected(s) == s.(socket := Open(cur, s.client.lastSeq, |life.log|, Prelude(life.log, s.client.lastSeq, life.stamp), 0, Queue([], true)))
  {
  }

  /** The client has handled all that was written for it, and nothing is queued. */
  predicate UpToDate(s: State) {
    && s.lives != [] && s.socket.Open? && s.socket.life == |s.lives| - 1
    && s.socket.queue == Queue([], true) && s.socket.delivered == |s.socket.sent| && s.client.lastSeq == |s.lives[|s.lives| - 1].log|
  }

  /** The client has the latest frame, unless it was stuck at 0, and on the way reloaded or used exactly what it missed. */
  ghost predicate CaughtUp(s: State, s': State)
    requires s.lives != []
  {
    var cur := |s.lives| - 1;
    var life := s.lives[cur];
    && s'.lives == s.lives && 0 <= s.client.lastSeq
    && (s'.client.lastSeq == |life.log| <==> !Stuck(s.client, |life.log|, life.stamp))
    && (!Stuck(s.client, |life.log|, life.stamp) ==>
          UpToDate(s') && s'.client.everConnected && s'.history == s.history + Tagged(cur, Catches(s.client, life.log, [], life.stamp)))
  }

  /** The state once everything the server writes on a new connection has been handled. */
  function Settled(s: State): State
    requires s.lives != [] && s.accepting
  {
    ReconnectedIs(s);
    Delivered(Reconnected(s), |Reconnected(s).socket.sent|)
  }

  lemma SettledIs(s: State)
    requires s.lives != [] && s.accepting
    ensures var cur := |s.lives| - 1; var life := s.lives[cur];
            var o := Feed(s.client, Prelude(life.log, s.client.lastSeq, life.stamp));
            && Settled(s).client == o.client && Settled(s).lives == s.lives && Settled(s).history == s.history + Tagged(cur, o.events)
            && (!o.reconnect ==>
                  var k := Settled(s).socket; k.Open? && k.life == cur && k.queue == Queue([], true) && k.delivered == |k.sent|)
  {
    ReconnectedIs(s);
    var s1 := Reconnected(s);
    assert s1.socket.sent[0..] == s1.socket.sent;
    DeliversAll(s1);
  }

  lemma SettledCatchesUp(s: State)
    requires s.lives != [] && s.accepting && Consistent(s.client)
    requires Numbered(s.lives[|s.lives| - 1].log) && NoStop(s.lives[|s.lives| - 1].log)
    ensures CaughtUp(s, Settled(s))
  {
    var life := s.lives[|s.lives| - 1];
    SettledIs(s);
    assert life.log + [] == life.log;
    assert Prelude(life.log, s.client.lastSeq, life.stamp) + Frames([]) == Prelude(life.log, s.client.lastSeq, life.stamp);
    CatchesUp(s.client, life.log, [], life.stamp);
    StaysConnected(s.client, Prelude(life.log, s.client.lastSeq, life.stamp));
  }

  /** A greeting is remembered. */
  lemma {:induction false} StaysConnected(c: Client, msgs: seq<Msg>)
    ensures c.everConnected || (msgs != [] && msgs[0].Hello?) ==> Feed(c, msgs).client.everConnected
    decreases |msgs|
  {
    if msgs != [] {
      StaysConnected(OnMessage(c, msgs[0]).client, msgs[1..]);
    }
  }

  lemma InvIsConsistent(s: State)
    requires Inv(s)
    ensures Consistent(s.client)
  {
    if s.history != [] {
      assert s.client.everConnected ==> Continues(s.history, |s.history| - 1, s.lives);
    }
  }

  /**
   From any reachable state, a client that loses its connection and gets another one is up to date once it has handled
   what the server writes then, if and only if it is not stuck at 0.
   */
  lemma ReconnectionCatchesUp(stamp: string, actions: seq<Action>)
    requires var s := Run(Initial(stamp), actions);
             DistinctStamps(s.lives) && s.accepting && NoStop(s.lives[|s.lives| - 1].log)
    ensures CaughtUp(Run(Initial(stamp), actions), Settled(Run(Initial(stamp), actions)))
  {
    RunKeeps(stamp, actions);
    InvIsConsistent(Run(Initial(stamp), actions));
    SettledCatchesUp(Run(Initial(stamp), actions));
  }

  /** The server stops and starts again. */
  function Again(s: State, stamp: string): (s': State)
    requires s.lives != []
    ensures s'.lives != []
  {
    Next(Next(s, EndQueues), Restart(stamp))
  }

  lemma AgainRuns(stamp: string, actions: seq<Action>, again: string)
    ensures Run(Initial(stamp), actions + [EndQueues, Restart(again)]) == Again(Run(Initial(stamp), actions), again)
  {
    var longer := actions + [EndQueues, Restart(again)];
    assert longer[..|actions| + 1] == actions + [EndQueues];
    assert (actions + [EndQueues])[..|actions|] == actions;
    assert Run(Initial(stamp), actions + [EndQueues]) == Next(Run(Initial(stamp), actions), EndQueues);
  }

  /** The new server's greeting gives it away. */
  lemma AgainIsNoticed(s: State, stamp: string)
    requires s.lives != [] && ClientOk(s) && s.client.everConnected && DistinctStamps(Again(s, stamp).lives)
    ensures Restarted(s.client, 0, stamp)
  {
    var lives := Again(s, stamp).lives;
    assert lives[|s.lives|].stamp == stamp && lives[Epoch(s.history)].stamp == s.client.startedAt;
    assert Apart(lives[Epoch(s.history)].stamp, lives[|s.lives|].stamp);
  }

  lemma AgainIs(s: State, stamp: string)
    requires s.lives != []
    ensures var s' := Again(s, stamp);
            && s'.lives == s.lives + [Life(stamp, [])] && s'.accepting && s'.client == s.client && s'.history == s.history
  {
  }

  /** A server that stops and starts again is followed from its first frame: a client that had been there before reloads. */
  lemma RestartIsFollowed(stamp: string, actions: seq<Action>, again: string)
    requires var s := Again(Run(Initial(stamp), actions), again); DistinctStamps(s.lives) && s.client.everConnected
    ensures var s := Again(Run(Initial(stamp), actions), again);
            && s.accepting && UpToDate(Settled(s)) && Settled(s).client.lastSeq == 0
            && Settled(s).history == s.history + [Entry(|s.lives| - 1, Resynced(0))]
  {
    var s0 := Run(Initial(stamp), actions);
    AgainIs(s0, again);
    AgainRuns(stamp, actions, again);
    RunKeeps(stamp, actions + [EndQueues, Restart(again)]);
    EarlierStamps(s0.lives, Life(again, []));
    RunKeeps(stamp, actions);
    AgainIsNoticed(s0, again);
    AgainSettles(Again(s0, again), again);
  }

  lemma EarlierStamps(lives: seq<Life>, last: Life)
    requires DistinctStamps(lives + [last])
    ensures DistinctStamps(lives)
  {
    assert forall i | 0 <= i < |lives| :: lives[i] == (lives + [last])[i];
  }

  lemma AgainSettles(s: State, stamp: string)
    requires Inv(s) && s.accepting && s.lives[|s.lives| - 1] == Life(stamp, []) && Restarted(s.client, 0, stamp)
    ensures UpToDate(Settled(s)) && Settled(s).client.lastSeq == 0
    ensures Settled(s).history == s.history + [Entry(|s.lives| - 1, Resynced(0))]
  {
    InvIsConsistent(s);
    SettledCatchesUp(s);
    assert Uses([]) == [];
    assert Tagged(|s.lives| - 1, [Resynced(0)]) == [Entry(|s.lives| - 1, Resynced(0))];
  }

  /** A frame published then is used as soon as it is written and handled, and the client is up to date again. */
  lemma FrameArrives(s: State, body: Body)
    requires UpToDate(s) && !body.Stopped?
    ensures var cur := |s.lives| - 1; var f := Frame(|s.lives[cur].log| + 1, body);
            var s' := Next(Next(Next(s, Publish(body)), Write), Deliver);
            UpToDate(s') && s'.history == s.history + [Entry(cur, Applied(f))] && s'.lives[cur].log == s.lives[cur].log + [f]
  {
    var cur := |s.lives| - 1;
    var f := Frame(|s.lives[cur].log| + 1, body);
    var s1 := Next(s, Publish(body));
    assert s1.socket.queue == Queue([f], true);
    var s2 := Next(s1, Write);
    assert s2.socket.sent == s.socket.sent + [Data(f)] && s2.socket.queue.buf == [];
    assert OnMessage(s.client, Data(f)).events == [Applied(f)];
    assert Tagged(cur, [Applied(f)]) == [Entry(cur, Applied(f))];
  }

  /** Once the queues are ended nobody gets in, and what is published goes to no socket, until the server is started again. */
  lemma ShutdownIsSilent(s: State, body: Body)
    requires s.lives != []
    ensures var s' := Next(s, EndQueues);
            && Next(s', Accept) == s' && Next(s', Publish(body)).socket == s'.socket && !Next(s', Publish(body)).accepting
            && (s.socket.Open? ==> s'.socket.Open? && s'.socket.sent == s.socket.sent && s'.socket.queue.buf == s.socket.queue.buf)
            && s'.client == s.client && s'.lives == s.lives
  {
  }
}
