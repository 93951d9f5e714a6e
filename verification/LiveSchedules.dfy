/**
 Schedules that show where the promises of live updates end: what happens when two server lifetimes greet with the same
 start time, and how a client gets stuck at frame 0. The first shows that the condition on start times is not only
 enough but needed.
 */
module LiveSchedules {
  import opened LiveHub
  import opened LiveClient
  import opened LiveSystem

  ghost predicate Reaches(first: string, s: State) { exists actions :: Run(Initial(first), actions) == s }

  lemma ReachesStart(first: string)
    ensures Reaches(first, Initial(first))
  {
    assert Run(Initial(first), []) == Initial(first);
  }

  lemma ReachesNext(first: string, s: State, a: Action)
    requires s.lives != [] && Reaches(first, s)
    ensures Reaches(first, Next(s, a))
  {
    var actions :| Run(Initial(first), actions) == s;
    assert (actions + [a])[..|actions|] == actions;
    assert Run(Initial(first), actions + [a]) == Next(s, a);
  }

  function NewLives(stamps: seq<string>): seq<Life> { seq(|stamps|, i requires 0 <= i < |stamps| => Life(stamps[i], [])) }

  lemma {:induction false} ReachesRestarts(first: string, s: State, stamps: seq<string>)
    requires s.lives != [] && s.accepting && Reaches(first, s)
    ensures Reaches(first, s.(lives := s.lives + NewLives(stamps)))
    decreases |stamps|
  {
    if stamps == [] {
      assert s.lives + NewLives(stamps) == s.lives;
    } else {
      var init, last := stamps[..|stamps| - 1], stamps[|stamps| - 1];
      ReachesRestarts(first, s, init);
      ReachesNext(first, s.(lives := s.lives + NewLives(init)), Restart(last));
      assert NewLives(stamps) == NewLives(init) + [Life(last, [])];
      assert s.lives + NewLives(stamps) == (s.lives + NewLives(init)) + [Life(last, [])];
    }
  }

  function Published(s: State, log: seq<Frame>): State
    requires s.lives != []
  {
    var cur := |s.lives| - 1;
    s.(lives := s.lives[cur := Life(s.lives[cur].stamp, log)])
  }

  /** The client after its first connection, to a server that had published `head` frames. */
  function Greeted(head: nat, stamp: string): Client { Client(head, head, stamp, true, true, false, 1) }

  /** A new socket with all that the server writes at once. */
  function Accepted(s: State): State
    requires s.lives != []
  {
    var cur := |s.lives| - 1;
    var life := s.lives[cur];
    s.(socket := Open(cur, s.client.lastSeq, |life.log|, Prelude(life.log, s.client.lastSeq, life.stamp), 0, Queue([], true)))
  }

  lemma ReachesAccepted(first: string, s: State)
    requires s.lives != [] && Reaches(first, s) && s.socket.Closed? && s.accepting
    ensures Reaches(first, Accepted(s))
  {
    ReachesNext(first, s, Connect);
    ReachesNext(first, s.(socket := Connecting(s.client.lastSeq)), Accept);
  }

  lemma FirstSocket(s: State)
    requires s.lives != [] && s.client == FRESH
    ensures var life := s.lives[|s.lives| - 1];
            Accepted(s).socket.Open? && Accepted(s).socket.sent == [Hello(|life.log|, life.stamp)]
  {
  }

  /** The state after a first connection: greeted as of the frames published so far, then lost. */
  function Visited(s: State): State
    requires s.lives != []
  {
    var cur := |s.lives| - 1;
    var head := |s.lives[cur].log|;
    s.(client := Greeted(head, s.lives[cur].stamp), history := [Entry(cur, Resynced(head))])
  }

  lemma DropsAfterGreeting(s: State)
    requires s.lives != [] && s.socket.Closed? && s.client == FRESH && s.history == []
    ensures Next(Next(Accepted(s), Deliver), Drop) == Visited(s)
  {
    FirstSocket(s);
    DeliversGreeting(Accepted(s));
  }

  lemma FirstVisit(first: string, s: State)
    requires s.lives != [] && Reaches(first, s) && s.socket.Closed? && s.accepting && s.client == FRESH && s.history == []
    ensures Reaches(first, Visited(s))
  {
    ReachesAccepted(first, s);
    ReachesNext(first, Accepted(s), Deliver);
    ReachesNext(first, Next(Accepted(s), Deliver), Drop);
    DropsAfterGreeting(s);
  }

  lemma DeliversGreeting(s: State)
    requires s.lives != [] && s.client == FRESH && s.history == [] && s.socket.Open? && s.socket.delivered == 0
    requires |s.socket.sent| == 1 && s.socket.sent[0].Hello?
    ensures var m := s.socket.sent[0]; var s' := Next(s, Deliver);
            && s'.client == Greeted(m.head, m.stamp) && s'.history == [Entry(s.socket.life, Resynced(m.head))]
            && s'.lives == s.lives && s'.accepting == s.accepting
  {
    var m := s.socket.sent[0];
    assert Tagged(s.socket.life, [Resynced(m.head)]) == [Entry(s.socket.life, Resynced(m.head))];
  }

  lemma ReachesPublish(first: string, s: State, body: Body)
    requires s.lives != [] && Reaches(first, s) && s.socket.Closed?
    ensures var log := s.lives[|s.lives| - 1].log; Reaches(first, Published(s, log + [Frame(|log| + 1, body)]))
  {
    ReachesNext(first, s, Publish(body));
  }

  /** The greeting does not tell the client that this is another server. */
  predicate Mistaken(c: Client, stamp: string) { c.startedAt == "" || c.startedAt == stamp }

  /** A second connection, mistaken for the first server: the client goes on with frame 2 of a lifetime whose frame 1 it never saw. */
  lemma SecondVisit(first: string, s: State, y: Body, z: Body)
    requires s.lives != [] && Reaches(first, s) && s.socket.Closed? && s.accepting && !z.Stopped?
    requires var life := s.lives[|s.lives| - 1];
             life.log == [Frame(1, y), Frame(2, z)] && s.client.lastSeq == 1 && s.client.everConnected && Mistaken(s.client, life.stamp)
    ensures exists s' :: Reaches(first, s') && s'.lives == s.lives && s'.accepting && s'.client.lastSeq == 2
                         && s'.history == s.history + [Entry(|s.lives| - 1, Applied(Frame(2, z)))]
  {
    var s2 := Accepted(s);
    ReachesAccepted(first, s);
    var life := s.lives[|s.lives| - 1];
    assert life.log[1..] == [Frame(2, z)];
    assert s2.socket.sent == [Hello(2, life.stamp), Data(Frame(2, z))];
    ReachesNext(first, s2, Deliver);
    var s3 := Next(s2, Deliver);
    DeliversMistaken(s2);
    ReachesNext(first, s3, Deliver);
    DeliversSecond(s3, z);
  }

  lemma DeliversMistaken(s: State)
    requires s.lives != [] && s.socket.Open? && s.socket.delivered == 0 && |s.socket.sent| == 2
    requires s.socket.sent[0].Hello? && s.socket.sent[0].head == 2
    requires s.client.lastSeq == 1 && s.client.everConnected && Mistaken(s.client, s.socket.sent[0].stamp)
    ensures var s' := Next(s, Deliver);
            s'.history == s.history && s'.lives == s.lives && s'.accepting == s.accepting && s'.client.lastSeq == 1
            && s'.socket == s.socket.(delivered := 1)
  {
    assert Tagged(s.socket.life, []) == [];
  }

  lemma DeliversSecond(s: State, z: Body)
    requires s.lives != [] && s.socket.Open? && s.socket.delivered == 1 && |s.socket.sent| == 2
    requires s.socket.sent[1] == Data(Frame(2, z)) && !z.Stopped? && s.client.lastSeq == 1
    ensures var s' := Next(s, Deliver);
            s'.history == s.history + [Entry(s.socket.life, Applied(Frame(2, z)))] && s'.lives == s.lives && s'.accepting == s.accepting
            && s'.client.lastSeq == 2
  {
    assert Tagged(s.socket.life, [Applied(Frame(2, z))]) == [Entry(s.socket.life, Applied(Frame(2, z)))];
  }

  // ---- which start times are safe ----

  function StampsOf(lives: seq<Life>): seq<string> { seq(|lives|, i requires 0 <= i < |lives| => lives[i].stamp) }

  /** Every frame up to `lastSeq` of the lifetime the client follows was used, or covered by a reload. */
  ghost predicate AllCovered(s: State) {
    s.client.lastSeq >= 1 ==> s.history != [] && forall n | 1 <= n <= s.client.lastSeq :: Covered(s, Epoch(s.history), n)
  }

  /** Nothing is skipped in any schedule in which the lifetimes start at these times. */
  ghost predicate SafeStamps(stamps: seq<string>)
    requires stamps != []
  {
    forall s | Reaches(stamps[0], s) && StampsOf(s.lives) == stamps :: AllCovered(s)
  }

  predicate TellApart(stamps: seq<string>) {
    forall i, j | 0 <= i < j < |stamps| :: Apart(stamps[i], stamps[j])
  }

  lemma ApartStamps(stamps: seq<string>, lives: seq<Life>)
    requires TellApart(stamps) && StampsOf(lives) == stamps
    ensures DistinctStamps(lives)
  {
    forall i, j | 0 <= i < j < |lives|
      ensures Apart(lives[i].stamp, lives[j].stamp)
    {
      assert stamps[i] == lives[i].stamp && stamps[j] == lives[j].stamp;
    }
  }

  lemma ApartIsSafe(stamps: seq<string>, s: State)
    requires stamps != [] && TellApart(stamps) && Reaches(stamps[0], s) && StampsOf(s.lives) == stamps
    ensures AllCovered(s)
  {
    var actions :| Run(Initial(stamps[0]), actions) == s;
    ApartStamps(stamps, s.lives);
    if s.client.lastSeq >= 1 {
      NothingSkipped(stamps[0], actions, 1);
      forall n | 1 <= n <= s.client.lastSeq
        ensures Covered(s, Epoch(s.history), n)
      {
        NothingSkipped(stamps[0], actions, n);
      }
    }
  }

  lemma UpToLife(stamps: seq<string>, i: nat) returns (s: State)
    requires i < |stamps|
    ensures Reaches(stamps[0], s) && s == State(NewLives(stamps[..i]) + [Life(stamps[i], [])], true, FRESH, Closed, [])
  {
    var first := stamps[0];
    ReachesStart(first);
    ReachesRestarts(first, Initial(first), stamps[1..i + 1]);
    s := Initial(first).(lives := Initial(first).lives + NewLives(stamps[1..i + 1]));
    assert s.lives == NewLives(stamps[..i]) + [Life(stamps[i], [])];
  }

  /** Up to lifetime `i`, which publishes one frame the client is greeted with. */
  lemma UpToFirst(stamps: seq<string>, i: nat, x: Body) returns (s: State)
    requires i < |stamps|
    ensures Reaches(stamps[0], s) && s.lives == NewLives(stamps[..i]) + [Life(stamps[i], [Frame(1, x)])]
    ensures s.accepting && s.socket.Closed? && s.client == Greeted(1, stamps[i]) && s.history == [Entry(i, Resynced(1))]
  {
    s := UpToLife(stamps, i);
    PublishesFirst(stamps[0], s, x);
    s := Published(s, [Frame(1, x)]);
    assert s.lives == NewLives(stamps[..i]) + [Life(stamps[i], [Frame(1, x)])];
    FirstVisit(stamps[0], s);
    s := Visited(s);
  }

  lemma PublishesFirst(first: string, s: State, x: Body)
    requires s.lives != [] && s.lives[|s.lives| - 1].log == [] && Reaches(first, s) && s.socket.Closed?
    ensures Reaches(first, Published(s, [Frame(1, x)]))
  {
    ReachesPublish(first, s, x);
    assert [] + [Frame(1, x)] == [Frame(1, x)];
  }

  lemma PublishesTwo(first: string, s: State, y: Body, z: Body)
    requires s.lives != [] && s.lives[|s.lives| - 1].log == [] && Reaches(first, s) && s.socket.Closed?
    ensures Reaches(first, Published(s, [Frame(1, y), Frame(2, z)]))
  {
    PublishesFirst(first, s, y);
    var s1 := Published(s, [Frame(1, y)]);
    ReachesPublish(first, s1, z);
    assert [Frame(1, y)] + [Frame(2, z)] == [Frame(1, y), Frame(2, z)];
    assert Published(s1, [Frame(1, y), Frame(2, z)]) == Published(s, [Frame(1, y), Frame(2, z)]);
  }

  lemma SameStamps(s: State, log: seq<Frame>)
    requires s.lives != []
    ensures StampsOf(Published(s, log).lives) == StampsOf(s.lives)
  {
  }

  lemma MoreStamps(lives: seq<Life>, stamps: seq<string>)
    ensures StampsOf(lives + NewLives(stamps)) == StampsOf(lives) + stamps
  {
  }

  /** On to lifetime `j`, where the client goes on with the second frame. */
  lemma OnToSecond(stamps: seq<string>, i: nat, j: nat, x: Body, y: Body, z: Body) returns (s: State)
    requires i < j < |stamps| && !z.Stopped? && !Apart(stamps[i], stamps[j])
    ensures Reaches(stamps[0], s) && StampsOf(s.lives) == stamps[..j + 1] && s.accepting && s.client.lastSeq == 2
    ensures s.history == [Entry(i, Resynced(1)), Entry(j, Applied(Frame(2, z)))]
  {
    var first := stamps[0];
    s := UpToFirst(stamps, i, x);
    MoreStamps(NewLives(stamps[..i]), []);
    assert StampsOf(s.lives) == stamps[..i + 1];
    ReachesRestarts(first, s, stamps[i + 1..j + 1]);
    MoreStamps(s.lives, stamps[i + 1..j + 1]);
    s := s.(lives := s.lives + NewLives(stamps[i + 1..j + 1]));
    assert StampsOf(s.lives) == stamps[..j + 1];
    assert s.lives[j] == Life(stamps[j], []);
    s := SecondLife(first, s, y, z);
  }

  /** In a new lifetime that the client takes for the one before. */
  lemma SecondLife(first: string, s0: State, y: Body, z: Body) returns (s: State)
    requires s0.lives != [] && Reaches(first, s0) && s0.socket.Closed? && s0.accepting && !z.Stopped?
    requires var life := s0.lives[|s0.lives| - 1];
             life.log == [] && s0.client.lastSeq == 1 && s0.client.everConnected && Mistaken(s0.client, life.stamp)
    ensures Reaches(first, s) && StampsOf(s.lives) == StampsOf(s0.lives) && s.accepting && s.client.lastSeq == 2
    ensures s.history == s0.history + [Entry(|s0.lives| - 1, Applied(Frame(2, z)))]
  {
    PublishesTwo(first, s0, y, z);
    SameStamps(s0, [Frame(1, y), Frame(2, z)]);
    var s1 := Published(s0, [Frame(1, y), Frame(2, z)]);
    SecondVisit(first, s1, y, z);
    s :| Reaches(first, s) && s.lives == s1.lives && s.accepting && s.client.lastSeq == 2
         && s.history == s1.history + [Entry(|s1.lives| - 1, Applied(Frame(2, z)))];
  }

  /** Start times that cannot be told apart: some schedule over just these passes a frame that was never seen. */
  lemma ClashIsUnsafe(stamps: seq<string>, i: nat, j: nat, x: Body, y: Body, z: Body) returns (s: State)
    requires i < j < |stamps| && !z.Stopped? && !Apart(stamps[i], stamps[j])
    ensures Reaches(stamps[0], s) && StampsOf(s.lives) == stamps && !AllCovered(s)
  {
    s := OnToSecond(stamps, i, j, x, y, z);
    assert s.lives != [] by { assert |StampsOf(s.lives)| == j + 1; }
    ReachesRestarts(stamps[0], s, stamps[j + 1..]);
    MoreStamps(s.lives, stamps[j + 1..]);
    s := s.(lives := s.lives + NewLives(stamps[j + 1..]));
    assert Epoch(s.history) == j && !Covered(s, j, 1);
  }

  /** Nothing is ever skipped if and only if no lifetime but the last has an empty start time or shares it with a later one. */
  lemma StampsDecide(stamps: seq<string>)
    requires stamps != []
    ensures SafeStamps(stamps) <==> TellApart(stamps)
  {
    if TellApart(stamps) {
      forall s | Reaches(stamps[0], s) && StampsOf(s.lives) == stamps
        ensures AllCovered(s)
      {
        ApartIsSafe(stamps, s);
      }
    } else {
      var i, j :| 0 <= i < j < |stamps| && !Apart(stamps[i], stamps[j]);
      var s := ClashIsUnsafe(stamps, i, j, Resync, Resync, Resync);
    }
  }

  // ---- stuck at 0 ----

  /** A run that leaves the client stuck: it connects before anything is published, and then something is. */
  lemma StuckRun(stamp: string, x: Body) returns (s: State)
    ensures Reaches(stamp, s) && s.socket.Closed? && |s.lives| == 1 && s.lives[0] == Life(stamp, [Frame(1, x)])
    ensures Stuck(s.client, |s.lives[0].log|, stamp)
  {
    s := Initial(stamp);
    ReachesStart(stamp);
    FirstVisit(stamp, s);
    s := Visited(s);
    PublishesFirst(stamp, s, x);
    s := Published(s, [Frame(1, x)]);
  }
}
