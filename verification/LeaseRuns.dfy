/**
 Runs of the apply lock: how it changes hands, and what lost answers, failed calls and restarts do to it.
 */
module LeaseRuns {
  import opened Basics
  import opened ApplyLease

  // ---- lost answers and failed calls ----

  /**
   A client whose first call is not answered is let through without the lock, whoever holds it; its unlock then leaves
   the lease alone. If the call arrived and there was no lease, the lease names the client all the same.
   */
  lemma UnansweredIsLetThrough(s: State, a: nat)
    requires Live(s, a) && s.agents[a].phase.Creating?
    ensures var s' := Next(s, Create(a, false)); var id := s.agents[a].id; var start := s.agents[a].phase.start;
            && Live(s', a) && s'.agents[a].phase == Unguarded
            && s'.writes == (if s.writes == [] then [Claim(id, start)] else s.writes)
            && Next(s', Finish(a)) == At(s', a, Idle)
    ensures Next(s, Unreachable(a)) == At(s, a, Unguarded) && Next(At(s, a, Unguarded), Finish(a)) == At(s, a, Idle)
  {
    assert At(s, a, Unguarded).agents[a].phase == Unguarded;
    assert At(At(s, a, Unguarded), a, Idle) == At(s, a, Idle);
  }

  /** The calls of one acquisition with nothing in between and the answer to the last one lost, and the unlock if there is one. */
  function AloneLost(s: State, a: nat): State {
    var s1 := Next(s, Begin(a));
    if s.writes == [] then Next(Next(s1, Create(a, false)), Finish(a))
    else Next(Next(Next(Next(s1, Create(a, true)), Get(a)), Check(a)), Update(a, false))
  }

  /** A lost answer leaves a claim nobody works under: it keeps every client of other processes out, and the client itself. */
  lemma LostAnswerLocksOut(s: State, a: nat)
    requires Live(s, a) && s.agents[a].phase.Idle? && s.agents[a].id.Process? && Alone(s, a).agents[a].phase.Holding?
    ensures var s' := AloneLost(s, a);
            && Live(s', a) && s'.agents[a].phase.Idle?
            && s'.writes == s.writes + [Claim(s.agents[a].id, s.now)]
            && !Alone(s', a).agents[a].phase.Holding?
  {
    AloneAcquires(s, a);
    LostAnswerClaims(s, a);
    ClaimLasts(AloneLost(s, a), a, s.agents[a].id, s.now);
  }

  lemma LostAnswerClaims(s: State, a: nat)
    requires Live(s, a) && s.agents[a].phase.Idle?
    requires s.writes == [] || !Held(s.writes[Current(s)], s.now, s.agents[a].id, s.alive)
    ensures AloneLost(s, a) == Write(s, Claim(s.agents[a].id, s.now))
  {
    var s1 := Next(s, Begin(a));
    assert s1.agents[a] == s.agents[a].(phase := Creating(s.now));
    assert s.agents[a := s.agents[a].(phase := Idle)] == s.agents;
    if s.writes == [] {
      UnansweredIsLetThrough(s1, a);
      assert AloneLost(s, a).agents == s.agents;
    } else {
      var s2 := Next(s1, Create(a, true));
      assert s2.agents[a] == s.agents[a].(phase := Reading(s.now));
      var s4 := Next(Next(s2, Get(a)), Check(a));
      assert s4.agents[a] == s.agents[a].(phase := Updating(s.now, Current(s)));
      assert AloneLost(s, a).agents == s.agents;
    }
  }

  /** A release that fails in one of its calls, or finds the lease changed, leaves it as it is. */
  lemma FailedReleaseKeepsLease(s: State, a: nat)
    requires Live(s, a) && s.agents[a].phase.Holding? && s.writes != []
    ensures Next(Next(s, Finish(a)), Abort(a)) == At(s, a, Idle)
    ensures Next(Next(Next(s, Finish(a)), Get(a)), Abort(a)) == At(s, a, Idle)
  {
    var s1 := Next(s, Finish(a));
    assert s1.agents[a].phase == Releasing && At(s1, a, Idle) == At(s, a, Idle);
    var s2 := Next(s1, Get(a));
    assert At(s2, a, Idle).agents == At(s, a, Idle).agents;
  }

  /** A client begins, and its unlock runs, only in their turn. */
  lemma OutOfTurn(s: State, a: nat)
    requires Live(s, a)
    ensures !s.agents[a].phase.Idle? ==> Next(s, Begin(a)) == s
    ensures !s.agents[a].phase.Holding? && !s.agents[a].phase.Unguarded? ==> Next(s, Finish(a)) == s
  {
  }

  // ---- how the lock changes hands ----

  lemma RunNext(s: State, actions: seq<Action>, act: Action)
    ensures Run(s, actions + [act]) == Next(Run(s, actions), act)
  {
    assert (actions + [act])[..|actions|] == actions;
  }

  /** An undisturbed acquisition as a run. */
  lemma RunAlone(s: State, actions: seq<Action>, a: nat) returns (longer: seq<Action>)
    ensures Run(s, longer) == Alone(Run(s, actions), a)
  {
    RunNext(s, actions, Begin(a));
    longer := actions + [Begin(a)];
    RunNext(s, longer, Create(a, true));
    longer := longer + [Create(a, true)];
    var s1 := Run(s, longer);
    if Live(s1, a) && s1.agents[a].phase.Reading? {
      RunNext(s, longer, Get(a));
      longer := longer + [Get(a)];
      RunNext(s, longer, Check(a));
      longer := longer + [Check(a)];
      RunNext(s, longer, Update(a, true));
      longer := longer + [Update(a, true)];
    }
  }

  /** Two clients on two hosts, and no lease yet. */
  function Started(now: int): State { Next(Next(Initial(now), Spawn(0, "apply", "a", 1)), Spawn(1, "apply", "b", 2)) }

  lemma StartedAre(now: int)
    ensures Started(now) == State([], now, map[0 := Agent(Process("apply", "a", 1), Idle), 1 := Agent(Process("apply", "b", 2), Idle)], {("a", 1), ("b", 2)})
  {
    var s := Next(Initial(now), Spawn(0, "apply", "a", 1));
    assert s == State([], now, map[0 := Agent(Process("apply", "a", 1), Idle)], {("a", 1)});
  }

  /** The first client gets the lock; the second is refused before the hour is over and takes it over when it is. */
  lemma HandedOverAfterAnHour(now: int, waited: nat)
    ensures var held := Alone(Started(now), 0); var later := Next(held, Tick(waited)); var s := Alone(later, 1);
            && InWindow(held, 0) && (InWindow(later, 0) <==> waited < WINDOW)
            && (if waited < WINDOW then InWindow(s, 0) && !InWindow(s, 1) else InWindow(s, 1) && !InWindow(s, 0))
  {
    StartedAre(now);
    var s0 := Started(now);
    AloneAcquires(s0, 0);
    var held := Alone(s0, 0);
    assert held == At(Write(s0, Claim(Process("apply", "a", 1), now)), 0, Holding(now, 0));
    var later := Next(held, Tick(waited));
    ClaimLasts(later, 1, Process("apply", "a", 1), now);
    AloneMovesOnly(later, 1, 0);
  }

  /** Acquiring moves no other client and takes no time. */
  lemma AloneMovesOnly(s: State, a: nat, b: nat)
    requires Live(s, a) && s.agents[a].phase.Idle? && b != a
    ensures var s' := Alone(s, a);
            && s'.now == s.now && (b in s'.agents <==> b in s.agents) && (b in s.agents ==> s'.agents[b] == s.agents[b])
            && (a in s'.agents && s'.agents[a].phase.Holding? ==> s'.agents[a].phase.start == s.now)
  {
    AloneAcquires(s, a);
  }

  const STARTING := [Spawn(0, "apply", "a", 1), Spawn(1, "apply", "b", 2)]

  lemma StartedRuns(now: int)
    ensures Run(Initial(now), STARTING) == Started(now)
  {
    RunNext(Initial(now), [], STARTING[0]);
    RunNext(Initial(now), [STARTING[0]], STARTING[1]);
    assert [] + [STARTING[0]] == [STARTING[0]] && [STARTING[0]] + [STARTING[1]] == STARTING;
  }

  /** There are runs in which the lock is held, and ones in which it has changed hands. */
  lemma LockIsHeld(now: int) returns (first: seq<Action>, second: seq<Action>)
    ensures InWindow(Run(Initial(now), first), 0)
    ensures InWindow(Run(Initial(now), second), 1) && !InWindow(Run(Initial(now), second), 0)
  {
    StartedRuns(now);
    first := RunAlone(Initial(now), STARTING, 0);
    RunNext(Initial(now), first, Tick(WINDOW));
    second := RunAlone(Initial(now), first + [Tick(WINDOW)], 1);
    HandedOverAfterAnHour(now, WINDOW);
  }

  /** A process dies and one with its number starts. */
  function Restart(s: State, b: nat, id: Identity): State
    requires id.Process?
  {
    Next(Next(s, Die(id.host, id.pid)), Spawn(b, id.kind, id.host, id.pid))
  }

  lemma RestartedIs(s: State, a: nat, b: nat, id: Identity)
    requires Live(s, a) && s.agents[a].id == id && id.Process? && b !in s.agents
    ensures var s' := Restart(s, b, id);
            Live(s', b) && s'.agents[b] == Agent(id, Idle) && !Live(s', a) && s'.writes == s.writes && s'.now == s.now
  {
    var s1 := Next(s, Die(id.host, id.pid));
    assert b !in s1.agents && s1.agents[a].phase == Dead;
    assert forall c | Live(s1, c) :: s1.agents[c].id != id;
    assert Restart(s, b, id) == OnSpawn(s1, b, id);
  }

  /** A process that dies while it holds the lock, and comes back under the same number, is kept out by its own claim. */
  lemma RestartKeptOut(now: int, actions: seq<Action>, a: nat, b: nat)
    requires var s := Run(Initial(now), actions); InWindow(s, a) && s.agents[a].id.Process? && b !in s.agents
    ensures var s := Run(Initial(now), actions);
            var s' := Restart(s, b, s.agents[a].id);
            Live(s', b) && s'.agents[b].phase.Idle? && !Live(s', a) && !Alone(s', b).agents[b].phase.Holding?
  {
    LeaseNamesHolder(now, actions, a);
    var s := Run(Initial(now), actions);
    RestartedIs(s, a, b, s.agents[a].id);
    ClaimLasts(Restart(s, b, s.agents[a].id), b, s.agents[a].id, s.agents[a].phase.start);
  }
}
