/**
 The apply lock: one Kubernetes Lease that every apply, restart, shutdown or destroy takes before it changes a
 cluster. Clients reach it through separate API calls, so between any two of them anything may happen: other
 clients' calls, time passing, lost responses, processes dying and starting.
 */
module ApplyLease {
  import opened Basics

  /** A holder string: what Kubit writes names a process on a host; anything else has no process to look for. */
  datatype Identity = Process(kind: string, host: string, pid: int) | Opaque(text: string)

  /** Times are in microseconds, the resolution the lease keeps. */
  const SECOND: int := 1_000_000
  const LEASE_SECONDS: int := 3600
  const WINDOW: int := LEASE_SECONDS * SECOND

  datatype Spec = Spec(holder: Option<Identity>, renew: Option<int>, seconds: Option<int>)

  /** A live client's view of the processes of its own host. */
  predicate Orphaned(holder: Identity, me: Identity, alive: set<(string, int)>) {
    holder.Process? && me.Process? && holder.host == me.host && holder.pid != me.pid && (holder.host, holder.pid) !in alive
  }

  predicate Held(l: Spec, now: int, me: Identity, alive: set<(string, int)>) {
    if l.holder.None? || l.holder.value == Opaque("") || l.renew.None? || l.seconds.None? || Orphaned(l.holder.value, me, alive)
    then false
    else now < l.renew.value + l.seconds.value * SECOND
  }

  /** Where a client is in its calls. `start` is the time it took before the first one. */
  datatype Phase =
    | Idle
    | Creating(start: int)
    | Reading(start: int)
    | Checking(start: int, seen: nat)   // the version its read returned
    | Updating(start: int, seen: nat)   // it found that version not held
    | Holding(start: int, wrote: nat)   // it was handed an unlock that does something
    | Unguarded                         // the API did not answer: it was handed an unlock that does nothing
    | Releasing
    | Clearing(seen: nat)
    | Dead

  datatype Agent = Agent(id: Identity, phase: Phase)

  /**
   `writes` is every value the Lease object has had: its resource version is the index, its present value the
   last one. Kubit never deletes it.
   */
  datatype State = State(writes: seq<Spec>, now: int, agents: map<nat, Agent>, alive: set<(string, int)>)

  function Claim(id: Identity, start: int): Spec { Spec(Some(id), Some(start), Some(LEASE_SECONDS)) }

  predicate Live(s: State, a: nat) {
    a in s.agents && s.agents[a].phase != Dead
  }

  datatype Action =
    | Tick(elapsed: nat)
    | Spawn(a: nat, kind: string, host: string, pid: int)
    | Die(host: string, pid: int)
    | Begin(a: nat)
    | Create(a: nat, answered: bool)   // the request arrives; its answer may not
    | Unreachable(a: nat)              // the request does not arrive
    | Get(a: nat)
    | Check(a: nat)
    | Update(a: nat, answered: bool)
    | Abort(a: nat)                    // any call fails
    | Finish(a: nat)                   // the work is over and the unlock runs
    | Clear(a: nat)                    // the release's own update

  function At(s: State, a: nat, p: Phase): State
    requires a in s.agents
  {
    s.(agents := s.agents[a := s.agents[a].(phase := p)])
  }

  function Write(s: State, spec: Spec): State { s.(writes := s.writes + [spec]) }

  function Current(s: State): int { |s.writes| - 1 }

  function OnCreate(s: State, a: nat, answered: bool): State
    requires Live(s, a)
  {
    var g := s.agents[a];
    if !g.phase.Creating? then s
    else if s.writes != [] then At(s, a, if answered then Reading(g.phase.start) else Unguarded)
    else At(Write(s, Claim(g.id, g.phase.start)), a, if answered then Holding(g.phase.start, 0) else Unguarded)
  }

  function OnCheck(s: State, a: nat): State
    requires Live(s, a)
  {
    var g := s.agents[a];
    if !g.phase.Checking? || g.phase.seen >= |s.writes| then s
    else At(s, a, if Held(s.writes[g.phase.seen], s.now, g.id, s.alive) then Idle else Updating(g.phase.start, g.phase.seen))
  }

  function OnUpdate(s: State, a: nat, answered: bool): State
    requires Live(s, a)
  {
    var g := s.agents[a];
    if !g.phase.Updating? then s
    else if g.phase.seen != Current(s) then At(s, a, Idle)
    else At(Write(s, Claim(g.id, g.phase.start)), a, if answered then Holding(g.phase.start, |s.writes|) else Idle)
  }

  function OnGet(s: State, a: nat): State
    requires Live(s, a)
  {
    var g := s.agents[a];
    if s.writes == [] then s
    else if g.phase.Reading? then At(s, a, Checking(g.phase.start, Current(s)))
    else if g.phase.Releasing? then At(s, a, if s.writes[Current(s)].holder == Some(g.id) then Clearing(Current(s)) else Idle)
    else s
  }

  function OnClear(s: State, a: nat): State
    requires Live(s, a)
  {
    var g := s.agents[a];
    if !g.phase.Clearing? then s
    else if g.phase.seen != Current(s) || g.phase.seen >= |s.writes| then At(s, a, Idle)
    else At(Write(s, s.writes[g.phase.seen].(holder := None, renew := Some(s.now))), a, Idle)
  }

  function OnDeath(s: State, host: string, pid: int): State {
    s.(alive := s.alive - {(host, pid)},
       agents := map a | a in s.agents :: if s.agents[a].id.Process? && (s.agents[a].id.host, s.agents[a].id.pid) == (host, pid)
                                          then s.agents[a].(phase := Dead) else s.agents[a])
  }

  /** A process starts to serve a client; no live client goes by the same holder string. */
  function OnSpawn(s: State, a: nat, id: Identity): State
    requires id.Process?
  {
    if a in s.agents || exists b :: b in s.agents && s.agents[b].phase != Dead && s.agents[b].id == id then s
    else s.(agents := s.agents[a := Agent(id, Idle)], alive := s.alive + {(id.host, id.pid)})
  }

  /** One step; an action that is not possible in the state does nothing. */
  function Next(s: State, act: Action): State {
    match act
    case Tick(elapsed) => s.(now := s.now + elapsed)
    case Spawn(a, kind, host, pid) => OnSpawn(s, a, Process(kind, host, pid))
    case Die(host, pid) => OnDeath(s, host, pid)
    case Begin(a) => if Live(s, a) && s.agents[a].phase.Idle? then At(s, a, Creating(s.now)) else s
    case Create(a, answered) => if Live(s, a) then OnCreate(s, a, answered) else s
    case Unreachable(a) => if Live(s, a) && s.agents[a].phase.Creating? then At(s, a, Unguarded) else s
    case Get(a) => if Live(s, a) then OnGet(s, a) else s
    case Check(a) => if Live(s, a) then OnCheck(s, a) else s
    case Update(a, answered) => if Live(s, a) then OnUpdate(s, a, answered) else s
    case Abort(a) =>
      if Live(s, a) && !s.agents[a].phase.Creating? && !s.agents[a].phase.Holding? then At(s, a, Idle) else s
    case Finish(a) =>
      if Live(s, a) && s.agents[a].phase.Holding? then At(s, a, Releasing)
      else if Live(s, a) && s.agents[a].phase.Unguarded? then At(s, a, Idle)
      else s
    case Clear(a) => if Live(s, a) then OnClear(s, a) else s
  }

  function Run(s: State, actions: seq<Action>): State
    decreases |actions|
  {
    if actions == [] then s else Next(Run(s, actions[..|actions| - 1]), actions[|actions| - 1])
  }

  function Initial(now: int): State { State([], now, map[], {}) }

  /** A live client that was handed a working unlock and whose hour has not passed. */
  predicate InWindow(s: State, a: nat) {
    Live(s, a) && s.agents[a].phase.Holding? && s.now < s.agents[a].phase.start + WINDOW
  }

  // ---- the invariant ----

  ghost predicate AgentOk(s: State, a: nat)
    requires a in s.agents
  {
    var g := s.agents[a];
    && g.id.Process?
    && (g.phase != Dead ==> (g.id.host, g.id.pid) in s.alive)
    && match g.phase
       case Holding(start, wrote) =>
         wrote < |s.writes| && s.writes[wrote] == Claim(g.id, start) && (InWindow(s, a) ==> wrote == Current(s))
       case Checking(_, seen) => seen < |s.writes|
       case Updating(_, seen) => seen < |s.writes| && forall b | InWindow(s, b) :: s.agents[b].phase.wrote != seen
       case Clearing(seen) => seen < |s.writes| && s.writes[seen].holder == Some(g.id)
       case _ => true
  }

  ghost predicate Inv(s: State) {
    && (forall a | a in s.agents :: AgentOk(s, a))
    && (forall a, b | Live(s, a) && Live(s, b) && s.agents[a].id == s.agents[b].id :: a == b)
  }

  lemma WindowIsCurrent(s: State)
    requires Inv(s)
    ensures forall c | InWindow(s, c) ::
              && s.writes != [] && s.agents[c].phase.wrote == Current(s)
              && s.writes[Current(s)] == Claim(s.agents[c].id, s.agents[c].phase.start)
  {
    forall c | InWindow(s, c)
      ensures s.writes != [] && s.agents[c].phase.wrote == Current(s)
      ensures s.writes[Current(s)] == Claim(s.agents[c].id, s.agents[c].phase.start)
    {
      assert AgentOk(s, c);
    }
  }

  /** What a check concludes: the version it looked at guards nobody any more. */
  lemma NotHeldGuardsNobody(s: State, a: nat, b: nat)
    requires Inv(s) && Live(s, a) && s.agents[a].phase.Checking?
    requires var seen := s.agents[a].phase.seen; seen < |s.writes| && !Held(s.writes[seen], s.now, s.agents[a].id, s.alive)
    requires InWindow(s, b)
    ensures s.agents[b].phase.wrote != s.agents[a].phase.seen
  {
    assert AgentOk(s, a) && AgentOk(s, b);
  }

  /** A client that did not move keeps its part when nothing was written and nobody entered a window. */
  lemma UnmovedKeeps(s: State, s': State, b: nat)
    requires b in s.agents && AgentOk(s, b) && b in s'.agents && s'.agents[b] == s.agents[b]
    requires s'.writes == s.writes
    requires Live(s', b) ==> (s.agents[b].id.host, s.agents[b].id.pid) in s'.alive
    requires forall c | InWindow(s', c) :: InWindow(s, c) && s'.agents[c].phase == s.agents[c].phase
    ensures AgentOk(s', b)
  {
  }

  /** A step of one client that writes nothing and enters no window. */
  lemma MoveKeeps(s: State, a: nat, p: Phase)
    requires Inv(s) && Live(s, a) && !p.Holding? && AgentOk(At(s, a, p), a)
    ensures Inv(At(s, a, p))
  {
    var s' := At(s, a, p);
    forall b | b in s'.agents
      ensures AgentOk(s', b)
    {
      if b != a {
        UnmovedKeeps(s, s', b);
      }
    }
    forall b, c | Live(s', b) && Live(s', c) && s'.agents[b].id == s'.agents[c].id
      ensures b == c
    {
      assert Live(s, b) && Live(s, c);
    }
  }

  /** A write is safe when it happens while no client is inside its window. */
  lemma WriteKeeps(s: State, a: nat, spec: Spec, p: Phase)
    requires Inv(s) && Live(s, a) && (forall c :: !InWindow(s, c))
    requires p == Idle || p == Unguarded || (p.Holding? && p.wrote == |s.writes| && spec == Claim(s.agents[a].id, p.start))
    ensures Inv(At(Write(s, spec), a, p))
  {
    var s' := At(Write(s, spec), a, p);
    forall c | InWindow(s', c)
      ensures c == a && s'.agents[c].phase.wrote == |s.writes|
    {
      assert c != a ==> InWindow(s, c);
    }
    forall b | b in s'.agents
      ensures AgentOk(s', b)
    {
      assert AgentOk(s, b);
    }
    forall b, c | Live(s', b) && Live(s', c) && s'.agents[b].id == s'.agents[c].id
      ensures b == c
    {
      assert Live(s, b) && Live(s, c);
    }
  }

  lemma CreateKeeps(s: State, a: nat, answered: bool)
    requires Inv(s) && Live(s, a)
    ensures Inv(OnCreate(s, a, answered))
  {
    var g := s.agents[a];
    assert AgentOk(s, a);
    if g.phase.Creating? {
      if s.writes != [] {
        MoveKeeps(s, a, if answered then Reading(g.phase.start) else Unguarded);
      } else {
        WindowIsCurrent(s);
        WriteKeeps(s, a, Claim(g.id, g.phase.start), if answered then Holding(g.phase.start, 0) else Unguarded);
      }
    }
  }

  lemma CheckKeeps(s: State, a: nat)
    requires Inv(s) && Live(s, a)
    ensures Inv(OnCheck(s, a))
  {
    var g := s.agents[a];
    assert AgentOk(s, a);
    if g.phase.Checking? {
      if Held(s.writes[g.phase.seen], s.now, g.id, s.alive) {
        MoveKeeps(s, a, Idle);
      } else {
        var p := Updating(g.phase.start, g.phase.seen);
        forall b | InWindow(At(s, a, p), b)
          ensures s.agents[b].phase.wrote != g.phase.seen && b != a
        {
          NotHeldGuardsNobody(s, a, b);
        }
        MoveKeeps(s, a, p);
      }
    }
  }

  lemma UpdateKeeps(s: State, a: nat, answered: bool)
    requires Inv(s) && Live(s, a)
    ensures Inv(OnUpdate(s, a, answered))
  {
    var g := s.agents[a];
    assert AgentOk(s, a);
    if g.phase.Updating? {
      if g.phase.seen != Current(s) {
        MoveKeeps(s, a, Idle);
      } else {
        WindowIsCurrent(s);
        WriteKeeps(s, a, Claim(g.id, g.phase.start), if answered then Holding(g.phase.start, |s.writes|) else Idle);
      }
    }
  }

  lemma GetKeeps(s: State, a: nat)
    requires Inv(s) && Live(s, a)
    ensures Inv(OnGet(s, a))
  {
    var g := s.agents[a];
    assert AgentOk(s, a);
    if s.writes != [] && g.phase.Reading? {
      MoveKeeps(s, a, Checking(g.phase.start, Current(s)));
    } else if s.writes != [] && g.phase.Releasing? {
      MoveKeeps(s, a, if s.writes[Current(s)].holder == Some(g.id) then Clearing(Current(s)) else Idle);
    }
  }

  /** A release writes only over its own claim, so nobody else can be inside a window at that moment. */
  lemma ClearingFreesOwnClaim(s: State, a: nat)
    requires Inv(s) && Live(s, a) && s.agents[a].phase.Clearing? && s.agents[a].phase.seen == Current(s)
    ensures s.writes[Current(s)].holder == Some(s.agents[a].id)
    ensures forall c :: !InWindow(s, c)
  {
    assert AgentOk(s, a);
    WindowIsCurrent(s);
  }

  lemma ClearKeeps(s: State, a: nat)
    requires Inv(s) && Live(s, a)
    ensures Inv(OnClear(s, a))
  {
    var g := s.agents[a];
    assert AgentOk(s, a);
    if g.phase.Clearing? {
      if g.phase.seen != Current(s) {
        MoveKeeps(s, a, Idle);
      } else {
        ClearingFreesOwnClaim(s, a);
        WriteKeeps(s, a, s.writes[g.phase.seen].(holder := None, renew := Some(s.now)), Idle);
      }
    }
  }

  lemma TickKeeps(s: State, elapsed: nat)
    requires Inv(s)
    ensures Inv(s.(now := s.now + elapsed))
  {
    var s' := s.(now := s.now + elapsed);
    assert forall b :: Live(s', b) == Live(s, b);
    forall b | b in s.agents
      ensures AgentOk(s', b)
    {
      UnmovedKeeps(s, s', b);
    }
  }

  lemma DeathKeeps(s: State, host: string, pid: int)
    requires Inv(s)
    ensures Inv(OnDeath(s, host, pid))
  {
    var s' := OnDeath(s, host, pid);
    forall b | b in s'.agents
      ensures AgentOk(s', b)
    {
      assert AgentOk(s, b);
      if s'.agents[b].phase != Dead {
        UnmovedKeeps(s, s', b);
      }
    }
    forall b, c | Live(s', b) && Live(s', c) && s'.agents[b].id == s'.agents[c].id
      ensures b == c
    {
      assert Live(s, b) && Live(s, c);
    }
  }

  lemma SpawnKeeps(s: State, a: nat, id: Identity)
    requires Inv(s) && id.Process?
    ensures Inv(OnSpawn(s, a, id))
  {
    var s' := OnSpawn(s, a, id);
    forall b | b in s'.agents
      ensures AgentOk(s', b)
    {
      if b in s.agents {
        UnmovedKeeps(s, s', b);
      }
    }
    forall b, c | Live(s', b) && Live(s', c) && s'.agents[b].id == s'.agents[c].id
      ensures b == c
    {
      assert b in s.agents ==> Live(s, b);
      assert c in s.agents ==> Live(s, c);
    }
  }

  lemma BeginKeeps(s: State, a: nat)
    requires Inv(s)
    ensures Inv(Next(s, Begin(a)))
  {
    if Live(s, a) && s.agents[a].phase.Idle? {
      assert AgentOk(s, a);
      MoveKeeps(s, a, Creating(s.now));
    }
  }

  lemma UnreachableKeeps(s: State, a: nat)
    requires Inv(s)
    ensures Inv(Next(s, Unreachable(a)))
  {
    if Live(s, a) && s.agents[a].phase.Creating? {
      assert AgentOk(s, a);
      MoveKeeps(s, a, Unguarded);
    }
  }

  lemma AbortKeeps(s: State, a: nat)
    requires Inv(s)
    ensures Inv(Next(s, Abort(a)))
  {
    if Live(s, a) && !s.agents[a].phase.Creating? && !s.agents[a].phase.Holding? {
      assert AgentOk(s, a);
      MoveKeeps(s, a, Idle);
    }
  }

  lemma FinishKeeps(s: State, a: nat)
    requires Inv(s)
    ensures Inv(Next(s, Finish(a)))
  {
    if Live(s, a) && (s.agents[a].phase.Holding? || s.agents[a].phase.Unguarded?) {
      assert AgentOk(s, a);
      MoveKeeps(s, a, if s.agents[a].phase.Holding? then Releasing else Idle);
    }
  }

  lemma StepKeeps(s: State, act: Action)
    requires Inv(s)
    ensures Inv(Next(s, act))
  {
    match act
    case Tick(elapsed) => TickKeeps(s, elapsed);
    case Spawn(a, kind, host, pid) => SpawnKeeps(s, a, Process(kind, host, pid));
    case Die(host, pid) => DeathKeeps(s, host, pid);
    case Create(a, answered) => if Live(s, a) { CreateKeeps(s, a, answered); }
    case Get(a) => if Live(s, a) { GetKeeps(s, a); }
    case Check(a) => if Live(s, a) { CheckKeeps(s, a); }
    case Update(a, answered) => if Live(s, a) { UpdateKeeps(s, a, answered); }
    case Clear(a) => if Live(s, a) { ClearKeeps(s, a); }
    case Begin(a) => BeginKeeps(s, a);
    case Unreachable(a) => UnreachableKeeps(s, a);
    case Abort(a) => AbortKeeps(s, a);
    case Finish(a) => FinishKeeps(s, a);
  }

  lemma {:induction false} RunKeeps(now: int, actions: seq<Action>)
    ensures Inv(Run(Initial(now), actions))
    decreases |actions|
  {
    if actions != [] {
      RunKeeps(now, actions[..|actions| - 1]);
      StepKeeps(Run(Initial(now), actions[..|actions| - 1]), actions[|actions| - 1]);
    }
  }

  // ---- what the lock promises ----

  /** In every interleaving at most one live client is inside its unexpired hour. */
  lemma MutualExclusion(now: int, actions: seq<Action>, a: nat, b: nat)
    requires InWindow(Run(Initial(now), actions), a) && InWindow(Run(Initial(now), actions), b)
    ensures a == b
  {
    RunKeeps(now, actions);
    var s := Run(Initial(now), actions);
    assert AgentOk(s, a) && AgentOk(s, b);
  }

  /** The lease still names the client that is inside its hour, with the time that hour started. */
  lemma LeaseNamesHolder(now: int, actions: seq<Action>, a: nat)
    requires InWindow(Run(Initial(now), actions), a)
    ensures var s := Run(Initial(now), actions);
            s.writes != [] && s.writes[Current(s)] == Claim(s.agents[a].id, s.agents[a].phase.start)
  {
    RunKeeps(now, actions);
    assert AgentOk(Run(Initial(now), actions), a);
  }

  /** A step frees the lease only of the client that takes it, and never while another one is inside its hour. */
  lemma ReleaseFreesOnlyOwn(now: int, actions: seq<Action>, act: Action)
    requires var s := Run(Initial(now), actions);
             var s' := Next(s, act);
             s'.writes != s.writes && s'.writes[Current(s')].holder.None?
    ensures var s := Run(Initial(now), actions);
            && act.Clear? && act.a in s.agents && s.writes != []
            && s.writes[Current(s)].holder == Some(s.agents[act.a].id)
            && forall b :: !InWindow(s, b)
  {
    RunKeeps(now, actions);
    var s := Run(Initial(now), actions);
    if act.Clear? && Live(s, act.a) {
      ClearingFreesOwnClaim(s, act.a);
    }
  }

  /** A claim over an existing lease: whoever held it was free, expired, or dead on this host. */
  lemma TakeoverNeverInterrupts(now: int, actions: seq<Action>, act: Action)
    requires var s := Run(Initial(now), actions); Next(s, act).writes != s.writes
    ensures forall b :: !InWindow(Run(Initial(now), actions), b)
  {
    RunKeeps(now, actions);
    var s := Run(Initial(now), actions);
    WindowIsCurrent(s);
    if act.Update? && Live(s, act.a) {
      assert AgentOk(s, act.a);
    } else if act.Clear? && Live(s, act.a) && s.agents[act.a].phase.Clearing? && s.agents[act.a].phase.seen == Current(s) {
      ClearingFreesOwnClaim(s, act.a);
    }
  }

  /** The calls of one acquisition with nothing in between. */
  function Alone(s: State, a: nat): State {
    var s1 := Next(Next(s, Begin(a)), Create(a, true));
    if Live(s1, a) && s1.agents[a].phase.Reading? then Next(Next(Next(s1, Get(a)), Check(a)), Update(a, true)) else s1
  }

  /** Undisturbed, a client gets the lock exactly when there is no lease yet or the lease is not held. */
  lemma AloneAcquires(s: State, a: nat)
    requires Live(s, a) && s.agents[a].phase.Idle?
    ensures var s' := Alone(s, a);
            && Live(s', a)
            && (s'.agents[a].phase == Holding(s.now, |s.writes|) <==>
                s.writes == [] || !Held(s.writes[Current(s)], s.now, s.agents[a].id, s.alive))
            && (s'.agents[a].phase.Holding? || (s'.agents[a].phase.Idle? && s'.writes == s.writes))
  {
    var s1 := Next(Next(s, Begin(a)), Create(a, true));
    if s.writes != [] {
      assert s1.agents[a] == s.agents[a].(phase := Reading(s.now));
      var s2 := Next(s1, Get(a));
      assert s2.agents[a].phase == Checking(s.now, Current(s));
      var s3 := Next(s2, Check(a));
    }
  }

  /** The calls of one release with nothing in between. */
  function Release(s: State, a: nat): State { Next(Next(Next(s, Finish(a)), Get(a)), Clear(a)) }

  /**
   Undisturbed, the release of a client that was handed a working unlock writes one lease more, the same without a
   holder, exactly when the lease still names the client; otherwise it leaves the lease alone. Nothing else changes.
   */
  lemma ReleaseFrees(now: int, actions: seq<Action>, a: nat)
    requires Live(Run(Initial(now), actions), a) && Run(Initial(now), actions).agents[a].phase.Holding?
    ensures var s := Run(Initial(now), actions);
            var s' := Release(s, a);
            && s.writes != [] && s' == At(s, a, Idle).(writes := s'.writes)
            && (s.writes[Current(s)].holder == Some(s.agents[a].id) <==> s'.writes != s.writes)
            && (s'.writes != s.writes ==> s'.writes == s.writes + [s.writes[Current(s)].(holder := None, renew := Some(s.now))])
  {
    RunKeeps(now, actions);
    var s := Run(Initial(now), actions);
    assert AgentOk(s, a);
    ReleaseCalls(s, a);
  }

  lemma ReleaseCalls(s: State, a: nat)
    requires Live(s, a) && s.agents[a].phase.Holding? && s.writes != []
    ensures var named := s.writes[Current(s)].holder == Some(s.agents[a].id);
            Release(s, a) == if named then At(Write(s, s.writes[Current(s)].(holder := None, renew := Some(s.now))), a, Idle) else At(s, a, Idle)
  {
    var s1 := Next(s, Finish(a));
    assert s1 == At(s, a, Releasing) && s1.agents[a].phase == Releasing;
    var s2 := Next(s1, Get(a));
    if s.writes[Current(s)].holder == Some(s.agents[a].id) {
      assert s2.agents[a].phase == Clearing(Current(s));
      assert s2.agents[a := s2.agents[a].(phase := Idle)] == s.agents[a := s.agents[a].(phase := Idle)];
    } else {
      assert s2.agents == s.agents[a := s.agents[a].(phase := Idle)];
    }
  }

  /** After it the lock is free for every other client, wherever that runs. */
  lemma ReleasedIsAcquired(now: int, actions: seq<Action>, a: nat, b: nat)
    requires var s := Run(Initial(now), actions);
             && Live(s, a) && s.agents[a].phase.Holding? && s.writes != [] && s.writes[Current(s)].holder == Some(s.agents[a].id)
             && Live(s, b) && s.agents[b].phase.Idle?
    ensures var s' := Release(Run(Initial(now), actions), a);
            Live(s', b) && Alone(s', b).agents[b].phase == Holding(s'.now, |s'.writes|)
  {
    ReleaseFrees(now, actions, a);
    AloneAcquires(Release(Run(Initial(now), actions), a), b);
  }

  // ---- who is let through ----

  /**
   A claim of Kubit's keeps every other client out for an hour from its start, and no longer; it is taken over before
   that only by a client on the same host after its process has died.
   */
  lemma ClaimLasts(s: State, b: nat, id: Identity, start: int)
    requires Live(s, b) && s.agents[b].phase.Idle? && s.writes != [] && s.writes[Current(s)] == Claim(id, start)
    requires id.Process? && s.agents[b].id.Process?
    ensures Live(Alone(s, b), b)
    ensures var me := s.agents[b].id;
            Alone(s, b).agents[b].phase.Holding? <==>
              s.now >= start + 3_600_000_000 || (id.host == me.host && id.pid != me.pid && (id.host, id.pid) !in s.alive)
    ensures !Alone(s, b).agents[b].phase.Holding? ==> Alone(s, b).writes == s.writes
  {
    AloneAcquires(s, b);
  }

  /** A lease without a holder, a time or a duration keeps nobody out. */
  lemma UnclaimedIsTaken(s: State, b: nat)
    requires Live(s, b) && s.agents[b].phase.Idle? && s.writes != []
    requires var l := s.writes[Current(s)]; l.holder in {None, Some(Opaque(""))} || l.renew.None? || l.seconds.None?
    ensures Live(Alone(s, b), b) && Alone(s, b).agents[b].phase == Holding(s.now, |s.writes|)
  {
    AloneAcquires(s, b);
  }

  /** When the process of a claim dies, the next client on its host need not wait. */
  lemma DeathFreesHost(now: int, actions: seq<Action>, a: nat, b: nat)
    requires var s := Run(Initial(now), actions);
             && InWindow(s, a) && Live(s, b) && s.agents[b].phase.Idle? && s.agents[a].id.Process? && s.agents[b].id.Process?
             && s.agents[b].id.host == s.agents[a].id.host && s.agents[b].id.pid != s.agents[a].id.pid
    ensures var s := Run(Initial(now), actions);
            var s' := Next(s, Die(s.agents[a].id.host, s.agents[a].id.pid));
            !Live(s', a) && Live(s', b) && Alone(s', b).agents[b].phase == Holding(s.now, |s.writes|)
  {
    LeaseNamesHolder(now, actions, a);
    var s := Run(Initial(now), actions);
    AloneAcquires(Next(s, Die(s.agents[a].id.host, s.agents[a].id.pid)), b);
  }
}
