/**
 Keeping a cluster's plan current: kicks from anywhere ask for a plan, one loop per cluster makes them one at a time,
 and a run that changes the cluster cancels the plan under way and asks for a new one when it ends. Every critical
 section is a step, and steps of all goroutines interleave freely.
 */
module Planner {
  import opened Basics

  /** The slot of a cluster: plans are numbered as they start, and `cancelled` holds those whose context was cancelled. */
  datatype Slot = Slot(dirty: bool, running: bool, cancel: Option<nat>, next: nat, cancelled: set<nat>)

  function CancelCurrent(s: Slot): Slot {
    if s.running && s.cancel.Some? then s.(cancelled := s.cancelled + {s.cancel.value}) else s
  }

  function Kicked(s: Slot, repo: bool): Slot { (if repo then CancelCurrent(s) else s).(dirty := true, running := true) }

  /** The top of the loop: stop when nothing was asked for since the last start, else start the next plan. */
  function Topped(s: Slot): Slot {
    if s.dirty then s.(dirty := false, cancel := Some(s.next), next := s.next + 1) else s.(running := false, cancel := None)
  }

  class PlanSlot {
    var dirty: bool
    var running: bool
    var cancel: Option<nat>
    var next: nat
    var cancelled: set<nat>

    ghost function Value(): Slot reads this { Slot(dirty, running, cancel, next, cancelled) }

    constructor ()
      ensures Value() == Slot(false, false, None, 0, {})
    {
      dirty, running, cancel, next, cancelled := false, false, None, 0, {};
    }

    /** Returns whether a loop has to be started. */
    method KickPlan(repo: bool) returns (spawn: bool)
      modifies this
      ensures Value() == Kicked(old(Value()), repo) && (spawn <==> !old(running))
    {
      dirty := true;
      if repo && running && cancel.Some? {
        cancelled := cancelled + {cancel.value};
      }
      spawn := !running;
      if spawn {
        running := true;
      }
    }

    /** One turn of the loop; returns the number of the plan to make, if there is one to make. */
    method LoopTop() returns (plan: Option<nat>)
      modifies this
      ensures Value() == Topped(old(Value())) && plan == if old(dirty) then Some(old(next)) else None
    {
      if !dirty {
        running, cancel := false, None;
        return None;
      }
      dirty := false;
      plan := Some(next);
      cancel, next := plan, next + 1;
    }

    method CancelPlan()
      modifies this
      ensures Value() == CancelCurrent(old(Value()))
    {
      if running && cancel.Some? {
        cancelled := cancelled + {cancel.value};
      }
    }
  }

  // ---- all goroutines together ----

  /** A loop at its top, with a plan about to look whether a run is going on, or with a plan being made. */
  datatype Loop = AtTop | Looking(plan: nat) | Planning(plan: nat)

  datatype Run = NoRun | Starting | Going

  /** The goroutine that waits for another holder's lease, of which there is one at a time; it kicks before it is gone. */
  datatype Waiter = NoWaiter | AwaitsRelease | HasKicked

  /**
   Beside the slot: the loops, the run, how many finished runs have yet to kick, and the waiter. For the record: for each
   kick and each run end the number of plans started before it; the plans that came to nothing because of a run or a
   cancel, that counted, and that ended because another holder had the lease; and those of the last that no waiter
   will follow up.
   */
  datatype State = State(slot: Slot, loops: seq<Loop>, run: Run, pending: nat, waiter: Waiter, kicks: seq<nat>, runEnds: seq<nat>,
                         spoiled: set<nat>, finished: set<nat>, held: set<nat>, abandoned: set<nat>)

  const START := State(Slot(false, false, None, 0, {}), [], NoRun, 0, NoWaiter, [], [], {}, {}, {}, {})

  datatype Action =
    | Kick(repo: bool)
    | Top(loop: nat)
    | Look(loop: nat, leased: bool)
    | Finish(loop: nat)
    | StartRun
    | CancelPlan
    | EndRun
    | KickAfterRun
    | KickAfterRelease
    | WaitFails
    | WaiterLeaves

  predicate Enabled(s: State, a: Action) {
    match a
    case Kick(_) => true
    case Top(l) => l < |s.loops| && s.loops[l].AtTop?
    case Look(l, _) => l < |s.loops| && s.loops[l].Looking?
    case Finish(l) => l < |s.loops| && s.loops[l].Planning?
    case StartRun => s.run.NoRun?
    case CancelPlan => s.run.Starting?
    case EndRun => s.run.Going?
    case KickAfterRun => s.pending > 0
    case KickAfterRelease => s.waiter.AwaitsRelease?
    case WaitFails => s.waiter.AwaitsRelease?
    case WaiterLeaves => s.waiter.HasKicked?
  }

  function DoKick(s: State, repo: bool): State {
    s.(slot := Kicked(s.slot, repo), loops := if s.slot.running then s.loops else s.loops + [AtTop], kicks := s.kicks + [s.slot.next])
  }

  function DoTop(s: State, l: nat): State
    requires Enabled(s, Top(l))
  {
    s.(slot := Topped(s.slot), loops := if s.slot.dirty then s.loops[l := Looking(s.slot.next)] else s.loops[..l] + s.loops[l + 1..])
  }

  /**
   A plan is not made while a run is going on, nor while another holder has the lease; then a waiter is started unless
   there is one, even one that has kicked already and is about to leave.
   */
  function DoLook(s: State, l: nat, leased: bool): State
    requires Enabled(s, Look(l, leased))
  {
    var plan := s.loops[l].plan;
    if !s.run.NoRun? then s.(loops := s.loops[l := AtTop], spoiled := s.spoiled + {plan})
    else if !leased then s.(loops := s.loops[l := Planning(plan)])
    else if s.waiter.HasKicked? then s.(loops := s.loops[l := AtTop], held := s.held + {plan}, abandoned := s.abandoned + {plan})
    else s.(loops := s.loops[l := AtTop], held := s.held + {plan}, waiter := AwaitsRelease)
  }

  /** A plan made is dropped when a run has started since, or when it was cancelled; else its outcome counts. */
  function DoFinish(s: State, l: nat): State
    requires Enabled(s, Finish(l))
  {
    var plan := s.loops[l].plan;
    var s' := s.(loops := s.loops[l := AtTop]);
    if !s.run.NoRun? || plan in s.slot.cancelled then s'.(spoiled := s.spoiled + {plan}) else s'.(finished := s.finished + {plan})
  }

  function Do(s: State, a: Action): State
    requires Enabled(s, a)
  {
    match a
    case Kick(repo) => DoKick(s, repo)
    case Top(l) => DoTop(s, l)
    case Look(l, leased) => DoLook(s, l, leased)
    case Finish(l) => DoFinish(s, l)
    case StartRun => s.(run := Starting)
    case CancelPlan => s.(slot := CancelCurrent(s.slot), run := Going)
    case EndRun => s.(run := NoRun, pending := s.pending + 1, runEnds := s.runEnds + [s.slot.next])
    case KickAfterRun => DoKick(s.(pending := s.pending - 1), false)
    case KickAfterRelease => DoKick(s.(waiter := HasKicked), false)
    case WaitFails => s.(waiter := NoWaiter, abandoned := s.abandoned + s.held)
    case WaiterLeaves => s.(waiter := NoWaiter)
  }

  predicate Legal(acts: seq<Action>)
    decreases |acts|, 0
  {
    acts == [] || (Legal(acts[..|acts| - 1]) && Enabled(After(acts[..|acts| - 1]), acts[|acts| - 1]))
  }

  function After(acts: seq<Action>): State
    requires Legal(acts)
    decreases |acts|, 1
  {
    if acts == [] then START else Do(After(acts[..|acts| - 1]), acts[|acts| - 1])
  }

  // ---- what always holds ----

  /** There is exactly one loop while the slot says so, and something asked for keeps it going. */
  predicate OneLoop(s: State) {
    && |s.loops| == (if s.slot.running then 1 else 0)
    && (s.slot.dirty ==> s.slot.running)
  }

  /** A new plan is on its way, or will be asked for. */
  predicate Due(s: State) { s.slot.dirty || s.pending > 0 || !s.run.NoRun? }

  /** Every kick and every run end is followed by a plan, or by one that is still to start; no plan starts unasked. */
  ghost predicate Answered(s: State) {
    && (forall i | 0 <= i < |s.kicks| :: s.kicks[i] < s.slot.next || (s.slot.dirty && s.kicks[i] == s.slot.next))
    && (forall i | 0 <= i < |s.runEnds| :: s.runEnds[i] < s.slot.next || ((s.slot.dirty || s.pending > 0) && s.runEnds[i] == s.slot.next))
    && s.slot.next + (if s.slot.dirty then 1 else 0) <= |s.kicks|
  }

  /** A plan that came to nothing is not the last word. */
  ghost predicate Replaced(s: State) {
    && (forall p | p in s.slot.cancelled || p in s.spoiled :: p < s.slot.next && (p + 1 < s.slot.next || Due(s)))
    && (forall p | p in s.held :: p < s.slot.next && (p + 1 < s.slot.next || Due(s) || s.waiter.AwaitsRelease? || p in s.abandoned))
    && (s.slot.cancel.Some? ==> s.slot.cancel.value < s.slot.next)
  }

  /** Every plan started has come to nothing, or counts, or is in the making. */
  ghost predicate AllAccounted(s: State) {
    && (forall p: nat | p < s.slot.next :: Ended(s, p) || InTheMaking(s, p))
    && (forall l | 0 <= l < |s.loops| && !s.loops[l].AtTop? :: s.loops[l].plan < s.slot.next)
  }

  predicate Ended(s: State, p: nat) { p in s.spoiled || p in s.finished || p in s.held }

  /** A plan ends once: the one in the making is the last, and has not ended; and only a held plan is abandoned. */
  ghost predicate EndsOnce(s: State) {
    && (forall l | 0 <= l < |s.loops| && !s.loops[l].AtTop? :: s.loops[l].plan + 1 == s.slot.next && !Ended(s, s.loops[l].plan))
    && (forall p: nat | Ended(s, p) :: p < s.slot.next)
    && s.finished !! s.held && s.abandoned <= s.held
  }

  predicate InTheMaking(s: State, p: nat) { exists l :: 0 <= l < |s.loops| && !s.loops[l].AtTop? && s.loops[l].plan == p }

  lemma StepOneLoop(s: State, a: Action)
    requires Enabled(s, a) && OneLoop(s)
    ensures OneLoop(Do(s, a))
  {
  }

  lemma StepAnswered(s: State, a: Action)
    requires Enabled(s, a) && Answered(s)
    ensures Answered(Do(s, a))
  {
  }

  lemma StepReplaced(s: State, a: Action)
    requires Enabled(s, a) && Replaced(s) && OneLoop(s) && AllAccounted(s)
    ensures Replaced(Do(s, a))
  {
  }

  lemma AccountedAfter(s: State, s': State)
    requires AllAccounted(s) && |s.loops| <= 1 && |s'.loops| <= 1 && s.slot.next <= s'.slot.next && forall p: nat | Ended(s, p) :: Ended(s', p)
    requires forall l | 0 <= l < |s'.loops| && !s'.loops[l].AtTop? :: s'.loops[l].plan < s'.slot.next
    requires forall p: nat | s.slot.next <= p < s'.slot.next :: InTheMaking(s', p)
    requires |s.loops| == 1 && !s.loops[0].AtTop? ==> var p := s.loops[0].plan; Ended(s', p) || InTheMaking(s', p)
    ensures AllAccounted(s')
  {
    forall p: nat | p < s'.slot.next
      ensures Ended(s', p) || InTheMaking(s', p)
    {
      if InTheMaking(s, p) {
        assert s.loops[0].plan == p;
      }
    }
  }

  lemma StepAccounted(s: State, a: Action)
    requires Enabled(s, a) && AllAccounted(s) && OneLoop(s)
    ensures AllAccounted(Do(s, a))
  {
    var s' := Do(s, a);
    StepOneLoop(s, a);
    if |s'.loops| == 1 && !s'.loops[0].AtTop? {
      assert InTheMaking(s', s'.loops[0].plan);
    }
    AccountedAfter(s, s');
  }

  lemma StepEndsOnce(s: State, a: Action)
    requires Enabled(s, a) && EndsOnce(s) && OneLoop(s)
    ensures EndsOnce(Do(s, a))
  {
    var s' := Do(s, a);
    assert s.loops != [] && !s.loops[0].AtTop? ==> s.loops[0].plan + 1 == s.slot.next && !Ended(s, s.loops[0].plan);
    forall p: nat | Ended(s', p)
      ensures Ended(s, p) || ((a.Look? || a.Finish?) && p == s.loops[0].plan)
    {
    }
    assert s.slot.next <= s'.slot.next;
    forall p: nat | Ended(s', p)
      ensures p < s'.slot.next
    {
      if Ended(s, p) { assert p < s.slot.next; }
    }
    StepOneLoop(s, a);
    forall l | 0 <= l < |s'.loops| && !s'.loops[l].AtTop?
      ensures s'.loops[l].plan + 1 == s'.slot.next && !Ended(s', s'.loops[l].plan)
    {
      assert l == 0;
    }
  }

  lemma {:induction false} RunKeeps(acts: seq<Action>)
    requires Legal(acts)
    ensures OneLoop(After(acts)) && Answered(After(acts)) && Replaced(After(acts)) && AllAccounted(After(acts)) && EndsOnce(After(acts))
  {
    if acts != [] {
      var init, last := acts[..|acts| - 1], acts[|acts| - 1];
      RunKeeps(init);
      StepOneLoop(After(init), last);
      StepAnswered(After(init), last);
      StepReplaced(After(init), last);
      StepAccounted(After(init), last);
      StepEndsOnce(After(init), last);
    }
  }

  /** Nothing is going on: no loop, no run, no finished run about to kick, and nobody waiting for a lease. */
  predicate AtRest(s: State) { s.loops == [] && s.run.NoRun? && s.pending == 0 && s.waiter.NoWaiter? }

  /** At most one loop plans a cluster at a time, and what was asked for is never forgotten while no loop is there to see it. */
  lemma NoLostWakeup(acts: seq<Action>)
    requires Legal(acts)
    ensures |After(acts).loops| <= 1
    ensures After(acts).slot.dirty ==> |After(acts).loops| == 1
  {
    RunKeeps(acts);
  }

  /**
   However the steps interleave: once no loop is left, a plan has started after every kick; once the run's kick is in
   too, one has started after every run end; and there were no more plans than kicks.
   */
  lemma EveryKickIsAnswered(acts: seq<Action>)
    requires Legal(acts) && After(acts).loops == []
    ensures forall i | 0 <= i < |After(acts).kicks| :: After(acts).kicks[i] < After(acts).slot.next
    ensures After(acts).pending == 0 ==> forall i | 0 <= i < |After(acts).runEnds| :: After(acts).runEnds[i] < After(acts).slot.next
    ensures After(acts).slot.next <= |After(acts).kicks|
  {
    RunKeeps(acts);
  }

  /**
   A plan cancelled by a starting run or a changed repository, or skipped or dropped because of a run, is never the
   last one. At rest the last plan counts, unless another holder had the lease then and nobody followed that up; and it
   counts exactly when it was not abandoned so.
   */
  lemma LastPlanCounts(acts: seq<Action>)
    requires Legal(acts) && AtRest(After(acts)) && After(acts).slot.next > 0
    ensures var s := After(acts); var last := s.slot.next - 1;
            && last !in s.spoiled && last !in s.slot.cancelled
            && (last in s.finished <==> last !in s.abandoned) && (last in s.abandoned ==> last in s.held)
  {
    RunKeeps(acts);
    var last := After(acts).slot.next - 1;
    assert !InTheMaking(After(acts), last);
  }

  /** A wait that fails, and a plan that finds the lease taken while the waiter has kicked but not left. */
  predicate LosesTrack(s: State, a: Action) {
    a.WaitFails? || (a.Look? && a.leased && s.waiter.HasKicked?)
  }

  ghost predicate NeverLosesTrack(acts: seq<Action>)
    requires Legal(acts)
  {
    acts == [] || (NeverLosesTrack(acts[..|acts| - 1]) && !LosesTrack(After(acts[..|acts| - 1]), acts[|acts| - 1]))
  }

  /** Otherwise no plan is abandoned, so that at rest the last plan counts. */
  lemma {:induction false} NothingAbandoned(acts: seq<Action>)
    requires Legal(acts) && NeverLosesTrack(acts)
    ensures After(acts).abandoned == {}
  {
    if acts != [] {
      NothingAbandoned(acts[..|acts| - 1]);
    }
  }

  // ---- what counts, and what is answered, told by the run itself ----

  predicate Kicks(a: Action) { a.Kick? || a.KickAfterRun? || a.KickAfterRelease? }

  /** The action starts a plan. */
  predicate StartsPlan(s: State, a: Action) { a.Top? && s.slot.dirty }

  lemma {:induction false} LegalPrefix(acts: seq<Action>, i: nat)
    requires Legal(acts) && i <= |acts|
    ensures Legal(acts[..i]) && (i < |acts| ==> Enabled(After(acts[..i]), acts[i]))
    decreases |acts|
  {
    if i == |acts| {
      assert acts[..i] == acts;
    } else if i < |acts| - 1 {
      assert acts[..|acts| - 1][..i] == acts[..i];
      LegalPrefix(acts[..|acts| - 1], i);
    }
  }

  lemma NumberKept(s: State, a: Action)
    requires Enabled(s, a) && !StartsPlan(s, a)
    ensures Do(s, a).slot.next == s.slot.next
  {
  }

  ghost predicate NoStartSince(acts: seq<Action>, i: nat) {
    forall j | i <= j < |acts| && Legal(acts[..j]) :: !StartsPlan(After(acts[..j]), acts[j])
  }

  lemma NoStartBefore(acts: seq<Action>, i: nat)
    requires i < |acts| && NoStartSince(acts, i)
    ensures NoStartSince(acts[..|acts| - 1], i)
  {
    assert forall j | i <= j < |acts| - 1 :: acts[..|acts| - 1][..j] == acts[..j];
  }

  /** While no plan starts, the number of the next plan does not change. */
  lemma {:induction false} NumbersStay(acts: seq<Action>, i: nat)
    requires Legal(acts) && i <= |acts| && Legal(acts[..i]) && NoStartSince(acts, i)
    ensures After(acts).slot.next == After(acts[..i]).slot.next
    decreases |acts|
  {
    if i == |acts| {
      assert acts[..i] == acts;
    } else {
      var n := |acts| - 1;
      assert acts[..n][..i] == acts[..i];
      NoStartBefore(acts, i);
      NumbersStay(acts[..n], i);
      NumberKept(After(acts[..n]), acts[n]);
    }
  }

  lemma {:induction false} KickIsRecorded(acts: seq<Action>, i: nat)
    requires Legal(acts) && i < |acts| && Kicks(acts[i]) && Legal(acts[..i])
    ensures After(acts[..i]).slot.next in After(acts).kicks
    decreases |acts|
  {
    var init := acts[..|acts| - 1];
    if i < |init| {
      assert init[..i] == acts[..i];
      KickIsRecorded(init, i);
    }
  }

  /** Once no loop is left, every kick of the run has been followed by the start of a plan. */
  lemma KickStartsPlan(acts: seq<Action>, i: nat) returns (j: nat)
    requires Legal(acts) && i < |acts| && Kicks(acts[i]) && After(acts).loops == []
    ensures i < j < |acts| && Legal(acts[..j]) && StartsPlan(After(acts[..j]), acts[j])
  {
    LegalPrefix(acts, i);
    KickIsRecorded(acts, i);
    EveryKickIsAnswered(acts);
    if NoStartSince(acts, i) {
      NumbersStay(acts, i);
      assert false;
    }
    j :| i <= j < |acts| && Legal(acts[..j]) && StartsPlan(After(acts[..j]), acts[j]);
  }

  /** The action ends the making of the plan while no run is going on and nobody has cancelled it. */
  predicate EndsWell(s: State, a: Action, plan: nat) {
    a.Finish? && Enabled(s, a) && s.loops[a.loop] == Planning(plan) && s.run.NoRun? && plan !in s.slot.cancelled
  }

  lemma FinishedStep(s: State, a: Action, plan: nat)
    requires Enabled(s, a)
    ensures plan in Do(s, a).finished <==> plan in s.finished || EndsWell(s, a, plan)
  {
  }

  predicate EndedWellAt(acts: seq<Action>, plan: nat, i: nat) {
    i < |acts| && Legal(acts[..i]) && EndsWell(After(acts[..i]), acts[i], plan)
  }

  lemma EndedEarlier(acts: seq<Action>, plan: nat, i: nat)
    requires acts != [] && i < |acts| - 1
    ensures EndedWellAt(acts[..|acts| - 1], plan, i) <==> EndedWellAt(acts, plan, i)
  {
    assert acts[..|acts| - 1][..i] == acts[..i];
  }

  /** A plan counts exactly when its making ended so. */
  lemma {:induction false} CountsExactly(acts: seq<Action>, plan: nat)
    requires Legal(acts)
    ensures plan in After(acts).finished <==> exists i: nat :: EndedWellAt(acts, plan, i)
    decreases |acts|
  {
    if acts != [] {
      var init, n := acts[..|acts| - 1], |acts| - 1;
      CountsExactly(init, plan);
      FinishedStep(After(init), acts[n], plan);
      assert EndedWellAt(acts, plan, n) <==> EndsWell(After(init), acts[n], plan);
      forall i: nat | i < n
        ensures EndedWellAt(init, plan, i) <==> EndedWellAt(acts, plan, i)
      {
        EndedEarlier(acts, plan, i);
      }
    }
  }

  // ---- how a run is followed by a plan ----

  /** A run starts while a plan is made: that plan comes to nothing, and the one asked for when the run has ended counts. */
  lemma RunIsFollowed() returns (s: State)
    ensures Reaches(s) && AtRest(s) && s.spoiled == {0} && s.slot.cancelled == {0} && s.finished == {1} && s.runEnds == [1] && s.slot.next == 2
  {
    assert Legal([]) && After([]) == START;
    ReachesNext(START, Kick(false));
    s := Do(START, Kick(false));
    s := PlansTo(s);
    ReachesNext(s, StartRun);
    s := Do(s, StartRun);
    ReachesNext(s, CancelPlan);
    s := Do(s, CancelPlan);
    s := EndsLoop(s);
    ReachesNext(s, EndRun);
    s := Do(s, EndRun);
    ReachesNext(s, KickAfterRun);
    s := Do(s, KickAfterRun);
    s := PlansTo(s);
    s := EndsLoop(s);
  }

  /** The loop takes up what was asked for. */
  lemma PlansTo(s: State) returns (s': State)
    requires Reaches(s) && s.loops == [AtTop] && s.slot.dirty && s.run.NoRun?
    ensures Reaches(s') && s' == s.(slot := Topped(s.slot), loops := [Planning(s.slot.next)])
  {
    ReachesNext(s, Top(0));
    s' := Do(s, Top(0));
    assert s'.loops == [Looking(s.slot.next)];
    ReachesNext(s', Look(0, false));
    s' := Do(s', Look(0, false));
    assert s'.loops == [Planning(s.slot.next)];
  }

  /** The loop ends its plan and, as nothing else was asked for, itself. */
  lemma EndsLoop(s: State) returns (s': State)
    requires Reaches(s) && |s.loops| == 1 && s.loops[0].Planning? && !s.slot.dirty
    ensures var plan := s.loops[0].plan; var well := s.run.NoRun? && plan !in s.slot.cancelled;
            Reaches(s') && s' == s.(slot := Topped(s.slot), loops := [], spoiled := if well then s.spoiled else s.spoiled + {plan},
                                    finished := if well then s.finished + {plan} else s.finished)
  {
    ReachesNext(s, Finish(0));
    s' := Do(s, Finish(0));
    assert s'.loops == [AtTop];
    ReachesNext(s', Top(0));
    s' := Do(s', Top(0));
  }

  // ---- how a release is missed ----

  ghost predicate Reaches(s: State) { exists acts :: Legal(acts) && After(acts) == s }

  lemma ReachesNext(s: State, a: Action)
    requires Reaches(s) && Enabled(s, a)
    ensures Reaches(Do(s, a))
  {
    var acts :| Legal(acts) && After(acts) == s;
    assert (acts + [a])[..|acts|] == acts;
    assert Legal(acts + [a]) && After(acts + [a]) == Do(s, a);
  }

  /** A loop whose plan finds the lease taken, and that ends because nothing else was asked for. */
  lemma ReachesHeld(s: State)
    requires Reaches(s) && s.loops == [AtTop] && s.slot.dirty && s.run.NoRun?
    ensures var s' := Do(Do(Do(s, Top(0)), Look(0, true)), Top(0));
            Reaches(s') && s'.loops == [] && s'.held == s.held + {s.slot.next} && s'.run.NoRun? && s'.pending == s.pending
            && s'.slot == s.slot.(dirty := false, running := false, cancel := None, next := s.slot.next + 1)
            && (if s.waiter.HasKicked? then s'.waiter == s.waiter && s'.abandoned == s.abandoned + {s.slot.next}
                else s'.waiter.AwaitsRelease? && s'.abandoned == s.abandoned)
  {
    ReachesNext(s, Top(0));
    var s1 := Do(s, Top(0));
    assert s1.loops == [Looking(s.slot.next)];
    ReachesNext(s1, Look(0, true));
    var s2 := Do(s1, Look(0, true));
    assert s2.loops == [AtTop];
    ReachesNext(s2, Top(0));
  }

  /**
   A lost wakeup: the lease is released, the waiter kicks, the plan finds the lease taken by someone else, and takes the
   waiter that is about to leave for one that will wait. Then nobody waits, and the last plan does not count.
   */
  lemma ReleaseMissed() returns (s: State)
    ensures Reaches(s) && AtRest(s) && s.slot.next == 2 && 1 in s.abandoned && 1 !in s.finished
  {
    assert Legal([]) && After([]) == START;
    ReachesNext(START, Kick(false));
    s := Do(START, Kick(false));
    ReachesHeld(s);
    s := Do(Do(Do(s, Top(0)), Look(0, true)), Top(0));
    ReachesNext(s, KickAfterRelease);
    s := Do(s, KickAfterRelease);
    assert s.loops == [AtTop];
    ReachesHeld(s);
    s := Do(Do(Do(s, Top(0)), Look(0, true)), Top(0));
    ReachesNext(s, WaiterLeaves);
    s := Do(s, WaiterLeaves);
    var acts :| Legal(acts) && After(acts) == s;
    RunKeeps(acts);
  }

  /** A loop left to itself ends: each of its steps brings it nearer to the end, two more plans at the most. */
  function StepsLeft(s: State): nat {
    if s.loops == [] then 0
    else (if s.slot.dirty then 3 else 0) + match s.loops[0] case AtTop => 1 case Looking(_) => 3 case Planning(_) => 2
  }

  lemma LoopsEnd(acts: seq<Action>, a: Action)
    requires Legal(acts) && Enabled(After(acts), a) && (a.Top? || a.Look? || a.Finish?)
    ensures StepsLeft(Do(After(acts), a)) < StepsLeft(After(acts))
  {
    RunKeeps(acts);
  }
}
