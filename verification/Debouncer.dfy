/**
 Debouncing: hits on a key are gathered into a burst, and one fire follows when the key has been quiet for a while, or
 at the latest a maximum wait after the first hit. Timers run their function in a goroutine of its own, which may come
 to the lock late, and a timer may be reset after it has already gone off, so the function can run twice for a burst.
 */
module Debouncer {
  import opened Basics

  /**
   One burst: its key, the times of its first and latest hit, when its timer is due if it is armed, and how many
   goroutines of the timer have not come to the lock yet. For the record, when the timer went off first.
   */
  datatype Burst = Burst(key: string, first: int, latest: int, due: Option<int>, flushes: nat, wentOff: Option<int>)

  datatype Event = Hit(burst: nat) | Fire(burst: nat)

  datatype State = State(pending: map<string, nat>, bursts: seq<Burst>, stopped: bool, now: int, log: seq<Event>)

  const START := State(map[], [], false, 0, [])

  /** The configured delay and maximum wait; the wait is never shorter than the delay. */
  datatype Config = Config(delay: nat, wait: nat)

  function MaxWait(c: Config): nat { Max(c.wait, c.delay) }

  // ---- the steps ----

  function DoHit(c: Config, s: State, key: string): State {
    if s.stopped then s
    else if key !in s.pending then
      var b := Burst(key, s.now, s.now, Some(s.now + c.delay), 0, None);
      s.(pending := s.pending[key := |s.bursts|], bursts := s.bursts + [b], log := s.log + [Hit(|s.bursts|)])
    else
      var i := s.pending[key];
      if i < |s.bursts| then
        var b := s.bursts[i];
        var due := s.now + Max(Min(c.delay, b.first + MaxWait(c) - s.now), 0);
        s.(bursts := s.bursts[i := b.(due := Some(due), latest := if b.wentOff.None? then s.now else b.latest)], log := s.log + [Hit(i)])
      else s
  }

  /** A goroutine of the burst's timer comes to the lock. */
  function DoFlush(s: State, i: nat): State
    requires i < |s.bursts| && s.bursts[i].flushes > 0
  {
    var b := s.bursts[i];
    var s' := s.(bursts := s.bursts[i := b.(flushes := b.flushes - 1)]);
    if s.stopped || b.key !in s.pending || s.pending[b.key] != i then s'
    else s'.(pending := s.pending - {b.key}, log := s.log + [Fire(i)])
  }

  /** The timer goes off at its time. */
  function DoExpire(s: State, i: nat): State
    requires i < |s.bursts|
  {
    var b := s.bursts[i];
    s.(bursts := s.bursts[i := b.(due := None, flushes := b.flushes + 1, wentOff := if b.wentOff.None? then Some(s.now) else b.wentOff)])
  }

  function StopTimers(s: State): seq<Burst> {
    seq(|s.bursts|, i requires 0 <= i < |s.bursts| =>
      if s.bursts[i].key in s.pending && s.pending[s.bursts[i].key] == i then s.bursts[i].(due := None) else s.bursts[i])
  }

  function DoStop(s: State): State { s.(stopped := true, pending := map[], bursts := StopTimers(s)) }

  datatype Action = HitKey(key: string) | Flush(i: nat) | Expire(i: nat) | Stop | Pass(to: int)

  /** Time does not run past a timer that is due: it goes off on time, whatever happens to its goroutine after that. */
  predicate Enabled(s: State, a: Action) {
    match a
    case HitKey(_) => true
    case Flush(i) => i < |s.bursts| && s.bursts[i].flushes > 0
    case Expire(i) => i < |s.bursts| && s.bursts[i].due.Some? && s.bursts[i].due.value <= s.now
    case Stop => true
    case Pass(to) => s.now <= to && forall i | 0 <= i < |s.bursts| && s.bursts[i].due.Some? :: to <= s.bursts[i].due.value
  }

  function Do(c: Config, s: State, a: Action): State
    requires Enabled(s, a)
  {
    match a
    case HitKey(key) => DoHit(c, s, key)
    case Flush(i) => DoFlush(s, i)
    case Expire(i) => DoExpire(s, i)
    case Stop => DoStop(s)
    case Pass(to) => s.(now := to)
  }

  predicate Legal(c: Config, acts: seq<Action>)
    decreases |acts|, 0
  {
    acts == [] || (Legal(c, acts[..|acts| - 1]) && Enabled(After(c, acts[..|acts| - 1]), acts[|acts| - 1]))
  }

  function After(c: Config, acts: seq<Action>): State
    requires Legal(c, acts)
    decreases |acts|, 1
  {
    if acts == [] then START else Do(c, After(c, acts[..|acts| - 1]), acts[|acts| - 1])
  }

  // ---- what always holds ----

  predicate Pending(s: State, i: nat) { i < |s.bursts| && s.bursts[i].key in s.pending && s.pending[s.bursts[i].key] == i }

  /** When the timer of a burst is to go off first: after the delay without a hit, but no later than the maximum wait. */
  function Deadline(c: Config, b: Burst): int { Min(b.latest + c.delay, b.first + MaxWait(c)) }

  predicate BurstOk(c: Config, s: State, i: nat)
    requires i < |s.bursts|
  {
    var b := s.bursts[i];
    && b.first <= b.latest <= s.now
    && (b.due.Some? ==> s.now <= b.due.value)
    && (b.wentOff.Some? ==> b.wentOff.value == Deadline(c, b))
    && (b.wentOff.None? ==> b.flushes == 0 && (b.due.Some? ==> b.due.value == Deadline(c, b)))
    && (Pending(s, i) ==> !s.stopped && if b.wentOff.Some? then b.flushes > 0 else b.due.Some?)
  }

  ghost predicate TimersOk(c: Config, s: State) {
    && (forall key | key in s.pending :: s.pending[key] < |s.bursts| && s.bursts[s.pending[key]].key == key)
    && (forall i | 0 <= i < |s.bursts| :: BurstOk(c, s, i))
  }

  predicate FiredAt(s: State, j: nat, i: nat) { j < |s.log| && s.log[j] == Fire(i) }

  predicate HitAt(s: State, j: nat, i: nat) { j < |s.log| && s.log[j] == Hit(i) }

  ghost predicate FiredAfter(s: State, j: nat, i: nat) { exists k: nat :: j < k && FiredAt(s, k, i) }

  /** A hit waits for its burst's fire, or has been followed by it, and no burst fires twice. */
  ghost predicate LogOk(s: State) {
    && (forall j: nat, i: nat | HitAt(s, j, i) :: i < |s.bursts| && (Pending(s, i) || s.stopped || FiredAfter(s, j, i)))
    && (forall j: nat, i: nat | FiredAt(s, j, i) :: i < |s.bursts| && !Pending(s, i) && s.bursts[i].wentOff.Some?)
    && (forall j: nat, k: nat, i: nat | FiredAt(s, j, i) && FiredAt(s, k, i) :: j == k)
  }

  lemma HitKeepsTimers(c: Config, s: State, key: string)
    requires TimersOk(c, s)
    ensures TimersOk(c, DoHit(c, s, key))
  {
    var s' := DoHit(c, s, key);
    forall i | 0 <= i < |s'.bursts|
      ensures BurstOk(c, s', i)
    {
      if i < |s.bursts| {
        assert BurstOk(c, s, i);
      }
    }
  }

  lemma FlushKeepsTimers(c: Config, s: State, n: nat)
    requires TimersOk(c, s) && Enabled(s, Flush(n))
    ensures TimersOk(c, DoFlush(s, n))
  {
    var s' := DoFlush(s, n);
    forall i | 0 <= i < |s'.bursts|
      ensures BurstOk(c, s', i)
    {
      if i < |s.bursts| {
        assert BurstOk(c, s, i);
      }
    }
  }

  lemma ExpireKeepsTimers(c: Config, s: State, n: nat)
    requires TimersOk(c, s) && Enabled(s, Expire(n))
    ensures TimersOk(c, DoExpire(s, n))
  {
    var s' := DoExpire(s, n);
    forall i | 0 <= i < |s'.bursts|
      ensures BurstOk(c, s', i)
    {
      if i < |s.bursts| {
        assert BurstOk(c, s, i);
      }
    }
  }

  lemma StopKeepsTimers(c: Config, s: State)
    requires TimersOk(c, s)
    ensures TimersOk(c, DoStop(s))
  {
    var s' := DoStop(s);
    forall i | 0 <= i < |s'.bursts|
      ensures BurstOk(c, s', i)
    {
      if i < |s.bursts| {
        assert BurstOk(c, s, i);
      }
    }
  }

  lemma PassKeepsTimers(c: Config, s: State, to: int)
    requires TimersOk(c, s) && Enabled(s, Pass(to))
    ensures TimersOk(c, s.(now := to))
  {
    forall i | 0 <= i < |s.bursts|
      ensures BurstOk(c, s.(now := to), i)
    {
      assert BurstOk(c, s, i);
    }
  }

  lemma HitKeepsLog(c: Config, s: State, key: string)
    requires TimersOk(c, s) && LogOk(s)
    ensures LogOk(DoHit(c, s, key))
  {
    var s' := DoHit(c, s, key);
    forall j: nat, i: nat | HitAt(s', j, i)
      ensures i < |s'.bursts| && (Pending(s', i) || s'.stopped || FiredAfter(s', j, i))
    {
      if j < |s.log| {
        assert HitAt(s, j, i);
        if FiredAfter(s, j, i) {
          KeepsFired(s, s', j, i);
        }
      }
    }
    forall j: nat, i: nat | FiredAt(s', j, i)
      ensures i < |s'.bursts| && !Pending(s', i) && s'.bursts[i].wentOff.Some?
    {
      assert FiredAt(s, j, i);
    }
    assert forall j: nat, i: nat | FiredAt(s', j, i) :: FiredAt(s, j, i);
  }

  lemma KeepsFired(s: State, s': State, j: nat, i: nat)
    requires |s.log| <= |s'.log| && s.log == s'.log[..|s.log|] && FiredAfter(s, j, i)
    ensures FiredAfter(s', j, i)
  {
    var k: nat :| j < k && FiredAt(s, k, i);
    assert FiredAt(s', k, i);
  }

  lemma FlushKeepsLog(c: Config, s: State, n: nat)
    requires TimersOk(c, s) && LogOk(s) && Enabled(s, Flush(n))
    ensures LogOk(DoFlush(s, n))
  {
    var s' := DoFlush(s, n);
    assert BurstOk(c, s, n);
    forall j: nat, i: nat | HitAt(s', j, i)
      ensures i < |s'.bursts| && (Pending(s', i) || s'.stopped || FiredAfter(s', j, i))
    {
      assert HitAt(s, j, i);
      if FiredAfter(s, j, i) {
        KeepsFired(s, s', j, i);
      } else if Pending(s, n) && i == n {
        assert FiredAt(s', |s.log|, n);
      }
    }
    forall j: nat, i: nat | FiredAt(s', j, i) && j < |s.log|
      ensures FiredAt(s, j, i)
    {
    }
  }

  lemma StopKeepsLog(c: Config, s: State)
    requires TimersOk(c, s) && LogOk(s)
    ensures LogOk(DoStop(s))
  {
    var s' := DoStop(s);
    forall j: nat, i: nat | FiredAt(s', j, i)
      ensures i < |s'.bursts| && !Pending(s', i) && s'.bursts[i].wentOff.Some?
    {
      assert FiredAt(s, j, i);
    }
    assert forall j: nat, i: nat | HitAt(s', j, i) :: HitAt(s, j, i);
    assert forall j: nat, i: nat | FiredAt(s', j, i) :: FiredAt(s, j, i);
  }

  lemma OthersKeepLog(c: Config, s: State, s': State)
    requires LogOk(s) && s'.log == s.log && s'.pending == s.pending && s'.stopped == s.stopped && |s'.bursts| == |s.bursts|
    requires forall i | 0 <= i < |s.bursts| :: s'.bursts[i].key == s.bursts[i].key && (s.bursts[i].wentOff.Some? ==> s'.bursts[i].wentOff.Some?)
    ensures LogOk(s')
  {
    forall j: nat, i: nat | HitAt(s', j, i)
      ensures i < |s'.bursts| && (Pending(s', i) || s'.stopped || FiredAfter(s', j, i))
    {
      assert HitAt(s, j, i);
      if FiredAfter(s, j, i) {
        KeepsFired(s, s', j, i);
      }
    }
    assert forall j: nat, i: nat | FiredAt(s', j, i) :: FiredAt(s, j, i);
  }

  lemma {:induction false} RunKeeps(c: Config, acts: seq<Action>)
    requires Legal(c, acts)
    ensures TimersOk(c, After(c, acts)) && LogOk(After(c, acts))
  {
    if acts != [] {
      var init, last := acts[..|acts| - 1], acts[|acts| - 1];
      RunKeeps(c, init);
      var s := After(c, init);
      match last
      case HitKey(key) => HitKeepsTimers(c, s, key); HitKeepsLog(c, s, key);
      case Flush(i) => FlushKeepsTimers(c, s, i); FlushKeepsLog(c, s, i);
      case Expire(i) => ExpireKeepsTimers(c, s, i); OthersKeepLog(c, s, DoExpire(s, i));
      case Stop => StopKeepsTimers(c, s); StopKeepsLog(c, s);
      case Pass(to) => PassKeepsTimers(c, s, to); OthersKeepLog(c, s, s.(now := to));
    }
  }

  /**
   Unless the debouncer is stopped, a hit whose key has nothing pending any more has been followed by one fire of its
   burst, and by no more than one.
   */
  lemma OneFireAfterHit(c: Config, acts: seq<Action>, j: nat, i: nat)
    requires Legal(c, acts) && HitAt(After(c, acts), j, i)
    ensures i < |After(c, acts).bursts|
    ensures !After(c, acts).stopped && After(c, acts).bursts[i].key !in After(c, acts).pending ==>
            exists k: nat :: j < k && FiredAt(After(c, acts), k, i) && forall m: nat | FiredAt(After(c, acts), m, i) :: m == k
  {
    RunKeeps(c, acts);
    var s := After(c, acts);
    if !s.stopped && s.bursts[i].key !in s.pending {
      var k: nat :| j < k && FiredAt(s, k, i);
    }
  }

  /**
   The timer of every burst that fired went off exactly when the key had been quiet for the delay or the maximum wait
   since the first hit was over, whichever came first; one still pending past that time has its fire on the way.
   */
  lemma FiresInTime(c: Config, acts: seq<Action>, i: nat)
    requires Legal(c, acts) && i < |After(c, acts).bursts|
    ensures var s, b := After(c, acts), After(c, acts).bursts[i];
            && (forall j: nat | FiredAt(s, j, i) :: b.wentOff == Some(Deadline(c, b)))
            && (Pending(s, i) ==> b.flushes > 0 || (s.now <= Deadline(c, b) && b.due == Some(Deadline(c, b))))
            && Deadline(c, b) <= b.first + MaxWait(c)
  {
    RunKeeps(c, acts);
    assert BurstOk(c, After(c, acts), i);
  }

  lemma LegalNext(c: Config, acts: seq<Action>, a: Action)
    requires Legal(c, acts) && Enabled(After(c, acts), a)
    ensures Legal(c, acts + [a]) && After(c, acts + [a]) == Do(c, After(c, acts), a)
  {
    assert (acts + [a])[..|acts|] == acts;
  }

  /** A goroutine of the timer of a pending burst fires when it comes to the lock. */
  lemma FlushFires(c: Config, acts: seq<Action>, i: nat)
    requires Legal(c, acts) && Pending(After(c, acts), i) && After(c, acts).bursts[i].flushes > 0 && !After(c, acts).stopped
    ensures Legal(c, acts + [Flush(i)])
    ensures var s := After(c, acts + [Flush(i)]); s.log == After(c, acts).log + [Fire(i)] && !Pending(s, i)
  {
    LegalNext(c, acts, Flush(i));
  }

  /** In every run a burst whose deadline has come can fire at once, in one step, or two when its timer has yet to go off. */
  lemma DueFires(c: Config, acts: seq<Action>, i: nat) returns (more: seq<Action>)
    requires Legal(c, acts) && Pending(After(c, acts), i) && After(c, acts).now >= Deadline(c, After(c, acts).bursts[i])
    ensures 1 <= |more| <= 2 && Legal(c, acts + more)
    ensures After(c, acts + more).log == After(c, acts).log + [Fire(i)] && After(c, acts + more).now == After(c, acts).now
    ensures i < |After(c, acts + more).bursts| && (|more| == 2 ==> After(c, acts + more).bursts[i].due.None?)
  {
    RunKeeps(c, acts);
    var s := After(c, acts);
    assert BurstOk(c, s, i);
    if s.bursts[i].flushes > 0 {
      FlushFires(c, acts, i);
      more := [Flush(i)];
    } else {
      LegalNext(c, acts, Expire(i));
      FlushFires(c, acts + [Expire(i)], i);
      more := [Expire(i), Flush(i)];
      assert acts + more == acts + [Expire(i)] + [Flush(i)];
    }
  }

  lemma AfterOneHit(c: Config, key: string, waited: nat)
    requires waited <= c.delay
    ensures var acts := [HitKey(key), Pass(waited)];
            Legal(c, acts) && After(c, acts) == State(map[key := 0], [Burst(key, 0, 0, Some(c.delay), 0, None)], false, waited, [Hit(0)])
  {
    assert Legal(c, []) && After(c, []) == START;
    LegalNext(c, [], HitKey(key));
    assert [] + [HitKey(key)] == [HitKey(key)];
    LegalNext(c, [HitKey(key)], Pass(waited));
    assert [HitKey(key)] + [Pass(waited)] == [HitKey(key), Pass(waited)];
  }

  /** A single hit fires after the delay, and its timer does not go off before. */
  lemma SingleHitFires(c: Config, key: string) returns (acts: seq<Action>)
    ensures Legal(c, acts) && After(c, acts).log == [Hit(0), Fire(0)] && After(c, acts).now == c.delay
    ensures forall waited: nat | waited < c.delay ::
              var early := [HitKey(key), Pass(waited)]; Legal(c, early) && !Enabled(After(c, early), Expire(0))
  {
    forall waited: nat | waited <= c.delay
      ensures var early := [HitKey(key), Pass(waited)];
              Legal(c, early) && After(c, early) == State(map[key := 0], [Burst(key, 0, 0, Some(c.delay), 0, None)], false, waited, [Hit(0)])
    {
      AfterOneHit(c, key, waited);
    }
    acts := [HitKey(key), Pass(c.delay)];
    var more := DueFires(c, acts, 0);
    acts := acts + more;
  }

  /** Once stopped, nothing fires any more. */
  lemma StoppedIsSilent(c: Config, s: State, a: Action)
    requires Enabled(s, a) && s.stopped
    ensures Do(c, s, a).stopped && Do(c, s, a).log == s.log
  {
  }

  // ---- the debouncer in place ----

  class Timers {
    var pending: map<string, nat>
    var bursts: seq<Burst>
    var stopped: bool
    ghost var log: seq<Event>

    ghost function Value(now: int): State reads this { State(pending, bursts, stopped, now, log) }

    constructor ()
      ensures Value(0) == START
    {
      pending, bursts, stopped, log := map[], [], false, [];
    }

    method Hit(c: Config, key: string, now: int)
      requires key in pending ==> pending[key] < |bursts|
      modifies this
      ensures Value(now) == DoHit(c, old(Value(now)), key)
    {
      if stopped {
        return;
      }
      if key !in pending {
        pending := pending[key := |bursts|];
        log := log + [Event.Hit(|bursts|)];
        bursts := bursts + [Burst(key, now, now, Some(now + c.delay), 0, None)];
        return;
      }
      var i := pending[key];
      var b := bursts[i];
      var reset := Max(Min(c.delay, b.first + MaxWait(c) - now), 0);
      bursts := bursts[i := b.(due := Some(now + reset), latest := if b.wentOff.None? then now else b.latest)];
      log := log + [Event.Hit(i)];
    }

    /** Runs in a goroutine of the burst's timer; fires unless the burst is no longer the pending one. */
    method Flush(i: nat, ghost now: int) returns (fire: bool)
      requires i < |bursts| && bursts[i].flushes > 0
      modifies this
      ensures Value(now) == DoFlush(old(Value(now)), i) && (fire <==> !old(stopped) && old(Pending(Value(now), i)))
    {
      var b := bursts[i];
      bursts := bursts[i := b.(flushes := b.flushes - 1)];
      if stopped || b.key !in pending || pending[b.key] != i {
        return false;
      }
      pending := pending - {b.key};
      log := log + [Fire(i)];
      fire := true;
    }

    /** Stops the timers of all pending bursts and forgets them. */
    method Stop(ghost now: int)
      requires forall key | key in pending :: pending[key] < |bursts| && bursts[pending[key]].key == key
      modifies this
      ensures Value(now) == DoStop(old(Value(now)))
    {
      stopped := true;
      var todo := pending.Keys;
      while todo != {}
        invariant stopped && log == old(log) && pending == old(pending) && todo <= pending.Keys
        invariant PartlyStopped(pending, old(bursts), todo, bursts)
        decreases |todo|
      {
        var key :| key in todo;
        StopOne(pending, old(bursts), todo, bursts, key);
        bursts := bursts[pending[key] := bursts[pending[key]].(due := None)];
        todo := todo - {key};
      }
      AllStopped(old(Value(now)), bursts);
      pending := map[];
    }
  }

  /** The timers of all pending bursts but those of `todo` are stopped. */
  ghost predicate PartlyStopped(pending: map<string, nat>, was: seq<Burst>, todo: set<string>, bursts: seq<Burst>) {
    && |bursts| == |was|
    && forall i | 0 <= i < |was| ::
         bursts[i] == if was[i].key in pending && was[i].key !in todo && pending[was[i].key] == i then was[i].(due := None) else was[i]
  }

  lemma AllStopped(s: State, bursts: seq<Burst>)
    requires PartlyStopped(s.pending, s.bursts, {}, bursts)
    ensures bursts == StopTimers(s)
  {
  }

  lemma StopOne(pending: map<string, nat>, was: seq<Burst>, todo: set<string>, bursts: seq<Burst>, key: string)
    requires key in pending && key in todo && pending[key] < |was| && was[pending[key]].key == key
    requires PartlyStopped(pending, was, todo, bursts)
    ensures PartlyStopped(pending, was, todo - {key}, bursts[pending[key] := bursts[pending[key]].(due := None)])
  {
  }
}
