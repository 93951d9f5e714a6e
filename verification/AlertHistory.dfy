/**
 The alert log over all histories of its critical sections. A resolve takes two of them, one that closes the event and
 one that records the recovery, and others may write in between; only there can a list be over its bound.
 */
module AlertHistory {
  import opened Alerts

  /** The log, and the recoveries of closed events that have yet to be recorded. */
  datatype State = State(log: Log, owed: seq<Event>)

  const START := State(Log(0, map[]), [])

  datatype Action =
    | Record(e: Event, now: int)
    | Raise(e: Event, now: int)
    | Close(cluster: string, node: string, kind: string, recovery: Event)   // the recovery is of the same cluster
    | Recover(i: nat, now: int)

  function Do(s: State, a: Action): State {
    match a
    case Record(e, now) => s.(log := Added(s.log, e.(open := false), now))
    case Raise(e, now) => s.(log := Raised(s.log, e, now))
    case Close(cluster, node, kind, recovery) =>
      var list := ListOf(s.log, cluster);
      var i := OpenIndex(list, node, kind);
      if i == |list| then s
      else State(Closed(s.log, cluster, node, kind),
                 s.owed + [recovery.(cluster := cluster, recovers := kind, notify := list[i].notify, open := false)])
    case Recover(i, now) =>
      if i < |s.owed| then State(Added(s.log, s.owed[i].(open := false), now), s.owed[..i] + s.owed[i + 1..]) else s
  }

  function After(acts: seq<Action>): State {
    if acts == [] then START else Do(After(acts[..|acts| - 1]), acts[|acts| - 1])
  }

  ghost predicate Owes(owed: seq<Event>, cluster: string) { exists e :: e in owed && e.cluster == cluster }

  ghost predicate Inv(s: State) {
    Valid(s.log) && forall c :: Bounded(s.log, c) || Owes(s.owed, c)
  }

  lemma OthersList(l: Log, e: Event, now: int, c: string)
    requires c != e.cluster
    ensures ListOf(Added(l, e, now), c) == ListOf(l, c) && ListOf(Raised(l, e, now), c) == ListOf(l, c)
  {
  }

  lemma AddedKeeps(s: State, e: Event, now: int, owed: seq<Event>)
    requires Inv(s) && !e.open && forall x | x in s.owed && x.cluster != e.cluster :: x in owed
    ensures Inv(State(Added(s.log, e, now), owed))
  {
    AddKeeps(s.log, e, now);
    forall c | c != e.cluster
      ensures Bounded(Added(s.log, e, now), c) || Owes(owed, c)
    {
      OthersList(s.log, e, now, c);
      if Owes(s.owed, c) {
        var x :| x in s.owed && x.cluster == c;
        assert x in owed;
      }
    }
  }

  lemma RaisedKeeps(s: State, e: Event, now: int)
    requires Inv(s)
    ensures Inv(s.(log := Raised(s.log, e, now)))
  {
    RaiseKeeps(s.log, e, now);
    forall c | c != e.cluster
      ensures Bounded(Raised(s.log, e, now), c) || Owes(s.owed, c)
    {
      OthersList(s.log, e, now, c);
    }
  }

  lemma ClosedKeeps(s: State, a: Action)
    requires Inv(s) && a.Close?
    ensures Inv(Do(s, a))
  {
    CloseKeeps(s.log, a.cluster, a.node, a.kind);
    var s' := Do(s, a);
    forall c
      ensures Bounded(s'.log, c) || Owes(s'.owed, c)
    {
      if s' != s {
        if c == a.cluster {
          assert s'.owed[|s.owed|] in s'.owed;
        } else {
          assert ListOf(s'.log, c) == ListOf(s.log, c);
          if Owes(s.owed, c) {
            var x :| x in s.owed && x.cluster == c;
            assert x in s'.owed;
          }
        }
      }
    }
  }

  lemma RecoveredKeeps(s: State, i: nat, now: int)
    requires Inv(s) && i < |s.owed|
    ensures Inv(Do(s, Recover(i, now)))
  {
    var rest := s.owed[..i] + s.owed[i + 1..];
    forall x | x in s.owed && x.cluster != s.owed[i].cluster
      ensures x in rest
    {
      var k :| 0 <= k < |s.owed| && s.owed[k] == x;
      assert k < i ==> rest[k] == x;
      assert k > i ==> rest[k - 1] == x;
    }
    AddedKeeps(s, s.owed[i].(open := false), now, rest);
  }

  lemma {:induction false} RunKeeps(acts: seq<Action>)
    ensures Inv(After(acts))
    decreases |acts|
  {
    if acts == [] {
      assert forall c :: ListOf(START.log, c) == [];
    } else {
      var s, last := After(acts[..|acts| - 1]), acts[|acts| - 1];
      RunKeeps(acts[..|acts| - 1]);
      match last
      case Record(e, now) => AddedKeeps(s, e.(open := false), now, s.owed);
      case Raise(e, now) => RaisedKeeps(s, e, now);
      case Close(_, _, _, _) => ClosedKeeps(s, last);
      case Recover(i, now) => if i < |s.owed| { RecoveredKeeps(s, i, now); }
    }
  }

  /**
   In every history ids increase, a fault has one open event at most, and every cluster's list is within the limit or as
   short as its open events allow, unless a recovery of that cluster has yet to be recorded.
   */
  lemma AlwaysBounded(acts: seq<Action>, cluster: string)
    ensures Valid(After(acts).log)
    ensures !Owes(After(acts).owed, cluster) ==> Bounded(After(acts).log, cluster)
  {
    RunKeeps(acts);
  }

  // ---- the window is real ----

  function NodeName(n: nat): string { seq(n, _ => 'n') }

  function Fault(n: nat): Event { Event(0, 0, "c", NodeName(n), Critical, "k", "", false, true, "") }

  /** Faults of so many nodes, one after the other. */
  function Raises(n: nat): seq<Action> { seq(n, i requires 0 <= i < n => Raise(Fault(i), 0)) }

  lemma {:induction false} AllOpenKept(list: seq<Event>, excess: int, cutoff: int)
    requires forall i | 0 <= i < |list| :: list[i].open
    ensures Kept(list, excess, cutoff) == list && OpenCount(list) == |list|
  {
    if list != [] {
      AllOpenKept(list[1..], excess, cutoff);
    }
  }

  predicate Row(list: seq<Event>, n: nat) {
    |list| == n && forall i | 0 <= i < n :: list[i].open && list[i].kind == "k" && list[i].node == NodeName(i)
  }

  lemma NotInRow(list: seq<Event>, n: nat)
    requires Row(list, n)
    ensures OpenIndex(list, NodeName(n), "k") == n
  {
    forall j | 0 <= j < n
      ensures !OpenFor(list[j], NodeName(n), "k")
    {
      assert |list[j].node| == j && |NodeName(n)| == n;
    }
  }

  lemma RaiseOneMore(l: Log, n: nat)
    requires Row(ListOf(l, "c"), n)
    ensures Row(ListOf(Raised(l, Fault(n), 0), "c"), n + 1)
  {
    var list, e := ListOf(l, "c"), Fault(n).(open := true);
    var more := list + [Stamped(l, e, 0)];
    NotInRow(list, n);
    AllOpenKept(more, |more| - EVENT_LIMIT, 0 - EVENT_AGE);
  }

  lemma {:induction false} RaisesFill(n: nat)
    ensures Row(ListOf(After(Raises(n)).log, "c"), n) && After(Raises(n)).owed == []
  {
    if n > 0 {
      RaisesFill(n - 1);
      assert Raises(n)[..n - 1] == Raises(n - 1) && Raises(n)[n - 1] == Raise(Fault(n - 1), 0);
      RaiseOneMore(After(Raises(n - 1)).log, n - 1);
    }
  }

  lemma CloseInRow(l: Log, n: nat, i: nat)
    requires Valid(l) && Bounded(l, "c") && Row(ListOf(l, "c"), n) && n > EVENT_LIMIT && i < n
    ensures IsOpen(l, "c", NodeName(i), "k") && !Bounded(Closed(l, "c", NodeName(i), "k"), "c")
  {
    var list := ListOf(l, "c");
    AllOpenKept(list, 0, 0);
    assert list[i] in list && OpenFor(list[i], NodeName(i), "k");
    ClosingKeepsBound(l, "c", NodeName(i), "k");
  }

  /** With more than 500 faults open, closing any one of them leaves a list over its bound until the recovery is recorded. */
  lemma ClosingBreaksBound(n: nat, i: nat, recovery: Event)
    requires n > EVENT_LIMIT && i < n
    ensures var acts := Raises(n) + [Close("c", NodeName(i), "k", recovery)];
            Bounded(After(Raises(n)).log, "c") && !Bounded(After(acts).log, "c")
  {
    var l := After(Raises(n)).log;
    RaisesFill(n);
    AlwaysBounded(Raises(n), "c");
    CloseInRow(l, n, i);
    NoneOpen(l, "c", NodeName(i), "k");
    CloseLast(Raises(n), NodeName(i), recovery);
  }

  lemma CloseLast(acts: seq<Action>, node: string, recovery: Event)
    requires OpenIndex(ListOf(After(acts).log, "c"), node, "k") < |ListOf(After(acts).log, "c")|
    ensures After(acts + [Close("c", node, "k", recovery)]).log == Closed(After(acts).log, "c", node, "k")
  {
    assert (acts + [Close("c", node, "k", recovery)])[..|acts|] == acts;
  }
}
