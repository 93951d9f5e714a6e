/**
 The alert log of each cluster: events get increasing ids, at most one event is open for a fault, and closed events
 leave the log when they are old or when there are too many, oldest first.
 */
module Alerts {
  import opened Basics

  const EVENT_LIMIT := 500
  const SECOND := 1_000_000_000
  const EVENT_AGE := 7 * 24 * 3600 * SECOND

  datatype Severity = Info | Warn | Critical

  function Rank(s: Severity): nat {
    match s
    case Info => 0
    case Warn => 1
    case Critical => 2
  }

  predicate Worse(was: Severity, now: Severity) { (was.Info? && !now.Info?) || (was.Warn? && now.Critical?) }

  datatype Event = Event(id: nat, ts: int, cluster: string, node: string, severity: Severity, kind: string,
                         message: string, open: bool, notify: bool, recovers: string)

  datatype Log = Log(next: nat, events: map<string, seq<Event>>)

  function ListOf(l: Log, cluster: string): seq<Event> { if cluster in l.events then l.events[cluster] else [] }

  predicate OpenFor(e: Event, node: string, kind: string) { e.open && e.node == node && e.kind == kind }

  ghost predicate IsOpen(l: Log, cluster: string, node: string, kind: string) {
    exists e :: e in ListOf(l, cluster) && OpenFor(e, node, kind)
  }

  // ---- eviction ----

  /** What stays of a list with `excess` events too many. */
  function Kept(list: seq<Event>, excess: int, cutoff: int): seq<Event> {
    if list == [] then []
    else if !list[0].open && (excess > 0 || list[0].ts < cutoff) then Kept(list[1..], excess - 1, cutoff)
    else [list[0]] + Kept(list[1..], excess, cutoff)
  }

  function OpenCount(list: seq<Event>): (n: nat)
    ensures n <= |list|
  {
    if list == [] then 0 else (if list[0].open then 1 else 0) + OpenCount(list[1..])
  }

  /** Nothing is made up, and no open event is evicted. */
  lemma {:induction false} KeptMembers(list: seq<Event>, excess: int, cutoff: int)
    ensures forall e :: e in Kept(list, excess, cutoff) ==> e in list
    ensures forall e :: e in list && e.open ==> e in Kept(list, excess, cutoff)
    ensures OpenCount(Kept(list, excess, cutoff)) == OpenCount(list)
  {
    if list != [] {
      var x := if !list[0].open && (excess > 0 || list[0].ts < cutoff) then excess - 1 else excess;
      KeptMembers(list[1..], x, cutoff);
      assert list == [list[0]] + list[1..];
    }
  }

  /** The log shrinks to the limit as far as open events allow, and by the limit alone no further. */
  lemma {:induction false} KeptSize(list: seq<Event>, excess: int, cutoff: int)
    ensures |Kept(list, excess, cutoff)| <= Max(|list| - excess, OpenCount(list))
    ensures (forall e | e in list :: e.ts >= cutoff) ==> |Kept(list, excess, cutoff)| == Max(|list| - Max(excess, 0), OpenCount(list))
  {
    if list != [] {
      var x := if !list[0].open && (excess > 0 || list[0].ts < cutoff) then excess - 1 else excess;
      KeptSize(list[1..], x, cutoff);
    }
  }

  /** Age apart, a closed event is evicted only together with every older closed one. */
  lemma {:induction false} OldestFirst(list: seq<Event>, excess: int, cutoff: int, i: nat, j: nat)
    requires i < j < |list| && !list[i].open && !list[j].open && NoRepeats(list)
    requires list[i] in Kept(list, excess, cutoff) && list[j] !in Kept(list, excess, cutoff)
    ensures list[j].ts < cutoff
    decreases |list|
  {
    var rest := list[1..];
    var x := if !list[0].open && (excess > 0 || list[0].ts < cutoff) then excess - 1 else excess;
    KeptMembers(rest, x, cutoff);
    assert rest[j - 1] == list[j];
    if i > 0 {
      assert rest[i - 1] == list[i];
      assert NoRepeats(rest) by { assert forall k | 0 <= k < |rest| :: rest[k] == list[k + 1]; }
      OldestFirst(rest, x, cutoff, i - 1, j - 1);
    } else {
      assert list[0] !in rest by { assert forall k | 0 <= k < |rest| :: rest[k] == list[k + 1]; }
      NoneForCount(rest, x, cutoff, j - 1);
    }
  }

  /** Without excess only age evicts. */
  lemma {:induction false} NoneForCount(list: seq<Event>, excess: int, cutoff: int, j: nat)
    requires j < |list| && excess <= 0
    ensures list[j].ts >= cutoff ==> list[j] in Kept(list, excess, cutoff)
  {
    if j > 0 {
      NoneForCount(list[1..], if !list[0].open && list[0].ts < cutoff then excess - 1 else excess, cutoff, j - 1);
    }
  }

  /** What stays is open or not too old. */
  lemma {:induction false} NoneTooOld(list: seq<Event>, excess: int, cutoff: int)
    ensures forall e | e in Kept(list, excess, cutoff) :: e.open || e.ts >= cutoff
  {
    if list != [] {
      NoneTooOld(list[1..], if !list[0].open && (excess > 0 || list[0].ts < cutoff) then excess - 1 else excess, cutoff);
    }
  }

  // ---- what always holds of a log ----

  /** Ids increase along the list. */
  predicate Ordered(list: seq<Event>) { forall i, j | 0 <= i < j < |list| :: list[i].id < list[j].id }

  ghost predicate OneOpen(list: seq<Event>) {
    forall a, b | a in list && b in list && a.open && OpenFor(b, a.node, a.kind) :: a == b
  }

  ghost predicate ListValid(list: seq<Event>, cluster: string, next: nat) {
    && Ordered(list) && OneOpen(list)
    && forall e | e in list :: 0 < e.id <= next && e.cluster == cluster
  }

  ghost predicate Valid(l: Log) {
    forall c | c in l.events :: ListValid(l.events[c], c, l.next)
  }

  /** A cluster's list is within the limit, or as short as its open events allow. */
  predicate Bounded(l: Log, cluster: string) { |ListOf(l, cluster)| <= Max(EVENT_LIMIT, OpenCount(ListOf(l, cluster))) }

  lemma {:induction false} KeptOrdered(list: seq<Event>, excess: int, cutoff: int)
    requires Ordered(list)
    ensures Ordered(Kept(list, excess, cutoff))
  {
    if list != [] {
      var x := if !list[0].open && (excess > 0 || list[0].ts < cutoff) then excess - 1 else excess;
      var rest := list[1..];
      KeptOrdered(rest, x, cutoff);
      KeptMembers(rest, x, cutoff);
      FirstIsOldest(list);
      forall e | e in Kept(rest, x, cutoff)
        ensures list[0].id < e.id
      {
        assert e in rest;
      }
    }
  }

  lemma FirstIsOldest(list: seq<Event>)
    requires Ordered(list) && list != []
    ensures forall e | e in list[1..] :: list[0].id < e.id
  {
    forall k | 0 <= k < |list[1..]|
      ensures list[0].id < list[1..][k].id
    {
      assert list[1..][k] == list[k + 1];
    }
  }

  // ---- the operations on values ----

  function Stamp(now: int): int { now / SECOND * SECOND }

  function Stamped(l: Log, e: Event, now: int): Event { e.(id := l.next + 1, ts := Stamp(now)) }

  function Added(l: Log, e: Event, now: int): Log {
    var list := ListOf(l, e.cluster) + [Stamped(l, e, now)];
    Log(l.next + 1, l.events[e.cluster := Kept(list, |list| - EVENT_LIMIT, now - EVENT_AGE)])
  }

  /** Where the open event for a fault stands in the list, or the length of the list. */
  function OpenIndex(list: seq<Event>, node: string, kind: string): (i: nat)
    ensures i <= |list|
    ensures i < |list| ==> OpenFor(list[i], node, kind)
    ensures forall j | 0 <= j < i :: !OpenFor(list[j], node, kind)
  {
    if list == [] || OpenFor(list[0], node, kind) then 0 else 1 + OpenIndex(list[1..], node, kind)
  }

  function Updated(l: Log, cluster: string, i: nat, e: Event): Log
    requires cluster in l.events && i < |l.events[cluster]|
  {
    l.(events := l.events[cluster := l.events[cluster][i := e]])
  }

  /** Opens an event for the fault, or brings the open one up to date. */
  function Raised(l: Log, e: Event, now: int): Log {
    var list := ListOf(l, e.cluster);
    var i := OpenIndex(list, e.node, e.kind);
    if i < |list| then Updated(l, e.cluster, i, list[i].(severity := e.severity, message := e.message))
    else Added(l, e.(open := true), now)
  }

  function Closed(l: Log, cluster: string, node: string, kind: string): Log {
    var list := ListOf(l, cluster);
    var i := OpenIndex(list, node, kind);
    if i < |list| then Updated(l, cluster, i, list[i].(open := false)) else l
  }

  /** Closes the open event for the fault, if there is one, and then records the recovery. */
  function Resolved(l: Log, cluster: string, node: string, kind: string, recovery: Event, now: int): Log {
    var list := ListOf(l, cluster);
    var i := OpenIndex(list, node, kind);
    if i < |list|
    then Added(Closed(l, cluster, node, kind), recovery.(recovers := kind, notify := list[i].notify, open := false), now)
    else l
  }

  // ---- they keep what always holds ----

  lemma AppendKeeps(list: seq<Event>, e: Event, cluster: string, next: nat)
    requires ListValid(list, cluster, next) && e.id == next + 1 && e.cluster == cluster
    requires e.open ==> forall a | a in list :: !OpenFor(a, e.node, e.kind)
    ensures ListValid(list + [e], cluster, next + 1)
  {
    var more := list + [e];
    assert forall x :: x in more <==> x in list || x == e;
    forall i, j | 0 <= i < j < |more|
      ensures more[i].id < more[j].id
    {
      assert list[i] in list;
    }
  }

  lemma KeptValid(list: seq<Event>, cluster: string, next: nat, excess: int, cutoff: int)
    requires ListValid(list, cluster, next)
    ensures ListValid(Kept(list, excess, cutoff), cluster, next)
  {
    KeptOrdered(list, excess, cutoff);
    KeptMembers(list, excess, cutoff);
  }

  lemma AddKeeps(l: Log, e: Event, now: int)
    requires Valid(l) && (e.open ==> !IsOpen(l, e.cluster, e.node, e.kind))
    ensures Valid(Added(l, e, now)) && Bounded(Added(l, e, now), e.cluster)
  {
    var list := ListOf(l, e.cluster);
    var more := list + [Stamped(l, e, now)];
    AppendKeeps(list, Stamped(l, e, now), e.cluster, l.next);
    KeptValid(more, e.cluster, l.next + 1, |more| - EVENT_LIMIT, now - EVENT_AGE);
    KeptMembers(more, |more| - EVENT_LIMIT, now - EVENT_AGE);
    KeptSize(more, |more| - EVENT_LIMIT, now - EVENT_AGE);
  }

  /** After an event is added, no closed event of the cluster is older than seven days, and other clusters are left alone. */
  lemma AddForgetsOld(l: Log, e: Event, now: int, cluster: string)
    ensures cluster == e.cluster ==>
              forall x | x in ListOf(Added(l, e, now), cluster) :: x.open || now - x.ts <= 7 * 24 * 3600 * 1_000_000_000
    ensures cluster != e.cluster ==> ListOf(Added(l, e, now), cluster) == ListOf(l, cluster)
  {
    var list := ListOf(l, e.cluster) + [Stamped(l, e, now)];
    NoneTooOld(list, |list| - EVENT_LIMIT, now - EVENT_AGE);
  }

  lemma AddOpens(l: Log, e: Event, now: int, cluster: string, node: string, kind: string)
    ensures IsOpen(Added(l, e, now), cluster, node, kind) <==>
            IsOpen(l, cluster, node, kind) || (e.open && (cluster, node, kind) == (e.cluster, e.node, e.kind))
  {
    var list := ListOf(l, e.cluster) + [Stamped(l, e, now)];
    KeptMembers(list, |list| - EVENT_LIMIT, now - EVENT_AGE);
    if cluster == e.cluster {
      assert forall x :: x in list <==> x in ListOf(l, cluster) || x == Stamped(l, e, now);
      if OpenFor(Stamped(l, e, now), node, kind) {
        assert Stamped(l, e, now) in ListOf(Added(l, e, now), cluster);
      }
      if IsOpen(l, cluster, node, kind) {
        var x :| x in ListOf(l, cluster) && OpenFor(x, node, kind);
        assert x in ListOf(Added(l, e, now), cluster);
      }
    } else {
      assert ListOf(Added(l, e, now), cluster) == ListOf(l, cluster);
    }
  }

  /** A change of an open event that keeps its identity, and at most closes it. */
  predicate SameEvent(a: Event, b: Event) {
    a.id == b.id && a.cluster == b.cluster && a.node == b.node && a.kind == b.kind && (b.open ==> a.open)
  }

  lemma OneOpenAt(list: seq<Event>, i: nat, k: nat)
    requires OneOpen(list) && Ordered(list) && i < |list| && k < |list| && list[i].open && OpenFor(list[k], list[i].node, list[i].kind)
    ensures i == k
  {
    assert list[i] in list && list[k] in list;
    assert list[i].id == list[k].id;
  }

  lemma UpdateKeeps(l: Log, cluster: string, i: nat, e: Event)
    requires Valid(l) && cluster in l.events && i < |l.events[cluster]| && SameEvent(l.events[cluster][i], e)
    ensures Valid(Updated(l, cluster, i, e))
  {
    var list := l.events[cluster];
    var now := list[i := e];
    assert Ordered(now);
    forall a, b | a in now && b in now && a.open && OpenFor(b, a.node, a.kind)
      ensures a == b
    {
      var j :| 0 <= j < |now| && now[j] == a;
      var k :| 0 <= k < |now| && now[k] == b;
      OneOpenAt(list, j, k);
    }
    assert forall x | x in now :: x == e || x in list;
  }

  /** An open event stays open when it is updated, and no longer is when it is closed. */
  lemma UpdateOpens(l: Log, cluster: string, i: nat, e: Event, c: string, node: string, kind: string)
    requires Valid(l) && cluster in l.events && i < |l.events[cluster]| && SameEvent(l.events[cluster][i], e) && l.events[cluster][i].open
    ensures IsOpen(Updated(l, cluster, i, e), c, node, kind) <==>
            IsOpen(l, c, node, kind) && (e.open || (c, node, kind) != (cluster, e.node, e.kind))
  {
    var list := l.events[cluster];
    var now := list[i := e];
    if c == cluster {
      assert forall k | 0 <= k < |now| && k != i :: now[k] == list[k];
      assert now[i] == e;
      if IsOpen(l, c, node, kind) {
        var x :| x in list && OpenFor(x, node, kind);
        var k :| 0 <= k < |list| && list[k] == x;
        assert now[k] in now;
      }
      if IsOpen(Updated(l, cluster, i, e), c, node, kind) {
        var x :| x in now && OpenFor(x, node, kind);
        var k :| 0 <= k < |now| && now[k] == x;
        assert OpenFor(list[k], node, kind);
        if (node, kind) == (e.node, e.kind) {
          OneOpenAt(list, i, k);
        }
      }
    }
  }

  lemma NoneOpen(l: Log, cluster: string, node: string, kind: string)
    ensures IsOpen(l, cluster, node, kind) <==> OpenIndex(ListOf(l, cluster), node, kind) < |ListOf(l, cluster)|
  {
    var list := ListOf(l, cluster);
    var i := OpenIndex(list, node, kind);
    if i < |list| {
      assert list[i] in list;
    }
  }

  lemma RaiseKeeps(l: Log, e: Event, now: int)
    requires Valid(l)
    ensures Valid(Raised(l, e, now))
    ensures Bounded(l, e.cluster) ==> Bounded(Raised(l, e, now), e.cluster)
  {
    var list := ListOf(l, e.cluster);
    var i := OpenIndex(list, e.node, e.kind);
    NoneOpen(l, e.cluster, e.node, e.kind);
    if i < |list| {
      var e' := list[i].(severity := e.severity, message := e.message);
      UpdateKeeps(l, e.cluster, i, e');
      UpdateCount(list, i, e');
    } else {
      AddKeeps(l, e.(open := true), now);
    }
  }

  lemma {:induction false} UpdateCount(list: seq<Event>, i: nat, e: Event)
    requires i < |list|
    ensures OpenCount(list[i := e]) == OpenCount(list) + (if e.open then 1 else 0) - if list[i].open then 1 else 0
  {
    if i > 0 {
      assert list[i := e][1..] == list[1..][i - 1 := e];
      UpdateCount(list[1..], i - 1, e);
    } else {
      assert list[i := e][1..] == list[1..];
    }
  }

  lemma RaiseOpens(l: Log, e: Event, now: int, cluster: string, node: string, kind: string)
    requires Valid(l)
    ensures IsOpen(Raised(l, e, now), cluster, node, kind) <==>
            IsOpen(l, cluster, node, kind) || (cluster, node, kind) == (e.cluster, e.node, e.kind)
  {
    var list := ListOf(l, e.cluster);
    var i := OpenIndex(list, e.node, e.kind);
    NoneOpen(l, e.cluster, e.node, e.kind);
    if i < |list| {
      UpdateOpens(l, e.cluster, i, list[i].(severity := e.severity, message := e.message), cluster, node, kind);
    } else {
      AddOpens(l, e.(open := true), now, cluster, node, kind);
    }
  }

  /** After a raise the open event for the fault says what the raise said. */
  lemma RaiseIsUpToDate(l: Log, e: Event, now: int, x: Event)
    requires Valid(l) && x in ListOf(Raised(l, e, now), e.cluster) && OpenFor(x, e.node, e.kind)
    ensures x.severity == e.severity && x.message == e.message
  {
    var list := ListOf(l, e.cluster);
    var i := OpenIndex(list, e.node, e.kind);
    if i < |list| {
      var e' := list[i].(severity := e.severity, message := e.message);
      UpdateKeeps(l, e.cluster, i, e');
      var now' := list[i := e'];
      assert now'[i] in now' && now'[i] == e';
      assert OneOpen(now');
    } else {
      var more := list + [Stamped(l, e.(open := true), now)];
      KeptMembers(more, |more| - EVENT_LIMIT, now - EVENT_AGE);
      assert x in more;
      var k :| 0 <= k < |more| && more[k] == x;
    }
  }

  lemma CloseKeeps(l: Log, cluster: string, node: string, kind: string)
    requires Valid(l)
    ensures Valid(Closed(l, cluster, node, kind))
  {
    var list := ListOf(l, cluster);
    var i := OpenIndex(list, node, kind);
    if i < |list| {
      UpdateKeeps(l, cluster, i, list[i].(open := false));
    }
  }

  lemma CloseOpens(l: Log, cluster: string, node: string, kind: string, c: string, n: string, k: string)
    requires Valid(l)
    ensures IsOpen(Closed(l, cluster, node, kind), c, n, k) <==> IsOpen(l, c, n, k) && (c, n, k) != (cluster, node, kind)
  {
    var list := ListOf(l, cluster);
    var i := OpenIndex(list, node, kind);
    NoneOpen(l, cluster, node, kind);
    if i < |list| {
      UpdateOpens(l, cluster, i, list[i].(open := false), c, n, k);
    }
  }

  /** Closing alone leaves a list one event too long exactly when the list is over the limit and all of it was open. */
  lemma ClosingKeepsBound(l: Log, cluster: string, node: string, kind: string)
    requires Valid(l) && IsOpen(l, cluster, node, kind) && Bounded(l, cluster)
    ensures var list := ListOf(l, cluster);
            Bounded(Closed(l, cluster, node, kind), cluster) <==> !(|list| > EVENT_LIMIT && OpenCount(list) == |list|)
  {
    var list := ListOf(l, cluster);
    var i := OpenIndex(list, node, kind);
    NoneOpen(l, cluster, node, kind);
    UpdateCount(list, i, list[i].(open := false));
  }

  /** Whatever closing does to the size, recording the recovery brings the list back within bounds. */
  lemma ResolveKeeps(l: Log, cluster: string, node: string, kind: string, recovery: Event, now: int)
    requires Valid(l)
    ensures Valid(Resolved(l, cluster, node, kind, recovery, now))
    ensures recovery.cluster == cluster && Bounded(l, cluster) ==> Bounded(Resolved(l, cluster, node, kind, recovery, now), cluster)
  {
    var list := ListOf(l, cluster);
    var i := OpenIndex(list, node, kind);
    if i < |list| {
      CloseKeeps(l, cluster, node, kind);
      AddKeeps(Closed(l, cluster, node, kind), recovery.(recovers := kind, notify := list[i].notify, open := false), now);
    }
  }

  lemma ResolveOpens(l: Log, cluster: string, node: string, kind: string, recovery: Event, now: int, c: string, n: string, k: string)
    requires Valid(l)
    ensures IsOpen(Resolved(l, cluster, node, kind, recovery, now), c, n, k) <==> IsOpen(l, c, n, k) && (c, n, k) != (cluster, node, kind)
  {
    var list := ListOf(l, cluster);
    var i := OpenIndex(list, node, kind);
    NoneOpen(l, cluster, node, kind);
    if i < |list| {
      CloseOpens(l, cluster, node, kind, c, n, k);
      AddOpens(Closed(l, cluster, node, kind), recovery.(recovers := kind, notify := list[i].notify, open := false), now, c, n, k);
    }
  }

  // ---- the log in place ----

  /** The open event for the fault. */
  ghost function Ending(l: Log, cluster: string, node: string, kind: string): Event
    requires IsOpen(l, cluster, node, kind)
  {
    NoneOpen(l, cluster, node, kind);
    ListOf(l, cluster)[OpenIndex(ListOf(l, cluster), node, kind)]
  }

  /** A raise that repeats what the open event says already. */
  ghost predicate SaysNothingNew(l: Log, e: Event) {
    IsOpen(l, e.cluster, e.node, e.kind) &&
    var was := Ending(l, e.cluster, e.node, e.kind); was.severity == e.severity && was.message == e.message
  }

  /** The event a raise hands on: the open one brought up to date, or the new one. */
  ghost function Announced(l: Log, e: Event, now: int): Event {
    if IsOpen(l, e.cluster, e.node, e.kind)
    then Ending(l, e.cluster, e.node, e.kind).(severity := e.severity, message := e.message)
    else Stamped(l, e.(open := true), now)
  }

  /** What a resolve hands on: the end of the event, and then the recovery, forwarded exactly when the event was to be. */
  ghost function Farewell(l: Log, cluster: string, node: string, kind: string, recovery: Event, now: int): seq<(Event, bool)>
    requires IsOpen(l, cluster, node, kind)
  {
    var was := Ending(l, cluster, node, kind);
    var after := recovery.(recovers := kind, notify := was.notify, open := false);
    [(was.(open := false), false), (Stamped(Closed(l, cluster, node, kind), after, now), was.notify)]
  }

  class AlertLog {
    var next: nat
    var events: map<string, seq<Event>>
    /** What was handed on, and whether it was forwarded as a notification. */
    var published: seq<(Event, bool)>

    ghost function Value(): Log reads this { Log(next, events) }

    constructor ()
      ensures Value() == Log(0, map[]) && published == [] && Valid(Value())
    {
      next, events, published := 0, map[], [];
    }

    /** Appends the event and rebuilds the list without what is evicted. */
    method AddLocked(e: Event, now: int) returns (added: Event)
      modifies `next, `events
      ensures Value() == Added(old(Value()), e, now) && added == Stamped(old(Value()), e, now)
    {
      next := next + 1;
      added := e.(id := next, ts := now / SECOND * SECOND);
      var list := (if e.cluster in events then events[e.cluster] else []) + [added];
      var excess, cutoff := |list| - EVENT_LIMIT, now - EVENT_AGE;
      var kept := [];
      assert list[0..] == list;
      for i := 0 to |list|
        invariant kept + Kept(list[i..], excess, cutoff) == Kept(list, |list| - EVENT_LIMIT, cutoff)
      {
        assert list[i..][0] == list[i] && list[i..][1..] == list[i + 1..];
        if !list[i].open && (excess > 0 || list[i].ts < cutoff) {
          excess := excess - 1;
        } else {
          kept := kept + [list[i]];
        }
      }
      assert list[|list|..] == [] && kept + [] == kept;
      events := events[e.cluster := kept];
    }

    method Find(cluster: string, node: string, kind: string) returns (i: nat)
      ensures i == OpenIndex(ListOf(Value(), cluster), node, kind)
    {
      var list := if cluster in events then events[cluster] else [];
      i := 0;
      while i < |list| && !OpenFor(list[i], node, kind)
        invariant i <= |list|
        invariant OpenIndex(list, node, kind) == i + OpenIndex(list[i..], node, kind)
      {
        assert list[i..][1..] == list[i + 1..];
        i := i + 1;
      }
    }

    method Record(e: Event, now: int)
      requires Valid(Value())
      modifies this
      ensures Value() == Added(old(Value()), e.(open := false), now) && Valid(Value()) && Bounded(Value(), e.cluster)
      ensures published == old(published) + [(Stamped(old(Value()), e.(open := false), now), e.notify)]
    {
      AddKeeps(Value(), e.(open := false), now);
      var added := AddLocked(e.(open := false), now);
      published := published + [(added, e.notify)];
    }

    /** Brings an open event up to date; hands it on if that changed anything, and forwards it only if it got worse. */
    method Refresh(e: Event, i: nat) returns (rose: bool)
      requires e.cluster in events && i < |events[e.cluster]|
      modifies this
      ensures var was := old(events)[e.cluster][i];
              && Value() == Updated(old(Value()), e.cluster, i, was.(severity := e.severity, message := e.message))
              && (rose <==> Worse(was.severity, e.severity))
              && if was.severity == e.severity && was.message == e.message then published == old(published)
                 else published == old(published) + [(was.(severity := e.severity, message := e.message), rose && e.notify)]
    {
      var was := events[e.cluster][i];
      if was.severity == e.severity && was.message == e.message {
        assert events[e.cluster][i := was] == events[e.cluster];
        assert events[e.cluster := events[e.cluster]] == events;
        return false;
      }
      rose := Rank(e.severity) > Rank(was.severity);
      var updated := was.(severity := e.severity, message := e.message);
      events := events[e.cluster := events[e.cluster][i := updated]];
      published := published + [(updated, rose && e.notify)];
    }

    /** Tells whether the fault is news: a new event, or one that got worse. Only news is forwarded. */
    method Raise(e: Event, now: int) returns (news: bool)
      requires Valid(Value())
      modifies this
      ensures Value() == Raised(old(Value()), e, now) && Valid(Value())
      ensures old(Bounded(Value(), e.cluster)) ==> Bounded(Value(), e.cluster)
      ensures news <==> !old(IsOpen(Value(), e.cluster, e.node, e.kind)) || Worse(Ending(old(Value()), e.cluster, e.node, e.kind).severity, e.severity)
      ensures published == old(published) + if SaysNothingNew(old(Value()), e) then [] else [(Announced(old(Value()), e, now), news && e.notify)]
    {
      RaiseKeeps(Value(), e, now);
      NoneOpen(Value(), e.cluster, e.node, e.kind);
      var i := Find(e.cluster, e.node, e.kind);
      if e.cluster in events && i < |events[e.cluster]| {
        news := Refresh(e, i);
      } else {
        var added := AddLocked(e.(open := true), now);
        published := published + [(added, e.notify)];
        news := true;
      }
    }

    /** The recovery is forwarded exactly when the event it ends was to be. */
    method Resolve(cluster: string, node: string, kind: string, recovery: Event, now: int) returns (found: bool)
      requires Valid(Value())
      modifies this
      ensures Value() == Resolved(old(Value()), cluster, node, kind, recovery, now) && Valid(Value())
      ensures found <==> old(IsOpen(Value(), cluster, node, kind))
      ensures recovery.cluster == cluster && old(Bounded(Value(), cluster)) ==> Bounded(Value(), cluster)
      ensures !found ==> published == old(published)
      ensures found ==> published == old(published) + Farewell(old(Value()), cluster, node, kind, recovery, now)
    {
      ResolveKeeps(Value(), cluster, node, kind, recovery, now);
      NoneOpen(Value(), cluster, node, kind);
      var ended, was := CloseOpen(cluster, node, kind);
      if !ended {
        return false;
      }
      Record(recovery.(recovers := kind, notify := was.notify), now);
      found := true;
    }

    /** The first half of a resolve: closes the open event, if there is one, and hands on its end. */
    method CloseOpen(cluster: string, node: string, kind: string) returns (ended: bool, was: Event)
      requires Valid(Value())
      modifies this
      ensures Value() == Closed(old(Value()), cluster, node, kind) && Valid(Value())
      ensures ended <==> old(IsOpen(Value(), cluster, node, kind))
      ensures if ended then was == old(Ending(Value(), cluster, node, kind)) && published == old(published) + [(was.(open := false), false)]
              else published == old(published)
    {
      NoneOpen(Value(), cluster, node, kind);
      CloseKeeps(Value(), cluster, node, kind);
      var i := Find(cluster, node, kind);
      was := Event(0, 0, "", "", Info, "", "", false, false, "");
      ended := cluster in events && i < |events[cluster]|;
      if ended {
        was := events[cluster][i];
        var closed := was.(open := false);
        events := events[cluster := events[cluster][i := closed]];
        published := published + [(closed, false)];
      }
    }
  }
}
