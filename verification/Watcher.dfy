/**
 One cluster's watch loop over its confirmer and the shared alert log: between checks, the faults the confirmer holds
 open are exactly the cluster's open events of the confirmed kinds, whatever else is written to the log meanwhile.
 */
module Watcher {
  import opened Confirm
  import Alerts

  const CONFIRMED: set<string> := {"talos.unreachable", "api.unreachable", "etcd.unhealthy", "node.notready"}

  function RecoveryKind(kind: string): string {
    if kind == "talos.unreachable" then "talos.back"
    else if kind == "api.unreachable" then "api.back"
    else if kind == "etcd.unhealthy" then "etcd.healthy"
    else "node.ready"
  }

  /** Faults come under the key of their kind and machine, and only in the confirmed kinds. */
  predicate WellKeyed(facts: map<string, Fact>) {
    forall key | key in facts :: facts[key].kind in CONFIRMED && key == FactKey(facts[key].kind, facts[key].node)
  }

  lemma KindsSplit(kind: string, node: string)
    requires kind in CONFIRMED
    ensures SplitKey(FactKey(kind, node)) == (kind, node)
  {
    SplitsBack(kind, node);
  }

  function RecoveryMessage(kind: string, node: string): string {
    if kind == "talos.unreachable" then node + ": Talos API reachable again"
    else if kind == "api.unreachable" then "Kubernetes API reachable again"
    else if kind == "etcd.unhealthy" then "etcd healthy again"
    else node + " is Ready"
  }

  function SeverityOf(s: string): Alerts.Severity { if s == "critical" then Alerts.Critical else if s == "warn" then Alerts.Warn else Alerts.Info }

  function FaultEvent(name: string, f: Fact, notify: bool): Alerts.Event {
    Alerts.Event(0, 0, name, f.node, SeverityOf(f.severity), f.kind, f.message, false, notify, "")
  }

  function RecoveryEvent(name: string, kind: string, node: string): Alerts.Event {
    Alerts.Event(0, 0, name, node, Alerts.Info, RecoveryKind(kind), RecoveryMessage(kind, node), false, false, "")
  }

  /** The invariant between checks. */
  ghost predicate InStep(name: string, open: set<string>, l: Alerts.Log) {
    && (forall kind, node | kind in CONFIRMED :: FactKey(kind, node) in open <==> Alerts.IsOpen(l, name, node, kind))
    && forall key | key in open :: SplitKey(key).0 in CONFIRMED && key == FactKey(SplitKey(key).0, SplitKey(key).1)
  }

  // ---- what others write to the log ----

  /** Another fault raised, in this cluster or another one, changes nothing the confirmer is about. */
  lemma OthersRaise(name: string, open: set<string>, l: Alerts.Log, e: Alerts.Event, now: int)
    requires Alerts.Valid(l) && InStep(name, open, l) && (e.cluster != name || e.kind !in CONFIRMED)
    ensures InStep(name, open, Alerts.Raised(l, e, now))
  {
    forall kind, node | kind in CONFIRMED
      ensures FactKey(kind, node) in open <==> Alerts.IsOpen(Alerts.Raised(l, e, now), name, node, kind)
    {
      Alerts.RaiseOpens(l, e, now, name, node, kind);
    }
  }

  lemma OthersResolve(name: string, open: set<string>, l: Alerts.Log, cluster: string, node: string, kind: string, recovery: Alerts.Event, now: int)
    requires Alerts.Valid(l) && InStep(name, open, l) && (cluster != name || kind !in CONFIRMED)
    ensures InStep(name, open, Alerts.Resolved(l, cluster, node, kind, recovery, now))
  {
    forall k, n | k in CONFIRMED
      ensures FactKey(k, n) in open <==> Alerts.IsOpen(Alerts.Resolved(l, cluster, node, kind, recovery, now), name, n, k)
    {
      Alerts.ResolveOpens(l, cluster, node, kind, recovery, now, name, n, k);
    }
  }

  /** A recorded event, of any kind, is closed from the start. */
  lemma AnyRecord(name: string, open: set<string>, l: Alerts.Log, e: Alerts.Event, now: int)
    requires InStep(name, open, l)
    ensures InStep(name, open, Alerts.Added(l, e.(open := false), now))
  {
    forall kind, node | kind in CONFIRMED
      ensures FactKey(kind, node) in open <==> Alerts.IsOpen(Alerts.Added(l, e.(open := false), now), name, node, kind)
    {
      Alerts.AddOpens(l, e.(open := false), now, name, node, kind);
    }
  }

  // ---- handing on transitions ----

  function Handed(l: Alerts.Log, name: string, ts: seq<Transition>, now: int): Alerts.Log {
    if ts == [] then l
    else
      var l' := Handed(l, name, ts[..|ts| - 1], now);
      match ts[|ts| - 1]
      case Raise(_, fact, notify) => Alerts.Raised(l', FaultEvent(name, fact, notify), now)
      case Resolve(_, kind, node) => Alerts.Resolved(l', name, node, kind, RecoveryEvent(name, kind, node), now)
  }

  /** The first part of a kind: what the fault is about. */
  predicate About(kind: string, what: string) { |what| < |kind| && kind[..|what|] == what && kind[|what|] == '.' }

  /** A recovery is about what its fault was about, tells which fault of the four it ends, and is none of them itself. */
  lemma RecoveriesTell(kind: string, other: string)
    requires kind in CONFIRMED && other in CONFIRMED
    ensures forall what | what in {"talos", "api", "etcd", "node"} :: About(RecoveryKind(kind), what) <==> About(kind, what)
    ensures RecoveryKind(kind) == RecoveryKind(other) <==> kind == other
    ensures RecoveryKind(kind) !in CONFIRMED
  {
    assert |"talos.back"| == 10 && |"api.back"| == 8 && |"etcd.healthy"| == 12 && |"node.ready"| == 10;
    assert "talos.back"[0] == 't' && "node.ready"[0] == 'n';
    assert |"talos.unreachable"| == 17 && |"api.unreachable"| == 15 && |"etcd.unhealthy"| == 14 && |"node.notready"| == 13;
  }

  function FromEnd(s: string, k: nat): char
    requires 0 < k <= |s|
  {
    s[|s| - k]
  }

  lemma MessagesDiffer(node: string)
    ensures var talos, api, etcd, ready := node + ": Talos API reachable again", "Kubernetes API reachable again", "etcd healthy again", node + " is Ready";
            talos != api && talos != etcd && talos != ready && api != etcd && api != ready && etcd != ready
  {
    var talos, ready := node + ": Talos API reachable again", node + " is Ready";
    var api, etcd := "Kubernetes API reachable again", "etcd healthy again";
    assert FromEnd(ready, 1) == 'y' && FromEnd(talos, 1) == 'n' && FromEnd(api, 1) == 'n' && FromEnd(etcd, 1) == 'n';
    assert FromEnd(etcd, 7) == 'y' && FromEnd(talos, 7) == 'e' && FromEnd(api, 7) == 'e';
    assert FromEnd(talos, 22) == 'o' && FromEnd(api, 22) == 'e';
  }

  /** A recovery's message tells which fault it ends, and begins with the machine where the fault is a machine's. */
  lemma MessagesTell(kind: string, other: string, node: string)
    requires kind in CONFIRMED && other in CONFIRMED
    ensures kind in {"talos.unreachable", "node.notready"} ==> node < RecoveryMessage(kind, node)
    ensures RecoveryMessage(kind, node) == RecoveryMessage(other, node) <==> kind == other
  {
    MessagesDiffer(node);
  }

  /** The severities of faults keep their order. */
  lemma SeveritiesOrdered(s: string)
    ensures Alerts.Rank(SeverityOf("critical")) > Alerts.Rank(SeverityOf("warn"))
    ensures s != "critical" && s != "warn" ==> Alerts.Rank(SeverityOf("warn")) > Alerts.Rank(SeverityOf(s))
  {
  }

  /** After a raise is handed on the fault is open, with the severity and the message the check gave it. */
  lemma HandedFaultSays(l: Alerts.Log, name: string, key: string, fact: Fact, notify: bool, now: int, x: Alerts.Event)
    requires Alerts.Valid(l)
    ensures var l' := Handed(l, name, [Raise(key, fact, notify)], now);
            && Alerts.IsOpen(l', name, fact.node, fact.kind)
            && (x in Alerts.ListOf(l', name) && Alerts.OpenFor(x, fact.node, fact.kind) ==>
                  x.severity == SeverityOf(fact.severity) && x.message == fact.message)
  {
    var e := FaultEvent(name, fact, notify);
    assert Handed(l, name, [Raise(key, fact, notify)], now) == Alerts.Raised(l, e, now);
    Alerts.RaiseOpens(l, e, now, name, fact.node, fact.kind);
    if x in Alerts.ListOf(Alerts.Raised(l, e, now), name) && Alerts.OpenFor(x, fact.node, fact.kind) {
      Alerts.RaiseIsUpToDate(l, e, now, x);
    }
  }

  /** A transition speaks of the fault its key names. */
  predicate Proper(t: Transition) {
    match t
    case Raise(key, fact, _) => fact.kind in CONFIRMED && key == FactKey(fact.kind, fact.node)
    case Resolve(key, kind, node) => kind in CONFIRMED && key == FactKey(kind, node)
  }

  lemma {:induction false} HandedKeeps(l: Alerts.Log, name: string, ts: seq<Transition>, now: int)
    requires Alerts.Valid(l)
    ensures Alerts.Valid(Handed(l, name, ts, now))
    ensures Alerts.Bounded(l, name) ==> Alerts.Bounded(Handed(l, name, ts, now), name)
  {
    if ts != [] {
      var l' := Handed(l, name, ts[..|ts| - 1], now);
      HandedKeeps(l, name, ts[..|ts| - 1], now);
      match ts[|ts| - 1]
      case Raise(_, fact, notify) => Alerts.RaiseKeeps(l', FaultEvent(name, fact, notify), now);
      case Resolve(_, kind, node) => Alerts.ResolveKeeps(l', name, node, kind, RecoveryEvent(name, kind, node), now);
    }
  }

  lemma SameFault(kind: string, node: string, k: string, n: string)
    requires kind in CONFIRMED && k in CONFIRMED
    ensures FactKey(kind, node) == FactKey(k, n) <==> (kind, node) == (k, n)
  {
    KindsSplit(kind, node);
    KindsSplit(k, n);
  }

  /** A fault nothing speaks of is open afterwards if it was before. */
  lemma {:induction false} Untouched(l: Alerts.Log, name: string, ts: seq<Transition>, now: int, kind: string, node: string)
    requires Alerts.Valid(l) && kind in CONFIRMED && forall t | t in ts :: Proper(t)
    requires FactKey(kind, node) !in KeysOf(ts)
    ensures Alerts.IsOpen(Handed(l, name, ts, now), name, node, kind) <==> Alerts.IsOpen(l, name, node, kind)
  {
    if ts != [] {
      var init, t := ts[..|ts| - 1], ts[|ts| - 1];
      assert ts == init + [t];
      KeysGrow(init, t);
      HandedKeeps(l, name, init, now);
      Untouched(l, name, init, now, kind, node);
      LastOpens(l, name, init, t, now, kind, node);
    }
  }

  lemma LastOpens(l: Alerts.Log, name: string, init: seq<Transition>, t: Transition, now: int, kind: string, node: string)
    requires Alerts.Valid(Handed(l, name, init, now)) && kind in CONFIRMED && Proper(t)
    ensures Alerts.IsOpen(Handed(l, name, init + [t], now), name, node, kind) <==>
            if t.key == FactKey(kind, node) then t.Raise? else Alerts.IsOpen(Handed(l, name, init, now), name, node, kind)
  {
    var l' := Handed(l, name, init, now);
    assert (init + [t])[..|init|] == init;
    match t
    case Raise(_, fact, notify) =>
      SameFault(fact.kind, fact.node, kind, node);
      Alerts.RaiseOpens(l', FaultEvent(name, fact, notify), now, name, node, kind);
    case Resolve(_, k, n) =>
      SameFault(k, n, kind, node);
      Alerts.ResolveOpens(l', name, n, k, RecoveryEvent(name, k, n), now, name, node, kind);
  }

  /** The fault of a transition is open afterwards exactly if the transition raises it. */
  lemma {:induction false} Touched(l: Alerts.Log, name: string, ts: seq<Transition>, now: int, i: nat, kind: string, node: string)
    requires Alerts.Valid(l) && kind in CONFIRMED && (forall t | t in ts :: Proper(t)) && Distinct(ts)
    requires i < |ts| && ts[i].key == FactKey(kind, node)
    ensures Alerts.IsOpen(Handed(l, name, ts, now), name, node, kind) <==> ts[i].Raise?
    decreases |ts|
  {
    var init, t := ts[..|ts| - 1], ts[|ts| - 1];
    SplitLast(ts);
    HandedKeeps(l, name, init, now);
    LastOpens(l, name, init, t, now, kind, node);
    if i < |init| {
      assert init[i] == ts[i] && ts[i].key != t.key;
      Touched(l, name, init, now, i, kind, node);
    }
  }

  lemma SplitLast(ts: seq<Transition>)
    requires ts != [] && Distinct(ts)
    ensures ts == ts[..|ts| - 1] + [ts[|ts| - 1]] && Distinct(ts[..|ts| - 1])
    ensures forall t | t in ts[..|ts| - 1] :: t in ts
  {
    var init := ts[..|ts| - 1];
    forall i, j | 0 <= i < j < |init|
      ensures init[i].key != init[j].key
    {
      assert ts[i].key != ts[j].key;
    }
  }

  /** One applied check, handed on, keeps the confirmer and the log in step. */
  lemma CheckKeepsStep(name: string, s: State, l: Alerts.Log, facts: map<string, Fact>, held: set<string>, ts: seq<Transition>, now: int)
    requires Alerts.Valid(l) && WellKeyed(facts) && InStep(name, s.open, l)
    requires Emitted(s, facts, held, ts, Raises(s, facts.Keys) + Resolves(s, facts.Keys, held))
    ensures InStep(name, Applied(s, facts.Keys, held).open, Handed(l, name, ts, now))
  {
    var s' := Applied(s, facts.Keys, held);
    AllProper(name, s, l, facts, held, ts);
    forall kind, node | kind in CONFIRMED
      ensures FactKey(kind, node) in s'.open <==> Alerts.IsOpen(Handed(l, name, ts, now), name, node, kind)
    {
      var key := FactKey(kind, node);
      if key in KeysOf(ts) {
        var i :| 0 <= i < |ts| && ts[i].key == key;
        assert Says(s, facts, held, ts[i]);
        Touched(l, name, ts, now, i, kind, node);
      } else {
        Untouched(l, name, ts, now, kind, node);
      }
    }
    forall key | key in s'.open
      ensures SplitKey(key).0 in CONFIRMED && key == FactKey(SplitKey(key).0, SplitKey(key).1)
    {
      if key in facts {
        KindsSplit(facts[key].kind, facts[key].node);
      }
    }
  }

  lemma AllProper(name: string, s: State, l: Alerts.Log, facts: map<string, Fact>, held: set<string>, ts: seq<Transition>)
    requires WellKeyed(facts) && InStep(name, s.open, l) && Emitted(s, facts, held, ts, KeysOf(ts))
    ensures forall t | t in ts :: Proper(t)
  {
    forall i | 0 <= i < |ts|
      ensures Proper(ts[i])
    {
      assert Says(s, facts, held, ts[i]);
    }
  }

  // ---- the loop ----

  /** What a check found, as far as it decides what happens to the alerts. */
  datatype View = View(ready: bool, offline: bool, off: bool, gap: bool, changes: seq<Alerts.Event>,
                       facts: map<string, Fact>, held: set<string>, operating: bool)

  method OpenPairs(list: seq<Alerts.Event>) returns (open: seq<(string, string)>)
    ensures forall kind, node :: (kind, node) in open <==> exists e | e in list :: Alerts.OpenFor(e, node, kind)
  {
    open := [];
    for i := 0 to |list|
      invariant forall kind, node :: (kind, node) in open <==> exists j | 0 <= j < i :: Alerts.OpenFor(list[j], node, kind)
    {
      if list[i].open {
        open := open + [(list[i].kind, list[i].node)];
      }
    }
  }

  /** A confirmer seeded with the open events of the log is in step with it. */
  lemma SeedInStep(name: string, l: Alerts.Log, open: seq<(string, string)>)
    requires forall kind, node :: (kind, node) in open <==> exists e | e in Alerts.ListOf(l, name) :: Alerts.OpenFor(e, node, kind)
    ensures InStep(name, Seeded(EMPTY, open, CONFIRMED).open, l)
  {
    var keys := Seeded(EMPTY, open, CONFIRMED).open;
    forall kind, node | kind in CONFIRMED
      ensures FactKey(kind, node) in keys <==> Alerts.IsOpen(l, name, node, kind)
    {
      if FactKey(kind, node) in keys {
        var a :| a in open && a.0 in CONFIRMED && FactKey(a.0, a.1) == FactKey(kind, node);
        SameFault(a.0, a.1, kind, node);
        assert (kind, node) in open;
      }
      if Alerts.IsOpen(l, name, node, kind) {
        assert (kind, node) in open;
      }
    }
    forall key | key in keys
      ensures SplitKey(key).0 in CONFIRMED && key == FactKey(SplitKey(key).0, SplitKey(key).1)
    {
      var a :| a in open && a.0 in CONFIRMED && key == FactKey(a.0, a.1);
      KindsSplit(a.0, a.1);
    }
  }

  class ClusterWatch {
    const name: string
    const log: Alerts.AlertLog
    const confirmer: Confirmer
    var started: bool
    var wasOffline: bool

    constructor (name: string, log: Alerts.AlertLog)
      requires Alerts.Valid(log.Value())
      ensures this.name == name && this.log == log && fresh(confirmer) && !started && !wasOffline && InSync()
    {
      this.name, this.log := name, log;
      confirmer := new Confirmer();
      started, wasOffline := false, false;
    }

    /** From the first check on, confirmer and log are in step. */
    ghost predicate InSync()
      reads this, log, confirmer
    {
      Alerts.Valid(log.Value()) && if started then InStep(name, confirmer.open, log.Value()) else confirmer.Now() == EMPTY
    }

    /** The first check takes over what an earlier run left open. */
    method Start()
      requires InSync() && !started
      modifies this, confirmer
      ensures InSync() && started && wasOffline == old(wasOffline)
    {
      var list := if name in log.events then log.events[name] else [];
      var open := OpenPairs(list);
      if open != [] {
        confirmer.Seed(open, CONFIRMED);
      }
      started := true;
      assert confirmer.Now().open == Seeded(EMPTY, open, CONFIRMED).open;
      SeedInStep(name, log.Value(), open);
    }

    method HandOn(ts: seq<Transition>, now: int)
      requires Alerts.Valid(log.Value())
      modifies log
      ensures log.Value() == Handed(old(log.Value()), name, ts, now) && Alerts.Valid(log.Value())
      ensures old(Alerts.Bounded(log.Value(), name)) ==> Alerts.Bounded(log.Value(), name)
    {
      HandedKeeps(log.Value(), name, ts, now);
      for i := 0 to |ts|
        invariant Alerts.Valid(log.Value()) && log.Value() == Handed(old(log.Value()), name, ts[..i], now)
      {
        assert ts[..i + 1][..i] == ts[..i];
        match ts[i] {
          case Raise(_, fact, notify) =>
            var _ := log.Raise(FaultEvent(name, fact, notify), now);
          case Resolve(_, kind, node) =>
            var _ := log.Resolve(name, node, kind, RecoveryEvent(name, kind, node), now);
        }
      }
      assert ts[..|ts|] == ts;
    }

    method RecordAll(changes: seq<Alerts.Event>, now: int)
      requires InSync()
      modifies log
      ensures InSync()
      ensures old(Alerts.Bounded(log.Value(), name)) ==> Alerts.Bounded(log.Value(), name)
    {
      for i := 0 to |changes|
        invariant InSync()
        invariant old(Alerts.Bounded(log.Value(), name)) ==> Alerts.Bounded(log.Value(), name)
      {
        AnyRecordHere(changes[i], now);
        OtherListKept(changes[i], now);
        log.Record(changes[i], now);
      }
    }

    lemma OtherListKept(e: Alerts.Event, now: int)
      ensures e.cluster != name ==> Alerts.ListOf(Alerts.Added(log.Value(), e.(open := false), now), name) == Alerts.ListOf(log.Value(), name)
    {
    }

    lemma AnyRecordHere(e: Alerts.Event, now: int)
      ensures started && InStep(name, confirmer.open, log.Value()) ==> InStep(name, confirmer.open, Alerts.Added(log.Value(), e.(open := false), now))
    {
      if started && InStep(name, confirmer.open, log.Value()) {
        AnyRecord(name, confirmer.open, log.Value(), e, now);
      }
    }

    /** One check: the confirmer is reset, left alone, or given the facts, as the check's circumstances demand. */
    method Tick(v: View, now: int)
      requires InSync() && WellKeyed(v.facts)
      modifies this, log, confirmer
      ensures InSync() && started && wasOffline == v.offline
      ensures old(Alerts.Bounded(log.Value(), name)) ==> Alerts.Bounded(log.Value(), name)
      ensures v.ready && !v.offline && !v.off && !v.gap && !old(wasOffline) && !(v.facts != map[] && v.operating) && old(started) ==>
              confirmer.Now() == Applied(old(confirmer.Now()), v.facts.Keys, v.held)
      ensures v.ready && (v.offline || v.off || v.gap || old(wasOffline) || (v.facts != map[] && v.operating)) ==>
              confirmer.bad == map[] && (old(started) ==> confirmer.open == old(confirmer.open))
      ensures !v.ready && old(started) ==> confirmer.Now() == old(confirmer.Now()) && log.Value() == old(log.Value())
    {
      if !started {
        Start();
      }
      if !v.ready {
      } else if v.offline || v.off || v.gap || wasOffline {
        confirmer.Reset();
      } else {
        RecordAll(v.changes, now);
        if v.facts != map[] && v.operating {
          confirmer.Reset();
        } else {
          ghost var s, l := confirmer.Now(), log.Value();
          var ts := confirmer.Apply(v.facts, v.held);
          HandOn(ts, now);
          CheckKeepsStep(name, s, l, v.facts, v.held, ts, now);
        }
      }
      wasOffline := v.offline;
    }
  }
}
