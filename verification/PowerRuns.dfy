/**
 Restarts, shutdowns and power-ons as runs, one after the other, that may end with an error at any point, while nodes go
 down and come back in their own time and are looked at now and then. Two questions: how many control planes Kubit itself
 has taken down at once, and whether a partial shutdown can take the node the API address belongs to.
 */
module PowerRuns {
  import opened Basics
  import opened OffMap
  import Power

  /** A node is up, has been asked to go down and still answers, or is down. */
  datatype Status = Up | Leaving | Down

  datatype Kind = Restart | Shutdown

  /**
   Where a run stands: a partial shutdown is chosen against what was known then; between nodes; past the etcd check of one;
   waiting for a node it has asked to go down; or the whole cluster is being shut down.
   */
  datatype Phase = Idle
                 | Chosen(hosts: seq<string>, down: set<string>)
                 | Between(kind: Kind, todo: seq<string>)
                 | Cleared(kind: Kind, node: string, todo: seq<string>)
                 | Waiting(kind: Kind, node: string, todo: seq<string>)
                 | WholeRun(hosts: seq<string>)

  type View = map<string, bool>

  /**
   `taken` holds the nodes a restart or partial shutdown has asked to go down and that are not back yet. `shown` is the
   last published look at the nodes, `coming` the watch loop's look that is not published yet; for the record, the
   nodes some look has missed since each of them was taken.
   */
  datatype State = State(status: map<string, Status>, taken: set<string>, off: Off, shown: Option<View>, coming: Option<View>,
                         missed: set<string>, missedComing: set<string>, phase: Phase)

  const START := State(map[], {}, map[], None, None, {}, {}, Idle)

  datatype Action =
    | See(view: View, kept: bool)          // a look at all nodes; the watch loop keeps its own
    | Publish                              // the watch loop's look becomes the latest status
    | BeginRestart(todo: seq<string>)
    | Choose(hosts: seq<string>)           // a partial shutdown is accepted
    | BeginShutdown                        // its run has the lock and checks again
    | ChooseWhole(hosts: seq<string>)      // a shutdown of the whole cluster marks its nodes
    | EndWhole(failed: set<string>)        // and takes the marks off those that did not go down
    | Check(ok: bool)
    | Ask
    | AskFails                             // the node is marked, cannot be asked, and unmarked
    | Confirm
    | End
    | Fail
    | Goes(node: string)
    | Crashes(node: string)
    | Returns(node: string)

  function StatusOf(s: State, node: string): Status { if node in s.status then s.status[node] else Up }

  function Unreachable(v: View): set<string> { set h | h in v && !v[h] }

  predicate Shows(v: Option<View>, host: string) { v.Some? && host in v.value && v.value[host] }

  /** What the server knows to be down: nodes switched off and seen off, and nodes the latest status does not reach. */
  function Known(s: State): set<string> { OffNodes(s.off) + if s.shown.Some? then Unreachable(s.shown.value) else {} }

  predicate AllUp(s: State, hosts: seq<string>) { forall h | h in hosts :: Shows(s.shown, h) }

  /** One look at every node of the view. */
  function SeenAll(off: Off, v: View): Off {
    map h | h in off && !(h in v && v[h] && off[h]) :: off[h] || (h in v && !v[h])
  }

  /** It is one look at each of them. */
  lemma SeenAllIsSeen(off: Off, v: View, host: string)
    requires host in v
    ensures var one := Seen(off, host, v[host]);
            (host in SeenAll(off, v) <==> host in one) && (host in one ==> SeenAll(off, v)[host] == one[host])
  {
  }

  /** The check before a node is taken down: a control plane needs every etcd member healthy, so not down, and not two of them. */
  ghost predicate MayPass(planes: set<string>, s: State, node: string) {
    node in planes ==> |planes| != 2 && forall p | p in planes :: StatusOf(s, p) != Down
  }

  ghost predicate MaySee(c: Power.Cluster, s: State, v: View) {
    v.Keys == Power.Hosts(c.nodes) && forall h | h in v && v[h] :: StatusOf(s, h) != Down
  }

  ghost predicate MayChoose(c: Power.Cluster, s: State, hosts: seq<string>) {
    s.phase == Idle && s.shown.Some? && AllUp(s, hosts) && Power.PartAllowed(c, hosts, Known(s))
  }

  /** When a worker fails to go down, no control plane is asked and all of them lose their marks. */
  predicate FailsTogether(c: Power.Cluster, hosts: seq<string>, failed: set<string>) {
    (exists h :: h in failed && h in hosts && h !in Power.ControlPlanes(c)) ==>
      forall h | h in hosts && h in Power.ControlPlanes(c) :: h in failed
  }

  ghost predicate Enabled(c: Power.Cluster, s: State, a: Action) {
    match a
    case See(v, kept) => MaySee(c, s, v) && (kept ==> s.coming.None?)
    case Publish => s.coming.Some?
    case BeginRestart(todo) => s.phase == Idle
    case Choose(hosts) => MayChoose(c, s, hosts)
    case BeginShutdown => s.phase.Chosen?
    case ChooseWhole(hosts) => s.phase == Idle && s.shown.Some? && AllUp(s, hosts) && Power.WholeSelected(c, hosts, Known(s))
    case EndWhole(failed) => s.phase.WholeRun? && FailsTogether(c, s.phase.hosts, failed)
    case Check(ok) => s.phase.Between? && s.phase.todo != [] && (ok ==> MayPass(Power.ControlPlanes(c), s, s.phase.todo[0]))
    case Ask => s.phase.Cleared?
    case AskFails => s.phase.Cleared?
    case Confirm => s.phase.Waiting? && StatusOf(s, s.phase.node) == (if s.phase.kind == Restart then Up else Down)
    case End => s.phase.Between? && s.phase.todo == []
    case Fail => s.phase.Between? || s.phase.Waiting? || s.phase.Chosen?
    case Goes(node) => StatusOf(s, node) == Leaving
    case Crashes(node) => StatusOf(s, node) == Up
    case Returns(node) => StatusOf(s, node) != Up
  }

  function DoSee(s: State, v: View, kept: bool): State {
    var gone := Unreachable(v);
    var s' := s.(off := SeenAll(s.off, v), missed := s.missed + gone);
    if kept then s'.(coming := Some(v), missedComing := {}) else s'.(missedComing := s.missedComing + gone)
  }

  /** A shutdown marks the node before it asks; a restart does not. */
  function DoAsk(s: State): State
    requires s.phase.Cleared?
  {
    var n := s.phase.node;
    s.(status := s.status[n := if StatusOf(s, n) == Down then Down else Leaving],
       taken := s.taken + {n},
       off := if s.phase.kind == Shutdown then Marked(s.off, n) else s.off,
       phase := Waiting(s.phase.kind, n, s.phase.todo))
  }

  /** A shutdown that gives up on a node takes its mark off again. */
  function GivesUp(s: State, node: string, kind: Kind): State {
    s.(phase := Idle, off := if kind == Shutdown then Unmarked(s.off, node) else s.off)
  }

  function MarkAll(off: Off, hosts: seq<string>): Off { map h | h in off.Keys + Power.SetOf(hosts) :: if h in hosts then false else off[h] }

  ghost function Do(c: Power.Cluster, s: State, a: Action): State
    requires Enabled(c, s, a)
  {
    match a
    case See(v, kept) => DoSee(s, v, kept)
    case Publish => s.(shown := s.coming, coming := None, missed := s.missedComing, missedComing := {})
    case BeginRestart(todo) => s.(phase := Between(Restart, todo))
    case Choose(hosts) => s.(phase := Chosen(hosts, Known(s)))
    case BeginShutdown =>
      s.(phase := if Power.PartAllowed(c, s.phase.hosts, OffNodes(s.off) + s.phase.down) then Between(Shutdown, s.phase.hosts) else Idle)
    case ChooseWhole(hosts) => s.(off := MarkAll(s.off, hosts), phase := WholeRun(hosts))
    case EndWhole(failed) => s.(off := s.off - failed, phase := Idle)
    case Check(ok) => s.(phase := if ok then Cleared(s.phase.kind, s.phase.todo[0], s.phase.todo[1..]) else Idle)
    case Ask => DoAsk(s)
    case AskFails => GivesUp(s, s.phase.node, s.phase.kind)
    case Confirm => s.(phase := Between(s.phase.kind, s.phase.todo))
    case End => s.(phase := Idle)
    case Fail => if s.phase.Waiting? then GivesUp(s, s.phase.node, s.phase.kind) else s.(phase := Idle)
    case Goes(node) => s.(status := s.status[node := Down])
    case Crashes(node) => s.(status := s.status[node := Down])
    case Returns(node) => s.(status := s.status[node := Up], taken := s.taken - {node})
  }

  ghost predicate Legal(c: Power.Cluster, acts: seq<Action>)
    decreases |acts|, 0
  {
    acts == [] || (Legal(c, acts[..|acts| - 1]) && Enabled(c, After(c, acts[..|acts| - 1]), acts[|acts| - 1]))
  }

  ghost function After(c: Power.Cluster, acts: seq<Action>): State
    requires Legal(c, acts)
    decreases |acts|, 1
  {
    if acts == [] then START else Do(c, After(c, acts[..|acts| - 1]), acts[|acts| - 1])
  }

  // ---- how many control planes are taken ----

  /** No other control plane, asked to go down earlier, is still on its way down when a node is checked. */
  ghost predicate SettledCheck(c: Power.Cluster, s: State, a: Action) {
    a == Check(true) && s.phase.Between? && s.phase.todo != [] ==>
      forall p | p in Power.ControlPlanes(c) && p != s.phase.todo[0] :: StatusOf(s, p) != Leaving
  }

  ghost predicate Settled(c: Power.Cluster, acts: seq<Action>)
    requires Legal(c, acts)
  {
    acts == [] || (Settled(c, acts[..|acts| - 1]) && SettledCheck(c, After(c, acts[..|acts| - 1]), acts[|acts| - 1]))
  }

  /** What Kubit has taken down is not up, and only a node it has asked is on its way down. */
  ghost predicate TakenAreAway(s: State) {
    (forall n | n in s.taken :: StatusOf(s, n) != Up) && (forall n | n in s.status && s.status[n] == Leaving :: n in s.taken)
  }

  ghost predicate Inv(c: Power.Cluster, s: State) {
    var planes := Power.ControlPlanes(c);
    && TakenAreAway(s)
    && |s.taken * planes| <= 1
    && (|planes| == 2 ==> s.taken * planes == {})
    && (s.phase.Cleared? && s.phase.node in planes ==> |planes| != 2 && s.taken * planes <= {s.phase.node})
  }

  lemma SmallerTaken(a: set<string>, b: set<string>)
    requires a <= b
    ensures |a| <= |b|
  {
    if a != b {
      assert b == a + (b - a);
    }
  }

  lemma OneAdded(taken: set<string>, planes: set<string>, n: string)
    requires n in planes ==> taken * planes <= {n}
    ensures (taken + {n}) * planes == if n in planes then {n} else taken * planes
  {
  }

  lemma AskKeeps(c: Power.Cluster, s: State)
    requires s.phase.Cleared? && Inv(c, s)
    ensures Inv(c, Do(c, s, Ask))
  {
    OneAdded(s.taken, Power.ControlPlanes(c), s.phase.node);
  }

  lemma ReturnKeeps(c: Power.Cluster, s: State, node: string)
    requires Enabled(c, s, Returns(node)) && Inv(c, s)
    ensures Inv(c, Do(c, s, Returns(node)))
  {
    var planes := Power.ControlPlanes(c);
    SmallerTaken((s.taken - {node}) * planes, s.taken * planes);
  }

  lemma CheckKeeps(c: Power.Cluster, s: State, ok: bool)
    requires Enabled(c, s, Check(ok)) && SettledCheck(c, s, Check(ok)) && Inv(c, s)
    ensures Inv(c, Do(c, s, Check(ok)))
  {
    if ok && s.phase.todo[0] in Power.ControlPlanes(c) {
      assert forall p | p in Power.ControlPlanes(c) && p != s.phase.todo[0] :: StatusOf(s, p) == Up;
    }
  }

  /** Every other step leaves what is taken alone, or takes a node down that nobody had asked. */
  lemma OthersKeep(c: Power.Cluster, s: State, a: Action)
    requires Enabled(c, s, a) && Inv(c, s) && !a.Ask? && !a.Returns? && !a.Check?
    ensures Inv(c, Do(c, s, a))
  {
    var s' := Do(c, s, a);
    assert s'.taken == s.taken && (!s'.phase.Cleared? || s'.phase == s.phase);
  }

  lemma StepKeeps(c: Power.Cluster, s: State, a: Action)
    requires Enabled(c, s, a) && SettledCheck(c, s, a) && Inv(c, s)
    ensures Inv(c, Do(c, s, a))
  {
    match a
    case Ask => AskKeeps(c, s);
    case Returns(node) => ReturnKeeps(c, s, node);
    case Check(ok) => CheckKeeps(c, s, ok);
    case _ => OthersKeep(c, s, a);
  }

  lemma {:induction false} RunKeeps(c: Power.Cluster, acts: seq<Action>)
    requires Legal(c, acts) && Settled(c, acts)
    ensures Inv(c, After(c, acts))
  {
    if acts == [] {
      assert START.taken * Power.ControlPlanes(c) == {};
    } else {
      RunKeeps(c, acts[..|acts| - 1]);
      StepKeeps(c, After(c, acts[..|acts| - 1]), acts[|acts| - 1]);
    }
  }

  /**
   Kubit never has more than one control plane of a cluster taken down, none of a cluster of two, and so a strict
   majority of the others is left alone.
   */
  lemma AtMostOneTaken(c: Power.Cluster, acts: seq<Action>)
    requires Legal(c, acts) && Settled(c, acts)
    ensures |After(c, acts).taken * Power.ControlPlanes(c)| <= 1
    ensures |Power.ControlPlanes(c)| >= 2 ==> 2 * |Power.ControlPlanes(c) - After(c, acts).taken| > |Power.ControlPlanes(c)|
  {
    RunKeeps(c, acts);
    var planes, taken := Power.ControlPlanes(c), After(c, acts).taken;
    assert planes - taken == planes - taken * planes;
    assert |planes - taken * planes| == |planes| - |taken * planes|;
  }

  lemma StepAway(c: Power.Cluster, s: State, a: Action)
    requires Enabled(c, s, a) && TakenAreAway(s)
    ensures TakenAreAway(Do(c, s, a))
  {
  }

  lemma {:induction false} AlwaysAway(c: Power.Cluster, acts: seq<Action>)
    requires Legal(c, acts)
    ensures TakenAreAway(After(c, acts))
  {
    if acts != [] {
      AlwaysAway(c, acts[..|acts| - 1]);
      StepAway(c, After(c, acts[..|acts| - 1]), acts[|acts| - 1]);
    }
  }

  /**
   The condition is needed: after a check that passes and the shutdown it allows, a single control plane is taken if
   and only if no other one was still on its way down at the check.
   */
  lemma SafeExactlyWhenSettled(c: Power.Cluster, acts: seq<Action>)
    requires Legal(c, acts) && After(c, acts).phase.Between? && After(c, acts).phase.todo != []
    requires After(c, acts).phase.todo[0] in Power.ControlPlanes(c) && Enabled(c, After(c, acts), Check(true))
    ensures var s := After(c, acts); var s' := Do(c, Do(c, s, Check(true)), Ask);
            |s'.taken * Power.ControlPlanes(c)| <= 1 <==> SettledCheck(c, s, Check(true))
  {
    AlwaysAway(c, acts);
    var s, planes := After(c, acts), Power.ControlPlanes(c);
    var n, s' := s.phase.todo[0], Do(c, Do(c, s, Check(true)), Ask);
    if SettledCheck(c, s, Check(true)) {
      assert s.taken * planes <= {n};
      OneAdded(s.taken, planes, n);
    } else {
      var p :| p in planes && p != n && StatusOf(s, p) == Leaving;
      assert {p, n} <= s'.taken * planes && |{p, n}| == 2;
      SmallerTaken({p, n}, s'.taken * planes);
    }
  }

  // ---- the endpoint ----

  /** No partial shutdown under way is about a node of the endpoint. */
  predicate SparesEndpoint(c: Power.Cluster, s: State) {
    match s.phase
    case Chosen(hosts, _) => forall h | h in c.endpoint :: h !in hosts
    case Between(Shutdown, todo) => forall h | h in c.endpoint :: h !in todo
    case Cleared(Shutdown, node, todo) => forall h | h in c.endpoint :: h != node && h !in todo
    case Waiting(Shutdown, node, todo) => forall h | h in c.endpoint :: h != node && h !in todo
    case _ => true
  }

  /**
   When a selection with the endpoint in it is let through: exactly when it would be without an endpoint and the table
   says the endpoint was switched off, while the latest status shows it up.
   */
  lemma EndpointChosenExactly(c: Power.Cluster, s: State, hosts: seq<string>, ep: string)
    requires c.endpoint == {ep} && ep in hosts
    ensures MayChoose(c, s, hosts) <==> ep in OffNodes(s.off) && MayChoose(c.(endpoint := {}), s, hosts)
  {
    assert MayChoose(c, s, hosts) ==> Shows(s.shown, ep);
    assert Power.ControlPlanes(c) == Power.ControlPlanes(c.(endpoint := {}));
  }

  /** A node that counts as switched off although a look showed it up has been missed by a later look. */
  ghost predicate TableIsNewer(s: State) {
    && (forall h | h in OffNodes(s.off) && Shows(s.shown, h) :: h in s.missed)
    && (forall h | h in OffNodes(s.off) && Shows(s.coming, h) :: h in s.missedComing)
  }

  lemma StepKeepsNewer(c: Power.Cluster, s: State, a: Action)
    requires Enabled(c, s, a) && TableIsNewer(s)
    ensures TableIsNewer(Do(c, s, a))
  {
  }

  lemma {:induction false} AlwaysNewer(c: Power.Cluster, acts: seq<Action>)
    requires Legal(c, acts)
    ensures TableIsNewer(After(c, acts))
  {
    if acts != [] {
      AlwaysNewer(c, acts[..|acts| - 1]);
      StepKeepsNewer(c, After(c, acts[..|acts| - 1]), acts[|acts| - 1]);
    }
  }

  /** Partial shutdowns are chosen only while no look since the latest status has missed the endpoint. */
  ghost predicate FreshChoice(c: Power.Cluster, s: State, a: Action) { a.Choose? ==> c.endpoint !! s.missed }

  ghost predicate FreshChoices(c: Power.Cluster, acts: seq<Action>)
    requires Legal(c, acts)
  {
    acts == [] || (FreshChoices(c, acts[..|acts| - 1]) && FreshChoice(c, After(c, acts[..|acts| - 1]), acts[|acts| - 1]))
  }

  lemma ChosenEndpointIsOff(c: Power.Cluster, s: State, hosts: seq<string>)
    requires MayChoose(c, s, hosts)
    ensures forall h | h in c.endpoint && h in hosts :: h in OffNodes(s.off) && Shows(s.shown, h)
  {
    forall h | h in c.endpoint && h in hosts
      ensures h in OffNodes(s.off) && Shows(s.shown, h)
    {
      assert h in Known(s);
    }
  }

  lemma ChooseSpares(c: Power.Cluster, s: State, hosts: seq<string>)
    requires Enabled(c, s, Choose(hosts)) && TableIsNewer(s) && c.endpoint !! s.missed
    ensures SparesEndpoint(c, Do(c, s, Choose(hosts)))
  {
    ChosenEndpointIsOff(c, s, hosts);
  }

  lemma StepSpares(c: Power.Cluster, s: State, a: Action)
    requires Enabled(c, s, a) && !a.Choose? && SparesEndpoint(c, s)
    ensures SparesEndpoint(c, Do(c, s, a))
  {
  }

  /**
   No partial shutdown takes the endpoint, up or not, at any point of any sequence of restarts, shutdowns, power-ons and
   looks, as long as each is chosen while the latest status is not behind: no later look has missed the endpoint.
   */
  lemma {:induction false} EndpointSpared(c: Power.Cluster, acts: seq<Action>)
    requires Legal(c, acts) && FreshChoices(c, acts)
    ensures SparesEndpoint(c, After(c, acts))
  {
    if acts != [] {
      var init, last := acts[..|acts| - 1], acts[|acts| - 1];
      EndpointSpared(c, init);
      AlwaysNewer(c, init);
      if last.Choose? {
        ChooseSpares(c, After(c, init), last.hosts);
      } else {
        StepSpares(c, After(c, init), last);
      }
    }
  }

  /** Without shutdowns of the whole cluster the endpoint is never marked. */
  ghost predicate Unmarkable(c: Power.Cluster, s: State) {
    SparesEndpoint(c, s) && !s.phase.WholeRun? && c.endpoint !! s.off.Keys
  }

  lemma StepUnmarkable(c: Power.Cluster, s: State, a: Action)
    requires Enabled(c, s, a) && !a.ChooseWhole? && Unmarkable(c, s)
    ensures Unmarkable(c, Do(c, s, a))
  {
    if a.Choose? {
      ChosenEndpointIsOff(c, s, a.hosts);
    } else {
      StepSpares(c, s, a);
    }
  }

  /**
   Over all sequences of restarts, partial shutdowns and power-ons, without any condition on the looks: no partial
   shutdown ever asks the endpoint to go down, whether it is up or not.
   */
  lemma {:induction false} PartialRunsSpareEndpoint(c: Power.Cluster, acts: seq<Action>)
    requires Legal(c, acts) && forall i | 0 <= i < |acts| :: !acts[i].ChooseWhole?
    ensures SparesEndpoint(c, After(c, acts)) && c.endpoint !! After(c, acts).off.Keys
    ensures Unmarkable(c, After(c, acts))
  {
    if acts != [] {
      var init, last := acts[..|acts| - 1], acts[|acts| - 1];
      assert forall i | 0 <= i < |init| :: init[i] == acts[i];
      PartialRunsSpareEndpoint(c, init);
      StepUnmarkable(c, After(c, init), last);
    }
  }
}
