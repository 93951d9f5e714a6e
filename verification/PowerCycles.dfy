/**
 Runs that go through: what a restart and a shutdown of a node leave behind, step by step, what giving up takes back, and
 what a selection that is let through says about the nodes it leaves out.
 */
module PowerCycles {
  import opened Basics
  import opened OffMap
  import Power
  import opened PowerRuns

  /** A node that passes its check is asked, and counts as taken until it is back; only a shutdown marks it, before it is asked. */
  lemma PassedIsAsked(c: Power.Cluster, s: State, kind: Kind, node: string, todo: seq<string>)
    requires s.phase == Between(kind, [node] + todo) && StatusOf(s, node) == Up && MayPass(Power.ControlPlanes(c), s, node)
    ensures Enabled(c, s, Check(true)) && Enabled(c, Do(c, s, Check(true)), Ask)
    ensures Do(c, Do(c, s, Check(true)), Ask)
         == s.(phase := Waiting(kind, node, todo), status := s.status[node := Leaving], taken := s.taken + {node},
               off := if kind == Shutdown then s.off[node := false] else s.off)
  {
    assert ([node] + todo)[1..] == todo;
  }

  /** A restarted node goes and comes back; then it is up and not taken any more, and the run goes on with the others, or ends. */
  lemma RestartComesBack(c: Power.Cluster, s: State, node: string, todo: seq<string>)
    requires s.phase == Waiting(Restart, node, todo) && StatusOf(s, node) == Leaving
    ensures !Enabled(c, s, Confirm) && Enabled(c, s, Goes(node))
    ensures var s1 := Do(c, s, Goes(node));
            && !Enabled(c, s1, Confirm) && Enabled(c, s1, Returns(node)) && var s2 := Do(c, s1, Returns(node));
            && Enabled(c, s2, Confirm) && var s3 := Do(c, s2, Confirm);
            && s3 == s.(phase := Between(Restart, todo), status := s3.status, taken := s.taken - {node}) && StatusOf(s3, node) == Up
            && (Enabled(c, s3, End) <==> todo == []) && (todo == [] ==> Do(c, s3, End) == s3.(phase := Idle))
  {
  }

  /** A node shut down goes; then it stays taken and marked until it is back, and the run goes on with the others, or ends. */
  lemma ShutdownTakesEffect(c: Power.Cluster, s: State, node: string, todo: seq<string>)
    requires s.phase == Waiting(Shutdown, node, todo) && StatusOf(s, node) == Leaving
    ensures !Enabled(c, s, Confirm) && Enabled(c, s, Goes(node))
    ensures var s1 := Do(c, s, Goes(node));
            && Enabled(c, s1, Confirm) && var s2 := Do(c, s1, Confirm);
            && s2 == s.(phase := Between(Shutdown, todo), status := s2.status) && StatusOf(s2, node) == Down
            && (todo == [] ==> Enabled(c, s2, End) && Do(c, s2, End) == s2.(phase := Idle))
            && Enabled(c, s2, Returns(node)) && StatusOf(Do(c, s2, Returns(node)), node) == Up
            && Do(c, s2, Returns(node)).taken == s.taken - {node}
  {
  }

  /** A run that fails ends; a shutdown that has marked a node takes the mark off again, and a restart leaves the table alone. */
  lemma FailureTakesMarkOff(c: Power.Cluster, s: State)
    requires s.phase.Waiting?
    ensures Enabled(c, s, Fail)
    ensures var s' := Do(c, s, Fail);
            && s'.phase == Idle && s'.taken == s.taken && s'.status == s.status
            && (s.phase.kind == Shutdown ==> s.phase.node !in s'.off)
            && (forall h | h != s.phase.node || s.phase.kind == Restart :: h in s'.off <==> h in s.off)
            && (forall h | h in s'.off :: s'.off[h] == s.off[h])
  {
  }

  /** A run that fails before it has asked a node changes nothing. */
  lemma EarlyFailure(c: Power.Cluster, s: State)
    requires s.phase.Between? || s.phase.Chosen?
    ensures Enabled(c, s, Fail) && Do(c, s, Fail) == s.(phase := Idle)
  {
  }

  /** A node that cannot be asked is not taken, and its mark is off. */
  lemma UnaskedIsNotTaken(c: Power.Cluster, s: State)
    requires s.phase.Cleared?
    ensures Enabled(c, s, AskFails)
    ensures var s' := Do(c, s, AskFails);
            && s'.phase == Idle && s'.taken == s.taken && s'.status == s.status
            && (s.phase.kind == Restart ==> s'.off == s.off) && (s.phase.kind == Shutdown ==> s.phase.node !in s'.off)
  {
  }

  /** A shutdown of the whole cluster marks its nodes as marking one after the other would, and no other node. */
  lemma MarkAllIsMarked(off: Off, hosts: seq<string>, host: string)
    ensures MarkAll(off, []) == off
    ensures MarkAll(off, hosts + [host]) == Marked(MarkAll(off, hosts), host)
    ensures forall h | h !in hosts :: (h in MarkAll(off, hosts) <==> h in off) && (h in off ==> MarkAll(off, hosts)[h] == off[h])
  {
  }

  /**
   A selection with a control plane in it that is let through takes no other one; and every control plane it leaves out
   was reached by the latest status, if that has it, and does not count as switched off.
   */
  lemma ChosenLeavesOthersUp(c: Power.Cluster, s: State, hosts: seq<string>, plane: string)
    requires MayChoose(c, s, hosts) && plane in hosts && plane in Power.ControlPlanes(c)
    ensures |Power.ControlPlanes(c)| >= 3
    ensures forall p | p in Power.ControlPlanes(c) && p != plane ::
              p !in hosts && p !in OffNodes(s.off) && (s.shown.Some? && p in s.shown.value ==> Shows(s.shown, p))
  {
    var gone := Known(s) + Power.SetOf(hosts);
    forall p | p in Power.ControlPlanes(c) && p != plane
      ensures p !in gone
    {
      if p in gone {
        TwoOf(Power.ControlPlanes(c) * gone, p, plane);
        assert false;
      }
    }
  }

  lemma TwoOf(s: set<string>, a: string, b: string)
    requires a in s && b in s && a != b
    ensures |s| >= 2
  {
    SmallerTaken({a, b}, s);
  }

  /**
   A partial shutdown that has the lock looks again at what is switched off by then: it goes on only if, with that and with
   what was known at the selection, it still leaves a node on and takes a control plane only as the single one down.
   */
  lemma BeginLooksAgain(c: Power.Cluster, s: State, plane: string)
    requires s.phase.Chosen? && plane in s.phase.hosts && plane in Power.ControlPlanes(c)
    ensures Enabled(c, s, BeginShutdown)
    ensures var s' := Do(c, s, BeginShutdown); var gone := OffNodes(s.off) + s.phase.down;
            && (s' == s.(phase := Idle) || s' == s.(phase := Between(Shutdown, s.phase.hosts)))
            && (s'.phase.Between? ==>
                  && (forall p | p in Power.ControlPlanes(c) && p != plane :: p !in gone && p !in s.phase.hosts)
                  && exists h :: h in Power.Hosts(c.nodes) && h !in gone && h !in s.phase.hosts)
  {
    var gone := OffNodes(s.off) + s.phase.down;
    var all := gone + Power.SetOf(s.phase.hosts);
    if Do(c, s, BeginShutdown).phase.Between? {
      forall p | p in Power.ControlPlanes(c) && p != plane
        ensures p !in all
      {
        if p in all {
          TwoOf(Power.ControlPlanes(c) * all, p, plane);
          assert false;
        }
      }
      assert exists h :: h in Power.Hosts(c.nodes) && h !in all;
    }
  }

  /** A shutdown of the whole cluster starts only when every node is selected and shown up, or known to be down. */
  lemma WholeTakesTheRest(c: Power.Cluster, s: State, hosts: seq<string>, node: string)
    requires Enabled(c, s, ChooseWhole(hosts)) && node in Power.Hosts(c.nodes)
    ensures s.phase == Idle && s.shown.Some?
    ensures (node in hosts && Shows(s.shown, node)) || node in OffNodes(s.off) || (node in s.shown.value && !s.shown.value[node])
    ensures forall h | h in hosts :: h in Power.Hosts(c.nodes) && Shows(s.shown, h)
  {
    assert node in Known(s) || node in hosts;
  }
}
