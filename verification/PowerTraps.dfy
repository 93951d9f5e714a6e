/**
 Runs that go wrong where the conditions of the power module are not met: a shutdown given up on too early, and a partial
 shutdown chosen against a status that is behind.
 */
module PowerTraps {
  import opened Basics
  import OffMap
  import Power
  import opened PowerRuns

  /** Three control planes and a worker; the API address is that of the first control plane. */
  const NODES := [Power.Node("a", true), Power.Node("b", true), Power.Node("c", true), Power.Node("w", false)]
  const SHARED := Power.Cluster(NODES, {})
  const PINNED := Power.Cluster(NODES, {"a"})

  ghost predicate Reaches(c: Power.Cluster, s: State) { exists acts :: Legal(c, acts) && After(c, acts) == s }

  lemma ReachesStart(c: Power.Cluster)
    ensures Reaches(c, START)
  {
    assert Legal(c, []) && After(c, []) == START;
  }

  lemma ReachesNext(c: Power.Cluster, s: State, a: Action)
    requires Reaches(c, s) && Enabled(c, s, a)
    ensures Reaches(c, Do(c, s, a))
  {
    var acts :| Legal(c, acts) && After(c, acts) == s;
    assert (acts + [a])[..|acts|] == acts;
    assert Legal(c, acts + [a]) && After(c, acts + [a]) == Do(c, s, a);
  }

  lemma Nodes(c: Power.Cluster)
    requires c.nodes == NODES
    ensures Power.Hosts(c.nodes) == {"a", "b", "c", "w"}
    ensures Power.ControlPlanes(c) == {"a", "b", "c"} && |Power.ControlPlanes(c)| == 3
  {
    assert NODES[0] in NODES && NODES[1] in NODES && NODES[2] in NODES && NODES[3] in NODES;
    assert Power.Hosts(c.nodes) == {"a", "b", "c", "w"} by {
      assert forall n | n in NODES :: n == NODES[0] || n == NODES[1] || n == NODES[2] || n == NODES[3];
    }
  }

  /** One control plane may be shut down when no other is down, and it is the endpoint only if that is known to be off. */
  lemma OneAllowed(c: Power.Cluster, host: string, down: set<string>)
    requires c.nodes == NODES && host in {"a", "b"} && down <= {host, "w"}
    requires forall h | h in c.endpoint && h == host :: h in down
    ensures Power.PartAllowed(c, [host], down)
  {
    Nodes(c);
    assert Power.SetOf([host]) == {host};
    var gone := down + Power.SetOf([host]);
    assert "c" !in gone && "c" in Power.Hosts(c.nodes);
    assert Power.ControlPlanes(c) * gone == {host};
  }

  const ALL_UP: View := map["a" := true, "b" := true, "c" := true, "w" := true]

  /** The watch loop has published a look that reached everything. */
  const WATCHED := State(map[], {}, map[], Some(ALL_UP), None, {}, {}, Idle)

  lemma MaySeeAll(c: Power.Cluster)
    requires c.nodes == NODES
    ensures MaySee(c, START, ALL_UP)
  {
    Nodes(c);
    assert ALL_UP.Keys == {"a", "b", "c", "w"};
  }

  lemma ReachesWatched(c: Power.Cluster)
    requires c.nodes == NODES
    ensures Reaches(c, WATCHED)
  {
    ReachesStart(c);
    MaySeeAll(c);
    assert Unreachable(ALL_UP) == {} && SeenAll(map[], ALL_UP) == map[];
    ReachesNext(c, START, See(ALL_UP, true));
    ReachesNext(c, START.(coming := Some(ALL_UP)), Publish);
  }

  lemma ReachesChosen(c: Power.Cluster, s: State, hosts: seq<string>)
    requires Reaches(c, s) && MayChoose(c, s, hosts)
    ensures Reaches(c, s.(phase := Chosen(hosts, Known(s))))
  {
    ReachesNext(c, s, Choose(hosts));
  }

  lemma ReachesBegun(c: Power.Cluster, s: State)
    requires Reaches(c, s) && s.phase.Chosen? && Power.PartAllowed(c, s.phase.hosts, OffMap.OffNodes(s.off) + s.phase.down)
    ensures Reaches(c, s.(phase := Between(Shutdown, s.phase.hosts)))
  {
    ReachesNext(c, s, BeginShutdown);
  }

  lemma ReachesPassed(c: Power.Cluster, s: State, host: string)
    requires Reaches(c, s) && s.phase == Between(Shutdown, [host]) && MayPass(Power.ControlPlanes(c), s, host)
    ensures Reaches(c, s.(phase := Cleared(Shutdown, host, [])))
  {
    ReachesNext(c, s, Check(true));
    assert [host][1..] == [];
  }

  lemma MayChooseOne(c: Power.Cluster, s: State, host: string)
    requires s.phase == Idle && s.shown == Some(ALL_UP) && host in {"a", "b"}
    requires Power.PartAllowed(c, [host], OffMap.OffNodes(s.off))
    ensures MayChoose(c, s, [host]) && Known(s) == OffMap.OffNodes(s.off)
  {
    KnownIsOff(s);
  }

  /** From a selection that is let through to the run that has begun. */
  lemma ReachesBetween(c: Power.Cluster, s: State, host: string)
    requires Reaches(c, s) && MayChoose(c, s, [host]) && Known(s) == OffMap.OffNodes(s.off)
    ensures Reaches(c, s.(phase := Between(Shutdown, [host])))
  {
    ReachesChosen(c, s, [host]);
    var s' := s.(phase := Chosen([host], Known(s)));
    assert OffMap.OffNodes(s.off) + Known(s) == Known(s);
    ReachesBegun(c, s');
  }

  lemma KnownIsOff(s: State)
    requires s.shown == Some(ALL_UP)
    ensures Known(s) == OffMap.OffNodes(s.off)
  {
    assert Unreachable(ALL_UP) == {};
  }

  // ---- a shutdown given up on ----

  /** "a" has been asked, the run has given up on it, and it still answers. */
  const LINGERING := State(map["a" := Leaving], {"a"}, map[], Some(ALL_UP), None, {}, {}, Idle)

  lemma ReachesAsked()
    ensures Reaches(SHARED, State(map["a" := Leaving], {"a"}, map["a" := false], Some(ALL_UP), None, {}, {}, Waiting(Shutdown, "a", [])))
  {
    ReachesWatched(SHARED);
    assert OffMap.OffNodes(WATCHED.off) == {};
    OneAllowed(SHARED, "a", {});
    MayChooseOne(SHARED, WATCHED, "a");
    ReachesBetween(SHARED, WATCHED, "a");
    Nodes(SHARED);
    var s := WATCHED.(phase := Between(Shutdown, ["a"]));
    ReachesPassed(SHARED, s, "a");
    ReachesNext(SHARED, s.(phase := Cleared(Shutdown, "a", [])), Ask);
  }

  lemma ReachesLingering()
    ensures Reaches(SHARED, LINGERING)
  {
    ReachesAsked();
    var s := State(map["a" := Leaving], {"a"}, map["a" := false], Some(ALL_UP), None, {}, {}, Waiting(Shutdown, "a", []));
    ReachesNext(SHARED, s, Fail);
    assert OffMap.Unmarked(map["a" := false], "a") == map[];
  }

  const AGAIN := LINGERING.(phase := Between(Shutdown, ["b"]))

  lemma ReachesAgain()
    ensures Reaches(SHARED, AGAIN)
  {
    ReachesLingering();
    assert OffMap.OffNodes(LINGERING.off) == {};
    OneAllowed(SHARED, "b", {});
    MayChooseOne(SHARED, LINGERING, "b");
    ReachesBetween(SHARED, LINGERING, "b");
  }

  lemma PassesAgain()
    ensures MayPass(Power.ControlPlanes(SHARED), AGAIN, "b") && !SettledCheck(SHARED, AGAIN, Check(true))
  {
    Nodes(SHARED);
    assert StatusOf(AGAIN, "a") == Leaving;
  }

  /** A shutdown given up on before it took effect, and a second one right after, which the check lets through: two of three. */
  lemma LingeringShutdown()
    ensures Reaches(SHARED, AGAIN) && !SettledCheck(SHARED, AGAIN, Check(true))
    ensures var s := AGAIN.(phase := Cleared(Shutdown, "b", []));
            Reaches(SHARED, s) && Enabled(SHARED, s, Ask) && Do(SHARED, s, Ask).taken == {"a", "b"}
  {
    ReachesAgain();
    PassesAgain();
    ReachesPassed(SHARED, AGAIN, "b");
  }

  // ---- a status that is behind ----

  const HOSTS := ["a", "b", "c", "w"]

  /**
   Of a shutdown of the whole cluster, the endpoint and the worker went down and the other control planes did not; a look
   outside the watch loop has seen that, and the two are back.
   */
  const BEHIND := State(map["a" := Up, "w" := Up], {}, map["a" := true, "w" := true], Some(ALL_UP), None, {"a", "w"}, {"a", "w"}, Idle)

  const MARKED := map["a" := false, "b" := false, "c" := false, "w" := false]

  lemma ReachesMarked(c: Power.Cluster, s: State, hosts: seq<string>)
    requires Reaches(c, s) && s.phase == Idle && s.shown.Some? && AllUp(s, hosts) && Power.WholeSelected(c, hosts, Known(s))
    ensures Reaches(c, s.(off := MarkAll(s.off, hosts), phase := WholeRun(hosts)))
  {
    ReachesNext(c, s, ChooseWhole(hosts));
  }

  lemma AllSelected()
    ensures AllUp(WATCHED, HOSTS) && Power.WholeSelected(PINNED, HOSTS, Known(WATCHED))
  {
    Nodes(PINNED);
    assert Power.SetOf(HOSTS) == {"a", "b", "c", "w"};
  }

  lemma AllMarked()
    ensures MarkAll(map[], HOSTS) == MARKED
  {
    assert Power.SetOf(HOSTS) == {"a", "b", "c", "w"};
  }

  lemma ReachesWholeRun()
    ensures Reaches(PINNED, WATCHED.(off := MARKED, phase := WholeRun(HOSTS)))
  {
    ReachesWatched(PINNED);
    AllSelected();
    AllMarked();
    ReachesMarked(PINNED, WATCHED, HOSTS);
  }

  lemma ReachesCrash(c: Power.Cluster, s: State, node: string)
    requires Reaches(c, s) && StatusOf(s, node) == Up
    ensures Reaches(c, s.(status := s.status[node := Down]))
  {
    ReachesNext(c, s, Crashes(node));
  }

  lemma ReachesReturn(c: Power.Cluster, s: State, node: string)
    requires Reaches(c, s) && StatusOf(s, node) == Down && s.taken == {}
    ensures Reaches(c, s.(status := s.status[node := Up]))
  {
    ReachesNext(c, s, Returns(node));
  }

  const HALF_DOWN := map["a" := Down, "w" := Down]

  lemma ReachesHalfDown()
    ensures Reaches(PINNED, WATCHED.(off := MARKED, phase := WholeRun(HOSTS), status := HALF_DOWN))
  {
    ReachesWholeRun();
    var s := WATCHED.(off := MARKED, phase := WholeRun(HOSTS));
    ReachesCrash(PINNED, s, "a");
    ReachesCrash(PINNED, s.(status := map["a" := Down]), "w");
    assert map["a" := Down]["w" := Down] == HALF_DOWN;
  }

  lemma ReachesEnd(c: Power.Cluster, s: State, failed: set<string>)
    requires Reaches(c, s) && s.phase.WholeRun? && FailsTogether(c, s.phase.hosts, failed)
    ensures Reaches(c, s.(off := s.off - failed, phase := Idle))
  {
    ReachesNext(c, s, EndWhole(failed));
  }

  const HALTED := WATCHED.(off := MARKED, phase := WholeRun(HOSTS), status := HALF_DOWN)
  const ENDED := WATCHED.(off := map["a" := false, "w" := false], status := HALF_DOWN)

  lemma EndsAs()
    ensures HALTED.(off := HALTED.off - {"b", "c"}, phase := Idle) == ENDED
  {
    assert MARKED - {"b", "c"} == map["a" := false, "w" := false];
  }

  lemma ReachesEnded()
    ensures Reaches(PINNED, ENDED)
  {
    ReachesHalfDown();
    OnlyPlanesFail();
    ReachesEnd(PINNED, HALTED, {"b", "c"});
    EndsAs();
  }

  lemma OnlyPlanesFail()
    ensures FailsTogether(PINNED, HOSTS, {"b", "c"})
  {
    Nodes(PINNED);
  }

  const HALF_SEEN: View := map["a" := false, "b" := true, "c" := true, "w" := false]

  lemma ReachesSee(c: Power.Cluster, s: State, v: View)
    requires Reaches(c, s) && MaySee(c, s, v)
    ensures var gone := Unreachable(v);
            Reaches(c, s.(off := SeenAll(s.off, v), missed := s.missed + gone, missedComing := s.missedComing + gone))
  {
    ReachesNext(c, s, See(v, false));
  }

  lemma MaySeeHalf(s: State)
    requires s.status == HALF_DOWN
    ensures MaySee(PINNED, s, HALF_SEEN)
  {
    Nodes(PINNED);
    assert HALF_SEEN.Keys == {"a", "b", "c", "w"};
  }

  lemma HalfUnreachable()
    ensures Unreachable(HALF_SEEN) == {"a", "w"}
  {
  }

  lemma SeenAs()
    ensures SeenAll(ENDED.off, HALF_SEEN) == map["a" := true, "w" := true]
  {
  }

  lemma ReachesSeen()
    ensures Reaches(PINNED, BEHIND.(status := HALF_DOWN))
  {
    ReachesEnded();
    MaySeeHalf(ENDED);
    HalfUnreachable();
    ReachesSee(PINNED, ENDED, HALF_SEEN);
    SeenAs();
    assert {} + {"a", "w"} == {"a", "w"};
  }

  const HALF_BACK := BEHIND.(status := map["a" := Up, "w" := Down])

  lemma ReachesHalfBack()
    ensures Reaches(PINNED, HALF_BACK)
  {
    ReachesSeen();
    ReachesReturn(PINNED, BEHIND.(status := HALF_DOWN), "a");
    assert HALF_DOWN["a" := Up] == HALF_BACK.status;
  }

  lemma ReachesBehind()
    ensures Reaches(PINNED, BEHIND)
  {
    ReachesHalfBack();
    ReachesReturn(PINNED, HALF_BACK, "w");
    assert HALF_BACK.status["w" := Up] == BEHIND.status;
  }

  /** A partial shutdown chosen then asks the endpoint to go down while it is up. */
  lemma StaleStatusTakesEndpoint()
    ensures var s := BEHIND.(phase := Cleared(Shutdown, "a", []));
            Reaches(PINNED, s) && Enabled(PINNED, s, Ask) && StatusOf(s, "a") == Up && "a" in PINNED.endpoint
  {
    ReachesBehind();
    assert OffMap.OffNodes(BEHIND.off) == {"a", "w"};
    OneAllowed(PINNED, "a", {"a", "w"});
    MayChooseOne(PINNED, BEHIND, "a");
    ReachesBetween(PINNED, BEHIND, "a");
    PassesBehind();
    ReachesPassed(PINNED, BEHIND.(phase := Between(Shutdown, ["a"])), "a");
  }

  lemma PassesBehind()
    ensures MayPass(Power.ControlPlanes(PINNED), BEHIND.(phase := Between(Shutdown, ["a"])), "a")
  {
    Nodes(PINNED);
  }
}
