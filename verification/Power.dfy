/**
 The two guards before a control plane goes down: which selections of nodes may be shut down together, and whether
 etcd can do without one member.
 */
module Power {
  import opened Basics

  datatype Node = Node(host: string, controlPlane: bool)

  /** The nodes of a cluster, and the one its API address belongs to when there is no shared address. */
  datatype Cluster = Cluster(nodes: seq<Node>, endpoint: set<string>)

  /** No two nodes have the same address. */
  predicate Wellformed(c: Cluster) { forall i, j | 0 <= i < j < |c.nodes| :: c.nodes[i].host != c.nodes[j].host }

  function Hosts(nodes: seq<Node>): set<string> { set n | n in nodes :: n.host }

  function ControlPlanes(c: Cluster): set<string> { set n | n in c.nodes && n.controlPlane :: n.host }

  function SetOf(hosts: seq<string>): set<string> { set h | h in hosts }

  datatype Verdict = Whole | Part | Refused

  /**
   A partial shutdown is allowed exactly when the selection names members only, does not complete a whole cluster,
   leaves the endpoint alone unless that is off already, and either takes no control plane or is the only one down
   among three or more.
   */
  ghost predicate PartAllowed(c: Cluster, hosts: seq<string>, down: set<string>) {
    var gone := down + SetOf(hosts);
    && (forall h | h in hosts :: h in Hosts(c.nodes))
    && !(Hosts(c.nodes) <= gone)
    && (forall h | h in c.endpoint && h in hosts :: h in down)
    && ((forall h | h in hosts :: h !in ControlPlanes(c)) || (|ControlPlanes(c)| >= 3 && |ControlPlanes(c) * gone| <= 1))
  }

  ghost predicate WholeSelected(c: Cluster, hosts: seq<string>, down: set<string>) {
    && (forall h | h in hosts :: h in Hosts(c.nodes))
    && Hosts(c.nodes) <= down + SetOf(hosts)
  }

  /** The control planes among the first nodes, as a list the code counts. */
  function Planes(nodes: seq<Node>): (r: seq<string>)
    ensures forall h :: h in r <==> Node(h, true) in nodes
  {
    if nodes == [] then []
    else
      var last := nodes[|nodes| - 1];
      assert nodes == nodes[..|nodes| - 1] + [last];
      Planes(nodes[..|nodes| - 1]) + if last.controlPlane then [last.host] else []
  }

  function Among(hosts: seq<string>, gone: set<string>): (r: seq<string>)
    ensures forall h :: h in r <==> h in hosts && h in gone
  {
    if hosts == [] then []
    else
      var last := hosts[|hosts| - 1];
      assert hosts == hosts[..|hosts| - 1] + [last];
      Among(hosts[..|hosts| - 1], gone) + if last in gone then [last] else []
  }

  /** A list without repeats is as long as the set of its entries is large. */
  lemma {:induction false} DistinctSize(hosts: seq<string>)
    requires NoRepeats(hosts)
    ensures |set h | h in hosts| == |hosts|
  {
    if hosts == [] {
      assert (set h | h in hosts) == {};
    } else {
      var init, last := hosts[..|hosts| - 1], hosts[|hosts| - 1];
      DistinctSize(init);
      assert hosts == init + [last];
      assert last !in init;
      assert (set h | h in hosts) == (set h | h in init) + {last};
    }
  }

  lemma {:induction false} PlanesDistinct(nodes: seq<Node>)
    requires forall i, j | 0 <= i < j < |nodes| :: nodes[i].host != nodes[j].host
    ensures NoRepeats(Planes(nodes))
  {
    if nodes != [] {
      var init, last := nodes[..|nodes| - 1], nodes[|nodes| - 1];
      PlanesDistinct(init);
      assert forall n | n in init :: n.host != last.host;
      assert last.host !in Planes(init);
    }
  }

  lemma {:induction false} AmongDistinct(hosts: seq<string>, gone: set<string>)
    requires NoRepeats(hosts)
    ensures NoRepeats(Among(hosts, gone))
  {
    if hosts != [] {
      var init, last := hosts[..|hosts| - 1], hosts[|hosts| - 1];
      AmongDistinct(init, gone);
      assert last !in init;
      assert last !in Among(init, gone);
    }
  }

  lemma PlanesAreAll(c: Cluster)
    ensures ControlPlanes(c) == set h | h in Planes(c.nodes)
  {
    forall h
      ensures h in ControlPlanes(c) <==> Node(h, true) in c.nodes
    {
      if h in ControlPlanes(c) {
        var n :| n in c.nodes && n.controlPlane && n.host == h;
        assert n == Node(h, true);
      }
    }
  }

  /** What the code counts on its lists is what there is. */
  lemma CountsAreSizes(c: Cluster, gone: set<string>)
    requires Wellformed(c)
    ensures |Planes(c.nodes)| == |ControlPlanes(c)|
    ensures |Among(Planes(c.nodes), gone)| == |ControlPlanes(c) * gone|
  {
    PlanesDistinct(c.nodes);
    DistinctSize(Planes(c.nodes));
    PlanesAreAll(c);
    AmongDistinct(Planes(c.nodes), gone);
    DistinctSize(Among(Planes(c.nodes), gone));
    assert ControlPlanes(c) * gone == set h | h in Among(Planes(c.nodes), gone);
  }

  method CheckShutdown(c: Cluster, hosts: seq<string>, down: set<string>) returns (v: Verdict)
    requires Wellformed(c)
    ensures v == Whole <==> WholeSelected(c, hosts, down)
    ensures v == Part <==> PartAllowed(c, hosts, down)
  {
    var known, gone := Select(c, hosts, down);
    if !known {
      return Refused;
    }
    var whole := IsWhole(c, gone);
    if whole {
      return Whole;
    }
    var endpointGone := EndpointTaken(c, gone, down);
    if endpointGone {
      return Refused;
    }
    var planes, planesDown, selectsPlane := CountPlanes(c, hosts, gone);
    DecideByCounts(c, hosts, down, gone, selectsPlane);
    if !selectsPlane {
      return Part;
    }
    v := if planesDown == planes || planes == 2 || planesDown > 1 then Refused else Part;
  }

  /** The counts decide: with a control plane selected, "not all, not two in all, at most one" is "one of three or more". */
  lemma DecideByCounts(c: Cluster, hosts: seq<string>, down: set<string>, gone: set<string>, selectsPlane: bool)
    requires Wellformed(c) && gone == down + SetOf(hosts) && (selectsPlane <==> Meet(Planes(c.nodes), hosts))
    ensures var planes, planesDown := |Planes(c.nodes)|, |Among(Planes(c.nodes), gone)|;
            (!selectsPlane || !(planesDown == planes || planes == 2 || planesDown > 1)) <==>
            (forall h | h in hosts :: h !in ControlPlanes(c)) || (|ControlPlanes(c)| >= 3 && |ControlPlanes(c) * gone| <= 1)
  {
    CountsAreSizes(c, gone);
    PlanesAreAll(c);
    if selectsPlane {
      var h :| h in Planes(c.nodes) && h in hosts;
      assert h in ControlPlanes(c) * gone;
    }
  }

  method Select(c: Cluster, hosts: seq<string>, down: set<string>) returns (known: bool, gone: set<string>)
    ensures known <==> forall h | h in hosts :: h in Hosts(c.nodes)
    ensures known ==> gone == down + SetOf(hosts)
  {
    gone := down;
    for i := 0 to |hosts|
      invariant gone == down + SetOf(hosts[..i])
      invariant forall j | 0 <= j < i :: hosts[j] in Hosts(c.nodes)
    {
      assert hosts[..i + 1] == hosts[..i] + [hosts[i]];
      if hosts[i] !in Hosts(c.nodes) {
        return false, gone;
      }
      gone := gone + {hosts[i]};
    }
    assert hosts[..|hosts|] == hosts;
    known := true;
  }

  method IsWhole(c: Cluster, gone: set<string>) returns (whole: bool)
    ensures whole <==> Hosts(c.nodes) <= gone
  {
    whole := true;
    for i := 0 to |c.nodes|
      invariant whole <==> forall j | 0 <= j < i :: c.nodes[j].host in gone
    {
      whole := whole && c.nodes[i].host in gone;
    }
  }

  method EndpointTaken(c: Cluster, gone: set<string>, down: set<string>) returns (taken: bool)
    ensures taken <==> exists h :: h in c.endpoint && h in gone && h !in down
  {
    taken := c.endpoint * gone - down != {};
    if taken {
      var h :| h in c.endpoint * gone - down;
      assert h in c.endpoint && h in gone && h !in down;
    } else {
      assert forall h :: h in c.endpoint && h in gone && h !in down ==> h in c.endpoint * gone - down;
    }
  }

  lemma PlanesStep(nodes: seq<Node>, i: nat, gone: set<string>)
    requires i < |nodes|
    ensures Planes(nodes[..i + 1]) == Planes(nodes[..i]) + if nodes[i].controlPlane then [nodes[i].host] else []
  {
    assert nodes[..i + 1][..i] == nodes[..i];
  }

  lemma AmongStep(hosts: seq<string>, host: string, gone: set<string>)
    ensures Among(hosts + [host], gone) == Among(hosts, gone) + if host in gone then [host] else []
  {
    assert (hosts + [host])[..|hosts|] == hosts;
  }

  ghost predicate Meet(a: seq<string>, b: seq<string>) { exists h :: h in a && h in b }

  lemma MeetStep(a: seq<string>, h: string, b: seq<string>)
    ensures Meet(a + [h], b) <==> Meet(a, b) || h in b
  {
    assert forall x :: x in a + [h] <==> x in a || x == h;
  }

  /** What the first `i` nodes amount to: the control planes, those of them gone, and whether one is selected. */
  ghost predicate Counted(nodes: seq<Node>, hosts: seq<string>, gone: set<string>, i: nat,
                          list: seq<string>, gones: seq<string>, selectsPlane: bool)
    requires i <= |nodes|
  {
    list == Planes(nodes[..i]) && gones == Among(list, gone) && (selectsPlane <==> Meet(list, hosts))
  }

  lemma CountedStep(nodes: seq<Node>, hosts: seq<string>, gone: set<string>, i: nat, list: seq<string>, gones: seq<string>, selectsPlane: bool)
    requires i < |nodes| && Counted(nodes, hosts, gone, i, list, gones, selectsPlane)
    ensures var h := nodes[i].host;
            if nodes[i].controlPlane
            then Counted(nodes, hosts, gone, i + 1, list + [h], gones + (if h in gone then [h] else []), selectsPlane || h in hosts)
            else Counted(nodes, hosts, gone, i + 1, list, gones, selectsPlane)
  {
    PlanesStep(nodes, i, gone);
    AmongStep(list, nodes[i].host, gone);
    MeetStep(list, nodes[i].host, hosts);
  }

  method CountPlanes(c: Cluster, hosts: seq<string>, gone: set<string>) returns (planes: nat, planesDown: nat, selectsPlane: bool)
    ensures planes == |Planes(c.nodes)| && planesDown == |Among(Planes(c.nodes), gone)|
    ensures selectsPlane <==> Meet(Planes(c.nodes), hosts)
  {
    var nodes, list, gones := c.nodes, [], [];
    selectsPlane := false;
    for i := 0 to |nodes|
      invariant Counted(nodes, hosts, gone, i, list, gones, selectsPlane)
    {
      CountedStep(nodes, hosts, gone, i, list, gones, selectsPlane);
      if nodes[i].controlPlane {
        var h := nodes[i].host;
        list, gones, selectsPlane := list + [h], gones + (if h in gone then [h] else []), selectsPlane || h in hosts;
      }
    }
    assert nodes[..|nodes|] == nodes;
    planes, planesDown := |list|, |gones|;
  }

  /** A partial shutdown never takes a control plane together with another one that is down. */
  lemma PartLeavesMajority(c: Cluster, hosts: seq<string>, down: set<string>)
    requires Wellformed(c) && PartAllowed(c, hosts, down) && exists h :: h in hosts && h in ControlPlanes(c)
    ensures var up := ControlPlanes(c) - down - SetOf(hosts); 2 * |up| > |ControlPlanes(c)|
  {
    var gone := down + SetOf(hosts);
    var cps := ControlPlanes(c);
    assert cps - down - SetOf(hosts) == cps - (cps * gone);
    assert |cps - (cps * gone)| == |cps| - |cps * gone|;
  }

  // ---- etcd ----

  datatype Member = Member(name: string, healthy: bool)

  /** No alarm, and every member started and healthy, and not just two of them. */
  method EtcdTolerance(members: seq<Member>, alarms: seq<string>) returns (ok: bool)
    ensures ok <==> alarms == [] && |members| != 2 && forall m | m in members :: m.name != "" && m.healthy
  {
    if alarms != [] || |members| == 2 {
      return false;
    }
    for i := 0 to |members|
      invariant forall j | 0 <= j < i :: members[j].name != "" && members[j].healthy
    {
      if members[i].name == "" || !members[i].healthy {
        assert members[i] in members;
        return false;
      }
    }
    ok := true;
  }
}
