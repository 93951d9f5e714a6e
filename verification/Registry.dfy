/**
 The machine registry. A machine is kept under its hardware address, or, while only its network address is known,
 in a ghost row under that address. Reports about machines come in any order; the registry keeps at most one machine
 at an address.
 */
module Registry {

  datatype Machine = Machine(mac: string, uuid: string, serial: string, ip: string, seen: seq<string>, cluster: string,
                             hostname: string, role: string, arch: string, state: string, hardware: string, talos: string,
                             lastSeen: string)

  type Rows = map<string, Machine>

  const MAINTENANCE := "maintenance"

  function GhostKey(ip: string): string { "ip:" + ip }

  predicate IsGhost(key: string) { |key| >= 3 && key[..3] == "ip:" }

  /** The machine at an address. */
  predicate Owns(ms: Rows, key: string, ip: string) { key in ms && ip != "" && ms[key].ip == ip }

  /** No two rows share an address, a ghost row holds its own address, and each row knows its key. */
  ghost predicate Sound(ms: Rows) {
    && (forall a, b | a in ms && b in ms && a != b && ms[a].ip != "" :: ms[a].ip != ms[b].ip)
    && (forall k | k in ms && IsGhost(k) :: k == GhostKey(ms[k].ip))
    && (forall k | k in ms :: ms[k].mac == k)
  }

  lemma GhostKeys(ip: string, other: string)
    ensures IsGhost(GhostKey(ip)) && (GhostKey(ip) == GhostKey(other) <==> ip == other)
  {
    assert GhostKey(ip)[3..] == ip && GhostKey(other)[3..] == other;
  }

  // ---- merging a report into a row ----

  function Pick(was: string, now: string): string { if now != "" then now else was }

  function SeenWith(prev: Machine, n: Machine): seq<string> {
    if prev.ip != "" && n.ip != "" && prev.ip != n.ip && prev.ip !in prev.seen then prev.seen + [prev.ip] else prev.seen
  }

  /** A report fills in what it knows and blanks nothing, except that a machine back in maintenance leaves its cluster. */
  function Merge(prev: Machine, n: Machine): Machine {
    var leaves := n.state == MAINTENANCE && n.cluster == "";
    Machine(prev.mac, Pick(prev.uuid, n.uuid), Pick(prev.serial, n.serial), Pick(prev.ip, n.ip), SeenWith(prev, n),
            if leaves then "" else Pick(prev.cluster, n.cluster),
            if leaves then "" else Pick(prev.hostname, n.hostname),
            if leaves then "" else Pick(prev.role, n.role),
            Pick(prev.arch, n.arch), Pick(prev.state, n.state), Pick(prev.hardware, n.hardware), Pick(prev.talos, n.talos),
            prev.lastSeen)
  }

  predicate Same(a: Machine, b: Machine) { a.(mac := b.mac, lastSeen := b.lastSeen) == b }

  // ---- one report ----

  /** The row a report is about: that of its hardware address, else the machine at its address, else a ghost row. */
  ghost predicate IsRowOf(ms: Rows, n: Machine, key: string) {
    if n.mac != "" then key == n.mac
    else if exists k :: Owns(ms, k, n.ip) then Owns(ms, key, n.ip)
    else key == GhostKey(n.ip)
  }

  /** A report with both addresses takes over the ghost row of its address. */
  predicate TakesOver(ms: Rows, n: Machine) { n.mac != "" && n.ip != "" && GhostKey(n.ip) in ms }

  function RowAfter(ms: Rows, n: Machine, key: string, now: string): Machine {
    var row := if key in ms then Merge(ms[key], n) else if TakesOver(ms, n) then Merge(ms[GhostKey(n.ip)], n) else n;
    row.(mac := key, lastSeen := now)
  }

  function Reported(ms: Rows, n: Machine, key: string, now: string): Rows {
    map k | k in ms.Keys + {key} && !(TakesOver(ms, n) && k == GhostKey(n.ip)) ::
      if k == key then RowAfter(ms, n, key, now)
      else if n.ip != "" && ms[k].ip == n.ip then ms[k].(ip := "")
      else ms[k]
  }

  /** What a report may not claim to be: a hardware address never looks like the key of a ghost row. */
  predicate Proper(n: Machine) { !IsGhost(n.mac) }

  lemma RowAddress(ms: Rows, n: Machine, key: string, now: string)
    requires Sound(ms) && Proper(n) && IsRowOf(ms, n, key)
    ensures RowAfter(ms, n, key, now).ip == if n.ip != "" then n.ip else if key in ms then ms[key].ip else ""
  {
  }

  /** The ghost of the reported address is gone, or is the reported row itself; no other ghost has that address. */
  lemma GhostsApart(ms: Rows, n: Machine, key: string, k: string)
    requires Sound(ms) && Proper(n) && IsRowOf(ms, n, key)
    requires k in ms && k != key && IsGhost(k) && !(TakesOver(ms, n) && k == GhostKey(n.ip))
    ensures n.ip != "" ==> ms[k].ip != n.ip
  {
    if n.ip != "" && ms[k].ip == n.ip {
      assert Owns(ms, k, n.ip);
    }
  }

  lemma KeyIsGhost(ms: Rows, n: Machine, key: string, now: string)
    requires Sound(ms) && Proper(n) && IsRowOf(ms, n, key) && IsGhost(key)
    ensures key == GhostKey(RowAfter(ms, n, key, now).ip)
  {
    RowAddress(ms, n, key, now);
    if n.ip == "" {
      assert key == GhostKey("");
      if key in ms {
        GhostKeys("", ms[key].ip);
      }
    } else if exists k :: Owns(ms, k, n.ip) {
      assert Owns(ms, key, n.ip);
    }
  }

  /**
   Who is at which address changes at one point only: the reported machine is at the reported address and no longer
   at the one before; everyone else is where they were.
   */
  lemma AddressPointUpdate(ms: Rows, n: Machine, key: string, now: string, k: string, ip: string)
    requires Sound(ms) && Proper(n) && IsRowOf(ms, n, key) && ip != ""
    ensures Owns(Reported(ms, n, key, now), k, ip) <==>
            if ip == n.ip then k == key else Owns(ms, k, ip) && (k == key ==> n.ip == "")
  {
    RowAddress(ms, n, key, now);
    if TakesOver(ms, n) {
      GhostKeys(n.ip, ip);
    }
  }

  lemma GhostsHold(ms: Rows, n: Machine, key: string, now: string, k: string)
    requires Sound(ms) && Proper(n) && IsRowOf(ms, n, key) && k in Reported(ms, n, key, now)
    ensures IsGhost(k) ==> k == GhostKey(Reported(ms, n, key, now)[k].ip)
    ensures Reported(ms, n, key, now)[k].mac == k
  {
    if IsGhost(k) && k == key {
      KeyIsGhost(ms, n, key, now);
    } else if IsGhost(k) {
      GhostsApart(ms, n, key, k);
    }
  }

  /** Every report keeps the registry sound. */
  lemma ReportKeepsSound(ms: Rows, n: Machine, key: string, now: string)
    requires Sound(ms) && Proper(n) && IsRowOf(ms, n, key)
    ensures Sound(Reported(ms, n, key, now))
  {
    var after := Reported(ms, n, key, now);
    forall a, b | a in after && b in after && a != b && after[a].ip != ""
      ensures after[a].ip != after[b].ip
    {
      var ip := after[a].ip;
      AddressPointUpdate(ms, n, key, now, a, ip);
      AddressPointUpdate(ms, n, key, now, b, ip);
      assert Owns(after, a, ip);
      assert Owns(ms, a, ip) && Owns(ms, b, ip) ==> a == b;
    }
    forall k | k in after
      ensures (IsGhost(k) ==> k == GhostKey(after[k].ip)) && after[k].mac == k
    {
      GhostsHold(ms, n, key, now, k);
    }
  }

  /** No machine known by its hardware address is ever dropped, and the other rows keep everything but a lost address. */
  lemma RowsKept(ms: Rows, n: Machine, key: string, now: string, k: string)
    requires Sound(ms) && Proper(n) && IsRowOf(ms, n, key) && k in ms
    ensures !IsGhost(k) ==> k in Reported(ms, n, key, now)
    ensures k !in Reported(ms, n, key, now) ==> k == GhostKey(n.ip) && n.mac != "" && key in Reported(ms, n, key, now)
    ensures k != key && k in Reported(ms, n, key, now) ==> Reported(ms, n, key, now)[k].(ip := ms[k].ip) == ms[k]
  {
    GhostKeys(n.ip, n.ip);
  }

  predicate Remembers(m: Machine, ip: string) { ip == m.ip || ip in m.seen }

  /**
   A row forgets an address it had exactly when another machine reports that address and the row had not moved on
   from it earlier: a move is written down, a loss is not.
   */
  lemma ForgetsOnlyLostAddress(ms: Rows, n: Machine, key: string, now: string, k: string, ip: string)
    requires Sound(ms) && Proper(n) && IsRowOf(ms, n, key) && ip != ""
    requires k in ms && k in Reported(ms, n, key, now) && Remembers(ms[k], ip)
    ensures !Remembers(Reported(ms, n, key, now)[k], ip) <==> k != key && ip == n.ip && ip !in ms[k].seen
  {
    RowAddress(ms, n, key, now);
    if k == key {
      assert ip in ms[k].seen ==> ip in SeenWith(ms[k], n);
    }
  }

  // ---- all histories ----

  /** One operation on the row of a key; a report names the row it went to. */
  datatype Op =
    | Report(n: Machine, now: string, key: string)
    | Touched(key: string, now: string)
    | StateSet(key: string, state: string)
    | Unassigned(key: string, state: string)

  ghost predicate Step(before: Rows, op: Op, after: Rows) {
    match op
    case Report(n, now, key) => Proper(n) && IsRowOf(before, n, key) && after == Reported(before, n, key, now)
    case Touched(key, now) => key in before && after == before[key := before[key].(lastSeen := now)]
    case StateSet(key, state) => key in before && after == before[key := before[key].(state := state)]
    case Unassigned(key, state) =>
      key in before && after == before[key := before[key].(cluster := "", hostname := "", role := "", state := state)]
  }

  /** The states of a registry from its start, one operation after the other. */
  ghost predicate History(states: seq<Rows>, ops: seq<Op>) {
    && |states| == |ops| + 1 && states[0] == map[]
    && forall i | 0 <= i < |ops| :: Step(states[i], ops[i], states[i + 1])
  }

  lemma StepKeepsSound(before: Rows, op: Op, after: Rows)
    requires Sound(before) && Step(before, op, after)
    ensures Sound(after)
    ensures forall k | k in before && !IsGhost(k) :: k in after
  {
    if op.Report? {
      ReportKeepsSound(before, op.n, op.key, op.now);
      forall k | k in before && !IsGhost(k)
        ensures k in after
      {
        RowsKept(before, op.n, op.key, op.now, k);
      }
    }
  }

  /** In every reachable state the registry is sound, so that at most one machine is at an address. */
  lemma {:induction false} AlwaysSound(states: seq<Rows>, ops: seq<Op>, i: nat)
    requires History(states, ops) && i < |states|
    ensures Sound(states[i])
    ensures forall a, b, ip :: Owns(states[i], a, ip) && Owns(states[i], b, ip) ==> a == b
  {
    if i > 0 {
      AlwaysSound(states, ops, i - 1);
      StepKeepsSound(states[i - 1], ops[i - 1], states[i]);
    }
  }

  /** A machine once known by its hardware address is known for ever. */
  lemma {:induction false} NeverDropped(states: seq<Rows>, ops: seq<Op>, i: nat, j: nat, key: string)
    requires History(states, ops) && i <= j < |states| && key in states[i] && !IsGhost(key)
    ensures key in states[j]
    decreases j
  {
    if i < j {
      NeverDropped(states, ops, i, j - 1, key);
      AlwaysSound(states, ops, j - 1);
      StepKeepsSound(states[j - 1], ops[j - 1], states[j]);
    }
  }

  // ---- the registry in place ----

  predicate At(ms: Rows, key: string, ip: string) { key in ms && ms[key].ip == ip }

  function Displaced(ms: Rows, key: string, ip: string): Rows {
    map k | k in ms :: if k != key && ms[k].ip == ip then ms[k].(ip := "") else ms[k]
  }

  ghost predicate PartlyDisplaced(ms: Rows, key: string, ip: string, todo: set<string>, now: Rows, changed: seq<string>) {
    && todo <= ms.Keys && now.Keys == ms.Keys
    && (forall k :: k in changed <==> k !in todo && k != key && At(ms, k, ip))
    && forall k | k in ms :: now[k] == if k !in todo && k != key && ms[k].ip == ip then ms[k].(ip := "") else ms[k]
  }

  lemma DisplaceOne(ms: Rows, key: string, ip: string, todo: set<string>, now: Rows, changed: seq<string>, k: string)
    requires PartlyDisplaced(ms, key, ip, todo, now, changed) && k in todo
    ensures now[k] == ms[k]
    ensures if k != key && ms[k].ip == ip
            then PartlyDisplaced(ms, key, ip, todo - {k}, now[k := now[k].(ip := "")], changed + [k])
            else PartlyDisplaced(ms, key, ip, todo - {k}, now, changed)
  {
  }

  lemma AllDisplaced(ms: Rows, key: string, ip: string, now: Rows, changed: seq<string>)
    requires PartlyDisplaced(ms, key, ip, {}, now, changed)
    ensures now == Displaced(ms, key, ip)
    ensures forall k :: k in changed <==> k != key && At(ms, k, ip)
  {
  }

  /** The keys of the displaced rows, and of the reported row if it is news, name every changed row. */
  lemma ToldAll(ms: Rows, n: Machine, key: string, now: string, displaced: seq<string>, more: seq<string>)
    requires Sound(ms) && Proper(n) && IsRowOf(ms, n, key)
    requires n.ip != "" ==> forall k | k != key && At(ms, k, n.ip) && !(TakesOver(ms, n) && k == GhostKey(n.ip)) :: k in displaced
    requires forall k | k in displaced :: k in more
    requires key in more || (if key in ms then Same(ms[key], RowAfter(ms, n, key, now)) else TakesOver(ms, n))
    requires TakesOver(ms, n) ==> "" in more
    ensures Tells(ms, Reported(ms, n, key, now), more)
  {
  }

  /** Every changed row is named, and a missing one by the notice for the whole table. */
  ghost predicate Tells(before: Rows, after: Rows, more: seq<string>) {
    && (forall k | k in after && k in before && before[k].(lastSeen := after[k].lastSeen) != after[k] :: k in more)
    && (forall k | k in after && k !in before :: k in more || "" in more)
    && (forall k | k in before && k !in after :: "" in more)
  }

  /** Nothing else is named: no other row, and the reported one only if it is new, changed, or has not been seen for a while. */
  ghost predicate TellsOnly(before: Rows, n: Machine, key: string, after: Rows, recent: bool, more: seq<string>) {
    && (forall k | k in more ::
          k == key || (k == "" && TakesOver(before, n)) || (k != key && n.ip != "" && At(before, k, n.ip)))
    && (recent && key in more && key in before ==> key in after && before[key].(lastSeen := after[key].lastSeen) != after[key])
  }

  lemma ToldOnly(ms: Rows, n: Machine, key: string, now: string, recent: bool, displaced: seq<string>, more: seq<string>)
    requires Sound(ms) && Proper(n) && IsRowOf(ms, n, key)
    requires forall k | k in displaced :: k != key && n.ip != "" && At(ms, k, n.ip)
    requires forall k | k in more :: k in displaced || k == key || (k == "" && TakesOver(ms, n))
    requires recent && key in ms && Same(ms[key], RowAfter(ms, n, key, now)) ==> key !in more
    ensures TellsOnly(ms, n, key, Reported(ms, n, key, now), recent, more)
  {
  }

  /** Taking over, displacing and merging make the report. */
  lemma ReportInSteps(ms: Rows, n: Machine, key: string, now: string)
    requires Sound(ms) && Proper(n) && IsRowOf(ms, n, key)
    ensures var left := if TakesOver(ms, n) then ms - {GhostKey(n.ip)} else ms;
            Reported(ms, n, key, now) == (if n.ip != "" then Displaced(left, key, n.ip) else left)[key := RowAfter(ms, n, key, now)]
    ensures TakesOver(ms, n) ==> key != GhostKey(n.ip)
  {
    GhostKeys(n.ip, n.ip);
  }

  class Store {
    var machines: Rows
    /** The keys reported as changed, in order; the empty key stands for the whole table. */
    var notices: seq<string>

    constructor ()
      ensures machines == map[] && notices == [] && Sound(machines)
    {
      machines, notices := map[], [];
    }

    /** The ghost row of the address, else the first row found there; the rows come in no particular order. */
    method KeyByIp(ip: string) returns (key: string, ok: bool)
      requires Sound(machines)
      ensures ok <==> exists k :: At(machines, k, ip)
      ensures ok ==> At(machines, key, ip)
    {
      if GhostKey(ip) in machines {
        GhostKeys(ip, ip);
        GhostKeys(ip, machines[GhostKey(ip)].ip);
        assert At(machines, GhostKey(ip), ip);
        return GhostKey(ip), true;
      }
      var todo := machines.Keys;
      while todo != {}
        invariant todo <= machines.Keys
        invariant forall k | k in machines && k !in todo :: machines[k].ip != ip
        decreases |todo|
      {
        var k :| k in todo;
        if machines[k].ip == ip {
          assert At(machines, k, ip);
          return k, true;
        }
        todo := todo - {k};
      }
      key, ok := "", false;
    }

    /** Finds a machine at the address; a real address has only one, so the order of the rows does not matter. */
    method GetNode(ip: string) returns (found: bool, m: Machine)
      requires Sound(machines)
      ensures found <==> exists k :: At(machines, k, ip)
      ensures found ==> exists k :: At(machines, k, ip) && m == machines[k]
      ensures found && ip != "" ==> forall k | At(machines, k, ip) :: m == machines[k]
    {
      var key, ok := KeyByIp(ip);
      found := ok;
      if ok {
        m := machines[key];
      } else {
        m := Machine("", "", "", "", [], "", "", "", "", "", "", "", "");
      }
    }

    /** Takes the address away from every row but one. */
    method Displace(key: string, ip: string) returns (changed: seq<string>)
      requires ip != ""
      modifies `machines
      ensures machines == Displaced(old(machines), key, ip)
      ensures forall k :: k in changed <==> k != key && At(old(machines), k, ip)
    {
      changed := [];
      var todo := machines.Keys;
      while todo != {}
        invariant PartlyDisplaced(old(machines), key, ip, todo, machines, changed)
        decreases |todo|
      {
        var k :| k in todo;
        DisplaceOne(old(machines), key, ip, todo, machines, changed, k);
        todo := todo - {k};
        if k != key && machines[k].ip == ip {
          machines := machines[k := machines[k].(ip := "")];
          changed := changed + [k];
        }
      }
      AllDisplaced(old(machines), key, ip, machines, changed);
    }

    /** Removes the ghost row a report takes over, and tells which row the report is to be merged into, if any. */
    method TakeOver(n: Machine, key: string) returns (prev: Machine, had: bool, removed: bool)
      requires Proper(n) && IsRowOf(machines, n, key)
      modifies `machines
      ensures removed <==> TakesOver(old(machines), n)
      ensures machines == if removed then old(machines) - {GhostKey(n.ip)} else old(machines)
      ensures had <==> key in old(machines) || removed
      ensures had ==> prev == if key in old(machines) then old(machines)[key] else old(machines)[GhostKey(n.ip)]
    {
      removed := GhostKey(n.ip) in machines && n.mac != "" && n.ip != "";
      had := key in machines;
      prev := if had then machines[key] else n;
      if removed {
        if !had {
          prev, had := machines[GhostKey(n.ip)], true;
        }
        machines := machines - {GhostKey(n.ip)};
      }
    }

    /** The row a report is about. */
    method Choose(n: Machine) returns (key: string)
      requires Sound(machines)
      ensures IsRowOf(machines, n, key)
    {
      key := if n.mac != "" then n.mac else GhostKey(n.ip);
      if n.mac == "" && n.ip != "" {
        var k, ok := KeyByIp(n.ip);
        if ok {
          key := k;
          assert Owns(machines, key, n.ip);
        } else {
          assert forall k :: Owns(machines, k, n.ip) ==> At(machines, k, n.ip);
        }
      }
    }

    /**
     Merges a report; `recent` tells whether the row was last seen a moment ago, in which case being seen is no news.
     Every row whose content changes is notified, a dropped one by a notice for the whole table.
     */
    method UpsertNode(n: Machine, now: string, recent: bool) returns (key: string, more: seq<string>)
      requires Sound(machines) && Proper(n)
      modifies this
      ensures IsRowOf(old(machines), n, key) && machines == Reported(old(machines), n, key, now) && Sound(machines)
      ensures Step(old(machines), Report(n, now, key), machines)
      ensures notices == old(notices) + more && Tells(old(machines), machines, more)
      ensures TellsOnly(old(machines), n, key, machines, recent, more)
    {
      key := Choose(n);
      ghost var before := machines;
      var known, displaced, removed := Record(n, key, now);
      var changed := displaced;
      if !known || !recent {
        changed := changed + [key];
      }
      more := changed + if removed then [""] else [];
      ReportKeepsSound(before, n, key, now);
      ToldAll(before, n, key, now, displaced, more);
      ToldOnly(before, n, key, now, recent, displaced, more);
      notices := notices + more;
    }

    /** Writes the report down; `known` tells whether there was a row that said the same already. */
    method Record(n: Machine, key: string, now: string) returns (known: bool, displaced: seq<string>, removed: bool)
      requires Sound(machines) && Proper(n) && IsRowOf(machines, n, key)
      modifies `machines
      ensures machines == Reported(old(machines), n, key, now) && (removed <==> TakesOver(old(machines), n))
      ensures forall k | k in displaced :: k != key && n.ip != "" && At(old(machines), k, n.ip)
      ensures n.ip != "" ==>
                forall k | k != key && At(old(machines), k, n.ip) && !(TakesOver(old(machines), n) && k == GhostKey(n.ip)) :: k in displaced
      ensures known ==> if key in old(machines) then Same(old(machines)[key], RowAfter(old(machines), n, key, now)) else removed
      ensures key in old(machines) && Same(old(machines)[key], RowAfter(old(machines), n, key, now)) ==> known
    {
      ghost var before := machines;
      var prev, had;
      prev, had, removed := TakeOver(n, key);
      displaced := [];
      if n.ip != "" {
        displaced := Displace(key, n.ip);
      }
      var next := (if had then Merge(prev, n) else n).(mac := key, lastSeen := now);
      machines := machines[key := next];
      known := had && Same(prev, next);
      ReportInSteps(before, n, key, now);
    }

    method Touch(key: string, now: string, recent: bool)
      requires Sound(machines)
      modifies this
      ensures machines == if key in old(machines) then old(machines)[key := old(machines)[key].(lastSeen := now)] else old(machines)
      ensures key in old(machines) ==> Step(old(machines), Touched(key, now), machines)
      ensures Sound(machines) && notices == old(notices) + if key in old(machines) && !recent then [key] else []
    {
      if key in machines {
        machines := machines[key := machines[key].(lastSeen := now)];
        if !recent {
          notices := notices + [key];
        }
      }
    }

    /** Changes the machine at an address; nothing happens when none is there. */
    method SetNodeState(ip: string, state: string) returns (key: string, ok: bool)
      requires Sound(machines)
      modifies this
      ensures ok <==> exists k :: At(old(machines), k, ip)
      ensures if ok then At(old(machines), key, ip) && Step(old(machines), StateSet(key, state), machines) else machines == old(machines)
      ensures Sound(machines) && notices == old(notices) + if ok then [key] else []
    {
      key, ok := KeyByIp(ip);
      if ok {
        machines := machines[key := machines[key].(state := state)];
        notices := notices + [key];
      }
    }

    /** Takes a machine out of its cluster, by hardware address if it is known by that, else by where it is. */
    method UnassignMachine(mac: string, ip: string, state: string) returns (key: string, ok: bool)
      requires Sound(machines)
      modifies this
      ensures ok <==> (mac != "" && mac in old(machines)) || exists k :: At(old(machines), k, ip)
      ensures ok ==> key in old(machines) && if mac != "" && mac in old(machines) then key == mac else At(old(machines), key, ip)
      ensures if ok then Step(old(machines), Unassigned(key, state), machines) else machines == old(machines)
      ensures Sound(machines) && notices == old(notices) + if ok then [key] else []
    {
      if mac != "" && mac in machines {
        key, ok := mac, true;
      } else {
        key, ok := KeyByIp(ip);
      }
      if ok {
        machines := machines[key := machines[key].(cluster := "", hostname := "", role := "", state := state)];
        notices := notices + [key];
      }
    }
  }
}
