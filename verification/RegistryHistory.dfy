/**
 What a report does to the fields of a row, and what the whole history of reports and operations says about the cluster
 a machine is in.
 */
module RegistryHistory {
  import opened Registry

  // ---- one report ----

  /** There is a row for the report to fill in: the one it is about, or the ghost row it takes over. */
  predicate Known(ms: Rows, n: Machine, key: string) { key in ms || TakesOver(ms, n) }

  function RowBefore(ms: Rows, n: Machine, key: string): Machine
    requires Known(ms, n, key)
  {
    if key in ms then ms[key] else ms[GhostKey(n.ip)]
  }

  /** What is told replaces what was known, and silence leaves it. */
  predicate Learns(was: string, told: string, now: string) { (told != "" ==> now == told) && (told == "" ==> now == was) }

  /** The three fields that say where a machine belongs are emptied. */
  predicate Leaves(n: Machine) { n.state == "maintenance" && n.cluster == "" }

  /** Field by field, a report replaces what it tells and keeps the rest, but a machine back in maintenance leaves its cluster. */
  lemma ReportFills(ms: Rows, n: Machine, key: string, now: string)
    requires Sound(ms) && Proper(n) && IsRowOf(ms, n, key) && Known(ms, n, key)
    ensures key in Reported(ms, n, key, now)
    ensures var was, row := RowBefore(ms, n, key), Reported(ms, n, key, now)[key];
            && row.mac == key && row.lastSeen == now
            && Learns(was.uuid, n.uuid, row.uuid) && Learns(was.serial, n.serial, row.serial) && Learns(was.ip, n.ip, row.ip)
            && Learns(was.arch, n.arch, row.arch) && Learns(was.state, n.state, row.state)
            && Learns(was.hardware, n.hardware, row.hardware) && Learns(was.talos, n.talos, row.talos)
            && if Leaves(n) then row.cluster == "" && row.hostname == "" && row.role == ""
               else Learns(was.cluster, n.cluster, row.cluster) && Learns(was.hostname, n.hostname, row.hostname) && Learns(was.role, n.role, row.role)
  {
  }

  /** A machine heard of for the first time is as it was reported. */
  lemma FirstReport(ms: Rows, n: Machine, key: string, now: string)
    requires Sound(ms) && Proper(n) && IsRowOf(ms, n, key) && !Known(ms, n, key)
    ensures key in Reported(ms, n, key, now) && Reported(ms, n, key, now)[key] == n.(mac := key, lastSeen := now)
  {
  }

  /** The addresses a machine had: the one it moves away from joins them, once, and none is lost. */
  lemma AddressesSeen(ms: Rows, n: Machine, key: string, now: string, ip: string)
    requires Sound(ms) && Proper(n) && IsRowOf(ms, n, key) && Known(ms, n, key) && key in Reported(ms, n, key, now)
    ensures var was, row := RowBefore(ms, n, key), Reported(ms, n, key, now)[key];
            && (ip in row.seen <==> ip in was.seen || (ip == was.ip && ip != "" && row.ip != ip))
            && was.seen <= row.seen && |row.seen| <= |was.seen| + 1
  {
    RowAddress(ms, n, key, now);
    if TakesOver(ms, n) {
      GhostKeys(n.ip, ms[GhostKey(n.ip)].ip);
    }
  }

  /** No report empties a field, except that one in maintenance that names no cluster empties exactly the three. */
  lemma EmptiedOnlyOnLeaving(ms: Rows, n: Machine, key: string, now: string)
    requires Sound(ms) && Proper(n) && IsRowOf(ms, n, key) && Known(ms, n, key) && key in Reported(ms, n, key, now)
    ensures var was, row := RowBefore(ms, n, key), Reported(ms, n, key, now)[key];
            && (was.cluster != "" ==> (row.cluster == "" <==> Leaves(n)))
            && (was.hostname != "" ==> (row.hostname == "" <==> Leaves(n)))
            && (was.role != "" ==> (row.role == "" <==> Leaves(n)))
            && (was.uuid != "" ==> row.uuid != "") && (was.serial != "" ==> row.serial != "") && (was.ip != "" ==> row.ip != "")
            && (was.arch != "" ==> row.arch != "") && (was.state != "" ==> row.state != "")
            && (was.hardware != "" ==> row.hardware != "") && (was.talos != "" ==> row.talos != "")
  {
    ReportFills(ms, n, key, now);
  }

  // ---- the cluster a machine is in ----

  /** The key of the machine before an operation: a ghost row that is taken over gets the key of the hardware address. */
  function KeyBefore(ms: Rows, op: Op, key: string): string {
    if op.Report? && op.key == key && key !in ms && TakesOver(ms, op.n) then GhostKey(op.n.ip) else key
  }

  /** The key at state `j` of the machine that has `key` at state `i`. */
  function KeyAt(states: seq<Rows>, ops: seq<Op>, i: nat, key: string, j: nat): string
    requires |states| == |ops| + 1 && i < |states|
  {
    if j >= i then key else KeyAt(states, ops, i - 1, KeyBefore(states[i - 1], ops[i - 1], key), j)
  }

  /**
   The operation says which cluster the machine is in: a report that names one, or none in maintenance, or is the first
   to tell of the machine; and taking it out of its cluster.
   */
  predicate Decides(ms: Rows, op: Op, key: string) {
    match op
    case Report(n, _, k) => k == key && (n.cluster != "" || n.state == "maintenance" || !Known(ms, n, k))
    case Unassigned(k, _) => k == key
    case _ => false
  }

  function Named(op: Op): string { if op.Report? then op.n.cluster else "" }

  lemma OneStep(before: Rows, op: Op, after: Rows, key: string)
    requires Sound(before) && Step(before, op, after) && key in after
    ensures Decides(before, op, key) ==> after[key].cluster == Named(op)
    ensures !Decides(before, op, key) ==>
              KeyBefore(before, op, key) in before && after[key].cluster == before[KeyBefore(before, op, key)].cluster
  {
    if op.Report? && op.key == key {
      if Known(before, op.n, key) {
        ReportFills(before, op.n, key, op.now);
      } else {
        FirstReport(before, op.n, key, op.now);
      }
    }
  }

  /** The operation after state `j` is the last one, up to state `i`, that says which cluster the machine is in. */
  predicate LastWord(states: seq<Rows>, ops: seq<Op>, i: nat, key: string, j: nat)
    requires |states| == |ops| + 1 && i < |states|
  {
    && j < i && Decides(states[j], ops[j], KeyAt(states, ops, i, key, j + 1))
    && forall m | j < m < i :: !Decides(states[m], ops[m], KeyAt(states, ops, i, key, m + 1))
  }

  lemma EarlierWord(states: seq<Rows>, ops: seq<Op>, i: nat, key: string, j: nat)
    requires |states| == |ops| + 1 && 0 < i < |states| && !Decides(states[i - 1], ops[i - 1], key)
    requires LastWord(states, ops, i - 1, KeyBefore(states[i - 1], ops[i - 1], key), j)
    ensures LastWord(states, ops, i, key, j)
  {
  }

  lemma StepBefore(states: seq<Rows>, ops: seq<Op>, i: nat, key: string)
    requires History(states, ops) && i < |states| && key in states[i]
    ensures i > 0
    ensures Decides(states[i - 1], ops[i - 1], key) ==> states[i][key].cluster == Named(ops[i - 1])
    ensures !Decides(states[i - 1], ops[i - 1], key) ==>
              var k := KeyBefore(states[i - 1], ops[i - 1], key);
              k in states[i - 1] && states[i][key].cluster == states[i - 1][k].cluster
  {
    assert i > 0;
    AlwaysSound(states, ops, i - 1);
    assert Step(states[i - 1], ops[i - 1], states[i]);
    OneStep(states[i - 1], ops[i - 1], states[i], key);
  }

  /** In every history a machine is in the cluster the latest operation that says so names; there always is one. */
  lemma {:induction false} ClusterIsLatest(states: seq<Rows>, ops: seq<Op>, i: nat, key: string) returns (j: nat)
    requires History(states, ops) && i < |states| && key in states[i]
    ensures LastWord(states, ops, i, key, j) && states[i][key].cluster == Named(ops[j])
    decreases i
  {
    StepBefore(states, ops, i, key);
    if Decides(states[i - 1], ops[i - 1], key) {
      j := i - 1;
    } else {
      var k := KeyBefore(states[i - 1], ops[i - 1], key);
      j := ClusterIsLatest(states, ops, i - 1, k);
      EarlierWord(states, ops, i, key, j);
    }
  }
}
