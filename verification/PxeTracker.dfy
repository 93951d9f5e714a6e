/**
 Machines booting over the network, as the boot server sees them: by hardware address from DHCP and by network address
 from HTTP. Two maps tie the two together; old machines are forgotten so that the table stays bounded.
 */
module PxeTracker {

  datatype Boot = Boot(mac: string, ip: string, arch: string, firstSeen: int, lastSeen: int, stage: string, class_: string, count: nat)

  const MAX_BOOTS := 512
  const SECOND := 1_000_000_000
  const MINUTE := 60 * SECOND
  const BOOT_TTL := 24 * 60 * MINUTE

  type Boots = map<string, Boot>
  type Addresses = map<string, string>

  function UnknownAt(ip: string): string { "unknown@" + ip }

  /** A hardware address as DHCP gives it: not empty, and not the name of a machine known by its network address only. */
  predicate Hardware(mac: string) { mac != "" && (|mac| < 8 || mac[..8] != "unknown@") }

  lemma NotUnknown(mac: string, ip: string)
    requires Hardware(mac)
    ensures mac != UnknownAt(ip)
  {
    assert UnknownAt(ip)[..8] == "unknown@";
  }

  /** The table and the address map are inverse to each other on the machines that have an address. */
  ghost predicate Inverse(boots: Boots, byIp: Addresses) {
    && (forall ip | ip in byIp :: ip != "" && byIp[ip] in boots && boots[byIp[ip]].ip == ip)
    && (forall m | m in boots && boots[m].ip != "" :: boots[m].ip in byIp && byIp[boots[m].ip] == m)
  }

  /** Rows know their key; the one for an unknown machine has the address it is named after; no row has the empty key. */
  ghost predicate Rows(boots: Boots) {
    && (forall m | m in boots :: boots[m].mac == m && m != "")
    && (forall ip | UnknownAt(ip) in boots :: boots[UnknownAt(ip)].ip == ip && ip != "")
  }

  ghost predicate Sound(boots: Boots, byIp: Addresses) { Inverse(boots, byIp) && Rows(boots) && |boots| <= MAX_BOOTS }

  /** What is left when some machines are forgotten together with their addresses. */
  ghost predicate Forgotten(boots: Boots, byIp: Addresses, left: Boots, leftIp: Addresses) {
    && left.Keys <= boots.Keys && (forall m | m in left :: left[m] == boots[m])
    && (forall ip :: ip in leftIp <==> ip in byIp && byIp[ip] in left)
    && (forall ip | ip in leftIp :: leftIp[ip] == byIp[ip])
  }

  lemma ForgottenSound(boots: Boots, byIp: Addresses, left: Boots, leftIp: Addresses)
    requires Inverse(boots, byIp) && Rows(boots) && Forgotten(boots, byIp, left, leftIp)
    ensures Inverse(left, leftIp) && Rows(left)
  {
  }

  lemma ForgetOne(boots: Boots, byIp: Addresses, left: Boots, leftIp: Addresses, mac: string)
    requires Inverse(boots, byIp) && Rows(boots) && Forgotten(boots, byIp, left, leftIp) && mac in left
    ensures left[mac].ip != "" ==> left[mac].ip in leftIp && leftIp[left[mac].ip] == mac
    ensures Forgotten(boots, byIp, left - {mac}, if left[mac].ip != "" then leftIp - {left[mac].ip} else leftIp)
  {
  }

  lemma UpdateTwice(boots: Boots, mac: string, a: Boot, b: Boot)
    ensures boots[mac := a][mac := b] == boots[mac := b]
  {
  }

  /** Not heard of for a minute: the next request starts over. */
  predicate Stale(boots: Boots, mac: string, now: int)
    requires mac in boots
  {
    now - boots[mac].lastSeen > MINUTE
  }

  function Entered(boots: Boots, mac: string, now: int): Boot {
    if mac in boots && !Stale(boots, mac, now) then boots[mac] else Boot(mac, "", "", now, now, "", "", 0)
  }

  function Asked(b: Boot, arch: string, now: int): Boot {
    b.(lastSeen := now, count := b.count + 1,
       stage := if b.stage == "" || b.stage == "nopxe" then "dhcp" else b.stage,
       arch := if arch != "" then arch else b.arch)
  }

  function Noted(b: Boot, kind: string, now: int): Boot { b.(lastSeen := now, count := b.count + 1, class_ := kind) }

  /**
   Who stays when room is made: nobody not seen for a day, everybody else if they are few enough, and if not the ones
   seen last, no fewer than there is room for.
   */
  ghost predicate Spared(boots: Boots, left: Boots, now: int, room: nat) {
    && (forall m | m in left :: now - left[m].lastSeen <= BOOT_TTL)
    && forall m | m in boots && m !in left && now - boots[m].lastSeen <= BOOT_TTL ::
         |left| >= room && forall k | k in left :: boots[m].lastSeen <= left[k].lastSeen
  }

  /** What a new machine leaves of the others: all of them, or when the table is full those that making room spares. */
  ghost predicate MadeRoom(boots: Boots, byIp: Addresses, left: Boots, leftIp: Addresses, now: int) {
    && Forgotten(boots, byIp, left, leftIp)
    && if |boots| < MAX_BOOTS then left == boots else |left| < MAX_BOOTS && Spared(boots, left, now, MAX_BOOTS - 1)
  }

  lemma SpareOne(boots: Boots, left: Boots, now: int, mac: string)
    requires Spared(boots, left, now, MAX_BOOTS - 1) && |left| >= MAX_BOOTS && mac in left
    requires forall k | k in left :: left[mac].lastSeen <= left[k].lastSeen && k in boots && left[k] == boots[k]
    ensures Spared(boots, left - {mac}, now, MAX_BOOTS - 1) && |left - {mac}| == |left| - 1
  {
    var rest := left - {mac};
    assert rest.Keys == left.Keys - {mac};
    assert |rest.Keys| == |rest| && |left.Keys| == |left|;
  }

  /** The machines looked at so far have been forgotten or not, as is due. */
  ghost predicate PartlyExpired(boots: Boots, byIp: Addresses, left: Boots, leftIp: Addresses, todo: set<string>, now: int) {
    && Forgotten(boots, byIp, left, leftIp) && todo <= left.Keys
    && forall m | m in boots && m !in todo :: m in left <==> now - boots[m].lastSeen <= BOOT_TTL
  }

  lemma ExpireOne(boots: Boots, byIp: Addresses, left: Boots, leftIp: Addresses, todo: set<string>, now: int, mac: string)
    requires Inverse(boots, byIp) && Rows(boots) && PartlyExpired(boots, byIp, left, leftIp, todo, now) && mac in todo
    ensures left[mac].ip != "" ==> left[mac].ip in leftIp && leftIp[left[mac].ip] == mac
    ensures now - left[mac].lastSeen > BOOT_TTL ==>
              PartlyExpired(boots, byIp, left - {mac}, if left[mac].ip != "" then leftIp - {left[mac].ip} else leftIp, todo - {mac}, now)
    ensures now - left[mac].lastSeen <= BOOT_TTL ==> PartlyExpired(boots, byIp, left, leftIp, todo - {mac}, now)
  {
    ForgetOne(boots, byIp, left, leftIp, mac);
  }

  class Tracker {
    var boots: Boots
    var byIp: Addresses

    constructor ()
      ensures boots == map[] && byIp == map[] && Sound(boots, byIp)
    {
      boots, byIp := map[], map[];
    }

    method Drop(mac: string)
      requires Inverse(boots, byIp) && mac in boots
      modifies this
      ensures boots == old(boots) - {mac}
      ensures byIp == if old(boots)[mac].ip != "" then old(byIp) - {old(boots)[mac].ip} else old(byIp)
    {
      var b := boots[mac];
      boots := boots - {mac};
      if b.ip != "" && b.ip in byIp && byIp[b.ip] == mac {
        byIp := byIp - {b.ip};
      }
    }

    /** Forgets the machines not seen for a day. */
    method Expire(now: int)
      requires Inverse(boots, byIp) && Rows(boots)
      modifies this
      ensures Forgotten(old(boots), old(byIp), boots, byIp)
      ensures forall m | m in old(boots) :: m in boots <==> now - old(boots)[m].lastSeen <= BOOT_TTL
    {
      var todo := boots.Keys;
      while todo != {}
        invariant PartlyExpired(old(boots), old(byIp), boots, byIp, todo, now)
        decreases |todo|
      {
        var m :| m in todo;
        ForgottenSound(old(boots), old(byIp), boots, byIp);
        ExpireOne(old(boots), old(byIp), boots, byIp, todo, now, m);
        todo := todo - {m};
        if now - boots[m].lastSeen > BOOT_TTL {
          Drop(m);
        }
      }
    }

    method Oldest() returns (oldest: string)
      requires boots != map[]
      ensures oldest in boots && forall m | m in boots :: boots[oldest].lastSeen <= boots[m].lastSeen
    {
      var todo := boots.Keys;
      oldest :| oldest in todo;
      todo := todo - {oldest};
      while todo != {}
        invariant todo <= boots.Keys && oldest in boots
        invariant forall m | m in boots && m !in todo :: boots[oldest].lastSeen <= boots[m].lastSeen
        decreases |todo|
      {
        var m :| m in todo;
        if boots[m].lastSeen < boots[oldest].lastSeen {
          oldest := m;
        }
        todo := todo - {m};
      }
    }

    /**
     Makes room for one more machine: those not seen for a day go, and if that is not enough the ones seen least
     recently, and no more of them than needed.
     */
    method Prune(now: int)
      requires Inverse(boots, byIp) && Rows(boots)
      modifies this
      ensures Forgotten(old(boots), old(byIp), boots, byIp) && |boots| < MAX_BOOTS
      ensures Spared(old(boots), boots, now, MAX_BOOTS - 1)
    {
      Expire(now);
      while |boots| >= MAX_BOOTS
        invariant Forgotten(old(boots), old(byIp), boots, byIp)
        invariant Spared(old(boots), boots, now, MAX_BOOTS - 1)
        decreases |boots|
      {
        var m := Oldest();
        ForgottenSound(old(boots), old(byIp), boots, byIp);
        ForgetOne(old(boots), old(byIp), boots, byIp, m);
        SpareOne(old(boots), boots, now, m);
        Drop(m);
      }
    }

    /** A new row, after making room for it if the table is full; `left` is what is left of the others. */
    method Add(b: Boot, now: int) returns (ghost left: Boots)
      requires Sound(boots, byIp) && b.mac !in boots
      modifies this
      ensures b.mac !in left && boots == left[b.mac := b] && |left| < MAX_BOOTS
      ensures MadeRoom(old(boots), old(byIp), left, byIp, now)
    {
      if |boots| >= MAX_BOOTS {
        Prune(now);
      }
      left := boots;
      boots := boots[b.mac := b];
    }

    /** Replaces a row by one with the same key and address. */
    method Put(mac: string, b: Boot)
      requires Sound(boots, byIp) && mac in boots && b.mac == mac && b.ip == boots[mac].ip
      modifies `boots
      ensures boots == old(boots)[mac := b] && Sound(boots, byIp)
    {
      PutSound(boots, byIp, mac, b);
      boots := boots[mac := b];
    }

    /** A new row without an address. */
    method AddNew(mac: string, stage: string, now: int) returns (b: Boot, ghost left: Boots)
      requires Sound(boots, byIp) && Hardware(mac) && mac !in boots
      modifies this
      ensures Sound(boots, byIp) && b == Boot(mac, "", "", now, now, stage, "", 0)
      ensures mac !in left && boots == left[mac := b] && MadeRoom(old(boots), old(byIp), left, byIp, now)
    {
      b := Boot(mac, "", "", now, now, stage, "", 0);
      left := Add(b, now);
      ForgottenSound(old(boots), old(byIp), left, byIp);
      NewSound(left, byIp, b);
    }

    /** The row of a machine that starts over: it loses its address and its history. */
    method Restart(mac: string, now: int) returns (b: Boot)
      requires Sound(boots, byIp) && Hardware(mac) && mac in boots
      modifies this
      ensures Sound(boots, byIp) && b == Boot(mac, "", "", now, now, "", "", 0)
      ensures boots == old(boots)[mac := b] && byIp == old(byIp) - {old(boots)[mac].ip}
    {
      b := Boot(mac, "", "", now, now, "", "", 0);
      RestartedSound(boots, byIp, mac, b);
      boots, byIp := boots[mac := b], byIp - {boots[mac].ip};
    }

    /** The row a request for booting is counted in: a new one, one started over, or the one there is. */
    method Enter(mac: string, now: int) returns (ghost left: Boots)
      requires Sound(boots, byIp) && Hardware(mac)
      modifies this
      ensures Sound(boots, byIp) && boots == left[mac := Entered(old(boots), mac, now)]
      ensures if mac in old(boots) then left == old(boots) && byIp == (if Stale(old(boots), mac, now) then old(byIp) - {old(boots)[mac].ip} else old(byIp))
              else MadeRoom(old(boots), old(byIp), left, byIp, now)
    {
      left := boots;
      if mac !in boots {
        var _, l := AddNew(mac, "", now);
        left := l;
      } else if now - boots[mac].lastSeen > MINUTE {
        var _ := Restart(mac, now);
      }
    }

    /** A machine asks for an address and for something to boot; after a minute of silence it is taken to start over. */
    method Dhcp(mac: string, arch: string, now: int) returns (ghost left: Boots)
      requires Sound(boots, byIp) && Hardware(mac)
      modifies this
      ensures Sound(boots, byIp) && boots == left[mac := Asked(Entered(old(boots), mac, now), arch, now)]
      ensures if mac in old(boots) then left == old(boots) && byIp == (if Stale(old(boots), mac, now) then old(byIp) - {old(boots)[mac].ip} else old(byIp))
              else MadeRoom(old(boots), old(byIp), left, byIp, now)
    {
      ghost var before := boots;
      left := Enter(mac, now);
      Ask(mac, arch, now);
      UpdateTwice(left, mac, Entered(before, mac, now), boots[mac]);
    }

    method Ask(mac: string, arch: string, now: int)
      requires Sound(boots, byIp) && mac in boots
      modifies `boots
      ensures Sound(boots, byIp) && boots == old(boots)[mac := Asked(old(boots)[mac], arch, now)]
    {
      var b := boots[mac];
      var stage := if b.stage == "" || b.stage == "nopxe" then "dhcp" else b.stage;
      Put(mac, b.(lastSeen := now, count := b.count + 1, stage := stage, arch := if arch != "" then arch else b.arch));
    }

    /** Makes sure there is a row for a machine that asks without network boot. */
    method EnterPlain(mac: string, now: int) returns (ghost left: Boots)
      requires Sound(boots, byIp) && Hardware(mac)
      modifies this
      ensures Sound(boots, byIp) && mac in boots && boots == left[mac := boots[mac]]
      ensures if mac in old(boots) then boots == old(boots) && byIp == old(byIp)
              else boots[mac] == Boot(mac, "", "", now, now, "nopxe", "", 0) && MadeRoom(old(boots), old(byIp), left, byIp, now)
    {
      left := boots;
      if mac !in boots {
        var _, l := AddNew(mac, "nopxe", now);
        left := l;
      }
    }

    /** A machine asks for an address without network boot; that is noted as long as it has not asked for more. */
    method Plain(mac: string, kind: string, now: int) returns (ghost left: Boots)
      requires Sound(boots, byIp) && Hardware(mac)
      modifies this
      ensures Sound(boots, byIp) && mac in boots
      ensures mac in old(boots) ==>
                byIp == old(byIp) && boots == if old(boots)[mac].stage != "nopxe" then old(boots) else old(boots)[mac := Noted(old(boots)[mac], kind, now)]
      ensures mac !in old(boots) ==>
                boots == left[mac := Boot(mac, "", "", now, now, "nopxe", kind, 1)] && MadeRoom(old(boots), old(byIp), left, byIp, now)
    {
      left := EnterPlain(mac, now);
      if boots[mac].stage == "nopxe" {
        ghost var entered := boots[mac];
        Note(mac, kind, now);
        UpdateTwice(left, mac, entered, boots[mac]);
      }
    }

    method Note(mac: string, kind: string, now: int)
      requires Sound(boots, byIp) && mac in boots
      modifies `boots
      ensures Sound(boots, byIp) && boots == old(boots)[mac := Noted(old(boots)[mac], kind, now)]
    {
      var b := boots[mac];
      Put(mac, b.(lastSeen := now, count := b.count + 1, class_ := kind));
    }

    /** The machine without an address seen most recently, if there is one. */
    method Latest() returns (latest: string, found: bool)
      ensures found <==> exists m :: m in boots && boots[m].ip == ""
      ensures found ==> latest in boots && boots[latest].ip == "" && forall m | m in boots && boots[m].ip == "" :: boots[m].lastSeen <= boots[latest].lastSeen
    {
      var todo := boots.Keys;
      latest, found := "", false;
      while todo != {}
        invariant todo <= boots.Keys
        invariant found <==> exists m :: m in boots && m !in todo && boots[m].ip == ""
        invariant found ==> latest in boots && boots[latest].ip == ""
        invariant found ==> forall m | m in boots && m !in todo && boots[m].ip == "" :: boots[m].lastSeen <= boots[latest].lastSeen
        decreases |todo|
      {
        var m :| m in todo;
        if boots[m].ip == "" && (!found || boots[m].lastSeen > boots[latest].lastSeen) {
          latest, found := m, true;
        }
        todo := todo - {m};
      }
    }

    /** A machine with an address fetches something. */
    method Serve(mac: string, arch: string, stage: string, now: int)
      requires Sound(boots, byIp) && mac in boots
      modifies `boots
      ensures Sound(boots, byIp) && boots.Keys == old(boots).Keys && forall m | m in boots && m != mac :: boots[m] == old(boots)[m]
      ensures boots[mac].ip == old(boots)[mac].ip && boots[mac].lastSeen == now
      ensures boots[mac].stage == if stage == "kernel" || old(boots)[mac].stage != "kernel" then stage else "kernel"
    {
      var b := boots[mac];
      Put(mac, b.(lastSeen := now, arch := if arch != "" then arch else b.arch,
                  stage := if stage == "kernel" || b.stage != "kernel" then stage else b.stage));
    }

    /** Gives an address to the machine seen most recently that has none. */
    method AssignLatest(ip: string, mac: string)
      requires Sound(boots, byIp) && ip != "" && ip !in byIp && mac in boots && boots[mac].ip == ""
      modifies this
      ensures Sound(boots, byIp) && boots == old(boots)[mac := old(boots)[mac].(ip := ip)] && byIp == old(byIp)[ip := mac]
    {
      AddressSound(boots, byIp, mac, ip);
      boots, byIp := boots[mac := boots[mac].(ip := ip)], byIp[ip := mac];
    }

    /** A new row for a machine of which nothing but the address is known. */
    method AddUnknown(ip: string, now: int) returns (mac: string, ghost left: Boots, ghost leftIp: Addresses)
      requires Sound(boots, byIp) && ip != "" && ip !in byIp
      modifies this
      ensures Sound(boots, byIp) && mac == UnknownAt(ip) && mac !in old(boots)
      ensures boots == left[mac := Boot(mac, ip, "", now, now, "", "", 0)] && byIp == leftIp[ip := mac]
      ensures MadeRoom(old(boots), old(byIp), left, leftIp, now)
    {
      mac := UnknownAt(ip);
      var b := Boot(mac, ip, "", now, now, "", "", 0);
      left := Add(b, now);
      leftIp := byIp;
      ForgottenSound(old(boots), old(byIp), left, leftIp);
      UnknownSound(left, leftIp, b, ip);
      byIp := byIp[ip := mac];
    }

    /**
     A machine fetches its files. The address is that of the machine known there, else of the machine seen most
     recently that has none yet, else of one of which nothing but the address is known.
     */
    method Http(ip: string, arch: string, stage: string, now: int) returns (mac: string)
      requires Sound(boots, byIp) && ip != ""
      modifies this
      ensures Sound(boots, byIp) && ip in byIp && byIp[ip] == mac && boots[mac].lastSeen == now
      ensures ip in old(byIp) ==> byIp == old(byIp)
      ensures ip !in old(byIp) && (exists m :: m in old(boots) && old(boots)[m].ip == "") ==>
                && byIp == old(byIp)[ip := mac] && mac in old(boots) && old(boots)[mac].ip == ""
                && forall m | m in old(boots) && old(boots)[m].ip == "" :: old(boots)[m].lastSeen <= old(boots)[mac].lastSeen
      ensures ip !in old(byIp) && (forall m | m in old(boots) :: old(boots)[m].ip != "") ==> mac == UnknownAt(ip)
      ensures Beside(old(boots), boots, mac, now)
      ensures stage == "kernel" || mac !in old(boots) || old(boots)[mac].stage != "kernel" ==> boots[mac].stage == stage
    {
      ghost var before := boots;
      if ip in byIp {
        mac := byIp[ip];
      } else {
        mac := Identify(ip, now);
      }
      ghost var mid := boots;
      Serve(mac, arch, stage, now);
      ServedBeside(before, mid, boots, mac, now);
    }

    /** Finds a machine for an address nobody is known at. */
    method Identify(ip: string, now: int) returns (mac: string)
      requires Sound(boots, byIp) && ip != "" && ip !in byIp
      modifies this
      ensures Sound(boots, byIp) && ip in byIp && byIp[ip] == mac
      ensures (exists m :: m in old(boots) && old(boots)[m].ip == "") ==>
                && byIp == old(byIp)[ip := mac] && mac in old(boots) && old(boots)[mac].ip == ""
                && forall m | m in old(boots) && old(boots)[m].ip == "" :: old(boots)[m].lastSeen <= old(boots)[mac].lastSeen
      ensures (forall m | m in old(boots) :: old(boots)[m].ip != "") ==> mac == UnknownAt(ip)
      ensures Beside(old(boots), boots, mac, now)
      ensures boots[mac].stage == if mac in old(boots) then old(boots)[mac].stage else ""
    {
      ghost var before := boots;
      var latest, found := Latest();
      if found {
        mac := latest;
        AssignLatest(ip, mac);
      } else {
        ghost var left, leftIp;
        mac, left, leftIp := AddUnknown(ip, now);
        AddedBeside(before, left, boots, mac, now);
      }
    }
  }

  /** What becomes of the machines other than one: they stay as they are, or make room if that one is new and the table full. */
  ghost predicate Beside(before: Boots, after: Boots, mac: string, now: int) {
    && (forall m | m in after && m != mac :: m in before && after[m] == before[m])
    && if mac in before || |before| < MAX_BOOTS then forall m | m in before && m != mac :: m in after
       else Spared(before, after - {mac}, now, MAX_BOOTS - 1)
  }

  lemma AddedBeside(before: Boots, left: Boots, after: Boots, mac: string, now: int)
    requires mac !in before && mac !in left && mac in after && after == left[mac := after[mac]]
    requires left.Keys <= before.Keys && forall m | m in left :: left[m] == before[m]
    requires if |before| < MAX_BOOTS then left == before else Spared(before, left, now, MAX_BOOTS - 1)
    ensures Beside(before, after, mac, now)
  {
    assert after - {mac} == left;
  }

  lemma ServedBeside(before: Boots, mid: Boots, after: Boots, mac: string, now: int)
    requires Beside(before, mid, mac, now) && after.Keys == mid.Keys && forall m | m in mid && m != mac :: after[m] == mid[m]
    ensures Beside(before, after, mac, now)
  {
    assert after - {mac} == mid - {mac};
  }

  lemma PutSound(boots: Boots, byIp: Addresses, mac: string, b: Boot)
    requires Sound(boots, byIp) && mac in boots && b.mac == mac && b.ip == boots[mac].ip
    ensures Sound(boots[mac := b], byIp)
  {
    assert boots[mac := b].Keys == boots.Keys;
    SameSize(boots, mac, b);
  }

  lemma SameSize(boots: Boots, mac: string, b: Boot)
    requires mac in boots
    ensures |boots[mac := b]| == |boots|
  {
    assert boots[mac := b].Keys == boots.Keys;
    assert |boots.Keys| == |boots| && |boots[mac := b].Keys| == |boots[mac := b]|;
  }

  lemma OneMore(boots: Boots, mac: string, b: Boot)
    requires mac !in boots
    ensures |boots[mac := b]| == |boots| + 1
  {
    assert boots[mac := b].Keys == boots.Keys + {mac};
    assert |boots.Keys| == |boots| && |boots[mac := b].Keys| == |boots[mac := b]|;
  }

  lemma NewSound(left: Boots, leftIp: Addresses, b: Boot)
    requires Inverse(left, leftIp) && Rows(left) && |left| < MAX_BOOTS && b.mac !in left && b.ip == "" && Hardware(b.mac)
    ensures Sound(left[b.mac := b], leftIp)
  {
    OneMore(left, b.mac, b);
    forall ip | UnknownAt(ip) in left[b.mac := b]
      ensures UnknownAt(ip) in left
    {
      NotUnknown(b.mac, ip);
    }
  }

  lemma RestartedSound(boots: Boots, byIp: Addresses, mac: string, b: Boot)
    requires Sound(boots, byIp) && mac in boots && b.mac == mac && b.ip == "" && Hardware(mac)
    ensures Sound(boots[mac := b], byIp - {boots[mac].ip})
  {
    SameSize(boots, mac, b);
    forall ip | UnknownAt(ip) in boots[mac := b]
      ensures UnknownAt(ip) != mac
    {
      NotUnknown(mac, ip);
    }
  }

  lemma AddressSound(boots: Boots, byIp: Addresses, mac: string, ip: string)
    requires Sound(boots, byIp) && mac in boots && boots[mac].ip == "" && ip != "" && ip !in byIp
    ensures Sound(boots[mac := boots[mac].(ip := ip)], byIp[ip := mac])
  {
    SameSize(boots, mac, boots[mac].(ip := ip));
  }

  lemma UnknownSound(left: Boots, leftIp: Addresses, b: Boot, ip: string)
    requires Inverse(left, leftIp) && Rows(left) && |left| < MAX_BOOTS && ip != "" && ip !in leftIp
    requires b.mac == UnknownAt(ip) && b.ip == ip && b.mac !in left
    ensures Sound(left[b.mac := b], leftIp[ip := b.mac])
  {
    OneMore(left, b.mac, b);
    forall other | UnknownAt(other) == b.mac
      ensures other == ip
    {
      assert UnknownAt(other)[8..] == other && UnknownAt(ip)[8..] == ip;
    }
  }
}
