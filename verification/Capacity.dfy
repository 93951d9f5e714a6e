/**
 How many bytes a set of disks can hold when every byte is kept on `replicas` different nodes.

 `UsableBytes` is a binary search over a one-line inequality. What the number means is combinatorial:
 it must be the largest number of bytes that can be laid out so that each one sits on `replicas`
 different nodes and no node holds more than its capacity. The module proves that the inequality and
 the existence of such a layout are the same thing, and that the search returns the maximum.
 */
module Capacity {
  import opened Basics

  const TWO_64: int := 0x1_0000_0000_0000_0000

  /** Go's uint64: additions and products wrap around. */
  type uint64 = x: int | 0 <= x < TWO_64

  /** Go's int. */
  type int64 = x: int | -0x8000_0000_0000_0000 <= x < 0x8000_0000_0000_0000

  function Wrap(x: nat): uint64 { x % TWO_64 }

  lemma WrapAdd(x: nat, y: nat)
    ensures Wrap(Wrap(x) + y) == Wrap(x + y)
  {
  }

  lemma WrapShrinks(x: nat)
    ensures Wrap(x) <= x && (x < TWO_64 ==> Wrap(x) == x)
  {
  }

  function TotalTo(caps: seq<nat>, n: nat): nat
    requires n <= |caps|
  {
    if n == 0 then 0 else TotalTo(caps, n - 1) + caps[n - 1]
  }

  function Total(caps: seq<nat>): nat { TotalTo(caps, |caps|) }

  /** What the first `n` nodes offer to `d` bytes: a node is never useful for more than one copy of each. */
  function CappedTo(caps: seq<nat>, d: nat, n: nat): nat
    requires n <= |caps|
  {
    if n == 0 then 0 else CappedTo(caps, d, n - 1) + Min(caps[n - 1], d)
  }

  predicate Fits(caps: seq<nat>, r: nat, d: nat) { CappedTo(caps, d, |caps|) >= d * r }

  // ---- layouts: p[b] is the set of nodes that hold byte b ----

  ghost function Load(p: seq<set<nat>>, node: nat): nat {
    if |p| == 0 then 0 else Load(p[..|p| - 1], node) + if node in p[|p| - 1] then 1 else 0
  }

  ghost predicate Placement(p: seq<set<nat>>, caps: seq<nat>, r: nat) {
    && (forall b | 0 <= b < |p| :: |p[b]| == r && forall i | i in p[b] :: i < |caps|)
    && (forall i: nat | i < |caps| :: Load(p, i) <= caps[i])
  }

  /** `d` bytes can each be stored on `r` different nodes. */
  ghost predicate Storable(caps: seq<nat>, r: nat, d: nat) {
    exists p :: |p| == d && Placement(p, caps, r)
  }

  // ---- a layout satisfies the inequality: count the copies by node and by byte ----

  ghost function LoadTo(p: seq<set<nat>>, n: nat): nat {
    if n == 0 then 0 else LoadTo(p, n - 1) + Load(p, n - 1)
  }

  ghost function CountTo(s: set<nat>, n: nat): nat {
    if n == 0 then 0 else CountTo(s, n - 1) + if n - 1 in s then 1 else 0
  }

  lemma {:induction false} CountIsSize(s: set<nat>, n: nat)
    requires forall i | i in s :: i < n
    ensures CountTo(s, n) == |s|
  {
    if n == 0 {
      assert s == {};
    } else {
      var t := s - {n - 1};
      CountIsSize(t, n - 1);
      CountIgnores(s, t, n - 1);
    }
  }

  lemma {:induction false} CountIgnores(s: set<nat>, t: set<nat>, n: nat)
    requires t == s - {n}
    ensures forall m: nat | m <= n :: CountTo(s, m) == CountTo(t, m)
  {
    var m := 0;
    while m < n
      invariant m <= n
      invariant forall k: nat | k <= m :: CountTo(s, k) == CountTo(t, k)
    {
      m := m + 1;
    }
  }

  lemma {:induction false} LoadToSplits(p: seq<set<nat>>, n: nat)
    requires |p| > 0
    ensures LoadTo(p, n) == LoadTo(p[..|p| - 1], n) + CountTo(p[|p| - 1], n)
  {
    if n > 0 {
      LoadToSplits(p, n - 1);
    }
  }

  lemma {:induction false} EmptyLoad(n: nat)
    ensures LoadTo([], n) == 0
  {
    if n > 0 {
      EmptyLoad(n - 1);
    }
  }

  lemma {:induction false} CopiesByByte(p: seq<set<nat>>, r: nat, n: nat)
    requires forall b | 0 <= b < |p| :: |p[b]| == r && forall i | i in p[b] :: i < n
    ensures LoadTo(p, n) == |p| * r
  {
    if |p| == 0 {
      assert p == [];
      EmptyLoad(n);
    } else {
      LoadToSplits(p, n);
      CopiesByByte(p[..|p| - 1], r, n);
      CountIsSize(p[|p| - 1], n);
      assert (|p| - 1) * r + r == |p| * r;
    }
  }

  lemma {:induction false} LoadAtMostBytes(p: seq<set<nat>>, node: nat)
    ensures Load(p, node) <= |p|
  {
    if |p| > 0 {
      LoadAtMostBytes(p[..|p| - 1], node);
    }
  }

  lemma {:induction false} LoadsAreCapped(p: seq<set<nat>>, caps: seq<nat>, n: nat)
    requires n <= |caps| && forall i: nat | i < |caps| :: Load(p, i) <= caps[i]
    ensures LoadTo(p, n) <= CappedTo(caps, |p|, n)
  {
    if n > 0 {
      LoadsAreCapped(p, caps, n - 1);
      LoadAtMostBytes(p, n - 1);
    }
  }

  lemma PlacementFits(p: seq<set<nat>>, caps: seq<nat>, r: nat)
    requires Placement(p, caps, r)
    ensures Fits(caps, r, |p|)
  {
    CopiesByByte(p, r, |caps|);
    LoadsAreCapped(p, caps, |caps|);
  }

  // ---- the inequality yields a layout: wrap the nodes around the bytes, one copy at a time ----

  lemma {:induction false} LoadAfterCopy(p: seq<set<nat>>, b: nat, i: nat, node: nat)
    requires b < |p| && i !in p[b]
    ensures Load(p[b := p[b] + {i}], node) == Load(p, node) + if node == i then 1 else 0
  {
    var q := p[b := p[b] + {i}];
    if b == |p| - 1 {
      assert q[..|p| - 1] == p[..|p| - 1];
    } else {
      assert q[..|p| - 1] == p[..|p| - 1][b := p[..|p| - 1][b] + {i}];
      LoadAfterCopy(p[..|p| - 1], b, i, node);
    }
  }

  lemma {:induction false} UnusedLoad(p: seq<set<nat>>, node: nat)
    requires forall b | 0 <= b < |p| :: node !in p[b]
    ensures Load(p, node) == 0
  {
    if |p| > 0 {
      UnusedLoad(p[..|p| - 1], node);
    }
  }

  /**
   The state of the wrap-around: every byte has `k` copies and the bytes before `b` one more; nodes
   before `i` are full, and node `i` holds the `u` bytes last passed, going backwards from `b` around
   the end. As it never takes more than `d` copies it never meets a byte twice.
   */
  ghost predicate Wrapped(p: seq<set<nat>>, caps: seq<nat>, d: nat, k: nat, b: nat, i: nat, u: nat) {
    && |p| == d && b < d && i <= |caps|
    && (forall x | 0 <= x < d :: |p[x]| == if x < b then k + 1 else k)
    && (forall x, j | 0 <= x < d && j in p[x] :: j <= i && j < |caps|)
    && (forall x | 0 <= x < d && i in p[x] :: b - u <= x < b || b - u + d <= x)
    && (forall j: nat | j < i :: Load(p, j) <= caps[j])
    && u == Load(p, i) && u <= (if i < |caps| then Min(caps[i], d) else 0)
    && k * d + b == CappedTo(caps, d, i) + u
  }

  lemma NextNode(p: seq<set<nat>>, caps: seq<nat>, d: nat, k: nat, b: nat, i: nat, u: nat)
    requires Wrapped(p, caps, d, k, b, i, u) && i < |caps| && u == Min(caps[i], d)
    ensures Wrapped(p, caps, d, k, b, i + 1, 0)
  {
    UnusedLoad(p, i + 1);
  }

  lemma NextCopy(p: seq<set<nat>>, caps: seq<nat>, d: nat, k: nat, b: nat, i: nat, u: nat)
    requires Wrapped(p, caps, d, k, b, i, u) && i < |caps| && u < Min(caps[i], d)
    ensures var q := p[b := p[b] + {i}];
            if b + 1 < d then Wrapped(q, caps, d, k, b + 1, i, u + 1) else Wrapped(q, caps, d, k + 1, 0, i, u + 1)
  {
    assert i !in p[b];
    forall j: nat {
      LoadAfterCopy(p, b, i, j);
    }
    assert (k + 1) * d == k * d + d;
  }

  /** While a copy is still wanted, some node has room left. */
  lemma RoomLeft(p: seq<set<nat>>, caps: seq<nat>, r: nat, d: nat, k: nat, b: nat, i: nat, u: nat)
    requires Fits(caps, r, d) && k < r && Wrapped(p, caps, d, k, b, i, u)
    ensures i < |caps|
  {
    LevelBelow(k, b, r, d);
  }

  lemma LevelBelow(k: nat, b: nat, r: nat, d: nat)
    requires k < r && b < d
    ensures k * d + b < d * r
  {
    assert (k + 1) * d <= d * r;
  }

  lemma WrapAround(caps: seq<nat>, r: nat, d: nat) returns (p: seq<set<nat>>, i: nat, u: nat)
    requires Fits(caps, r, d) && d > 0
    ensures Wrapped(p, caps, d, r, 0, i, u)
  {
    p, i, u := seq(d, _ => {}), 0, 0;
    var k, b := 0, 0;
    UnusedLoad(p, 0);
    while k < r
      invariant k <= r && (k == r ==> b == 0)
      invariant Wrapped(p, caps, d, k, b, i, u)
      decreases r - k, d - b, |caps| - i
    {
      RoomLeft(p, caps, r, d, k, b, i, u);
      if u == Min(caps[i], d) {
        NextNode(p, caps, d, k, b, i, u);
        i, u := i + 1, 0;
      } else {
        NextCopy(p, caps, d, k, b, i, u);
        p, u := p[b := p[b] + {i}], u + 1;
        k, b := if b + 1 < d then k else k + 1, if b + 1 < d then b + 1 else 0;
      }
    }
  }

  lemma Place(caps: seq<nat>, r: nat, d: nat) returns (p: seq<set<nat>>)
    requires Fits(caps, r, d)
    ensures |p| == d && Placement(p, caps, r)
  {
    if d == 0 {
      p := [];
      return;
    }
    var i, u;
    p, i, u := WrapAround(caps, r, d);
    forall j: nat | j < |caps|
      ensures Load(p, j) <= caps[j]
    {
      if j > i {
        UnusedLoad(p, j);
      }
    }
  }

  /** The inequality the code tests holds exactly when the bytes can really be laid out. */
  lemma FitsIffStorable(caps: seq<nat>, r: nat, d: nat)
    ensures Fits(caps, r, d) <==> Storable(caps, r, d)
  {
    if Fits(caps, r, d) {
      var p := Place(caps, r, d);
    }
    if Storable(caps, r, d) {
      var p :| |p| == d && Placement(p, caps, r);
      PlacementFits(p, caps, r);
    }
  }

  // ---- laws of the capacity, read off the layouts ----

  lemma {:induction false} LoadOfPrefix(p: seq<set<nat>>, d: nat, node: nat)
    requires d <= |p|
    ensures Load(p[..d], node) <= Load(p, node)
  {
    if d < |p| {
      assert p[..|p| - 1][..d] == p[..d];
      LoadOfPrefix(p[..|p| - 1], d, node);
    } else {
      assert p[..d] == p;
    }
  }

  /** Fewer bytes always fit too: this is what makes a binary search legitimate. */
  lemma DownwardClosed(caps: seq<nat>, r: nat, d: nat, e: nat)
    requires Storable(caps, r, d) && e <= d
    ensures Storable(caps, r, e)
  {
    var p :| |p| == d && Placement(p, caps, r);
    forall i: nat | i < |caps|
      ensures Load(p[..e], i) <= caps[i]
    {
      LoadOfPrefix(p, e, i);
    }
    assert Placement(p[..e], caps, r);
  }

  /** More copies never leave more room. */
  lemma MoreReplicasStoreLess(caps: seq<nat>, r: nat, s: nat, d: nat)
    requires Storable(caps, s, d) && r <= s
    ensures Storable(caps, r, d)
  {
    FitsIffStorable(caps, s, d);
    FitsIffStorable(caps, r, d);
    MulMonotone(d, r, s);
  }

  lemma MulMonotone(d: nat, r: nat, s: nat)
    requires r <= s
    ensures d * r <= d * s
  {
  }

  lemma {:induction false} CappedBelowTotal(caps: seq<nat>, d: nat, n: nat)
    requires n <= |caps|
    ensures CappedTo(caps, d, n) <= TotalTo(caps, n)
  {
    if n > 0 {
      CappedBelowTotal(caps, d, n - 1);
    }
  }

  lemma {:induction false} CappedByNodes(caps: seq<nat>, d: nat, n: nat)
    requires n <= |caps|
    ensures CappedTo(caps, d, n) <= n * d
  {
    if n > 0 {
      CappedByNodes(caps, d, n - 1);
      assert (n - 1) * d + d == n * d;
    }
  }

  lemma NothingStorableOnTooFewNodes(caps: seq<nat>, r: nat, d: nat)
    requires Storable(caps, r, d) && |caps| < r
    ensures d == 0
  {
    FitsIffStorable(caps, r, d);
    CappedByNodes(caps, d, |caps|);
    NoRoomForMoreCopies(|caps|, r, d);
  }

  lemma NoRoomForMoreCopies(n: nat, r: nat, d: nat)
    requires n < r && d * r <= n * d
    ensures d == 0
  {
    assert (n + 1) * d <= r * d;
  }

  /** `d` is exactly what `r` replicas leave: it can be stored and nothing above it can. */
  ghost predicate IsCapacity(caps: seq<nat>, r: nat, d: nat) {
    Storable(caps, r, d) && forall e: nat | e > d :: !Storable(caps, r, e)
  }

  lemma CapacityIsUnique(caps: seq<nat>, r: nat, d: nat, e: nat)
    requires IsCapacity(caps, r, d) && IsCapacity(caps, r, e)
    ensures d == e
  {
  }

  lemma CapacityNeverGrows(caps: seq<nat>, r: nat, s: nat, d: nat, e: nat)
    requires IsCapacity(caps, r, d) && IsCapacity(caps, s, e) && r <= s
    ensures e <= d
  {
    MoreReplicasStoreLess(caps, r, s, e);
  }

  // ---- the code ----

  lemma {:induction false} PrefixTotalGrows(caps: seq<nat>, n: nat)
    requires n <= |caps|
    ensures TotalTo(caps, n) <= Total(caps)
    decreases |caps| - n
  {
    if n < |caps| {
      PrefixTotalGrows(caps, n + 1);
    }
  }

  method SumCapacities(caps: seq<uint64>) returns (total: uint64)
    ensures total == Wrap(Total(caps))
  {
    total := 0;
    for i := 0 to |caps|
      invariant total == Wrap(TotalTo(caps, i))
    {
      WrapAdd(TotalTo(caps, i), caps[i]);
      total := Wrap(total + caps[i]);
    }
  }

  method SumCapped(caps: seq<uint64>, d: uint64) returns (sum: uint64)
    ensures sum == Wrap(CappedTo(caps, d, |caps|))
  {
    sum := 0;
    for i := 0 to |caps|
      invariant sum == Wrap(CappedTo(caps, d, i))
    {
      WrapAdd(CappedTo(caps, d, i), Min(caps[i], d));
      sum := Wrap(sum + Min(caps[i], d));
    }
  }

  /**
   The closure `fits`, with the machine's arithmetic. A sum that wraps around only gets smaller, so a yes
   is always right; while the total fits a word a no is right as well.
   */
  method TestFits(caps: seq<uint64>, replicas: uint64, d: uint64) returns (ok: bool)
    requires d * replicas < TWO_64
    ensures ok ==> Fits(caps, replicas, d)
    ensures Total(caps) < TWO_64 ==> ok == Fits(caps, replicas, d)
  {
    var sum := SumCapped(caps, d);
    CappedBelowTotal(caps, d, |caps|);
    WrapShrinks(CappedTo(caps, d, |caps|));
    WrapShrinks(d * replicas);
    ok := sum >= Wrap(d * replicas);
  }

  /** Anything stored `r` times is at most the total divided by `r`: where the search starts. */
  lemma StartsAboveCapacity(caps: seq<nat>, r: nat, d: nat)
    requires r >= 1 && Storable(caps, r, d)
    ensures d <= Total(caps) / r
  {
    FitsIffStorable(caps, r, d);
    CappedBelowTotal(caps, d, |caps|);
    QuotientBound(Total(caps), r, d);
  }

  lemma QuotientBound(t: nat, r: nat, d: nat)
    requires r >= 1
    ensures d * r <= t <==> d <= t / r
  {
    var q := t / r;
    assert q * r <= t < q * r + r;
    if d <= q {
      assert d * r <= q * r;
    } else {
      assert (q + 1) * r <= d * r && (q + 1) * r == q * r + r;
    }
  }

  /**
   The search. `lo` is always storable and nothing above `hi` ever is, so it ends on the maximum. No product
   overflows: `mid` never exceeds the wrapped total divided by `replicas`. When the capacity total itself
   overflows the answer may be too small, never too large.
   */
  method UsableBytes(caps: seq<uint64>, replicas: int64) returns (usable: uint64)
    ensures replicas < 1 || |caps| < replicas ==> usable == 0
    ensures replicas >= 1 ==> Storable(caps, replicas, usable)
    ensures replicas >= 1 && Total(caps) < TWO_64 ==> IsCapacity(caps, replicas, usable)
    ensures replicas >= 1 ==> usable <= Wrap(Total(caps)) / replicas
  {
    if replicas < 1 || |caps| < replicas {
      if replicas >= 1 {
        TooFewNodes(caps, replicas);
      }
      return 0;
    }
    var total := SumCapacities(caps);
    var r: uint64 := replicas;
    var lo: uint64, hi: uint64 := 0, total / r;
    FitsIffStorable(caps, r, 0);
    if Total(caps) < TWO_64 {
      NothingAboveStart(caps, r);
    }
    while lo < hi
      invariant lo <= hi <= total / r
      invariant Storable(caps, r, lo)
      invariant Total(caps) < TWO_64 ==> forall e: nat | e > hi :: !Storable(caps, r, e)
    {
      var mid := hi - (hi - lo) / 2;
      QuotientBound(total, r, mid);
      var fits := TestFits(caps, r, mid);
      FitsIffStorable(caps, r, mid);
      if fits {
        lo := mid;
      } else {
        hi := mid - 1;
        if Total(caps) < TWO_64 {
          NothingAbove(caps, r, mid);
        }
      }
    }
    usable := lo;
  }

  lemma NothingAbove(caps: seq<nat>, r: nat, d: nat)
    requires !Storable(caps, r, d)
    ensures forall e: nat | e >= d :: !Storable(caps, r, e)
  {
    forall e: nat | e >= d && Storable(caps, r, e)
      ensures false
    {
      DownwardClosed(caps, r, e, d);
    }
  }

  lemma NothingAboveStart(caps: seq<nat>, r: nat)
    requires r >= 1
    ensures forall e: nat | e > Total(caps) / r :: !Storable(caps, r, e)
  {
    forall e: nat | e > Total(caps) / r && Storable(caps, r, e)
      ensures false
    {
      StartsAboveCapacity(caps, r, e);
    }
  }

  lemma TooFewNodes(caps: seq<nat>, r: nat)
    requires |caps| < r
    ensures IsCapacity(caps, r, 0)
  {
    FitsIffStorable(caps, r, 0);
    forall e: nat | e > 0 && Storable(caps, r, e)
      ensures false
    {
      NothingStorableOnTooFewNodes(caps, r, e);
    }
  }

  /** One answer per replica count, starting at one. */
  method UsableByReplicas(caps: seq<uint64>, upTo: nat) returns (out: seq<uint64>)
    requires upTo < 0x7fff_ffff_ffff_ffff
    ensures |out| == upTo
    ensures forall i | 0 <= i < upTo :: Storable(caps, i + 1, out[i])
    ensures Total(caps) < TWO_64 ==> forall i | 0 <= i < upTo :: IsCapacity(caps, i + 1, out[i])
    ensures Total(caps) < TWO_64 ==> forall i, j | 0 <= i <= j < upTo :: out[j] <= out[i]
    ensures upTo > 0 ==> ((forall i | 0 <= i < upTo :: IsCapacity(caps, i + 1, out[i])) <==> Total(caps) < TWO_64)
  {
    out := [];
    for i := 0 to upTo
      invariant |out| == i
      invariant forall k | 0 <= k < i :: Storable(caps, k + 1, out[k])
      invariant Total(caps) < TWO_64 ==> forall k | 0 <= k < i :: IsCapacity(caps, k + 1, out[k])
    {
      var u := UsableBytes(caps, i + 1);
      out := out + [u];
    }
    forall i, j | 0 <= i <= j < upTo && Total(caps) < TWO_64
      ensures out[j] <= out[i]
    {
      CapacityNeverGrows(caps, i + 1, j + 1, out[i], out[j]);
    }
    if upTo > 0 && IsCapacity(caps, 1, out[0]) {
      WordCannotHoldTotal(caps, out[0]);
    }
  }

  lemma WordCannotHoldTotal(caps: seq<nat>, d: uint64)
    requires IsCapacity(caps, 1, d)
    ensures Total(caps) < TWO_64
  {
    SingleCopyIsTotal(caps);
    CapacityIsUnique(caps, 1, d, Total(caps));
  }

  lemma {:induction false} UncappedAtTotal(caps: seq<nat>, n: nat, d: nat)
    requires n <= |caps| && d >= Total(caps)
    ensures CappedTo(caps, d, n) == TotalTo(caps, n)
  {
    if n > 0 {
      UncappedAtTotal(caps, n - 1, d);
      PrefixTotalGrows(caps, n);
    }
  }

  /** A single copy uses every byte, which a word cannot express once the total overflows. */
  lemma SingleCopyIsTotal(caps: seq<nat>)
    ensures IsCapacity(caps, 1, Total(caps))
  {
    UncappedAtTotal(caps, |caps|, Total(caps));
    FitsIffStorable(caps, 1, Total(caps));
    NothingAboveStart(caps, 1);
  }

  /** An overflow that loses: the search starts, and so ends, at 0 where 100 bytes can be kept on two nodes. */
  lemma OverflowUnderestimates()
    ensures var caps := [TWO_64 - 100, 100]; Wrap(Total(caps)) / 2 == 0 && IsCapacity(caps, 2, 100)
  {
    var caps := [TWO_64 - 100, 100];
    assert TotalTo(caps, 1) == TWO_64 - 100 && Total(caps) == TWO_64;
    assert CappedTo(caps, 100, 1) == 100 && CappedTo(caps, 101, 1) == 101;
    FitsIffStorable(caps, 2, 100);
    FitsIffStorable(caps, 2, 101);
    NothingAbove(caps, 2, 101);
  }
}
