/**
 Which nodes Kubit has switched off itself: a node is marked when a shutdown asks it to go down, counts as off from the
 first look that finds it unreachable, and no longer does once a look reaches it again.
 */
module OffMap {

  /** For each marked node, whether it has been seen unreachable since. */
  type Off = map<string, bool>

  function Marked(off: Off, host: string): Off { off[host := false] }

  function Unmarked(off: Off, host: string): Off { off - {host} }

  /** What one look at a node changes. */
  function Seen(off: Off, host: string, reachable: bool): Off {
    if host !in off then off
    else if !reachable then off[host := true]
    else if off[host] then off - {host}
    else off
  }

  function OffNodes(off: Off): set<string> { set h | h in off && off[h] }

  class OffTable {
    var off: Off

    constructor ()
      ensures off == map[]
    {
      off := map[];
    }

    method MarkOff(host: string)
      modifies this
      ensures off == Marked(old(off), host)
    {
      off := off[host := false];
    }

    method UnmarkOff(host: string)
      modifies this
      ensures off == Unmarked(old(off), host)
    {
      off := off - {host};
    }

    /** Tells whether the node is down because Kubit switched it off. */
    method OffSeen(host: string, reachable: bool) returns (isOff: bool)
      modifies this
      ensures off == Seen(old(off), host, reachable)
      ensures isOff <==> !reachable && host in OffNodes(off)
    {
      if host !in off {
        return false;
      }
      if !reachable {
        off := off[host := true];
        return true;
      }
      if off[host] {
        off := off - {host};
      }
      isOff := false;
    }

    method ListOff() returns (out: set<string>)
      ensures out == OffNodes(off)
    {
      out := {};
      var todo := off.Keys;
      while todo != {}
        invariant todo <= off.Keys && out == set h | h in off && off[h] && h !in todo
        decreases |todo|
      {
        var h :| h in todo;
        if off[h] {
          out := out + {h};
        }
        todo := todo - {h};
      }
    }
  }

  // ---- what the table means, over the history of one node ----

  datatype Event = Mark | Unmark | Look(reachable: bool)

  function Step(off: Off, host: string, e: Event): Off {
    match e
    case Mark => Marked(off, host)
    case Unmark => Unmarked(off, host)
    case Look(reachable) => Seen(off, host, reachable)
  }

  function After(h: seq<Event>, host: string): Off {
    if h == [] then map[] else Step(After(h[..|h| - 1], host), host, h[|h| - 1])
  }

  /** The last mark stands: nothing marked or unmarked the node since. */
  predicate StandingMark(h: seq<Event>, m: int) {
    0 <= m < |h| && h[m].Mark? && forall i | m < i < |h| :: h[i].Look?
  }

  predicate Missed(h: seq<Event>, m: int, u: int) { m < u < |h| && 0 <= u && h[u] == Look(false) }

  /** A look that reached the node after one that did not. */
  predicate Back(h: seq<Event>, m: int, a: int, b: int) { Missed(h, m, a) && a < b < |h| && h[b] == Look(true) }

  ghost predicate NeverBack(h: seq<Event>, m: int) { forall a, b :: !Back(h, m, a, b) }

  ghost predicate SwitchedOff(h: seq<Event>) {
    exists m, u :: StandingMark(h, m) && Missed(h, m, u) && NeverBack(h, m)
  }

  /** Marked, and not found unreachable since. */
  ghost predicate Leaving(h: seq<Event>) { exists m :: Unmissed(h, m) }

  ghost predicate Unmissed(h: seq<Event>, m: int) { StandingMark(h, m) && forall u :: !Missed(h, m, u) }

  lemma Shorter(h: seq<Event>, m: int)
    requires h != [] && h[|h| - 1].Look?
    ensures var g := h[..|h| - 1];
            && (StandingMark(h, m) <==> StandingMark(g, m))
            && (forall u | u < |g| :: Missed(h, m, u) <==> Missed(g, m, u))
            && (forall a, b | b < |g| :: Back(h, m, a, b) <==> Back(g, m, a, b))
  {
  }

  lemma AfterMark(h: seq<Event>)
    requires h != [] && h[|h| - 1].Mark?
    ensures Leaving(h) && !SwitchedOff(h)
  {
    assert Unmissed(h, |h| - 1);
    forall m, u
      ensures !(StandingMark(h, m) && Missed(h, m, u))
    {
      assert !h[|h| - 1].Look?;
    }
  }

  lemma AfterUnmark(h: seq<Event>)
    requires h != [] && h[|h| - 1].Unmark?
    ensures !Leaving(h) && !SwitchedOff(h)
  {
    assert forall m :: !StandingMark(h, m);
  }

  lemma AfterMiss(h: seq<Event>)
    requires h != [] && h[|h| - 1] == Look(false)
    ensures var g := h[..|h| - 1];
            !Leaving(h) && (SwitchedOff(h) <==> Leaving(g) || SwitchedOff(g))
  {
    var g, last := h[..|h| - 1], |h| - 1;
    forall m
      ensures StandingMark(h, m) <==> StandingMark(g, m)
      ensures StandingMark(h, m) ==> Missed(h, m, last)
      ensures NeverBack(h, m) <==> NeverBack(g, m)
    {
      Shorter(h, m);
      MissEndsNothing(h, m);
    }
    if m :| Unmissed(g, m) {
      forall a, b
        ensures !Back(g, m, a, b)
      {
        assert !Missed(g, m, a);
      }
      assert StandingMark(h, m) && Missed(h, m, last) && NeverBack(h, m);
    }
    if m, u :| StandingMark(g, m) && Missed(g, m, u) && NeverBack(g, m) {
      assert StandingMark(h, m) && Missed(h, m, last) && NeverBack(h, m);
    }
    if m, u :| StandingMark(h, m) && Missed(h, m, u) && NeverBack(h, m) {
      assert StandingMark(g, m) && NeverBack(g, m);
      assert Unmissed(g, m) || exists v :: Missed(g, m, v);
    }
  }

  lemma MissEndsNothing(h: seq<Event>, m: int)
    requires h != [] && h[|h| - 1] == Look(false)
    ensures NeverBack(h, m) <==> NeverBack(h[..|h| - 1], m)
  {
    var g := h[..|h| - 1];
    forall a, b
      ensures Back(h, m, a, b) <==> Back(g, m, a, b)
    {
      Shorter(h, m);
    }
  }

  lemma AfterReach(h: seq<Event>)
    requires h != [] && h[|h| - 1] == Look(true)
    ensures var g := h[..|h| - 1];
            (Leaving(h) <==> Leaving(g)) && !SwitchedOff(h)
  {
    var g, last := h[..|h| - 1], |h| - 1;
    forall m
      ensures Unmissed(h, m) <==> Unmissed(g, m)
    {
      Shorter(h, m);
      assert forall u :: Missed(h, m, u) <==> Missed(g, m, u);
    }
    forall m, u | StandingMark(h, m) && Missed(h, m, u)
      ensures !NeverBack(h, m)
    {
      assert Back(h, m, u, last);
    }
  }

  /**
   A node counts as off if and only if its last mark stands, a look since found it unreachable, and none after that
   reached it; and it is marked without counting as off if and only if no look since its mark missed it.
   */
  lemma {:induction false} OffExactly(h: seq<Event>, host: string)
    ensures host in OffNodes(After(h, host)) <==> SwitchedOff(h)
    ensures host in After(h, host) && !After(h, host)[host] <==> Leaving(h)
    decreases |h|
  {
    if h == [] {
      assert forall m :: !StandingMark(h, m);
    } else {
      OffExactly(h[..|h| - 1], host);
      match h[|h| - 1]
      case Mark => AfterMark(h);
      case Unmark => AfterUnmark(h);
      case Look(reachable) => if reachable { AfterReach(h); } else { AfterMiss(h); }
    }
  }
}
