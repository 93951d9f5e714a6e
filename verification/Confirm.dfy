/**
 Confirming alerts: a fault has to show in three checks in a row before it opens, stays open while its machine is
 known to be off, and closes with the first check that does not show it. The step function and the class that
 updates its maps in place are tied together; what the steps amount to is stated over whole histories of checks.
 */
module Confirm {

  const CONFIRM_AFTER: nat := 3

  datatype Fact = Fact(severity: string, kind: string, node: string, message: string)

  // ---- keys ----

  function FactKey(kind: string, node: string): string { kind + "|" + node }

  /** What stands before and after the first bar. */
  function SplitKey(key: string): (string, string) {
    if key == "" then ("", "")
    else if key[0] == '|' then ("", key[1..])
    else
      var (kind, node) := SplitKey(key[1..]);
      ([key[0]] + kind, node)
  }

  /** No kind contains a bar, so a key gives back the fault and the machine it was made of, whatever the machine's name. */
  lemma {:induction false} SplitsBack(kind: string, node: string)
    requires '|' !in kind
    ensures SplitKey(FactKey(kind, node)) == (kind, node)
  {
    var key := FactKey(kind, node);
    if kind == "" {
      assert key[1..] == node;
    } else {
      assert key[0] == kind[0] && key[1..] == FactKey(kind[1..], node);
      SplitsBack(kind[1..], node);
      assert [kind[0]] + kind[1..] == kind;
    }
  }

  function NodeOf(key: string): string { SplitKey(key).1 }

  // ---- one check ----

  datatype State = State(started: bool, bad: map<string, nat>, open: set<string>, quiet: set<string>)

  const EMPTY := State(false, map[], {}, {})

  function Count(s: State, key: string): nat { if key in s.bad then s.bad[key] else 0 }

  /** The first check of a run that was not seeded hushes the faults it finds. */
  function Hushed(s: State, facts: set<string>): set<string> { if s.started then s.quiet else s.quiet + facts }

  function Raises(s: State, facts: set<string>): set<string> {
    set k | k in facts && Count(s, k) + 1 >= CONFIRM_AFTER && k !in s.open
  }

  function Resolves(s: State, facts: set<string>, held: set<string>): set<string> {
    set k | k in s.open && k !in facts && NodeOf(k) !in held
  }

  function Applied(s: State, facts: set<string>, held: set<string>): State {
    State(true,
          map k | k in facts :: Count(s, k) + 1,
          s.open + Raises(s, facts) - Resolves(s, facts, held),
          Hushed(s, facts) - (s.bad.Keys - facts))
  }

  function Seeded(s: State, alerts: seq<(string, string)>, confirmed: set<string>): State {
    s.(started := true, open := s.open + set a | a in alerts && a.0 in confirmed :: FactKey(a.0, a.1))
  }

  datatype Transition = Raise(key: string, fact: Fact, notify: bool) | Resolve(key: string, kind: string, node: string)

  /** What one transition has to say, in the state before the check. */
  predicate Says(s: State, facts: map<string, Fact>, held: set<string>, t: Transition) {
    match t
    case Raise(key, fact, notify) =>
      key in Raises(s, facts.Keys) && fact == facts[key] && (notify <==> key !in Hushed(s, facts.Keys))
    case Resolve(key, kind, node) =>
      key in Resolves(s, facts.Keys, held) && (kind, node) == SplitKey(key)
  }

  ghost function KeysOf(ts: seq<Transition>): set<string> { set i | 0 <= i < |ts| :: ts[i].key }

  ghost predicate Distinct(ts: seq<Transition>) { forall i, j | 0 <= i < j < |ts| :: ts[i].key != ts[j].key }

  lemma KeysGrow(ts: seq<Transition>, t: Transition)
    ensures KeysOf(ts + [t]) == KeysOf(ts) + {t.key}
    ensures Distinct(ts) && t.key !in KeysOf(ts) ==> Distinct(ts + [t])
  {
    var all := ts + [t];
    assert all[|ts|] == t;
    forall i | 0 <= i < |ts|
      ensures all[i] == ts[i] && all[i].key in KeysOf(ts)
    {
    }
    forall k | k in KeysOf(ts)
      ensures k in KeysOf(all)
    {
      var i :| 0 <= i < |ts| && ts[i].key == k;
      assert all[i].key == k;
    }
  }

  /** These transitions, one for each of the keys. */
  ghost predicate Emitted(s: State, facts: map<string, Fact>, held: set<string>, out: seq<Transition>, keys: set<string>) {
    Distinct(out) && KeysOf(out) == keys && forall i | 0 <= i < |out| :: Says(s, facts, held, out[i])
  }

  lemma EmitOne(s: State, facts: map<string, Fact>, held: set<string>, out: seq<Transition>, keys: set<string>, t: Transition)
    requires Emitted(s, facts, held, out, keys) && Says(s, facts, held, t) && t.key !in keys
    ensures Emitted(s, facts, held, out + [t], keys + {t.key})
  {
    KeysGrow(out, t);
  }

  lemma {:induction false} EmitAll(s: State, facts: map<string, Fact>, held: set<string>, a: seq<Transition>, b: seq<Transition>, more: set<string>)
    requires Emitted(s, facts, held, a, KeysOf(a)) && Emitted(s, facts, held, b, more) && KeysOf(a) !! more
    ensures Emitted(s, facts, held, a + b, KeysOf(a) + more)
    decreases |b|
  {
    if b == [] {
      assert a + b == a;
    } else {
      var c, t := b[..|b| - 1], b[|b| - 1];
      assert b == c + [t] && a + b == (a + c) + [t];
      KeysGrow(c, t);
      EmitAll(s, facts, held, a, c, KeysOf(c));
      assert t.key !in KeysOf(c) by { assert forall i | 0 <= i < |c| :: b[i].key != b[|b| - 1].key; }
      EmitOne(s, facts, held, a + c, KeysOf(a) + KeysOf(c), t);
    }
  }

  /** The counts, the open faults and what was said when the faults `todo` are still to be counted. */
  ghost predicate Counted(s: State, facts: map<string, Fact>, held: set<string>, todo: set<string>,
                          bad: map<string, nat>, open: set<string>, out: seq<Transition>)
  {
    && todo <= facts.Keys
    && (forall k :: k in bad <==> k in s.bad || (k in facts && k !in todo))
    && (forall k | k in bad :: bad[k] == Count(s, k) + if k in facts && k !in todo then 1 else 0)
    && (forall k :: k in open <==> k in s.open || (k in Raises(s, facts.Keys) && k !in todo))
    && Emitted(s, facts, held, out, Raises(s, facts.Keys) - todo)
  }

  lemma CountNone(s: State, facts: map<string, Fact>, held: set<string>)
    ensures Counted(s, facts, held, facts.Keys, s.bad, s.open, [])
  {
    assert Raises(s, facts.Keys) - facts.Keys == {};
  }

  lemma CountOne(s: State, facts: map<string, Fact>, held: set<string>, todo: set<string>,
                 bad: map<string, nat>, open: set<string>, out: seq<Transition>, key: string, notify: bool)
    requires Counted(s, facts, held, todo, bad, open, out) && key in todo
    requires notify <==> key !in Hushed(s, facts.Keys)
    ensures var n: nat := (if key in bad then bad[key] else 0) + 1;
            if n >= CONFIRM_AFTER && key !in open
            then Counted(s, facts, held, todo - {key}, bad[key := n], open + {key}, out + [Raise(key, facts[key], notify)])
            else Counted(s, facts, held, todo - {key}, bad[key := n], open, out)
  {
    var raises := Raises(s, facts.Keys);
    if key in raises {
      EmitOne(s, facts, held, out, raises - todo, Raise(key, facts[key], notify));
      assert raises - (todo - {key}) == raises - todo + {key};
    } else {
      assert raises - (todo - {key}) == raises - todo;
    }
  }

  /** The open faults and what was said when `todo` of those open before are still to be looked at. */
  ghost predicate Closed(s: State, facts: map<string, Fact>, held: set<string>, was: set<string>, todo: set<string>,
                         open: set<string>, out: seq<Transition>)
  {
    && todo <= was
    && (forall k :: k in open <==> k in was && (k in Resolves(s, facts.Keys, held) ==> k in todo))
    && Emitted(s, facts, held, out, Resolves(s, facts.Keys, held) - todo)
  }

  lemma CloseOne(s: State, facts: map<string, Fact>, held: set<string>, was: set<string>, todo: set<string>,
                 open: set<string>, out: seq<Transition>, key: string, kind: string, node: string)
    requires Closed(s, facts, held, was, todo, open, out) && key in todo && (kind, node) == SplitKey(key)
    requires was == s.open + Raises(s, facts.Keys)
    ensures if key !in facts && node !in held
            then Closed(s, facts, held, was, todo - {key}, open - {key}, out + [Resolve(key, kind, node)])
            else Closed(s, facts, held, was, todo - {key}, open, out)
  {
    var resolves := Resolves(s, facts.Keys, held);
    if key in resolves {
      EmitOne(s, facts, held, out, resolves - todo, Resolve(key, kind, node));
      assert resolves - (todo - {key}) == resolves - todo + {key};
    } else {
      assert resolves - (todo - {key}) == resolves - todo;
    }
  }

  /** What is left of the counts and the hush when `todo` are still to be looked at. */
  ghost predicate Forgotten(bad0: map<string, nat>, quiet0: set<string>, facts: set<string>, todo: set<string>, bad: map<string, nat>, quiet: set<string>) {
    && todo <= bad0.Keys
    && (forall k :: k in bad <==> k in bad0 && (k in facts || k in todo))
    && (forall k | k in bad :: bad[k] == bad0[k])
    && (forall k :: k in quiet <==> k in quiet0 && (k in bad0 ==> k in facts || k in todo))
  }

  lemma ForgetOne(bad0: map<string, nat>, quiet0: set<string>, facts: set<string>, todo: set<string>, bad: map<string, nat>, quiet: set<string>, key: string)
    requires Forgotten(bad0, quiet0, facts, todo, bad, quiet) && key in todo
    ensures if key in facts then Forgotten(bad0, quiet0, facts, todo - {key}, bad, quiet)
            else Forgotten(bad0, quiet0, facts, todo - {key}, bad - {key}, quiet - {key})
  {
  }

  /** The three rounds together make one check. */
  lemma TogetherApplied(s: State, facts: map<string, Fact>, held: set<string>,
                        counts: map<string, nat>, risen: set<string>, raised: seq<Transition>, hushed: set<string>,
                        bad: map<string, nat>, quiet: set<string>, open: set<string>, closed: seq<Transition>)
    requires Counted(s, facts, held, {}, counts, risen, raised) && hushed == Hushed(s, facts.Keys)
    requires Forgotten(counts, hushed, facts.Keys, {}, bad, quiet)
    requires Closed(s, facts, held, risen, {}, open, closed)
    ensures State(true, bad, open, quiet) == Applied(s, facts.Keys, held)
    ensures Emitted(s, facts, held, raised + closed, Raises(s, facts.Keys) + Resolves(s, facts.Keys, held))
  {
    var applied := Applied(s, facts.Keys, held);
    assert bad == applied.bad;
    assert open == applied.open;
    assert quiet == applied.quiet;
    assert Raises(s, facts.Keys) - {} == Raises(s, facts.Keys) && Resolves(s, facts.Keys, held) - {} == Resolves(s, facts.Keys, held);
    EmitAll(s, facts, held, raised, closed, Resolves(s, facts.Keys, held));
  }

  class Confirmer {
    var started: bool
    var bad: map<string, nat>
    var open: set<string>
    var quiet: set<string>

    ghost function Now(): State reads this { State(started, bad, open, quiet) }

    constructor ()
      ensures Now() == EMPTY
    {
      started, bad, open, quiet := false, map[], {}, {};
    }

    /** Alerts left open by an earlier run count as open and nothing is hushed; only the confirmed kinds are taken. */
    method Seed(alerts: seq<(string, string)>, confirmed: set<string>)
      modifies this
      ensures Now() == Seeded(old(Now()), alerts, confirmed)
    {
      started := true;
      for i := 0 to |alerts|
        invariant Now() == Seeded(old(Now()), alerts[..i], confirmed)
      {
        assert alerts[..i + 1] == alerts[..i] + [alerts[i]];
        if alerts[i].0 in confirmed {
          open := open + {FactKey(alerts[i].0, alerts[i].1)};
        }
      }
      assert alerts[..|alerts|] == alerts;
    }

    method Reset()
      modifies this
      ensures Now() == old(Now()).(bad := map[])
    {
      bad := map[];
    }

    method Apply(facts: map<string, Fact>, held: set<string>) returns (out: seq<Transition>)
      modifies this
      ensures Now() == Applied(old(Now()), facts.Keys, held)
      ensures Emitted(old(Now()), facts, held, out, Raises(old(Now()), facts.Keys) + Resolves(old(Now()), facts.Keys, held))
    {
      ghost var s := Now();
      if !started {
        started := true;
        quiet := quiet + facts.Keys;
      }
      out := CountFacts(s, facts, held);
      ghost var counts, risen, hushed := bad, open, quiet;
      assert open == s.open + Raises(s, facts.Keys);
      Forget(facts);
      var closed := Close(s, facts, held);
      TogetherApplied(s, facts, held, counts, risen, out, hushed, bad, quiet, open, closed);
      out := out + closed;
    }

    /** Counts one fault and opens it when it has been seen often enough. */
    method CountFact(key: string) returns (opens: bool)
      modifies `bad, `open
      ensures var n: nat := (if key in old(bad) then old(bad)[key] else 0) + 1;
              bad == old(bad)[key := n] && (opens <==> n >= CONFIRM_AFTER && key !in old(open))
      ensures open == if opens then old(open) + {key} else old(open)
    {
      var n: nat := (if key in bad then bad[key] else 0) + 1;
      bad := bad[key := n];
      opens := n >= CONFIRM_AFTER && key !in open;
      if opens {
        open := open + {key};
      }
    }

    /** Counts the faults of this check. */
    method CountFacts(ghost s: State, facts: map<string, Fact>, ghost held: set<string>) returns (out: seq<Transition>)
      requires quiet == Hushed(s, facts.Keys) && bad == s.bad && open == s.open
      modifies `bad, `open
      ensures Counted(s, facts, held, {}, bad, open, out)
    {
      out := [];
      var todo := facts.Keys;
      CountNone(s, facts, held);
      while todo != {}
        invariant Counted(s, facts, held, todo, bad, open, out)
        decreases |todo|
      {
        var key :| key in todo;
        CountOne(s, facts, held, todo, bad, open, out, key, key !in quiet);
        var opens := CountFact(key);
        if opens {
          out := out + [Raise(key, facts[key], key !in quiet)];
        }
        todo := todo - {key};
      }
    }

    /** Forgets the counts, and the hush, of faults this check does not show. */
    method Forget(facts: map<string, Fact>)
      modifies `bad, `quiet
      ensures Forgotten(old(bad), old(quiet), facts.Keys, {}, bad, quiet)
    {
      var todo := bad.Keys;
      while todo != {}
        invariant Forgotten(old(bad), old(quiet), facts.Keys, todo, bad, quiet)
        decreases |todo|
      {
        var key :| key in todo;
        ForgetOne(old(bad), old(quiet), facts.Keys, todo, bad, quiet, key);
        todo := todo - {key};
        if key !in facts {
          bad := bad - {key};
          quiet := quiet - {key};
        }
      }
    }

    /** Closes what this check does not show, except on machines that are off. */
    method Close(ghost s: State, facts: map<string, Fact>, held: set<string>) returns (out: seq<Transition>)
      requires open == s.open + Raises(s, facts.Keys)
      modifies `open
      ensures Closed(s, facts, held, old(open), {}, open, out)
    {
      out := [];
      var todo := open;
      assert Resolves(s, facts.Keys, held) - todo == {};
      while todo != {}
        invariant Closed(s, facts, held, old(open), todo, open, out)
        decreases |todo|
      {
        var key :| key in todo;
        var (kind, node) := SplitKey(key);
        CloseOne(s, facts, held, old(open), todo, open, out, key, kind, node);
        todo := todo - {key};
        if key !in facts && node !in held {
          open := open - {key};
          out := out + [Resolve(key, kind, node)];
        }
      }
    }
  }
}
