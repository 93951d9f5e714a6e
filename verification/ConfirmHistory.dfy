/**
 What the confirmer's steps amount to over whole histories of checks and resets: when a fault is open, how raises and
 resolves follow each other, and which raises are kept quiet.
 */
module ConfirmHistory {
  import opened Confirm

  datatype Check = Reset | Apply(facts: set<string>, held: set<string>)

  function Step(s: State, c: Check): State {
    match c
    case Reset => s.(bad := map[])
    case Apply(facts, held) => Applied(s, facts, held)
  }

  function After(s0: State, h: seq<Check>): State {
    if h == [] then s0 else Step(After(s0, h[..|h| - 1]), h[|h| - 1])
  }

  /** A confirmer as made, or as seeded with alerts an earlier run left open. */
  predicate Fresh(s0: State) { s0.bad == map[] && s0.quiet == {} }

  /** Check `i` shows the fault. */
  predicate Bad(h: seq<Check>, i: int, k: string) { 0 <= i < |h| && h[i].Apply? && k in h[i].facts }

  /** Check `j` shows the fault gone: it is not reported, and its machine is not known to be off. */
  predicate Gone(h: seq<Check>, j: int, k: string) { 0 <= j < |h| && h[j].Apply? && k !in h[j].facts && NodeOf(k) !in h[j].held }

  /** Three checks in a row, the last of them `c`, show the fault, with no reset among them. */
  predicate Thrice(h: seq<Check>, c: int, k: string) { Bad(h, c - 2, k) && Bad(h, c - 1, k) && Bad(h, c, k) }

  lemma Shorter(h: seq<Check>, i: int, k: string)
    requires 0 <= i < |h| - 1
    ensures Bad(h, i, k) <==> Bad(h[..|h| - 1], i, k)
    ensures Gone(h, i, k) <==> Gone(h[..|h| - 1], i, k)
  {
  }

  /** The count of a fault is how many checks in a row, up to the last one, have shown it. */
  lemma {:induction false} CountIsRun(s0: State, h: seq<Check>, k: string, n: nat)
    requires Fresh(s0)
    ensures Count(After(s0, h), k) >= n <==> n <= |h| && forall i | |h| - n <= i < |h| :: Bad(h, i, k)
    decreases |h|
  {
    if h == [] || n == 0 {
      assert n == 0 || Count(s0, k) == 0;
    } else {
      var g := h[..|h| - 1];
      CountIsRun(s0, g, k, n - 1);
      if Bad(h, |h| - 1, k) {
        assert Count(After(s0, h), k) == Count(After(s0, g), k) + 1;
        assert forall i | |g| - (n - 1) <= i < |g| && 0 <= i :: Bad(h, i, k) <==> Bad(g, i, k);
        if n <= |h| && forall i | |h| - n <= i < |h| :: Bad(h, i, k) {
          assert forall i | |g| - (n - 1) <= i < |g| :: Bad(g, i, k) by {
            forall i | |g| - (n - 1) <= i < |g| ensures Bad(g, i, k) { assert Bad(h, i, k); }
          }
        }
      } else {
        assert Count(After(s0, h), k) == 0;
      }
    }
  }

  /** Open because of three checks in a row that nothing has cleared since. */
  ghost predicate OpenSince(h: seq<Check>, c: int, k: string) {
    Thrice(h, c, k) && forall j | c < j < |h| :: !Gone(h, j, k)
  }

  ghost predicate NeverGone(h: seq<Check>, k: string) { forall j | 0 <= j < |h| :: !Gone(h, j, k) }

  /** The statement over histories that the confirmer implements. */
  ghost predicate ShouldBeOpen(s0: State, h: seq<Check>, k: string) {
    (exists c :: OpenSince(h, c, k)) || (k in s0.open && NeverGone(h, k))
  }

  lemma OneMore(h: seq<Check>, k: string, c: int)
    requires h != [] && c < |h| - 1
    ensures OpenSince(h, c, k) <==> OpenSince(h[..|h| - 1], c, k) && !Gone(h, |h| - 1, k)
  {
    var g := h[..|h| - 1];
    forall j | 0 <= j < |g|
      ensures Gone(h, j, k) <==> Gone(g, j, k)
      ensures Bad(h, j, k) <==> Bad(g, j, k)
    {
      Shorter(h, j, k);
    }
    if Thrice(h, c, k) {
      assert Bad(h, c - 2, k) && Bad(h, c - 1, k);
    }
  }

  /** How the statement over histories changes with one more check. */
  lemma StatementStep(s0: State, h: seq<Check>, k: string)
    requires h != []
    ensures ShouldBeOpen(s0, h, k) <==> Thrice(h, |h| - 1, k) || (ShouldBeOpen(s0, h[..|h| - 1], k) && !Gone(h, |h| - 1, k))
  {
    var g := h[..|h| - 1];
    assert Thrice(h, |h| - 1, k) <==> OpenSince(h, |h| - 1, k);
    forall c | c < |g|
      ensures OpenSince(h, c, k) <==> OpenSince(g, c, k) && !Gone(h, |h| - 1, k)
    {
      OneMore(h, k, c);
    }
    assert forall c | c >= |g| :: !OpenSince(g, c, k) by { assert forall c | c >= |g| :: !Bad(g, c, k); }
    assert forall c | c > |g| :: !OpenSince(h, c, k) by { assert forall c | c > |g| :: !Bad(h, c, k); }
    forall j | 0 <= j < |g|
      ensures Gone(h, j, k) <==> Gone(g, j, k)
    {
      Shorter(h, j, k);
    }
  }

  /**
   A fault is open exactly when some three checks in a row without a reset showed it, or it was open to begin with,
   and no check since has shown it gone.
   */
  lemma {:induction false} OpenExactly(s0: State, h: seq<Check>, k: string)
    requires Fresh(s0)
    ensures k in After(s0, h).open <==> ShouldBeOpen(s0, h, k)
    decreases |h|
  {
    if h == [] {
      assert forall c :: !Bad(h, c, k);
    } else {
      var g, last := h[..|h| - 1], h[|h| - 1];
      OpenExactly(s0, g, k);
      StatementStep(s0, h, k);
      if Bad(h, |h| - 1, k) {
        CountIsRun(s0, g, k, 2);
        assert Thrice(h, |h| - 1, k) <==> Count(After(s0, g), k) >= 2 by {
          if |g| >= 2 {
            Shorter(h, |g| - 1, k);
            Shorter(h, |g| - 2, k);
          }
        }
      }
    }
  }

  // ---- raises and resolves ----

  predicate RaisedAt(s0: State, h: seq<Check>, i: int, k: string) {
    0 <= i < |h| && h[i].Apply? && k in Raises(After(s0, h[..i]), h[i].facts)
  }

  predicate ResolvedAt(s0: State, h: seq<Check>, i: int, k: string) {
    0 <= i < |h| && h[i].Apply? && k in Resolves(After(s0, h[..i]), h[i].facts, h[i].held)
  }

  lemma AfterOne(s0: State, h: seq<Check>, i: nat)
    requires i < |h|
    ensures After(s0, h[..i + 1]) == Step(After(s0, h[..i]), h[i])
  {
    assert h[..i + 1][..i] == h[..i];
  }

  /** Only a resolve closes a fault, and only a raise opens one. */
  lemma {:induction false} StaysAsItIs(s0: State, h: seq<Check>, a: nat, b: nat, k: string)
    requires a <= b <= |h|
    ensures k in After(s0, h[..a]).open && (forall m | a <= m < b :: !ResolvedAt(s0, h, m, k)) ==> k in After(s0, h[..b]).open
    ensures k !in After(s0, h[..a]).open && (forall m | a <= m < b :: !RaisedAt(s0, h, m, k)) ==> k !in After(s0, h[..b]).open
    decreases b
  {
    if a < b {
      StaysAsItIs(s0, h, a, b - 1, k);
      AfterOne(s0, h, b - 1);
      assert h[..b - 1 + 1] == h[..b];
      if forall m | a <= m < b :: !ResolvedAt(s0, h, m, k) {
        assert !ResolvedAt(s0, h, b - 1, k);
      }
      if forall m | a <= m < b :: !RaisedAt(s0, h, m, k) {
        assert !RaisedAt(s0, h, b - 1, k);
      }
    }
  }

  lemma OpenAfter(s0: State, h: seq<Check>, i: int, k: string)
    requires 0 <= i < |h|
    ensures RaisedAt(s0, h, i, k) ==> k in After(s0, h[..i + 1]).open
    ensures ResolvedAt(s0, h, i, k) ==> k !in After(s0, h[..i + 1]).open
  {
    AfterOne(s0, h, i);
  }

  lemma OpenBefore(s0: State, h: seq<Check>, i: int, k: string)
    requires 0 <= i < |h|
    ensures RaisedAt(s0, h, i, k) ==> k !in After(s0, h[..i]).open
    ensures ResolvedAt(s0, h, i, k) ==> k in After(s0, h[..i]).open
  {
  }

  /** Raises and resolves of a fault strictly alternate, starting with a raise unless it was open to begin with. */
  lemma Alternate(s0: State, h: seq<Check>, i: int, j: int, k: string)
    requires 0 <= i < j < |h|
    ensures RaisedAt(s0, h, i, k) && RaisedAt(s0, h, j, k) ==> exists m | i < m < j :: ResolvedAt(s0, h, m, k)
    ensures ResolvedAt(s0, h, i, k) && ResolvedAt(s0, h, j, k) ==> exists m | i < m < j :: RaisedAt(s0, h, m, k)
  {
    OpenAfter(s0, h, i, k);
    OpenBefore(s0, h, j, k);
    StaysAsItIs(s0, h, i + 1, j, k);
  }

  lemma RaisedFirst(s0: State, h: seq<Check>, j: int, k: string)
    requires ResolvedAt(s0, h, j, k) && k !in s0.open
    ensures exists m | 0 <= m < j :: RaisedAt(s0, h, m, k)
  {
    OpenBefore(s0, h, j, k);
    assert h[..0] == [];
    StaysAsItIs(s0, h, 0, j, k);
  }

  // ---- what is kept quiet ----

  /** The first check of the run. */
  predicate FirstApply(h: seq<Check>, f: int) { 0 <= f < |h| && h[f].Apply? && forall j | 0 <= j < f :: h[j].Reset? }

  /** A check without the fault right after one with it: the only thing that ends a hush. */
  predicate SeenToEnd(h: seq<Check>, j: int, k: string) { 1 <= j < |h| && Bad(h, j - 1, k) && h[j].Apply? && k !in h[j].facts }

  ghost predicate HushedSince(h: seq<Check>, f: int, k: string) {
    FirstApply(h, f) && Bad(h, f, k) && forall j | 0 <= j < |h| :: !SeenToEnd(h, j, k)
  }

  ghost predicate ShouldBeHushed(h: seq<Check>, k: string) { exists f :: HushedSince(h, f, k) }

  lemma {:induction false} Started(s0: State, h: seq<Check>)
    ensures After(s0, h).started <==> s0.started || exists i | 0 <= i < |h| :: h[i].Apply?
    decreases |h|
  {
    if h != [] {
      Started(s0, h[..|h| - 1]);
      assert forall i | 0 <= i < |h| - 1 :: h[i] == h[..|h| - 1][i];
    }
  }

  lemma HushStep(h: seq<Check>, f: int, k: string)
    requires h != [] && f < |h| - 1
    ensures HushedSince(h, f, k) <==> HushedSince(h[..|h| - 1], f, k) && !SeenToEnd(h, |h| - 1, k)
  {
    var g := h[..|h| - 1];
    forall j | 0 <= j < |g|
      ensures SeenToEnd(h, j, k) <==> SeenToEnd(g, j, k)
      ensures Bad(h, j, k) <==> Bad(g, j, k)
    {
      Shorter(h, j, k);
      if j > 0 {
        Shorter(h, j - 1, k);
      }
    }
  }

  /** A fault is hushed exactly when the first check showed it and no check without it directly followed one with it. */
  lemma {:induction false} HushedExactly(s0: State, h: seq<Check>, k: string)
    requires Fresh(s0)
    ensures k in After(s0, h).quiet <==> !s0.started && ShouldBeHushed(h, k)
    decreases |h|
  {
    if h != [] {
      var g, last := h[..|h| - 1], h[|h| - 1];
      HushedExactly(s0, g, k);
      Started(s0, g);
      CountIsRun(s0, g, k, 1);
      assert |g| > 0 ==> (Bad(h, |g| - 1, k) <==> Bad(g, |g| - 1, k));
      HushedCases(h, k);
      PositiveCounts(s0, g, k);
    }
  }

  lemma {:induction false} PositiveCounts(s0: State, h: seq<Check>, k: string)
    requires Fresh(s0)
    ensures k in After(s0, h).bad <==> Count(After(s0, h), k) >= 1
  {
  }

  lemma HushedCases(h: seq<Check>, k: string)
    requires h != []
    ensures ShouldBeHushed(h, k) <==> (ShouldBeHushed(h[..|h| - 1], k) && !SeenToEnd(h, |h| - 1, k)) || (FirstApply(h, |h| - 1) && Bad(h, |h| - 1, k))
  {
    var g := h[..|h| - 1];
    forall f | f < |g|
      ensures HushedSince(h, f, k) <==> HushedSince(g, f, k) && !SeenToEnd(h, |h| - 1, k)
    {
      HushStep(h, f, k);
    }
    if FirstApply(h, |g|) && Bad(h, |g|, k) {
      assert HushedSince(h, |g|, k) by {
        forall j | 0 <= j < |h|
          ensures !SeenToEnd(h, j, k)
        {
          assert j < |g| ==> h[j].Reset?;
        }
      }
    }
  }

  /** Whether the raise of a fault at check `i` is sent without a notification. */
  predicate Unannounced(s0: State, h: seq<Check>, i: int, k: string) {
    RaisedAt(s0, h, i, k) && k in Hushed(After(s0, h[..i]), h[i].facts)
  }

  /**
   In a run without resets, a raise goes unannounced exactly when it is the third check of an unseeded run and the
   fault has been there from the first.
   */
  lemma UnannouncedWithoutReset(s0: State, h: seq<Check>, i: int, k: string)
    requires Fresh(s0) && RaisedAt(s0, h, i, k) && forall j | 0 <= j < |h| :: h[j].Apply?
    ensures Unannounced(s0, h, i, k) <==> !s0.started && forall j | 0 <= j <= i :: Bad(h, j, k)
  {
    var g := h[..i];
    CountIsRun(s0, g, k, 2);
    assert Bad(g, i - 1, k) && Bad(g, i - 2, k);
    HushedExactly(s0, g, k);
    Started(s0, g);
    assert g[0].Apply?;
    if ShouldBeHushed(g, k) {
      var f :| HushedSince(g, f, k);
      assert f == 0;
      BadThroughout(g, k, i - 1);
      assert forall j | 0 <= j < i :: Bad(g, j, k) <==> Bad(h, j, k);
    } else if !s0.started && forall j | 0 <= j <= i :: Bad(h, j, k) {
      assert Bad(h, 0, k) && Bad(g, 0, k);
      forall j | 0 <= j < |g|
        ensures !SeenToEnd(g, j, k)
      {
        assert Bad(h, j, k);
      }
      assert HushedSince(g, 0, k);
    }
  }

  lemma {:induction false} BadThroughout(h: seq<Check>, k: string, n: int)
    requires HushedSince(h, 0, k) && n < |h| && forall j | 0 <= j < |h| :: h[j].Apply?
    ensures forall j | 0 <= j <= n :: Bad(h, j, k)
    decreases n
  {
    if n > 0 {
      BadThroughout(h, k, n - 1);
      assert Bad(h, n - 1, k) && !SeenToEnd(h, n, k);
    }
  }

  /** With a reset in between it is otherwise: a fault that went away and came back is raised without a notification. */
  lemma ResetKeepsHush(k: string)
    requires NodeOf(k) == ""
    ensures var bad, good := Apply({k}, {}), Apply({}, {});
            var h := [bad, Reset, good, bad, bad, bad];
            RaisedAt(EMPTY, h, 5, k) && Unannounced(EMPTY, h, 5, k) && !Bad(h, 2, k)
  {
    var bad, good := Apply({k}, {}), Apply({}, {});
    var h := [bad, Reset, good, bad, bad, bad];
    var g := h[..5];
    CountIsRun(EMPTY, g, k, 2);
    assert Bad(g, 3, k) && Bad(g, 4, k);
    OpenExactly(EMPTY, g, k);
    assert !Bad(g, 2, k) && !Bad(g, 1, k);
    assert forall c | c >= 5 || c < 0 :: !Bad(g, c, k);
    assert forall c :: !Thrice(g, c, k);
    HushedExactly(EMPTY, g, k);
    assert HushedSince(g, 0, k);
    Started(EMPTY, g);
    assert g[0].Apply?;
  }
}
