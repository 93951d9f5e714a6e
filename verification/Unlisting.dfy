/**
 What taking a deleted file off the lists does to the rest of a checkout: every other file is applied or not as before,
 and a folder's kustomization goes only when nothing is left for it to say.
 */
module Unlisting {
  import opened Kustomize

  // ---- one list ----

  lemma {:induction false} WithoutJoin(a: seq<string>, b: seq<string>, entry: string)
    ensures Without(a + b, entry) == Without(a, entry) + Without(b, entry)
    decreases |b|
  {
    if b == [] {
      assert a + b == a;
    } else {
      assert (a + b)[..|a + b| - 1] == a + b[..|b| - 1];
      WithoutJoin(a, b[..|b| - 1], entry);
    }
  }

  /** Entry by entry: the deleted one goes wherever it stands, every other one stays in its order. */
  lemma WithoutParts(a: seq<string>, x: string, b: seq<string>, entry: string)
    ensures Without(a + [x] + b, entry) == Without(a, entry) + (if x == entry then [] else [x]) + Without(b, entry)
  {
    WithoutJoin(a + [x], b, entry);
    WithoutJoin(a, [x], entry);
    assert [x][..0] == [];
    assert Without([x], entry) == if x == entry then [] else [x];
  }

  lemma WithoutMembers(res: seq<string>, entry: string, x: string)
    ensures x in Without(res, entry) <==> x in res && x != entry
  {
    if i :| 0 <= i < |res| && res[i] == x {
      assert res == res[..i] + [x] + res[i + 1..];
      WithoutParts(res[..i], x, res[i + 1..], entry);
    } else {
      NothingNew(res, entry, x);
    }
  }

  lemma {:induction false} NothingNew(res: seq<string>, entry: string, x: string)
    requires x !in res
    ensures x !in Without(res, entry)
    decreases |res|
  {
    if res != [] {
      NothingNew(res[..|res| - 1], entry, x);
    }
  }

  // ---- which kustomizations go ----

  /**
   The folder at depth `j` on the way up says nothing any more once the step below it is gone: its kustomization lists
   that step only, and there is nothing else in the folder.
   */
  predicate LeftBare(t: Tree, p: Path, j: nat)
    requires j < |p|
  {
    && p[..j] in t.kusts && t.kusts[p[..j]].Listing? && t.kusts[p[..j]].bare
    && p[j] in t.kusts[p[..j]].resources && (forall r | r in t.kusts[p[..j]].resources :: r == p[j])
    && (forall q | q in t.others :: !Under(p[..j], q))
    && (forall q | q in t.kusts && Under(p[..j], q) :: |q| < |p| && q == p[..|q|])
  }

  predicate AllBare(t: Tree, p: Path, m: nat) { forall j | m <= j < |p| :: LeftBare(t, p, j) }

  /** The kustomization of `g` goes: `g` is a folder on the way up, and all is bare from there down. */
  predicate Goes(t: Tree, p: Path, g: Path) { 0 < |g| < |p| && g == p[..|g|] && AllBare(t, p, |g|) }

  /** The list of `g` is the one that loses the step below it: everything further down is gone. */
  predicate Loses(t: Tree, p: Path, g: Path) { |g| < |p| && g == p[..|g|] && AllBare(t, p, |g| + 1) && Lists(t, g, p[|g|]) }

  lemma VacantMeansBare(t: Tree, p: Path)
    requires p != [] && Lists(t, p[..|p| - 1], p[|p| - 1])
    ensures var f := p[..|p| - 1]; Vacant(Delist(t, f, p[|p| - 1]), f) <==> LeftBare(t, p, |p| - 1)
  {
    var f, entry := p[..|p| - 1], p[|p| - 1];
    var res := t.kusts[f].resources;
    var t' := Delist(t, f, entry);
    assert t'.kusts.Keys == t.kusts.Keys;
    if Without(res, entry) == [] {
      forall r | r in res
        ensures r == entry
      {
        WithoutMembers(res, entry, r);
      }
    } else {
      WithoutMembers(res, entry, Without(res, entry)[0]);
    }
  }

  function Bereft(t: Tree, folder: Path): Tree { t.(kusts := t.kusts - {folder}) }

  /** With the lowest folder gone, the ones above are judged as before. */
  lemma BareAbove(t: Tree, p: Path, j: nat)
    requires p != [] && LeftBare(t, p, |p| - 1) && j < |p| - 1
    ensures LeftBare(Bereft(t, p[..|p| - 1]), p[..|p| - 1], j) <==> LeftBare(t, p, j)
  {
    var f := p[..|p| - 1];
    assert f[..j] == p[..j] && f[j] == p[j] && |p[..j]| != |f|;
    forall q | q in t.kusts && q != f
      ensures |q| < |f| && q == f[..|q|] <==> |q| < |p| && q == p[..|q|]
    {
      if |q| < |f| {
        assert f[..|q|] == p[..|q|];
      }
    }
  }

  lemma AllBareAbove(t: Tree, p: Path, m: nat)
    requires p != [] && LeftBare(t, p, |p| - 1) && m < |p|
    ensures AllBare(Bereft(t, p[..|p| - 1]), p[..|p| - 1], m) <==> AllBare(t, p, m)
  {
    var f := p[..|p| - 1];
    forall j: nat | m <= j < |p| - 1
      ensures LeftBare(Bereft(t, f), f, j) <==> LeftBare(t, p, j)
    {
      BareAbove(t, p, j);
    }
    if AllBare(Bereft(t, f), f, m) {
      forall j: nat | m <= j < |p|
        ensures LeftBare(t, p, j)
      {
        if j < |p| - 1 {
          assert LeftBare(Bereft(t, f), f, j);
        }
      }
    }
  }

  /** What becomes of the kustomization of `g`. */
  ghost predicate Settles(t: Tree, p: Path, g: Path, after: Tree) {
    && after.others == t.others
    && (g in after.kusts <==> g in t.kusts && !Goes(t, p, g))
    && (g in after.kusts ==>
          after.kusts[g] == if Loses(t, p, g) then t.kusts[g].(resources := Without(t.kusts[g].resources, p[|g|])) else t.kusts[g])
  }

  /** One round of the way up, when it goes on. */
  lemma RoundSettles(t: Tree, p: Path, g: Path, after: Tree)
    requires |p| > 1 && Lists(t, p[..|p| - 1], p[|p| - 1]) && LeftBare(t, p, |p| - 1)
    requires Settles(Bereft(t, p[..|p| - 1]), p[..|p| - 1], g, after)
    ensures Settles(t, p, g, after)
  {
    var f := p[..|p| - 1];
    if |g| < |f| {
      assert f[..|g|] == p[..|g|] && f[|g|] == p[|g|];
      AllBareAbove(t, p, |g|);
      AllBareAbove(t, p, |g| + 1);
    }
  }

  /** The last round of the way up. */
  lemma LastSettles(t: Tree, p: Path, g: Path)
    requires p != [] && Lists(t, p[..|p| - 1], p[|p| - 1]) && (|p| == 1 || !LeftBare(t, p, |p| - 1))
    ensures Settles(t, p, g, Delist(t, p[..|p| - 1], p[|p| - 1]))
  {
    if |g| < |p| - 1 && |p| > 1 {
      assert !AllBare(t, p, |g|) && !AllBare(t, p, |g| + 1);
    }
  }

  /**
   A kustomization disappears exactly when its folder lies on the way up and is left bare all the way down from it; the
   one above those loses the step below it and no other entry; everything else stays as it was.
   */
  lemma {:induction false} UnlistedExactly(t: Tree, p: Path, g: Path)
    requires p != []
    ensures Settles(t, p, g, Unlisted(t, p))
    decreases |p|
  {
    var f, entry := p[..|p| - 1], p[|p| - 1];
    if !Lists(t, f, entry) {
      assert !LeftBare(t, p, |p| - 1);
      if |g| < |p| - 1 {
        assert !AllBare(t, p, |g|) && !AllBare(t, p, |g| + 1);
      }
    } else {
      var t' := Delist(t, f, entry);
      VacantMeansBare(t, p);
      if f != [] && Vacant(t', f) {
        assert t'.(kusts := t'.kusts - {f}) == Bereft(t, f);
        UnlistedExactly(Bereft(t, f), f, g);
        RoundSettles(t, p, g, Unlisted(t, p));
      } else {
        LastSettles(t, p, g);
      }
    }
  }

  // ---- the other files ----

  /** A file that remains: not the deleted path nor in it, and no folder. */
  predicate Remains(t: Tree, p: Path, q: Path) { q in t.others && q !in t.kusts && q != p && !Under(p, q) }

  lemma NoneGoesOnWay(t: Tree, p: Path, q: Path, i: nat)
    requires Remains(t, p, q) && i < |q|
    ensures !Goes(t, p, q[..i])
  {
    assert Under(q[..i], q);
    assert i < |p| && AllBare(t, p, i) ==> LeftBare(t, p, i);
  }

  /** The folders on the way to a remaining file keep their kustomizations, and the entries that lead to it. */
  lemma WayKept(t: Tree, p: Path, q: Path, i: nat)
    requires p != [] && Remains(t, p, q) && i < |q|
    ensures q[..i] in Unlisted(t, p).kusts <==> q[..i] in t.kusts
    ensures q[..i] in t.kusts ==>
              && (Unlisted(t, p).kusts[q[..i]].Listing? <==> t.kusts[q[..i]].Listing?)
              && (t.kusts[q[..i]].Listing? ==> (q[i] in Unlisted(t, p).kusts[q[..i]].resources <==> q[i] in t.kusts[q[..i]].resources))
  {
    var g := q[..i];
    UnlistedExactly(t, p, g);
    NoneGoesOnWay(t, p, q, i);
    if Loses(t, p, g) {
      WithoutMembers(t.kusts[g].resources, p[i], q[i]);
      StepLeadsElsewhere(t, p, q, i);
    }
  }

  /** The step that is taken off a list does not lead to a remaining file. */
  lemma StepLeadsElsewhere(t: Tree, p: Path, q: Path, i: nat)
    requires Remains(t, p, q) && i < |p| && i < |q| && q[..i] == p[..i] && AllBare(t, p, i + 1)
    ensures q[i] != p[i]
  {
    assert q[..i + 1] == q[..i] + [q[i]] && p[..i + 1] == p[..i] + [p[i]];
    assert |q| == i + 1 ==> q == q[..i + 1];
    if i + 1 < |p| {
      assert LeftBare(t, p, i + 1);
    } else {
      assert p[..i + 1] == p;
    }
  }

  /** Taking a deleted file off the lists makes Flux apply no other file and leave no other file out. */
  lemma UnlistingKeepsOthers(t: Tree, root: Path, p: Path, q: Path)
    requires p != [] && Remains(t, p, q)
    ensures Accepts(Unlisted(t, p), root, q) <==> Accepts(t, root, q)
  {
    if Under(root, q) {
      forall i: nat | |root| <= i < |q|
        ensures Gate(Unlisted(t, p), root, q, i) <==> Gate(t, root, q, i)
      {
        WayKept(t, p, q, i);
        forall k: nat | |root| <= k < i
          ensures q[..k] in Unlisted(t, p).kusts <==> q[..k] in t.kusts
        {
          WayKept(t, p, q, k);
        }
      }
    }
  }
}
