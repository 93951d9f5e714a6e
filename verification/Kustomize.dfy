/**
 Kustomization files in a checkout: which files Flux applies, and the edits that put a new file on the lists that
 lead to it and take a deleted one off again.
 */
module Kustomize {

  /** Folder names and, for a file, its name; the repository root is the empty path. */
  type Path = seq<string>

  /** A kustomization: its resource list, and whether it says nothing else; or a file that is no such thing. */
  datatype Doc = Listing(resources: seq<string>, bare: bool) | Broken

  /** A checkout: the kustomization of each folder that has one, and every other file. */
  datatype Tree = Tree(kusts: map<Path, Doc>, others: set<Path>)

  predicate Under(folder: Path, p: Path) { |folder| < |p| && folder == p[..|folder|] }

  // ---- what Flux applies ----

  /** The step from folder `p[..i]` to its entry `p[i]` is taken, starting from `root`. */
  ghost predicate Gate(t: Tree, root: Path, p: Path, i: nat)
    requires |root| <= i < |p|
  {
    if p[..i] in t.kusts then t.kusts[p[..i]].Listing? && p[i] in t.kusts[p[..i]].resources
    else forall k | |root| <= k < i :: p[..k] !in t.kusts
  }

  /** Every step on the way is taken: listed where there is a list, and no list missing below one. */
  ghost predicate Accepts(t: Tree, root: Path, p: Path) {
    Under(root, p) && forall i | |root| <= i < |p| :: Gate(t, root, p, i)
  }

  /** The code's walk from the root of the Flux source to the file. */
  method Applied(t: Tree, root: Path, p: Path) returns (ok: bool)
    requires p != []
    ensures ok <==> Accepts(t, root, p)
  {
    if !(|root| < |p| && root == p[..|root|]) {
      return false;
    }
    var isExplicit := false;
    for i := |root| to |p|
      invariant isExplicit <==> exists k | |root| <= k < i :: p[..k] in t.kusts
      invariant forall k | |root| <= k < i :: Gate(t, root, p, k)
    {
      if p[..i] in t.kusts {
        isExplicit := true;
        var doc := t.kusts[p[..i]];
        if doc.Broken? || p[i] !in doc.resources {
          assert !Gate(t, root, p, i);
          return false;
        }
      } else if isExplicit {
        assert !Gate(t, root, p, i);
        return false;
      }
    }
    ok := true;
  }

  // ---- listing a new file ----

  /** One more than the depth of the nearest folder above `p[..i]`, or at it, that has a kustomization; 0 if none has. */
  function Nearest(t: Tree, p: Path, i: nat): (n: nat)
    requires i <= |p|
    ensures n <= i + 1
    ensures n > 0 ==> p[..n - 1] in t.kusts
    ensures forall k | n <= k <= i :: p[..k] !in t.kusts
  {
    if p[..i] in t.kusts then i + 1 else if i == 0 then 0 else Nearest(t, p, i - 1)
  }

  /** The folders from depth `from` on get a kustomization that lists the next step. */
  function CreateFrom(t: Tree, p: Path, from: nat): (r: Tree)
    requires from <= |p|
    ensures r.others == t.others && t.kusts.Keys <= r.kusts.Keys
    decreases |p| - from
  {
    if from == |p| then t
    else
      var t' := CreateFrom(t, p, from + 1);
      t'.(kusts := t'.kusts[p[..from] := Listing([p[from]], true)])
  }

  /** Appends an entry to a folder's list unless it is there; nothing happens to a file that is no kustomization. */
  function Enlist(t: Tree, folder: Path, entry: string): Tree
    requires folder in t.kusts
  {
    match t.kusts[folder]
    case Broken => t
    case Listing(res, bare) => if entry in res then t else t.(kusts := t.kusts[folder := Listing(res + [entry], bare)])
  }

  function Listed(t: Tree, p: Path): Tree
    requires p != []
  {
    var n := Nearest(t, p, |p| - 1);
    if n == 0 then t
    else Enlist(CreateFrom(t, p, n), p[..n - 1], p[n - 1])
  }

  lemma {:induction false} CreateAt(t: Tree, p: Path, from: nat, q: Path)
    requires from <= |p|
    ensures q in CreateFrom(t, p, from).kusts <==> q in t.kusts || (from <= |q| < |p| && q == p[..|q|])
    ensures from <= |q| < |p| && q == p[..|q|] ==> CreateFrom(t, p, from).kusts[q] == Listing([p[|q|]], true)
    ensures !(from <= |q| < |p| && q == p[..|q|]) && q in t.kusts ==> CreateFrom(t, p, from).kusts[q] == t.kusts[q]
    decreases |p| - from
  {
    if from < |p| {
      CreateAt(t, p, from + 1, q);
    }
  }

  /** Where listing creates a kustomization: in each folder on the way below the nearest list. */
  predicate Created(t: Tree, p: Path, q: Path)
    requires p != []
  {
    Nearest(t, p, |p| - 1) <= |q| < |p| && q == p[..|q|]
  }

  /** What listing does to a folder other than the nearest one with a list. */
  lemma ListedElsewhere(t: Tree, p: Path, q: Path)
    requires p != [] && Nearest(t, p, |p| - 1) > 0
    ensures q in Listed(t, p).kusts <==> q in t.kusts || Created(t, p, q)
    ensures Created(t, p, q) ==> q !in t.kusts && Listed(t, p).kusts[q] == Listing([p[|q|]], true)
    ensures q in t.kusts && q != p[..Nearest(t, p, |p| - 1) - 1] ==> Listed(t, p).kusts[q] == t.kusts[q]
  {
    CreateAt(t, p, Nearest(t, p, |p| - 1), q);
  }

  /** What it does to the nearest one: the next step is on its list afterwards, and no other entry comes or goes. */
  lemma ListedNearest(t: Tree, p: Path)
    requires p != [] && Nearest(t, p, |p| - 1) > 0
    ensures var n := Nearest(t, p, |p| - 1);
            && p[..n - 1] in t.kusts && p[..n - 1] in Listed(t, p).kusts
            && match t.kusts[p[..n - 1]]
               case Broken => Listed(t, p).kusts[p[..n - 1]] == Broken
               case Listing(res, bare) => Listed(t, p).kusts[p[..n - 1]] == Listing(if p[n - 1] in res then res else res + [p[n - 1]], bare)
  {
    CreateAt(t, p, Nearest(t, p, |p| - 1), p[..Nearest(t, p, |p| - 1) - 1]);
  }

  /** The nearest kustomization above `p` lies at or below the root of the source, is sound, and is itself applied. */
  ghost predicate ReachedList(t: Tree, root: Path, p: Path)
    requires p != []
  {
    var n := Nearest(t, p, |p| - 1);
    && |root| < n && Under(root, p) && t.kusts[p[..n - 1]].Listing?
    && forall i | |root| <= i < n - 1 :: Gate(t, root, p, i)
  }

  lemma NewFileApplied(t: Tree, root: Path, p: Path)
    requires p != [] && ReachedList(t, root, p)
    ensures Accepts(Listed(t, p), root, p)
  {
    var n := Nearest(t, p, |p| - 1);
    forall i | |root| <= i < |p|
      ensures Gate(Listed(t, p), root, p, i)
    {
      if i < n - 1 {
        assert Gate(t, root, p, i);
        GateKept(t, root, p, p, i);
      } else if i == n - 1 {
        ListedNearest(t, p);
      } else {
        assert Created(t, p, p[..i]);
        ListedElsewhere(t, p, p[..i]);
      }
    }
  }

  /** A step out of a folder whose list is the same, with no list created on the way to it, is judged as before. */
  lemma GateKept(t: Tree, root: Path, p: Path, q: Path, i: nat)
    requires p != [] && Nearest(t, p, |p| - 1) > 0 && |root| <= i < |q|
    requires forall k | |root| <= k <= i :: !Created(t, p, q[..k])
    requires q[..i] != p[..Nearest(t, p, |p| - 1) - 1]
    ensures Gate(Listed(t, p), root, q, i) <==> Gate(t, root, q, i)
  {
    forall k | |root| <= k <= i
      ensures q[..k] in Listed(t, p).kusts <==> q[..k] in t.kusts
    {
      ListedElsewhere(t, p, q[..k]);
    }
    ListedElsewhere(t, p, q[..i]);
  }

  /** How far two paths agree. */
  function Common(p: Path, q: Path): (c: nat)
    ensures c <= |p| && c <= |q| && p[..c] == q[..c]
    ensures c < |p| && c < |q| ==> p[c] != q[c]
  {
    if p == [] || q == [] || p[0] != q[0] then 0 else 1 + Common(p[1..], q[1..])
  }

  lemma DiffersPastCommon(p: Path, q: Path, k: nat)
    requires Common(p, q) < k <= |p| && k <= |q|
    ensures q[..k] != p[..k]
  {
    var c := Common(p, q);
    assert q[..k][c] == q[c] && p[..k][c] == p[c];
  }

  lemma NoneCreated(t: Tree, p: Path, q: Path, k: nat)
    requires p != [] && Common(p, q) < Nearest(t, p, |p| - 1) && k <= |q|
    ensures !Created(t, p, q[..k])
  {
    if Nearest(t, p, |p| - 1) <= k < |p| {
      DiffersPastCommon(p, q, k);
    }
  }

  /** Another entry of the nearest folder: it is on the list afterwards exactly if it was before. */
  lemma SiblingKept(t: Tree, root: Path, p: Path, q: Path)
    requires p != [] && Common(p, q) == Nearest(t, p, |p| - 1) - 1 && |root| <= Common(p, q) < |q|
    ensures Gate(Listed(t, p), root, q, Common(p, q)) <==> Gate(t, root, q, Common(p, q))
  {
    ListedNearest(t, p);
  }

  /** Off the nearest folder: its list is not the one that changed. */
  lemma OffNearest(p: Path, q: Path, n: nat, i: nat)
    requires 0 < n <= |p| && i <= |q| && (i == n - 1 ==> Common(p, q) < n - 1)
    ensures q[..i] != p[..n - 1]
  {
    if i == n - 1 {
      DiffersPastCommon(p, q, n - 1);
    } else {
      assert |q[..i]| == i && |p[..n - 1]| == n - 1;
    }
  }

  lemma BranchElsewhere(t: Tree, root: Path, p: Path, q: Path, i: nat)
    requires p != [] && Common(p, q) < Nearest(t, p, |p| - 1) && |root| <= i < |q|
    requires q[..i] != p[..Nearest(t, p, |p| - 1) - 1]
    ensures Gate(Listed(t, p), root, q, i) <==> Gate(t, root, q, i)
  {
    forall k: nat | |root| <= k <= i
      ensures !Created(t, p, q[..k])
    {
      NoneCreated(t, p, q, k);
    }
    GateKept(t, root, p, q, i);
  }

  /** A file that branches off at the nearest list or above it passes through no created list. */
  lemma BranchAbove(t: Tree, root: Path, p: Path, q: Path, i: nat)
    requires p != [] && Common(p, q) < Nearest(t, p, |p| - 1) && |root| <= i < |q|
    ensures Gate(Listed(t, p), root, q, i) <==> Gate(t, root, q, i)
  {
    var n := Nearest(t, p, |p| - 1);
    if i == n - 1 == Common(p, q) {
      SiblingKept(t, root, p, q);
    } else {
      OffNearest(p, q, n, i);
      BranchElsewhere(t, root, p, q, i);
    }
  }

  /** A folder without a list, below one with a list, ends the way. */
  lemma EndsWay(t: Tree, root: Path, q: Path, m: nat, c: nat)
    requires |root| <= m < c < |q| && q[..m] in t.kusts && q[..c] !in t.kusts
    ensures !Gate(t, root, q, c)
  {
    assert !(forall k | |root| <= k < c :: q[..k] !in t.kusts);
  }

  /** A file that branches off at depth `c`, below the nearest list, was cut off before, for want of a list. */
  lemma CutOffBefore(t: Tree, root: Path, p: Path, q: Path, n: nat, c: nat)
    requires |root| < n <= c <= |p| && c < |q| && q[..c] == p[..c]
    requires p[..n - 1] in t.kusts && p[..c] !in t.kusts
    ensures !Gate(t, root, q, c)
  {
    assert q[..n - 1] == q[..c][..n - 1] == p[..n - 1];
    EndsWay(t, root, q, n - 1, c);
  }

  lemma NoListBelow(t: Tree, p: Path, c: nat)
    requires p != [] && p !in t.kusts && Nearest(t, p, |p| - 1) <= c <= |p|
    ensures p[..c] !in t.kusts
  {
    if c == |p| {
      assert p[..c] == p;
    }
  }

  /** And it is not on the list that was created. */
  lemma CutOffAfter(t: Tree, root: Path, p: Path, q: Path, n: nat, c: nat)
    requires p != [] && n == Nearest(t, p, |p| - 1) && p !in t.kusts
    requires |root| < n <= c <= |p| && c < |q| && q[..c] == p[..c] && (c < |p| ==> q[c] != p[c])
    ensures !Gate(Listed(t, p), root, q, c)
  {
    ListedElsewhere(t, p, p[..c]);
    if c == |p| {
      NoListBelow(t, p, c);
      ListedNearest(t, p);
      CutOffBefore(Listed(t, p), root, p, q, n, c);
    } else {
      assert Created(t, p, p[..c]);
    }
  }

  lemma OthersUnchanged(t: Tree, root: Path, p: Path, q: Path)
    requires p != [] && ReachedList(t, root, p) && p !in t.kusts
    requires q != p && !Under(q, p)
    ensures Accepts(Listed(t, p), root, q) <==> Accepts(t, root, q)
  {
    if Under(root, q) {
      if Common(p, q) < Nearest(t, p, |p| - 1) {
        forall i | |root| <= i < |q|
          ensures Gate(Listed(t, p), root, q, i) <==> Gate(t, root, q, i)
        {
          BranchAbove(t, root, p, q, i);
        }
      } else {
        WholeOrAbove(p, q);
        var n, c := Nearest(t, p, |p| - 1), Common(p, q);
        NoListBelow(t, p, c);
        CutOffBefore(t, root, p, q, n, c);
        CutOffAfter(t, root, p, q, n, c);
      }
    }
  }

  lemma WholeOrAbove(p: Path, q: Path)
    ensures Common(p, q) == |q| ==> q == p || Under(q, p)
  {
    if Common(p, q) == |q| == |p| {
      assert q == q[..|q|] && p == p[..|p|];
    }
  }

  /**
   When the nearest kustomization is one Flux reaches, listing a new file makes Flux apply exactly that file more:
   no other file starts or stops being applied.
   */
  lemma ListingAddsExactly(t: Tree, root: Path, p: Path, q: Path)
    requires p != [] && ReachedList(t, root, p) && p !in t.kusts && !Under(q, p)
    ensures Accepts(Listed(t, p), root, q) <==> q == p || Accepts(t, root, q)
  {
    if q == p {
      NewFileApplied(t, root, p);
    } else {
      OthersUnchanged(t, root, p, q);
    }
  }

  // ---- taking a deleted file off again ----

  /** The list with every occurrence of the entry deleted. */
  function Without(res: seq<string>, entry: string): (r: seq<string>)
    ensures entry !in r
    ensures entry !in res ==> r == res
  {
    if res == [] then []
    else
      var last := res[|res| - 1];
      Without(res[..|res| - 1], entry) + if last == entry then [] else [last]
  }

  predicate NothingUnder(t: Tree, folder: Path) {
    (forall q | q in t.kusts :: !Under(folder, q)) && (forall q | q in t.others :: !Under(folder, q))
  }

  /** A folder with nothing in it but a kustomization that says nothing. */
  predicate Vacant(t: Tree, folder: Path) {
    folder in t.kusts && t.kusts[folder] == Listing([], true) && NothingUnder(t, folder)
  }

  predicate Lists(t: Tree, folder: Path, entry: string) {
    folder in t.kusts && t.kusts[folder].Listing? && entry in t.kusts[folder].resources
  }

  function Delist(t: Tree, folder: Path, entry: string): Tree
    requires Lists(t, folder, entry)
  {
    t.(kusts := t.kusts[folder := t.kusts[folder].(resources := Without(t.kusts[folder].resources, entry))])
  }

  /** Takes the path off its folder's list; a folder left with nothing to say goes too, and is itself taken off. */
  function Unlisted(t: Tree, p: Path): Tree
    requires p != []
    decreases |p|
  {
    var folder := p[..|p| - 1];
    if !Lists(t, folder, p[|p| - 1]) then t
    else
      var t' := Delist(t, folder, p[|p| - 1]);
      if folder == [] || !Vacant(t', folder) then t'
      else Unlisted(t'.(kusts := t'.kusts - {folder}), folder)
  }

  class Checkout {
    var tree: Tree

    /** The folders without a list on the way up from the file, and the depth of the first one with a list. */
    method Missing(p: Path) returns (missing: seq<Path>, found: bool, i: nat)
      requires p != []
      ensures found <==> Nearest(tree, p, |p| - 1) > 0
      ensures found ==> i + 1 == Nearest(tree, p, |p| - 1) && |missing| == |p| - 1 - i
      ensures found ==> forall k | 0 <= k < |missing| :: missing[k] == p[..|p| - 1 - k]
    {
      missing, found, i := [], true, |p| - 1;
      while p[..i] !in tree.kusts
        invariant 0 <= i < |p| && |missing| == |p| - 1 - i && found
        invariant Nearest(tree, p, |p| - 1) == Nearest(tree, p, i)
        invariant forall k | 0 <= k < |missing| :: missing[k] == p[..|p| - 1 - k]
        decreases i
      {
        if i == 0 {
          found := false;
          return;
        }
        missing := missing + [p[..i]];
        i := i - 1;
      }
    }

    /** Gives each folder without a list one, and puts the topmost on the list above. */
    method ListPath(p: Path)
      requires p != []
      modifies this
      ensures tree == Listed(old(tree), p)
    {
      var missing, found, i := Missing(p);
      if !found {
        return;
      }
      var child := Create(p, missing, i + 1);
      var folder, entry := p[..i], child[|child| - 1];
      if tree.kusts[folder].Listing? && entry !in tree.kusts[folder].resources {
        tree := tree.(kusts := tree.kusts[folder := tree.kusts[folder].(resources := tree.kusts[folder].resources + [entry])]);
      }
    }

    method Create(p: Path, missing: seq<Path>, n: nat) returns (child: Path)
      requires 0 < n <= |p| && |missing| == |p| - n
      requires forall k | 0 <= k < |missing| :: missing[k] == p[..|p| - 1 - k]
      modifies this
      ensures tree == CreateFrom(old(tree), p, n) && child == p[..n]
    {
      child := p;
      var k := 0;
      while k < |missing|
        invariant 0 <= k <= |missing| && child == p[..|p| - k]
        invariant tree == CreateFrom(old(tree), p, |p| - k)
      {
        ghost var j := |p| - k - 1;
        assert missing[k] == p[..j] && child[|child| - 1] == p[j];
        tree := tree.(kusts := tree.kusts[missing[k] := Listing([child[|child| - 1]], true)]);
        child := missing[k];
        k := k + 1;
      }
    }

    /** Works its way up from the deleted file for as long as folders become empty. */
    method UnlistPath(p: Path)
      requires p != []
      modifies this
      ensures tree == Unlisted(old(tree), p)
    {
      var child := p;
      while true
        invariant child != [] && Unlisted(tree, child) == Unlisted(old(tree), p)
        decreases |child|
      {
        var folder := child[..|child| - 1];
        if !Lists(tree, folder, child[|child| - 1]) {
          return;
        }
        tree := Delist(tree, folder, child[|child| - 1]);
        if folder == [] || !Vacant(tree, folder) {
          return;
        }
        tree := tree.(kusts := tree.kusts - {folder});
        child := folder;
      }
    }
  }

  // ---- undoing a listing ----

  /**
   When a listing can be taken back exactly: the folders that had no list held nothing else, and the list above them
   can be edited without loss: it is no kustomization at all, or it did not name the entry before and its folder is
   the repository root or was not already empty.
   */
  predicate Undoable(t: Tree, p: Path)
    requires p != []
  {
    var n := Nearest(t, p, |p| - 1);
    n == 0 ||
    ((n < |p| ==> NothingUnder(t, p[..n])) &&
     match t.kusts[p[..n - 1]]
     case Broken => true
     case Listing(res, _) => p[n - 1] !in res && (n == 1 || !Vacant(t, p[..n - 1])))
  }

  lemma {:induction false} NearestPrefix(t: Tree, p: Path, m: nat, i: nat)
    requires i <= m <= |p|
    ensures Nearest(t, p[..m], i) == Nearest(t, p, i)
    decreases i
  {
    assert p[..m][..i] == p[..i];
    if i > 0 {
      NearestPrefix(t, p, m, i - 1);
    }
  }

  lemma {:induction false} CreateOneMore(t: Tree, p: Path, from: nat)
    requires from < |p|
    ensures var g, t' := p[..|p| - 1], CreateFrom(t, p[..|p| - 1], from);
            CreateFrom(t, p, from) == t'.(kusts := t'.kusts[g := Listing([p[|p| - 1]], true)])
    decreases |p| - from
  {
    var g := p[..|p| - 1];
    if from < |g| {
      CreateOneMore(t, p, from + 1);
      assert g[..from] == p[..from] && g[from] == p[from];
      assert |g[..from]| != |g|;
      var a := CreateFrom(t, g, from + 1).kusts;
      assert a[g := Listing([p[|p| - 1]], true)][p[..from] := Listing([p[from]], true)]
          == a[p[..from] := Listing([p[from]], true)][g := Listing([p[|p| - 1]], true)];
    }
  }

  /** Seen from a folder without a list, the nearest list above is the same as seen from what is in it. */
  lemma NearestOfParent(t: Tree, p: Path)
    requires p != [] && 0 < Nearest(t, p, |p| - 1) < |p|
    ensures var g, n := p[..|p| - 1], Nearest(t, p, |p| - 1);
            && g != [] && g !in t.kusts && Nearest(t, g, |g| - 1) == n
            && g[..n - 1] == p[..n - 1] && g[n - 1] == p[n - 1] && g[..n] == p[..n]
  {
    NearestPrefix(t, p, |p| - 1, |p| - 2);
  }

  /** Listing below a folder without a list is listing that folder, and giving it a list. */
  lemma ListingOneMore(t: Tree, p: Path)
    requires p != [] && 0 < Nearest(t, p, |p| - 1) < |p|
    ensures var g := p[..|p| - 1];
            && g != [] && g !in t.kusts && Nearest(t, g, |g| - 1) == Nearest(t, p, |p| - 1)
            && g !in Listed(t, g).kusts
            && Listed(t, p) == Listed(t, g).(kusts := Listed(t, g).kusts[g := Listing([p[|p| - 1]], true)])
  {
    var g, n := p[..|p| - 1], Nearest(t, p, |p| - 1);
    NearestOfParent(t, p);
    CreateOneMore(t, p, n);
    CreateAt(t, g, n, g);
    var a, entry := CreateFrom(t, g, n), Listing([p[|p| - 1]], true);
    assert |g[..n - 1]| != |g|;
    EnlistElsewhere(a, g, entry, p[..n - 1], p[n - 1]);
  }

  lemma EnlistElsewhere(t: Tree, g: Path, doc: Doc, folder: Path, entry: string)
    requires folder in t.kusts && g != folder && g !in t.kusts
    ensures g !in Enlist(t, folder, entry).kusts
    ensures Enlist(t.(kusts := t.kusts[g := doc]), folder, entry)
         == Enlist(t, folder, entry).(kusts := Enlist(t, folder, entry).kusts[g := doc])
  {
    if t.kusts[folder].Listing? {
      var d := t.kusts[folder].(resources := t.kusts[folder].resources + [entry]);
      assert t.kusts[g := doc][folder := d] == t.kusts[folder := d][g := doc];
    }
  }

  /** An entry that was on the list before the listing is lost by the unlisting. */
  lemma OldEntryLost(t: Tree, p: Path)
    requires p != [] && Lists(t, p[..|p| - 1], p[|p| - 1])
    ensures Unlisted(t, p) != t
  {
    var f, entry := p[..|p| - 1], p[|p| - 1];
    var t' := Delist(t, f, entry);
    assert t'.kusts[f] != t.kusts[f];
    if f != [] && Vacant(t', f) {
      GoneStaysGone(t'.(kusts := t'.kusts - {f}), f, f);
    }
  }

  /** The list that was there before comes back, unless it ends up empty in a folder of its own. */
  lemma NewEntryTakenOff(t: Tree, p: Path, t': Tree)
    requires p != [] && var f := p[..|p| - 1];
      f in t.kusts && t.kusts[f].Listing? && p[|p| - 1] !in t.kusts[f].resources
      && t' == t.(kusts := t.kusts[f := t.kusts[f].(resources := t.kusts[f].resources + [p[|p| - 1]])])
    ensures Unlisted(t', p) == t <==> |p| == 1 || !Vacant(t, p[..|p| - 1])
  {
    var f, entry := p[..|p| - 1], p[|p| - 1];
    var res := t.kusts[f].resources;
    assert (res + [entry])[..|res|] == res;
    assert Without(res + [entry], entry) == res;
    assert Delist(t', f, entry).kusts == t.kusts;
    if f != [] && Vacant(t, f) {
      GoneStaysGone(t.(kusts := t.kusts - {f}), f, f);
    }
  }

  lemma UndoAtNearest(t: Tree, p: Path)
    requires p != [] && p[..|p| - 1] in t.kusts
    ensures Unlisted(Listed(t, p), p) == t <==> Undoable(t, p)
  {
    var f := p[..|p| - 1];
    assert Nearest(t, p, |p| - 1) == |p|;
    if Lists(t, f, p[|p| - 1]) {
      OldEntryLost(t, p);
    } else if t.kusts[f].Listing? {
      NewEntryTakenOff(t, p, Listed(t, p));
    }
  }

  /** Taking paths off lists never creates a kustomization. */
  lemma {:induction false} GoneStaysGone(t: Tree, p: Path, folder: Path)
    requires p != [] && folder !in t.kusts
    ensures folder !in Unlisted(t, p).kusts
    decreases |p|
  {
    var f := p[..|p| - 1];
    if Lists(t, f, p[|p| - 1]) {
      var t' := Delist(t, f, p[|p| - 1]);
      if f != [] && Vacant(t', f) {
        GoneStaysGone(t'.(kusts := t'.kusts - {f}), f, folder);
      }
    }
  }

  /** A folder with nothing in it still has nothing in it when folders above get lists. */
  lemma NothingCreatedUnder(t: Tree, p: Path, doc: Doc)
    requires p != [] && 0 < Nearest(t, p, |p| - 1) < |p|
    ensures var g := p[..|p| - 1]; var t' := Listed(t, g).(kusts := Listed(t, g).kusts[g := doc]);
            NothingUnder(t', g) <==> NothingUnder(t, g)
  {
    var g := p[..|p| - 1];
    ListingOneMore(t, p);
    var t' := Listed(t, g).(kusts := Listed(t, g).kusts[g := doc]);
    forall q | Under(g, q)
      ensures q in t'.kusts <==> q in t.kusts
    {
      ListedElsewhere(t, g, q);
    }
  }

  lemma UnderPrefix(t: Tree, g: Path, n: nat)
    requires n <= |g| && NothingUnder(t, g[..n])
    ensures NothingUnder(t, g)
  {
    forall q | Under(g, q)
      ensures Under(g[..n], q)
    {
      assert q[..n] == q[..|g|][..n];
    }
  }

  /** One round of the way up takes off what one round of the way down created, unless the folder holds more. */
  lemma UndoOneMore(t: Tree, p: Path)
    requires p != [] && 0 < Nearest(t, p, |p| - 1) < |p|
    ensures var g := p[..|p| - 1];
            && g != []
            && if NothingUnder(t, g) then Unlisted(Listed(t, p), p) == Unlisted(Listed(t, g), g) else Unlisted(Listed(t, p), p) != t
  {
    var g := p[..|p| - 1];
    ListingOneMore(t, p);
    NothingCreatedUnder(t, p, Listing([], true));
    var t' := Listed(t, g).(kusts := Listed(t, g).kusts[g := Listing([], true)]);
    assert Without([p[|p| - 1]], p[|p| - 1]) == [];
    assert Delist(Listed(t, p), g, p[|p| - 1]) == t';
    assert t'.kusts - {g} == Listed(t, g).kusts;
  }

  lemma UndoableOneMore(t: Tree, p: Path)
    requires p != [] && 0 < Nearest(t, p, |p| - 1) < |p|
    ensures var g := p[..|p| - 1];
            g != [] && (Undoable(t, p) <==> NothingUnder(t, g) && Undoable(t, g))
  {
    var g, n := p[..|p| - 1], Nearest(t, p, |p| - 1);
    NearestOfParent(t, p);
    if n == |g| {
      assert g == g[..n];
    } else if NothingUnder(t, g[..n]) {
      UnderPrefix(t, g, n);
    }
  }

  /**
   Deleting the file just listed and unlisting it gives back exactly the checkout before, lists and all, in just the
   undoable cases.
   */
  lemma {:induction false} UnlistUndoes(t: Tree, p: Path)
    requires p != []
    ensures Unlisted(Listed(t, p), p) == t <==> Undoable(t, p)
    decreases |p|
  {
    var n := Nearest(t, p, |p| - 1);
    if n == |p| {
      UndoAtNearest(t, p);
    } else if n > 0 {
      UndoOneMore(t, p);
      UndoableOneMore(t, p);
      UnlistUndoes(t, p[..|p| - 1]);
    }
  }
}
