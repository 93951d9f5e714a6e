/**
 What of a file is sealed, scalar by scalar: the meaning of each criterion and which of them wins, where a sealed value
 can be opened, and what the checksum notices.
 */
module SopsSealing {
  import opened Basics
  import opened SecretTree
  import opened SopsFile

  /** A scalar of a tree with the keys that lead to it; a list does not add to the path. */
  datatype Spot = Spot(path: seq<string>, leaf: Leaf)

  /** Every scalar, in document order. */
  function Spots(n: Node, path: seq<string>): seq<Spot> {
    match n
    case Map(fs) => SpotsIn(fs, path)
    case List(ns) => SpotsOf(ns, path)
    case Scalar(leaf) => [Spot(path, leaf)]
    case Alias => []
  }

  function SpotsIn(fs: Fields, path: seq<string>): seq<Spot> {
    match fs
    case NoField => []
    case Field(k, n, rest) => Spots(n, path + [k]) + SpotsIn(rest, path)
  }

  function SpotsOf(ns: Items, path: seq<string>): seq<Spot> {
    match ns
    case NoItem => []
    case Item(n, rest) => Spots(n, path) + SpotsOf(rest, path)
  }

  function All(f: File): seq<Spot> { SpotsIn(f.root, []) }

  // ---- sealed or left alone ----

  /** There is something to seal. */
  predicate Sealable(leaf: Leaf) { ScalarOf(leaf) != Null && ScalarOf(leaf) != Str(Plain("")) }

  predicate SealedAs(a: Spot, b: Spot, key: int) { b == Spot(a.path, StrLeaf(Sealed(ScalarOf(a.leaf), key, Ad(a.path)))) }

  predicate Untouched(a: Spot, b: Spot) { b.path == a.path && ScalarOf(b.leaf) == ScalarOf(a.leaf) }

  /** The i-th scalar of the one file stands sealed in the other. */
  predicate SealedIn(f: File, g: File, key: int, i: nat) { i < |All(f)| == |All(g)| && SealedAs(All(f)[i], All(g)[i], key) }

  /** Spot by spot, `b` is `a` with the selected values sealed. */
  ghost predicate SealsSelected(a: seq<Spot>, b: seq<Spot>, r: Criteria, key: int, env: Env) {
    && |a| == |b|
    && forall i | 0 <= i < |a| ::
         if Sealable(a[i].leaf) && Encrypts(r, a[i].path, env) == Ok(true) then SealedAs(a[i], b[i], key) else Untouched(a[i], b[i])
  }

  lemma SealsJoin(a: seq<Spot>, b: seq<Spot>, c: seq<Spot>, d: seq<Spot>, r: Criteria, key: int, env: Env)
    requires SealsSelected(a, b, r, key, env) && SealsSelected(c, d, r, key, env)
    ensures SealsSelected(a + c, b + d, r, key, env)
  {
  }

  lemma {:induction false} NodeSealed(n: Node, path: seq<string>, r: Criteria, key: int, env: Env)
    requires EncNode(n, path, r, key, env).Ok?
    ensures SealsSelected(Spots(n, path), Spots(EncNode(n, path, r, key, env).value.0, path), r, key, env)
  {
    match n
    case Map(fs) => FieldsSealed(fs, path, r, key, env);
    case List(ns) => ItemsSealed(ns, path, r, key, env);
    case _ =>
  }

  lemma {:induction false} FieldsSealed(fs: Fields, path: seq<string>, r: Criteria, key: int, env: Env)
    requires EncFields(fs, path, r, key, env).Ok?
    ensures SealsSelected(SpotsIn(fs, path), SpotsIn(EncFields(fs, path, r, key, env).value.0, path), r, key, env)
  {
    if fs.Field? {
      var e := EncFields(fs, path, r, key, env).value.0;
      NodeSealed(fs.value, path + [fs.key], r, key, env);
      FieldsSealed(fs.rest, path, r, key, env);
      SealsJoin(Spots(fs.value, path + [fs.key]), Spots(e.value, path + [fs.key]), SpotsIn(fs.rest, path), SpotsIn(e.rest, path), r, key, env);
    }
  }

  lemma {:induction false} ItemsSealed(ns: Items, path: seq<string>, r: Criteria, key: int, env: Env)
    requires EncItems(ns, path, r, key, env).Ok?
    ensures SealsSelected(SpotsOf(ns, path), SpotsOf(EncItems(ns, path, r, key, env).value.0, path), r, key, env)
  {
    if ns.Item? {
      var e := EncItems(ns, path, r, key, env).value.0;
      NodeSealed(ns.head, path, r, key, env);
      ItemsSealed(ns.tail, path, r, key, env);
      SealsJoin(Spots(ns.head, path), Spots(e.head, path), SpotsOf(ns.tail, path), SpotsOf(e.tail, path), r, key, env);
    }
  }

  /** No value is its own sealed form. */
  lemma NotItsOwnSeal(a: Spot, b: Spot, key: int)
    requires Untouched(a, b)
    ensures !SealedAs(a, b, key)
  {
  }

  lemma SealedWhenSelected(f: File, rule: Rule, key: int, stamp: string, env: Env, i: nat)
    requires Encrypt(f, rule, key, stamp, env).Ok? && i < |All(f)|
    ensures SealsSelected(All(f), All(Encrypt(f, rule, key, stamp, env).value), Effective(rule.criteria), key, env)
    ensures SealedIn(f, Encrypt(f, rule, key, stamp, env).value, key, i) <==>
              Sealable(All(f)[i].leaf) && Encrypts(Effective(rule.criteria), All(f)[i].path, env) == Ok(true)
  {
    var g := Encrypt(f, rule, key, stamp, env).value;
    FieldsSealed(f.root, [], Effective(rule.criteria), key, env);
    if Untouched(All(f)[i], All(g)[i]) {
      NotItsOwnSeal(All(f)[i], All(g)[i], key);
    }
  }

  lemma {:induction false} SpotIsScalar(n: Node, path: seq<string>)
    ensures Spots(n, path) != [] ==> HasScalar(n)
  {
    match n
    case Map(fs) => SpotIsScalarIn(fs, path);
    case List(ns) => SpotIsScalarOf(ns, path);
    case _ =>
  }

  lemma {:induction false} SpotIsScalarIn(fs: Fields, path: seq<string>)
    ensures SpotsIn(fs, path) != [] ==> HasScalarFields(fs)
  {
    if fs.Field? {
      SpotIsScalar(fs.value, path + [fs.key]);
      SpotIsScalarIn(fs.rest, path);
    }
  }

  lemma {:induction false} SpotIsScalarOf(ns: Items, path: seq<string>)
    ensures SpotsOf(ns, path) != [] ==> HasScalarItems(ns)
  {
    if ns.Item? {
      SpotIsScalar(ns.head, path);
      SpotIsScalarOf(ns.tail, path);
    }
  }

  lemma ExpressionsCompile(f: File, rule: Rule, key: int, stamp: string, env: Env)
    requires Encrypt(f, rule, key, stamp, env).Ok? && All(f) != []
    ensures Compiles(Effective(rule.criteria), env)
  {
    SpotIsScalarIn(f.root, []);
    EncryptSucceeds(f, rule, key, stamp, env);
  }

  /** Encryption keeps every scalar in its place: it is sealed there under the key, or has the value it had; nothing and "" stay. */
  lemma SealedOrLeft(f: File, rule: Rule, key: int, stamp: string, env: Env, i: nat)
    requires Encrypt(f, rule, key, stamp, env).Ok? && i < |All(f)|
    ensures var g := Encrypt(f, rule, key, stamp, env).value;
            && |All(g)| == |All(f)|
            && (SealedIn(f, g, key, i) <==> !Untouched(All(f)[i], All(g)[i]))
            && (SealedIn(f, g, key, i) ==> Sealable(All(f)[i].leaf))
  {
    SealedWhenSelected(f, rule, key, stamp, env, i);
    var g := Encrypt(f, rule, key, stamp, env).value;
    if Untouched(All(f)[i], All(g)[i]) {
      NotItsOwnSeal(All(f)[i], All(g)[i], key);
    }
  }

  // ---- the criteria ----

  /** Some key on the way ends in the suffix. */
  ghost predicate EndsIn(path: seq<string>, suffix: string) { exists k, stem: string :: k in path && k == stem + suffix }

  /** Some key on the way matches the expression. */
  predicate MatchesOn(path: seq<string>, re: string, env: Env) { exists k :: k in path && env.matches(re, k) }

  lemma SuffixMeaning(path: seq<string>, suffix: string)
    ensures AnySuffix(path, suffix) <==> EndsIn(path, suffix)
  {
    if AnySuffix(path, suffix) {
      var i :| 0 <= i < |path| && HasSuffix(path[i], suffix);
      var k, stem := path[i], path[i][..|path[i]| - |suffix|];
      assert k in path && k == stem + suffix;
    }
    if EndsIn(path, suffix) {
      var k, stem: string :| k in path && k == stem + suffix;
      var i :| 0 <= i < |path| && path[i] == k;
      assert HasSuffix(path[i], suffix);
    }
  }

  lemma MatchMeaning(path: seq<string>, re: string, env: Env)
    ensures AnyMatch(path, re, env) <==> MatchesOn(path, re, env)
  {
    if AnyMatch(path, re, env) {
      var i :| 0 <= i < |path| && env.matches(re, path[i]);
      assert path[i] in path;
    }
  }

  /** A rule without any criterion seals everything but what is below a key that ends in `_unencrypted`. */
  lemma DefaultSeals(f: File, rule: Rule, key: int, stamp: string, env: Env, i: nat)
    requires Encrypt(f, rule, key, stamp, env).Ok? && i < |All(f)| && Sealable(All(f)[i].leaf)
    requires rule.criteria == Criteria("", "", "", "", rule.criteria.macOnlyEncrypted)
    ensures SealedIn(f, Encrypt(f, rule, key, stamp, env).value, key, i) <==> !EndsIn(All(f)[i].path, "_unencrypted")
  {
    SealedWhenSelected(f, rule, key, stamp, env, i);
    SuffixMeaning(All(f)[i].path, "_unencrypted");
  }

  /** Each criterion by itself. */
  lemma OneCriterionSeals(f: File, rule: Rule, key: int, stamp: string, env: Env, i: nat, c: string)
    requires Encrypt(f, rule, key, stamp, env).Ok? && i < |All(f)| && Sealable(All(f)[i].leaf) && c != ""
    ensures var sealed, path := SealedIn(f, Encrypt(f, rule, key, stamp, env).value, key, i), All(f)[i].path;
            var r, mac := rule.criteria, rule.criteria.macOnlyEncrypted;
            && (r == Criteria(c, "", "", "", mac) ==> (sealed <==> MatchesOn(path, c, env)))
            && (r == Criteria("", c, "", "", mac) ==> (sealed <==> !MatchesOn(path, c, env)))
            && (r == Criteria("", "", c, "", mac) ==> (sealed <==> EndsIn(path, c)))
            && (r == Criteria("", "", "", c, mac) ==> (sealed <==> !EndsIn(path, c)))
  {
    SealedWhenSelected(f, rule, key, stamp, env, i);
    ExpressionsCompile(f, rule, key, stamp, env);
    SuffixMeaning(All(f)[i].path, c);
    MatchMeaning(All(f)[i].path, c, env);
  }

  /**
   Several criteria at once: a match of the unencrypted expression always leaves a value readable; without one the
   encrypted expression alone decides, without that the encrypted suffix, and only then the unencrypted suffix.
   */
  lemma CriteriaPrecedence(f: File, rule: Rule, key: int, stamp: string, env: Env, i: nat)
    requires Encrypt(f, rule, key, stamp, env).Ok? && i < |All(f)| && Sealable(All(f)[i].leaf)
    ensures var sealed, path, r := SealedIn(f, Encrypt(f, rule, key, stamp, env).value, key, i), All(f)[i].path, rule.criteria;
            if r.unencryptedRegex != "" && MatchesOn(path, r.unencryptedRegex, env) then !sealed
            else if r.encryptedRegex != "" then sealed <==> MatchesOn(path, r.encryptedRegex, env)
            else if r.encryptedSuffix != "" then sealed <==> EndsIn(path, r.encryptedSuffix)
            else if r.unencryptedSuffix != "" then sealed <==> !EndsIn(path, r.unencryptedSuffix)
            else if r.unencryptedRegex != "" then sealed
            else sealed <==> !EndsIn(path, "_unencrypted")
  {
    var path, r := All(f)[i].path, rule.criteria;
    SealedWhenSelected(f, rule, key, stamp, env, i);
    ExpressionsCompile(f, rule, key, stamp, env);
    SuffixMeaning(path, r.encryptedSuffix);
    SuffixMeaning(path, Effective(r).unencryptedSuffix);
    MatchMeaning(path, r.encryptedRegex, env);
    MatchMeaning(path, r.unencryptedRegex, env);
  }

  // ---- a sealed value belongs to its place ----

  predicate NoColon(s: string) { forall i | 0 <= i < |s| :: s[i] != ':' }

  lemma FirstPart(a: string, x: string, b: string, y: string)
    requires NoColon(a) && NoColon(b) && a + ":" + x == b + ":" + y
    ensures a == b && x == y
  {
    var s, t := a + ":" + x, b + ":" + y;
    assert s[|a|] == ':' && t[|b|] == ':';
    if |a| < |b| {
      assert false;
    } else if |b| < |a| {
      assert false;
    }
    assert a == s[..|a|] && b == t[..|b|] && x == s[|a| + 1..] && y == t[|b| + 1..];
  }

  /** Keys without colons: the place a value is sealed for is the path. */
  lemma {:induction false} PlacesDiffer(p: seq<string>, q: seq<string>)
    requires p != [] && q != [] && (forall k | k in p :: NoColon(k)) && forall k | k in q :: NoColon(k)
    ensures Ad(p) == Ad(q) <==> p == q
    decreases |p|
  {
    var x, y := if |p| == 1 then "" else Ad(p[1..]), if |q| == 1 then "" else Ad(q[1..]);
    AdHead(p);
    AdHead(q);
    if Ad(p) == Ad(q) {
      FirstPart(p[0], x, q[0], y);
      assert p == [p[0]] + p[1..] && q == [q[0]] + q[1..];
      if |p| > 1 && |q| > 1 {
        PlacesDiffer(p[1..], q[1..]);
      }
    }
  }

  lemma AdHead(p: seq<string>)
    requires p != []
    ensures Ad(p) == p[0] + ":" + if |p| == 1 then "" else Ad(p[1..])
    ensures Ad(p) != ""
  {
    if |p| > 1 {
      assert p[0] + ":" + JoinColon(p[1..]) + ":" == p[0] + ":" + (JoinColon(p[1..]) + ":");
    }
  }

  /** A text opens under a key at a place exactly when some value was sealed under that key for that place. */
  lemma OpensWithItsKey(t: Text, key: int, ad: string)
    ensures DecryptValue(t, key, ad).Ok? <==> exists v: Value :: v != Null && t == Sealed(v, key, ad)
    ensures DecryptValue(t, key, ad).Ok? ==> t == Sealed(DecryptValue(t, key, ad).value, key, ad)
  {
  }

  /** A value sealed at one place opens only there and with the key it was sealed with, wherever everything is sealed. */
  lemma OpensOnlyInPlace(leaf: Leaf, p: seq<string>, q: seq<string>, r: Criteria, key: int, other: int, env: Env)
    requires p != [] && q != [] && (forall k | k in p :: NoColon(k)) && forall k | k in q :: NoColon(k)
    requires Encrypts(r, p, env) == Ok(true) && Encrypts(r, q, env) == Ok(true) && Sealable(leaf)
    ensures var sealed := EncLeaf(leaf, p, r, key, env);
            sealed.Ok? && (DecLeaf(sealed.value.0, q, r, other, env).Ok? <==> p == q && key == other)
  {
    PlacesDiffer(p, q);
  }

  // ---- the checksum ----

  predicate Covered(s: Spot, r: Criteria, env: Env) { !r.macOnlyEncrypted || Encrypts(r, s.path, env) == Ok(true) }

  function FedSpots(spots: seq<Spot>, r: Criteria, env: Env): seq<MacByte> {
    if spots == [] then [] else (if Covered(spots[0], r, env) then MacBytes(ScalarOf(spots[0].leaf)) else []) + FedSpots(spots[1..], r, env)
  }

  lemma {:induction false} FedJoin(a: seq<Spot>, b: seq<Spot>, r: Criteria, env: Env)
    ensures FedSpots(a + b, r, env) == FedSpots(a, r, env) + FedSpots(b, r, env)
    decreases |a|
  {
    if a == [] {
      assert a + b == b;
    } else {
      assert (a + b)[1..] == a[1..] + b;
      FedJoin(a[1..], b, r, env);
    }
  }

  lemma {:induction false} NodeFeeds(n: Node, path: seq<string>, r: Criteria, env: Env)
    ensures Fed(n, path, r, env) == FedSpots(Spots(n, path), r, env)
  {
    match n
    case Map(fs) => FieldsFeed(fs, path, r, env);
    case List(ns) => ItemsFeed(ns, path, r, env);
    case Scalar(leaf) => assert [Spot(path, leaf)][1..] == [];
    case Alias =>
  }

  lemma {:induction false} FieldsFeed(fs: Fields, path: seq<string>, r: Criteria, env: Env)
    ensures FedFields(fs, path, r, env) == FedSpots(SpotsIn(fs, path), r, env)
  {
    if fs.Field? {
      NodeFeeds(fs.value, path + [fs.key], r, env);
      FieldsFeed(fs.rest, path, r, env);
      FedJoin(Spots(fs.value, path + [fs.key]), SpotsIn(fs.rest, path), r, env);
    }
  }

  lemma {:induction false} ItemsFeed(ns: Items, path: seq<string>, r: Criteria, env: Env)
    ensures FedItems(ns, path, r, env) == FedSpots(SpotsOf(ns, path), r, env)
  {
    if ns.Item? {
      NodeFeeds(ns.head, path, r, env);
      ItemsFeed(ns.tail, path, r, env);
      FedJoin(Spots(ns.head, path), SpotsOf(ns.tail, path), r, env);
    }
  }

  lemma FedAround(spots: seq<Spot>, j: nat, r: Criteria, env: Env)
    requires j < |spots|
    ensures FedSpots(spots, r, env) == FedSpots(spots[..j], r, env) + FedSpots([spots[j]], r, env) + FedSpots(spots[j + 1..], r, env)
  {
    assert spots == spots[..j] + ([spots[j]] + spots[j + 1..]);
    FedJoin(spots[..j], [spots[j]] + spots[j + 1..], r, env);
    FedJoin([spots[j]], spots[j + 1..], r, env);
  }

  lemma Cancels<T>(x: seq<T>, a: seq<T>, b: seq<T>, y: seq<T>)
    requires x + a + y == x + b + y
    ensures a == b
  {
    assert |a| == |b|;
    assert a == (x + a + y)[|x|..|x| + |a|] && b == (x + b + y)[|x|..|x| + |b|];
  }

  lemma CharsTell(s: string, t: string)
    requires Chars(s) == Chars(t)
    ensures s == t
  {
    forall i | 0 <= i < |s|
      ensures s[i] == t[i]
    {
      assert Chars(s)[i] == Ch(s[i]) && Chars(t)[i] == Ch(t[i]);
    }
  }

  lemma FedAlike(f: File, g: File, ids: set<string>, env: Env)
    requires f.sops.Some? && f.sops == g.sops && Decrypt(f, ids, env).Ok? && Decrypt(g, ids, env).Ok?
    ensures var r := f.sops.value.criteria;
            FedSpots(All(Decrypt(f, ids, env).value), r, env) == FedSpots(All(Decrypt(g, ids, env).value), r, env)
  {
    var r := f.sops.value.criteria;
    SameMetadataSameValues(f, g, ids, env);
    FieldsFeed(Decrypt(f, ids, env).value.root, [], r, env);
    FieldsFeed(Decrypt(g, ids, env).value.root, [], r, env);
  }

  /** Two values of one type; a string stands for itself. */
  predicate SameType(v: Value, w: Value) {
    match v
    case Null => w.Null?
    case Str(t) => t.Plain? && w.Str? && w.text.Plain?
    case Int(_) => w.Int?
    case Float(_) => w.Float?
    case Bool(_) => w.Bool?
  }

  /** Values of one type are told apart by what the checksum is fed. */
  lemma MacTells(v: Value, w: Value)
    requires SameType(v, w) && MacBytes(v) == MacBytes(w)
    ensures v == w
  {
    match v
    case Str(t) => CharsTell(t.chars, w.text.chars);
    case Int(i) => CharsTell(Itoa(i), Itoa(w.i)); ItoaTells(i, w.i);
    case Float(r) => CharsTell(r, w.repr);
    case Bool(b) => CharsTell(if b then "True" else "False", if w.b then "True" else "False");
    case Null =>
  }

  /** Two lists of scalars that differ in one value only, and not in its type. */
  predicate DifferAt(a: seq<Spot>, b: seq<Spot>, j: nat) {
    && j < |a| == |b| && a[..j] == b[..j] && a[j + 1..] == b[j + 1..]
    && a[j].path == b[j].path && SameType(ScalarOf(a[j].leaf), ScalarOf(b[j].leaf))
  }

  lemma FedOne(s: Spot, r: Criteria, env: Env)
    requires Covered(s, r, env)
    ensures FedSpots([s], r, env) == MacBytes(ScalarOf(s.leaf))
  {
    assert [s][1..] == [];
    assert MacBytes(ScalarOf(s.leaf)) + [] == MacBytes(ScalarOf(s.leaf));
  }

  lemma DifferenceIsFed(a: seq<Spot>, b: seq<Spot>, j: nat, r: Criteria, env: Env)
    requires DifferAt(a, b, j) && Covered(a[j], r, env) && FedSpots(a, r, env) == FedSpots(b, r, env)
    ensures ScalarOf(a[j].leaf) == ScalarOf(b[j].leaf)
  {
    FedAround(a, j, r, env);
    FedAround(b, j, r, env);
    FedOne(a[j], r, env);
    FedOne(b[j], r, env);
    Cancels(FedSpots(a[..j], r, env), MacBytes(ScalarOf(a[j].leaf)), MacBytes(ScalarOf(b[j].leaf)), FedSpots(a[j + 1..], r, env));
    MacTells(ScalarOf(a[j].leaf), ScalarOf(b[j].leaf));
  }

  /** The checksum notices the change of any one covered value to another of its type: both files open only if it is no change. */
  lemma OneChangeIsNoticed(f: File, g: File, ids: set<string>, env: Env, j: nat)
    requires f.sops.Some? && f.sops == g.sops && Decrypt(f, ids, env).Ok? && Decrypt(g, ids, env).Ok?
    requires DifferAt(All(Decrypt(f, ids, env).value), All(Decrypt(g, ids, env).value), j)
    requires Covered(All(Decrypt(f, ids, env).value)[j], f.sops.value.criteria, env)
    ensures ScalarOf(All(Decrypt(f, ids, env).value)[j].leaf) == ScalarOf(All(Decrypt(g, ids, env).value)[j].leaf)
  {
    FedAlike(f, g, ids, env);
    DifferenceIsFed(All(Decrypt(f, ids, env).value), All(Decrypt(g, ids, env).value), j, f.sops.value.criteria, env);
  }

  /** That it is one value, and of one type, matters: the checksum sees neither types nor where a value ends. */
  lemma NotNoticed(path: seq<string>, i: int, x: string, y: string, z: string, r: Criteria, env: Env)
    ensures MacBytes(Str(Plain(Itoa(i)))) == MacBytes(Int(i)) && MacBytes(Str(Plain("True"))) == MacBytes(Bool(true))
    ensures var a, b := Spot(path, StrLeaf(Plain(x + y))), Spot(path, StrLeaf(Plain(z)));
            var c, d := Spot(path, StrLeaf(Plain(x))), Spot(path, StrLeaf(Plain(y + z)));
            FedSpots([a, b], r, env) == FedSpots([c, d], r, env)
  {
    var a, b := Spot(path, StrLeaf(Plain(x + y))), Spot(path, StrLeaf(Plain(z)));
    var c, d := Spot(path, StrLeaf(Plain(x))), Spot(path, StrLeaf(Plain(y + z)));
    assert [a, b] == [a] + [b] && [c, d] == [c] + [d];
    FedJoin([a], [b], r, env);
    FedJoin([c], [d], r, env);
    if Covered(a, r, env) {
      FedOne(a, r, env);
      FedOne(b, r, env);
      FedOne(c, r, env);
      FedOne(d, r, env);
      assert Chars(x + y) + Chars(z) == Chars(x) + Chars(y + z);
    }
  }
}
