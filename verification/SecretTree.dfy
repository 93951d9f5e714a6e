/**
 The YAML tree of a secret file, as far as encryption and editing care: mappings, lists, typed scalars and
 aliases. Strings are either ordinary or the sealed form that encryption writes; only the key and the associated
 data that sealed a value open it again, which is what AES-GCM provides.
 */
module SecretTree {
  import opened Basics

  datatype Error =
    | AlreadyEncrypted | NoRecipients | BadRecipient | BadRegex | Aliased
    | NotEncrypted | KeyGroups | NoIdentity | NoKey | BadValue | BadMac
    | EmptyKey | DuplicateKey | NotMapping | NotScalar | NoValue

  /** What a string is: typed text, a sealed value, or the digest of what a checksum was fed. */
  datatype Text =
    | Plain(chars: string)
    | Sealed(content: Value, key: int, ad: string)
    | Digest(of: seq<MacByte>)

  /** What the running checksum is fed: characters, or a sealed or digested text as a block of its own. */
  datatype MacByte = Ch(c: char) | Block(t: Text)

  /** A typed scalar, as decoding yields it. Numbers that are no machine integer decode to their text. */
  datatype Value = Null | Str(text: Text) | Int(i: int) | Float(repr: string) | Bool(b: bool)

  /** A scalar as it stands in a file. `OtherLeaf` is a timestamp or a number too large for an int. */
  datatype Leaf =
    | NullLeaf(spelling: string)
    | StrLeaf(text: Text)
    | IntLeaf(i: int)
    | FloatLeaf(repr: string)
    | BoolLeaf(b: bool)
    | OtherLeaf(chars: string)

  datatype Node = Map(fields: Fields) | List(items: Items) | Scalar(leaf: Leaf) | Alias
  datatype Fields = NoField | Field(key: string, value: Node, rest: Fields)
  datatype Items = NoItem | Item(head: Node, tail: Items)

  function ScalarOf(leaf: Leaf): Value {
    match leaf
    case NullLeaf(_) => Null
    case StrLeaf(t) => Str(t)
    case IntLeaf(i) => Int(i)
    case FloatLeaf(r) => Float(r)
    case BoolLeaf(b) => Bool(b)
    case OtherLeaf(s) => Str(Plain(s))
  }

  /** Writing a decoded value back into a scalar. */
  function LeafOf(v: Value): Leaf {
    match v
    case Null => NullLeaf("")
    case Str(t) => StrLeaf(t)
    case Int(i) => IntLeaf(i)
    case Float(r) => FloatLeaf(r)
    case Bool(b) => BoolLeaf(b)
  }

  function Digits(n: nat): (r: string)
    ensures r != ""
  {
    (if n < 10 then "" else Digits(n / 10)) + ["0123456789"[n % 10]]
  }

  function Itoa(i: int): string { if i < 0 then "-" + Digits(-i) else Digits(i) }

  /** The characters of a scalar, or the sealed value they spell. */
  function TextOf(leaf: Leaf): Text {
    match leaf
    case NullLeaf(s) => Plain(s)
    case StrLeaf(t) => t
    case IntLeaf(i) => Plain(Itoa(i))
    case FloatLeaf(r) => Plain(r)
    case BoolLeaf(b) => Plain(if b then "true" else "false")
    case OtherLeaf(s) => Plain(s)
  }

  // ---- what a text tells ----

  lemma {:induction false} DigitsTell(n: nat, m: nat)
    requires Digits(n) == Digits(m)
    ensures n == m
    decreases n
  {
    var d := "0123456789";
    assert Digits(n)[|Digits(n)| - 1] == d[n % 10] && Digits(m)[|Digits(m)| - 1] == d[m % 10];
    assert n % 10 == m % 10;
    assert Digits(n)[..|Digits(n)| - 1] == if n < 10 then "" else Digits(n / 10);
    assert Digits(m)[..|Digits(m)| - 1] == if m < 10 then "" else Digits(m / 10);
    if n >= 10 && m >= 10 {
      DigitsTell(n / 10, m / 10);
    }
  }

  lemma {:induction false} NoMinus(n: nat)
    ensures '-' !in Digits(n)
  {
    if n >= 10 {
      NoMinus(n / 10);
    }
  }

  lemma ItoaSign(i: int)
    ensures Itoa(i) != "" && (Itoa(i)[0] == '-' <==> i < 0)
  {
    if i >= 0 {
      NoMinus(i);
      assert Itoa(i)[0] in Digits(i);
    }
  }

  lemma ItoaTells(i: int, j: int)
    requires Itoa(i) == Itoa(j)
    ensures i == j
  {
    ItoaSign(i);
    ItoaSign(j);
    if i < 0 {
      assert Itoa(i)[1..] == Digits(-i) && Itoa(j)[1..] == Digits(-j);
      DigitsTell(-i, -j);
    } else {
      DigitsTell(i, j);
    }
  }

  /** Two scalars of one type with the same text are the same. */
  lemma TextTells(a: Leaf, b: Leaf)
    requires TextOf(a) == TextOf(b)
    ensures (a.StrLeaf? && b.StrLeaf?) || (a.IntLeaf? && b.IntLeaf?) || (a.FloatLeaf? && b.FloatLeaf?) || (a.BoolLeaf? && b.BoolLeaf?) ==> a == b
    ensures TextOf(BoolLeaf(true)) == Plain("true")
  {
    if a.IntLeaf? && b.IntLeaf? {
      ItoaTells(a.i, b.i);
    } else if a.BoolLeaf? && b.BoolLeaf? {
      assert |"true"| != |"false"|;
    }
  }

  // ---- the values of a tree, forgetting how scalars are spelled ----

  function Canon(n: Node): Node {
    match n
    case Map(fs) => Map(CanonFields(fs))
    case List(ns) => List(CanonItems(ns))
    case Scalar(leaf) => Scalar(LeafOf(ScalarOf(leaf)))
    case Alias => Alias
  }

  function CanonFields(fs: Fields): Fields {
    match fs
    case NoField => NoField
    case Field(k, n, rest) => Field(k, Canon(n), CanonFields(rest))
  }

  function CanonItems(ns: Items): Items {
    match ns
    case NoItem => NoItem
    case Item(n, rest) => Item(Canon(n), CanonItems(rest))
  }

  /** The same keys, the same shape and the same typed values, each in its place. */
  predicate SameValues(a: Node, b: Node) { Canon(a) == Canon(b) }

  // ---- looking up, setting and deleting by path ----

  function Lookup(fs: Fields, k: string): Option<Node> {
    match fs
    case NoField => None
    case Field(key, n, rest) => if key == k then Some(n) else Lookup(rest, k)
  }

  function Append(fs: Fields, k: string, n: Node): Fields {
    match fs
    case NoField => Field(k, n, NoField)
    case Field(key, m, rest) => Field(key, m, Append(rest, k, n))
  }

  /** Replaces the first value under `k`. */
  function Replace(fs: Fields, k: string, n: Node): Fields {
    match fs
    case NoField => NoField
    case Field(key, m, rest) => if key == k then Field(key, n, rest) else Field(key, m, Replace(rest, k, n))
  }

  /** Removes the first field named `k`. */
  function Remove(fs: Fields, k: string): Fields {
    match fs
    case NoField => NoField
    case Field(key, m, rest) => if key == k then rest else Field(key, m, Remove(rest, k))
  }

  function Get(n: Node, path: seq<string>): Option<Node>
    decreases |path|
  {
    if path == [] then Some(n)
    else if !n.Map? then None
    else match Lookup(n.fields, path[0]) case None => None case Some(child) => Get(child, path[1..])
  }

  function Set(n: Node, path: seq<string>, value: Text): Result<Node, Error>
    decreases |path|
  {
    if path == [] then Err(EmptyKey)
    else if !n.Map? then Err(NotMapping)
    else
      var k, last, leaf := path[0], |path| == 1, Scalar(StrLeaf(value));
      match Lookup(n.fields, k)
      case None =>
        if last then Ok(Map(Append(n.fields, k, leaf)))
        else (match Set(Map(NoField), path[1..], value)
              case Err(e) => Err(e)
              case Ok(child) => Ok(Map(Append(n.fields, k, child))))
      case Some(prior) =>
        if last then (if prior.Scalar? then Ok(Map(Replace(n.fields, k, leaf))) else Err(NotScalar))
        else (match Set(prior, path[1..], value)
              case Err(e) => Err(e)
              case Ok(child) => Ok(Map(Replace(n.fields, k, child))))
  }

  function Delete(n: Node, path: seq<string>): Result<Node, Error>
    decreases |path|
  {
    if path == [] then Err(EmptyKey)
    else if !n.Map? then Err(NoValue)
    else
      match Lookup(n.fields, path[0])
      case None => Err(NoValue)
      case Some(child) =>
        if |path| == 1 then Ok(Map(Remove(n.fields, path[0])))
        else (match Delete(child, path[1..])
              case Err(e) => Err(e)
              case Ok(child') => Ok(Map(Replace(n.fields, path[0], child'))))
  }

  // ---- laws of the paths ----

  lemma LookupAfterAppend(fs: Fields, k: string, n: Node, q: string)
    ensures Lookup(Append(fs, k, n), q) == if Lookup(fs, q).None? && q == k then Some(n) else Lookup(fs, q)
  {
  }

  lemma LookupAfterReplace(fs: Fields, k: string, n: Node, q: string)
    ensures Lookup(Replace(fs, k, n), q) == if q == k && Lookup(fs, q).Some? then Some(n) else Lookup(fs, q)
  {
  }

  /** What was set is what is found. */
  lemma {:induction false} SetThenGet(n: Node, path: seq<string>, value: Text)
    requires Set(n, path, value).Ok?
    ensures Get(Set(n, path, value).value, path) == Some(Scalar(StrLeaf(value)))
    decreases |path|
  {
    var n' := Set(n, path, value).value;
    var k := path[0];
    match Lookup(n.fields, k)
    case None =>
      var child := if |path| == 1 then Scalar(StrLeaf(value)) else Set(Map(NoField), path[1..], value).value;
      LookupAfterAppend(n.fields, k, child, k);
      if |path| > 1 { SetThenGet(Map(NoField), path[1..], value); }
    case Some(prior) =>
      var child := if |path| == 1 then Scalar(StrLeaf(value)) else Set(prior, path[1..], value).value;
      LookupAfterReplace(n.fields, k, child, k);
      if |path| > 1 { SetThenGet(prior, path[1..], value); }
  }

  /** Two paths part ways before either ends. */
  predicate Diverge(p: seq<string>, q: seq<string>)
    decreases |p|
  {
    p != [] && q != [] && (p[0] != q[0] || Diverge(p[1..], q[1..]))
  }

  /** Nothing is there before the path exists. */
  lemma {:induction false} SetOnEmpty(path: seq<string>, value: Text, q: seq<string>)
    requires path != [] && Diverge(path, q)
    ensures Set(Map(NoField), path, value).Ok? && Get(Set(Map(NoField), path, value).value, q).None?
    decreases |path|
  {
    SetMakesPath(path, value);
    if |path| > 1 {
      SetMakesPath(path[1..], value);
    }
    var child := if |path| == 1 then Scalar(StrLeaf(value)) else Set(Map(NoField), path[1..], value).value;
    LookupAfterAppend(NoField, path[0], child, q[0]);
    if path[0] == q[0] {
      SetOnEmpty(path[1..], value, q[1..]);
    }
  }

  lemma {:induction false} SetMakesPath(path: seq<string>, value: Text)
    requires path != []
    ensures Set(Map(NoField), path, value).Ok?
    decreases |path|
  {
    if |path| > 1 {
      SetMakesPath(path[1..], value);
    }
  }

  /** Setting one path leaves every path that diverges from it as it was. */
  lemma {:induction false} SetElsewhere(n: Node, path: seq<string>, value: Text, q: seq<string>)
    requires Set(n, path, value).Ok? && Diverge(path, q)
    ensures Get(Set(n, path, value).value, q) == Get(n, q)
    decreases |path|
  {
    var k := path[0];
    match Lookup(n.fields, k)
    case None =>
      var child := if |path| == 1 then Scalar(StrLeaf(value)) else Set(Map(NoField), path[1..], value).value;
      LookupAfterAppend(n.fields, k, child, q[0]);
      if q[0] == k { SetOnEmpty(path[1..], value, q[1..]); }
    case Some(prior) =>
      var child := if |path| == 1 then Scalar(StrLeaf(value)) else Set(prior, path[1..], value).value;
      LookupAfterReplace(n.fields, k, child, q[0]);
      if q[0] == k { SetElsewhere(prior, path[1..], value, q[1..]); }
  }

  lemma LookupAfterRemove(fs: Fields, k: string, q: string)
    requires q != k
    ensures Lookup(Remove(fs, k), q) == Lookup(fs, q)
  {
  }

  lemma {:induction false} DeleteElsewhere(n: Node, path: seq<string>, q: seq<string>)
    requires Delete(n, path).Ok? && Diverge(path, q)
    ensures Get(Delete(n, path).value, q) == Get(n, q)
    decreases |path|
  {
    var child := Lookup(n.fields, path[0]).value;
    if |path| == 1 {
      LookupAfterRemove(n.fields, path[0], q[0]);
    } else {
      LookupAfterReplace(n.fields, path[0], Delete(child, path[1..]).value, q[0]);
      if q[0] == path[0] {
        DeleteElsewhere(child, path[1..], q[1..]);
      }
    }
  }

  // ---- what a deletion leaves ----

  function Times(fs: Fields, k: string): nat {
    match fs
    case NoField => 0
    case Field(key, _, rest) => (if key == k then 1 else 0) + Times(rest, k)
  }

  lemma {:induction false} FoundTimes(fs: Fields, k: string)
    ensures Lookup(fs, k).Some? <==> Times(fs, k) > 0
    ensures Lookup(Remove(fs, k), k).Some? <==> Times(fs, k) > 1
  {
    if fs.Field? {
      FoundTimes(fs.rest, k);
    }
  }

  /** Nothing is left at a deleted path exactly when the mapping it was in had the key only once. */
  lemma {:induction false} DeleteThenGet(n: Node, path: seq<string>)
    requires Delete(n, path).Ok?
    ensures path != [] && var parent := Get(n, path[..|path| - 1]);
            && parent.Some? && parent.value.Map?
            && (Get(Delete(n, path).value, path).None? <==> Times(parent.value.fields, path[|path| - 1]) == 1)
    decreases |path|
  {
    var k := path[0];
    var child := Lookup(n.fields, k).value;
    if |path| == 1 {
      FoundTimes(n.fields, k);
    } else {
      var rest := path[1..];
      DeleteThenGet(child, rest);
      LookupAfterReplace(n.fields, k, Delete(child, rest).value, k);
      assert path[..|path| - 1][1..] == rest[..|rest| - 1];
    }
  }

  /** No mapping that a path can lead to has a key twice. */
  predicate UniqueKeys(fs: Fields) { fs.NoField? || (Lookup(fs.rest, fs.key).None? && UniqueKeys(fs.rest)) }

  predicate UniqueThroughout(n: Node) { n.Map? ==> UniqueKeys(n.fields) && UniqueBelow(n.fields) }

  predicate UniqueBelow(fs: Fields) { fs.NoField? || (UniqueThroughout(fs.value) && UniqueBelow(fs.rest)) }

  lemma {:induction false} UniqueChild(fs: Fields, k: string, m: Node)
    requires UniqueKeys(fs) && UniqueBelow(fs) && Lookup(fs, k).Some?
    ensures UniqueThroughout(Lookup(fs, k).value) && Times(fs, k) == 1
    ensures UniqueKeys(Remove(fs, k)) && UniqueBelow(Remove(fs, k))
    ensures UniqueThroughout(m) ==> UniqueKeys(Replace(fs, k, m)) && UniqueBelow(Replace(fs, k, m))
  {
    if fs.key == k {
      FoundTimes(fs.rest, k);
    } else {
      UniqueChild(fs.rest, k, m);
      LookupAfterRemove(fs.rest, k, fs.key);
      LookupAfterReplace(fs.rest, k, m, fs.key);
    }
  }

  /** Deleting makes no key double, and brings nothing back that is gone. */
  lemma {:induction false} DeleteShrinks(n: Node, path: seq<string>, q: seq<string>)
    requires UniqueThroughout(n) && Delete(n, path).Ok?
    ensures UniqueThroughout(Delete(n, path).value)
    ensures Get(n, q).None? || q == path ==> Get(Delete(n, path).value, q).None?
    decreases |path|
  {
    var k := path[0];
    var child := Lookup(n.fields, k).value;
    if |path| == 1 {
      UniqueChild(n.fields, k, child);
      FoundTimes(n.fields, k);
      if q != [] && q[0] != k {
        LookupAfterRemove(n.fields, k, q[0]);
      }
    } else {
      var child' := Delete(child, path[1..]).value;
      UniqueChild(n.fields, k, child);
      DeleteShrinks(child, path[1..], if q == [] then [] else q[1..]);
      UniqueChild(n.fields, k, child');
      LookupAfterReplace(n.fields, k, child', if q == [] then k else q[0]);
    }
  }
}
