/**
 SOPS files: which scalars of a tree are sealed, the running checksum over its values, and the operations that
 open a file and seal it again. A data key stands for itself; age wrapping is a pair of the key and the recipient
 that can unwrap it.
 */
module SopsFile {
  import opened Basics
  import opened SecretTree

  /** The foreign parts: the regular expression engine and the check of an age recipient. */
  datatype Env = Env(compiles: string -> bool, matches: (string, string) -> bool, recipientOk: string -> bool)

  /** Which scalars are sealed. */
  datatype Criteria = Criteria(encryptedRegex: string, unencryptedRegex: string,
                               encryptedSuffix: string, unencryptedSuffix: string, macOnlyEncrypted: bool)

  datatype Rule = Rule(age: seq<string>, criteria: Criteria)

  datatype AgeKey = AgeKey(recipient: string, wrapped: int)

  datatype Metadata = Metadata(keyGroups: bool, age: seq<AgeKey>, stamp: string, mac: Text, criteria: Criteria)

  /** A file is a mapping, with the top-level `sops` entry of an encrypted one kept apart. */
  datatype File = File(root: Fields, sops: Option<Metadata>)

  predicate AnySuffix(path: seq<string>, suffix: string) { exists i | 0 <= i < |path| :: HasSuffix(path[i], suffix) }

  predicate AnyMatch(path: seq<string>, re: string, env: Env) { exists i | 0 <= i < |path| :: env.matches(re, path[i]) }

  predicate Compiles(r: Criteria, env: Env) {
    && (r.encryptedRegex != "" ==> env.compiles(r.encryptedRegex))
    && (r.unencryptedRegex != "" ==> env.compiles(r.unencryptedRegex))
  }

  /** Whether the scalar at `path` is sealed; a later criterion overrides an earlier one. */
  function Encrypts(r: Criteria, path: seq<string>, env: Env): Result<bool, Error> {
    if !Compiles(r, env) then Err(BadRegex)
    else
      var bySuffix :=
        if r.encryptedSuffix != "" then AnySuffix(path, r.encryptedSuffix)
        else !(r.unencryptedSuffix != "" && AnySuffix(path, r.unencryptedSuffix));
      var byRegex := if r.encryptedRegex != "" then AnyMatch(path, r.encryptedRegex, env) else bySuffix;
      Ok(byRegex && !(r.unencryptedRegex != "" && AnyMatch(path, r.unencryptedRegex, env)))
  }

  predicate Selects(r: Criteria) {
    r.unencryptedSuffix != "" || r.encryptedSuffix != "" || r.encryptedRegex != "" || r.unencryptedRegex != ""
  }

  /** A rule that names no criterion gets the default one. */
  function Effective(r: Criteria): Criteria { if Selects(r) then r else r.(unencryptedSuffix := "_unencrypted") }

  function JoinColon(path: seq<string>): string {
    if path == [] then "" else if |path| == 1 then path[0] else path[0] + ":" + JoinColon(path[1..])
  }

  function Ad(path: seq<string>): string { JoinColon(path) + ":" }

  function EncryptValue(v: Value, key: int, ad: string): Text {
    if v == Str(Plain("")) then Plain("") else Sealed(v, key, ad)
  }

  function DecryptValue(t: Text, key: int, ad: string): Result<Value, Error> {
    if t.Sealed? && t.key == key && t.ad == ad && t.content != Null then Ok(t.content) else Err(BadValue)
  }

  // ---- the walk of Encrypt: the new scalar and what the checksum is fed ----

  type Step<T> = Result<(T, seq<MacByte>), Error>

  function Chars(s: string): seq<MacByte> { seq(|s|, i requires 0 <= i < |s| => Ch(s[i])) }

  /** How a value enters the checksum; nothing separates one value from the next. */
  function MacBytes(v: Value): seq<MacByte> {
    match v
    case Null => []
    case Str(t) => if t.Plain? then Chars(t.chars) else [Block(t)]
    case Int(i) => Chars(Itoa(i))
    case Float(r) => Chars(r)
    case Bool(b) => Chars(if b then "True" else "False")
  }

  function EncLeaf(leaf: Leaf, path: seq<string>, r: Criteria, key: int, env: Env): Step<Leaf> {
    match Encrypts(r, path, env)
    case Err(e) => Err(e)
    case Ok(enc) =>
      var v := ScalarOf(leaf);
      if v == Null then Ok((leaf, []))
      else
        var fed := if !r.macOnlyEncrypted || enc then MacBytes(v) else [];
        Ok((if enc then StrLeaf(EncryptValue(v, key, Ad(path))) else leaf, fed))
  }

  function EncNode(n: Node, path: seq<string>, r: Criteria, key: int, env: Env): Step<Node> {
    match n
    case Map(fs) => (match EncFields(fs, path, r, key, env) case Err(e) => Err(e) case Ok(p) => Ok((Map(p.0), p.1)))
    case List(ns) => (match EncItems(ns, path, r, key, env) case Err(e) => Err(e) case Ok(p) => Ok((List(p.0), p.1)))
    case Scalar(leaf) => (match EncLeaf(leaf, path, r, key, env) case Err(e) => Err(e) case Ok(p) => Ok((Scalar(p.0), p.1)))
    case Alias => Err(Aliased)
  }

  function EncFields(fs: Fields, path: seq<string>, r: Criteria, key: int, env: Env): Step<Fields> {
    match fs
    case NoField => Ok((NoField, []))
    case Field(k, n, rest) =>
      match EncNode(n, path + [k], r, key, env)
      case Err(e) => Err(e)
      case Ok(p) =>
        match EncFields(rest, path, r, key, env)
        case Err(e) => Err(e)
        case Ok(q) => Ok((Field(k, p.0, q.0), p.1 + q.1))
  }

  function EncItems(ns: Items, path: seq<string>, r: Criteria, key: int, env: Env): Step<Items> {
    match ns
    case NoItem => Ok((NoItem, []))
    case Item(n, rest) =>
      match EncNode(n, path, r, key, env)
      case Err(e) => Err(e)
      case Ok(p) =>
        match EncItems(rest, path, r, key, env)
        case Err(e) => Err(e)
        case Ok(q) => Ok((Item(p.0, q.0), p.1 + q.1))
  }

  // ---- the walk of Decrypt ----

  function DecLeaf(leaf: Leaf, path: seq<string>, r: Criteria, key: int, env: Env): Step<Leaf> {
    match Encrypts(r, path, env)
    case Err(e) => Err(e)
    case Ok(enc) =>
      var open := if enc && TextOf(leaf) != Plain("") then DecryptValue(TextOf(leaf), key, Ad(path)) else Ok(ScalarOf(leaf));
      match open
      case Err(e) => Err(e)
      case Ok(v) =>
        var leaf' := if enc && TextOf(leaf) != Plain("") then LeafOf(v) else leaf;
        Ok((leaf', if v != Null && (!r.macOnlyEncrypted || enc) then MacBytes(v) else []))
  }

  function DecNode(n: Node, path: seq<string>, r: Criteria, key: int, env: Env): Step<Node> {
    match n
    case Map(fs) => (match DecFields(fs, path, r, key, env) case Err(e) => Err(e) case Ok(p) => Ok((Map(p.0), p.1)))
    case List(ns) => (match DecItems(ns, path, r, key, env) case Err(e) => Err(e) case Ok(p) => Ok((List(p.0), p.1)))
    case Scalar(leaf) => (match DecLeaf(leaf, path, r, key, env) case Err(e) => Err(e) case Ok(p) => Ok((Scalar(p.0), p.1)))
    case Alias => Err(Aliased)
  }

  function DecFields(fs: Fields, path: seq<string>, r: Criteria, key: int, env: Env): Step<Fields> {
    match fs
    case NoField => Ok((NoField, []))
    case Field(k, n, rest) =>
      match DecNode(n, path + [k], r, key, env)
      case Err(e) => Err(e)
      case Ok(p) =>
        match DecFields(rest, path, r, key, env)
        case Err(e) => Err(e)
        case Ok(q) => Ok((Field(k, p.0, q.0), p.1 + q.1))
  }

  function DecItems(ns: Items, path: seq<string>, r: Criteria, key: int, env: Env): Step<Items> {
    match ns
    case NoItem => Ok((NoItem, []))
    case Item(n, rest) =>
      match DecNode(n, path, r, key, env)
      case Err(e) => Err(e)
      case Ok(p) =>
        match DecItems(rest, path, r, key, env)
        case Err(e) => Err(e)
        case Ok(q) => Ok((Item(p.0, q.0), p.1 + q.1))
  }

  // ---- files ----

  function WrapAll(key: int, age: seq<string>): seq<AgeKey> { seq(|age|, i requires 0 <= i < |age| => AgeKey(age[i], key)) }

  function Encrypt(f: File, rule: Rule, key: int, stamp: string, env: Env): Result<File, Error> {
    var r := Effective(rule.criteria);
    if rule.age == [] then Err(NoRecipients)
    else if f.sops.Some? || Lookup(f.root, "sops").Some? then Err(AlreadyEncrypted)
    else
      match EncFields(f.root, [], r, key, env)
      case Err(e) => Err(e)
      case Ok(p) =>
        if exists i | 0 <= i < |rule.age| :: !env.recipientOk(rule.age[i]) then Err(BadRecipient)
        else
          var mac := EncryptValue(Str(Digest(p.1)), key, stamp);
          Ok(File(p.0, Some(Metadata(false, WrapAll(key, rule.age), stamp, mac, r))))
  }

  /** The data key, from the first entry that one of the identities opens. */
  function Unwrap(keys: seq<AgeKey>, ids: set<string>): Result<int, Error> {
    if ids == {} then Err(NoIdentity)
    else if keys == [] then Err(NoKey)
    else if keys[0].recipient in ids then Ok(keys[0].wrapped)
    else Unwrap(keys[1..], ids)
  }

  function Decrypt(f: File, ids: set<string>, env: Env): Result<File, Error> {
    match f.sops
    case None => Err(NotEncrypted)
    case Some(md) =>
      if Lookup(f.root, "sops").Some? then Err(DuplicateKey)
      else if md.keyGroups then Err(KeyGroups)
      else
        match Unwrap(md.age, ids)
        case Err(e) => Err(e)
        case Ok(key) =>
          match DecFields(f.root, [], md.criteria, key, env)
          case Err(e) => Err(e)
          case Ok(p) =>
            match DecryptValue(md.mac, key, md.stamp)
            case Err(e) => Err(e)
            case Ok(v) => if v == Str(Digest(p.1)) then Ok(File(p.0, None)) else Err(BadMac)
  }

  function Recipients(md: Metadata): seq<string> { seq(|md.age|, i requires 0 <= i < |md.age| => md.age[i].recipient) }

  function RuleOf(md: Metadata): Rule { Rule(Recipients(md), md.criteria) }

  function Rekey(f: File, ids: set<string>, recipients: seq<string>, key: int, stamp: string, env: Env): Result<File, Error> {
    match f.sops
    case None => Err(NotEncrypted)
    case Some(md) =>
      match Decrypt(f, ids, env)
      case Err(e) => Err(e)
      case Ok(plain) => Encrypt(plain, RuleOf(md).(age := recipients), key, stamp, env)
  }

  function Edit(f: File, ids: set<string>, edit: Node -> Result<Node, Error>, key: int, stamp: string, env: Env): Result<File, Error> {
    match f.sops
    case None => Err(NotEncrypted)
    case Some(md) =>
      match Decrypt(f, ids, env)
      case Err(e) => Err(e)
      case Ok(plain) =>
        match edit(Map(plain.root))
        case Err(e) => Err(e)
        case Ok(n) => if n.Map? then Encrypt(File(n.fields, None), RuleOf(md), key, stamp, env) else Err(NotMapping)
  }

  // ---- what comes back ----

  /** A null spelled out (`null`, `~`) where the rule seals: it is left as it is, and cannot be opened later. */
  predicate SpelledNull(leaf: Leaf, path: seq<string>, r: Criteria, env: Env) {
    leaf.NullLeaf? && leaf.spelling != "" && Encrypts(r, path, env) == Ok(true)
  }

  predicate NoSpelledNull(n: Node, path: seq<string>, r: Criteria, env: Env) {
    match n
    case Map(fs) => NoSpelledNullFields(fs, path, r, env)
    case List(ns) => NoSpelledNullItems(ns, path, r, env)
    case Scalar(leaf) => !SpelledNull(leaf, path, r, env)
    case Alias => true
  }

  predicate NoSpelledNullFields(fs: Fields, path: seq<string>, r: Criteria, env: Env) {
    match fs
    case NoField => true
    case Field(k, n, rest) => NoSpelledNull(n, path + [k], r, env) && NoSpelledNullFields(rest, path, r, env)
  }

  predicate NoSpelledNullItems(ns: Items, path: seq<string>, r: Criteria, env: Env) {
    match ns
    case NoItem => true
    case Item(n, rest) => NoSpelledNull(n, path, r, env) && NoSpelledNullItems(rest, path, r, env)
  }

  /** A scalar that was sealed comes back as its typed value; the others come back untouched. */
  function RestoreLeaf(leaf: Leaf, path: seq<string>, r: Criteria, env: Env): Leaf {
    if Encrypts(r, path, env) == Ok(true) && ScalarOf(leaf) != Null then LeafOf(ScalarOf(leaf)) else leaf
  }

  function Restore(n: Node, path: seq<string>, r: Criteria, env: Env): Node {
    match n
    case Map(fs) => Map(RestoreFields(fs, path, r, env))
    case List(ns) => List(RestoreItems(ns, path, r, env))
    case Scalar(leaf) => Scalar(RestoreLeaf(leaf, path, r, env))
    case Alias => Alias
  }

  function RestoreFields(fs: Fields, path: seq<string>, r: Criteria, env: Env): Fields {
    match fs
    case NoField => NoField
    case Field(k, n, rest) => Field(k, Restore(n, path + [k], r, env), RestoreFields(rest, path, r, env))
  }

  function RestoreItems(ns: Items, path: seq<string>, r: Criteria, env: Env): Items {
    match ns
    case NoItem => NoItem
    case Item(n, rest) => Item(Restore(n, path, r, env), RestoreItems(rest, path, r, env))
  }

  lemma {:induction false} RestoreKeepsValues(n: Node, path: seq<string>, r: Criteria, env: Env)
    ensures SameValues(Restore(n, path, r, env), n)
  {
    match n
    case Map(fs) => RestoreKeepsFields(fs, path, r, env);
    case List(ns) => RestoreKeepsItems(ns, path, r, env);
    case _ =>
  }

  lemma {:induction false} RestoreKeepsFields(fs: Fields, path: seq<string>, r: Criteria, env: Env)
    ensures CanonFields(RestoreFields(fs, path, r, env)) == CanonFields(fs)
  {
    if fs.Field? {
      RestoreKeepsValues(fs.value, path + [fs.key], r, env);
      RestoreKeepsFields(fs.rest, path, r, env);
    }
  }

  lemma {:induction false} RestoreKeepsItems(ns: Items, path: seq<string>, r: Criteria, env: Env)
    ensures CanonItems(RestoreItems(ns, path, r, env)) == CanonItems(ns)
  {
    if ns.Item? {
      RestoreKeepsValues(ns.head, path, r, env);
      RestoreKeepsItems(ns.tail, path, r, env);
    }
  }

  // ---- the two walks undo each other ----

  /** Opening a sealed scalar gives the value back, unless it is a spelled null; the checksum is fed the same. */
  lemma LeafRoundTrip(leaf: Leaf, path: seq<string>, r: Criteria, key: int, env: Env)
    requires EncLeaf(leaf, path, r, key, env).Ok?
    ensures var e := EncLeaf(leaf, path, r, key, env).value;
            var d := DecLeaf(e.0, path, r, key, env);
            if SpelledNull(leaf, path, r, env) then d.Err? else d == Ok((RestoreLeaf(leaf, path, r, env), e.1))
  {
  }

  lemma {:induction false} NodeRoundTrip(n: Node, path: seq<string>, r: Criteria, key: int, env: Env)
    requires EncNode(n, path, r, key, env).Ok?
    ensures var e := EncNode(n, path, r, key, env).value;
            var d := DecNode(e.0, path, r, key, env);
            if NoSpelledNull(n, path, r, env) then d == Ok((Restore(n, path, r, env), e.1)) else d.Err?
  {
    match n
    case Map(fs) => FieldsRoundTrip(fs, path, r, key, env);
    case List(ns) => ItemsRoundTrip(ns, path, r, key, env);
    case Scalar(leaf) => LeafRoundTrip(leaf, path, r, key, env);
    case Alias =>
  }

  lemma {:induction false} FieldsRoundTrip(fs: Fields, path: seq<string>, r: Criteria, key: int, env: Env)
    requires EncFields(fs, path, r, key, env).Ok?
    ensures var e := EncFields(fs, path, r, key, env).value;
            var d := DecFields(e.0, path, r, key, env);
            if NoSpelledNullFields(fs, path, r, env) then d == Ok((RestoreFields(fs, path, r, env), e.1)) else d.Err?
  {
    if fs.Field? {
      NodeRoundTrip(fs.value, path + [fs.key], r, key, env);
      FieldsRoundTrip(fs.rest, path, r, key, env);
    }
  }

  lemma {:induction false} ItemsRoundTrip(ns: Items, path: seq<string>, r: Criteria, key: int, env: Env)
    requires EncItems(ns, path, r, key, env).Ok?
    ensures var e := EncItems(ns, path, r, key, env).value;
            var d := DecItems(e.0, path, r, key, env);
            if NoSpelledNullItems(ns, path, r, env) then d == Ok((RestoreItems(ns, path, r, env), e.1)) else d.Err?
  {
    if ns.Item? {
      NodeRoundTrip(ns.head, path, r, key, env);
      ItemsRoundTrip(ns.tail, path, r, key, env);
    }
  }

  /** One of the identities belongs to a recipient. */
  predicate Readable(age: seq<string>, ids: set<string>) { exists i | 0 <= i < |age| :: age[i] in ids }

  lemma {:induction false} UnwrapWrapped(key: int, age: seq<string>, ids: set<string>)
    ensures Unwrap(WrapAll(key, age), ids).Ok? <==> Readable(age, ids)
    ensures Unwrap(WrapAll(key, age), ids).Ok? ==> Unwrap(WrapAll(key, age), ids).value == key
    decreases |age|
  {
    if age != [] && ids != {} {
      assert WrapAll(key, age)[1..] == WrapAll(key, age[1..]);
      UnwrapWrapped(key, age[1..], ids);
      assert Readable(age, ids) <==> age[0] in ids || Readable(age[1..], ids);
    }
  }

  /** Sealing and opening leave the keys of a mapping as they are. */
  lemma {:induction false} SealedKeys(fs: Fields, path: seq<string>, r: Criteria, key: int, env: Env, k: string)
    requires EncFields(fs, path, r, key, env).Ok?
    ensures Lookup(EncFields(fs, path, r, key, env).value.0, k).Some? <==> Lookup(fs, k).Some?
  {
    if fs.Field? {
      SealedKeys(fs.rest, path, r, key, env, k);
    }
  }

  lemma {:induction false} OpenedKeys(fs: Fields, path: seq<string>, r: Criteria, key: int, env: Env, k: string)
    requires DecFields(fs, path, r, key, env).Ok?
    ensures Lookup(DecFields(fs, path, r, key, env).value.0, k).Some? <==> Lookup(fs, k).Some?
  {
    if fs.Field? {
      OpenedKeys(fs.rest, path, r, key, env, k);
    }
  }

  /**
   A file that was encrypted opens exactly for the holders of one of its recipients and exactly when no null was
   spelled out on a sealed path; it passes its checksum and gives back every typed value in its place.
   */
  lemma RoundTrip(plain: Fields, rule: Rule, key: int, stamp: string, env: Env, ids: set<string>)
    requires Encrypt(File(plain, None), rule, key, stamp, env).Ok?
    ensures var f := Encrypt(File(plain, None), rule, key, stamp, env).value;
            var d := Decrypt(f, ids, env);
            var r := Effective(rule.criteria);
            && (d.Ok? <==> Readable(rule.age, ids) && NoSpelledNull(Map(plain), [], r, env))
            && (d.Ok? ==> d.value == File(RestoreFields(plain, [], r, env), None) && SameValues(Map(d.value.root), Map(plain)))
  {
    var r := Effective(rule.criteria);
    SealedKeys(plain, [], r, key, env, "sops");
    FieldsRoundTrip(plain, [], r, key, env);
    UnwrapWrapped(key, rule.age, ids);
    RestoreKeepsValues(Map(plain), [], r, env);
  }

  // ---- sealing really seals, and the checksum pins the values ----

  /** `m` is `n` with the selected values sealed under the key and their place, and every other scalar as it was. */
  predicate Protects(n: Node, m: Node, path: seq<string>, r: Criteria, key: int, env: Env) {
    match n
    case Map(fs) => m.Map? && ProtectsFields(fs, m.fields, path, r, key, env)
    case List(ns) => m.List? && ProtectsItems(ns, m.items, path, r, key, env)
    case Scalar(leaf) =>
      && m.Scalar?
      && (ScalarOf(m.leaf) == ScalarOf(leaf) || Encrypts(r, path, env) == Ok(true))
      && (Encrypts(r, path, env) == Ok(true) && ScalarOf(leaf) !in {Null, Str(Plain(""))} ==>
            TextOf(m.leaf) == Sealed(ScalarOf(leaf), key, Ad(path)))
    case Alias => false
  }

  predicate ProtectsFields(fs: Fields, gs: Fields, path: seq<string>, r: Criteria, key: int, env: Env) {
    match fs
    case NoField => gs.NoField?
    case Field(k, n, rest) =>
      gs.Field? && gs.key == k && Protects(n, gs.value, path + [k], r, key, env) && ProtectsFields(rest, gs.rest, path, r, key, env)
  }

  predicate ProtectsItems(ns: Items, ms: Items, path: seq<string>, r: Criteria, key: int, env: Env) {
    match ns
    case NoItem => ms.NoItem?
    case Item(n, rest) => ms.Item? && Protects(n, ms.head, path, r, key, env) && ProtectsItems(rest, ms.tail, path, r, key, env)
  }

  lemma {:induction false} NodeProtected(n: Node, path: seq<string>, r: Criteria, key: int, env: Env)
    requires EncNode(n, path, r, key, env).Ok?
    ensures Protects(n, EncNode(n, path, r, key, env).value.0, path, r, key, env)
  {
    match n
    case Map(fs) => FieldsProtected(fs, path, r, key, env);
    case List(ns) => ItemsProtected(ns, path, r, key, env);
    case _ =>
  }

  lemma {:induction false} FieldsProtected(fs: Fields, path: seq<string>, r: Criteria, key: int, env: Env)
    requires EncFields(fs, path, r, key, env).Ok?
    ensures ProtectsFields(fs, EncFields(fs, path, r, key, env).value.0, path, r, key, env)
  {
    if fs.Field? {
      NodeProtected(fs.value, path + [fs.key], r, key, env);
      FieldsProtected(fs.rest, path, r, key, env);
    }
  }

  lemma {:induction false} ItemsProtected(ns: Items, path: seq<string>, r: Criteria, key: int, env: Env)
    requires EncItems(ns, path, r, key, env).Ok?
    ensures ProtectsItems(ns, EncItems(ns, path, r, key, env).value.0, path, r, key, env)
  {
    if ns.Item? {
      NodeProtected(ns.head, path, r, key, env);
      ItemsProtected(ns.tail, path, r, key, env);
    }
  }

  /** What the checksum of a plaintext tree is fed. */
  function Fed(n: Node, path: seq<string>, r: Criteria, env: Env): seq<MacByte> {
    match n
    case Map(fs) => FedFields(fs, path, r, env)
    case List(ns) => FedItems(ns, path, r, env)
    case Scalar(leaf) => if !r.macOnlyEncrypted || Encrypts(r, path, env) == Ok(true) then MacBytes(ScalarOf(leaf)) else []
    case Alias => []
  }

  function FedFields(fs: Fields, path: seq<string>, r: Criteria, env: Env): seq<MacByte> {
    if fs.NoField? then [] else Fed(fs.value, path + [fs.key], r, env) + FedFields(fs.rest, path, r, env)
  }

  function FedItems(ns: Items, path: seq<string>, r: Criteria, env: Env): seq<MacByte> {
    if ns.NoItem? then [] else Fed(ns.head, path, r, env) + FedItems(ns.tail, path, r, env)
  }

  lemma {:induction false} NodeIsFed(n: Node, path: seq<string>, r: Criteria, key: int, env: Env)
    requires DecNode(n, path, r, key, env).Ok?
    ensures var d := DecNode(n, path, r, key, env).value; d.1 == Fed(d.0, path, r, env)
  {
    match n
    case Map(fs) => FieldsAreFed(fs, path, r, key, env);
    case List(ns) => ItemsAreFed(ns, path, r, key, env);
    case _ =>
  }

  lemma {:induction false} FieldsAreFed(fs: Fields, path: seq<string>, r: Criteria, key: int, env: Env)
    requires DecFields(fs, path, r, key, env).Ok?
    ensures var d := DecFields(fs, path, r, key, env).value; d.1 == FedFields(d.0, path, r, env)
  {
    if fs.Field? {
      NodeIsFed(fs.value, path + [fs.key], r, key, env);
      FieldsAreFed(fs.rest, path, r, key, env);
    }
  }

  lemma {:induction false} ItemsAreFed(ns: Items, path: seq<string>, r: Criteria, key: int, env: Env)
    requires DecItems(ns, path, r, key, env).Ok?
    ensures var d := DecItems(ns, path, r, key, env).value; d.1 == FedItems(d.0, path, r, env)
  {
    if ns.Item? {
      NodeIsFed(ns.head, path, r, key, env);
      ItemsAreFed(ns.tail, path, r, key, env);
    }
  }

  /**
   The checksum pins the covered values: two files with the same metadata that both open for the same reader hold
   the same covered bytes in the same order, whatever else was changed in them.
   */
  lemma SameMetadataSameValues(f: File, g: File, ids: set<string>, env: Env)
    requires f.sops.Some? && f.sops == g.sops && Decrypt(f, ids, env).Ok? && Decrypt(g, ids, env).Ok?
    ensures var r := f.sops.value.criteria;
            FedFields(Decrypt(f, ids, env).value.root, [], r, env) == FedFields(Decrypt(g, ids, env).value.root, [], r, env)
  {
    var md := f.sops.value;
    var key := Unwrap(md.age, ids).value;
    FieldsAreFed(f.root, [], md.criteria, key, env);
    FieldsAreFed(g.root, [], md.criteria, key, env);
  }

  // ---- when encryption succeeds ----

  predicate NoAlias(n: Node) {
    match n
    case Map(fs) => NoAliasFields(fs)
    case List(ns) => NoAliasItems(ns)
    case Scalar(_) => true
    case Alias => false
  }

  predicate NoAliasFields(fs: Fields) { fs.NoField? || (NoAlias(fs.value) && NoAliasFields(fs.rest)) }

  predicate NoAliasItems(ns: Items) { ns.NoItem? || (NoAlias(ns.head) && NoAliasItems(ns.tail)) }

  predicate HasScalar(n: Node) {
    match n
    case Map(fs) => HasScalarFields(fs)
    case List(ns) => HasScalarItems(ns)
    case Scalar(_) => true
    case Alias => false
  }

  predicate HasScalarFields(fs: Fields) { fs.Field? && (HasScalar(fs.value) || HasScalarFields(fs.rest)) }

  predicate HasScalarItems(ns: Items) { ns.Item? && (HasScalar(ns.head) || HasScalarItems(ns.tail)) }

  lemma {:induction false} NodeEncrypts(n: Node, path: seq<string>, r: Criteria, key: int, env: Env)
    ensures EncNode(n, path, r, key, env).Ok? <==> NoAlias(n) && (HasScalar(n) ==> Compiles(r, env))
  {
    match n
    case Map(fs) => FieldsEncrypt(fs, path, r, key, env);
    case List(ns) => ItemsEncrypt(ns, path, r, key, env);
    case _ =>
  }

  lemma {:induction false} FieldsEncrypt(fs: Fields, path: seq<string>, r: Criteria, key: int, env: Env)
    ensures EncFields(fs, path, r, key, env).Ok? <==> NoAliasFields(fs) && (HasScalarFields(fs) ==> Compiles(r, env))
  {
    if fs.Field? {
      NodeEncrypts(fs.value, path + [fs.key], r, key, env);
      FieldsEncrypt(fs.rest, path, r, key, env);
    }
  }

  lemma {:induction false} ItemsEncrypt(ns: Items, path: seq<string>, r: Criteria, key: int, env: Env)
    ensures EncItems(ns, path, r, key, env).Ok? <==> NoAliasItems(ns) && (HasScalarItems(ns) ==> Compiles(r, env))
  {
    if ns.Item? {
      NodeEncrypts(ns.head, path, r, key, env);
      ItemsEncrypt(ns.tail, path, r, key, env);
    }
  }

  predicate RecipientsOk(age: seq<string>, env: Env) { age != [] && forall i | 0 <= i < |age| :: env.recipientOk(age[i]) }

  /** Encryption fails only for a reason one can see in the input. */
  lemma EncryptSucceeds(f: File, rule: Rule, key: int, stamp: string, env: Env)
    ensures Encrypt(f, rule, key, stamp, env).Ok? <==>
              && RecipientsOk(rule.age, env) && f.sops.None? && Lookup(f.root, "sops").None? && NoAliasFields(f.root)
              && (HasScalarFields(f.root) ==>
                    && (rule.criteria.encryptedRegex == "" || env.compiles(rule.criteria.encryptedRegex))
                    && (rule.criteria.unencryptedRegex == "" || env.compiles(rule.criteria.unencryptedRegex)))
  {
    FieldsEncrypt(f.root, [], Effective(rule.criteria), key, env);
  }

  // ---- any file that opens can be sealed again ----

  /** What an opened tree is like: nothing left in it that sealing or opening would refuse, under any rule that seals no more. */
  lemma {:induction false} OpenedNode(n: Node, path: seq<string>, r: Criteria, t: Criteria, key: int, env: Env)
    requires DecNode(n, path, r, key, env).Ok? && (t == r || !Selects(r))
    ensures var p := DecNode(n, path, r, key, env).value.0;
            NoAlias(p) && (HasScalar(p) ==> Compiles(r, env)) && NoSpelledNull(p, path, t, env)
  {
    match n
    case Map(fs) => OpenedFields(fs, path, r, t, key, env);
    case List(ns) => OpenedItems(ns, path, r, t, key, env);
    case _ =>
  }

  lemma {:induction false} OpenedFields(fs: Fields, path: seq<string>, r: Criteria, t: Criteria, key: int, env: Env)
    requires DecFields(fs, path, r, key, env).Ok? && (t == r || !Selects(r))
    ensures var p := DecFields(fs, path, r, key, env).value.0;
            NoAliasFields(p) && (HasScalarFields(p) ==> Compiles(r, env)) && NoSpelledNullFields(p, path, t, env)
  {
    if fs.Field? {
      OpenedNode(fs.value, path + [fs.key], r, t, key, env);
      OpenedFields(fs.rest, path, r, t, key, env);
    }
  }

  lemma {:induction false} OpenedItems(ns: Items, path: seq<string>, r: Criteria, t: Criteria, key: int, env: Env)
    requires DecItems(ns, path, r, key, env).Ok? && (t == r || !Selects(r))
    ensures var p := DecItems(ns, path, r, key, env).value.0;
            NoAliasItems(p) && (HasScalarItems(p) ==> Compiles(r, env)) && NoSpelledNullItems(p, path, t, env)
  {
    if ns.Item? {
      OpenedNode(ns.head, path, r, t, key, env);
      OpenedItems(ns.tail, path, r, t, key, env);
    }
  }

  lemma {:induction false} UnwrappedByReader(keys: seq<AgeKey>, ids: set<string>)
    requires Unwrap(keys, ids).Ok?
    ensures exists i :: 0 <= i < |keys| && keys[i].recipient in ids && keys[i].wrapped == Unwrap(keys, ids).value
    decreases |keys|
  {
    if keys[0].recipient !in ids {
      UnwrappedByReader(keys[1..], ids);
    }
  }

  /** Only an encrypted file without key groups opens, and only for a reader; what it opens to can be sealed again. */
  lemma OpenedFile(f: File, ids: set<string>, env: Env)
    requires Decrypt(f, ids, env).Ok?
    ensures f.sops.Some? && !f.sops.value.keyGroups && Readable(Recipients(f.sops.value), ids)
    ensures var p, t := Decrypt(f, ids, env).value, Effective(f.sops.value.criteria);
            && p.sops.None? && Lookup(p.root, "sops").None? && NoAliasFields(p.root) && (HasScalarFields(p.root) ==> Compiles(t, env))
            && NoSpelledNull(Map(p.root), [], t, env)
  {
    var md := f.sops.value;
    var key := Unwrap(md.age, ids).value;
    OpenedFields(f.root, [], md.criteria, Effective(md.criteria), key, env);
    OpenedKeys(f.root, [], md.criteria, key, env, "sops");
    UnwrappedByReader(md.age, ids);
    var i :| 0 <= i < |md.age| && md.age[i].recipient in ids;
    assert Recipients(md)[i] in ids;
  }

  /**
   Changing the recipients of any file one can open succeeds for every usable list of recipients; the result names
   exactly those, has a key of its own, opens exactly for them, holds the same values and seals by the same criteria.
   */
  lemma RekeyKeepsPlaintext(f: File, ids: set<string>, recipients: seq<string>, key: int, stamp: string, env: Env, readers: set<string>)
    requires Decrypt(f, ids, env).Ok? && RecipientsOk(recipients, env)
    ensures var g := Rekey(f, ids, recipients, key, stamp, env);
            && g.Ok? && g.value.sops.Some? && g.value.sops.value.age == WrapAll(key, recipients)
            && Recipients(g.value.sops.value) == recipients && g.value.sops.value.criteria == Effective(f.sops.value.criteria)
            && var d := Decrypt(g.value, readers, env);
               && (d.Ok? <==> Readable(recipients, readers))
               && (d.Ok? ==> SameValues(Map(d.value.root), Map(Decrypt(f, ids, env).value.root)))
  {
    OpenedFile(f, ids, env);
    var plain := Decrypt(f, ids, env).value;
    var rule := RuleOf(f.sops.value).(age := recipients);
    EncryptSucceeds(plain, rule, key, stamp, env);
    assert plain == File(plain.root, None);
    RoundTrip(plain.root, rule, key, stamp, env, readers);
    assert Recipients(Rekey(f, ids, recipients, key, stamp, env).value.sops.value) == recipients;
  }

  /** An edit goes through exactly when the file opens, the edit gives a mapping, and that can be sealed. */
  lemma EditSucceeds(f: File, ids: set<string>, edit: Node -> Result<Node, Error>, key: int, stamp: string, env: Env)
    ensures Edit(f, ids, edit, key, stamp, env).Ok? <==>
              && f.sops.Some? && Decrypt(f, ids, env).Ok?
              && var edited := edit(Map(Decrypt(f, ids, env).value.root));
                 && edited.Ok? && edited.value.Map? && Lookup(edited.value.fields, "sops").None? && NoAliasFields(edited.value.fields)
                 && RecipientsOk(Recipients(f.sops.value), env)
                 && (HasScalarFields(edited.value.fields) ==> Compiles(f.sops.value.criteria, env))
  {
    if f.sops.Some? && Decrypt(f, ids, env).Ok? {
      var edited := edit(Map(Decrypt(f, ids, env).value.root));
      if edited.Ok? && edited.value.Map? {
        EncryptSucceeds(File(edited.value.fields, None), RuleOf(f.sops.value), key, stamp, env);
      }
    }
  }

  /**
   An edit that goes through opens, for the readers the file already had, to the edited plaintext; the only way it
   does not open is an edit that spelled out a null where the rule seals.
   */
  lemma EditOpensToEdited(f: File, ids: set<string>, edit: Node -> Result<Node, Error>, key: int, stamp: string, env: Env, readers: set<string>)
    requires Edit(f, ids, edit, key, stamp, env).Ok?
    ensures Decrypt(f, ids, env).Ok? && f.sops.Some? && edit(Map(Decrypt(f, ids, env).value.root)).Ok?
    ensures var g := Edit(f, ids, edit, key, stamp, env).value;
            && g.sops.Some? && Recipients(g.sops.value) == Recipients(f.sops.value)
            && g.sops.value.criteria == Effective(f.sops.value.criteria)
    ensures var edited := edit(Map(Decrypt(f, ids, env).value.root)).value;
            var d := Decrypt(Edit(f, ids, edit, key, stamp, env).value, readers, env);
            && (d.Ok? <==> Readable(Recipients(f.sops.value), readers)
                           && NoSpelledNull(edited, [], Effective(f.sops.value.criteria), env))
            && (d.Ok? ==> SameValues(Map(d.value.root), edited))
  {
    var edited := edit(Map(Decrypt(f, ids, env).value.root)).value;
    RoundTrip(edited.fields, RuleOf(f.sops.value), key, stamp, env, readers);
    assert Recipients(Edit(f, ids, edit, key, stamp, env).value.sops.value) == Recipients(f.sops.value);
  }
}
