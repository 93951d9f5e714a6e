/**
 The same patch on the document the server holds: a YAML tree with `data` and `stringData` sections among other
 things. The module shows that the replay is accepted, does to the sections what the map-level replay says, and
 leaves the rest of the document alone.
 */
module SecretDocument {
  import opened Basics
  import opened SecretTree
  import opened SecretPatch

  predicate AllScalars(fs: Fields) { fs.NoField? || (fs.value.Scalar? && AllScalars(fs.rest)) }

  function FieldMap(fs: Fields): map<string, Text> {
    match fs
    case NoField => map[]
    case Field(k, n, rest) => if n.Scalar? then FieldMap(rest)[k := TextOf(n.leaf)] else FieldMap(rest)
  }

  function SectionFields(root: Node, s: Section): Fields
    requires root.Map?
  {
    match Lookup(root.fields, Name(s)) case Some(Map(fs)) => fs case _ => NoField
  }

  predicate SectionTidy(root: Node, s: Section)
    requires root.Map?
  {
    var n := Lookup(root.fields, Name(s));
    n.None? || (n.value.Map? && UniqueKeys(n.value.fields) && AllScalars(n.value.fields))
  }

  /** A Secret manifest: no key twice, and sections, where present, that map names to scalars. */
  predicate Tidy(root: Node) {
    root.Map? && UniqueKeys(root.fields) && SectionTidy(root, InData) && SectionTidy(root, InStringData)
  }

  /** `e` is what the two sections of the document hold. */
  ghost predicate Holds(root: Node, e: Entries)
    requires root.Map?
  {
    forall s: Slot ::
      && (s in e <==> s.key in FieldMap(SectionFields(root, s.section)))
      && (s in e ==> e[s] == FieldMap(SectionFields(root, s.section))[s.key])
  }

  /** Every other top-level field, in order. */
  function Rest(fs: Fields): Fields {
    match fs
    case NoField => NoField
    case Field(k, n, rest) => if k == "data" || k == "stringData" then Rest(rest) else Field(k, n, Rest(rest))
  }

  // ---- one field at a time ----

  lemma {:induction false} InFieldMap(fs: Fields, k: string)
    requires AllScalars(fs)
    ensures k in FieldMap(fs) <==> Lookup(fs, k).Some?
  {
    if fs.Field? {
      InFieldMap(fs.rest, k);
    }
  }

  lemma {:induction false} Appended(fs: Fields, k: string, n: Node)
    requires UniqueKeys(fs) && Lookup(fs, k).None?
    ensures UniqueKeys(Append(fs, k, n))
    ensures AllScalars(fs) && n.Scalar? ==>
              AllScalars(Append(fs, k, n)) && FieldMap(Append(fs, k, n)) == FieldMap(fs)[k := TextOf(n.leaf)]
    ensures k == "data" || k == "stringData" ==> Rest(Append(fs, k, n)) == Rest(fs)
  {
    if fs.Field? {
      Appended(fs.rest, k, n);
      LookupAfterAppend(fs.rest, k, n, fs.key);
    }
  }

  lemma {:induction false} Replaced(fs: Fields, k: string, n: Node)
    requires UniqueKeys(fs) && Lookup(fs, k).Some?
    ensures UniqueKeys(Replace(fs, k, n))
    ensures AllScalars(fs) && n.Scalar? ==>
              AllScalars(Replace(fs, k, n)) && FieldMap(Replace(fs, k, n)) == FieldMap(fs)[k := TextOf(n.leaf)]
    ensures k == "data" || k == "stringData" ==> Rest(Replace(fs, k, n)) == Rest(fs)
  {
    if fs.Field? && fs.key != k {
      Replaced(fs.rest, k, n);
      LookupAfterReplace(fs.rest, k, n, fs.key);
    }
  }

  lemma {:induction false} Removed(fs: Fields, k: string)
    requires UniqueKeys(fs) && AllScalars(fs) && Lookup(fs, k).Some?
    ensures UniqueKeys(Remove(fs, k)) && AllScalars(Remove(fs, k))
    ensures FieldMap(Remove(fs, k)) == FieldMap(fs) - {k}
  {
    if fs.key == k {
      InFieldMap(fs.rest, k);
    } else {
      Removed(fs.rest, k);
      LookupAfterRemove(fs.rest, k, fs.key);
    }
  }

  // ---- one path at a time ----

  function PathOf(s: Slot): seq<string> { [Name(s.section), s.key] }

  function Other(s: Section): Section { if s.InData? then InStringData else InData }

  lemma SectionNames(s: Section)
    ensures Name(s) != Name(Other(s)) && (Name(s) == "data" || Name(s) == "stringData")
  {
    assert "data"[0] != "stringData"[0];
  }

  /** `r` is `root` with the fields of one section rewritten. */
  predicate Rewrites(root: Node, r: Node, s: Section, fs: Fields)
    requires root.Map?
  {
    && Tidy(r) && Rest(r.fields) == Rest(root.fields)
    && SectionFields(r, s) == fs && SectionFields(r, Other(s)) == SectionFields(root, Other(s))
  }

  lemma SectionRewritten(root: Node, s: Section, fs: Fields)
    requires Tidy(root) && Lookup(root.fields, Name(s)).Some? && UniqueKeys(fs) && AllScalars(fs)
    ensures Rewrites(root, Map(Replace(root.fields, Name(s), Map(fs))), s, fs)
  {
    SectionNames(s);
    Replaced(root.fields, Name(s), Map(fs));
    LookupAfterReplace(root.fields, Name(s), Map(fs), Name(s));
    LookupAfterReplace(root.fields, Name(s), Map(fs), Name(Other(s)));
  }

  lemma SectionCreated(root: Node, s: Section, fs: Fields)
    requires Tidy(root) && Lookup(root.fields, Name(s)).None? && UniqueKeys(fs) && AllScalars(fs)
    ensures Rewrites(root, Map(Append(root.fields, Name(s), Map(fs))), s, fs)
  {
    SectionNames(s);
    Appended(root.fields, Name(s), Map(fs));
    LookupAfterAppend(root.fields, Name(s), Map(fs), Name(s));
    LookupAfterAppend(root.fields, Name(s), Map(fs), Name(Other(s)));
  }

  lemma SectionIsTidy(root: Node, s: Section)
    requires Tidy(root)
    ensures UniqueKeys(SectionFields(root, s)) && AllScalars(SectionFields(root, s))
  {
  }

  lemma EntryRemoved(root: Node, e: Entries, r: Node, s: Slot, fs: Fields)
    requires root.Map? && Holds(root, e) && Rewrites(root, r, s.section, fs)
    requires FieldMap(fs) == FieldMap(SectionFields(root, s.section)) - {s.key}
    ensures Holds(r, e - {s})
  {
    assert forall t: Slot :: t.section == s.section || t.section == Other(s.section);
  }

  lemma EntrySet(root: Node, e: Entries, r: Node, s: Slot, fs: Fields, value: Text)
    requires root.Map? && Holds(root, e) && Rewrites(root, r, s.section, fs)
    requires FieldMap(fs) == FieldMap(SectionFields(root, s.section))[s.key := value]
    ensures Holds(r, e[s := value])
  {
    assert forall t: Slot :: t.section == s.section || t.section == Other(s.section);
  }

  lemma DeletePath(root: Node, s: Slot)
    requires root.Map? && Lookup(root.fields, Name(s.section)).Some? && Lookup(root.fields, Name(s.section)).value.Map?
    requires Lookup(SectionFields(root, s.section), s.key).Some?
    ensures Delete(root, PathOf(s)) == Ok(Map(Replace(root.fields, Name(s.section), Map(Remove(SectionFields(root, s.section), s.key)))))
  {
    assert PathOf(s)[1..] == [s.key];
    assert Delete(Map(SectionFields(root, s.section)), [s.key]) == Ok(Map(Remove(SectionFields(root, s.section), s.key)));
  }

  lemma DeletesSlot(root: Node, e: Entries, s: Slot)
    requires Tidy(root) && Holds(root, e) && s in e
    ensures var r := Delete(root, PathOf(s));
            && r.Ok? && Tidy(r.value) && Rest(r.value.fields) == Rest(root.fields)
            && Holds(r.value, e - {s})
  {
    var fs := SectionFields(root, s.section);
    SectionIsTidy(root, s.section);
    InFieldMap(fs, s.key);
    Removed(fs, s.key);
    DeletePath(root, s);
    SectionRewritten(root, s.section, Remove(fs, s.key));
    EntryRemoved(root, e, Delete(root, PathOf(s)).value, s, Remove(fs, s.key));
  }

  /** One section's fields after an assignment. */
  function Assign(fs: Fields, k: string, value: Text): Fields {
    if Lookup(fs, k).None? then Append(fs, k, Scalar(StrLeaf(value))) else Replace(fs, k, Scalar(StrLeaf(value)))
  }

  lemma AssignsField(fs: Fields, k: string, value: Text)
    requires UniqueKeys(fs) && AllScalars(fs)
    ensures Set(Map(fs), [k], value) == Ok(Map(Assign(fs, k, value)))
    ensures UniqueKeys(Assign(fs, k, value)) && AllScalars(Assign(fs, k, value))
    ensures FieldMap(Assign(fs, k, value)) == FieldMap(fs)[k := value]
  {
    if Lookup(fs, k).None? {
      Appended(fs, k, Scalar(StrLeaf(value)));
    } else {
      ScalarAt(fs, k);
      Replaced(fs, k, Scalar(StrLeaf(value)));
    }
  }

  lemma SetsSlot(root: Node, e: Entries, s: Slot, value: Text)
    requires Tidy(root) && Holds(root, e)
    ensures var r := Set(root, PathOf(s), value);
            && r.Ok? && Tidy(r.value) && Rest(r.value.fields) == Rest(root.fields)
            && Holds(r.value, e[s := value])
  {
    var fs := SectionFields(root, s.section);
    SectionIsTidy(root, s.section);
    AssignsField(fs, s.key, value);
    assert PathOf(s)[1..] == [s.key];
    if Lookup(root.fields, Name(s.section)).None? {
      SectionCreated(root, s.section, Assign(fs, s.key, value));
    } else {
      SectionRewritten(root, s.section, Assign(fs, s.key, value));
    }
    EntrySet(root, e, Set(root, PathOf(s), value).value, s, Assign(fs, s.key, value), value);
  }

  lemma {:induction false} ScalarAt(fs: Fields, k: string)
    requires AllScalars(fs) && Lookup(fs, k).Some?
    ensures Lookup(fs, k).value.Scalar?
  {
    if fs.key != k {
      ScalarAt(fs.rest, k);
    }
  }

  // ---- the replay ----

  predicate ValidPath(path: seq<string>) { path != [] && forall i | 0 <= i < |path| :: Trim(path[i]) != "" }

  /** A path of the tree with the value it is to have. */
  datatype Entry = Entry(path: seq<string>, value: Text)

  function DeleteAll(root: Node, paths: seq<seq<string>>): Result<Node, Error> {
    if paths == [] then Ok(root)
    else match DeleteAll(root, paths[..|paths| - 1])
         case Err(e) => Err(e)
         case Ok(n) => if paths[|paths| - 1] == [] then Err(EmptyKey) else Delete(n, paths[|paths| - 1])
  }

  function SetAll(root: Node, sets: seq<Entry>): Result<Node, Error> {
    if sets == [] then Ok(root)
    else match SetAll(root, sets[..|sets| - 1])
         case Err(e) => Err(e)
         case Ok(n) => if sets[|sets| - 1].path == [] then Err(EmptyKey) else Set(n, sets[|sets| - 1].path, sets[|sets| - 1].value)
  }

  predicate PathsValid(removes: seq<seq<string>>, sets: seq<Entry>) {
    && (forall i | 0 <= i < |removes| :: ValidPath(removes[i]))
    && (forall i | 0 <= i < |sets| :: ValidPath(sets[i].path))
  }

  method CheckPaths(removes: seq<seq<string>>, sets: seq<Entry>) returns (ok: bool)
    ensures ok <==> PathsValid(removes, sets)
  {
    for i := 0 to |sets|
      invariant forall k | 0 <= k < i :: ValidPath(sets[k].path)
    {
      if !ValidPath(sets[i].path) {
        return false;
      }
    }
    for i := 0 to |removes|
      invariant forall k | 0 <= k < i :: ValidPath(removes[k])
    {
      if !ValidPath(removes[i]) {
        return false;
      }
    }
    ok := true;
  }

  method RunDeletes(root: Node, removes: seq<seq<string>>) returns (r: Result<Node, Error>)
    requires forall i | 0 <= i < |removes| :: removes[i] != []
    ensures r == DeleteAll(root, removes)
  {
    var n := root;
    for i := 0 to |removes|
      invariant DeleteAll(root, removes[..i]) == Ok(n)
    {
      assert removes[..i + 1][..i] == removes[..i];
      var d := Delete(n, removes[i]);
      if d.Err? {
        DeleteStops(root, removes, i + 1);
        return d;
      }
      n := d.value;
    }
    assert removes[..|removes|] == removes;
    r := Ok(n);
  }

  method RunSets(root: Node, sets: seq<Entry>) returns (r: Result<Node, Error>)
    requires forall i | 0 <= i < |sets| :: sets[i].path != []
    ensures r == SetAll(root, sets)
  {
    var n := root;
    for i := 0 to |sets|
      invariant SetAll(root, sets[..i]) == Ok(n)
    {
      assert sets[..i + 1][..i] == sets[..i];
      var d := Set(n, sets[i].path, sets[i].value);
      if d.Err? {
        SetStops(root, sets, i + 1);
        return d;
      }
      n := d.value;
    }
    assert sets[..|sets|] == sets;
    r := Ok(n);
  }

  function Handled(root: Node, sets: seq<Entry>, removes: seq<seq<string>>): Result<Node, Error> {
    if !PathsValid(removes, sets) then Err(EmptyKey)
    else match DeleteAll(root, removes) case Err(e) => Err(e) case Ok(n) => SetAll(n, sets)
  }

  /** The request handler: every path is checked, then all removals run, then all assignments; the first error ends it. */
  method HandlePatch(root: Node, sets: seq<Entry>, removes: seq<seq<string>>) returns (r: Result<Node, Error>)
    ensures r == Handled(root, sets, removes)
  {
    var ok := CheckPaths(removes, sets);
    if !ok {
      return Err(EmptyKey);
    }
    r := RunDeletes(root, removes);
    if r.Ok? {
      r := RunSets(r.value, sets);
    }
  }

  lemma {:induction false} DeleteStops(root: Node, paths: seq<seq<string>>, i: nat)
    requires i <= |paths| && DeleteAll(root, paths[..i]).Err?
    ensures DeleteAll(root, paths) == DeleteAll(root, paths[..i])
    decreases |paths|
  {
    if i == |paths| {
      assert paths[..i] == paths;
    } else {
      assert paths[..|paths| - 1][..i] == paths[..i];
      DeleteStops(root, paths[..|paths| - 1], i);
    }
  }

  lemma {:induction false} SetStops(root: Node, sets: seq<Entry>, i: nat)
    requires i <= |sets| && SetAll(root, sets[..i]).Err?
    ensures SetAll(root, sets) == SetAll(root, sets[..i])
    decreases |sets|
  {
    if i == |sets| {
      assert sets[..i] == sets;
    } else {
      assert sets[..|sets| - 1][..i] == sets[..i];
      SetStops(root, sets[..|sets| - 1], i);
    }
  }

  lemma {:induction false} DeletesElsewhere(root: Node, paths: seq<seq<string>>, q: seq<string>)
    requires DeleteAll(root, paths).Ok? && forall i | 0 <= i < |paths| :: Diverge(paths[i], q)
    ensures Get(DeleteAll(root, paths).value, q) == Get(root, q)
    decreases |paths|
  {
    if paths != [] {
      var past, last := paths[..|paths| - 1], paths[|paths| - 1];
      DeletesElsewhere(root, past, q);
      DeleteElsewhere(DeleteAll(root, past).value, last, q);
    }
  }

  lemma {:induction false} SetsElsewhere(root: Node, sets: seq<Entry>, q: seq<string>)
    requires SetAll(root, sets).Ok? && forall i | 0 <= i < |sets| :: Diverge(sets[i].path, q)
    ensures Get(SetAll(root, sets).value, q) == Get(root, q)
    decreases |sets|
  {
    if sets != [] {
      var past, last := sets[..|sets| - 1], sets[|sets| - 1];
      SetsElsewhere(root, past, q);
      SetElsewhere(SetAll(root, past).value, last.path, last.value, q);
    }
  }

  /** A patch of whatever paths changes nothing at a path that branches off from all of them. */
  lemma PatchElsewhere(root: Node, sets: seq<Entry>, removes: seq<seq<string>>, q: seq<string>)
    requires Handled(root, sets, removes).Ok?
    requires (forall i | 0 <= i < |sets| :: Diverge(sets[i].path, q)) && forall i | 0 <= i < |removes| :: Diverge(removes[i], q)
    ensures Get(Handled(root, sets, removes).value, q) == Get(root, q)
  {
    DeletesElsewhere(root, removes, q);
    SetsElsewhere(DeleteAll(root, removes).value, sets, q);
  }

  /** A value that is set is there afterwards, when the sets that follow go elsewhere. */
  lemma {:induction false} PatchSets(root: Node, sets: seq<Entry>, i: nat)
    requires i < |sets| && SetAll(root, sets).Ok? && forall j | i < j < |sets| :: Diverge(sets[j].path, sets[i].path)
    ensures Get(SetAll(root, sets).value, sets[i].path) == Some(Scalar(StrLeaf(sets[i].value)))
    decreases |sets|
  {
    var past, last := sets[..|sets| - 1], sets[|sets| - 1];
    if i == |past| {
      SetThenGet(SetAll(root, past).value, last.path, last.value);
    } else {
      PatchSets(root, past, i);
      SetElsewhere(SetAll(root, past).value, last.path, last.value, sets[i].path);
    }
  }

  lemma {:induction false} DeletedAreGone(root: Node, paths: seq<seq<string>>, q: seq<string>)
    requires UniqueThroughout(root) && DeleteAll(root, paths).Ok?
    ensures UniqueThroughout(DeleteAll(root, paths).value)
    ensures Get(root, q).None? || q in paths ==> Get(DeleteAll(root, paths).value, q).None?
    decreases |paths|
  {
    if paths != [] {
      var past, last := paths[..|paths| - 1], paths[|paths| - 1];
      assert paths == past + [last];
      DeletedAreGone(root, past, q);
      DeleteShrinks(DeleteAll(root, past).value, last, q);
    }
  }

  /**
   What a patch of whatever paths does at its own paths: every value is there that no later one touches, and nothing is
   left at a removed path, at whatever depth, that no value is set on the way of.
   */
  lemma PatchAtItsPaths(root: Node, sets: seq<Entry>, removes: seq<seq<string>>)
    requires Handled(root, sets, removes).Ok?
    ensures forall i: nat | i < |sets| && (forall j | i < j < |sets| :: Diverge(sets[j].path, sets[i].path)) ::
              Get(Handled(root, sets, removes).value, sets[i].path) == Some(Scalar(StrLeaf(sets[i].value)))
    ensures UniqueThroughout(root) ==>
              forall q | q in removes && (forall j | 0 <= j < |sets| :: Diverge(sets[j].path, q)) ::
                Get(Handled(root, sets, removes).value, q).None?
  {
    var left := DeleteAll(root, removes).value;
    forall i: nat | i < |sets| && (forall j | i < j < |sets| :: Diverge(sets[j].path, sets[i].path))
      ensures Get(SetAll(left, sets).value, sets[i].path) == Some(Scalar(StrLeaf(sets[i].value)))
    {
      PatchSets(left, sets, i);
    }
    if UniqueThroughout(root) {
      forall q | q in removes && (forall j | 0 <= j < |sets| :: Diverge(sets[j].path, q))
        ensures Get(SetAll(left, sets).value, q).None?
      {
        DeletedAreGone(root, removes, q);
        SetsElsewhere(left, sets, q);
      }
    }
  }

  // ---- the page's patch ----

  function PathsOf(slots: seq<Slot>): seq<seq<string>> { seq(|slots|, i requires 0 <= i < |slots| => PathOf(slots[i])) }

  lemma PathsInit(slots: seq<Slot>)
    requires slots != []
    ensures PathsOf(slots)[..|slots| - 1] == PathsOf(slots[..|slots| - 1])
  {
  }

  function EntriesOf(sets: seq<Assignment>): seq<Entry> {
    seq(|sets|, i requires 0 <= i < |sets| => Entry(PathOf(sets[i].slot), Plain(sets[i].value)))
  }

  /** Each slot is there when its turn comes. */
  predicate Removable(e: Entries, slots: seq<Slot>) {
    slots == [] ||
    (Removable(e, slots[..|slots| - 1]) && slots[|slots| - 1] in e && slots[|slots| - 1] !in slots[..|slots| - 1])
  }

  lemma {:induction false} DeletesAll(root: Node, e: Entries, slots: seq<Slot>)
    requires Tidy(root) && Holds(root, e) && Removable(e, slots)
    ensures var r := DeleteAll(root, PathsOf(slots));
            && r.Ok? && Tidy(r.value) && Rest(r.value.fields) == Rest(root.fields)
            && Holds(r.value, RemoveAll(e, slots))
    decreases |slots|
  {
    if slots != [] {
      var past, s := slots[..|slots| - 1], slots[|slots| - 1];
      DeletesAll(root, e, past);
      RemovedSlots(e, past, s);
      PathsInit(slots);
      DeletesSlot(DeleteAll(root, PathsOf(past)).value, RemoveAll(e, past), s);
    }
  }

  lemma {:induction false} SetsAll(root: Node, e: Entries, sets: seq<Assignment>)
    requires Tidy(root) && Holds(root, e)
    ensures var r := SetAll(root, EntriesOf(sets));
            && r.Ok? && Tidy(r.value) && Rest(r.value.fields) == Rest(root.fields)
            && Holds(r.value, AssignAll(e, sets))
    decreases |sets|
  {
    if sets != [] {
      var past, last := sets[..|sets| - 1], sets[|sets| - 1];
      SetsAll(root, e, past);
      assert EntriesOf(sets)[..|sets| - 1] == EntriesOf(past);
      SetsSlot(SetAll(root, EntriesOf(past)).value, AssignAll(e, past), last.slot, Plain(last.value));
    }
  }

  lemma RemovableStep(e: Entries, slots: seq<Slot>, s: Slot)
    requires Removable(e, slots) && s in e && s !in slots
    ensures Removable(e, slots + [s])
  {
    assert (slots + [s])[..|slots|] == slots;
  }

  lemma DroppedStep(before: seq<Row>, after: seq<Row>, n: nat)
    requires 0 < n <= |before|
    ensures var past, b := Dropped(before[..n - 1], after), before[n - 1];
            Dropped(before[..n], after) == if !Kept(after, b.id) && b.from.Some? then past + [b.from.value.slot] else past
  {
    assert before[..n][..n - 1] == before[..n - 1];
  }

  lemma DroppedIsNew(e: Entries, before: seq<Row>, after: seq<Row>, i: nat)
    requires Loaded(e, before) && i < |before|
    ensures before[i].from.value.slot in e && before[i].from.value.slot !in Dropped(before[..i], after)
  {
    DroppedSlots(before[..i], after, before[i].from.value.slot);
    assert forall k | 0 <= k < i :: before[..i][k].from.value.slot != before[i].from.value.slot;
  }

  lemma {:induction false} DroppedRemovable(e: Entries, before: seq<Row>, after: seq<Row>, n: nat)
    requires Loaded(e, before) && n <= |before|
    ensures Removable(e, Dropped(before[..n], after))
  {
    if n > 0 {
      DroppedRemovable(e, before, after, n - 1);
      DroppedStep(before, after, n);
      DroppedIsNew(e, before, after, n - 1);
      RemovableStep(e, Dropped(before[..n - 1], after), before[n - 1].from.value.slot);
    }
  }

  lemma {:induction false} RenamedRemovable(e: Entries, before: seq<Row>, after: seq<Row>, n: nat)
    requires Loaded(e, before) && Edited(before, after) && n <= |after|
    ensures Removable(e, Dropped(before, after) + Renamed(after[..n]))
  {
    var dropped := Dropped(before, after);
    if n == 0 {
      assert before[..|before|] == before && dropped + [] == dropped;
      DroppedRemovable(e, before, after, |before|);
    } else {
      RenamedRemovable(e, before, after, n - 1);
      RenamedStep(after, n, dropped);
      if Moved(after[n - 1]) {
        RenamedIsNew(e, before, after, n - 1);
        RemovableStep(e, dropped + Renamed(after[..n - 1]), after[n - 1].from.value.slot);
      }
    }
  }

  lemma RenamedStep(after: seq<Row>, n: nat, first: seq<Slot>)
    requires 0 < n <= |after|
    ensures var past, all := first + Renamed(after[..n - 1]), first + Renamed(after[..n]);
            all == if Moved(after[n - 1]) then past + [after[n - 1].from.value.slot] else past
  {
    assert after[..n][..n - 1] == after[..n - 1];
  }

  lemma RenamedIsNew(e: Entries, before: seq<Row>, after: seq<Row>, i: nat)
    requires Loaded(e, before) && Edited(before, after) && i < |after| && Moved(after[i])
    ensures var s := after[i].from.value.slot;
            s in e && s !in Dropped(before, after) + Renamed(after[..i])
  {
    var s := after[i].from.value.slot;
    DroppedSlots(before, after, s);
    RenamedSlots(after[..i], s);
    var b :| 0 <= b < |before| && before[b].id == after[i].id && before[b].from == after[i].from;
    assert Kept(after, before[b].id);
    forall k: nat | k < i && Moved(after[k])
      ensures after[..i][k].from.value.slot != s
    {
      if after[k].from.value.slot == s {
        SameOriginSameRow(e, before, after, i, k);
      }
    }
  }

  lemma {:induction false} AssignedPathsValid(after: seq<Row>, encode: string -> string)
    requires forall i | 0 <= i < |after| :: GoodKey(Trim(after[i].key))
    ensures forall i | 0 <= i < |Assigned(after, encode)| :: ValidPath(PathOf(Assigned(after, encode)[i].slot))
    decreases |after|
  {
    if after != [] {
      var past, r := after[..|after| - 1], after[|after| - 1];
      assert forall i | 0 <= i < |past| :: past[i] == after[i];
      AssignedPathsValid(past, encode);
      TrimIdempotent(r.key);
      NamesAreNotBlank(r.section);
    }
  }

  lemma NamesAreNotBlank(s: Section)
    ensures Trim(Name(s)) == Name(s)
  {
    var n := Name(s);
    assert !IsSpace(n[0]) && !IsSpace(n[|n| - 1]);
  }

  lemma {:induction false} RemovableAreEntries(e: Entries, slots: seq<Slot>)
    requires Removable(e, slots)
    ensures forall i | 0 <= i < |slots| :: slots[i] in e
    decreases |slots|
  {
    if slots != [] {
      RemovableAreEntries(e, slots[..|slots| - 1]);
    }
  }

  lemma SlotPathValid(s: Slot)
    requires Trim(s.key) != ""
    ensures ValidPath(PathOf(s))
  {
    NamesAreNotBlank(s.section);
  }

  lemma PatchIsValid(e: Entries, before: seq<Row>, after: seq<Row>, encode: string -> string)
    requires Loaded(e, before) && Edited(before, after) && KeysOk(after) && forall s | s in e :: Trim(s.key) != ""
    ensures PathsValid(PathsOf(Dropped(before, after) + Renamed(after)), EntriesOf(Assigned(after, encode)))
    ensures Removable(e, Dropped(before, after) + Renamed(after))
  {
    var removes := Dropped(before, after) + Renamed(after);
    assert Removable(e, removes) by {
      assert after[..|after|] == after;
      RenamedRemovable(e, before, after, |after|);
    }
    RemovableAreEntries(e, removes);
    forall i | 0 <= i < |removes|
      ensures ValidPath(PathOf(removes[i]))
    {
      SlotPathValid(removes[i]);
    }
    AssignedPathsValid(after, encode);
  }

  /**
   The whole round: the page's patch of a tidy Secret is accepted, leaves every other part of the document as it
   was and in its order, and turns the entries into what the rows show.
   */
  lemma PatchApplies(root: Node, e: Entries, before: seq<Row>, after: seq<Row>, encode: string -> string)
    requires Tidy(root) && Holds(root, e) && Loaded(e, before) && Edited(before, after) && KeysOk(after)
    requires forall s | s in e :: Trim(s.key) != ""
    ensures var r := Handled(root, EntriesOf(Assigned(after, encode)), PathsOf(Dropped(before, after) + Renamed(after)));
            && r.Ok? && Tidy(r.value) && Rest(r.value.fields) == Rest(root.fields)
            && var e' := Replayed(e, before, after, encode);
               Holds(r.value, e') && (Shows(e, after, e', encode) <==> forall i | 0 <= i < |after| :: !Spaced(after[i]))
  {
    var removes, sets := Dropped(before, after) + Renamed(after), Assigned(after, encode);
    PatchIsValid(e, before, after, encode);
    DeletesAll(root, e, removes);
    SetsAll(DeleteAll(root, PathsOf(removes)).value, RemoveAll(e, removes), sets);
    ReplayShowsRows(e, before, after, encode);
  }
}
