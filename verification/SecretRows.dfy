/**
 How the rows of the editor come about: the server lists the scalars of the decrypted document with their paths, and
 the page makes a row of each one that lies directly in a section. For a tidy Secret these rows stand for its entries
 exactly, so that the patch made from them meets the conditions under which it applies.
 */
module SecretRows {
  import opened Basics
  import opened SecretTree
  import opened SecretPatch
  import opened SecretDocument

  /** Every scalar of the tree with its path, in document order; lists are not descended into. */
  function Values(n: Node, path: seq<string>): seq<Entry> {
    match n
    case Map(fs) => ValuesOf(fs, path)
    case Scalar(leaf) => [Entry(path, TextOf(leaf))]
    case List(_) => []
    case Alias => []
  }

  function ValuesOf(fs: Fields, path: seq<string>): seq<Entry> {
    match fs
    case NoField => []
    case Field(k, n, rest) => Values(n, path + [k]) + ValuesOf(rest, path)
  }

  /** The slot an entry of the listing is in, if it lies directly in a section. */
  function SlotAt(path: seq<string>): Option<Slot> {
    if |path| != 2 then None
    else if path[0] == "data" then Some(Slot(InData, path[1]))
    else if path[0] == "stringData" then Some(Slot(InStringData, path[1]))
    else None
  }

  function Slotted(values: seq<Entry>): seq<(Slot, Text)> {
    if values == [] then []
    else
      var last := values[|values| - 1];
      Slotted(values[..|values| - 1]) + match SlotAt(last.path) case None => [] case Some(s) => [(s, last.value)]
  }

  lemma {:induction false} SlottedJoins(a: seq<Entry>, b: seq<Entry>)
    ensures Slotted(a + b) == Slotted(a) + Slotted(b)
    decreases |b|
  {
    if b == [] {
      assert a + b == a;
    } else {
      var c := b[..|b| - 1];
      assert (a + b)[..|a + b| - 1] == a + c;
      SlottedJoins(a, c);
    }
  }

  lemma {:induction false} PathsExtend(n: Node, path: seq<string>)
    ensures forall i | 0 <= i < |Values(n, path)| :: path <= Values(n, path)[i].path
    decreases n
  {
    if n.Map? {
      PathsExtendIn(n.fields, path);
    }
  }

  lemma {:induction false} PathsExtendIn(fs: Fields, path: seq<string>)
    ensures forall i | 0 <= i < |ValuesOf(fs, path)| :: path <= ValuesOf(fs, path)[i].path
    decreases fs
  {
    if fs.Field? {
      PathsExtend(fs.value, path + [fs.key]);
      PathsExtendIn(fs.rest, path);
    }
  }

  lemma {:induction false} NoneSlotted(values: seq<Entry>)
    requires forall i | 0 <= i < |values| :: SlotAt(values[i].path).None?
    ensures Slotted(values) == []
  {
    if values != [] {
      NoneSlotted(values[..|values| - 1]);
    }
  }

  /** A top-level field that is no section gives no row. */
  lemma OtherFieldsGiveNone(n: Node, k: string)
    requires k != "data" && k != "stringData"
    ensures Slotted(Values(n, [k])) == []
  {
    PathsExtend(n, [k]);
    forall i | 0 <= i < |Values(n, [k])|
      ensures SlotAt(Values(n, [k])[i].path).None?
    {
      assert [k] <= Values(n, [k])[i].path;
      assert Values(n, [k])[i].path[0] == [k][0];
    }
    NoneSlotted(Values(n, [k]));
  }

  /** The entries of one section in their order. */
  function SectionEntries(fs: Fields, s: Section): seq<(Slot, Text)> {
    match fs
    case NoField => []
    case Field(k, n, rest) => (if n.Scalar? then [(Slot(s, k), TextOf(n.leaf))] else []) + SectionEntries(rest, s)
  }

  lemma {:induction false} SectionGivesItsEntries(fs: Fields, s: Section)
    requires AllScalars(fs)
    ensures Slotted(ValuesOf(fs, [Name(s)])) == SectionEntries(fs, s)
  {
    if fs.Field? {
      SectionGivesItsEntries(fs.rest, s);
      var first := [Entry([Name(s)] + [fs.key], TextOf(fs.value.leaf))];
      SlottedJoins(first, ValuesOf(fs.rest, [Name(s)]));
      SectionNames(s);
      assert SlotAt(first[0].path) == Some(Slot(s, fs.key));
      assert first[..0] == [];
      assert Slotted(first) == [(Slot(s, fs.key), TextOf(fs.value.leaf))];
    }
  }

  /** What one top-level field of a tidy Secret gives. */
  function FieldEntries(k: string, n: Node): seq<(Slot, Text)> {
    if n.Map? && k == "data" then SectionEntries(n.fields, InData)
    else if n.Map? && k == "stringData" then SectionEntries(n.fields, InStringData)
    else []
  }

  predicate SectionsAreMaps(fs: Fields) {
    fs.NoField? || (((fs.key == "data" || fs.key == "stringData") ==> fs.value.Map? && AllScalars(fs.value.fields)) && SectionsAreMaps(fs.rest))
  }

  function TopEntries(fs: Fields): seq<(Slot, Text)> {
    match fs case NoField => [] case Field(k, n, rest) => FieldEntries(k, n) + TopEntries(rest)
  }

  lemma {:induction false} DocumentGivesTopEntries(fs: Fields)
    requires SectionsAreMaps(fs)
    ensures Slotted(ValuesOf(fs, [])) == TopEntries(fs)
  {
    if fs.Field? {
      var k, n := fs.key, fs.value;
      assert [] + [k] == [k];
      DocumentGivesTopEntries(fs.rest);
      SlottedJoins(Values(n, [k]), ValuesOf(fs.rest, []));
      if k == "data" {
        SectionGivesItsEntries(n.fields, InData);
      } else if k == "stringData" {
        SectionGivesItsEntries(n.fields, InStringData);
      } else {
        OtherFieldsGiveNone(n, k);
      }
    }
  }

  predicate DistinctSlots(list: seq<(Slot, Text)>) { forall i, j | 0 <= i < j < |list| :: list[i].0 != list[j].0 }

  /** The listing is the map: each slot once, with its value. */
  ghost predicate Lists(list: seq<(Slot, Text)>, e: Entries) {
    DistinctSlots(list) && forall s: Slot, t: Text :: (s, t) in list <==> s in e && e[s] == t
  }

  lemma JoinDistinct(a: seq<(Slot, Text)>, b: seq<(Slot, Text)>)
    requires DistinctSlots(a) && DistinctSlots(b)
    requires forall x, y | x in a && y in b :: x.0 != y.0
    ensures DistinctSlots(a + b)
  {
    var all := a + b;
    forall i, j | 0 <= i < j < |all|
      ensures all[i].0 != all[j].0
    {
      if i < |a| <= j {
        assert all[i] in a && all[j] in b;
      }
    }
  }

  lemma {:induction false} SectionListed(fs: Fields, sec: Section)
    requires UniqueKeys(fs) && AllScalars(fs)
    ensures DistinctSlots(SectionEntries(fs, sec))
    ensures forall s: Slot, t: Text :: (s, t) in SectionEntries(fs, sec) <==> s.section == sec && s.key in FieldMap(fs) && FieldMap(fs)[s.key] == t
  {
    if fs.Field? {
      SectionListed(fs.rest, sec);
      InFieldMap(fs.rest, fs.key);
      var first := [(Slot(sec, fs.key), TextOf(fs.value.leaf))];
      forall y | y in SectionEntries(fs.rest, sec)
        ensures y.0 != Slot(sec, fs.key)
      {
        assert (y.0, y.1) in SectionEntries(fs.rest, sec);
      }
      JoinDistinct(first, SectionEntries(fs.rest, sec));
    }
  }

  predicate TopTidy(fs: Fields) {
    fs.NoField? ||
    (((fs.key == "data" || fs.key == "stringData") ==> fs.value.Map? && UniqueKeys(fs.value.fields) && AllScalars(fs.value.fields)) && TopTidy(fs.rest))
  }

  lemma {:induction false} TopListed(fs: Fields)
    requires UniqueKeys(fs) && TopTidy(fs)
    ensures DistinctSlots(TopEntries(fs))
    ensures forall s: Slot, t: Text :: (s, t) in TopEntries(fs) <==>
              s.key in FieldMap(SectionFields(Map(fs), s.section)) && FieldMap(SectionFields(Map(fs), s.section))[s.key] == t
  {
    if fs.Field? {
      TopListed(fs.rest);
      SectionNames(InData);
      if fs.key == "data" {
        SectionListed(fs.value.fields, InData);
        HeadJoins(fs, InData);
      } else if fs.key == "stringData" {
        SectionListed(fs.value.fields, InStringData);
        HeadJoins(fs, InStringData);
      }
    }
  }

  lemma HeadJoins(fs: Fields, sec: Section)
    requires fs.Field? && fs.key == Name(sec) && fs.value.Map? && UniqueKeys(fs)
    requires UniqueKeys(fs.value.fields) && AllScalars(fs.value.fields) && DistinctSlots(TopEntries(fs.rest))
    requires forall s: Slot, t: Text :: (s, t) in TopEntries(fs.rest) <==>
              s.key in FieldMap(SectionFields(Map(fs.rest), s.section)) && FieldMap(SectionFields(Map(fs.rest), s.section))[s.key] == t
    ensures DistinctSlots(SectionEntries(fs.value.fields, sec) + TopEntries(fs.rest))
    ensures forall s: Slot, t: Text :: (s, t) in SectionEntries(fs.value.fields, sec) + TopEntries(fs.rest) <==>
              s.key in FieldMap(SectionFields(Map(fs), s.section)) && FieldMap(SectionFields(Map(fs), s.section))[s.key] == t
  {
    var here, rest := SectionEntries(fs.value.fields, sec), TopEntries(fs.rest);
    SectionListed(fs.value.fields, sec);
    SectionNames(sec);
    forall x, y | x in here && y in rest
      ensures x.0 != y.0
    {
      assert (x.0, x.1) in here && (y.0, y.1) in rest;
    }
    JoinDistinct(here, rest);
    forall s: Slot, t: Text
      ensures (s, t) in here + rest <==> s.key in FieldMap(SectionFields(Map(fs), s.section)) && FieldMap(SectionFields(Map(fs), s.section))[s.key] == t
    {
      assert (s, t) in here + rest <==> (s, t) in here || (s, t) in rest;
    }
  }

  lemma {:induction false} TidyTops(fs: Fields, whole: Fields)
    requires UniqueKeys(fs)
    requires forall sec: Section :: Lookup(fs, Name(sec)).Some? ==> Lookup(whole, Name(sec)) == Lookup(fs, Name(sec))
    requires SectionTidy(Map(whole), InData) && SectionTidy(Map(whole), InStringData)
    ensures TopTidy(fs) && SectionsAreMaps(fs)
  {
    if fs.Field? {
      assert Name(InData) == "data" && Name(InStringData) == "stringData";
      TidyTops(fs.rest, whole);
    }
  }

  /** The server's listing of a tidy Secret gives each of its entries once. */
  lemma ListingIsEntries(root: Node, e: Entries)
    requires Tidy(root) && Holds(root, e)
    ensures Lists(Slotted(Values(root, [])), e)
  {
    TidyTops(root.fields, root.fields);
    DocumentGivesTopEntries(root.fields);
    TopListed(root.fields);
    forall s: Slot, t: Text
      ensures (s, t) in TopEntries(root.fields) <==> s in e && e[s] == t
    {
      assert Map(root.fields) == root;
    }
  }

  // ---- the page's rows ----

  /** The browser's base64 of UTF-8, which not everything decodes from, and how a value is spelled in the listing. */
  datatype Codec = Codec(encode: string -> string, decode: string -> Option<string>, spell: Text -> string)

  /** How the page shows a value. */
  datatype Shown = Shown(text: string, binary: bool)

  /** A value under `data` that decodes to text is shown as that text, any other as it stands. */
  function Show(s: Section, t: Text, c: Codec): Shown {
    if s.InStringData? then Shown(c.spell(t), false)
    else match c.decode(c.spell(t)) case Some(text) => Shown(text, false) case None => Shown(c.spell(t), true)
  }

  function RowOf(s: Slot, t: Text, id: nat, c: Codec): Row {
    var shown := Show(s.section, t, c);
    Row(id, s.section, s.key, shown.text, shown.binary, Some(Origin(s, shown.text)))
  }

  /** One row for each listed entry of a section, with ids never used before. */
  method RowsOf(values: seq<Entry>, firstId: nat, c: Codec) returns (rows: seq<Row>)
    ensures |rows| == |Slotted(values)|
    ensures forall i | 0 <= i < |rows| :: rows[i] == RowOf(Slotted(values)[i].0, Slotted(values)[i].1, firstId + i, c)
  {
    rows := [];
    for n := 0 to |values|
      invariant |rows| == |Slotted(values[..n])|
      invariant forall i | 0 <= i < |rows| :: rows[i] == RowOf(Slotted(values[..n])[i].0, Slotted(values[..n])[i].1, firstId + i, c)
    {
      assert values[..n + 1][..n] == values[..n];
      var s := SlotAt(values[n].path);
      if s.Some? {
        rows := rows + [RowOf(s.value, values[n].value, firstId + |rows|, c)];
      }
    }
    assert values[..|values|] == values;
  }

  /** The rows made of a tidy Secret's listing stand for its entries, one row each. */
  lemma RowsStandForEntries(root: Node, e: Entries, rows: seq<Row>, firstId: nat, c: Codec)
    requires Tidy(root) && Holds(root, e)
    requires var list := Slotted(Values(root, []));
             |rows| == |list| && forall i | 0 <= i < |rows| :: rows[i] == RowOf(list[i].0, list[i].1, firstId + i, c)
    ensures Loaded(e, rows)
  {
    var list := Slotted(Values(root, []));
    ListingIsEntries(root, e);
    forall i | 0 <= i < |rows|
      ensures list[i].0 in e
    {
      assert (list[i].0, list[i].1) in list;
    }
    forall s | s in e
      ensures exists i | 0 <= i < |rows| :: rows[i].from.value.slot == s
    {
      assert (s, e[s]) in list;
      var i :| 0 <= i < |list| && list[i] == (s, e[s]);
      assert rows[i].from.value.slot == s;
    }
  }

  /** From the document to the rows, through any accepted edit of them, to the document again. */
  lemma EditRoundTrip(root: Node, e: Entries, before: seq<Row>, after: seq<Row>, firstId: nat, c: Codec)
    requires Tidy(root) && Holds(root, e) && Edited(before, after) && KeysOk(after) && forall s | s in e :: Trim(s.key) != ""
    requires var list := Slotted(Values(root, []));
             |before| == |list| && forall i | 0 <= i < |before| :: before[i] == RowOf(list[i].0, list[i].1, firstId + i, c)
    ensures var r := Handled(root, EntriesOf(Assigned(after, c.encode)), PathsOf(Dropped(before, after) + Renamed(after)));
            && r.Ok? && Tidy(r.value) && Rest(r.value.fields) == Rest(root.fields)
            && var e' := Replayed(e, before, after, c.encode);
               Holds(r.value, e') && (Shows(e, after, e', c.encode) <==> forall i | 0 <= i < |after| :: !Spaced(after[i]))
  {
    RowsStandForEntries(root, e, before, firstId, c);
    PatchApplies(root, e, before, after, c.encode);
  }
}
