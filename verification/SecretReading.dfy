/**
 What the user sees after saving: the rows made of the patched document are the rows that were left in the editor. This
 ties the encoding of values to what the page shows, without saying how values are encoded.
 */
module SecretReading {
  import opened Basics
  import opened SecretTree
  import opened SecretPatch
  import opened SecretDocument
  import opened SecretRows

  // ---- saving without changes ----

  /** Nothing is sent exactly when every row is as it was and none is gone. */
  lemma {:induction false} NothingToSend(before: seq<Row>, after: seq<Row>, encode: string -> string)
    requires forall i | 0 <= i < |before| :: before[i].from.Some?
    ensures Dropped(before, after) + Renamed(after) == [] && Assigned(after, encode) == [] <==>
              (forall i | 0 <= i < |after| :: Unchanged(after[i])) && forall i | 0 <= i < |before| :: Kept(after, before[i].id)
  {
    NothingAssigned(after, encode);
    NothingDropped(before, after);
  }

  lemma {:induction false} NothingAssigned(after: seq<Row>, encode: string -> string)
    ensures Assigned(after, encode) == [] <==> forall i | 0 <= i < |after| :: Unchanged(after[i])
    ensures Assigned(after, encode) == [] ==> Renamed(after) == []
    decreases |after|
  {
    if after != [] {
      var past := after[..|after| - 1];
      NothingAssigned(past, encode);
      assert forall i | 0 <= i < |past| :: past[i] == after[i];
    }
  }

  lemma {:induction false} NothingDropped(before: seq<Row>, after: seq<Row>)
    requires forall i | 0 <= i < |before| :: before[i].from.Some?
    ensures Dropped(before, after) == [] <==> forall i | 0 <= i < |before| :: Kept(after, before[i].id)
    decreases |before|
  {
    if before != [] {
      var past := before[..|before| - 1];
      NothingDropped(past, after);
      assert forall i | 0 <= i < |past| :: past[i] == before[i];
    }
  }

  /** The rows as they were loaded. */
  ghost predicate LoadedFrom(before: seq<Row>, list: seq<(Slot, Text)>, firstId: nat, c: Codec) {
    |before| == |list| && forall i | 0 <= i < |before| :: before[i] == RowOf(list[i].0, list[i].1, firstId + i, c)
  }

  /** Saving the rows as they were loaded sends nothing. */
  lemma UntouchedSendsNothing(list: seq<(Slot, Text)>, rows: seq<Row>, firstId: nat, c: Codec)
    requires LoadedFrom(rows, list, firstId, c)
    ensures Dropped(rows, rows) + Renamed(rows) == [] && Assigned(rows, c.encode) == []
  {
    NothingToSend(rows, rows, c.encode);
    assert forall i | 0 <= i < |rows| :: Kept(rows, rows[i].id);
  }

  // ---- reading back what was saved ----

  /** The same row to the eye. */
  predicate SameRow(x: Row, r: Row) {
    x.section == r.section && Trim(x.key) == Trim(r.key) && x.value == r.value && x.binary == r.binary
  }

  /** A row's binary flag comes with its entry, and a binary value cannot be edited. */
  ghost predicate BinariesKept(before: seq<Row>, after: seq<Row>) {
    && (forall i | 0 <= i < |after| && after[i].from.None? :: !after[i].binary)
    && forall i, j | 0 <= i < |after| && 0 <= j < |before| && after[i].id == before[j].id ::
         after[i].binary == before[j].binary && (after[i].binary ==> after[i].value == before[j].value)
  }

  /** Text under `data` comes back from its encoding. */
  predicate ComesBack(r: Row, c: Codec) {
    !Unchanged(r) && r.section.InData? && !r.binary ==> c.decode(c.encode(r.value)) == Some(r.value)
  }

  /** The listing shows every row that was left, once, and nothing else. */
  ghost predicate ReadBack(list: seq<(Slot, Text)>, after: seq<Row>, c: Codec) {
    && (forall x | x in list :: exists j :: 0 <= j < |after| && SameRow(RowOf(x.0, x.1, 0, c), after[j]))
    && (forall j | 0 <= j < |after| :: exists x :: x in list && SameRow(RowOf(x.0, x.1, 0, c), after[j]))
    && (forall x, y | x in list && y in list && Trim(x.0.key) == Trim(y.0.key) :: x == y)
  }

  /** The conditions of an edit: the rows loaded from the document, and what the page accepts. */
  ghost predicate AcceptedEdit(e: Entries, list: seq<(Slot, Text)>, before: seq<Row>, after: seq<Row>, firstId: nat, c: Codec) {
    && SecretRows.Lists(list, e) && LoadedFrom(before, list, firstId, c) && Loaded(e, before)
    && Edited(before, after) && BinariesKept(before, after) && DistinctKeys(after)
    && forall text :: c.spell(Plain(text)) == text
  }

  /** The loaded row that a row comes from. */
  lemma RowBefore(e: Entries, list: seq<(Slot, Text)>, before: seq<Row>, after: seq<Row>, firstId: nat, c: Codec, i: nat) returns (j: nat)
    requires AcceptedEdit(e, list, before, after, firstId, c) && i < |after| && after[i].from.Some?
    ensures j < |before| && before[j].from == after[i].from && after[i].binary == before[j].binary
    ensures after[i].binary ==> after[i].value == before[j].value
    ensures after[i].from.value.slot in e && after[i].section == after[i].from.value.slot.section
    ensures before[j] == RowOf(after[i].from.value.slot, e[after[i].from.value.slot], firstId + j, c)
  {
    j :| 0 <= j < |before| && before[j].id == after[i].id && before[j].from == after[i].from;
    assert before[j] == RowOf(list[j].0, list[j].1, firstId + j, c);
    assert (list[j].0, list[j].1) in list;
  }

  /** Each row is read back as it was left exactly when its text comes back from its encoding. */
  lemma RowReadBack(e: Entries, list: seq<(Slot, Text)>, before: seq<Row>, after: seq<Row>, firstId: nat, c: Codec, a: Entries, i: nat)
    requires AcceptedEdit(e, list, before, after, firstId, c) && i < |after| && RowShown(e, after[i], a, c.encode)
    ensures SlotOf(after[i]) in a && Trim(SlotOf(after[i]).key) == Trim(after[i].key)
    ensures SameRow(RowOf(SlotOf(after[i]), a[SlotOf(after[i])], 0, c), after[i]) <==> ComesBack(after[i], c)
  {
    TrimIdempotent(after[i].key);
    if after[i].from.Some? {
      var j := RowBefore(e, list, before, after, firstId, c, i);
    }
  }

  /** The condition under which an edit is read back as it was left. */
  predicate Readable(after: seq<Row>, c: Codec) {
    forall i | 0 <= i < |after| :: !Spaced(after[i]) && ComesBack(after[i], c)
  }

  /** Then every entry is a row that was left, and every row is there. */
  lemma ReadableIsReadBack(e: Entries, list: seq<(Slot, Text)>, before: seq<Row>, after: seq<Row>, firstId: nat, c: Codec, read: seq<(Slot, Text)>)
    requires AcceptedEdit(e, list, before, after, firstId, c) && Readable(after, c)
    requires SecretRows.Lists(read, Replayed(e, before, after, c.encode))
    ensures ReadBack(read, after, c)
  {
    var a := Replayed(e, before, after, c.encode);
    forall x | x in read
      ensures exists j :: 0 <= j < |after| && SameRow(RowOf(x.0, x.1, 0, c), after[j]) && SlotOf(after[j]) == x.0
    {
      var j := ShownBy(e, list, before, after, firstId, c, read, x);
    }
    forall j | 0 <= j < |after|
      ensures exists x :: x in read && SameRow(RowOf(x.0, x.1, 0, c), after[j])
    {
      RowsAreShown(e, before, after, c.encode, j);
      RowReadBack(e, list, before, after, firstId, c, a, j);
      assert (SlotOf(after[j]), a[SlotOf(after[j])]) in read;
    }
    forall x, y | x in read && y in read && Trim(x.0.key) == Trim(y.0.key)
      ensures x == y
    {
      var i := ShownBy(e, list, before, after, firstId, c, read, x);
      var j := ShownBy(e, list, before, after, firstId, c, read, y);
      assert i == j;
    }
  }

  /** The row that shows an entry. */
  lemma ShownBy(e: Entries, list: seq<(Slot, Text)>, before: seq<Row>, after: seq<Row>, firstId: nat, c: Codec,
                read: seq<(Slot, Text)>, x: (Slot, Text)) returns (j: nat)
    requires AcceptedEdit(e, list, before, after, firstId, c) && Readable(after, c)
    requires SecretRows.Lists(read, Replayed(e, before, after, c.encode)) && x in read
    ensures j < |after| && SlotOf(after[j]) == x.0 && SameRow(RowOf(x.0, x.1, 0, c), after[j]) && Trim(x.0.key) == Trim(after[j].key)
  {
    var a := Replayed(e, before, after, c.encode);
    assert (x.0, x.1) in read;
    EntriesAreShown(e, before, after, c.encode, x.0);
    j :| 0 <= j < |after| && SlotOf(after[j]) == x.0;
    RowsAreShown(e, before, after, c.encode, j);
    RowReadBack(e, list, before, after, firstId, c, a, j);
  }

  /** A row that kept a key with blanks leaves its old entry behind, which is none of the rows. */
  lemma SpacedIsReadTwice(e: Entries, list: seq<(Slot, Text)>, before: seq<Row>, after: seq<Row>, firstId: nat, c: Codec,
                          read: seq<(Slot, Text)>, i: nat)
    requires AcceptedEdit(e, list, before, after, firstId, c) && i < |after| && Spaced(after[i])
    requires SecretRows.Lists(read, Replayed(e, before, after, c.encode))
    ensures !ReadBack(read, after, c)
  {
    var s := after[i].from.value.slot;
    var left := RemoveAll(e, Dropped(before, after) + Renamed(after));
    SpacedIsNotShown(e, before, after, c.encode, i);
    SurvivesRemoval(e, before, after, i);
    UntrimmedNotTargeted(after, s);
    NotAssigned(left, after, c.encode, s);
    var b := RowBefore(e, list, before, after, firstId, c, i);
    assert (s, e[s]) in read;
    forall j | 0 <= j < |after|
      ensures !SameRow(RowOf(s, e[s], 0, c), after[j])
    {
      assert Trim(after[j].key) == Trim(s.key) ==> j == i;
    }
  }

  /**
   From the document through an edit to the document and back to rows: the user is shown exactly the rows that were
   left, each with its text and its flag, if and only if no changed row kept a key with blanks around it and every text
   put under `data` comes back from its encoding.
   */
  lemma SavedIsReadBack(root: Node, e: Entries, before: seq<Row>, after: seq<Row>, firstId: nat, c: Codec)
    requires Tidy(root) && Holds(root, e) && forall s | s in e :: Trim(s.key) != ""
    requires LoadedFrom(before, Slotted(Values(root, [])), firstId, c)
    requires Edited(before, after) && BinariesKept(before, after) && KeysOk(after) && forall text :: c.spell(Plain(text)) == text
    ensures var r := Handled(root, EntriesOf(Assigned(after, c.encode)), PathsOf(Dropped(before, after) + Renamed(after)));
            r.Ok? && (ReadBack(Slotted(Values(r.value, [])), after, c) <==> Readable(after, c))
  {
    var list := Slotted(Values(root, []));
    var a := Replayed(e, before, after, c.encode);
    ListingIsEntries(root, e);
    RowsStandForEntries(root, e, before, firstId, c);
    PatchApplies(root, e, before, after, c.encode);
    var r := Handled(root, EntriesOf(Assigned(after, c.encode)), PathsOf(Dropped(before, after) + Renamed(after))).value;
    ListingIsEntries(r, a);
    var read := Slotted(Values(r, []));
    if Readable(after, c) {
      ReadableIsReadBack(e, list, before, after, firstId, c, read);
    } else if i :| 0 <= i < |after| && Spaced(after[i]) {
      SpacedIsReadTwice(e, list, before, after, firstId, c, read, i);
    } else {
      GarbledIsNotReadBack(e, list, before, after, firstId, c, read);
    }
  }

  lemma GarbledIsNotReadBack(e: Entries, list: seq<(Slot, Text)>, before: seq<Row>, after: seq<Row>, firstId: nat, c: Codec, read: seq<(Slot, Text)>)
    requires AcceptedEdit(e, list, before, after, firstId, c) && !Readable(after, c) && forall i | 0 <= i < |after| :: !Spaced(after[i])
    requires SecretRows.Lists(read, Replayed(e, before, after, c.encode))
    ensures !ReadBack(read, after, c)
  {
    var a := Replayed(e, before, after, c.encode);
    var i :| 0 <= i < |after| && !ComesBack(after[i], c);
    RowsAreShown(e, before, after, c.encode, i);
    RowReadBack(e, list, before, after, firstId, c, a, i);
    var s := SlotOf(after[i]);
    assert (s, a[s]) in read;
    forall j | 0 <= j < |after|
      ensures !SameRow(RowOf(s, a[s], 0, c), after[j])
    {
      assert Trim(after[j].key) == Trim(s.key) ==> j == i;
    }
  }
}
