/**
 Editing a Kubernetes Secret in the browser: the page turns the difference between the rows it loaded and the rows
 the user left into a list of removals and a list of assignments, and the server replays all removals, then all
 assignments, on the decrypted tree.
 */
module SecretPatch {
  import opened Basics
  import opened SecretTree

  datatype Section = InData | InStringData

  function Name(s: Section): string { if s.InData? then "data" else "stringData" }

  datatype Slot = Slot(section: Section, key: string)

  datatype Origin = Origin(slot: Slot, value: string)

  /** A row of the editor. A binary value is shown as its size and cannot be edited. */
  datatype Row = Row(id: nat, section: Section, key: string, value: string, binary: bool, from: Option<Origin>)

  predicate IsSpace(c: char) { c == ' ' || c == '\t' || c == '\n' || c == '\r' }

  function TrimLeft(s: string): string { if s != "" && IsSpace(s[0]) then TrimLeft(s[1..]) else s }

  function TrimRight(s: string): string { if s != "" && IsSpace(s[|s| - 1]) then TrimRight(s[..|s| - 1]) else s }

  function Trim(s: string): string { TrimRight(TrimLeft(s)) }

  lemma {:induction false} TrimRightKeepsStart(s: string)
    requires s != "" && !IsSpace(s[0])
    ensures var t := TrimRight(s); t != "" && t[0] == s[0] && !IsSpace(t[|t| - 1])
    decreases |s|
  {
    if IsSpace(s[|s| - 1]) {
      TrimRightKeepsStart(s[..|s| - 1]);
    }
  }

  lemma {:induction false} TrimIdempotent(s: string)
    ensures Trim(Trim(s)) == Trim(s)
    decreases |s|
  {
    if s != "" && IsSpace(s[0]) {
      TrimIdempotent(s[1..]);
    } else if s != "" {
      TrimRightKeepsStart(s);
    }
  }

  lemma {:induction false} TrimRightIs(s: string) returns (b: string)
    ensures s == TrimRight(s) + b && (forall c | c in b :: c in {' ', '\t', '\n', '\r'})
    ensures TrimRight(s) != "" ==> TrimRight(s)[|TrimRight(s)| - 1] !in {' ', '\t', '\n', '\r'}
    decreases |s|
  {
    if s != "" && IsSpace(s[|s| - 1]) {
      b := TrimRightIs(s[..|s| - 1]);
      b := b + [s[|s| - 1]];
    } else {
      b := "";
    }
  }

  lemma {:induction false} TrimLeftIs(s: string) returns (a: string)
    ensures s == a + TrimLeft(s) && (forall c | c in a :: c in {' ', '\t', '\n', '\r'})
    ensures TrimLeft(s) != "" ==> TrimLeft(s)[0] !in {' ', '\t', '\n', '\r'}
  {
    if s != "" && IsSpace(s[0]) {
      a := TrimLeftIs(s[1..]);
      a := [s[0]] + a;
    } else {
      a := "";
    }
  }

  /** Trimming takes blanks, tabs and line ends off both ends and nothing else, as long as there are any. */
  lemma TrimIs(s: string) returns (a: string, b: string)
    ensures s == a + Trim(s) + b && forall c | c in a + b :: c in {' ', '\t', '\n', '\r'}
    ensures Trim(s) != "" ==> Trim(s)[0] !in {' ', '\t', '\n', '\r'} && Trim(s)[|Trim(s)| - 1] !in {' ', '\t', '\n', '\r'}
  {
    a := TrimLeftIs(s);
    b := TrimRightIs(TrimLeft(s));
    if Trim(s) != "" {
      assert TrimLeft(s)[0] == Trim(s)[0];
    }
  }

  // ---- what the page sends ----

  predicate Moved(r: Row) { r.from.Some? && r.from.value.slot.key != r.key }

  /** The row stands for the entry it was loaded from, as it was. */
  predicate Unchanged(r: Row) {
    r.from.Some? && r.key == r.from.value.slot.key && (r.binary || r.value == r.from.value.value)
  }

  function Raw(r: Row, encode: string -> string): string {
    if r.section.InData? && !r.binary then encode(r.value) else r.value
  }

  function Target(r: Row): Slot { Slot(r.section, Trim(r.key)) }

  predicate Kept(after: seq<Row>, id: nat) { exists i | 0 <= i < |after| :: after[i].id == id }

  /** Entries whose row is gone. */
  function Dropped(before: seq<Row>, after: seq<Row>): seq<Slot> {
    if before == [] then []
    else
      var b := before[|before| - 1];
      Dropped(before[..|before| - 1], after) + if !Kept(after, b.id) && b.from.Some? then [b.from.value.slot] else []
  }

  /** Entries whose row now has another key. */
  function Renamed(after: seq<Row>): seq<Slot> {
    if after == [] then []
    else
      var r := after[|after| - 1];
      Renamed(after[..|after| - 1]) + if Moved(r) then [r.from.value.slot] else []
  }

  datatype Assignment = Assignment(slot: Slot, value: string)

  function Assigned(after: seq<Row>, encode: string -> string): seq<Assignment> {
    if after == [] then []
    else
      var r := after[|after| - 1];
      Assigned(after[..|after| - 1], encode) + if Unchanged(r) then [] else [Assignment(Target(r), Raw(r, encode))]
  }

  method PatchOf(before: seq<Row>, after: seq<Row>, encode: string -> string)
    returns (sets: seq<Assignment>, removes: seq<Slot>)
    ensures removes == Dropped(before, after) + Renamed(after)
    ensures sets == Assigned(after, encode)
  {
    sets, removes := [], [];
    var kept: set<nat> := set r | r in after :: r.id;
    for i := 0 to |before|
      invariant removes == Dropped(before[..i], after)
    {
      var r := before[i];
      assert before[..i + 1][..i] == before[..i];
      assert r.id in kept <==> Kept(after, r.id);
      if r.id !in kept && r.from.Some? {
        removes := removes + [r.from.value.slot];
      }
    }
    assert before[..|before|] == before;
    for i := 0 to |after|
      invariant removes == Dropped(before, after) + Renamed(after[..i])
      invariant sets == Assigned(after[..i], encode)
    {
      var r := after[i];
      assert after[..i + 1][..i] == after[..i];
      if r.binary && r.from.Some? && r.key == r.from.value.slot.key {
        continue;
      }
      if Moved(r) {
        removes := removes + [r.from.value.slot];
      }
      if r.from.None? || Moved(r) || r.value != r.from.value.value {
        sets := sets + [Assignment(Target(r), Raw(r, encode))];
      }
    }
    assert after[..|after|] == after;
  }

  // ---- the keys the page accepts ----

  datatype Problem = Required | TooLong | BadCharacter | Duplicate

  predicate Allowed(c: char) {
    c == '-' || c == '.' || c == '_' || 'a' <= c <= 'z' || 'A' <= c <= 'Z' || '0' <= c <= '9'
  }

  predicate GoodKey(k: string) { 0 < |k| <= 253 && forall i | 0 <= i < |k| :: Allowed(k[i]) }

  /** By code: letters and digits of ASCII, the hyphen, the dot and the underscore. */
  lemma AllowedByCode(c: char)
    ensures Allowed(c) <==>
              var n := c as int; 97 <= n <= 122 || 65 <= n <= 90 || 48 <= n <= 57 || n == 45 || n == 46 || n == 95
  {
  }

  predicate DistinctKeys(rows: seq<Row>) {
    forall i, j | 0 <= i < j < |rows| :: Trim(rows[i].key) != Trim(rows[j].key)
  }

  predicate KeysOk(rows: seq<Row>) {
    (forall i | 0 <= i < |rows| :: GoodKey(Trim(rows[i].key))) && DistinctKeys(rows)
  }

  function Seen(rows: seq<Row>): set<string> { set r | r in rows && Trim(r.key) != "" :: Trim(r.key) }

  lemma KeysOkStep(rows: seq<Row>, r: Row)
    ensures KeysOk(rows + [r]) <==> KeysOk(rows) && GoodKey(Trim(r.key)) && Trim(r.key) !in Seen(rows)
    ensures Seen(rows + [r]) == Seen(rows) + if Trim(r.key) != "" then {Trim(r.key)} else {}
  {
    var all, n := rows + [r], |rows|;
    assert forall i | 0 <= i < n :: all[i] == rows[i];
    assert all[n] == r;
    if KeysOk(all) {
      forall i | 0 <= i < n
        ensures Trim(rows[i].key) != Trim(r.key)
      {
        assert Trim(all[i].key) != Trim(all[n].key);
      }
    }
  }

  function ProblemOf(k: string, seen: set<string>): (p: Option<Problem>)
    ensures p.None? <==> GoodKey(k) && k !in seen
  {
    if k == "" then Some(Required)
    else if |k| > 253 then Some(TooLong)
    else if exists j | 0 <= j < |k| :: !Allowed(k[j]) then Some(BadCharacter)
    else if k in seen then Some(Duplicate)
    else None
  }

  /** A row is to blame when its key is not well formed, or a row before it has the same, in either section. */
  predicate ToBlame(rows: seq<Row>, i: nat)
    requires i < |rows|
  {
    !GoodKey(Trim(rows[i].key)) || exists j :: 0 <= j < i && Trim(rows[j].key) == Trim(rows[i].key)
  }

  predicate DistinctIds(rows: seq<Row>) { forall i, j | 0 <= i < j < |rows| :: rows[i].id != rows[j].id }

  lemma BlameSeen(rows: seq<Row>, i: nat)
    requires i < |rows|
    ensures ToBlame(rows, i) <==> !GoodKey(Trim(rows[i].key)) || Trim(rows[i].key) in Seen(rows[..i])
  {
    var k := Trim(rows[i].key);
    if j :| 0 <= j < i && Trim(rows[j].key) == k {
      assert rows[..i][j] in rows[..i];
    }
  }

  /** Who is reported when the first `n` rows have been looked at. */
  ghost predicate Blames(rows: seq<Row>, n: nat, out: map<nat, Problem>)
    requires n <= |rows|
  {
    && (forall id | id in out :: exists k :: 0 <= k < n && rows[k].id == id)
    && forall k | 0 <= k < n :: rows[k].id in out <==> ToBlame(rows, k)
  }

  lemma BlameOne(rows: seq<Row>, n: nat, out: map<nat, Problem>, problem: Option<Problem>)
    requires n < |rows| && DistinctIds(rows) && Blames(rows, n, out) && (problem.Some? <==> ToBlame(rows, n))
    ensures Blames(rows, n + 1, if problem.Some? then out[rows[n].id := problem.value] else out)
  {
    assert rows[n].id !in out;
    var out' := if problem.Some? then out[rows[n].id := problem.value] else out;
    forall k | 0 <= k < n + 1
      ensures rows[k].id in out' <==> ToBlame(rows, k)
    {
      assert k < n ==> rows[k].id != rows[n].id;
    }
  }

  /**
   Exactly the rows to blame are reported, so that nothing is when every key is well formed and none is used twice, in
   either section.
   */
  method KeyProblems(rows: seq<Row>) returns (out: map<nat, Problem>)
    ensures out == map[] <==> KeysOk(rows)
    ensures DistinctIds(rows) ==> forall i | 0 <= i < |rows| :: rows[i].id in out <==> ToBlame(rows, i)
  {
    out := map[];
    var seen: set<string> := {};
    for i := 0 to |rows|
      invariant seen == Seen(rows[..i])
      invariant out == map[] <==> KeysOk(rows[..i])
      invariant DistinctIds(rows) ==> Blames(rows, i, out)
    {
      var k := Trim(rows[i].key);
      KeysOkStep(rows[..i], rows[i]);
      assert rows[..i + 1] == rows[..i] + [rows[i]];
      var problem := ProblemOf(k, seen);
      BlameSeen(rows, i);
      if DistinctIds(rows) {
        BlameOne(rows, i, out, problem);
      }
      if problem.Some? {
        out := out[rows[i].id := problem.value];
        assert rows[i].id in out;
      }
      if k != "" {
        seen := seen + {k};
      }
    }
    assert rows[..|rows|] == rows;
  }

  // ---- the effect on the entries, as a map ----

  type Entries = map<Slot, Text>

  function RemoveAll(e: Entries, slots: seq<Slot>): Entries {
    if slots == [] then e else RemoveAll(e, slots[..|slots| - 1]) - {slots[|slots| - 1]}
  }

  function AssignAll(e: Entries, sets: seq<Assignment>): Entries {
    if sets == [] then e
    else AssignAll(e, sets[..|sets| - 1])[sets[|sets| - 1].slot := Plain(sets[|sets| - 1].value)]
  }

  /** The loaded rows stand for the entries, one row each. */
  ghost predicate Loaded(e: Entries, before: seq<Row>) {
    && (forall i | 0 <= i < |before| :: before[i].from.Some? && before[i].from.value.slot in e)
    && (forall i, j | 0 <= i < j < |before| ::
          before[i].id != before[j].id && before[i].from.value.slot != before[j].from.value.slot)
    && (forall s | s in e :: exists i | 0 <= i < |before| :: before[i].from.value.slot == s)
  }

  /** What the user can do to the rows: change keys and values, drop rows, add rows. */
  ghost predicate Edited(before: seq<Row>, after: seq<Row>) {
    && (forall i, j | 0 <= i < j < |after| :: after[i].id != after[j].id)
    && (forall i | 0 <= i < |after| && after[i].from.Some? ::
          && after[i].section == after[i].from.value.slot.section
          && exists j | 0 <= j < |before| :: before[j].id == after[i].id && before[j].from == after[i].from)
    && (forall i | 0 <= i < |after| && after[i].from.None? :: !Kept(before, after[i].id))
  }

  function SlotOf(r: Row): Slot { if Unchanged(r) then r.from.value.slot else Target(r) }

  /** `a` is exactly what the rows show: an unchanged row its old entry, any other row its new value at its trimmed key. */
  ghost predicate Shows(e: Entries, after: seq<Row>, a: Entries, encode: string -> string) {
    && (forall i | 0 <= i < |after| :: RowShown(e, after[i], a, encode))
    && (forall s | s in a :: EntryShown(after, s))
  }

  predicate RowShown(e: Entries, r: Row, a: Entries, encode: string -> string) {
    && SlotOf(r) in a
    && (Unchanged(r) ==> SlotOf(r) in e && a[SlotOf(r)] == e[SlotOf(r)])
    && (!Unchanged(r) ==> a[SlotOf(r)] == Plain(Raw(r, encode)))
  }

  predicate EntryShown(after: seq<Row>, s: Slot) { exists i | 0 <= i < |after| :: SlotOf(after[i]) == s }

  /** A loaded key with blanks around it, kept while its value changed: the new value is written beside it. */
  predicate Spaced(r: Row) { r.from.Some? && !Moved(r) && !Unchanged(r) && Trim(r.key) != r.key }

  lemma {:induction false} RemovedSlots(e: Entries, slots: seq<Slot>, s: Slot)
    ensures s in RemoveAll(e, slots) <==> s in e && s !in slots
    ensures s in RemoveAll(e, slots) ==> RemoveAll(e, slots)[s] == e[s]
    decreases |slots|
  {
    if slots != [] {
      RemovedSlots(e, slots[..|slots| - 1], s);
      assert slots == slots[..|slots| - 1] + [slots[|slots| - 1]];
    }
  }

  predicate DropsAt(before: seq<Row>, after: seq<Row>, s: Slot, i: nat) {
    i < |before| && !Kept(after, before[i].id) && before[i].from.Some? && before[i].from.value.slot == s
  }

  lemma {:induction false} DroppedAt(before: seq<Row>, after: seq<Row>, s: Slot)
    ensures s in Dropped(before, after) <==> exists i: nat :: DropsAt(before, after, s, i)
    decreases |before|
  {
    if before != [] {
      var past := before[..|before| - 1];
      DroppedAt(past, after, s);
      assert forall i: nat | i < |past| :: DropsAt(past, after, s, i) <==> DropsAt(before, after, s, i);
      assert s in Dropped(before, after) <==> s in Dropped(past, after) || DropsAt(before, after, s, |past|);
    }
  }

  lemma DroppedSlots(before: seq<Row>, after: seq<Row>, s: Slot)
    ensures s in Dropped(before, after) <==>
              exists i | 0 <= i < |before| :: !Kept(after, before[i].id) && before[i].from.Some? && before[i].from.value.slot == s
  {
    DroppedAt(before, after, s);
    assert forall i: nat :: DropsAt(before, after, s, i) ==> 0 <= i < |before|;
    if i :| 0 <= i < |before| && !Kept(after, before[i].id) && before[i].from.Some? && before[i].from.value.slot == s {
      assert DropsAt(before, after, s, i);
    }
  }

  lemma {:induction false} RenamedSlots(after: seq<Row>, s: Slot)
    ensures s in Renamed(after) <==> exists i | 0 <= i < |after| :: Moved(after[i]) && after[i].from.value.slot == s
    decreases |after|
  {
    if after != [] {
      var past := after[..|after| - 1];
      RenamedSlots(past, s);
      assert forall i | 0 <= i < |past| :: past[i] == after[i];
    }
  }

  lemma AssignOne(e: Entries, after: seq<Row>, encode: string -> string)
    requires after != []
    ensures var past, r := AssignAll(e, Assigned(after[..|after| - 1], encode)), after[|after| - 1];
            AssignAll(e, Assigned(after, encode)) == if Unchanged(r) then past else past[Target(r) := Plain(Raw(r, encode))]
  {
    var sets, r := Assigned(after[..|after| - 1], encode), after[|after| - 1];
    if Unchanged(r) {
      assert sets + [] == sets;
    } else {
      assert (sets + [Assignment(Target(r), Raw(r, encode))])[..|sets|] == sets;
    }
  }

  /** Assignments go to distinct slots, so each row's value is the last word on its slot. */
  lemma {:induction false} AssignedTo(e: Entries, after: seq<Row>, encode: string -> string, i: nat)
    requires DistinctKeys(after) && i < |after| && !Unchanged(after[i])
    ensures var a := AssignAll(e, Assigned(after, encode));
            Target(after[i]) in a && a[Target(after[i])] == Plain(Raw(after[i], encode))
    decreases |after|
  {
    AssignOne(e, after, encode);
    if i < |after| - 1 {
      AssignedTo(e, after[..|after| - 1], encode, i);
    }
  }

  predicate Targeted(after: seq<Row>, s: Slot) { exists i | 0 <= i < |after| :: !Unchanged(after[i]) && Target(after[i]) == s }

  lemma {:induction false} NotAssigned(e: Entries, after: seq<Row>, encode: string -> string, s: Slot)
    requires !Targeted(after, s)
    ensures var a := AssignAll(e, Assigned(after, encode));
            (s in a <==> s in e) && (s in e ==> a[s] == e[s])
    decreases |after|
  {
    if after != [] {
      AssignOne(e, after, encode);
      var past := after[..|after| - 1];
      assert forall i | 0 <= i < |past| :: past[i] == after[i];
      NotAssigned(e, past, encode, s);
    }
  }

  /** The entries after the server's replay: all removals, then all assignments. */
  function Replayed(e: Entries, before: seq<Row>, after: seq<Row>, encode: string -> string): Entries {
    AssignAll(RemoveAll(e, Dropped(before, after) + Renamed(after)), Assigned(after, encode))
  }

  /** The loaded entry a surviving row stands for. */
  lemma SurvivorOf(e: Entries, before: seq<Row>, after: seq<Row>, s: Slot) returns (i: nat)
    requires Loaded(e, before) && Edited(before, after) && s in RemoveAll(e, Dropped(before, after) + Renamed(after))
    ensures i < |after| && after[i].from.Some? && after[i].from.value.slot == s && !Moved(after[i])
  {
    RemovedSlots(e, Dropped(before, after) + Renamed(after), s);
    DroppedSlots(before, after, s);
    RenamedSlots(after, s);
    var j :| 0 <= j < |before| && before[j].from.value.slot == s;
    assert Kept(after, before[j].id);
    i :| 0 <= i < |after| && after[i].id == before[j].id;
    OriginOf(e, before, after, i, j);
  }

  lemma OriginOf(e: Entries, before: seq<Row>, after: seq<Row>, i: nat, j: nat)
    requires Loaded(e, before) && Edited(before, after) && i < |after| && j < |before| && after[i].id == before[j].id
    ensures after[i].from == before[j].from
  {
    assert Kept(before, after[i].id);
    var c :| 0 <= c < |before| && before[c].id == after[i].id && before[c].from == after[i].from;
    assert c == j;
  }

  /** A row that keeps its key keeps its entry through the removals. */
  lemma SurvivesRemoval(e: Entries, before: seq<Row>, after: seq<Row>, i: nat)
    requires Loaded(e, before) && Edited(before, after) && i < |after| && after[i].from.Some? && !Moved(after[i])
    ensures var s := after[i].from.value.slot;
            var left := RemoveAll(e, Dropped(before, after) + Renamed(after));
            s in e && s in left && left[s] == e[s]
  {
    var s := after[i].from.value.slot;
    var b :| 0 <= b < |before| && before[b].id == after[i].id && before[b].from == after[i].from;
    RemovedSlots(e, Dropped(before, after) + Renamed(after), s);
    DroppedSlots(before, after, s);
    RenamedSlots(after, s);
    forall k | 0 <= k < |after| && after[k].from.Some? && after[k].from.value.slot == s
      ensures k == i
    {
      SameOriginSameRow(e, before, after, i, k);
    }
    assert Kept(after, before[b].id);
  }

  lemma SameOriginSameRow(e: Entries, before: seq<Row>, after: seq<Row>, i: nat, k: nat)
    requires Loaded(e, before) && Edited(before, after) && i < |after| && k < |after|
    requires after[i].from.Some? && after[k].from.Some? && after[i].from.value.slot == after[k].from.value.slot
    ensures i == k
  {
    var b :| 0 <= b < |before| && before[b].id == after[i].id && before[b].from == after[i].from;
    var c :| 0 <= c < |before| && before[c].id == after[k].id && before[c].from == after[k].from;
    assert b == c;
  }

  /** An entry that kept a trimmed key is nobody's target. */
  lemma UnchangedNotTargeted(after: seq<Row>, i: nat)
    requires DistinctKeys(after) && i < |after| && Unchanged(after[i])
    ensures !Targeted(after, after[i].from.value.slot)
  {
    forall k | 0 <= k < |after| && Target(after[k]) == after[i].from.value.slot
      ensures k == i
    {
      TrimIdempotent(after[k].key);
      assert Trim(after[i].key) == Trim(after[k].key);
    }
  }

  lemma UntrimmedNotTargeted(after: seq<Row>, s: Slot)
    requires Trim(s.key) != s.key
    ensures !Targeted(after, s)
  {
    forall k | 0 <= k < |after|
      ensures Target(after[k]) != s
    {
      TrimIdempotent(after[k].key);
    }
  }

  lemma RowsAreShown(e: Entries, before: seq<Row>, after: seq<Row>, encode: string -> string, i: nat)
    requires Loaded(e, before) && Edited(before, after) && DistinctKeys(after) && i < |after|
    ensures RowShown(e, after[i], Replayed(e, before, after, encode), encode)
  {
    var left := RemoveAll(e, Dropped(before, after) + Renamed(after));
    if Unchanged(after[i]) {
      SurvivesRemoval(e, before, after, i);
      UnchangedNotTargeted(after, i);
      NotAssigned(left, after, encode, after[i].from.value.slot);
    } else {
      AssignedTo(left, after, encode, i);
    }
  }

  lemma EntriesAreShown(e: Entries, before: seq<Row>, after: seq<Row>, encode: string -> string, s: Slot)
    requires Loaded(e, before) && Edited(before, after) && DistinctKeys(after)
    requires (forall i | 0 <= i < |after| :: !Spaced(after[i])) && s in Replayed(e, before, after, encode)
    ensures EntryShown(after, s)
  {
    var left := RemoveAll(e, Dropped(before, after) + Renamed(after));
    if Targeted(after, s) {
      var i :| 0 <= i < |after| && !Unchanged(after[i]) && Target(after[i]) == s;
      assert SlotOf(after[i]) == s;
    } else {
      NotAssigned(left, after, encode, s);
      var i := SurvivorOf(e, before, after, s);
      assert SlotOf(after[i]) == s;
    }
  }

  /** A row kept under a key with blanks, with a new value, leaves an entry that no row shows. */
  lemma SpacedIsNotShown(e: Entries, before: seq<Row>, after: seq<Row>, encode: string -> string, i: nat)
    requires Loaded(e, before) && Edited(before, after) && DistinctKeys(after) && i < |after| && Spaced(after[i])
    ensures var s := after[i].from.value.slot;
            s in Replayed(e, before, after, encode) && !EntryShown(after, s)
  {
    var s := after[i].from.value.slot;
    SurvivesRemoval(e, before, after, i);
    UntrimmedNotTargeted(after, s);
    NotAssigned(RemoveAll(e, Dropped(before, after) + Renamed(after)), after, encode, s);
    forall k | 0 <= k < |after|
      ensures SlotOf(after[k]) != s
    {
      TrimIdempotent(after[k].key);
      if after[k].from.Some? && after[k].from.value.slot == s {
        SameOriginSameRow(e, before, after, i, k);
      }
    }
  }

  /**
   For rows the page accepts, the replay leaves exactly the entries the rows show, including swapped keys, a key
   moved onto a deleted one and untouched binary values, unless a row kept a key with blanks around it and got a
   new value; Kubernetes admits no such keys.
   */
  lemma ReplayShowsRows(e: Entries, before: seq<Row>, after: seq<Row>, encode: string -> string)
    requires Loaded(e, before) && Edited(before, after) && DistinctKeys(after)
    ensures Shows(e, after, Replayed(e, before, after, encode), encode) <==> forall i | 0 <= i < |after| :: !Spaced(after[i])
  {
    var a := Replayed(e, before, after, encode);
    forall i | 0 <= i < |after|
      ensures RowShown(e, after[i], a, encode)
    {
      RowsAreShown(e, before, after, encode, i);
    }
    if i :| 0 <= i < |after| && Spaced(after[i]) {
      SpacedIsNotShown(e, before, after, encode, i);
    } else {
      forall s | s in a
        ensures EntryShown(after, s)
      {
        EntriesAreShown(e, before, after, encode, s);
      }
    }
  }
}
