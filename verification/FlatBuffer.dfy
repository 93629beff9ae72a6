// The part of the FlatBuffers format the generated record code relies on: a
// buffer is built back to front, a table is reached through a vtable of 16-bit
// field offsets, an absent field has offset 0, and vectors are reached through
// relative 32-bit offsets.  A position inside a buffer under construction is its
// distance from the end, which later additions at the front do not change.
module FlatBuffer {
  import opened Bytes

  // Bytes of padding that bring `size` to a multiple of `align`, by counting down
  // whole units.
  function Pad(size: nat, align: nat): nat
    decreases size
  {
    if align == 0 || size == 0 then 0
    else if size < align then align - size
    else Pad(size - align, align)
  }

  // ---------- Vectors ----------

  // Scalars of one width, in order.
  function Elements(raws: seq<nat>, width: nat): (s: seq<byte>)
    ensures |s| == |raws| * width
  {
    if raws == [] then [] else LittleEndian(raws[0], width) + Elements(raws[1..], width)
  }

  // The padding a vector of n bytes starts with, aligning first its count and
  // then its elements.
  function VectorPad(size: nat, n: nat, align: nat): nat
  {
    var pad := Pad(size + n, 4);
    pad + Pad(size + pad + n, align)
  }

  // What creating a vector puts in front of `size` bytes: the padding, the elements
  // and then the aligned count.
  function VectorBytes(size: nat, raws: seq<nat>, width: nat, count: nat): seq<byte>
    requires width > 0
  {
    var body := Elements(raws, width);
    var pad := VectorPad(size, |body|, width);
    LittleEndian(count, 4) + (Zeros(Pad(size + pad + |body|, 4)) + (body + Zeros(pad)))
  }

  function ReadElements(data: seq<byte>, i: nat, width: nat, n: nat): (raws: seq<nat>)
    requires i + n * width <= |data|
    ensures |raws| == n && forall k | 0 <= k < n :: raws[k] < Range(width)
    decreases n
  {
    if n == 0 then []
    else
      assert n * width == width + (n - 1) * width;
      [Load(data, i, width)] + ReadElements(data, i + width, width, n - 1)
  }

  // ---------- Tables ----------

  // Where the vtable holds the offset of the field with this id.
  function VT(id: nat): nat {
    4 + 2 * id
  }

  // One field added to a table: a scalar, or a reference to an object whose
  // distance from the end of the buffer is `target`.
  datatype Slot = Scalar(id: nat, width: nat, raw: nat) | Ref(id: nat, target: nat) {
    function Width(): nat {
      if Scalar? then width else 4
    }

    // The stored number, for a slot that ends up `loc` bytes from the end.
    function Raw(loc: nat): nat {
      if Scalar? then raw else if loc >= target then loc - target else 0
    }
  }

  ghost predicate ValidSlots(slots: seq<Slot>) {
    && (forall i | 0 <= i < |slots| :: slots[i].Width() > 0)
    && (forall i, j | 0 <= i < j < |slots| :: slots[i].id != slots[j].id)
  }

  // Distance from the end of a slot pushed on `size` bytes.
  function Loc(size: nat, slot: Slot): (loc: nat)
    ensures loc >= size + slot.Width()
  {
    size + Pad(size, slot.Width()) + slot.Width()
  }

  function SlotBytes(size: nat, slot: Slot): (s: seq<byte>)
    ensures size + |s| == Loc(size, slot)
  {
    LittleEndian(slot.Raw(Loc(size, slot)), slot.Width()) + Zeros(Loc(size, slot) - size - slot.Width())
  }

  function SlotsBytes(size: nat, slots: seq<Slot>): seq<byte>
    decreases |slots|
  {
    if slots == [] then []
    else SlotsBytes(Loc(size, slots[0]), slots[1..]) + SlotBytes(size, slots[0])
  }

  function SlotsSize(size: nat, slots: seq<Slot>): (r: nat)
    ensures r >= size
  {
    size + |SlotsBytes(size, slots)|
  }

  // Where each field of the table lies, by id.
  function Locations(size: nat, slots: seq<Slot>): map<nat, nat>
    decreases |slots|
  {
    if slots == [] then map[]
    else Locations(Loc(size, slots[0]), slots[1..])[slots[0].id := Loc(size, slots[0])]
  }

  // The number of vtable entries: one past the largest id.
  function EntryCount(slots: seq<Slot>): (n: nat)
    ensures forall i | 0 <= i < |slots| :: slots[i].id < n
  {
    if slots == [] then 0
    else
      var n := EntryCount(slots[1..]);
      assert forall i | 0 <= i < |slots| - 1 :: slots[1..][i] == slots[i + 1];
      if slots[0].id >= n then slots[0].id + 1 else n
  }

  // Distance of the table from the end, for a table whose fields end at `size`.
  function TableLoc(size: nat): (loc: nat)
    ensures loc >= size + 4
  {
    size + Pad(size, 4) + 4
  }

  function Entry(locations: map<nat, nat>, id: nat, loc: nat): nat {
    if id in locations && locations[id] <= loc then loc - locations[id] else 0
  }

  // n vtable entries from `id` on.
  function Entries(locations: map<nat, nat>, id: nat, n: nat, loc: nat): (s: seq<byte>)
    ensures |s| == 2 * n
    decreases n
  {
    if n == 0 then []
    else LittleEndian(Entry(locations, id, loc), 2) + Entries(locations, id + 1, n - 1, loc)
  }

  // The vtable: its own size, the table's size, and the entries.
  function VTableBytes(locations: map<nat, nat>, n: nat, loc: nat, tableSize: nat): (s: seq<byte>)
    ensures |s| == VT(n)
  {
    LittleEndian(VT(n), 2) + (LittleEndian(tableSize, 2) + Entries(locations, 0, n, loc))
  }

  // What ending a table puts in front of `size` bytes: the vtable, and the distance
  // back to it, which is the table's first word.
  function EndTableBytes(size: nat, start: nat, locations: map<nat, nat>, n: nat): (s: seq<byte>)
    requires start <= size
    ensures size + |s| == TableLoc(size) + VT(n)
  {
    VTableBytes(locations, n, TableLoc(size), TableLoc(size) - start) +
    (LittleEndian(VT(n), 4) + Zeros(Pad(size, 4)))
  }

  // What finishing puts in front: the distance to the root table, aligned.
  function FinishBytes(size: nat, root: nat, minAlign: nat): seq<byte>
  {
    var pad := Pad(size + 4, minAlign);
    var loc := TableLoc(size + pad);
    LittleEndian(if loc >= root then loc - root else 0, 4) + (Zeros(Pad(size + pad, 4)) + Zeros(pad))
  }

  function RootLoc(tail: seq<byte>, slots: seq<Slot>): (loc: nat)
    ensures loc >= |tail| + 4
  {
    TableLoc(SlotsSize(|tail|, slots))
  }

  // A buffer with a root table with these fields, built on the vectors `tail`,
  // still without its root offset.
  function Body(tail: seq<byte>, slots: seq<Slot>): seq<byte> {
    EndTableBytes(SlotsSize(|tail|, slots), |tail|, Locations(|tail|, slots), EntryCount(slots)) +
    (SlotsBytes(|tail|, slots) + tail)
  }

  function Finished(tail: seq<byte>, slots: seq<Slot>, minAlign: nat): seq<byte>
  {
    FinishBytes(|Body(tail, slots)|, RootLoc(tail, slots), minAlign) + Body(tail, slots)
  }

  // ---------- Reading ----------

  function VTableIndex(data: seq<byte>, table: nat): int
    requires table + 4 <= |data|
  {
    RangeValues();
    table - ToInt32(Load(data, table, 4))
  }

  // The table and its vtable lie inside the buffer.
  predicate TableFits(data: seq<byte>, table: nat) {
    && table + 4 <= |data|
    && 0 <= VTableIndex(data, table)
    && VTableIndex(data, table) + 4 <= |data|
    && VTableIndex(data, table) + Load(data, VTableIndex(data, table), 2) <= |data|
    && Load(data, VTableIndex(data, table), 2) % 2 == 0
  }

  // The field's offset in its table, 0 when the field is absent.
  function FieldOffset(data: seq<byte>, table: nat, id: nat): nat
    requires TableFits(data, table)
  {
    var vtable := VTableIndex(data, table);
    if VT(id) < Load(data, vtable, 2) then Load(data, vtable + VT(id), 2) else 0
  }

  predicate FieldFits(data: seq<byte>, table: nat, id: nat, width: nat) {
    && TableFits(data, table)
    && (FieldOffset(data, table, id) != 0 ==> table + FieldOffset(data, table, id) + width <= |data|)
  }

  // The scalar in a field, or its default when the field is absent.
  function GetField(data: seq<byte>, table: nat, id: nat, width: nat, default: nat): nat
    requires FieldFits(data, table, id, width)
  {
    var off := FieldOffset(data, table, id);
    if off != 0 then Load(data, table + off, width) else default
  }

  // Overwrites the scalar in place; an absent field only accepts its default.
  function SetField(data: seq<byte>, table: nat, id: nat, width: nat, raw: nat, default: nat): (r: (seq<byte>, bool))
    requires FieldFits(data, table, id, width)
    ensures |r.0| == |data|
  {
    var off := FieldOffset(data, table, id);
    if off != 0 then (Store(data, table + off, width, raw), true) else (data, raw == default)
  }

  // ---------- Facts about the parts ----------

  lemma {:induction false} PadAligns(size: nat, align: nat)
    requires align > 0
    ensures Pad(size + Pad(size, align), align) == 0 && Pad(size, align) < align
    decreases size
  {
    if size >= align {
      PadAligns(size - align, align);
      assert Pad(size, align) == Pad(size - align, align);
    }
  }

  // Padding brings the size to the next multiple.
  lemma {:induction false} PadReaches(size: nat, align: nat)
    requires align == 4 || align == 8
    ensures (size + Pad(size, align)) % align == 0 && Pad(size, align) < align
    decreases size
  {
    if size >= align {
      PadReaches(size - align, align);
    }
  }

  // A slot ends up at a multiple of its width from the end.
  lemma {:induction false} SlotIsAligned(size: nat, slots: seq<Slot>, i: nat)
    requires ValidSlots(slots) && i < |slots| && slots[i].Width() in {4, 8}
    ensures slots[i].id in Locations(size, slots)
    ensures Locations(size, slots)[slots[i].id] % slots[i].Width() == 0
    decreases |slots|
  {
    hide Pad;
    if i == 0 {
      PadReaches(size, slots[0].Width());
    } else {
      assert slots[1..][i - 1] == slots[i];
      SlotIsAligned(Loc(size, slots[0]), slots[1..], i - 1);
    }
  }

  // The whole buffer is a multiple of the widest alignment.
  lemma FinishedIsAligned(tail: seq<byte>, slots: seq<Slot>, minAlign: nat)
    requires minAlign == 4 || minAlign == 8
    ensures |Finished(tail, slots, minAlign)| % minAlign == 0
  {
    hide Body, Pad, LittleEndian, Zeros;
    var size := |Body(tail, slots)|;
    var pad := Pad(size + 4, minAlign);
    PadReaches(size + 4, minAlign);
    PadReaches(size + pad, 4);
  }

  lemma {:induction false} Aligned8IsAligned4(size: nat)
    requires Pad(size, 8) == 0
    ensures Pad(size, 4) == 0
    decreases size
  {
    if size >= 8 {
      Aligned8IsAligned4(size - 8);
      assert Pad(size, 4) == Pad(size - 4, 4) == Pad(size - 8, 4);
    }
  }

  // The count of a vector of 4- or 8-byte scalars directly precedes its elements.
  lemma CountIsAligned(size: nat, n: nat, width: nat)
    requires width == 4 || width == 8
    ensures Pad(size + VectorPad(size, n, width) + n, 4) == 0
  {
    var pad := Pad(size + n, 4);
    var x := size + pad + n;
    PadAligns(x, width);
    assert size + VectorPad(size, n, width) + n == x + Pad(x, width);
    if width == 8 {
      Aligned8IsAligned4(x + Pad(x, 8));
    }
  }

  lemma {:induction false} ReadElementsOfElements(data: seq<byte>, i: nat, raws: seq<nat>, width: nat)
    requires forall k | 0 <= k < |raws| :: raws[k] < Range(width)
    requires i + |raws| * width <= |data|
    requires data[i..i + |raws| * width] == Elements(raws, width)
    ensures ReadElements(data, i, width, |raws|) == raws
    decreases |raws|
  {
    if raws != [] {
      var n := |raws| * width;
      assert n == width + (|raws| - 1) * width;
      var window := data[i..i + n];
      assert window[..width] == LittleEndian(raws[0], width);
      assert data[i..i + width] == window[..width];
      StoreThenLoad(raws[0], width);
      assert data[i + width..i + n] == window[width..] == Elements(raws[1..], width);
      ReadElementsOfElements(data, i + width, raws[1..], width);
    }
  }

  // `part` stands in `data` at index `at`.
  ghost predicate PartAt(data: seq<byte>, at: nat, part: seq<byte>) {
    at + |part| <= |data| && data[at..at + |part|] == part
  }

  lemma PartOf(data: seq<byte>, before: seq<byte>, part: seq<byte>, after: seq<byte>)
    requires before + (part + after) <= data
    ensures PartAt(data, |before|, part)
  {
    var all := before + (part + after);
    assert data[..|all|] == all;
    assert data[|before|..|before| + |part|] == all[|before|..|before| + |part|];
  }

  lemma LoadPart(data: seq<byte>, at: nat, n: nat, width: nat)
    requires PartAt(data, at, LittleEndian(n, width)) && n < Range(width)
    ensures at + width <= |data| && Load(data, at, width) == n
  {
    hide LittleEndian, FromLittleEndian, Range;
    StoreThenLoad(n, width);
  }

  lemma StorePart(before: seq<byte>, part: seq<byte>, after: seq<byte>, n: nat)
    ensures Store(before + (part + after), |before|, |part|, n) == before + (LittleEndian(n, |part|) + after)
  {
    var all := before + (part + after);
    assert all[..|before|] == before;
    assert all[|before| + |part|..] == after;
  }

  // The n-th vtable entry and what surrounds it.
  lemma {:induction false} EntryParts(locations: map<nat, nat>, id: nat, n: nat, loc: nat, k: nat)
    returns (before: seq<byte>, after: seq<byte>)
    requires k < n
    ensures Entries(locations, id, n, loc) == before + (LittleEndian(Entry(locations, id + k, loc), 2) + after)
    ensures |before| == 2 * k
    decreases n
  {
    hide LittleEndian, Entry;
    var one := LittleEndian(Entry(locations, id, loc), 2);
    var rest := Entries(locations, id + 1, n - 1, loc);
    if k == 0 {
      before, after := [], rest;
      assert [] + (one + rest) == one + rest;
    } else {
      before, after := EntryParts(locations, id + 1, n - 1, loc, k - 1);
      Regroup(one, before, LittleEndian(Entry(locations, id + k, loc), 2), after);
      before := one + before;
    }
  }

  lemma Regroup(one: seq<byte>, a: seq<byte>, b: seq<byte>, c: seq<byte>)
    ensures one + (a + (b + c)) == (one + a) + (b + c)
    ensures (a + (b + c)) + one == a + (b + (c + one))
  {
  }

  // Replacing a slot's number moves nothing.
  lemma {:induction false} SameLocations(size: nat, slots: seq<Slot>, i: nat, other: Slot)
    requires i < |slots| && other.id == slots[i].id && other.Width() == slots[i].Width()
    ensures Locations(size, slots[i := other]) == Locations(size, slots)
    ensures EntryCount(slots[i := other]) == EntryCount(slots)
    decreases |slots|
  {
    if i == 0 {
      assert slots[i := other][1..] == slots[1..];
    } else {
      assert slots[i := other][0] == slots[0] && slots[i := other][1..] == slots[1..][i - 1 := other];
      SameLocations(Loc(size, slots[0]), slots[1..], i - 1, other);
    }
  }

  // What surrounds slot i's number in the slots' part of a buffer.
  function Before(size: nat, slots: seq<Slot>, i: nat): seq<byte>
    requires i < |slots|
    decreases |slots|
  {
    var size' := Loc(size, slots[0]);
    if i == 0 then SlotsBytes(size', slots[1..]) else Before(size', slots[1..], i - 1)
  }

  function After(size: nat, slots: seq<Slot>, i: nat): seq<byte>
    requires i < |slots|
    decreases |slots|
  {
    if i == 0 then Zeros(Pad(size, slots[0].Width()))
    else After(Loc(size, slots[0]), slots[1..], i - 1) + SlotBytes(size, slots[0])
  }

  lemma {:induction false} SlotParts(size: nat, slots: seq<Slot>, i: nat)
    requires ValidSlots(slots) && i < |slots|
    ensures slots[i].id in Locations(size, slots)
    ensures
      var loc := Locations(size, slots)[slots[i].id];
      && size + |After(size, slots, i)| + slots[i].Width() == loc
      && SlotsBytes(size, slots)
         == Before(size, slots, i) + (LittleEndian(slots[i].Raw(loc), slots[i].Width()) + After(size, slots, i))
    decreases |slots|
  {
    hide LittleEndian, Pad, Zeros;
    if i > 0 {
      var rest, size' := slots[1..], Loc(size, slots[0]);
      SlotParts(size', rest, i - 1);
      Regroup(SlotBytes(size, slots[0]), Before(size', rest, i - 1),
              LittleEndian(slots[i].Raw(Locations(size', rest)[slots[i].id]), slots[i].Width()),
              After(size', rest, i - 1));
    }
  }

  // It does not depend on the number.
  lemma {:induction false} SameSurroundings(size: nat, slots: seq<Slot>, i: nat, other: Slot)
    requires i < |slots| && other.id == slots[i].id && other.Width() == slots[i].Width()
    ensures Before(size, slots[i := other], i) == Before(size, slots, i)
    ensures After(size, slots[i := other], i) == After(size, slots, i)
    decreases |slots|
  {
    hide LittleEndian, Pad, Zeros, SlotBytes;
    if i == 0 {
      assert slots[i := other][1..] == slots[1..];
    } else {
      assert slots[i := other][0] == slots[0] && slots[i := other][1..] == slots[1..][i - 1 := other];
      SameSurroundings(Loc(size, slots[0]), slots[1..], i - 1, other);
    }
  }

  lemma {:induction false} AbsentHasNoLocation(size: nat, slots: seq<Slot>, id: nat)
    requires forall i | 0 <= i < |slots| :: slots[i].id != id
    ensures id !in Locations(size, slots)
    decreases |slots|
  {
    if slots != [] {
      AbsentHasNoLocation(Loc(size, slots[0]), slots[1..], id);
    }
  }

  // ---------- What a finished buffer reads as ----------

  // The library keeps buffers below 2 GiB and tables and vtables within 16 bits.
  ghost predicate Buildable(tail: seq<byte>, slots: seq<Slot>, minAlign: nat) {
    && ValidSlots(slots)
    && |Finished(tail, slots, minAlign)| < 0x8000_0000
    && VT(EntryCount(slots)) < 0x1_0000
    && RootLoc(tail, slots) - |tail| < 0x1_0000
  }

  // Where the root table lies in the finished buffer.
  function RootIndex(tail: seq<byte>, slots: seq<Slot>, minAlign: nat): (t: nat)
    ensures t + RootLoc(tail, slots) == |Finished(tail, slots, minAlign)|
  {
    |FinishBytes(|Body(tail, slots)|, RootLoc(tail, slots), minAlign)| + VT(EntryCount(slots))
  }

  lemma RootPart(tail: seq<byte>, slots: seq<Slot>, minAlign: nat) returns (after: seq<byte>)
    ensures Finished(tail, slots, minAlign) == LittleEndian(RootIndex(tail, slots, minAlign), 4) + after
  {
    var B := Body(tail, slots);
    var pad := Pad(|B| + 4, minAlign);
    after := (Zeros(Pad(|B| + pad, 4)) + Zeros(pad)) + B;
  }

  lemma RootRead(data: seq<byte>, tail: seq<byte>, slots: seq<Slot>, minAlign: nat)
    requires Buildable(tail, slots, minAlign) && Finished(tail, slots, minAlign) <= data
    ensures |data| >= 4 && Load(data, 0, 4) == RootIndex(tail, slots, minAlign)
  {
    RangeValues();
    var after := RootPart(tail, slots, minAlign);
    var root := LittleEndian(RootIndex(tail, slots, minAlign), 4);
    assert [] + (root + after) == root + after;
    PartOf(data, [], root, after);
    LoadPart(data, 0, RootIndex(tail, slots, minAlign), 4);
  }

  // The vtable, the table's first word, and the rest.
  lemma TableParts(tail: seq<byte>, slots: seq<Slot>, minAlign: nat)
    returns (front: seq<byte>, vtable: seq<byte>, word: seq<byte>, rest: seq<byte>)
    ensures
      var n := EntryCount(slots);
      && vtable == VTableBytes(Locations(|tail|, slots), n, RootLoc(tail, slots), RootLoc(tail, slots) - |tail|)
      && word == LittleEndian(VT(n), 4)
      && |front| + VT(n) == RootIndex(tail, slots, minAlign)
      && Finished(tail, slots, minAlign) == front + (vtable + (word + rest))
  {
    hide LittleEndian, Pad, Zeros, Entries, VTableBytes, SlotsBytes, Locations, EntryCount, SlotsSize;
    var n := EntryCount(slots);
    front := FinishBytes(|Body(tail, slots)|, RootLoc(tail, slots), minAlign);
    vtable := VTableBytes(Locations(|tail|, slots), n, RootLoc(tail, slots), RootLoc(tail, slots) - |tail|);
    word := LittleEndian(VT(n), 4);
    var zeros := Zeros(Pad(SlotsSize(|tail|, slots), 4));
    rest := zeros + (SlotsBytes(|tail|, slots) + tail);
    RegroupTable(vtable, word, zeros, SlotsBytes(|tail|, slots) + tail);
  }

  lemma RegroupTable(vtable: seq<byte>, word: seq<byte>, zeros: seq<byte>, rest: seq<byte>)
    ensures (vtable + (word + zeros)) + rest == vtable + (word + (zeros + rest))
  {
  }

  lemma TableRead(data: seq<byte>, tail: seq<byte>, slots: seq<Slot>, minAlign: nat)
    requires Buildable(tail, slots, minAlign) && Finished(tail, slots, minAlign) <= data
    ensures
      var table := RootIndex(tail, slots, minAlign);
      var vtable := table - VT(EntryCount(slots));
      && TableFits(data, table)
      && VTableIndex(data, table) == vtable
      && Load(data, vtable, 2) == VT(EntryCount(slots))
  {
    hide LittleEndian, Entries, Load, Finished, TableFits, VTableIndex, Locations, EntryCount;
    var n := EntryCount(slots);
    var front, vtable, word, rest := TableParts(tail, slots, minAlign);
    var more := LittleEndian(RootLoc(tail, slots) - |tail|, 2) + Entries(Locations(|tail|, slots), 0, n,
      RootLoc(tail, slots));
    Regroup(front, LittleEndian(VT(n), 2), more, word + rest);
    assert vtable + (word + rest) == LittleEndian(VT(n), 2) + (more + (word + rest));
    PartOf(data, front, LittleEndian(VT(n), 2), more + (word + rest));
    Regroup(front, vtable, word, rest);
    PartOf(data, front + vtable, word, rest);
    TableWords(data, |front|, n);
  }

  lemma TableWords(data: seq<byte>, vtable: nat, n: nat)
    requires VT(n) < 0x1_0000
    requires PartAt(data, vtable, LittleEndian(VT(n), 2)) && PartAt(data, vtable + VT(n), LittleEndian(VT(n), 4))
    ensures TableFits(data, vtable + VT(n))
    ensures VTableIndex(data, vtable + VT(n)) == vtable
    ensures Load(data, vtable, 2) == VT(n)
  {
    hide LittleEndian, FromLittleEndian, Range, Load, PartAt;
    RangeValues();
    LoadPart(data, vtable, VT(n), 2);
    LoadPart(data, vtable + VT(n), VT(n), 4);
  }

  lemma EntryInPlace(data: seq<byte>, tail: seq<byte>, slots: seq<Slot>, minAlign: nat, id: nat)
    requires Finished(tail, slots, minAlign) <= data && id < EntryCount(slots)
    ensures RootIndex(tail, slots, minAlign) - VT(EntryCount(slots)) >= 0
    ensures PartAt(data, RootIndex(tail, slots, minAlign) - VT(EntryCount(slots)) + VT(id),
                   LittleEndian(Entry(Locations(|tail|, slots), id, RootLoc(tail, slots)), 2))
  {
    hide *;
    var n, loc, locations := EntryCount(slots), RootLoc(tail, slots), Locations(|tail|, slots);
    var front, vtable, word, rest := TableParts(tail, slots, minAlign);
    var before, after := VTableParts(locations, n, loc, loc - |tail|, id);
    assert front + (vtable + (word + rest)) <= data;
    EntryPart(data, front, vtable, before, LittleEndian(Entry(locations, id, loc), 2), after, word + rest);
  }

  lemma VTableParts(locations: map<nat, nat>, n: nat, loc: nat, tableSize: nat, id: nat)
    returns (before: seq<byte>, after: seq<byte>)
    requires id < n
    ensures VTableBytes(locations, n, loc, tableSize) == before + (LittleEndian(Entry(locations, id, loc), 2) + after)
    ensures |before| == VT(id)
  {
    hide LittleEndian, Entry, Entries;
    before, after := EntryParts(locations, 0, n, loc, id);
    var entry := LittleEndian(Entry(locations, id, loc), 2);
    var first, second := LittleEndian(VT(n), 2), LittleEndian(tableSize, 2);
    Regroup(second, before, entry, after);
    Regroup(first, second + before, entry, after);
    before := first + (second + before);
  }

  lemma EntryPart(data: seq<byte>, front: seq<byte>, vtable: seq<byte>, before: seq<byte>,
                  entry: seq<byte>, after: seq<byte>, rest: seq<byte>)
    requires vtable == before + (entry + after) && front + (vtable + rest) <= data
    ensures PartAt(data, |front| + |before|, entry)
  {
    assert front + (vtable + rest) == (front + before) + (entry + (after + rest));
    PartOf(data, front + before, entry, after + rest);
  }

  lemma EntryRead(data: seq<byte>, tail: seq<byte>, slots: seq<Slot>, minAlign: nat, id: nat)
    requires Buildable(tail, slots, minAlign) && Finished(tail, slots, minAlign) <= data
    requires Entry(Locations(|tail|, slots), id, RootLoc(tail, slots)) < 0x1_0000
    ensures TableFits(data, RootIndex(tail, slots, minAlign))
    ensures FieldOffset(data, RootIndex(tail, slots, minAlign), id)
         == if id < EntryCount(slots) then Entry(Locations(|tail|, slots), id, RootLoc(tail, slots)) else 0
  {
    hide LittleEndian, PartAt, Finished, TableFits, Locations, EntryCount, Load, FieldOffset, VTableIndex;
    hide RootIndex, RootLoc, Entry, Buildable;
    TableRead(data, tail, slots, minAlign);
    if id < EntryCount(slots) {
      EntryInPlace(data, tail, slots, minAlign, id);
      EntryOffset(data, RootIndex(tail, slots, minAlign), id,
        Entry(Locations(|tail|, slots), id, RootLoc(tail, slots)));
    } else {
      NoEntry(data, RootIndex(tail, slots, minAlign), id);
    }
  }

  lemma NoEntry(data: seq<byte>, table: nat, id: nat)
    requires TableFits(data, table) && VT(id) >= Load(data, VTableIndex(data, table), 2)
    ensures FieldOffset(data, table, id) == 0
  {
    hide Load;
  }

  lemma EntryOffset(data: seq<byte>, table: nat, id: nat, entry: nat)
    requires TableFits(data, table) && VT(id) < Load(data, VTableIndex(data, table), 2) && entry < 0x1_0000
    requires PartAt(data, VTableIndex(data, table) + VT(id), LittleEndian(entry, 2))
    ensures FieldOffset(data, table, id) == entry
  {
    hide LittleEndian, PartAt, Load, FromLittleEndian, Range;
    RangeValues();
    LoadPart(data, VTableIndex(data, table) + VT(id), entry, 2);
  }

  lemma SlotLocated(size: nat, slots: seq<Slot>, i: nat)
    requires ValidSlots(slots) && i < |slots|
    ensures slots[i].id in Locations(size, slots)
    ensures size + slots[i].Width() <= Locations(size, slots)[slots[i].id] <= SlotsSize(size, slots)
  {
    SlotParts(size, slots, i);
  }

  // Distance of slot i from the end of the buffer.
  function SlotLoc(tail: seq<byte>, slots: seq<Slot>, i: nat): (loc: nat)
    requires ValidSlots(slots) && i < |slots|
    ensures slots[i].id in Locations(|tail|, slots) && loc == Locations(|tail|, slots)[slots[i].id]
    ensures |tail| + slots[i].Width() <= loc <= RootLoc(tail, slots) - 4
  {
    SlotLocated(|tail|, slots, i);
    Locations(|tail|, slots)[slots[i].id]
  }

  // A slot's number in the finished buffer and what surrounds it.
  lemma FinishedParts(tail: seq<byte>, slots: seq<Slot>, minAlign: nat, i: nat, other: Slot)
    returns (before: seq<byte>, after: seq<byte>)
    requires ValidSlots(slots) && i < |slots|
    requires other.id == slots[i].id && other.Width() == slots[i].Width()
    ensures |before| == |Finished(tail, slots, minAlign)| - SlotLoc(tail, slots, i)
    ensures Finished(tail, slots, minAlign)
         == before + (LittleEndian(slots[i].Raw(SlotLoc(tail, slots, i)), slots[i].Width()) + after)
    ensures Finished(tail, slots[i := other], minAlign)
         == before + (LittleEndian(other.Raw(SlotLoc(tail, slots, i)), slots[i].Width()) + after)
  {
    hide LittleEndian, Pad, Zeros, SlotsBytes, Locations, EntryCount, FinishBytes, EndTableBytes, Before, After;
    var loc := SlotLoc(tail, slots, i);
    SlotParts(|tail|, slots, i);
    SlotParts(|tail|, slots[i := other], i);
    SameLocations(|tail|, slots, i, other);
    SameSurroundings(|tail|, slots, i, other);
    before, after := Before(|tail|, slots, i), After(|tail|, slots, i);
    var front := FinishBytes(|Body(tail, slots)|, RootLoc(tail, slots), minAlign);
    var table := EndTableBytes(SlotsSize(|tail|, slots), |tail|, Locations(|tail|, slots), EntryCount(slots));
    RegroupSlot(front, table, before, LittleEndian(slots[i].Raw(loc), slots[i].Width()), after, tail);
    RegroupSlot(front, table, before, LittleEndian(other.Raw(loc), slots[i].Width()), after, tail);
    before, after := (front + table) + before, after + tail;
  }

  lemma RegroupSlot(front: seq<byte>, table: seq<byte>, before: seq<byte>, number: seq<byte>, after: seq<byte>,
      tail: seq<byte>)
    ensures front + (table + ((before + (number + after)) + tail)) ==
        ((front + table) + before) + (number + (after + tail))
  {
  }

  // A field that was added is found where it was put and reads as what was put there.
  lemma FieldRead(data: seq<byte>, tail: seq<byte>, slots: seq<Slot>, minAlign: nat, i: nat)
    requires Buildable(tail, slots, minAlign) && Finished(tail, slots, minAlign) <= data
    requires i < |slots| && slots[i].Raw(SlotLoc(tail, slots, i)) < Range(slots[i].Width())
    ensures
      var table := RootIndex(tail, slots, minAlign);
      var at := |Finished(tail, slots, minAlign)| - SlotLoc(tail, slots, i);
      && FieldFits(data, table, slots[i].id, slots[i].Width())
      && FieldOffset(data, table, slots[i].id) != 0
      && table + FieldOffset(data, table, slots[i].id) == at
      && Load(data, at, slots[i].Width()) == slots[i].Raw(SlotLoc(tail, slots, i))
  {
    hide LittleEndian, PartAt, Load, Finished, TableFits, VTableIndex, Locations, EntryCount, Range, Pad;
    var loc := SlotLoc(tail, slots, i);
    EntryRead(data, tail, slots, minAlign, slots[i].id);
    var before, after := FinishedParts(tail, slots, minAlign, i, slots[i]);
    PartOf(data, before, LittleEndian(slots[i].Raw(loc), slots[i].Width()), after);
    LoadPart(data, |before|, slots[i].Raw(loc), slots[i].Width());
  }

  // A field that was not added reads as absent.
  lemma FieldAbsent(data: seq<byte>, tail: seq<byte>, slots: seq<Slot>, minAlign: nat, id: nat)
    requires Buildable(tail, slots, minAlign) && Finished(tail, slots, minAlign) <= data
    requires forall i | 0 <= i < |slots| :: slots[i].id != id
    ensures TableFits(data, RootIndex(tail, slots, minAlign))
    ensures FieldOffset(data, RootIndex(tail, slots, minAlign), id) == 0
  {
    AbsentHasNoLocation(|tail|, slots, id);
    EntryRead(data, tail, slots, minAlign, id);
  }

  // The vectors stand at the end.
  lemma TailRead(data: seq<byte>, tail: seq<byte>, slots: seq<Slot>, minAlign: nat)
    requires Finished(tail, slots, minAlign) <= data
    ensures |tail| <= |Finished(tail, slots, minAlign)|
    ensures PartAt(data, |Finished(tail, slots, minAlign)| - |tail|, tail)
  {
    hide LittleEndian, Pad, PartAt, SlotsBytes, Locations, EntryCount, FinishBytes, EndTableBytes;
    var front := FinishBytes(|Body(tail, slots)|, RootLoc(tail, slots), minAlign);
    var table := EndTableBytes(SlotsSize(|tail|, slots), |tail|, Locations(|tail|, slots), EntryCount(slots));
    RegroupSlot(front, table, SlotsBytes(|tail|, slots), [], [], tail);
    assert SlotsBytes(|tail|, slots) + ([] + []) == SlotsBytes(|tail|, slots);
    PartOf(data, (front + table) + SlotsBytes(|tail|, slots), tail, []);
  }

  // Storing to a present field gives the buffer that would have been built with the
  // new number, byte for byte.
  lemma FinishedReplaced(tail: seq<byte>, slots: seq<Slot>, minAlign: nat, i: nat, raw: nat)
    requires ValidSlots(slots) && i < |slots| && slots[i].Scalar?
    ensures SlotLoc(tail, slots, i) <= |Finished(tail, slots, minAlign)|
    ensures Finished(tail, slots[i := slots[i].(raw := raw)], minAlign)
         == Store(Finished(tail, slots, minAlign), |Finished(tail, slots, minAlign)| - SlotLoc(tail, slots, i),
           slots[i].width, raw)
  {
    hide LittleEndian, Finished, Store, Locations;
    var other := slots[i].(raw := raw);
    var before, after := FinishedParts(tail, slots, minAlign, i, other);
    StorePart(before, LittleEndian(slots[i].raw, slots[i].width), after, raw);
  }
}
