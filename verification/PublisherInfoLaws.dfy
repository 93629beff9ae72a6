// What holds of the shared record: reading a packed record gives it back, and a
// mutation changes exactly the field it names.
module PublisherInfoLaws {
  import opened Bytes
  import opened FlatBuffer
  import opened PublisherInfo

  // ---------- The vectors ----------

  lemma {:induction false} TailSuffix(rec: PublisherInfoT, k: nat, n: nat) returns (front: seq<byte>)
    requires k <= n <= 4
    ensures Tail(rec, n) == front + Tail(rec, k)
    decreases n
  {
    if k == n {
      front := [];
    } else {
      var front' := TailSuffix(rec, k, n - 1);
      var v, tail := VectorAt(n - 1), Tail(rec, n - 1);
      if v.Count(rec) == 0 {
        front := front';
      } else {
        var bytes := VectorBytes(|tail|, v.Raws(rec), v.Width(), v.Count(rec));
        assert bytes + (front' + Tail(rec, k)) == (bytes + front') + Tail(rec, k);
        front := bytes + front';
      }
    }
  }

  // A vector that exists: its count, directly followed by its elements.
  lemma VectorParts(rec: PublisherInfoT, v: VectorField) returns (before: seq<byte>, after: seq<byte>)
    requires v.Count(rec) > 0
    ensures 0 < VectorLoc(rec, v) <= |Vectors(rec)|
    ensures |before| == |Vectors(rec)| - VectorLoc(rec, v)
    ensures Vectors(rec) == before + ((LittleEndian(v.Count(rec), 4) + Elements(v.Raws(rec), v.Width())) + after)
  {
    hide *;
    before := VectorSuffix(rec, v);
    after := VectorFront(rec, v);
  }

  lemma VectorSuffix(rec: PublisherInfoT, v: VectorField) returns (before: seq<byte>)
    ensures Vectors(rec) == before + Tail(rec, v.Position() + 1)
    ensures v.Count(rec) > 0 ==> VectorLoc(rec, v) == |Tail(rec, v.Position() + 1)|
  {
    hide Tail;
    before := TailSuffix(rec, v.Position() + 1, 4);
  }

  lemma VectorFront(rec: PublisherInfoT, v: VectorField) returns (after: seq<byte>)
    requires v.Count(rec) > 0
    ensures Tail(rec, v.Position() + 1) == (LittleEndian(v.Count(rec), 4) + Elements(v.Raws(rec), v.Width())) + after
    ensures |Tail(rec, v.Position() + 1)| >= 4
  {
    var tail := LastVector(rec, v);
    var count, body := LittleEndian(v.Count(rec), 4), Elements(v.Raws(rec), v.Width());
    after := DirectlyFollows(|tail|, count, body, v.Width(), tail);
  }

  lemma LastVector(rec: PublisherInfoT, v: VectorField) returns (tail: seq<byte>)
    requires v.Count(rec) > 0
    ensures Tail(rec, v.Position() + 1) == VectorBytes(|tail|, v.Raws(rec), v.Width(), v.Count(rec)) + tail
  {
    hide VectorBytes;
    tail := Tail(rec, v.Position());
    assert VectorAt(v.Position()) == v;
  }

  lemma DirectlyFollows(size: nat, count: seq<byte>, body: seq<byte>, width: nat, tail: seq<byte>)
      returns (after: seq<byte>)
    requires width == 4 || width == 8
    ensures
      var pad := VectorPad(size, |body|, width);
      (count + (Zeros(Pad(size + pad + |body|, 4)) + (body + Zeros(pad)))) + tail == (count + body) + after
  {
    hide Pad, VectorPad;
    CountIsAligned(size, |body|, width);
    var pad := VectorPad(size, |body|, width);
    assert Zeros(0) == [];
    after := Zeros(pad) + tail;
    assert [] + (body + Zeros(pad)) == body + Zeros(pad);
    assert (count + (body + Zeros(pad))) + tail == (count + body) + (Zeros(pad) + tail);
  }

  // ---------- The slots ----------

  predicate Distinct(order: seq<nat>) {
    forall i, j | 0 <= i < j < |order| :: order[i] != order[j]
  }

  lemma {:induction false} SlotsComeFromOrder(rec: PublisherInfoT, present: set<Field>, order: seq<nat>)
    requires Distinct(order)
    ensures ValidSlots(SlotsOf(rec, present, order)) && |SlotsOf(rec, present, order)| <= |order|
    ensures forall i | 0 <= i < |SlotsOf(rec, present, order)| :: SlotsOf(rec, present, order)[i].id in order
    ensures forall i | 0 <= i < |SlotsOf(rec, present, order)| ::
              SlotOf(rec, present, SlotsOf(rec, present, order)[i].id) == [SlotsOf(rec, present, order)[i]]
    decreases |order|
  {
    hide SlotOf;
    if order != [] {
      SlotsComeFromOrder(rec, present, order[1..]);
      var first, rest := SlotOf(rec, present, order[0]), SlotsOf(rec, present, order[1..]);
      assert order[0] !in order[1..];
      assert forall i | 0 <= i < |rest| :: rest[i].id in order[1..];
      assert SlotsOf(rec, present, order) == first + rest;
    }
  }

  lemma {:induction false} SlotIsAdded(rec: PublisherInfoT, present: set<Field>, order: seq<nat>, id: nat)
      returns (i: nat)
    requires id in order && SlotOf(rec, present, id) != []
    ensures i < |SlotsOf(rec, present, order)| && SlotsOf(rec, present, order)[i] == SlotOf(rec, present, id)[0]
    decreases |order|
  {
    if order[0] == id {
      i := 0;
    } else {
      var j := SlotIsAdded(rec, present, order[1..], id);
      i := |SlotOf(rec, present, order[0])| + j;
    }
  }

  lemma {:induction false} SlotsAreSmall(size: nat, slots: seq<Slot>)
    requires forall i | 0 <= i < |slots| :: slots[i].Width() in {4, 8}
    ensures SlotsSize(size, slots) <= size + 16 * |slots|
    decreases |slots|
  {
    hide LittleEndian, Zeros;
    if slots != [] {
      PadAligns(size, slots[0].Width());
      SlotsAreSmall(Loc(size, slots[0]), slots[1..]);
    }
  }

  // The slots of a record: at most one a field, all different.
  lemma SlotsFacts(rec: PublisherInfoT, present: set<Field>)
    ensures ValidSlots(Slots(rec, present)) && |Slots(rec, present)| <= 9
    ensures forall i | 0 <= i < |Slots(rec, present)| ::
              && Slots(rec, present)[i].id < 9
              && Slots(rec, present)[i].Width() in {4, 8}
              && SlotOf(rec, present, Slots(rec, present)[i].id) == [Slots(rec, present)[i]]
  {
    hide SlotsOf, SlotOf;
    var slots := Slots(rec, present);
    SlotsComeFromOrder(rec, present, ORDER);
    forall i | 0 <= i < |slots|
      ensures slots[i].id < 9 && slots[i].Width() in {4, 8} && SlotOf(rec, present, slots[i].id) == [slots[i]]
    {
      var one := SlotOf(rec, present, slots[i].id);
      assert one[0] == slots[i];
      assert slots[i].id in ORDER;
    }
  }

  // Every record that fits FlatBuffers' size limit can be built.
  lemma PackIsBuildable(rec: PublisherInfoT, present: set<Field>)
    requires |PackWith(rec, present)| < 0x8000_0000
    ensures Buildable(Vectors(rec), Slots(rec, present), MinAlign(rec, present))
  {
    hide Finished, Vectors, Slots, SlotsSize, Pad, EntryCount, MinAlign;
    var slots := Slots(rec, present);
    SlotsFacts(rec, present);
    SlotsAreSmall(|Vectors(rec)|, slots);
    PadAligns(SlotsSize(|Vectors(rec)|, slots), 4);
    EntriesAreFew(slots, 9);
  }

  lemma {:induction false} EntriesAreFew(slots: seq<Slot>, n: nat)
    requires forall i | 0 <= i < |slots| :: slots[i].id < n
    ensures EntryCount(slots) <= n
    decreases |slots|
  {
    if slots != [] {
      EntriesAreFew(slots[1..], n);
    }
  }

  // ---------- Reading a packed record ----------

  // The bytes of a buffer start with a record packed this way.
  ghost predicate Holds(data: seq<byte>, rec: PublisherInfoT, present: set<Field>) {
    PackWith(rec, present) <= data && |PackWith(rec, present)| < 0x8000_0000
  }

  lemma RootOfPacked(data: seq<byte>, rec: PublisherInfoT, present: set<Field>)
    requires Holds(data, rec, present)
    ensures |data| >= 4
    ensures Root(data) == RootIndex(Vectors(rec), Slots(rec, present), MinAlign(rec, present))
  {
    hide Finished, Vectors, Slots, MinAlign, RootIndex, Buildable;
    PackIsBuildable(rec, present);
    RootRead(data, Vectors(rec), Slots(rec, present), MinAlign(rec, present));
  }

  // A field that is not added reads as absent.
  lemma AbsentField(data: seq<byte>, rec: PublisherInfoT, present: set<Field>, id: nat)
    requires Holds(data, rec, present) && SlotOf(rec, present, id) == []
    ensures |data| >= 4 && TableFits(data, Root(data)) && FieldOffset(data, Root(data), id) == 0
  {
    hide Finished, Vectors, Slots, MinAlign, RootIndex, Buildable, SlotOf, TableFits, FieldOffset;
    PackIsBuildable(rec, present);
    SlotsFacts(rec, present);
    RootOfPacked(data, rec, present);
    FieldAbsent(data, Vectors(rec), Slots(rec, present), MinAlign(rec, present), id);
  }

  lemma PresentSlot(rec: PublisherInfoT, present: set<Field>, id: nat) returns (i: nat)
    requires id < 9 && SlotOf(rec, present, id) != []
    ensures i < |Slots(rec, present)| && Slots(rec, present)[i] == SlotOf(rec, present, id)[0]
  {
    hide SlotsOf, SlotOf;
    assert ORDER[0] == 1 && ORDER[1] == 0 && ORDER[2] == 8 && ORDER[3] == 7 && ORDER[4] == 6
        && ORDER[5] == 5 && ORDER[6] == 4 && ORDER[7] == 3 && ORDER[8] == 2;
    assert id in ORDER;
    i := SlotIsAdded(rec, present, ORDER, id);
  }

  // A field that is added reads as its number, at a place that depends only on the
  // layout.
  lemma PresentField(data: seq<byte>, rec: PublisherInfoT, present: set<Field>, id: nat) returns (i: nat)
    requires Holds(data, rec, present) && id < 9 && SlotOf(rec, present, id) != []
    ensures i < |Slots(rec, present)| && Slots(rec, present)[i] == SlotOf(rec, present, id)[0]
    ensures ValidSlots(Slots(rec, present))
    ensures
      var slot := Slots(rec, present)[i];
      var loc := SlotLoc(Vectors(rec), Slots(rec, present), i);
      && |data| >= 4
      && FieldFits(data, Root(data), id, slot.Width())
      && FieldOffset(data, Root(data), id) != 0
      && loc <= |PackWith(rec, present)|
      && Root(data) + FieldOffset(data, Root(data), id) == |PackWith(rec, present)| - loc
      && Load(data, |PackWith(rec, present)| - loc, slot.Width()) == slot.Raw(loc)
  {
    hide Finished, Vectors, Slots, MinAlign, Buildable, TableFits, FieldOffset, Load, FieldFits, SlotLoc;
    PackIsBuildable(rec, present);
    SlotsFacts(rec, present);
    RootOfPacked(data, rec, present);
    i := PresentSlot(rec, present, id);
    var loc := SlotLoc(Vectors(rec), Slots(rec, present), i);
    RawFits(rec, present, id, loc, |PackWith(rec, present)|);
    FieldRead(data, Vectors(rec), Slots(rec, present), MinAlign(rec, present), i);
  }

  lemma RawFits(rec: PublisherInfoT, present: set<Field>, id: nat, loc: nat, size: nat)
    requires SlotOf(rec, present, id) != [] && loc <= size < 0x8000_0000
    ensures SlotOf(rec, present, id)[0].Raw(loc) < Range(SlotOf(rec, present, id)[0].Width())
  {
    hide VectorLoc;
    RangeValues();
  }

  // The getters return what was packed, or the default.
  lemma ScalarRead(data: seq<byte>, rec: PublisherInfoT, present: set<Field>, f: Field)
    requires Holds(data, rec, present)
    ensures ScalarFits(data, f)
    ensures Get(data, f) == if f in present then f.Raw(rec) else f.Default()
  {
    hide PackWith, Vectors, Slots, SlotLoc, TableFits, Load;
    if f in present {
      var i := PresentField(data, rec, present, f.Id());
    } else {
      AbsentField(data, rec, present, f.Id());
    }
  }

  // A vector that was packed is found again, element for element.
  lemma VectorRead(data: seq<byte>, rec: PublisherInfoT, present: set<Field>, v: VectorField)
    requires Holds(data, rec, present)
    ensures VectorFits(data, v) && HasVector(data, v) == (v.Count(rec) != 0)
    ensures GetVector(data, v) == v.Raws(rec)
  {
    hide *;
    if v.Count(rec) == 0 {
      EmptyVectorRead(data, rec, present, v);
    } else {
      var i := VectorFound(data, rec, present, v);
      VectorStored(data, rec, present, v);
      VectorElements(data, v, v.Count(rec), v.Raws(rec));
    }
  }

  lemma EmptyVectorRead(data: seq<byte>, rec: PublisherInfoT, present: set<Field>, v: VectorField)
    requires Holds(data, rec, present) && v.Count(rec) == 0
    ensures VectorFits(data, v) && !HasVector(data, v) && GetVector(data, v) == v.Raws(rec) == []
  {
    hide PackWith, Vectors, Slots, TableFits, Load, FieldOffset, Root;
    AbsentField(data, rec, present, v.Id());
  }

  // The reference leads to the vector.
  lemma VectorFound(data: seq<byte>, rec: PublisherInfoT, present: set<Field>, v: VectorField) returns (i: nat)
    requires Holds(data, rec, present) && v.Count(rec) > 0
    ensures HasVector(data, v) && VectorIndex(data, v) == |PackWith(rec, present)| - VectorLoc(rec, v)
  {
    hide PackWith, Vectors, Slots, TableFits, Load, FieldOffset, Root, SlotLoc, VectorLoc;
    var before, after := VectorParts(rec, v);
    i := PresentField(data, rec, present, v.Id());
    SlotBehindTail(rec, present, i);
  }

  lemma SlotBehindTail(rec: PublisherInfoT, present: set<Field>, i: nat)
    requires ValidSlots(Slots(rec, present)) && i < |Slots(rec, present)|
    ensures SlotLoc(Vectors(rec), Slots(rec, present), i) >= |Vectors(rec)|
  {
  }

  // Where the reference leads, the count and the elements stand.
  lemma VectorStored(data: seq<byte>, rec: PublisherInfoT, present: set<Field>, v: VectorField)
    requires Holds(data, rec, present) && v.Count(rec) > 0
    ensures VectorLoc(rec, v) <= |PackWith(rec, present)|
    ensures PartAt(data, |PackWith(rec, present)| - VectorLoc(rec, v),
                   LittleEndian(v.Count(rec), 4) + Elements(v.Raws(rec), v.Width()))
    ensures v.Count(rec) < 0x8000_0000
  {
    hide LittleEndian, Elements, Finished, Vectors, Slots, VectorLoc, MinAlign;
    var before, after := VectorParts(rec, v);
    TailRead(data, Vectors(rec), Slots(rec, present), MinAlign(rec, present));
    PartOfPart(data, |PackWith(rec, present)| - |Vectors(rec)|, before,
               LittleEndian(v.Count(rec), 4) + Elements(v.Raws(rec), v.Width()), after);
    assert |Elements(v.Raws(rec), v.Width())| >= v.Count(rec) by {
      CountBound(v.Count(rec), v.Arity(), v.Width());
    }
  }

  lemma CountBound(n: nat, arity: nat, width: nat)
    requires arity in {1, 2} && width in {4, 8}
    ensures n * arity * width >= n
  {
  }

  lemma PartOfPart(data: seq<byte>, at: nat, before: seq<byte>, part: seq<byte>, after: seq<byte>)
    requires PartAt(data, at, before + (part + after))
    ensures PartAt(data, at + |before|, part)
  {
    var whole := before + (part + after);
    var window := data[at..at + |whole|];
    assert window == whole;
    forall k | 0 <= k < |part| ensures data[at + |before| + k] == part[k] {
      assert window[|before| + k] == whole[|before| + k];
    }
  }

  lemma VectorElements(data: seq<byte>, v: VectorField, count: nat, raws: seq<nat>)
    requires HasVector(data, v) && count < 0x8000_0000 && |raws| == count * v.Arity()
    requires forall i | 0 <= i < |raws| :: raws[i] < Range(v.Width())
    requires PartAt(data, VectorIndex(data, v), LittleEndian(count, 4) + Elements(raws, v.Width()))
    ensures VectorFits(data, v) && GetVector(data, v) == raws
  {
    hide LittleEndian, Elements, Load, FieldOffset, TableFits, Root, VectorIndex, PartAt;
    RangeValues();
    var at := VectorIndex(data, v);
    var number, body := LittleEndian(count, 4), Elements(raws, v.Width());
    assert [] + (number + body) == number + body && number + (body + []) == number + body;
    PartOfPart(data, at, [], number, body);
    PartOfPart(data, at, number, body, []);
    LoadPart(data, at, count, 4);
    ElementsPart(data, at + 4, raws, v.Width());
    assert |body| == count * v.Arity() * v.Width();
  }

  lemma ElementsPart(data: seq<byte>, at: nat, raws: seq<nat>, width: nat)
    requires PartAt(data, at, Elements(raws, width))
    requires forall i | 0 <= i < |raws| :: raws[i] < Range(width)
    ensures at + |raws| * width <= |data|
    ensures ReadElements(data, at, width, |raws|) == raws
  {
    ReadElementsOfElements(data, at, raws, width);
  }

  // ---------- Pack and unpack ----------

  lemma {:induction false} UnflattenFlatten(s: seq<TimeStamp>)
    ensures Unflatten(Flatten(s)) == s
  {
    if s != [] {
      UnflattenFlatten(s[1..]);
      assert Flatten(s)[2..] == Flatten(s[1..]);
    }
  }

  lemma IntsOfRaws(s: seq<int32>)
    ensures Ints(RawInts(s)) == s
  {
  }

  lemma LongsOfRaws(s: seq<uint64>)
    ensures Longs(RawLongs(s)) == s
  {
  }

  // Every scalar that is not stored has its default value.
  ghost predicate Elides(rec: PublisherInfoT, present: set<Field>) {
    forall f: Field :: f !in present ==> f.Raw(rec) == f.Default()
  }

  // A packed record, whatever else follows it in memory, reads back as the record.
  lemma UnPackOfPackWith(data: seq<byte>, rec: PublisherInfoT, present: set<Field>)
    requires Holds(data, rec, present) && Elides(rec, present)
    ensures Readable(data) && UnPack(data) == rec
  {
    hide Holds, ScalarFits, VectorFits, Get, GetVector;
    forall f: Field ensures ScalarFits(data, f) && Get(data, f) == f.Raw(rec) {
      ScalarRead(data, rec, present, f);
    }
    forall v: VectorField ensures VectorFits(data, v) && GetVector(data, v) == v.Raws(rec) {
      VectorRead(data, rec, present, v);
    }
    UnflattenFlatten(rec.timestampPool);
    IntsOfRaws(rec.dmaBuffFd);
    IntsOfRaws(rec.indexCyclePool);
    LongsOfRaws(rec.msgIdPool);
  }

  lemma UnPackOfPack(data: seq<byte>, rec: PublisherInfoT)
    requires Pack(rec) <= data && |Pack(rec)| < 0x8000_0000
    ensures Readable(data) && UnPack(data) == rec
  {
    hide PackWith, Readable, UnPack;
    UnPackOfPackWith(data, rec, Stored(rec));
  }

  // ---------- Mutating in place ----------

  // Changing a scalar changes neither the vectors
  lemma {:induction false} SameTail(rec: PublisherInfoT, f: Field, raw: nat, n: nat)
    requires raw < Range(f.Width()) && n <= 4
    ensures Tail(f.With(rec, raw), n) == Tail(rec, n)
    decreases n
  {
    hide VectorBytes;
    if n > 0 {
      SameTail(rec, f, raw, n - 1);
      SameVector(rec, f, raw, VectorAt(n - 1));
    }
  }

  lemma SameVector(rec: PublisherInfoT, f: Field, raw: nat, v: VectorField)
    requires raw < Range(f.Width())
    ensures v.Raws(f.With(rec, raw)) == v.Raws(rec) && v.Count(f.With(rec, raw)) == v.Count(rec)
  {
  }

  // nor the other slots,
  lemma SameSlot(rec: PublisherInfoT, present: set<Field>, f: Field, raw: nat, id: nat)
    requires raw < Range(f.Width())
    ensures SlotOf(f.With(rec, raw), present, id)
         == if id == f.Id() && f in present then [Scalar(id, f.Width(), raw)] else SlotOf(rec, present, id)
  {
    hide Tail;
    RangeValues();
    if id in {4, 6, 7, 8} {
      SameVector(rec, f, raw, VectorOf(id));
      SameTail(rec, f, raw, VectorOf(id).Position() + 1);
    } else if id == f.Id() {
      RawOfWith(rec, f, raw);
    } else if id < 9 {
      OtherRaw(rec, f, raw, ScalarOf(id));
    }
  }

  lemma RawOfWith(rec: PublisherInfoT, f: Field, raw: nat)
    requires raw < Range(f.Width())
    ensures f.Raw(f.With(rec, raw)) == raw
    ensures f.With(rec, f.Raw(rec)) == rec
  {
    RangeValues();
  }

  lemma OtherRaw(rec: PublisherInfoT, f: Field, raw: nat, g: Field)
    requires raw < Range(f.Width()) && f != g
    ensures g.Raw(f.With(rec, raw)) == g.Raw(rec)
  {
    RangeValues();
  }

  lemma {:induction false} SlotsOfWith(rec: PublisherInfoT, present: set<Field>, f: Field, raw: nat,
      order: seq<nat>, i: nat)
    requires raw < Range(f.Width()) && Distinct(order)
    requires i < |SlotsOf(rec, present, order)| && f in present
    requires SlotsOf(rec, present, order)[i] == Scalar(f.Id(), f.Width(), f.Raw(rec))
    ensures SlotsOf(f.With(rec, raw), present, order)
         == SlotsOf(rec, present, order)[i := Scalar(f.Id(), f.Width(), raw)]
    decreases |order|
  {
    hide SlotOf, Range;
    var one, rest := SlotOf(rec, present, order[0]), order[1..];
    var slot := Scalar(f.Id(), f.Width(), raw);
    SameSlot(rec, present, f, raw, order[0]);
    if i < |one| {
      assert one[0].id == f.Id();
      SlotsWithoutField(rec, present, f, raw, rest);
      assert (one + SlotsOf(rec, present, rest))[i := slot] == [slot] + SlotsOf(rec, present, rest);
    } else {
      assert SlotsOf(rec, present, order)[i] == SlotsOf(rec, present, rest)[i - |one|];
      SlotsComeFromOrder(rec, present, rest);
      assert f.Id() in rest;
      SlotsOfWith(rec, present, f, raw, rest, i - |one|);
      assert (one + SlotsOf(rec, present, rest))[i := slot] == one + SlotsOf(rec, present, rest)[i - |one| := slot];
    }
  }

  lemma {:induction false} SlotsWithoutField(rec: PublisherInfoT, present: set<Field>, f: Field, raw: nat,
      order: seq<nat>)
    requires raw < Range(f.Width()) && f.Id() !in order
    ensures SlotsOf(f.With(rec, raw), present, order) == SlotsOf(rec, present, order)
    decreases |order|
  {
    hide SlotOf, Range;
    if order != [] {
      SameSlot(rec, present, f, raw, order[0]);
      SlotsWithoutField(rec, present, f, raw, order[1..]);
    }
  }

  // so the buffer of the changed record is the old one with that scalar overwritten.
  lemma PackOfWith(rec: PublisherInfoT, present: set<Field>, f: Field, raw: nat, i: nat)
    requires raw < Range(f.Width()) && f in present
    requires ValidSlots(Slots(rec, present)) && i < |Slots(rec, present)|
    requires Slots(rec, present)[i] == Scalar(f.Id(), f.Width(), f.Raw(rec))
    ensures
      var loc := SlotLoc(Vectors(rec), Slots(rec, present), i);
      && loc <= |PackWith(rec, present)|
      && PackWith(f.With(rec, raw), present) ==
        Store(PackWith(rec, present), |PackWith(rec, present)| - loc, f.Width(), raw)
  {
    hide Tail, SlotsOf, Finished, SlotLoc, Store, Range;
    SameTail(rec, f, raw, 4);
    SlotsOfWith(rec, present, f, raw, ORDER, i);
    FinishedReplaced(Vectors(rec), Slots(rec, present), MinAlign(rec, present), i, raw);
  }

  lemma StoreInPrefix(data: seq<byte>, prefix: seq<byte>, i: nat, width: nat, n: nat)
    requires prefix <= data && i + width <= |prefix|
    ensures Store(data, i, width, n) == Store(prefix, i, width, n) + data[|prefix|..]
  {
    hide LittleEndian;
    assert data == prefix + data[|prefix|..];
    StoreLeft(prefix, data[|prefix|..], i, width, n);
  }

  lemma StoreLeft(a: seq<byte>, b: seq<byte>, i: nat, width: nat, n: nat)
    requires i + width <= |a|
    ensures Store(a + b, i, width, n) == Store(a, i, width, n) + b
  {
    hide LittleEndian;
    assert (a + b)[..i] == a[..i];
    assert (a + b)[i + width..] == a[i + width..] + b;
  }

  // Mutating a stored field gives, byte for byte, the buffer that holds the record
  // with only that field changed; mutating another one changes nothing.
  lemma MutateEffect(data: seq<byte>, rec: PublisherInfoT, present: set<Field>, f: Field, raw: nat)
    requires Holds(data, rec, present) && raw < Range(f.Width())
    ensures ScalarFits(data, f)
    ensures
      var (data', ok) := Mutate(data, f, raw);
      if f in present
      then ok && data' == PackWith(f.With(rec, raw), present) + data[|PackWith(rec, present)|..]
      else data' == data && ok == (raw == f.Default())
  {
    hide PackWith, Vectors, Slots, TableFits, Load, FieldOffset, Root, SlotLoc, Store, Range, FieldFits;
    ScalarRead(data, rec, present, f);
    if f in present {
      var i := PresentField(data, rec, present, f.Id());
      PackOfWith(rec, present, f, raw, i);
      var at := |PackWith(rec, present)| - SlotLoc(Vectors(rec), Slots(rec, present), i);
      StoreInPrefix(data, PackWith(rec, present), at, f.Width(), raw);
    } else {
      AbsentField(data, rec, present, f.Id());
    }
  }

  // A sequence of calls of mutators, each on the buffer the previous one left.
  datatype Call = Call(field: Field, raw: nat)

  ghost predicate Run(calls: seq<Call>, buffers: seq<seq<byte>>, results: seq<bool>) {
    && |buffers| == |calls| + 1 && |results| == |calls|
    && forall k | 0 <= k < |calls| ::
         && calls[k].raw < Range(calls[k].field.Width())
         && ScalarFits(buffers[k], calls[k].field)
         && Mutate(buffers[k], calls[k].field, calls[k].raw) == (buffers[k + 1], results[k])
  }

  // The record after the calls that succeeded.
  function Mutated(rec: PublisherInfoT, calls: seq<Call>, results: seq<bool>): PublisherInfoT
    requires |results| == |calls| && forall k | 0 <= k < |calls| :: calls[k].raw < Range(calls[k].field.Width())
    decreases |calls|
  {
    if calls == [] then rec
    else
      var last := |calls| - 1;
      var before := Mutated(rec, calls[..last], results[..last]);
      if results[last] then calls[last].field.With(before, calls[last].raw) else before
  }

  // What any sequence of mutations does: it succeeds exactly for the fields that
  // were stored (or with the default value), and the buffer keeps holding the
  // record that results, in the same layout.
  lemma {:induction false} MutationRun(rec: PublisherInfoT, present: set<Field>, calls: seq<Call>,
                                       buffers: seq<seq<byte>>, results: seq<bool>)
    requires Run(calls, buffers, results) && Holds(buffers[0], rec, present) && Elides(rec, present)
    ensures
      var after := Mutated(rec, calls, results);
      && Holds(buffers[|calls|], after, present) && Elides(after, present)
      && |buffers[|calls|]| == |buffers[0]|
      && forall k | 0 <= k < |calls| ::
           results[k] == (calls[k].field in present || calls[k].raw == calls[k].field.Default())
    decreases |calls|
  {
    hide Holds, Mutate, ScalarFits;
    if calls != [] {
      var last := |calls| - 1;
      assert Run(calls[..last], buffers[..last + 1], results[..last]);
      MutationRun(rec, present, calls[..last], buffers[..last + 1], results[..last]);
      var before := Mutated(rec, calls[..last], results[..last]);
      MutationStep(buffers[last], before, present, calls[last].field, calls[last].raw);
      forall k | 0 <= k < |calls|
        ensures results[k] == (calls[k].field in present || calls[k].raw == calls[k].field.Default())
      {
        if k < last {
          assert calls[..last][k] == calls[k] && results[..last][k] == results[k];
        } else {
          assert Mutate(buffers[k], calls[k].field, calls[k].raw) == (buffers[k + 1], results[k]);
        }
      }
    }
  }

  lemma MutationStep(data: seq<byte>, rec: PublisherInfoT, present: set<Field>, f: Field, raw: nat)
    requires Holds(data, rec, present) && Elides(rec, present) && raw < Range(f.Width())
    ensures ScalarFits(data, f)
    ensures
      var (data', ok) := Mutate(data, f, raw);
      var rec' := if ok then f.With(rec, raw) else rec;
      && ok == (f in present || raw == f.Default())
      && |data'| == |data|
      && Holds(data', rec', present) && Elides(rec', present)
  {
    hide PackWith, Mutate, ScalarFits, Range;
    MutateEffect(data, rec, present, f, raw);
    RawOfWith(rec, f, raw);
    forall g: Field | g !in present && g != f ensures g.Raw(f.With(rec, raw)) == g.Default() {
      OtherRaw(rec, f, raw, g);
    }
    if f in present {
      SamePackSize(rec, present, f, raw);
    }
  }

  lemma SamePackSize(rec: PublisherInfoT, present: set<Field>, f: Field, raw: nat)
    requires raw < Range(f.Width()) && f in present
    ensures |PackWith(f.With(rec, raw), present)| == |PackWith(rec, present)|
  {
    hide PackWith, Vectors, Slots, SlotLoc, Store, SlotOf, Range;
    SlotsFacts(rec, present);
    FieldSlot(rec, present, f);
    var i := PresentSlot(rec, present, f.Id());
    PackOfWith(rec, present, f, raw, i);
  }

  lemma FieldSlot(rec: PublisherInfoT, present: set<Field>, f: Field)
    requires f in present
    ensures f.Id() < 9 && SlotOf(rec, present, f.Id()) == [Scalar(f.Id(), f.Width(), f.Raw(rec))]
  {
  }

  // One mutation of a buffer that holds a record: the result says whether the field
  // reads as asked for afterwards, and nothing else of the record changes.
  lemma MutationLaw(data: seq<byte>, rec: PublisherInfoT, present: set<Field>, f: Field, raw: nat)
    requires Holds(data, rec, present) && Elides(rec, present) && raw < Range(f.Width())
    ensures Readable(data)
    ensures
      var (data', ok) := Mutate(data, f, raw);
      && Readable(data')
      && ok == (Get(data', f) == raw)
      && UnPack(data') == if ok then f.With(UnPack(data), raw) else UnPack(data)
  {
    hide Holds, Elides, Mutate, UnPack, Get, ScalarFits, VectorFits, Range;
    UnPackOfPackWith(data, rec, present);
    MutationStep(data, rec, present, f, raw);
    var (data', ok) := Mutate(data, f, raw);
    var rec' := if ok then f.With(rec, raw) else rec;
    UnPackOfPackWith(data', rec', present);
    ScalarRead(data', rec', present, f);
    RawOfWith(rec, f, raw);
    if !ok {
      FieldElided(rec, present, f);
    }
  }

  lemma FieldElided(rec: PublisherInfoT, present: set<Field>, f: Field)
    requires Elides(rec, present) && f !in present
    ensures f.Raw(rec) == f.Default()
  {
  }

  // A field can be given another value exactly when it was packed with a value other
  // than its default.
  lemma MutableIffStored(rec: PublisherInfoT, f: Field, raw: nat)
    requires |Pack(rec)| < 0x8000_0000 && raw < Range(f.Width()) && raw != f.Raw(rec)
    ensures ScalarFits(Pack(rec), f)
    ensures Mutate(Pack(rec), f, raw).1 <==> f.Raw(rec) != f.Default()
  {
    hide PackWith, Mutate, ScalarFits, Range;
    MutationStep(Pack(rec), rec, Stored(rec), f, raw);
  }

  // The schema's numbers: where the vtable holds each field's offset, and the widths.
  lemma SchemaOffsets()
    ensures VT(QueueSize.Id()) == 4 && VT(MessageSize.Id()) == 6 && VT(Pid.Id()) == 8 && VT(EventFd.Id()) == 10
    ensures VT(DmaBuffFd.Id()) == 12 && VT(LastIndex.Id()) == 14 && VT(IndexCyclePool.Id()) == 16
    ensures VT(TimestampPool.Id()) == 18 && VT(MsgIdPool.Id()) == 20
    ensures DmaBuffFd.Width() == IndexCyclePool.Width() == 4 && TimestampPool.Width() == MsgIdPool.Width() == 8
    ensures TimestampPool.Arity() == 2 && DmaBuffFd.Arity() == IndexCyclePool.Arity() == MsgIdPool.Arity() == 1
  {
  }

  // A reader that knows the schema's numbers only, ids, widths and defaults, gets the record's
  // scalars, whichever of them are stored.
  lemma ReadBySchema(data: seq<byte>, rec: PublisherInfoT, present: set<Field>)
    requires Holds(data, rec, present) && Elides(rec, present)
    ensures |data| >= 4
    ensures FieldFits(data, Root(data), 0, 8) && GetField(data, Root(data), 0, 8, 0) == rec.queueSize
    ensures FieldFits(data, Root(data), 1, 8) && GetField(data, Root(data), 1, 8, 0) == rec.messageSize
    ensures FieldFits(data, Root(data), 2, 4) && GetField(data, Root(data), 2, 4, 0) == rec.pid
    ensures FieldFits(data, Root(data), 3, 4) && GetField(data, Root(data), 3, 4, 0xffff_ffff) == FromInt32(rec.eventFd)
    ensures FieldFits(data, Root(data), 5, 4)
    ensures GetField(data, Root(data), 5, 4, 0xffff_ffff) == FromInt32(rec.lastIndex)
  {
    hide PackWith, Holds, GetField, FieldFits, Root;
    ScalarRead(data, rec, present, QueueSize);
    ScalarRead(data, rec, present, MessageSize);
    ScalarRead(data, rec, present, Pid);
    ScalarRead(data, rec, present, EventFd);
    ScalarRead(data, rec, present, LastIndex);
  }

  // A scalar that was not stored reads as 0, the descriptor and the index as -1.
  lemma AbsentReads(data: seq<byte>, rec: PublisherInfoT, present: set<Field>, f: Field)
    requires Holds(data, rec, present) && f !in present
    ensures ScalarFits(data, f)
    ensures
      match f
      case QueueSize => Get(data, f) == 0
      case MessageSize => Get(data, f) == 0
      case Pid => Get(data, f) == 0
      case EventFd => Get(data, f) == 0xffff_ffff && ToInt32(0xffff_ffff) == -1
      case LastIndex => Get(data, f) == 0xffff_ffff && ToInt32(0xffff_ffff) == -1
  {
    hide PackWith, Holds, Get, ScalarFits;
    ScalarRead(data, rec, present, f);
  }

  // Field by field, when another value is accepted.
  lemma MutableFields(rec: PublisherInfoT, f: Field, raw: nat)
    requires |Pack(rec)| < 0x8000_0000 && raw < Range(f.Width()) && raw != f.Raw(rec)
    ensures ScalarFits(Pack(rec), f)
    ensures
      Mutate(Pack(rec), f, raw).1 <==>
        match f
        case QueueSize => rec.queueSize != 0
        case MessageSize => rec.messageSize != 0
        case Pid => rec.pid != 0
        case EventFd => rec.eventFd != -1
        case LastIndex => rec.lastIndex != -1
  {
    hide Pack, Mutate, ScalarFits, Range;
    MutableIffStored(rec, f, raw);
  }

  // A record published with last_index -1 keeps it whatever mutators are called.
  lemma LastIndexIsFrozen(rec: PublisherInfoT, calls: seq<Call>, buffers: seq<seq<byte>>, results: seq<bool>)
    requires rec.lastIndex == -1 && |Pack(rec)| < 0x8000_0000
    requires Run(calls, buffers, results) && Pack(rec) <= buffers[0]
    ensures Readable(buffers[|calls|]) && UnPack(buffers[|calls|]).lastIndex == -1
    ensures forall k | 0 <= k < |calls| && calls[k].field == LastIndex :: results[k] == (calls[k].raw == FromInt32(-1))
  {
    hide PackWith, Mutate, ScalarFits, UnPack, Readable, Range;
    var present := Stored(rec);
    assert LastIndex !in present;
    MutationRun(rec, present, calls, buffers, results);
    var after := Mutated(rec, calls, results);
    UnPackOfPackWith(buffers[|calls|], after, present);
    FieldElided(after, present, LastIndex);
    RawOfLastIndex(after);
  }

  lemma RawOfLastIndex(rec: PublisherInfoT)
    ensures LastIndex.Raw(rec) == LastIndex.Default() ==> rec.lastIndex == -1
  {
  }

  // ---------- Alignment ----------

  lemma PackIsAligned(rec: PublisherInfoT, present: set<Field>)
    ensures |PackWith(rec, present)| % MinAlign(rec, present) == 0 && MinAlign(rec, present) in {4, 8}
  {
    hide Finished, Vectors, Slots;
    FinishedIsAligned(Vectors(rec), Slots(rec, present), MinAlign(rec, present));
  }

  // A stored scalar lies at a multiple of its width.
  lemma ScalarIsAligned(data: seq<byte>, rec: PublisherInfoT, present: set<Field>, f: Field)
    requires Holds(data, rec, present) && f in present
    ensures |data| >= 4 && FieldFits(data, Root(data), f.Id(), f.Width())
    ensures FieldOffset(data, Root(data), f.Id()) != 0
    ensures (Root(data) + FieldOffset(data, Root(data), f.Id())) % f.Width() == 0
  {
    hide PackWith, Vectors, Slots, FieldOffset, Root, FieldFits, Load, SlotLoc, SlotOf, MinAlign, Field.Width;
    FieldSlot(rec, present, f);
    WideIsAligned(rec, present, f);
    var i := PresentField(data, rec, present, f.Id());
    AlignedSlot(Vectors(rec), Slots(rec, present), i);
    PackIsAligned(rec, present);
    var loc := SlotLoc(Vectors(rec), Slots(rec, present), i);
    Difference(|PackWith(rec, present)|, loc, MinAlign(rec, present), f.Width());
  }

  lemma WideIsAligned(rec: PublisherInfoT, present: set<Field>, f: Field)
    requires f in present
    ensures f.Width() in {4, 8} && (f.Width() == 8 ==> MinAlign(rec, present) == 8)
  {
  }

  lemma Difference(total: nat, loc: nat, align: nat, width: nat)
    requires align in {4, 8} && width in {4, 8} && width <= align && total % align == 0
    requires loc <= total && loc % width == 0
    ensures (total - loc) % width == 0
  {
  }

  lemma AlignedSlot(tail: seq<byte>, slots: seq<Slot>, i: nat)
    requires ValidSlots(slots) && i < |slots| && slots[i].Width() in {4, 8}
    ensures SlotLoc(tail, slots, i) % slots[i].Width() == 0
  {
    hide Locations;
    SlotIsAligned(|tail|, slots, i);
  }

  // So do a vector's elements.
  lemma ElementsAreAligned(data: seq<byte>, rec: PublisherInfoT, present: set<Field>, v: VectorField)
    requires Holds(data, rec, present) && v.Count(rec) > 0
    ensures HasVector(data, v) && (VectorIndex(data, v) + 4) % v.Width() == 0
  {
    hide PackWith, Vectors, Slots, HasVector, VectorIndex, VectorLoc, MinAlign, VectorField.Width;
    var i := VectorFound(data, rec, present, v);
    AlignedVector(rec, v);
    VectorInPack(rec, present, v);
    PackIsAligned(rec, present);
    Difference(|PackWith(rec, present)|, VectorLoc(rec, v) - 4, MinAlign(rec, present), v.Width());
  }

  lemma AlignedVector(rec: PublisherInfoT, v: VectorField)
    requires v.Count(rec) > 0
    ensures v.Width() in {4, 8} && VectorLoc(rec, v) >= 4 && (VectorLoc(rec, v) - 4) % v.Width() == 0
  {
    hide VectorBytes, Tail;
    var tail := LastVector(rec, v);
    BodyIsAligned(|tail|, v.Raws(rec), v.Width(), v.Count(rec));
  }

  lemma BodyIsAligned(size: nat, raws: seq<nat>, width: nat, count: nat)
    requires width == 4 || width == 8
    ensures
      var n := size + |VectorBytes(size, raws, width, count)|;
      n >= 4 && (n - 4) % width == 0
  {
    hide VectorBytes, VectorPad, Pad, Elements;
    var n := |Elements(raws, width)|;
    VectorLength(size, raws, width, count);
    CountIsAligned(size, n, width);
    PaddedBody(size, n, width);
  }

  lemma VectorLength(size: nat, raws: seq<nat>, width: nat, count: nat)
    requires width > 0
    ensures
      var n, pad := |Elements(raws, width)|, VectorPad(size, |Elements(raws, width)|, width);
      |VectorBytes(size, raws, width, count)| == 4 + Pad(size + pad + n, 4) + n + pad
  {
    hide LittleEndian, Pad, Elements, VectorPad;
  }

  lemma PaddedBody(size: nat, n: nat, width: nat)
    requires width == 4 || width == 8
    ensures (size + VectorPad(size, n, width) + n) % width == 0
  {
    hide Pad;
    PadReaches(size + Pad(size + n, 4) + n, width);
  }

  lemma VectorInPack(rec: PublisherInfoT, present: set<Field>, v: VectorField)
    requires v.Count(rec) > 0
    ensures VectorLoc(rec, v) <= |PackWith(rec, present)|
    ensures v.Width() in {4, 8} && (v.Width() == 8 ==> MinAlign(rec, present) == 8)
  {
    hide Vectors, Slots, SlotsSize, VectorLoc, FinishBytes, EndTableBytes, Locations, SlotsBytes;
    var before, after := VectorParts(rec, v);
  }

  // ---------- Size ----------

  // The scalars in the first n vectors.
  function Scalars(rec: PublisherInfoT, n: nat): nat
    requires n <= 4
    decreases n
  {
    if n == 0 then 0 else Scalars(rec, n - 1) + |VectorAt(n - 1).Raws(rec)|
  }

  lemma {:induction false} TailSize(rec: PublisherInfoT, n: nat)
    requires n <= 4
    ensures |Tail(rec, n)| <= 20 * n + 8 * Scalars(rec, n)
    decreases n
  {
    hide Elements, LittleEndian, Zeros, VectorBytes;
    if n > 0 {
      TailSize(rec, n - 1);
      var v, size := VectorAt(n - 1), |Tail(rec, n - 1)|;
      VectorSizeBound(size, v.Raws(rec), v.Width(), v.Count(rec));
    }
  }

  lemma VectorSizeBound(size: nat, raws: seq<nat>, width: nat, count: nat)
    requires width in {4, 8}
    ensures |VectorBytes(size, raws, width, count)| <= 20 + 8 * |raws|
  {
    hide LittleEndian;
    var n := |Elements(raws, width)|;
    PadAligns(size + n, 4);
    PadAligns(size + Pad(size + n, 4) + n, width);
    CountIsAligned(size, n, width);
    assert n == |raws| * width <= 8 * |raws|;
  }

  // A packed record is little more than its vectors, so that every queue that can be
  // allocated fits FlatBuffers' size limit.
  lemma PackSize(rec: PublisherInfoT, present: set<Field>)
    ensures |PackWith(rec, present)| <= 268 + 8 * Scalars(rec, 4)
  {
    hide Tail, Scalars, Slots, LittleEndian, Zeros, EntryCount, Pad, SlotsBytes;
    var slots := Slots(rec, present);
    SlotsFacts(rec, present);
    EntriesAreFew(slots, 9);
    TailSize(rec, 4);
    SlotsAreSmall(|Vectors(rec)|, slots);
    FrameSize(Vectors(rec), slots, MinAlign(rec, present));
  }

  lemma FrameSize(tail: seq<byte>, slots: seq<Slot>, minAlign: nat)
    requires minAlign in {4, 8}
    ensures |Finished(tail, slots, minAlign)| <= SlotsSize(|tail|, slots) + VT(EntryCount(slots)) + 21
  {
    hide LittleEndian, EntryCount, Pad, SlotsBytes, VTableBytes, Locations;
    var size := SlotsSize(|tail|, slots);
    PadAligns(size, 4);
    var body := |Body(tail, slots)|;
    PadAligns(body + 4, minAlign);
    PadAligns(body + Pad(body + 4, minAlign), 4);
  }
}
