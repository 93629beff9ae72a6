// Packing a record with the builder, and the record object that its readers fill.
module PublisherInfoBuilder {
  import opened Bytes
  import opened FlatBuffer
  import opened FlatBufferBuilder
  import opened PublisherInfo
  import Laws = PublisherInfoLaws

  // The builder has seen nothing wider than 8 bytes, and 8 bytes exactly if `wide`.
  ghost predicate Aligned(minAlign: nat, wide: bool) {
    minAlign in {1, 4, 8} && (minAlign == 8 <==> wide)
  }

  // The first k fields of the order are in the table.
  ghost predicate Added(b: Builder, rec: PublisherInfoT, k: nat)
    requires k <= 9
    reads b
  {
    b.Holds(Vectors(rec), SlotsOf(rec, Stored(rec), ORDER[..k]))
  }

  lemma {:induction false} SlotsOfSnoc(rec: PublisherInfoT, present: set<Field>, order: seq<nat>, id: nat)
    ensures SlotsOf(rec, present, order + [id]) == SlotsOf(rec, present, order) + SlotOf(rec, present, id)
    decreases |order|
  {
    hide SlotOf;
    var all := order + [id];
    if order == [] {
      assert all[1..] == [];
      assert SlotsOf(rec, present, []) == [];
    } else {
      assert all[0] == order[0] && all[1..] == order[1..] + [id];
      SlotsOfSnoc(rec, present, order[1..], id);
    }
  }

  // The next field of the order is not in the table yet.
  lemma NextField(rec: PublisherInfoT, k: nat)
    requires k < 9
    ensures
      var slots := SlotsOf(rec, Stored(rec), ORDER[..k]);
      && SlotsOf(rec, Stored(rec), ORDER[..k + 1]) == slots + SlotOf(rec, Stored(rec), ORDER[k])
      && forall i | 0 <= i < |slots| :: slots[i].id != ORDER[k]
  {
    hide SlotsOf, SlotOf, Stored;
    assert ORDER[..k + 1] == ORDER[..k] + [ORDER[k]];
    SlotsOfSnoc(rec, Stored(rec), ORDER[..k], ORDER[k]);
    Laws.SlotsComeFromOrder(rec, Stored(rec), ORDER[..k]);
    assert ORDER[k] !in ORDER[..k];
  }

  // A scalar of 8 bytes is stored.
  predicate WideScalar(rec: PublisherInfoT, f: Field) {
    f.Width() == 8 && f in Stored(rec)
  }

  method AddScalar(b: Builder, rec: PublisherInfoT, f: Field, ghost k: nat, ghost wide: bool)
    requires k < 9 && ORDER[k] == f.Id() && Added(b, rec, k) && Aligned(b.minAlign, wide)
    modifies b`buf, b`minAlign, b`locations, b`count
    ensures Added(b, rec, k + 1)
    ensures Aligned(b.minAlign, wide || WideScalar(rec, f))
  {
    hide SlotsOf, Vectors, SlotOf;
    NextField(rec, k);
    ScalarSlot(rec, f);
    b.AddElement(f.Id(), f.Width(), f.Raw(rec), f.Default(), Vectors(rec), SlotsOf(rec, Stored(rec), ORDER[..k]));
  }

  lemma ScalarSlot(rec: PublisherInfoT, f: Field)
    ensures
      SlotOf(rec, Stored(rec), f.Id()) ==
        if f.Raw(rec) != f.Default() then [Scalar(f.Id(), f.Width(), f.Raw(rec))] else []
  {
  }

  method AddVector(b: Builder, rec: PublisherInfoT, v: VectorField, loc: nat, ghost k: nat, ghost wide: bool)
    requires k < 9 && ORDER[k] == v.Id() && Added(b, rec, k) && loc == VectorLoc(rec, v) && Aligned(b.minAlign, wide)
    modifies b`buf, b`minAlign, b`locations, b`count
    ensures Added(b, rec, k + 1)
    ensures Aligned(b.minAlign, wide)
  {
    hide SlotsOf, Vectors, SlotOf, VectorLoc, Stored;
    NextField(rec, k);
    VectorSlot(rec, v);
    b.AddOffset(v.Id(), loc, Vectors(rec), SlotsOf(rec, Stored(rec), ORDER[..k]));
  }

  lemma VectorSlot(rec: PublisherInfoT, v: VectorField)
    ensures SlotOf(rec, Stored(rec), v.Id()) == if VectorLoc(rec, v) != 0 then [Ref(v.Id(), VectorLoc(rec, v))] else []
    ensures VectorLoc(rec, v) <= |Vectors(rec)|
  {
    hide VectorLoc, Vectors, Stored;
    VectorInside(rec, v);
  }

  lemma VectorInside(rec: PublisherInfoT, v: VectorField)
    ensures VectorLoc(rec, v) <= |Vectors(rec)|
  {
    hide Vectors, Tail;
    if v.Count(rec) > 0 {
      var before, after := Laws.VectorParts(rec, v);
    }
  }

  // An empty vector is not created.
  method CreateVector(b: Builder, rec: PublisherInfoT, v: VectorField, ghost wide: bool) returns (loc: nat)
    requires b.buf == Tail(rec, v.Position()) && Aligned(b.minAlign, wide)
    modifies b`buf, b`minAlign
    ensures b.buf == Tail(rec, v.Position() + 1) && loc == VectorLoc(rec, v)
    ensures Aligned(b.minAlign, wide || (v.Width() == 8 && v.Count(rec) > 0))
  {
    hide VectorBytes;
    if v.Count(rec) == 0 {
      loc := 0;
    } else {
      loc := b.CreateVector(v.Raws(rec), v.Width(), v.Count(rec));
    }
  }

  predicate WideVectors(rec: PublisherInfoT) {
    rec.timestampPool != [] || rec.msgIdPool != []
  }

  lemma VectorsWide(rec: PublisherInfoT)
    ensures forall v: VectorField :: (v.Width() == 8 && v.Count(rec) > 0) <==>
              (v.TimestampPool? && rec.timestampPool != []) || (v.MsgIdPool? && rec.msgIdPool != [])
    ensures DmaBuffFd.Position() == 0 && IndexCyclePool.Position() == 1
    ensures TimestampPool.Position() == 2 && MsgIdPool.Position() == 3
    ensures Tail(rec, 0) == [] && Aligned(1, false)
  {
  }

  // The vectors, one in front of the other.
  method CreateVectors(b: Builder, rec: PublisherInfoT)
    returns (dmaBuffFd: nat, indexCyclePool: nat, timestampPool: nat, msgIdPool: nat)
    requires b.buf == [] && b.minAlign == 1
    modifies b`buf, b`minAlign
    ensures b.buf == Tail(rec, 4) && Aligned(b.minAlign, WideVectors(rec))
    ensures dmaBuffFd == VectorLoc(rec, DmaBuffFd) && indexCyclePool == VectorLoc(rec, IndexCyclePool)
    ensures timestampPool == VectorLoc(rec, TimestampPool) && msgIdPool == VectorLoc(rec, MsgIdPool)
  {
    hide Tail, VectorLoc;
    VectorsWide(rec);
    dmaBuffFd := CreateVector(b, rec, DmaBuffFd, false);
    indexCyclePool := CreateVector(b, rec, IndexCyclePool, false);
    timestampPool := CreateVector(b, rec, TimestampPool, false);
    msgIdPool := CreateVector(b, rec, MsgIdPool, rec.timestampPool != []);
  }

  predicate WideScalars(rec: PublisherInfoT) {
    WideScalar(rec, MessageSize) || WideScalar(rec, QueueSize)
  }

  lemma Order(rec: PublisherInfoT)
    ensures ORDER[0] == MessageSize.Id() && ORDER[1] == QueueSize.Id() && ORDER[2] == MsgIdPool.Id()
    ensures ORDER[3] == TimestampPool.Id() && ORDER[4] == IndexCyclePool.Id() && ORDER[5] == LastIndex.Id()
    ensures ORDER[6] == DmaBuffFd.Id() && ORDER[7] == EventFd.Id() && ORDER[8] == Pid.Id()
    ensures !WideScalar(rec, LastIndex) && !WideScalar(rec, EventFd) && !WideScalar(rec, Pid)
    ensures WideScalars(rec) == (WideScalar(rec, MessageSize) || WideScalar(rec, QueueSize))
  {
  }

  // The fields, those of 8 bytes first and then by falling id.
  method AddFields(b: Builder, rec: PublisherInfoT, dmaBuffFd: nat, indexCyclePool: nat, timestampPool: nat,
    msgIdPool: nat, ghost wide: bool)
    requires Added(b, rec, 0) && Aligned(b.minAlign, wide)
    requires dmaBuffFd == VectorLoc(rec, DmaBuffFd) && indexCyclePool == VectorLoc(rec, IndexCyclePool)
    requires timestampPool == VectorLoc(rec, TimestampPool) && msgIdPool == VectorLoc(rec, MsgIdPool)
    modifies b`buf, b`minAlign, b`locations, b`count
    ensures Added(b, rec, 9) && Aligned(b.minAlign, wide || WideScalars(rec))
  {
    hide *;
    Order(rec);
    AddScalar(b, rec, MessageSize, 0, wide);
    AddScalar(b, rec, QueueSize, 1, wide || WideScalar(rec, MessageSize));
    AddVector(b, rec, MsgIdPool, msgIdPool, 2, wide || WideScalars(rec));
    AddVector(b, rec, TimestampPool, timestampPool, 3, wide || WideScalars(rec));
    AddVector(b, rec, IndexCyclePool, indexCyclePool, 4, wide || WideScalars(rec));
    AddScalar(b, rec, LastIndex, 5, wide || WideScalars(rec));
    AddVector(b, rec, DmaBuffFd, dmaBuffFd, 6, wide || WideScalars(rec));
    AddScalar(b, rec, EventFd, 7, wide || WideScalars(rec));
    AddScalar(b, rec, Pid, 8, wide || WideScalars(rec));
  }

  // The vectors, the table and the way to it.
  method PackInto(rec: PublisherInfoT) returns (data: seq<byte>)
    ensures data == Pack(rec)
  {
    hide *;
    var b := new Builder();
    var dmaBuffFd, indexCyclePool, timestampPool, msgIdPool := CreateVectors(b, rec);
    b.StartTable();
    NoFields(b, rec);
    AddFields(b, rec, dmaBuffFd, indexCyclePool, timestampPool, msgIdPool, WideVectors(rec));
    AllFields(b, rec);
    FinishedIsPack(rec, b.minAlign);
    var root := b.EndTable(Vectors(rec), Slots(rec, Stored(rec)));
    b.Finish(root);
    data := b.buf;
  }

  lemma NoFields(b: Builder, rec: PublisherInfoT)
    requires b.buf == Tail(rec, 4) && b.Holds(b.buf, [])
    ensures Added(b, rec, 0)
  {
    assert ORDER[..0] == [];
  }

  lemma AllFields(b: Builder, rec: PublisherInfoT)
    requires Added(b, rec, 9)
    ensures b.Holds(Vectors(rec), Slots(rec, Stored(rec)))
  {
    assert ORDER[..9] == ORDER;
  }

  lemma FinishedIsPack(rec: PublisherInfoT, minAlign: nat)
    requires Aligned(minAlign, WideVectors(rec) || WideScalars(rec))
    ensures
      var tail, slots := Vectors(rec), Slots(rec, Stored(rec));
      && RootLoc(tail, slots) <= |Body(tail, slots)|
      && FinishBytes(|Body(tail, slots)|, RootLoc(tail, slots), Max(minAlign, 4)) + Body(tail, slots) == Pack(rec)
  {
    hide Vectors, Slots, Stored, SlotsBytes, Locations, EntryCount, LittleEndian, Pad, FinishBytes, VTableBytes;
    assert Max(minAlign, 4) == MinAlign(rec, Stored(rec));
  }
}
