// The record a publisher shares with its subscribers: packing, reading and
// mutating in place.
module PublisherInfo {
  import opened Bytes
  import opened FlatBuffer

  datatype TimeStamp = TimeStamp(sec: uint64, nsec: uint64)

  // The unpacked record.
  datatype PublisherInfoT = PublisherInfoT(
    queueSize: uint64,
    messageSize: uint64,
    pid: uint32,
    eventFd: int32,
    dmaBuffFd: seq<int32>,
    lastIndex: int32,
    indexCyclePool: seq<int32>,
    timestampPool: seq<TimeStamp>,
    msgIdPool: seq<uint64>)

  // ---------- Fields ----------

  datatype Field = QueueSize | MessageSize | Pid | EventFd | LastIndex {
    function Id(): nat {
      match this
      case QueueSize => 0
      case MessageSize => 1
      case Pid => 2
      case EventFd => 3
      case LastIndex => 5
    }

    function Width(): nat {
      if QueueSize? || MessageSize? then 8 else 4
    }

    // The number that stands for the schema's default.
    function Default(): nat {
      if EventFd? || LastIndex? then FromInt32(-1) else 0
    }

    function Raw(rec: PublisherInfoT): (raw: nat)
      ensures raw < Range(Width())
    {
      RangeValues();
      match this
      case QueueSize => rec.queueSize
      case MessageSize => rec.messageSize
      case Pid => rec.pid
      case EventFd => FromInt32(rec.eventFd)
      case LastIndex => FromInt32(rec.lastIndex)
    }

    function With(rec: PublisherInfoT, raw: nat): PublisherInfoT
      requires raw < Range(Width())
    {
      RangeValues();
      match this
      case QueueSize => rec.(queueSize := raw)
      case MessageSize => rec.(messageSize := raw)
      case Pid => rec.(pid := raw)
      case EventFd => rec.(eventFd := ToInt32(raw))
      case LastIndex => rec.(lastIndex := ToInt32(raw))
    }
  }

  // The vector fields, in the order their vectors are created.
  datatype VectorField = DmaBuffFd | IndexCyclePool | TimestampPool | MsgIdPool {
    function Id(): nat {
      match this
      case DmaBuffFd => 4
      case IndexCyclePool => 6
      case TimestampPool => 7
      case MsgIdPool => 8
    }

    function Width(): nat {
      if DmaBuffFd? || IndexCyclePool? then 4 else 8
    }

    // Scalars an element consists of.
    function Arity(): nat {
      if TimestampPool? then 2 else 1
    }

    function Position(): nat {
      match this
      case DmaBuffFd => 0
      case IndexCyclePool => 1
      case TimestampPool => 2
      case MsgIdPool => 3
    }

    // Elements of the vector, and the scalars they consist of.
    function Count(rec: PublisherInfoT): nat {
      match this
      case DmaBuffFd => |rec.dmaBuffFd|
      case IndexCyclePool => |rec.indexCyclePool|
      case TimestampPool => |rec.timestampPool|
      case MsgIdPool => |rec.msgIdPool|
    }

    function Raws(rec: PublisherInfoT): (raws: seq<nat>)
      ensures |raws| == Count(rec) * Arity()
      ensures forall i | 0 <= i < |raws| :: raws[i] < Range(Width())
    {
      RangeValues();
      match this
      case DmaBuffFd => RawInts(rec.dmaBuffFd)
      case IndexCyclePool => RawInts(rec.indexCyclePool)
      case TimestampPool => Flatten(rec.timestampPool)
      case MsgIdPool => RawLongs(rec.msgIdPool)
    }
  }

  function VectorAt(k: nat): (v: VectorField)
    requires k < 4
    ensures v.Position() == k
  {
    if k == 0 then DmaBuffFd else if k == 1 then IndexCyclePool else if k == 2 then TimestampPool else MsgIdPool
  }

  function RawInts(s: seq<int32>): (r: seq<nat>)
    ensures |r| == |s| && forall i | 0 <= i < |r| :: r[i] < 0x1_0000_0000
  {
    seq(|s|, i requires 0 <= i < |s| => FromInt32(s[i]))
  }

  function Ints(r: seq<nat>): (s: seq<int32>)
    requires forall i | 0 <= i < |r| :: r[i] < 0x1_0000_0000
  {
    seq(|r|, i requires 0 <= i < |r| => ToInt32(r[i]))
  }

  function RawLongs(s: seq<uint64>): (r: seq<nat>)
    ensures |r| == |s| && forall i | 0 <= i < |r| :: r[i] < 0x1_0000_0000_0000_0000
  {
    seq(|s|, i requires 0 <= i < |s| => s[i])
  }

  function Longs(r: seq<nat>): (s: seq<uint64>)
    requires forall i | 0 <= i < |r| :: r[i] < 0x1_0000_0000_0000_0000
  {
    seq(|r|, i requires 0 <= i < |r| => r[i])
  }

  function Flatten(s: seq<TimeStamp>): (r: seq<nat>)
    ensures |r| == 2 * |s| && forall i | 0 <= i < |r| :: r[i] < 0x1_0000_0000_0000_0000
  {
    if s == [] then [] else [s[0].sec, s[0].nsec] + Flatten(s[1..])
  }

  function Unflatten(r: seq<nat>): (s: seq<TimeStamp>)
    requires |r| % 2 == 0 && forall i | 0 <= i < |r| :: r[i] < 0x1_0000_0000_0000_0000
  {
    if r == [] then [] else [TimeStamp(r[0], r[1])] + Unflatten(r[2..])
  }

  // ---------- Packing ----------

  // The first n vectors, created one in front of the other; an empty vector is not
  // created at all.
  function Tail(rec: PublisherInfoT, n: nat): seq<byte>
    requires n <= 4
    decreases n
  {
    if n == 0 then []
    else
      var v, tail := VectorAt(n - 1), Tail(rec, n - 1);
      if v.Count(rec) == 0 then tail else VectorBytes(|tail|, v.Raws(rec), v.Width(), v.Count(rec)) + tail
  }

  function Vectors(rec: PublisherInfoT): seq<byte> {
    Tail(rec, 4)
  }

  // A vector's distance from the end, 0 when it does not exist.
  function VectorLoc(rec: PublisherInfoT, v: VectorField): nat {
    if v.Count(rec) == 0 then 0 else |Tail(rec, v.Position() + 1)|
  }

  // The order in which the fields are added, by id.
  const ORDER: seq<nat> := [1, 0, 8, 7, 6, 5, 4, 3, 2]

  function ScalarOf(id: nat): (f: Field)
    requires id <= 8 && id !in {4, 6, 7, 8}
    ensures f.Id() == id
  {
    if id == 0 then QueueSize else if id == 1 then MessageSize else if id == 2 then Pid
    else if id == 3 then EventFd else LastIndex
  }

  function VectorOf(id: nat): (v: VectorField)
    requires id in {4, 6, 7, 8}
    ensures v.Id() == id
  {
    if id == 4 then DmaBuffFd else if id == 6 then IndexCyclePool else if id == 7 then TimestampPool else MsgIdPool
  }

  // What adding one field puts into the table: nothing for a scalar that is not to
  // be present or a vector that does not exist.
  function SlotOf(rec: PublisherInfoT, present: set<Field>, id: nat): (s: seq<Slot>)
    ensures |s| <= 1 && forall i | 0 <= i < |s| :: s[i].id == id && s[i].Width() in {4, 8}
  {
    if id > 8 then []
    else if id in {4, 6, 7, 8} then
      var loc := VectorLoc(rec, VectorOf(id));
      if loc == 0 then [] else [Ref(id, loc)]
    else
      var f := ScalarOf(id);
      if f in present then [Scalar(id, f.Width(), f.Raw(rec))] else []
  }

  function SlotsOf(rec: PublisherInfoT, present: set<Field>, order: seq<nat>): seq<Slot>
    decreases |order|
  {
    if order == [] then [] else SlotOf(rec, present, order[0]) + SlotsOf(rec, present, order[1..])
  }

  function Slots(rec: PublisherInfoT, present: set<Field>): seq<Slot> {
    SlotsOf(rec, present, ORDER)
  }

  // The alignment of the widest scalar in the buffer.
  function MinAlign(rec: PublisherInfoT, present: set<Field>): nat {
    if rec.timestampPool != [] || rec.msgIdPool != [] || QueueSize in present || MessageSize in present then 8 else 4
  }

  // The buffer in which exactly the scalars in `present` are stored.
  function PackWith(rec: PublisherInfoT, present: set<Field>): seq<byte> {
    Finished(Vectors(rec), Slots(rec, present), MinAlign(rec, present))
  }

  // A scalar equal to its default is not stored.
  function Stored(rec: PublisherInfoT): (present: set<Field>)
    ensures forall f: Field :: f in present <==> f.Raw(rec) != f.Default()
  {
    set f: Field | f in {QueueSize, MessageSize, Pid, EventFd, LastIndex} && f.Raw(rec) != f.Default()
  }

  function Pack(rec: PublisherInfoT): seq<byte> {
    PackWith(rec, Stored(rec))
  }

  // ---------- Reading ----------

  function Root(data: seq<byte>): nat
    requires |data| >= 4
  {
    Load(data, 0, 4)
  }

  predicate ScalarFits(data: seq<byte>, f: Field) {
    |data| >= 4 && FieldFits(data, Root(data), f.Id(), f.Width())
  }

  // The getters of the scalar fields.
  function Get(data: seq<byte>, f: Field): (raw: nat)
    requires ScalarFits(data, f)
    ensures raw < Range(f.Width())
  {
    RangeValues();
    GetField(data, Root(data), f.Id(), f.Width(), f.Default())
  }

  // The mutators of the scalar fields.
  function Mutate(data: seq<byte>, f: Field, raw: nat): (r: (seq<byte>, bool))
    requires ScalarFits(data, f)
  {
    SetField(data, Root(data), f.Id(), f.Width(), raw, f.Default())
  }

  predicate HasVector(data: seq<byte>, v: VectorField) {
    |data| >= 4 && FieldFits(data, Root(data), v.Id(), 4) && FieldOffset(data, Root(data), v.Id()) != 0
  }

  // Where a vector that exists lies.
  function VectorIndex(data: seq<byte>, v: VectorField): nat
    requires HasVector(data, v)
  {
    var at := Root(data) + FieldOffset(data, Root(data), v.Id());
    at + Load(data, at, 4)
  }

  function VectorSize(data: seq<byte>, v: VectorField): nat
    requires HasVector(data, v) && VectorIndex(data, v) + 4 <= |data|
  {
    Load(data, VectorIndex(data, v), 4)
  }

  predicate VectorFits(data: seq<byte>, v: VectorField) {
    && |data| >= 4
    && FieldFits(data, Root(data), v.Id(), 4)
    && (HasVector(data, v) ==>
          && VectorIndex(data, v) + 4 <= |data|
          && VectorIndex(data, v) + 4 + VectorSize(data, v) * v.Arity() * v.Width() <= |data|)
  }

  // A vector's scalars; an absent vector reads as an empty one.
  function GetVector(data: seq<byte>, v: VectorField): (raws: seq<nat>)
    requires VectorFits(data, v)
    ensures (v.TimestampPool? ==> |raws| % 2 == 0) && forall i | 0 <= i < |raws| :: raws[i] < Range(v.Width())
  {
    if HasVector(data, v) then ReadElements(data, VectorIndex(data, v) + 4, v.Width(), VectorSize(data, v) * v.Arity())
    else []
  }

  predicate Readable(data: seq<byte>) {
    (forall f: Field :: ScalarFits(data, f)) && (forall v: VectorField :: VectorFits(data, v))
  }

  // The whole record as its readers see it.
  function UnPack(data: seq<byte>): PublisherInfoT
    requires Readable(data)
  {
    RangeValues();
    PublisherInfoT(
      Get(data, QueueSize), Get(data, MessageSize), Get(data, Pid), ToInt32(Get(data, EventFd)),
      Ints(GetVector(data, DmaBuffFd)), ToInt32(Get(data, LastIndex)), Ints(GetVector(data, IndexCyclePool)),
      Unflatten(GetVector(data, TimestampPool)), Longs(GetVector(data, MsgIdPool)))
  }
}
