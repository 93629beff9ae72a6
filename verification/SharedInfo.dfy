// The mapped info buffer: filled byte by byte, mutated in place by its publisher and
// unpacked by its readers.
module SharedInfo {
  import opened Bytes
  import opened FlatBuffer
  import opened PublisherInfo

  // One scalar, byte by byte.
  method StoreScalar(buffer: array<byte>, i: nat, width: nat, n: nat)
    requires i + width <= buffer.Length
    modifies buffer
    ensures buffer[..] == Store(old(buffer[..]), i, width, n)
  {
    hide ByteOf;
    var k, rest := 0, n;
    assert LittleEndian(n, width)[0..] == LittleEndian(rest, width);
    while k < width
      invariant 0 <= k <= width && |LittleEndian(n, width)| == width
      invariant LittleEndian(n, width)[k..] == LittleEndian(rest, width - k)
      invariant forall j | 0 <= j < buffer.Length :: buffer[j] ==
                  if i <= j < i + k then LittleEndian(n, width)[j - i] else old(buffer[j])
    {
      LowByte(rest, width - k);
      assert LittleEndian(n, width)[k] == LittleEndian(n, width)[k..][0];
      assert LittleEndian(n, width)[k + 1..] == LittleEndian(n, width)[k..][1..];
      buffer[i + k] := rest % 256;
      rest := rest / 256;
      k := k + 1;
    }
    assert buffer[..] == Store(old(buffer[..]), i, width, n);
  }

  lemma LowByte(n: nat, k: nat)
    requires k > 0
    ensures LittleEndian(n, k)[0] == n % 256 && LittleEndian(n, k)[1..] == LittleEndian(n / 256, k - 1)
  {
  }

  class InfoBuffer {
    const buffer: array<byte>

    constructor (size: nat)
      ensures fresh(buffer) && buffer[..] == Zeros(size)
    {
      buffer := new byte[size](_ => 0);
    }

    // The record's bytes, one after the other.
    method Fill(bytes: seq<byte>)
      requires |bytes| <= buffer.Length
      modifies buffer
      ensures buffer[..] == bytes + old(buffer[..])[|bytes|..]
    {
      var i := 0;
      while i < |bytes|
        invariant 0 <= i <= |bytes|
        invariant buffer[..i] == bytes[..i]
        invariant buffer[i..] == old(buffer[..])[i..]
      {
        buffer[i] := bytes[i];
        i := i + 1;
      }
      assert bytes[..i] == bytes;
      assert buffer[..] == buffer[..i] + buffer[i..];
    }

    // A stored scalar is overwritten where it is; one that is not stored is not.
    method MutateField(f: Field, raw: nat) returns (ok: bool)
      requires ScalarFits(buffer[..], f)
      modifies buffer
      ensures (buffer[..], ok) == Mutate(old(buffer[..]), f, raw)
    {
      hide FieldOffset, Store;
      ghost var data := buffer[..];
      var table := Root(buffer[..]);
      var off := FieldOffset(buffer[..], table, f.Id());
      if off != 0 {
        StoreScalar(buffer, table + off, f.Width(), raw);
        ok := true;
      } else {
        ok := raw == f.Default();
      }
    }
  }

  // ---------- Unpacking ----------

  lemma {:induction false} ReadElementsAt(data: seq<byte>, i: nat, width: nat, n: nat, k: nat)
    requires k < n && i + n * width <= |data|
    ensures i + k * width + width <= |data|
    ensures ReadElements(data, i, width, n)[k] == Load(data, i + k * width, width)
    decreases n
  {
    hide Load;
    assert n * width == width + (n - 1) * width;
    if k > 0 {
      ReadElementsAt(data, i + width, width, n - 1, k - 1);
      assert k * width == width + (k - 1) * width;
    }
  }

  // The scalars of a vector, element by element; nothing when there is no vector.
  method ReadVector(data: seq<byte>, v: VectorField) returns (raws: seq<nat>)
    requires VectorFits(data, v)
    ensures raws == GetVector(data, v)
  {
    hide HasVector, VectorIndex, VectorSize, Load;
    raws := [];
    if HasVector(data, v) {
      var at, n := VectorIndex(data, v) + 4, VectorSize(data, v) * v.Arity();
      var i := 0;
      while i < n
        invariant 0 <= i <= n == |GetVector(data, v)|
        invariant raws == GetVector(data, v)[..i]
      {
        ReadElementsAt(data, at, v.Width(), n, i);
        raws := raws + [Load(data, at + i * v.Width(), v.Width())];
        i := i + 1;
      }
    }
  }

  // Every field of the record, absent ones with what absence stands for.
  method UnPackTo(data: seq<byte>) returns (info: PublisherInfoT)
    requires Readable(data)
    ensures info == UnPack(data)
  {
    hide Get, GetVector, ScalarFits, VectorFits;
    RangeValues();
    var queueSize, messageSize, pid := Get(data, QueueSize), Get(data, MessageSize), Get(data, Pid);
    var eventFd, lastIndex := ToInt32(Get(data, EventFd)), ToInt32(Get(data, LastIndex));
    var dmaBuffFd := ReadVector(data, DmaBuffFd);
    var indexCyclePool := ReadVector(data, IndexCyclePool);
    var timestampPool := ReadVector(data, TimestampPool);
    var msgIdPool := ReadVector(data, MsgIdPool);
    info := PublisherInfoT(queueSize, messageSize, pid, eventFd, Ints(dmaBuffFd), lastIndex, Ints(indexCyclePool),
      Unflatten(timestampPool), Longs(msgIdPool));
  }
}
