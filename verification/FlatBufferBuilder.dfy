// The builder the generated record code writes with: it grows a buffer at its front.
module FlatBufferBuilder {
  import opened Bytes
  import opened FlatBuffer

  function Max(a: nat, b: nat): nat {
    if a < b then b else a
  }

  class Builder {
    var buf: seq<byte>
    var minAlign: nat
    // The table under construction: where it starts, where its fields lie, and one past
    // its largest field id.
    var start: nat
    var locations: map<nat, nat>
    var count: nat

    constructor ()
      ensures buf == [] && minAlign == 1
    {
      buf, minAlign, start, locations, count := [], 1, 0, map[], 0;
    }

    // A table with these fields stands in front of `tail`.
    ghost predicate Holds(tail: seq<byte>, slots: seq<Slot>)
      reads this
    {
      && start == |tail| && buf == SlotsBytes(|tail|, slots) + tail
      && locations == Locations(|tail|, slots) && count == EntryCount(slots)
    }

    // A scalar, aligned to its width.
    method Push(n: nat, width: nat)
      modifies this`buf, this`minAlign
      ensures buf == LittleEndian(n, width) + (Zeros(Pad(|old(buf)|, width)) + old(buf))
      ensures minAlign == Max(old(minAlign), width)
    {
      minAlign := Max(minAlign, width);
      buf := Zeros(Pad(|buf|, width)) + buf;
      buf := LittleEndian(n, width) + buf;
    }

    // The elements go in back to front, and their count last.
    method CreateVector(raws: seq<nat>, width: nat, elements: nat) returns (loc: nat)
      requires width >= 4
      modifies this`buf, this`minAlign
      ensures buf == VectorBytes(|old(buf)|, raws, width, elements) + old(buf)
      ensures loc == |buf| && minAlign == Max(old(minAlign), width)
    {
      hide *;
      var bytes := |raws| * width;
      buf := Zeros(Pad(|buf| + bytes, 4)) + buf;
      buf := Zeros(Pad(|buf| + bytes, width)) + buf;
      ghost var padded := buf;
      var i := |raws|;
      ElementsFrom(raws, width, i, padded);
      while i > 0
        invariant 0 <= i <= |raws|
        invariant buf == Elements(raws[i..], width) + padded && minAlign == old(minAlign)
      {
        i := i - 1;
        ElementsFrom(raws, width, i, padded);
        buf := LittleEndian(raws[i], width) + buf;
      }
      ElementsFrom(raws, width, 0, padded);
      VectorMade(|old(buf)|, raws, width, elements, old(buf));
      minAlign := Max(minAlign, width);
      Push(elements, 4);
      MaxOver(old(minAlign), width);
      loc := |buf|;
    }

    method StartTable()
      modifies this`start, this`locations, this`count
      ensures Holds(buf, [])
    {
      start, locations, count := |buf|, map[], 0;
      assert SlotsBytes(|buf|, []) + buf == buf;
    }

    // The slot just pushed becomes a field of the table.
    method TrackField(ghost tail: seq<byte>, ghost slots: seq<Slot>, ghost slot: Slot, id: nat)
      requires start == |tail| && locations == Locations(|tail|, slots) && count == EntryCount(slots)
      requires slot.id == id && forall i | 0 <= i < |slots| :: slots[i].id != id
      requires buf == SlotBytes(SlotsSize(|tail|, slots), slot) + (SlotsBytes(|tail|, slots) + tail)
      modifies this`locations, this`count
      ensures Holds(tail, slots + [slot])
    {
      hide SlotsBytes, SlotBytes, Locations, EntryCount, Loc;
      locations := locations[id := |buf|];
      count := Max(count, id + 1);
      SlotsSnoc(|tail|, slots, slot);
    }

    // A scalar is left out when it is its field's default.
    method AddElement(id: nat, width: nat, raw: nat, default: nat, ghost tail: seq<byte>, ghost slots: seq<Slot>)
      requires Holds(tail, slots) && forall i | 0 <= i < |slots| :: slots[i].id != id
      modifies this`buf, this`minAlign, this`locations, this`count
      ensures Holds(tail, slots + if raw != default then [Scalar(id, width, raw)] else [])
      ensures minAlign == if raw != default then Max(old(minAlign), width) else old(minAlign)
    {
      hide SlotsBytes, Locations, EntryCount, LittleEndian, Zeros, Pad;
      if raw != default {
        Push(raw, width);
        ghost var slot := Scalar(id, width, raw);
        Pushed(SlotsBytes(|tail|, slots) + tail, raw, slot);
        TrackField(tail, slots, slot, id);
      } else {
        assert slots + [] == slots;
      }
    }

    // An offset is left out when there is nothing to refer to.
    method AddOffset(id: nat, target: nat, ghost tail: seq<byte>, ghost slots: seq<Slot>)
      requires Holds(tail, slots) && target <= |tail| && forall i | 0 <= i < |slots| :: slots[i].id != id
      modifies this`buf, this`minAlign, this`locations, this`count
      ensures Holds(tail, slots + if target != 0 then [Ref(id, target)] else [])
      ensures minAlign == if target != 0 then Max(old(minAlign), 4) else old(minAlign)
    {
      hide SlotsBytes, Locations, EntryCount, LittleEndian, Zeros, Pad;
      if target != 0 {
        var raw := |buf| + Pad(|buf|, 4) - target + 4;
        Push(raw, 4);
        ghost var slot := Ref(id, target);
        Pushed(SlotsBytes(|tail|, slots) + tail, raw, slot);
        TrackField(tail, slots, slot, id);
      } else {
        assert slots + [] == slots;
      }
    }

    // The vtable, in front of the word that leads back to it.
    method EndTable(ghost tail: seq<byte>, ghost slots: seq<Slot>) returns (root: nat)
      requires Holds(tail, slots)
      modifies this`buf, this`minAlign
      ensures buf == Body(tail, slots) && root == RootLoc(tail, slots) && minAlign == Max(old(minAlign), 4)
    {
      hide *;
      Fields(tail, slots);
      var size := |buf|;
      Push(VT(count), 4);
      root := |buf|;
      TableEnd(size, count, old(buf));
      buf := VTableBytes(locations, count, root, root - start) + buf;
      BodyMade(tail, slots, old(buf), buf);
    }

    lemma Fields(tail: seq<byte>, slots: seq<Slot>)
      requires Holds(tail, slots)
      ensures start == |tail| <= |buf| == SlotsSize(|tail|, slots) && buf == SlotsBytes(|tail|, slots) + tail
      ensures locations == Locations(|tail|, slots) && count == EntryCount(slots)
    {
      hide SlotsBytes, Locations, EntryCount;
    }

    method Finish(root: nat)
      requires root <= |buf|
      modifies this`buf, this`minAlign
      ensures buf == FinishBytes(|old(buf)|, root, old(minAlign)) + old(buf)
    {
      hide LittleEndian, Zeros, Pad;
      buf := Zeros(Pad(|buf| + 4, minAlign)) + buf;
      Push(|buf| + Pad(|buf|, 4) - root + 4, 4);
    }
  }

  // ---------- Facts about the pieces ----------

  lemma MaxOver(a: nat, width: nat)
    requires width >= 4
    ensures Max(Max(a, width), 4) == Max(a, width)
  {
  }

  lemma ElementsFrom(raws: seq<nat>, width: nat, i: nat, rest: seq<byte>)
    requires i <= |raws|
    ensures i == |raws| ==> Elements(raws[i..], width) + rest == rest
    ensures i < |raws| ==>
              Elements(raws[i..], width) + rest ==
                LittleEndian(raws[i], width) + (Elements(raws[i + 1..], width) + rest)
    ensures raws[0..] == raws
  {
    hide LittleEndian;
    if i < |raws| {
      assert raws[i..] == [raws[i]] + raws[i + 1..];
    } else {
      assert raws[i..] == [];
    }
  }

  lemma VectorMade(size: nat, raws: seq<nat>, width: nat, elements: nat, old': seq<byte>)
    requires size == |old'| && width > 0
    ensures
      var n := |raws| * width;
      var once := Zeros(Pad(size + n, 4)) + old';
      var twice := Zeros(Pad(|once| + n, width)) + once;
      var full := Elements(raws, width) + twice;
      LittleEndian(elements, 4) + (Zeros(Pad(|full|, 4)) + full) == VectorBytes(size, raws, width, elements) + old'
  {
    hide Elements, LittleEndian, Pad;
    var n := |raws| * width;
    var p, q := Pad(size + n, 4), Pad(size + Pad(size + n, 4) + n, width);
    var once := Zeros(p) + old';
    assert |once| + n == size + p + n;
    var twice := Zeros(q) + once;
    assert twice == Zeros(p + q) + old';
    var body := Elements(raws, width);
    var full := body + twice;
    assert |full| == size + VectorPad(size, n, width) + n;
    Reassociate(LittleEndian(elements, 4), Zeros(Pad(|full|, 4)), body, Zeros(p + q), old');
  }

  lemma Reassociate(a: seq<byte>, b: seq<byte>, c: seq<byte>, d: seq<byte>, e: seq<byte>)
    ensures a + (b + (c + (d + e))) == (a + (b + (c + d))) + e
  {
  }

  lemma Pushed(below: seq<byte>, raw: nat, slot: Slot)
    requires raw == slot.Raw(Loc(|below|, slot))
    ensures
      LittleEndian(raw, slot.Width()) + (Zeros(Pad(|below|, slot.Width())) + below) == SlotBytes(|below|, slot) + below
  {
    hide *;
    SlotIs(|below|, slot);
    Associate(LittleEndian(raw, slot.Width()), Zeros(Pad(|below|, slot.Width())), below);
  }

  lemma SlotIs(size: nat, slot: Slot)
    ensures
      SlotBytes(size, slot) == LittleEndian(slot.Raw(Loc(size, slot)), slot.Width()) + Zeros(Pad(size, slot.Width()))
  {
    hide LittleEndian, Zeros, Pad;
  }

  lemma Associate(a: seq<byte>, b: seq<byte>, c: seq<byte>)
    ensures a + (b + c) == (a + b) + c
  {
  }

  // A field more.
  lemma {:induction false} SlotsSnoc(size: nat, slots: seq<Slot>, slot: Slot)
    requires forall i | 0 <= i < |slots| :: slots[i].id != slot.id
    ensures
      SlotsBytes(size, slots + [slot]) == SlotBytes(SlotsSize(size, slots), slot) + SlotsBytes(size, slots)
    ensures
      Locations(size, slots + [slot]) == Locations(size, slots)[slot.id := Loc(SlotsSize(size, slots), slot)]
    ensures EntryCount(slots + [slot]) == Max(EntryCount(slots), slot.id + 1)
    decreases |slots|
  {
    hide LittleEndian, Zeros, Pad, SlotBytes;
    var all := slots + [slot];
    if slots == [] {
      assert all[1..] == [];
    } else {
      var loc := Loc(size, slots[0]);
      assert all[0] == slots[0] && all[1..] == slots[1..] + [slot];
      SlotsSnoc(loc, slots[1..], slot);
      assert SlotsSize(loc, slots[1..]) == SlotsSize(size, slots);
    }
  }

  lemma TableEnd(size: nat, count: nat, buf: seq<byte>)
    requires size == |buf|
    ensures |LittleEndian(VT(count), 4) + (Zeros(Pad(size, 4)) + buf)| == TableLoc(size)
  {
    hide LittleEndian, Pad;
  }

  lemma BodyMade(tail: seq<byte>, slots: seq<Slot>, fields: seq<byte>, buf: seq<byte>)
    requires fields == SlotsBytes(|tail|, slots) + tail
    requires
      var size, n := SlotsSize(|tail|, slots), EntryCount(slots);
      buf == VTableBytes(Locations(|tail|, slots), n, TableLoc(size), TableLoc(size) - |tail|) +
             (LittleEndian(VT(n), 4) + (Zeros(Pad(size, 4)) + fields))
    ensures buf == Body(tail, slots) && TableLoc(SlotsSize(|tail|, slots)) == RootLoc(tail, slots)
  {
    hide LittleEndian, Zeros, Pad, SlotsBytes, Locations, EntryCount, VTableBytes, TableLoc;
  }
}
