// One batch of inotify events as the kernel lays it out, and the subscriber's walk
// over it: variable-length records of a 16-byte header and the name bytes.
module InotifyBatch {
  import opened Wrappers
  import opened Bytes

  const IN_CLOSE_WRITE: uint32 := 0x8
  const IN_DELETE: uint32 := 0x200
  const IN_DELETE_SELF: uint32 := 0x400
  const EVENT_SIZE: nat := 16

  // The name bytes include the zeros that end and pad the name.
  datatype Record = Record(wd: int32, mask: uint32, cookie: uint32, name: seq<byte>)

  // A record the kernel produces: a name is zero-terminated within its bytes.
  ghost predicate WellFormed(r: Record) {
    |r.name| < 0x1_0000_0000 && (r.name != [] ==> 0 in r.name)
  }

  function Encode(r: Record): (s: seq<byte>)
    ensures |s| == EVENT_SIZE + |r.name|
  {
    LittleEndian(FromInt32(r.wd), 4) + (LittleEndian(r.mask, 4) + (LittleEndian(r.cookie, 4) +
    (LittleEndian(|r.name|, 4) + r.name)))
  }

  function EncodeAll(records: seq<Record>): seq<byte> {
    if records == [] then [] else Encode(records[0]) + EncodeAll(records[1..])
  }

  // The name as a C string.
  function CName(name: seq<byte>): string {
    if name == [] || name[0] == 0 then "" else [name[0] as char] + CName(name[1..])
  }

  // ---------- What the subscriber does with a record ----------

  predicate DeletesSelf(mask: uint32) {
    (mask / IN_DELETE_SELF) % 2 == 1
  }

  // A record that makes the subscriber start over.
  predicate Restarts(r: Record) {
    DeletesSelf(r.mask) || (r.name != [] && r.mask == IN_DELETE)
  }

  // A record that names a finished info file.
  predicate Announces(r: Record) {
    r.name != [] && r.mask == IN_CLOSE_WRITE
  }

  datatype Outcome = Finished | Restarted | Failed

  // The bit that tells of the directory's end, whatever the other bits.
  lemma DirectoryEndBit(hi: nat, lo: nat)
    requires lo < 0x400 && 0x800 * hi + 0x400 + lo < 0x1_0000_0000
    ensures DeletesSelf(0x800 * hi + 0x400 + lo) && !DeletesSelf(0x800 * hi + lo)
  {
    Quotient(2 * hi + 1, lo);
    Quotient(2 * hi, lo);
  }

  lemma Quotient(q: nat, lo: nat)
    requires lo < 0x400
    ensures (0x400 * q + lo) / 0x400 == q
  {
  }

  // What the masks of the kernel mean to the subscriber: 0x400 starts over, with a name or
  // without; with a name, 0x200 alone starts over and 0x8 alone announces; nothing else does.
  lemma MasksMean(r: Record)
    ensures r.mask == 0x400 || r.mask == 0x4000_0400 ==> Restarts(r)
    ensures r.name != [] ==> (Announces(r) <==> r.mask == 0x8) && (r.mask == 0x200 ==> Restarts(r))
    ensures r.name == [] ==> !Announces(r)
    ensures r.mask in {0x8, 0x8000, 0x4000_0200, 0x4000_0008} || (r.name == [] && r.mask == 0x200) ==> !Restarts(r)
  {
    DirectoryEndBit(0, 0);
    DirectoryEndBit(0, 8);
    DirectoryEndBit(0, 0x200);
    DirectoryEndBit(0x10, 0);
    DirectoryEndBit(0x8_0000, 0);
    DirectoryEndBit(0x8_0000, 8);
    DirectoryEndBit(0x8_0000, 0x200);
  }

  // The first record with a property, or the number of records.
  function FirstRestart(records: seq<Record>): (k: nat)
    ensures k <= |records|
    ensures forall i | 0 <= i < k :: !Restarts(records[i])
    ensures k < |records| ==> Restarts(records[k])
  {
    if records == [] || Restarts(records[0]) then 0
    else
      var k := FirstRestart(records[1..]);
      assert forall i | 1 <= i < k + 1 :: records[i] == records[1..][i - 1];
      k + 1
  }

  function FirstAnnounce(records: seq<Record>): (k: nat)
    ensures k <= |records|
    ensures forall i | 0 <= i < k :: !Announces(records[i])
    ensures k < |records| ==> Announces(records[k])
  {
    if records == [] || Announces(records[0]) then 0
    else
      var k := FirstAnnounce(records[1..]);
      assert forall i | 1 <= i < k + 1 :: records[i] == records[1..][i - 1];
      k + 1
  }

  // How many records the walk looks at.
  function Visited(records: seq<Record>, attached: bool, succeeds: bool): (n: nat)
    ensures n <= |records|
  {
    var k, j := FirstRestart(records), FirstAnnounce(records);
    if !attached && !succeeds && j < k then j + 1
    else if k < |records| then k + 1 else |records|
  }

  // Where record k starts.
  function Offset(records: seq<Record>, k: nat): nat
    requires k <= |records|
  {
    if k == 0 then 0 else Offset(records, k - 1) + EVENT_SIZE + |records[k - 1].name|
  }

  // Where the first n records start.
  function Offsets(records: seq<Record>, n: nat): (s: seq<nat>)
    requires n <= |records|
    ensures |s| == n && forall k | 0 <= k < n :: s[k] == Offset(records, k)
  {
    seq(n, k requires 0 <= k < n => Offset(records, k))
  }

  lemma OffsetStep(records: seq<Record>, k: nat)
    requires k < |records|
    ensures Offset(records, k + 1) == Offset(records, k) + EVENT_SIZE + |records[k].name|
    ensures Offsets(records, k + 1) == Offsets(records, k) + [Offset(records, k)]
  {
  }

  class Subscriber {
    // The name of the info file the subscriber is attached to.
    var attached: Option<string>

    // The walk over one batch.  `succeeds` is the kernel's answer to an attempt to
    // attach, of which there is at most one; a failed attempt ends the subscriber.
    // The positions are those at which the walk looks for a record.
    method Walk(buffer: seq<byte>, succeeds: bool, ghost records: seq<Record>)
      returns (outcome: Outcome, ghost positions: seq<nat>)
      requires buffer == EncodeAll(records) && forall i | 0 <= i < |records| :: WellFormed(records[i])
      modifies this
      ensures outcome == OutcomeOf(records, old(attached).Some?, succeeds)
      ensures attached == AttachedAfter(records, old(attached), succeeds)
      ensures positions == Offsets(records, Visited(records, old(attached).Some?, succeeds))
    {
      hide Encode, EncodeAll, CName, Load, SoFar, OutcomeOf, AttachedAfter, Visited, Offset, Offsets;
      var length := |buffer|;
      var i := 0;
      ghost var k := 0;
      positions := [];
      assert records[0..] == records && buffer[0..] == buffer;
      StartWalk(records, attached, succeeds);
      while i < length
        invariant 0 <= i <= length && 0 <= k <= |records|
        invariant buffer[i..] == EncodeAll(records[k..])
        invariant i == Offset(records, k)
        invariant positions == Offsets(records, k)
        invariant SoFar(records, k, old(attached), attached, succeeds)
        decreases length - i
      {
        NextRecord(buffer, i, records[k..]);
        assert records[k..][0] == records[k] && records[k..][1..] == records[k + 1..];
        PassRecord(records, k, old(attached), attached, succeeds);
        OffsetStep(records, k);
        positions := positions + [i];
        k := k + 1;
        var mask := Load(buffer, i + 4, 4);
        var len := Load(buffer, i + 12, 4);
        if DeletesSelf(mask) {
          return Restarted, positions;
        }
        if len != 0 {
          if mask == IN_CLOSE_WRITE {
            if attached.None? {
              if !succeeds {
                return Failed, positions;
              }
              attached := Some(CName(buffer[i + EVENT_SIZE..i + EVENT_SIZE + len]));
            }
          } else if mask == IN_DELETE {
            return Restarted, positions;
          }
          i := i + EVENT_SIZE + len;
        } else {
          i := i + EVENT_SIZE;
          continue;
        }
      }
      NoMoreRecords(records[k..]);
      EndWalk(records, old(attached), attached, succeeds);
      outcome := Finished;
    }
  }

  // What the walk knows before record k.
  ghost predicate SoFar(records: seq<Record>, k: nat, before: Option<string>, now: Option<string>, succeeds: bool) {
    var j := FirstAnnounce(records);
    && k <= FirstRestart(records)
    && now == (if before.Some? || j >= k then before else Some(CName(records[j].name)))
    && (before.None? && j < k ==> succeeds)
  }

  lemma StartWalk(records: seq<Record>, before: Option<string>, succeeds: bool)
    ensures Offset(records, 0) == 0 && Offsets(records, 0) == []
    ensures SoFar(records, 0, before, before, succeeds)
  {
  }

  lemma EndWalk(records: seq<Record>, before: Option<string>, now: Option<string>, succeeds: bool)
    requires SoFar(records, |records|, before, now, succeeds)
    ensures OutcomeOf(records, before.Some?, succeeds) == Finished
    ensures AttachedAfter(records, before, succeeds) == now
    ensures Visited(records, before.Some?, succeeds) == |records|
  {
    hide CName;
  }

  // One more record: it ends the walk, or the walk goes on.
  lemma PassRecord(records: seq<Record>, k: nat, before: Option<string>, now: Option<string>, succeeds: bool)
    requires k < |records| && SoFar(records, k, before, now, succeeds)
    ensures
      var r := records[k];
      if Restarts(r) || (Announces(r) && now.None? && !succeeds) then
        && OutcomeOf(records, before.Some?, succeeds) == (if Restarts(r) then Restarted else Failed)
        && AttachedAfter(records, before, succeeds) == now
        && Visited(records, before.Some?, succeeds) == k + 1
      else
        SoFar(records, k + 1, before, if Announces(r) && now.None? then Some(CName(r.name)) else now, succeeds)
  {
    hide CName;
  }

  // What the walk finds where a record starts.
  lemma NextRecord(buffer: seq<byte>, i: nat, rest: seq<Record>)
    requires i < |buffer| && buffer[i..] == EncodeAll(rest) && (rest != [] ==> WellFormed(rest[0]))
    ensures rest != []
    ensures
      var r := rest[0];
      && i + EVENT_SIZE + |r.name| <= |buffer|
      && Load(buffer, i + 4, 4) == r.mask
      && Load(buffer, i + 12, 4) == |r.name|
      && buffer[i + EVENT_SIZE..i + EVENT_SIZE + |r.name|] == r.name
      && buffer[i + EVENT_SIZE + |r.name|..] == EncodeAll(rest[1..])
  {
    hide LittleEndian, EncodeAll;
    Unfold(rest);
    assert |buffer[i..]| > 0;
    var r := rest[0];
    var a, b, c, d := LittleEndian(FromInt32(r.wd), 4), LittleEndian(r.mask, 4), LittleEndian(r.cookie, 4),
      LittleEndian(|r.name|, 4);
    Header(buffer, i, a, b, c, d, r.name, EncodeAll(rest[1..]));
    RangeValues();
    LoadAt(buffer, i + 4, r.mask);
    LoadAt(buffer, i + 12, |r.name|);
  }

  lemma Unfold(rest: seq<Record>)
    ensures rest == [] ==> EncodeAll(rest) == []
    ensures rest != [] ==> EncodeAll(rest) == Encode(rest[0]) + EncodeAll(rest[1..])
  {
    hide Encode;
  }

  lemma LoadAt(buffer: seq<byte>, i: nat, n: nat)
    requires i + 4 <= |buffer| && buffer[i..i + 4] == LittleEndian(n, 4) && n < 0x1_0000_0000
    ensures Load(buffer, i, 4) == n
  {
    RangeValues();
    StoreThenLoad(n, 4);
  }

  lemma Header(buffer: seq<byte>, i: nat, a: seq<byte>, b: seq<byte>, c: seq<byte>, d: seq<byte>, name: seq<byte>,
      rest: seq<byte>)
    requires |a| == |b| == |c| == |d| == 4 && i <= |buffer|
    requires buffer[i..] == (a + (b + (c + (d + name)))) + rest
    ensures i + 16 + |name| <= |buffer|
    ensures buffer[i + 4..i + 8] == b && buffer[i + 12..i + 16] == d
    ensures buffer[i + 16..i + 16 + |name|] == name && buffer[i + 16 + |name|..] == rest
  {
    var tail := buffer[i..];
    assert forall k | 0 <= k < |tail| :: tail[k] == buffer[i + k];
    assert tail == a + b + c + d + name + rest;
    assert tail[4..8] == b && tail[12..16] == d && tail[16..16 + |name|] == name && tail[16 + |name|..] == rest;
  }

  lemma NoMoreRecords(records: seq<Record>)
    requires EncodeAll(records) == []
    ensures records == []
  {
  }

  function OutcomeOf(records: seq<Record>, attached: bool, succeeds: bool): Outcome {
    if !attached && !succeeds && FirstAnnounce(records) < FirstRestart(records) then Failed
    else if FirstRestart(records) < |records| then Restarted
    else Finished
  }

  // The first announced file before a restart, when there was none yet.
  function AttachedAfter(records: seq<Record>, attached: Option<string>, succeeds: bool): Option<string> {
    var j := FirstAnnounce(records);
    if attached.Some? || j >= FirstRestart(records) || !succeeds then attached
    else if j < |records| then Some(CName(records[j].name)) else attached
  }

  // A record ends the walk: by starting over, or by an attempt to attach that fails.
  predicate EndsWalk(r: Record, attached: bool, succeeds: bool) {
    Restarts(r) || (!attached && !succeeds && Announces(r))
  }

  // The walk looks at every record up to the first that ends it, or at all.
  lemma VisitedIs(records: seq<Record>, attached: bool, succeeds: bool)
    ensures
      var n := Visited(records, attached, succeeds);
      && (forall i | 0 <= i < n - 1 :: !EndsWalk(records[i], attached, succeeds))
      && (n < |records| ==> n > 0 && EndsWalk(records[n - 1], attached, succeeds))
  {
  }

  // Where a record starts is the length of the records before it.
  lemma {:induction false} OffsetIsLength(records: seq<Record>, k: nat)
    requires k <= |records|
    ensures Offset(records, k) == |EncodeAll(records[..k])|
    decreases k
  {
    hide Encode;
    if k == 0 {
      assert records[..0] == [];
    } else {
      OffsetIsLength(records, k - 1);
      assert records[..k] == records[..k - 1] + [records[k - 1]];
      EncodeAllSnoc(records[..k - 1], records[k - 1]);
    }
  }

  lemma {:induction false} EncodeAllSnoc(records: seq<Record>, r: Record)
    ensures |EncodeAll(records + [r])| == |EncodeAll(records)| + EVENT_SIZE + |r.name|
    decreases |records|
  {
    hide Encode;
    var all := records + [r];
    if records == [] {
      assert all[1..] == [];
      assert EncodeAll([]) == [];
    } else {
      assert all[0] == records[0] && all[1..] == records[1..] + [r];
      EncodeAllSnoc(records[1..], r);
    }
  }

  // ---------- The kernel's side ----------

  // A file name as the kernel stores it: its characters and at least one zero.
  function StoredName(name: string, padding: nat): seq<byte>
    requires forall i | 0 <= i < |name| :: 0 < name[i] as int < 256
  {
    seq(|name|, i requires 0 <= i < |name| => name[i] as int) + Zeros(padding + 1)
  }

  lemma {:induction false} CNameOfStored(name: string, padding: nat)
    requires forall i | 0 <= i < |name| :: 0 < name[i] as int < 256
    ensures CName(StoredName(name, padding)) == name
    ensures 0 in StoredName(name, padding) && StoredName(name, padding) != []
    decreases |name|
  {
    var stored := StoredName(name, padding);
    assert stored[|name|] == 0;
    if name != "" {
      CNameOfStored(name[1..], padding);
      assert stored[1..] == StoredName(name[1..], padding);
      assert stored[0] as char == name[0];
    }
  }
}
