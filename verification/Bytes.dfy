// Little-endian scalars, the encoding of every number in a shared info record
// and in an inotify event.
module Bytes {
  type byte = b: int | 0 <= b < 256

  // The number of distinct values of a k-byte scalar.
  function Range(k: nat): (r: nat)
    ensures r >= 1
  {
    if k == 0 then 1 else 256 * Range(k - 1)
  }

  lemma RangeValues()
    ensures Range(1) == 0x100 && Range(2) == 0x1_0000
    ensures Range(4) == 0x1_0000_0000 && Range(8) == 0x1_0000_0000_0000_0000
  {
    assert Range(1) == 0x100;
    assert Range(2) == 0x1_0000;
    assert Range(3) == 0x100_0000;
    assert Range(4) == 0x1_0000_0000;
    assert Range(5) == 0x100_0000_0000;
    assert Range(6) == 0x1_0000_0000_0000;
    assert Range(7) == 0x100_0000_0000_0000;
  }

  // Byte i of n.
  function ByteOf(n: nat, i: nat): byte
    decreases i
  {
    if i == 0 then n % 256 else ByteOf(n / 256, i - 1)
  }

  // The low k bytes of n, least significant first (a store of a k-byte scalar).
  function LittleEndian(n: nat, k: nat): (s: seq<byte>)
    ensures |s| == k
  {
    seq(k, i requires 0 <= i < k => ByteOf(n, i))
  }

  function FromLittleEndian(s: seq<byte>): nat {
    if s == [] then 0 else s[0] + 256 * FromLittleEndian(s[1..])
  }

  lemma {:induction false} StoreThenLoad(n: nat, k: nat)
    requires n < Range(k)
    ensures FromLittleEndian(LittleEndian(n, k)) == n
    decreases k
  {
    if k > 0 {
      assert n / 256 < Range(k - 1);
      StoreThenLoad(n / 256, k - 1);
      assert LittleEndian(n, k)[1..] == LittleEndian(n / 256, k - 1);
    }
  }

  lemma {:induction false} LoadInRange(s: seq<byte>)
    ensures FromLittleEndian(s) < Range(|s|)
  {
    if s != [] {
      LoadInRange(s[1..]);
    }
  }

  // The k-byte scalar stored at index i.
  function Load(data: seq<byte>, i: nat, k: nat): (n: nat)
    requires i + k <= |data|
    ensures n < Range(k)
  {
    LoadInRange(data[i..i + k]);
    FromLittleEndian(data[i..i + k])
  }

  // Overwriting the k-byte scalar at index i.
  function Store(data: seq<byte>, i: nat, k: nat, n: nat): (r: seq<byte>)
    requires i + k <= |data|
    ensures |r| == |data|
  {
    data[..i] + LittleEndian(n, k) + data[i + k..]
  }

  function Zeros(n: nat): (s: seq<byte>)
    ensures |s| == n
  {
    seq(n, _ => 0)
  }

  // 32-bit two's complement.
  type int32 = n: int | -0x8000_0000 <= n < 0x8000_0000
  type uint32 = n: int | 0 <= n < 0x1_0000_0000
  type uint64 = n: int | 0 <= n < 0x1_0000_0000_0000_0000

  function FromInt32(n: int32): uint32 {
    if n < 0 then n + 0x1_0000_0000 else n
  }

  function ToInt32(n: uint32): int32 {
    if n < 0x8000_0000 then n else n - 0x1_0000_0000
  }
}
