/** Little-endian fields of a byte string. */
module Wire {
  import opened Words

  function ReadU16(p: seq<byte>, at: nat): u16
    requires at + 2 <= |p|
  {
    p[at] as int + 0x100 * p[at + 1] as int
  }

  function ReadU32(p: seq<byte>, at: nat): u32
    requires at + 4 <= |p|
  {
    p[at] as int + 0x100 * p[at + 1] as int + 0x1_0000 * p[at + 2] as int + 0x100_0000 * p[at + 3] as int
  }

  function WriteU16(v: u16): (s: seq<byte>)
    ensures |s| == 2
  {
    [v % 0x100, v / 0x100]
  }

  function WriteU32(v: u32): (s: seq<byte>)
    ensures |s| == 4
  {
    [v % 0x100, v / 0x100 % 0x100, v / 0x1_0000 % 0x100, v / 0x100_0000]
  }

  lemma SliceOfSlice(p: seq<byte>, at: nat, n: nat, i: nat, m: nat)
    requires i + m <= n && at + n <= |p|
    ensures p[at..at + n][i..i + m] == p[at + i..at + i + m]
  {
    var x, y := p[at..at + n][i..i + m], p[at + i..at + i + m];
    forall k | 0 <= k < m ensures x[k] == y[k] {
      assert p[at..at + n][i + k] == p[at + (i + k)];
    }
  }

  /** A field written anywhere in a byte string reads back. */
  lemma ReadWriteU16(p: seq<byte>, at: nat, v: u16)
    requires at + 2 <= |p| && p[at..at + 2] == WriteU16(v)
    ensures ReadU16(p, at) == v
  {
    assert p[at] == p[at..at + 2][0] && p[at + 1] == p[at..at + 2][1];
  }

  lemma ReadWriteU32(p: seq<byte>, at: nat, v: u32)
    requires at + 4 <= |p| && p[at..at + 4] == WriteU32(v)
    ensures ReadU32(p, at) == v
  {
    var w := p[at..at + 4];
    assert p[at] == w[0] && p[at + 1] == w[1] && p[at + 2] == w[2] && p[at + 3] == w[3];
    var m := v / 0x100;
    assert v / 0x1_0000 == m / 0x100 && v / 0x100_0000 == m / 0x100 / 0x100;
  }

  lemma WriteReadU16(p: seq<byte>, at: nat)
    requires at + 2 <= |p|
    ensures WriteU16(ReadU16(p, at)) == p[at..at + 2]
  {
    var v := ReadU16(p, at);
    assert v / 0x100 == p[at + 1] && v % 0x100 == p[at];
  }

  lemma WriteReadU32(p: seq<byte>, at: nat)
    requires at + 4 <= |p|
    ensures WriteU32(ReadU32(p, at)) == p[at..at + 4]
  {
    var v := ReadU32(p, at);
    var m := p[at + 1] as int + 0x100 * p[at + 2] as int + 0x1_0000 * p[at + 3] as int;
    assert v / 0x100 == m && v % 0x100 == p[at];
    var n := p[at + 2] as int + 0x100 * p[at + 3] as int;
    assert m / 0x100 == n && m % 0x100 == p[at + 1];
    assert n / 0x100 == p[at + 3] && n % 0x100 == p[at + 2];
    assert v / 0x1_0000 == n && v / 0x100_0000 == p[at + 3];
  }
}
