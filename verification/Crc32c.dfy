/** CRC-32C (RFC 3720, section 12.1) as a 32-bit shift register, and the bursts it is bound to detect. */
module Crc32c {
  import opened Words
  import opened Wire

  /** A register: 32 bits, the least significant first. */
  type Reg = c: seq<bool> | |c| == 32 witness seq(32, _ => false)

  /** Bit i of a number. */
  function Bit(n: nat, i: nat): bool {
    if i == 0 then n % 2 == 1 else Bit(n / 2, i - 1)
  }

  /** The register that holds a number below 2^32; a byte occupies its low eight bits. */
  function Number(n: nat): (c: seq<bool>)
    ensures |c| == 32
  {
    seq(32, i requires 0 <= i < 32 => Bit(n, i))
  }

  function Xor(a: Reg, b: Reg): Reg {
    seq(32, i requires 0 <= i < 32 => a[i] != b[i])
  }

  const POLYNOMIAL: Reg := Number(0x82F6_3B78)
  const ONES: Reg := Number(0xFFFF_FFFF)

  /** One shift: `(crc >> 1) ^ (polynomial & mask)` with a mask of copies of the low bit. */
  function Shift(c: Reg): Reg {
    Xor(c[1..] + [false], Masked(c[0]))
  }

  /** The polynomial under a mask of copies of one bit. */
  function Masked(bit: bool): Reg {
    seq(32, i requires 0 <= i < 32 => bit && POLYNOMIAL[i])
  }

  function Shifts(c: Reg, n: nat): Reg
    decreases n
  {
    if n == 0 then c else Shifts(Shift(c), n - 1)
  }

  const BITS: nat := 8

  function ByteStep(c: Reg, b: byte): Reg {
    Shifts(Xor(c, Number(b)), BITS)
  }

  /** The register after a byte string. */
  function Register(c: Reg, s: seq<byte>): Reg
    decreases |s|
  {
    if s == [] then c else Register(ByteStep(c, s[0]), s[1..])
  }

  function Power(n: nat): nat {
    if n == 0 then 1 else 2 * Power(n - 1)
  }

  /** The number a bit string stands for. */
  function Value(c: seq<bool>): (v: nat)
    ensures v < Power(|c|)
  {
    if c == [] then 0 else (if c[0] then 1 else 0) + 2 * Value(c[1..])
  }

  function Crc(s: seq<byte>): u32 {
    PowerOf32();
    Value(Xor(Register(ONES, s), ONES))
  }

  lemma PowerOf32()
    ensures Power(32) == TWO32
  {
    assert Power(8) == 0x100;
    assert Power(16) == 0x1_0000;
    assert Power(24) == 0x100_0000;
  }

  /** The inner loop: one shift a bit. */
  method ShiftByte(mixed: Reg, bits: nat) returns (c: Reg)
    ensures c == Shifts(mixed, bits)
  {
    c := mixed;
    for bit := 0 to bits
      invariant Shifts(c, bits - bit) == Shifts(mixed, bits)
    {
      c := Xor(c[1..] + [false], Masked(c[0]));
    }
  }

  /** `actuator_crc32c`: the outer loop over the bytes. */
  method Compute(data: seq<byte>) returns (crc: u32)
    ensures crc == Crc(data)
  {
    var c: Reg := ONES;
    for index := 0 to |data|
      invariant Register(c, data[index..]) == Register(ONES, data)
    {
      assert data[index..][0] == data[index] && data[index..][1..] == data[index + 1..];
      c := ShiftByte(Xor(c, Number(data[index])), BITS);
    }
    PowerOf32();
    crc := Value(Xor(c, ONES));
  }

  // ---- the register forgets nothing ----

  lemma TopOfPolynomial()
    ensures POLYNOMIAL[31]
  {
    BitByte(0x82F6_3B78, 31);
    BitByte(0x82_F63B, 23);
    BitByte(0x82F6, 15);
    assert Bit(0x82, 7) == Bit(0x41, 6) == Bit(0x20, 5) == Bit(0x10, 4);
    assert Bit(0x10, 4) == Bit(8, 3) == Bit(4, 2) == Bit(2, 1) == Bit(1, 0);
  }

  lemma BitByte(n: nat, i: nat)
    requires i >= 8
    ensures Bit(n, i) == Bit(n / 256, i - 8)
  {
    var h := n / 2 / 2 / 2 / 2;
    assert Bit(n, i) == Bit(n / 2 / 2, i - 2) == Bit(h, i - 4);
    assert Bit(h, i - 4) == Bit(h / 2 / 2, i - 6) == Bit(h / 2 / 2 / 2 / 2, i - 8);
  }

  lemma ShiftInjective(a: Reg, b: Reg)
    requires Shift(a) == Shift(b)
    ensures a == b
  {
    TopOfPolynomial();
    var p, q := Shift(a), Shift(b);
    assert p[31] == a[0] && q[31] == b[0];
    forall i | 0 <= i < 32 ensures a[i] == b[i] {
      if i > 0 {
        assert p[i - 1] == (a[i] != Masked(a[0])[i - 1]);
        assert q[i - 1] == (b[i] != Masked(b[0])[i - 1]);
      }
    }
  }

  lemma {:induction false} ShiftsInjective(a: Reg, b: Reg, n: nat)
    requires Shifts(a, n) == Shifts(b, n)
    ensures a == b
    decreases n
  {
    if n > 0 {
      ShiftsInjective(Shift(a), Shift(b), n - 1);
      ShiftInjective(a, b);
    }
  }

  lemma XorCancels(a: Reg, b: Reg, m: Reg)
    requires Xor(a, m) == Xor(b, m)
    ensures a == b
  {
    forall i | 0 <= i < 32 ensures a[i] == b[i] {
      assert Xor(a, m)[i] == Xor(b, m)[i];
    }
  }

  lemma {:induction false} RegisterInjective(a: Reg, b: Reg, s: seq<byte>)
    requires Register(a, s) == Register(b, s)
    ensures a == b
    decreases |s|
  {
    if s != [] {
      RegisterInjective(ByteStep(a, s[0]), ByteStep(b, s[0]), s[1..]);
      ShiftsInjective(Xor(a, Number(s[0])), Xor(b, Number(s[0])), BITS);
      XorCancels(a, b, Number(s[0]));
    }
  }

  lemma {:induction false} RegisterConcat(c: Reg, s: seq<byte>, t: seq<byte>)
    ensures Register(c, s + t) == Register(Register(c, s), t)
    decreases |s|
  {
    if s == [] {
      assert s + t == t;
    } else {
      assert (s + t)[1..] == s[1..] + t;
      RegisterConcat(ByteStep(c, s[0]), s[1..], t);
    }
  }

  // ---- four bytes at a time ----

  /** The bits moved n places up, with zeros below. */
  function Up(z: Reg, n: nat): Reg
    requires n <= 32
  {
    seq(32, i requires 0 <= i < 32 => i >= n && z[i - n])
  }

  /** The top n bits are clear. */
  predicate TopClear(z: Reg, n: nat) {
    forall i :: 0 <= i < 32 && 32 - n <= i ==> !z[i]
  }

  /** High bits ride down unchanged while a zero bit is shifted out below them. */
  lemma ShiftCarries(x: Reg, z: Reg, n: nat)
    requires 0 < n <= 32 && TopClear(z, n)
    ensures Shift(Xor(x, Up(z, n))) == Xor(Shift(x), Up(z, n - 1))
  {
    var y := Xor(x, Up(z, n));
    assert y[0] == x[0];
    forall i | 0 <= i < 32 ensures Shift(y)[i] == Xor(Shift(x), Up(z, n - 1))[i] {
      if i < 31 { assert y[i + 1] == (x[i + 1] != Up(z, n)[i + 1]); }
    }
  }

  lemma {:induction false} ShiftsCarry(x: Reg, z: Reg, n: nat)
    requires n <= 32 && TopClear(z, n)
    ensures Shifts(Xor(x, Up(z, n)), n) == Xor(Shifts(x, n), z)
    decreases n
  {
    if n == 0 {
      assert Up(z, 0) == z;
    } else {
      ShiftCarries(x, z, n);
      ShiftsCarry(Shift(x), z, n - 1);
    }
  }

  lemma {:induction false} ShiftsAdd(c: Reg, m: nat, n: nat)
    ensures Shifts(Shifts(c, m), n) == Shifts(c, m + n)
    decreases m
  {
    if m > 0 { ShiftsAdd(Shift(c), m - 1, n); }
  }

  /** The word of a string of at most four bytes, its first byte lowest. */
  function Word(s: seq<byte>): Reg
    decreases |s|
  {
    if s == [] then Number(0) else Xor(Number(s[0]), Up(Word(s[1..]), 8))
  }

  lemma {:induction false} SmallNumber(n: nat, i: nat)
    requires n < Power(i)
    ensures !Bit(n, i)
    decreases i
  {
    if i > 0 { SmallNumber(n / 2, i - 1); }
  }

  lemma {:induction false} HighBits(n: nat, i: nat, j: nat)
    requires i <= j && n < Power(i)
    ensures !Bit(n, j)
    decreases j
  {
    if i < j {
      PowerGrows(i, j);
    }
    SmallNumber(n, j);
  }

  lemma {:induction false} PowerGrows(i: nat, j: nat)
    requires i <= j
    ensures Power(i) <= Power(j)
    decreases j
  {
    if i < j { PowerGrows(i, j - 1); }
  }

  lemma {:induction false} WordTopClear(s: seq<byte>)
    requires |s| <= 4
    ensures TopClear(Word(s), 32 - 8 * |s|)
    decreases |s|
  {
    var v := if s == [] then 0 else s[0];
    assert Power(8) == 256;
    forall i | 8 <= i < 32 ensures !Bit(v, i) {
      HighBits(v, 8, i);
    }
    if s == [] {
      forall i | 0 <= i < 32 ensures !Bit(0, i) { PowerGrows(0, i); SmallNumber(0, i); }
    } else {
      WordTopClear(s[1..]);
    }
  }

  /** The bytes of a word can be read back from its bits. */
  lemma {:induction false} BitsDetermine(m: nat, n: nat, k: nat)
    requires m < Power(k) && n < Power(k) && forall i :: 0 <= i < k ==> Bit(m, i) == Bit(n, i)
    ensures m == n
    decreases k
  {
    if k > 0 {
      forall i | 0 <= i < k - 1 ensures Bit(m / 2, i) == Bit(n / 2, i) {
        assert Bit(m, i + 1) == Bit(n, i + 1);
      }
      BitsDetermine(m / 2, n / 2, k - 1);
      assert Bit(m, 0) == Bit(n, 0);
    }
  }

  lemma {:induction false} WordInjective(s: seq<byte>, t: seq<byte>)
    requires |s| == |t| <= 4 && Word(s) == Word(t)
    ensures s == t
    decreases |s|
  {
    if s != [] {
      var u, v := Word(s[1..]), Word(t[1..]);
      assert Power(8) == 256;
      forall i | 0 <= i < 8 ensures Bit(s[0], i) == Bit(t[0], i) {
        assert Word(s)[i] == Number(s[0])[i] && Word(t)[i] == Number(t[0])[i];
      }
      BitsDetermine(s[0], t[0], 8);
      WordTopClear(s[1..]);
      WordTopClear(t[1..]);
      forall i | 0 <= i < 32 ensures u[i] == v[i] {
        if i < 24 {
          assert Word(s)[i + 8] == (Number(s[0])[i + 8] != u[i]);
          assert Word(t)[i + 8] == (Number(t[0])[i + 8] != v[i]);
        }
      }
      WordInjective(s[1..], t[1..]);
      assert s == [s[0]] + s[1..] && t == [t[0]] + t[1..];
    }
  }

  /** Up to four bytes take the register where the shifts of their word would. */
  lemma {:induction false} WordAtOnce(x: Reg, s: seq<byte>)
    requires |s| <= 4
    ensures Register(x, s) == Shifts(Xor(x, Word(s)), 8 * |s|)
    decreases |s|
  {
    if s == [] {
      XorNothing(x);
    } else {
      WordAtOnce(ByteStep(x, s[0]), s[1..]);
      NextByteIn(x, s, BITS, 8 * |s[1..]|, 8 * |s|);
    }
  }

  lemma XorNothing(x: Reg)
    ensures Xor(x, Word([])) == x
  {
    WordTopClear([]);
  }

  lemma NextByteIn(x: Reg, s: seq<byte>, n: nat, rest: nat, total: nat)
    requires 0 < |s| <= 4 && n == BITS && total == n + rest
    ensures Shifts(Xor(Shifts(Xor(x, Number(s[0])), n), Word(s[1..])), rest) == Shifts(Xor(x, Word(s)), total)
  {
    OneByteIn(x, s, n);
    ShiftsAdd(Xor(x, Word(s)), n, rest);
  }

  /** The first byte of a word enters the register, and the rest of the word waits its turn. */
  lemma OneByteIn(x: Reg, s: seq<byte>, n: nat)
    requires 0 < |s| <= 4 && n == BITS
    ensures Xor(Shifts(Xor(x, Number(s[0])), n), Word(s[1..])) == Shifts(Xor(x, Word(s)), n)
  {
    var w := Word(s[1..]);
    var y := Xor(x, Number(s[0]));
    WordTopClear(s[1..]);
    ShiftsCarry(y, w, n);
    assert Xor(y, Up(w, n)) == Xor(x, Word(s));
  }

  /** s and t differ at most in the four bytes that start at position at. */
  predicate DifferWithin(s: seq<byte>, t: seq<byte>, at: nat) {
    |s| == |t| && at + 4 <= |s| && s[..at] == t[..at] && s[at + 4..] == t[at + 4..]
  }

  lemma WindowSplits(x: Reg, s: seq<byte>, at: nat)
    requires at + 4 <= |s|
    ensures s == s[..at] + s[at..at + 4] + s[at + 4..]
    ensures Register(x, s) == Register(Register(Register(x, s[..at]), s[at..at + 4]), s[at + 4..])
  {
    assert s == s[..at] + (s[at..at + 4] + s[at + 4..]);
    RegisterConcat(x, s[..at], s[at..at + 4] + s[at + 4..]);
    RegisterConcat(Register(x, s[..at]), s[at..at + 4], s[at + 4..]);
  }

  lemma FourBytesInjective(x: Reg, u: seq<byte>, v: seq<byte>)
    requires |u| == |v| <= 4 && Register(x, u) == Register(x, v)
    ensures u == v
  {
    WordAtOnce(x, u);
    WordAtOnce(x, v);
    ShiftsInjective(Xor(x, Word(u)), Xor(x, Word(v)), 8 * |u|);
    forall i | 0 <= i < 32 ensures Word(u)[i] == Word(v)[i] {
      assert Xor(x, Word(u))[i] == Xor(x, Word(v))[i];
    }
    WordInjective(u, v);
  }

  /** Burst detection: strings that differ only inside four consecutive bytes leave different registers. */
  lemma BurstChangesRegister(x: Reg, s: seq<byte>, t: seq<byte>, at: nat)
    requires DifferWithin(s, t, at) && s != t
    ensures Register(x, s) != Register(x, t)
  {
    WindowSplits(x, s, at);
    WindowSplits(x, t, at);
    if Register(x, s) == Register(x, t) {
      var y := Register(x, s[..at]);
      RegisterInjective(Register(y, s[at..at + 4]), Register(y, t[at..at + 4]), s[at + 4..]);
      FourBytesInjective(y, s[at..at + 4], t[at..at + 4]);
    }
  }

  // ---- the appended check value ----

  lemma {:induction false} NumberOfValue(c: seq<bool>, i: nat)
    requires i < |c|
    ensures Bit(Value(c), i) == c[i]
    decreases i
  {
    var rest := c[1..];
    var low := if c[0] then 1 else 0;
    assert Value(c) == low + 2 * Value(rest);
    HalfOf(low, Value(rest));
    if i > 0 {
      NumberOfValue(rest, i - 1);
      assert rest[i - 1] == c[i];
    }
  }

  lemma HalfOf(low: nat, n: nat)
    requires low < 2
    ensures (low + 2 * n) / 2 == n && (low + 2 * n) % 2 == low
  {
  }

  /** The bits of a word are the bits of the number its bytes spell. */
  lemma {:induction false} BitOfSum(a: byte, rest: nat, i: nat)
    ensures Bit(a + 256 * rest, i) == if i < 8 then Bit(a, i) else Bit(rest, i - 8)
  {
    if i < 8 {
      LowBits(a, rest, i, 8);
    } else {
      BitByte(a + 256 * rest, i);
    }
  }

  lemma {:induction false} LowBits(a: nat, rest: nat, i: nat, k: nat)
    requires i < k
    ensures Bit(a + Power(k) * rest, i) == Bit(a, i)
    decreases i
  {
    assert Power(k) * rest == 2 * (Power(k - 1) * rest);
    if i > 0 {
      LowBits(a / 2, rest, i - 1, k - 1);
      assert (a + Power(k) * rest) / 2 == a / 2 + Power(k - 1) * rest;
    }
  }

  lemma {:induction false} WordBits(s: seq<byte>, v: nat, i: nat)
    requires |s| <= 4 && v == Spelled(s) && i < 32
    ensures Word(s)[i] == Bit(v, i)
    decreases |s|
  {
    if s != [] {
      BitOfSum(s[0], Spelled(s[1..]), i);
      WordTopClear(s[1..]);
      if i < 8 {
      } else {
        assert Power(8) == 256;
        HighBits(s[0], 8, i);
        WordBits(s[1..], Spelled(s[1..]), i - 8);
      }
    }
  }

  /** The number a little-endian string spells. */
  function Spelled(s: seq<byte>): nat
    decreases |s|
  {
    if s == [] then 0 else s[0] + 256 * Spelled(s[1..])
  }

  lemma SpelledWord(v: u32)
    ensures Spelled(WriteU32(v)) == v
  {
    var s := WriteU32(v);
    assert s[0..4] == s && s[1..][1..] == s[2..] && s[2..][1..] == s[3..] && s[3..][1..] == [];
    assert Spelled(s[3..]) == s[3] && Spelled(s[2..]) == s[2] + 256 * s[3] as int;
    ReadWriteU32(s, 0, v);
  }

  const RESIDUE: Reg := Shifts(ONES, 32)

  /** A message with four more bytes leaves the fixed residue exactly when those bytes are its check value. */
  lemma ResidueIff(m: seq<byte>, tail: seq<byte>)
    requires |tail| == 4
    ensures Register(ONES, m + tail) == RESIDUE <==> tail == WriteU32(Crc(m))
  {
    var r := Register(ONES, m);
    var want := WriteU32(Crc(m));
    CheckWord(m);
    RegisterConcat(ONES, m, tail);
    CheckLeavesResidue(r, want);
    if Register(r, tail) == RESIDUE { FourBytesInjective(r, tail, want); }
  }

  lemma CheckLeavesResidue(r: Reg, want: seq<byte>)
    requires |want| == 4 && Word(want) == Xor(r, ONES)
    ensures Register(r, want) == RESIDUE
  {
    WordAtOnce(r, want);
    XorTwice(r, ONES);
  }

  lemma XorTwice(a: Reg, b: Reg)
    ensures Xor(a, Xor(a, b)) == b
  {
  }

  lemma CheckWord(m: seq<byte>)
    ensures Word(WriteU32(Crc(m))) == Xor(Register(ONES, m), ONES)
  {
    var c := Xor(Register(ONES, m), ONES);
    SpelledWord(Crc(m));
    forall i | 0 <= i < 32 ensures Word(WriteU32(Crc(m)))[i] == c[i] {
      WordBits(WriteU32(Crc(m)), Crc(m), i);
      NumberOfValue(c, i);
    }
  }

  /** A string that ends in its own check value, little-endian. */
  predicate Sealed(s: seq<byte>) {
    |s| >= 4 && s[|s| - 4..] == WriteU32(Crc(s[..|s| - 4]))
  }

  /** A sealed string is never turned into another sealed one by changes confined to four consecutive bytes,
      not even by changes that reach into the check value. */
  lemma BurstIsDetected(s: seq<byte>, t: seq<byte>, at: nat)
    requires DifferWithin(s, t, at) && s != t && Sealed(s)
    ensures !Sealed(t)
  {
    var n := |s| - 4;
    assert s == s[..n] + s[n..] && t == t[..n] + t[n..];
    ResidueIff(s[..n], s[n..]);
    ResidueIff(t[..n], t[n..]);
    BurstChangesRegister(ONES, s, t, at);
  }

  // ---- the register is a remainder ----

  /** The exponents of the generator polynomial of CRC-32C, but for x^32. */
  const EXPONENTS: set<nat> := {28, 27, 26, 25, 23, 22, 20, 19, 18, 14, 13, 11, 10, 9, 8, 6, 0}

  /** The coefficient of x^k in the polynomial a register stands for: bit 31 is the constant. */
  function Coefficient(c: Reg, k: nat): bool
    requires k < 32
  {
    c[31 - k]
  }

  /** One bit of the message enters. */
  function Enter(c: Reg, bit: bool): Reg {
    Xor(c[1..] + [false], Masked(c[0] != bit))
  }

  /** n bits of a number enter, the least significant first. */
  function EnterBits(c: Reg, b: nat, n: nat): Reg
    decreases n
  {
    if n == 0 then c else EnterBits(Enter(c, b % 2 == 1), b / 2, n - 1)
  }

  /** The bits of a byte string enter one by one. */
  function Serial(c: Reg, s: seq<byte>): Reg
    decreases |s|
  {
    if s == [] then c else Serial(EnterBits(c, s[0], 8), s[1..])
  }

  lemma ShiftEnters(c: Reg, b: nat)
    requires b < 0x8000_0000
    ensures Shift(Xor(c, Number(b))) == Xor(Enter(c, b % 2 == 1), Number(b / 2))
  {
    var x, y := Shift(Xor(c, Number(b))), Xor(Enter(c, b % 2 == 1), Number(b / 2));
    PowerOf32();
    assert Power(32) == 2 * Power(31);
    TopIsClear(b / 2, 31);
    forall i | 0 <= i < 32 ensures x[i] == y[i] {
      if i < 31 { assert Number(b)[i + 1] == Bit(b, i + 1) == Bit(b / 2, i); }
    }
  }

  /** A number below 2^n has no bit n. */
  lemma {:induction false} TopIsClear(b: nat, n: nat)
    requires b < Power(n)
    ensures !Bit(b, n)
  {
    if n > 0 { TopIsClear(b / 2, n - 1); }
  }

  lemma {:induction false} ShiftsEnter(c: Reg, b: nat, n: nat)
    requires b < 0x8000_0000
    ensures Shifts(Xor(c, Number(b)), n) == Xor(EnterBits(c, b, n), Number(Halved(b, n)))
    decreases n
  {
    if n > 0 {
      ShiftEnters(c, b);
      ShiftsEnter(Enter(c, b % 2 == 1), b / 2, n - 1);
    }
  }

  function Halved(b: nat, n: nat): nat {
    if n == 0 then b else Halved(b / 2, n - 1)
  }

  lemma ByteEnters(c: Reg, b: byte)
    ensures ByteStep(c, b) == EnterBits(c, b, 8)
  {
    ShiftsEnter(c, b, 8);
    assert Power(8) == 256;
    NothingIsLeft(b, 8);
    NothingAdded(EnterBits(c, b, 8));
  }

  lemma {:induction false} NothingIsLeft(b: nat, n: nat)
    requires b < Power(n)
    ensures Halved(b, n) == 0
    decreases n
  {
    if n > 0 { NothingIsLeft(b / 2, n - 1); }
  }

  lemma NothingAdded(c: Reg)
    ensures Xor(c, Number(0)) == c
  {
    forall i | 0 <= i < 32 ensures Xor(c, Number(0))[i] == c[i] {
      ZeroHasNoBits(i);
    }
  }

  lemma {:induction false} ZeroHasNoBits(i: nat)
    ensures !Bit(0, i)
  {
    if i > 0 { ZeroHasNoBits(i - 1); }
  }

  /** Eight shifts a byte come to the bits of the message entering one by one, the least significant of each byte
      first. */
  lemma {:induction false} RegisterIsSerial(c: Reg, s: seq<byte>)
    ensures Register(c, s) == Serial(c, s)
    decreases |s|
  {
    if s != [] {
      ByteEnters(c, s[0]);
      RegisterIsSerial(ByteStep(c, s[0]), s[1..]);
    }
  }

  /** The generator of RFC 3720: its exponents are where the polynomial of the shift register has its bits. */
  lemma GeneratorIs(k: nat)
    requires k < 32
    ensures POLYNOMIAL[31 - k] <==> k in EXPONENTS
  {
    var i := 31 - k;
    BitOfSum(0x78, 0x82_F63B, i);
    if i < 8 {
      FirstByte(i);
    } else {
      BitOfSum(0x3B, 0x82F6, i - 8);
      if i < 16 {
        SecondByte(i - 8);
      } else {
        BitOfSum(0xF6, 0x82, i - 16);
        if i < 24 { ThirdByte(i - 16); } else { FourthByte(i - 24); }
      }
    }
  }

  lemma FirstByte(i: nat)
    requires i < 8
    ensures Bit(0x78, i) <==> i in {3, 4, 5, 6}
  {
    LowByteBits(0x78, i);
  }

  lemma SecondByte(i: nat)
    requires i < 8
    ensures Bit(0x3B, i) <==> i in {0, 1, 3, 4, 5}
  {
    LowByteBits(0x3B, i);
  }

  lemma ThirdByte(i: nat)
    requires i < 8
    ensures Bit(0xF6, i) <==> i in {1, 2, 4, 5, 6, 7}
  {
    LowByteBits(0xF6, i);
  }

  lemma FourthByte(i: nat)
    requires i < 8
    ensures Bit(0x82, i) <==> i in {1, 7}
  {
    LowByteBits(0x82, i);
  }

  /** The low eight bits of a number, one by one. */
  lemma LowByteBits(n: nat, i: nat)
    requires i < 8
    ensures Bit(n, i) <==>
      (if i == 0 then n else if i == 1 then n / 2 else if i == 2 then n / 4 else if i == 3 then n / 8
       else if i == 4 then n / 16 else if i == 5 then n / 32 else if i == 6 then n / 64 else n / 128) % 2 == 1
  {
    var a := n / 2;
    var b := a / 2;
    var c := b / 2;
    var d := c / 2;
    var e := d / 2;
    var f := e / 2;
    assert b == n / 4 && c == n / 8 && d == n / 16 && e == n / 32 && f == n / 64 && f / 2 == n / 128;
    assert Bit(n, i) == if i == 0 then n % 2 == 1 else Bit(a, i - 1);
    assert i > 1 ==> Bit(a, i - 1) == Bit(b, i - 2);
    assert i > 2 ==> Bit(b, i - 2) == Bit(c, i - 3);
    assert i > 3 ==> Bit(c, i - 3) == Bit(d, i - 4);
    assert i > 4 ==> Bit(d, i - 4) == Bit(e, i - 5);
    assert i > 5 ==> Bit(e, i - 5) == Bit(f, i - 6);
    assert i > 6 ==> Bit(f, i - 6) == Bit(f / 2, i - 7);
  }

  /** Each bit of the message takes the register from r to x r + bit x^32 modulo the generator, which makes it the
      remainder of the message by Horner's rule. */
  lemma EnterIsHorner(c: Reg, bit: bool, k: nat)
    requires k < 32
    ensures Coefficient(Enter(c, bit), k) ==
      ((k > 0 && Coefficient(c, k - 1)) != ((Coefficient(c, 31) != bit) && k in EXPONENTS))
  {
    GeneratorIs(k);
  }

  /** The register begins and ends inverted: the check value of no bytes at all is zero, and that of any message is
      the number of the inverted remainder. */
  lemma CheckValueIs(s: seq<byte>)
    ensures Crc([]) == 0
    ensures Number(Crc(s)) == Xor(Serial(seq(32, _ => true), s), seq(32, _ => true))
  {
    AllOnes();
    RegisterIsSerial(ONES, s);
    var c := Xor(Register(ONES, s), ONES);
    forall i | 0 <= i < 32 ensures Number(Crc(s))[i] == c[i] {
      NumberOfValue(c, i);
    }
    var none := Xor(ONES, ONES);
    assert Register(ONES, []) == ONES;
    NothingIsZero(none);
  }

  lemma {:induction false} NothingIsZero(c: seq<bool>)
    requires forall i :: 0 <= i < |c| ==> !c[i]
    ensures Value(c) == 0
    decreases |c|
  {
    if c != [] { NothingIsZero(c[1..]); }
  }

  lemma AllOnes()
    ensures ONES == seq(32, _ => true)
  {
    PowerOf32();
    forall i | 0 <= i < 32 ensures ONES[i] {
      OnesHasAll(0xFFFF_FFFF, 32, i);
    }
  }

  lemma {:induction false} OnesHasAll(n: nat, width: nat, i: nat)
    requires n + 1 == Power(width) && i < width
    ensures Bit(n, i)
  {
    var half := Power(width - 1) - 1;
    HalfOf(1, half);
    if i > 0 { OnesHasAll(half, width - 1, i - 1); }
  }
}
