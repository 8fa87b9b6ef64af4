/** Consistent Overhead Byte Stuffing (Cheshire and Baker): the two encoders, the decoder and the round trip. */
module Cobs {
  import opened Words

  /** The encoding of `run + rest`, where run is the zero-free beginning of the block being built. A block of
      254 bytes is closed at once, with no zero implied after it. */
  function EncodeFrom(run: seq<byte>, rest: seq<byte>): (e: seq<byte>)
    requires |run| < 254
    decreases |rest|
  {
    if rest == [] then [|run| + 1] + run
    else if rest[0] == 0 then [|run| + 1] + run + EncodeFrom([], rest[1..])
    else if |run| == 253 then [255] + (run + [rest[0]]) + EncodeFrom([], rest[1..])
    else EncodeFrom(run + [rest[0]], rest[1..])
  }

  function Encode(x: seq<byte>): seq<byte> {
    EncodeFrom([], x)
  }

  /** The bytes a sequence of blocks stands for. */
  function DecodeBlocks(e: seq<byte>): Option<seq<byte>>
    decreases |e|
  {
    if e == [] then Some([])
    else if e[0] == 0 || e[0] > |e| then None
    else
      var rest := e[e[0]..];
      match DecodeBlocks(rest)
      case None => None
      case Some(tail) => Some(e[1..e[0]] + (if e[0] != 255 && rest != [] then [0] else []) + tail)
  }

  function Decode(e: seq<byte>): Option<seq<byte>> {
    if e == [] then None else DecodeBlocks(e)
  }

  predicate ZeroFree(s: seq<byte>) {
    forall i :: 0 <= i < |s| ==> s[i] != 0
  }

  // ---- the round trip ----

  lemma DecodeOneBlock(block: seq<byte>, rest: seq<byte>)
    requires |block| < 255
    ensures DecodeBlocks([|block| + 1] + block + rest) ==
      match DecodeBlocks(rest)
      case None => None
      case Some(tail) => Some(block + (if |block| != 254 && rest != [] then [0] else []) + tail)
  {
    var e := [|block| + 1] + block + rest;
    assert e[|block| + 1..] == rest && e[1..|block| + 1] == block;
  }

  lemma {:induction false} DecodeEncodeFrom(run: seq<byte>, rest: seq<byte>)
    requires |run| < 254
    ensures EncodeFrom(run, rest) != [] && DecodeBlocks(EncodeFrom(run, rest)) == Some(run + rest)
    decreases |rest|
  {
    if rest == [] {
      DecodeOneBlock(run, []);
      assert [|run| + 1] + run + [] == [|run| + 1] + run;
      assert run + [] + [] == run + rest;
    } else {
      assert rest == [rest[0]] + rest[1..];
      if rest[0] == 0 {
        DecodeEncodeFrom([], rest[1..]);
        DecodeOneBlock(run, EncodeFrom([], rest[1..]));
        assert run + [0] + ([] + rest[1..]) == run + rest;
      } else if |run| == 253 {
        DecodeEncodeFrom([], rest[1..]);
        DecodeOneBlock(run + [rest[0]], EncodeFrom([], rest[1..]));
        assert (run + [rest[0]]) + [] + ([] + rest[1..]) == run + rest;
      } else {
        DecodeEncodeFrom(run + [rest[0]], rest[1..]);
        assert (run + [rest[0]]) + rest[1..] == run + rest;
      }
    }
  }

  /** Decoding an encoding gives back every byte string. */
  lemma RoundTrip(x: seq<byte>)
    ensures Decode(Encode(x)) == Some(x)
  {
    DecodeEncodeFrom([], x);
    assert [] + x == x;
  }

  lemma {:induction false} EncodeFromZeroFree(run: seq<byte>, rest: seq<byte>)
    requires |run| < 254 && ZeroFree(run)
    ensures ZeroFree(EncodeFrom(run, rest))
    decreases |rest|
  {
    if rest != [] {
      if rest[0] == 0 || |run| == 253 {
        EncodeFromZeroFree([], rest[1..]);
      } else {
        EncodeFromZeroFree(run + [rest[0]], rest[1..]);
      }
    }
  }

  /** The delimiter never occurs inside an encoding. */
  lemma EncodingHasNoZero(x: seq<byte>)
    ensures ZeroFree(Encode(x))
  {
    EncodeFromZeroFree([], x);
  }

  // ---- what decodes to what ----

  /** A zero-free stretch runs through the encoder up to the next block boundary. */
  lemma {:induction false} EncodeStretch(run: seq<byte>, more: seq<byte>, rest: seq<byte>)
    requires |run| + |more| < 254 && ZeroFree(more)
    ensures EncodeFrom(run, more + rest) == EncodeFrom(run + more, rest)
    decreases |more|
  {
    if more == [] {
      assert more + rest == rest && run + more == run;
    } else {
      assert (more + rest)[1..] == more[1..] + rest && (run + [more[0]]) + more[1..] == run + more;
      EncodeStretch(run + [more[0]], more[1..], rest);
    }
  }

  lemma EncodeBlock(block: seq<byte>, rest: seq<byte>)
    requires ZeroFree(block) && |block| < 255
    ensures |block| < 254 ==> Encode(block) == [|block| + 1] + block
    ensures |block| < 254 ==> Encode(block + ([0] + rest)) == [|block| + 1] + block + Encode(rest)
    ensures |block| == 254 ==> Encode(block + rest) == [255] + block + Encode(rest)
  {
    if |block| < 254 {
      EncodeStretch([], block, []);
      EncodeStretch([], block, [0] + rest);
      assert block + [] == block && [] + block == block && ([0] + rest)[1..] == rest;
    } else {
      var front := block[..253];
      EncodeStretch([], front, [block[253]] + rest);
      assert front + ([block[253]] + rest) == block + rest && ([block[253]] + rest)[1..] == rest;
      assert [] + front == front && front + [block[253]] == block;
    }
  }

  /** Whatever zero-free string decodes to x is the encoding of x, except that a last code 01 may be missing. */
  lemma {:induction false} DecodingDetermines(e: seq<byte>, x: seq<byte>)
    requires ZeroFree(e) && DecodeBlocks(e) == Some(x)
    ensures e == Encode(x) || e + [1] == Encode(x)
    decreases |e|
  {
    if e != [] {
      var block, rest := e[1..e[0]], e[e[0]..];
      FirstBlock(e, block, rest);
      var tail := DecodeBlocks(rest).value;
      DecodingDetermines(rest, tail);
      OneMoreBlock(block, rest, tail);
    }
  }

  lemma FirstBlock(e: seq<byte>, block: seq<byte>, rest: seq<byte>)
    requires ZeroFree(e) && e != [] && DecodeBlocks(e).Some? && block == e[1..e[0]] && rest == e[e[0]..]
    ensures ZeroFree(block) && ZeroFree(rest) && |block| < 255 && e == [|block| + 1] + block + rest
    ensures DecodeBlocks(rest).Some? && (rest == [] ==> DecodeBlocks(rest).value == [])
  {
    forall i | 0 <= i < |block| ensures block[i] != 0 {
      assert block[i] == e[i + 1];
    }
    forall i | 0 <= i < |rest| ensures rest[i] != 0 {
      assert rest[i] == e[e[0] + i];
    }
  }

  lemma OneMoreBlock(block: seq<byte>, rest: seq<byte>, tail: seq<byte>)
    requires ZeroFree(block) && |block| < 255 && (rest == [] ==> tail == [])
    requires rest == Encode(tail) || rest + [1] == Encode(tail)
    ensures var e := [|block| + 1] + block + rest;
      var x := block + (if |block| != 254 && rest != [] then [0] else []) + tail;
      e == Encode(x) || e + [1] == Encode(x)
  {
    EncodeBlock(block, tail);
    assert ([|block| + 1] + block + rest) + [1] == [|block| + 1] + block + (rest + [1]);
    if |block| == 254 {
      assert block + [] + tail == block + tail;
    } else if rest == [] {
      assert block + [] + tail == block && [|block| + 1] + block + rest == [|block| + 1] + block;
    } else {
      assert block + [0] + tail == block + ([0] + tail);
    }
  }

  // ---- the last code ----

  /** Length of the zero-free end of x. */
  function Trailing(x: seq<byte>): (n: nat)
    ensures n <= |x|
  {
    if x == [] then 0
    else
      var n := Trailing(x[1..]);
      if n == |x| - 1 && x[0] != 0 then n + 1 else n
  }

  lemma {:induction false} TrailingIsZeroFree(x: seq<byte>, n: nat)
    requires n == Trailing(x)
    ensures forall i :: |x| - n <= i < |x| ==> x[i] != 0
    ensures n < |x| ==> x[|x| - n - 1] == 0
  {
    if x != [] {
      var rest := x[1..];
      var m := Trailing(rest);
      TrailingIsZeroFree(rest, m);
      forall i | |x| - m <= i < |x| ensures x[i] != 0 {
        assert rest[i - 1] == x[i];
      }
      assert m < |rest| ==> rest[|rest| - m - 1] == x[|x| - m - 1];
    }
  }

  /** The zero-free end of x consists of full groups, and is not empty. */
  predicate EndsFull(x: seq<byte>) {
    Trailing(x) > 0 && Trailing(x) % 254 == 0
  }

  /** The same of what follows m bytes of an open group; after a closed one nothing more is needed. */
  predicate EndsFullFrom(m: nat, x: seq<byte>) {
    if Trailing(x) == |x| then (m + |x|) % 254 == 0 else EndsFull(x)
  }

  lemma EndsFullStep(m: nat, x: seq<byte>, rest: seq<byte>)
    requires m < 254 && x != [] && rest == x[1..]
    ensures EndsFullFrom(m, x) <==>
      if x[0] == 0 then rest != [] && EndsFullFrom(0, rest)
      else EndsFullFrom(if m == 253 then 0 else m + 1, rest)
  {
  }

  /** A string without its last byte. */
  function Shortened(e: seq<byte>): seq<byte>
    requires e != []
  {
    e[..|e| - 1]
  }

  /** e ends in 01, and its blocks stand for x without it too. */
  predicate DropsLast(e: seq<byte>, x: seq<byte>) {
    e != [] && e[|e| - 1] == 1 && DecodeBlocks(Shortened(e)) == Some(x)
  }

  /** What dropping the last byte does depends on the block it is in. */
  lemma DropAfterBlock(block: seq<byte>, e: seq<byte>, x: seq<byte>)
    requires |block| < 255 && e != []
    ensures DropsLast([|block| + 1] + block + e, block + (if |block| != 254 then [0] else []) + x) <==>
      DropsLast(e, x) && (|block| != 254 ==> |e| > 1)
  {
    var whole, zero := [|block| + 1] + block + e, if |block| != 254 then [0] else [];
    assert Shortened(whole) == [|block| + 1] + block + Shortened(e);
    DecodeOneBlock(block, Shortened(e));
    var tail := DecodeBlocks(Shortened(e));
    if tail.Some? {
      SameFront(block + zero, tail.value, x);
      if Shortened(e) == [] && |block| != 254 {
        assert |block + [] + tail.value| == |block| && |block + zero + x| > |block|;
      }
    }
  }

  lemma SameFront(a: seq<byte>, x: seq<byte>, y: seq<byte>)
    ensures a + x == a + y <==> x == y
  {
    assert (a + x)[|a|..] == x && (a + y)[|a|..] == y;
  }

  lemma DropsOpenBlock(run: seq<byte>)
    requires |run| < 254
    ensures DropsLast([|run| + 1] + run, run) <==> run == []
  {
    var e := [|run| + 1] + run;
    if run == [] {
      assert Shortened(e) == [];
    } else {
      assert Shortened(e)[0] == |run| + 1 > |Shortened(e)|;
    }
  }

  lemma {:induction false} DropsLastIff(run: seq<byte>, rest: seq<byte>, e: seq<byte>, x: seq<byte>)
    requires |run| < 254 && e == EncodeFrom(run, rest) && x == run + rest
    ensures e != [] && (|e| == 1 <==> x == [])
    ensures DropsLast(e, x) <==> EndsFullFrom(|run|, rest)
    decreases |rest|
  {
    if rest == [] {
      assert x == run;
      DropsOpenBlock(run);
    } else {
      var b, later := rest[0], rest[1..];
      assert rest == [b] + later;
      EndsFullStep(|run|, rest, later);
      EncodeByte(run, b, later, rest);
      if b == 0 || |run| == 253 {
        assert [] + later == later;
        DropsLastIff([], later, EncodeFrom([], later), later);
        DropsClosedBlock(run, b, later, EncodeFrom([], later), e, x);
      } else {
        assert (run + [b]) + later == x;
        DropsLastIff(run + [b], later, e, x);
      }
    }
  }

  lemma DropsClosedBlock(run: seq<byte>, b: byte, later: seq<byte>, f: seq<byte>, e: seq<byte>, x: seq<byte>)
    requires |run| < 254 && (b == 0 || |run| == 253) && f != [] && (|f| == 1 <==> later == [])
    requires x == run + ([b] + later)
    requires e == if b == 0 then [|run| + 1] + run + f else [255] + (run + [b]) + f
    ensures |e| > 1 && (DropsLast(e, x) <==> DropsLast(f, later) && (b == 0 ==> later != []))
  {
    if b == 0 {
      DropAfterBlock(run, f, later);
      assert run + [0] + later == x;
    } else {
      DropAfterBlock(run + [b], f, later);
      assert (run + [b]) + [] + later == x;
    }
  }

  /** The last code may be dropped exactly when x ends in full groups. */
  lemma LastCodeIsOptionalIff(x: seq<byte>)
    ensures Encode(x) != []
    ensures Encode(x)[|Encode(x)| - 1] == 1 && Decode(Shortened(Encode(x))) == Some(x) <==> EndsFull(x)
  {
    assert [] + x == x;
    DropsLastIff([], x, Encode(x), x);
  }

  /** What decodes to x: its encoding, and the encoding without its last code 01 if x ends in full groups. */
  lemma DecodesIff(e: seq<byte>, x: seq<byte>)
    requires ZeroFree(e)
    ensures Decode(e) == Some(x) <==> e == Encode(x) || (e + [1] == Encode(x) && EndsFull(x))
  {
    LastCodeIsOptionalIff(x);
    RoundTrip(x);
    if e + [1] == Encode(x) {
      assert Shortened(Encode(x)) == e;
    }
    if Decode(e) == Some(x) {
      DecodingDetermines(e, x);
    }
  }

  // ---- length ----

  /** Length of the zero-free beginning of x. */
  function Leading(x: seq<byte>): (n: nat)
    ensures n <= |x|
    decreases |x|
  {
    if x == [] || x[0] == 0 then 0 else 1 + Leading(x[1..])
  }

  /** How many full groups of 254 the zero-free stretches of x hold. */
  function FullGroups(x: seq<byte>): nat
    decreases |x|
  {
    var n := Leading(x);
    n / 254 + if n < |x| then FullGroups(x[n + 1..]) else 0
  }

  /** The same count with m bytes of the first stretch already seen. */
  function GroupsFrom(m: nat, x: seq<byte>): nat {
    var n := Leading(x);
    (m + n) / 254 + if n < |x| then FullGroups(x[n + 1..]) else 0
  }

  lemma GroupsStep(m: nat, x: seq<byte>)
    requires m < 254 && x != []
    ensures GroupsFrom(m, x) ==
      if x[0] == 0 then GroupsFrom(0, x[1..])
      else if m == 253 then 1 + GroupsFrom(0, x[1..])
      else GroupsFrom(m + 1, x[1..])
  {
    if x[0] != 0 {
      LeadingNext(x, x[1..]);
      OneGroupMore(Leading(x[1..]));
    }
  }

  lemma LeadingNext(x: seq<byte>, rest: seq<byte>)
    requires x != [] && x[0] != 0 && rest == x[1..]
    ensures Leading(x) == 1 + Leading(rest)
    ensures Leading(rest) < |rest| ==> rest[Leading(rest) + 1..] == x[Leading(x) + 1..]
  {
  }

  lemma OneGroupMore(n: nat)
    ensures (253 + (1 + n)) / 254 == 1 + n / 254
  {
  }

  lemma {:induction false} EncodeFromLength(run: seq<byte>, rest: seq<byte>)
    requires |run| < 254
    ensures |EncodeFrom(run, rest)| == |run| + |rest| + 1 + GroupsFrom(|run|, rest)
    decreases |rest|
  {
    if rest != [] {
      GroupsStep(|run|, rest);
      if rest[0] == 0 || |run| == 253 {
        EncodeFromLength([], rest[1..]);
      } else {
        EncodeFromLength(run + [rest[0]], rest[1..]);
      }
    }
  }

  lemma {:induction false} GroupsBound(x: seq<byte>)
    ensures 254 * FullGroups(x) <= |x|
    decreases |x|
  {
    var n := Leading(x);
    if n < |x| { GroupsBound(x[n + 1..]); }
  }

  /** The overhead is one byte, plus one for each full group of 254 non-zero bytes. */
  lemma EncodedLength(x: seq<byte>)
    ensures |Encode(x)| == |x| + 1 + FullGroups(x)
    ensures |Encode(x)| <= |x| + 1 + |x| / 254
  {
    EncodeFromLength([], x);
    GroupsBound(x);
  }

  lemma EncodeByte(run: seq<byte>, b: byte, later: seq<byte>, rest: seq<byte>)
    requires |run| < 254 && rest == [b] + later
    ensures EncodeFrom(run, rest) ==
      if b == 0 then ([|run| + 1] + run) + EncodeFrom([], later)
      else if |run| == 253 then ([255] + (run + [b])) + EncodeFrom([], later)
      else EncodeFrom(run + [b], later)
  {
    assert rest != [] && rest[0] == b && rest[1..] == later;
  }

  lemma NextByte(data: seq<byte>, i: nat, rest: seq<byte>, b: byte, later: seq<byte>)
    requires i < |data| && rest == data[i..] && b == data[i] && later == data[i + 1..]
    ensures rest == [b] + later
  {
  }

  /** One byte more of the input, as the encoders take it: a zero or a full group closes the block. */
  lemma EncodeCloses(done: seq<byte>, run: seq<byte>, data: seq<byte>, i: nat, block: seq<byte>)
    requires |run| < 254 && i < |data| && (data[i] == 0 || |run| == 253)
    requires block == if data[i] == 0 then [|run| + 1] + run else [255] + (run + [data[i]])
    ensures done + EncodeFrom(run, data[i..]) == (done + block) + EncodeFrom([], data[i + 1..])
  {
    NextByte(data, i, data[i..], data[i], data[i + 1..]);
    EncodeByte(run, data[i], data[i + 1..], data[i..]);
    Regroup(done, block, EncodeFrom([], data[i + 1..]), EncodeFrom(run, data[i..]));
  }

  /** Any other byte joins it. */
  lemma EncodeJoins(run: seq<byte>, data: seq<byte>, i: nat)
    requires |run| < 253 && i < |data| && data[i] != 0
    ensures EncodeFrom(run, data[i..]) == EncodeFrom(run + [data[i]], data[i + 1..])
  {
    NextByte(data, i, data[i..], data[i], data[i + 1..]);
    EncodeByte(run, data[i], data[i + 1..], data[i..]);
  }

  lemma Regroup(a: seq<byte>, b: seq<byte>, c: seq<byte>, both: seq<byte>)
    requires both == b + c
    ensures a + both == (a + b) + c
  {
  }

  lemma EncodeEnd(done: seq<byte>, run: seq<byte>, data: seq<byte>)
    requires |run| < 254
    ensures done + EncodeFrom(run, data[|data|..]) == done + ([|run| + 1] + run)
  {
  }

  lemma EncodeStart(x: seq<byte>)
    ensures Encode(x) == [] + EncodeFrom([], x[0..])
  {
    assert x[0..] == x;
  }

  /** An open block with bytes to come and no room left after it. */
  lemma TooLong(whole: seq<byte>, done: seq<byte>, run: seq<byte>, rest: seq<byte>, capacity: nat)
    requires |run| < 254 && rest != [] && whole == done + EncodeFrom(run, rest)
    requires |done| + 1 + |run| >= capacity
    ensures |whole| > capacity
  {
    EncodeFromLength(run, rest);
  }

  // ---- the firmware's encoder and decoder ----

  /** Writes the code of the block that ends before position end, and so closes it. */
  method CloseBlock(output: array<byte>, codeIndex: nat, code: byte, ghost end: nat, ghost run: seq<byte>)
    requires codeIndex < end <= output.Length && output[codeIndex + 1..end] == run
    requires code == |run| + 1 && end == codeIndex + code
    modifies output
    ensures output[..end] == old(output[..codeIndex]) + ([|run| + 1] + run)
    ensures forall i :: end <= i < output.Length ==> output[i] == old(output[i])
  {
    ghost var done := output[..codeIndex];
    output[codeIndex] := code;
    assert output[..end] == output[..codeIndex] + ([output[codeIndex]] + output[codeIndex + 1..end]);
  }

  /** The state of the encoder's loop: closed blocks, then the data of the open one behind a free code byte. */
  ghost predicate Encoding(output: array<byte>, capacity: nat, codeIndex: nat, writeIndex: nat, run: seq<byte>)
    reads output
  {
    && codeIndex <= capacity <= output.Length && |run| < 254 && writeIndex == codeIndex + 1 + |run|
    && (codeIndex == capacity ==> run == [])
    && (codeIndex < capacity ==> writeIndex <= capacity && output[codeIndex + 1..writeIndex] == run)
  }

  /** `actuator_cobs_encode`: one pass that goes back to write each block's code. */
  method EncodeInto(input: seq<byte>, output: array<byte>, capacity: nat) returns (ok: bool, length: nat)
    requires capacity <= output.Length
    modifies output
    ensures ok <==> |Encode(input)| <= capacity
    ensures ok ==> length == |Encode(input)| && output[..length] == Encode(input)
  {
    length := 0;
    EncodedLength(input);
    if capacity == 0 {
      return false, 0;
    }
    var readIndex, writeIndex, codeIndex := 0, 1, 0;
    var code: byte := 1;
    ghost var run: seq<byte> := [];
    EncodeStart(input);
    while readIndex < |input|
      invariant readIndex <= |input| && Encoding(output, capacity, codeIndex, writeIndex, run)
      invariant code == |run| + 1
      invariant Encode(input) == output[..codeIndex] + EncodeFrom(run, input[readIndex..])
    {
      if input[readIndex] == 0 {
        if codeIndex >= capacity {
          TooLong(Encode(input), output[..codeIndex], run, input[readIndex..], capacity);
          return false, 0;
        }
        EncodeCloses(output[..codeIndex], run, input, readIndex, [|run| + 1] + run);
        CloseBlock(output, codeIndex, code, writeIndex, run);
        code, codeIndex, run := 1, writeIndex, [];
        writeIndex := writeIndex + 1;
      } else {
        if writeIndex >= capacity {
          TooLong(Encode(input), output[..codeIndex], run, input[readIndex..], capacity);
          return false, 0;
        }
        if |run| < 253 {
          EncodeJoins(run, input, readIndex);
        } else {
          EncodeCloses(output[..codeIndex], run, input, readIndex, [255] + (run + [input[readIndex]]));
        }
        OpenByte(output, codeIndex, writeIndex, input[readIndex], run);
        run := run + [input[readIndex]];
        writeIndex := writeIndex + 1;
        code := code + 1;
        if code == 255 {
          CloseBlock(output, codeIndex, code, writeIndex, run);
          code, codeIndex, run := 1, writeIndex, [];
          writeIndex := writeIndex + 1;
        }
      }
      readIndex := readIndex + 1;
    }
    EncodeEnd(output[..codeIndex], run, input);
    if codeIndex >= capacity {
      return false, 0;
    }
    CloseBlock(output, codeIndex, code, writeIndex, run);
    return true, writeIndex;
  }

  /** Writes one data byte of the open block. */
  method OpenByte(output: array<byte>, codeIndex: nat, at: nat, b: byte, ghost run: seq<byte>)
    requires codeIndex < at < output.Length && output[codeIndex + 1..at] == run
    modifies output
    ensures output[codeIndex + 1..at + 1] == run + [b] && output[..codeIndex] == old(output[..codeIndex])
  {
    output[at] := b;
    assert output[codeIndex + 1..at + 1] == output[codeIndex + 1..at] + [b];
  }

  /** What is already written, followed by what the remaining blocks decode to. */
  function Prepend(done: seq<byte>, more: Option<seq<byte>>): Option<seq<byte>> {
    match more
    case None => None
    case Some(tail) => Some(done + tail)
  }

  lemma DecodeStart(e: seq<byte>)
    ensures DecodeBlocks(e) == Prepend([], DecodeBlocks(e[0..]))
  {
    assert e[0..] == e;
    if DecodeBlocks(e).Some? { assert [] + DecodeBlocks(e).value == DecodeBlocks(e).value; }
  }

  /** One block more, as the decoders take it. */
  lemma DecodeNext(done: seq<byte>, e: seq<byte>, i: nat)
    requires i < |e|
    ensures (e[i] == 0 || e[i] > |e| - i) ==> DecodeBlocks(e[i..]) == None
    ensures 0 < e[i] <= |e| - i ==>
      var next := i + e[i];
      Prepend(done, DecodeBlocks(e[i..])) ==
        Prepend(done + (e[i + 1..next] + (if e[i] != 255 && next < |e| then [0] else [])), DecodeBlocks(e[next..]))
  {
    var blocks := e[i..];
    if 0 < e[i] <= |e| - i {
      var next := i + e[i];
      assert blocks[1..e[i]] == e[i + 1..next] && blocks[e[i]..] == e[next..];
      var copied := e[i + 1..next] + (if e[i] != 255 && next < |e| then [0] else []);
      if DecodeBlocks(e[next..]).Some? {
        assert done + (copied + DecodeBlocks(e[next..]).value) == (done + copied) + DecodeBlocks(e[next..]).value;
      }
    }
  }

  lemma DecodeEnd(done: seq<byte>, e: seq<byte>)
    ensures Prepend(done, DecodeBlocks(e[|e|..])) == Some(done)
  {
    assert done + [] == done;
  }

  /** The decoder's inner loop. */
  method CopyBlock(input: seq<byte>, from: nat, count: nat, output: array<byte>, to: nat)
    requires from + count <= |input| && to + count <= output.Length
    modifies output
    ensures output[..to + count] == old(output[..to]) + input[from..from + count]
  {
    for offset := 0 to count
      invariant output[..to + offset] == old(output[..to]) + input[from..from + offset]
    {
      output[to + offset] := input[from + offset];
    }
  }

  /** The zero a block implies. */
  method PutZero(output: array<byte>, at: nat)
    requires at < output.Length
    modifies output
    ensures output[..at + 1] == old(output[..at]) + [0]
  {
    output[at] := 0;
    assert output[..at + 1] == output[..at] + [output[at]];
  }

  /** One block of the decoder's outer loop: read, bounded, copied, and followed by the zero it implies. */
  method DecodeBlock(input: seq<byte>, readIndex: nat, output: array<byte>, writeIndex: nat, capacity: nat)
    returns (ok: bool, nextRead: nat, nextWrite: nat)
    requires readIndex < |input| && writeIndex <= capacity <= output.Length
    modifies output
    ensures ok ==> readIndex < nextRead <= |input| && nextWrite <= capacity
    ensures ok ==> Prepend(old(output[..writeIndex]), DecodeBlocks(input[readIndex..])) ==
                   Prepend(output[..nextWrite], DecodeBlocks(input[nextRead..]))
    ensures !ok ==> Unfit(Prepend(old(output[..writeIndex]), DecodeBlocks(input[readIndex..])), capacity)
  {
    ghost var done := output[..writeIndex];
    DecodeNext(done, input, readIndex);
    ok, nextRead, nextWrite := false, readIndex + 1, writeIndex;
    var code := input[readIndex];
    if code == 0 {
      return;
    }
    var count := code - 1;
    if count > |input| - nextRead || count > capacity - writeIndex {
      return;
    }
    CopyBlock(input, nextRead, count, output, writeIndex);
    ghost var copied := input[nextRead..nextRead + count];
    nextRead := nextRead + count;
    nextWrite := writeIndex + count;
    if code != 255 && nextRead < |input| {
      if nextWrite >= capacity {
        return;
      }
      PutZero(output, nextWrite);
      nextWrite := nextWrite + 1;
      Regroup(done, copied, [0], copied + [0]);
    } else {
      assert copied + [] == copied;
    }
    ok := true;
  }

  /** Nothing decoded, or more than fits. */
  predicate Unfit(decoded: Option<seq<byte>>, capacity: nat) {
    decoded == None || |decoded.value| > capacity
  }

  /** `actuator_cobs_decode`: block by block, with a bound on the output. */
  method DecodeInto(input: seq<byte>, output: array<byte>, capacity: nat) returns (ok: bool, length: nat)
    requires capacity <= output.Length
    modifies output
    ensures ok <==> Decode(input).Some? && |Decode(input).value| <= capacity
    ensures ok ==> length == |Decode(input).value| && output[..length] == Decode(input).value
  {
    if |input| == 0 {
      return false, 0;
    }
    var readIndex: nat := 0;
    length := 0;
    DecodeStart(input);
    while readIndex < |input|
      invariant readIndex <= |input| && length <= capacity
      invariant DecodeBlocks(input) == Prepend(output[..length], DecodeBlocks(input[readIndex..]))
    {
      ok, readIndex, length := DecodeBlock(input, readIndex, output, length, capacity);
      if !ok {
        return false, 0;
      }
    }
    DecodeEnd(output[..length], input);
    ok := true;
  }

  // ---- the host's encoder and decoder ----

  /** `cobs_encode` of the host library: a growing byte array with placeholder codes. */
  method HostEncode(data: seq<byte>) returns (output: seq<byte>)
    ensures output == Encode(data)
  {
    output := [0];
    var codeIndex: nat := 0;
    var code: byte := 1;
    EncodeStart(data);
    for i := 0 to |data|
      invariant codeIndex < |output| && code == |output| - codeIndex && code < 255
      invariant Encode(data) == output[..codeIndex] + EncodeFrom(output[codeIndex + 1..], data[i..])
    {
      ghost var run := output[codeIndex + 1..];
      ghost var done := output[..codeIndex];
      if data[i] == 0 {
        EncodeCloses(done, run, data, i, [|run| + 1] + run);
        output := output[codeIndex := code];
        assert output == done + ([code] + run);
        codeIndex := |output|;
        output := output + [0];
        code := 1;
        assert output[..codeIndex] == done + ([|run| + 1] + run) && output[codeIndex + 1..] == [];
      } else {
        output := output + [data[i]];
        code := code + 1;
        assert output[codeIndex + 1..] == run + [data[i]];
        if code == 255 {
          EncodeCloses(done, run, data, i, [255] + (run + [data[i]]));
          output := output[codeIndex := code];
          assert output == done + ([code] + (run + [data[i]]));
          codeIndex := |output|;
          output := output + [0];
          code := 1;
          assert output[codeIndex + 1..] == [];
        } else {
          EncodeJoins(run, data, i);
          assert output[..codeIndex] == done;
        }
      }
    }
    ghost var run := output[codeIndex + 1..];
    ghost var done := output[..codeIndex];
    EncodeEnd(done, run, data);
    output := output[codeIndex := code];
    assert output == done + ([code] + run);
  }

  /** `cobs_decode` of the host library; None is its ProtocolError. */
  method HostDecode(encoded: seq<byte>) returns (r: Option<seq<byte>>)
    ensures r == Decode(encoded)
  {
    if |encoded| == 0 {
      return None;
    }
    var output: seq<byte> := [];
    var index := 0;
    DecodeStart(encoded);
    while index < |encoded|
      invariant index <= |encoded|
      invariant DecodeBlocks(encoded) == Prepend(output, DecodeBlocks(encoded[index..]))
    {
      DecodeNext(output, encoded, index);
      var code := encoded[index];
      if code == 0 {
        return None;
      }
      index := index + 1;
      var blockEnd := index + code - 1;
      if blockEnd > |encoded| {
        return None;
      }
      ghost var done, copied := output, encoded[index..blockEnd];
      output := output + encoded[index..blockEnd];
      index := blockEnd;
      if code != 255 && index < |encoded| {
        output := output + [0];
        assert output == done + (copied + [0]);
      } else {
        assert output == done + (copied + []);
      }
    }
    DecodeEnd(output, encoded);
    r := Some(output);
  }
}
