/** SHA-1 of a message as FIPS 180-4 defines it, and the class that computes it from pieces of the message, in
    words twice as wide as the standard's. */
module Sha1 {
  import opened Sha1Words

  type Byte = b: nat | b < 256
  type Bytes = seq<Byte>

  // --- one block: sections 4.2.1, 5.3.1 and 6.1.2 of FIPS 180-4

  datatype Words = Words(a: Word, b: Word, c: Word, d: Word, e: Word)

  const INITIAL := Words(0x6745_2301, 0xefcd_ab89, 0x98ba_dcfe, 0x1032_5476, 0xc3d2_e1f0)

  function F(t: nat, x: Word, y: Word, z: Word): Word {
    if t < 20 then Ch(x, y, z) else if t < 40 then Parity(x, y, z) else if t < 60 then Maj(x, y, z) else Parity(x, y, z)
  }

  function K(t: nat): Word {
    if t < 20 then 0x5a82_7999 else if t < 40 then 0x6ed9_eba1 else if t < 60 then 0x8f1b_bcdc else 0xca62_c1d6
  }

  /** The message schedule. */
  function W(m: seq<Word>, t: nat): Word
    requires |m| == 16
  {
    if t < 16 then m[t] else Rotl(XorW(XorW(XorW(W(m, t - 3), W(m, t - 8)), W(m, t - 14)), W(m, t - 16)), 1)
  }

  function Round(h: Words, t: nat, w: Word): Words {
    Words(Plus(Plus(Plus(Plus(Rotl(h.a, 5), F(t, h.b, h.c, h.d)), h.e), K(t)), w), h.a, Rotl(h.b, 30), h.c, h.d)
  }

  function Rounds(h: Words, m: seq<Word>, n: nat): Words
    requires |m| == 16
  {
    if n == 0 then h else Round(Rounds(h, m, n - 1), n - 1, W(m, n - 1))
  }

  function Sum(h: Words, r: Words): Words {
    Words(Plus(h.a, r.a), Plus(h.b, r.b), Plus(h.c, r.c), Plus(h.d, r.d), Plus(h.e, r.e))
  }

  function Compress(h: Words, m: seq<Word>): Words
    requires |m| == 16
  {
    Sum(h, Rounds(h, m, 80))
  }

  // --- a message: sections 5.1.1 and 5.2.1 of FIPS 180-4

  function WordAt(b: Bytes, i: nat): Word
    requires i + 4 <= |b|
  {
    b[i] as int * 0x100_0000 + b[i + 1] as int * 0x1_0000 + b[i + 2] as int * 0x100 + b[i + 3]
  }

  function Block(b: Bytes): (m: seq<Word>)
    requires |b| == 64
    ensures |m| == 16 && forall i :: 0 <= i < 16 ==> m[i] == WordAt(b, 4 * i)
  {
    seq(16, i requires 0 <= i < 16 => WordAt(b, 4 * i))
  }

  /** The hash value after all whole blocks. */
  function Fold(b: Bytes): Words
    decreases |b|
  {
    if |b| < 64 then INITIAL
    else Compress(Fold(b[..|b| - 64]), Block(b[|b| - 64..]))
  }

  function Zeros(n: nat): (z: Bytes)
    ensures |z| == n && forall i :: 0 <= i < n ==> z[i] == 0
  {
    seq(n, _ => 0)
  }

  /** A 32-bit number, most significant byte first. */
  function FourBytes(w: Word): (b: Bytes)
    ensures |b| == 4
  {
    [w / 0x100_0000 % 256, w / 0x1_0000 % 256, w / 0x100 % 256, w % 256]
  }

  /** The length in bits, as 64 bits. */
  function LengthBytes(bits: nat): (b: Bytes)
    ensures |b| == 8
  {
    FourBytes(bits % M64 / M32) + FourBytes(bits % M64 % M32)
  }

  /** One bit, zeros up to 56 bytes, and the length. */
  function Pad(m: Bytes): Bytes {
    m + [0x80] + Zeros((55 - |m|) % 64) + LengthBytes(8 * |m|)
  }

  /** A whole number of blocks, with as few zeros as that takes. */
  lemma PadLength(m: Bytes)
    ensures |Pad(m)| % 64 == 0 && |m| + 9 <= |Pad(m)| < |m| + 9 + 64
  {
    hide LengthBytes, Zeros;
    var x := (55 - |m|) % 64;
    var q := (55 - |m|) / 64;
    assert 55 - |m| == 64 * q + x;
    assert |Pad(m)| == 64 * (1 - q);
  }

  function Hash(m: Bytes): Words {
    Fold(Pad(m))
  }

  /** In hexadecimal, as the program returns it. */
  function HexDigit(d: nat): char
    requires d < 16
  {
    "0123456789abcdef"[d]
  }

  function Hex(w: nat, n: nat): (s: string)
    ensures |s| == n
    decreases n
  {
    if n == 0 then "" else Hex(w / 16, n - 1) + [HexDigit(w % 16)]
  }

  function HexWords(h: Words): string {
    Hex(h.a, 8) + Hex(h.b, 8) + Hex(h.c, 8) + Hex(h.d, 8) + Hex(h.e, 8)
  }

  // --- one round in wide words

  function RoundF(t: nat, w: Wide, x: Wide, y: Wide): Wide {
    if t < 20 then Xor64(And64(w, Xor64(x, y)), y)
    else if t < 40 then Xor64(Xor64(w, x), y)
    else if t < 60 then Or64(And64(Or64(w, x), y), And64(w, x))
    else Xor64(Xor64(w, x), y)
  }

  lemma LowF(t: nat, w: Wide, x: Wide, y: Wide)
    ensures Low(RoundF(t, w, x, y)) == F(t, Low(w), Low(x), Low(y))
  {
    hide Low, Xor64, And64, Or64, Ch, Parity, Maj;
    LowCh(w, x, y);
    LowParity(w, x, y);
    LowMaj(w, x, y);
  }

  /** SHA1_R0 to SHA1_R4: what `z` becomes. */
  function RoundZ(t: nat, v: Wide, w: Wide, x: Wide, y: Wide, z: Wide, blk: Wide): Wide {
    Plus64(z, Plus64(Plus64(Plus64(RoundF(t, w, x, y), blk), K(t)), Rol(v, 5)))
  }

  lemma LowRound(t: nat, v: Wide, w: Wide, x: Wide, y: Wide, z: Wide, blk: Wide)
    ensures var h := Words(Low(v), Low(w), Low(x), Low(y), Low(z));
      Words(Low(RoundZ(t, v, w, x, y, z, blk)), Low(v), Low(Rol(w, 30)), Low(x), Low(y)) == Round(h, t, Low(blk))
  {
    hide Low, Plus64, Plus, Rol, Rotl, RoundF, F, K;
    LowF(t, w, x, y);
    LowRol(v, 5);
    LowRol(w, 30);
    Small(K(t));
    var f := RoundF(t, w, x, y);
    LowPlus(f, blk);
    LowPlus(Plus64(f, blk), K(t));
    LowPlus(Plus64(Plus64(f, blk), K(t)), Rol(v, 5));
    LowPlus(z, Plus64(Plus64(Plus64(f, blk), K(t)), Rol(v, 5)));
    Reordered(Low(Rol(v, 5)), Low(f), Low(z), K(t), Low(blk));
  }

  /** SHA1_BLK */
  function NextWord(w3: Wide, w8: Wide, w14: Wide, w16: Wide): Wide {
    Rol(Xor64(Xor64(Xor64(w3, w8), w14), w16), 1)
  }

  lemma LowNext(w3: Wide, w8: Wide, w14: Wide, w16: Wide)
    ensures Low(NextWord(w3, w8, w14, w16)) == Rotl(XorW(XorW(XorW(Low(w3), Low(w8)), Low(w14)), Low(w16)), 1)
  {
    hide Low, Xor64, XorW, Rol, Rotl;
    LowOps(w3, w8);
    LowOps(Xor64(w3, w8), w14);
    LowOps(Xor64(Xor64(w3, w8), w14), w16);
    LowRol(Xor64(Xor64(Xor64(w3, w8), w14), w16), 1);
  }

  // --- the class

  /** An input stream: a read that finds too little makes it fail. */
  class ByteStream {
    const data: Bytes
    var pos: nat
    var good: bool

    constructor (data: Bytes)
      ensures this.data == data && pos == 0 && good
    {
      this.data, pos, good := data, 0, true;
    }

    method Read(max: nat) returns (s: Bytes)
      requires pos <= |data| && good
      modifies this
      ensures old(pos) <= pos <= |data| && s == data[old(pos)..pos]
      ensures if |data| - old(pos) >= max then good && pos == old(pos) + max else !good && pos == |data|
    {
      var n := if |data| - pos < max then |data| - pos else max;
      s := data[pos..pos + n];
      pos := pos + n;
      good := n == max;
    }
  }

  class SHA1 {
    const digest: array<Wide>
    var buffer: Bytes
    var transforms: nat
    ghost var message: Bytes

    ghost function Digest(): Words
      requires digest.Length == 5
      reads digest
    {
      Words(Low(digest[0]), Low(digest[1]), Low(digest[2]), Low(digest[3]), Low(digest[4]))
    }

    /** The whole blocks of the message are hashed, the rest of it is buffered. */
    ghost predicate Valid()
      reads this, digest
    {
      && digest.Length == 5 && |buffer| < 64 && |message| == 64 * transforms + |buffer|
      && buffer == message[64 * transforms..] && Digest() == Fold(message[..64 * transforms])
    }

    constructor ()
      ensures Valid() && message == [] && fresh(digest)
    {
      digest := new Wide[5](_ => 0);
      buffer, transforms, message := [], 0, [];
      new;
      Reset();
    }

    method Reset()
      requires digest.Length == 5
      modifies this, digest
      ensures Valid() && message == []
    {
      digest[0] := 0x6745_2301;
      digest[1] := 0xefcd_ab89;
      digest[2] := 0x98ba_dcfe;
      digest[3] := 0x1032_5476;
      digest[4] := 0xc3d2_e1f0;
      transforms := 0;
      buffer := [];
      message := [];
    }

    /** Hash one block. The block is overwritten by the rest of its schedule, sixteen words at a time. */
    method Transform(block: array<Wide>)
      requires digest.Length == 5 && block.Length == 16 && block != digest
      modifies digest, block, this`transforms
      ensures Digest() == Compress(old(Digest()), Lows(old(block[..]))) && transforms == old(transforms) + 1
    {
      hide Low, Round, Compress, Rol, Plus64;
      ghost var m, h := Lows(block[..]), Digest();
      var a, b, c, d, e := RunRounds(block, m, h);
      LowPlus(digest[0], a);
      LowPlus(digest[1], b);
      LowPlus(digest[2], c);
      LowPlus(digest[3], d);
      LowPlus(digest[4], e);
      digest[0] := Plus64(digest[0], a);
      digest[1] := Plus64(digest[1], b);
      digest[2] := Plus64(digest[2], c);
      digest[3] := Plus64(digest[3], d);
      digest[4] := Plus64(digest[4], e);
      transforms := transforms + 1;
      CompressIs(h, m);
    }

    lemma CompressIs(h: Words, m: seq<Word>)
      requires |m| == 16
      ensures Compress(h, m) == Sum(h, Rounds(h, m, 80))
    {
    }

    /** The eighty rounds; what was `e` is `d` in the next, and so on. */
    method RunRounds(block: array<Wide>, ghost m: seq<Word>, ghost h: Words) returns (v: Wide, w: Wide, x: Wide,
        y: Wide, z: Wide)
      requires digest.Length == 5 && block.Length == 16 && block != digest && m == Lows(block[..]) && h == Digest()
      modifies block
      ensures Words(Low(v), Low(w), Low(x), Low(y), Low(z)) == Rounds(h, m, 80)
    {
      hide Low, Round, Rol, W, RoundZ;
      v, w, x, y, z := digest[0], digest[1], digest[2], digest[3], digest[4];
      var i := 0;
      Scheduled(m);
      while i < 80
        invariant 0 <= i <= 80 && Words(Low(v), Low(w), Low(x), Low(y), Low(z)) == Rounds(h, m, i)
        invariant Schedule(block[..], m, if i < 16 then 0 else i - 16)
      {
        ghost var was := block[..];
        if i >= 16 {
          block[i % 16] := NextWord(block[(i + 13) % 16], block[(i + 8) % 16], block[(i + 2) % 16], block[i % 16]);
          ScheduleStep(was, m, i);
          assert block[..]
            == was[i % 16 := NextWord(was[(i + 13) % 16], was[(i + 8) % 16], was[(i + 2) % 16], was[i % 16])];
        }
        ThisWord(block[..], m, i);
        LowRound(i, v, w, x, y, z, block[i % 16]);
        v, w, x, y, z := RoundZ(i, v, w, x, y, z, block[i % 16]), v, Rol(w, 30), x, y;
        i := i + 1;
      }
    }

    // --- buffering

    method UpdateStream(s: ByteStream)
      requires Valid() && s.good && s.pos == 0
      modifies this, digest, s
      ensures Valid() && message == old(message) + s.data
    {
      hide Fold, Compress;
      ghost var was := message;
      var rest := s.Read(64 - |buffer|);
      buffer := buffer + rest;
      message := message + rest;
      assert s.data[..s.pos] == rest;
      assert message[..64 * transforms] == was[..64 * transforms] && message[64 * transforms..] == buffer;
      while s.good
        invariant s.pos <= |s.data| && message == was + s.data[..s.pos] && Buffered()
        invariant |buffer| <= 64 && (s.good <==> |buffer| == 64) && (!s.good ==> s.pos == |s.data|)
        decreases |s.data| - s.pos, if s.good then 1 else 0
      {
        ghost var before := message;
        var block := BufferToBlock(buffer);
        Transform(block);
        WholeBlock(before, 64 * (transforms - 1), buffer);
        ghost var at := s.pos;
        buffer := s.Read(64);
        message := message + buffer;
        assert s.data[..s.pos] == s.data[..at] + buffer;
        assert message[..64 * transforms] == before;
      }
      assert s.data[..s.pos] == s.data;
    }

    /** As Valid, but the buffer may be full. */
    ghost predicate Buffered()
      reads this, digest
    {
      && digest.Length == 5 && |message| == 64 * transforms + |buffer|
      && buffer == message[64 * transforms..] && Digest() == Fold(message[..64 * transforms])
    }

    method Update(s: Bytes)
      requires Valid()
      modifies this, digest
      ensures Valid() && message == old(message) + s
    {
      var stream := new ByteStream(s);
      UpdateStream(stream);
    }

    /** buffer_to_block: a first byte above 127 sets the upper 32 bits of its word, which do not matter. */
    method BufferToBlock(b: Bytes) returns (block: array<Wide>)
      requires |b| == 64
      ensures fresh(block) && block.Length == 16 && Lows(block[..]) == Block(b)
    {
      hide Low;
      block := new Wide[16](_ => 0);
      var i := 0;
      while i < 16
        invariant 0 <= i <= 16 && forall j :: 0 <= j < i ==> Low(block[j]) == WordAt(b, 4 * j)
      {
        var w := WordAt(b, 4 * i);
        Extended(w);
        block[i] := if b[4 * i] >= 128 then w + (M64 - M32) else w;
        i := i + 1;
      }
    }

    lemma Extended(w: Word)
      ensures Low(w + (M64 - M32)) == w && Low(w) == w
    {
    }

    /** Pad, hash the last one or two blocks, and start again. */
    method Final() returns (result: string)
      requires Valid()
      modifies this, digest
      ensures result == HexWords(Hash(old(message)))
      ensures Valid() && message == []
    {
      hide Fold, Compress, Low, Pad;
      ghost var m, done := message, 64 * transforms;
      var bits := (transforms * 64 + |buffer|) * 8 % M64;
      buffer := buffer + [0x80];
      var size := |buffer|;
      buffer := buffer + Zeros(64 - size);
      var block := BufferToBlock(buffer);
      ghost var first := buffer;
      if size > 56 {
        LastTwo(block, bits, m, done, first);
      } else {
        SetLength(block, bits, first);
        Transform(block);
        OneBlock(m, done, first, bits);
      }
      result := HexWords(Words(Low(digest[0]), Low(digest[1]), Low(digest[2]), Low(digest[3]), Low(digest[4])));
      Reset();
    }

    /** The length did not fit behind the message. */
    method LastTwo(block: array<Wide>, bits: nat, ghost m: Bytes, ghost done: nat, ghost first: Bytes)
      requires digest.Length == 5 && block.Length == 16 && block != digest && bits == 8 * |m| % M64
      requires done % 64 == 0 && done + 56 <= |m| < done + 64 && first == m[done..] + [0x80] + Zeros(63 - (|m| - done))
      requires Digest() == Fold(m[..done]) && Lows(block[..]) == Block(first)
      modifies digest, block, this`transforms
      ensures Digest() == Hash(m)
    {
      hide Fold, Compress, Low, Hash, LengthBytes, Block, WordAt, Digest;
      Transform(block);
      assert (m[..done] + first)[..done] == m[..done];
      WholeBlock(m[..done] + first, done, first);
      ClearWords(block);
      ZeroBlock();
      SetLength(block, bits, Zeros(64));
      Transform(block);
      TwoBlocks(m, done, first, bits);
    }

    method ClearWords(block: array<Wide>)
      requires block.Length == 16
      modifies block
      ensures forall i :: 0 <= i < 14 ==> block[i] == 0
    {
      var i := 0;
      while i < 14
        invariant 0 <= i <= 14 && forall j :: 0 <= j < i ==> block[j] == 0
      {
        block[i] := 0;
        i := i + 1;
      }
    }

    /** The last two words are the length. */
    method SetLength(block: array<Wide>, bits: nat, ghost b: Bytes)
      requires block.Length == 16 && |b| == 64 && bits < M64
      requires forall i :: 0 <= i < 14 ==> Low(block[i]) == WordAt(b, 4 * i)
      modifies block
      ensures Lows(block[..]) == Block(b[..56] + LengthBytes(bits))
    {
      hide WordAt, Low;
      block[15] := bits;
      block[14] := bits / M32;
      LengthWords(b, bits);
      Small(bits / M32);
      LowIs(bits);
    }

    lemma ZeroBlock()
      ensures Low(0) == 0 && forall i :: 0 <= i < 14 ==> WordAt(Zeros(64), 4 * i) == 0
    {
    }

    lemma LowIs(x: Wide)
      ensures Low(x) == x % M32
    {
    }
  }

  /** The low halves of a block. */
  function Lows(s: seq<Wide>): (m: seq<Word>)
    ensures |m| == |s| && forall i :: 0 <= i < |s| ==> m[i] == Low(s[i])
  {
    seq(|s|, i requires 0 <= i < |s| => Low(s[i]))
  }

  /** Words t .. t + 16 of the schedule, each in its place in the circle. */
  ghost predicate Schedule(block: seq<Wide>, m: seq<Word>, t: nat)
    requires |m| == 16
  {
    |block| == 16 && forall j :: t <= j < t + 16 ==> Low(block[j % 16]) == W(m, j)
  }

  lemma Scheduled(m: seq<Word>)
    requires |m| == 16
    ensures forall j :: 0 <= j < 16 ==> W(m, j) == m[j] && j % 16 == j
  {
  }

  lemma ScheduleStep(block: seq<Wide>, m: seq<Word>, i: nat)
    requires |m| == 16 && i >= 16 && Schedule(block, m, i - 16)
    ensures var next := NextWord(block[(i + 13) % 16], block[(i + 8) % 16], block[(i + 2) % 16], block[i % 16]);
      Schedule(block[i % 16 := next], m, i - 15) && Low(next) == W(m, i)
  {
    hide Low, NextWord, Rotl, XorW;
    Circle(i);
    var next := NextWord(block[(i + 13) % 16], block[(i + 8) % 16], block[(i + 2) % 16], block[i % 16]);
    LowNext(block[(i + 13) % 16], block[(i + 8) % 16], block[(i + 2) % 16], block[i % 16]);
    hide W;
    forall j | i - 15 <= j < i + 1 ensures Low(block[i % 16 := next][j % 16]) == W(m, j) {
      if j < i {
        Elsewhere(i, j);
      }
    }
  }

  /** Where the circle has the words three, eight, fourteen and sixteen before. */
  lemma Circle(i: nat)
    requires i >= 16
    ensures (i + 13) % 16 == (i - 3) % 16 && (i + 8) % 16 == (i - 8) % 16 && (i + 2) % 16 == (i - 14) % 16
      && i % 16 == (i - 16) % 16
  {
  }

  lemma Elsewhere(i: nat, j: nat)
    requires i - 16 < j < i
    ensures j % 16 != i % 16
  {
  }

  lemma ThisWord(block: seq<Wide>, m: seq<Word>, i: nat)
    requires |m| == 16 && Schedule(block, m, if i < 16 then 0 else i - 15)
    ensures Low(block[i % 16]) == W(m, i)
  {
  }

  // --- blocks of a message

  lemma WholeBlock(m: Bytes, done: nat, b: Bytes)
    requires |b| == 64 && |m| == done + 64 && m[done..] == b
    ensures Fold(m) == Compress(Fold(m[..done]), Block(b))
  {
    hide Compress, WordAt;
  }

  lemma FourBack(w: Word)
    ensures WordAt(FourBytes(w), 0) == w
  {
    assert w / 0x100_0000 % 256 == w / 0x100_0000;
    assert w / 0x1_0000 == 256 * (w / 0x100_0000) + w / 0x1_0000 % 256;
    assert w / 0x100 == 256 * (w / 0x1_0000) + w / 0x100 % 256;
    assert w == 256 * (w / 0x100) + w % 256;
  }

  lemma LengthWords(b: Bytes, bits: nat)
    requires |b| == 64 && bits < M64
    ensures bits / M32 < M32 && bits % M64 == bits
    ensures var c := b[..56] + LengthBytes(bits);
      (forall i :: 0 <= i < 14 ==> WordAt(c, 4 * i) == WordAt(b, 4 * i)) && WordAt(c, 56) == bits / M32
        && WordAt(c, 60) == bits % M32
  {
    hide FourBytes, WordAt;
    TwoWords(bits);
    var n := LengthBytes(bits);
    var c := b[..56] + n;
    forall i | 0 <= i < 14 ensures WordAt(c, 4 * i) == WordAt(b, 4 * i) {
      SameWord(c, 4 * i, b, 4 * i);
    }
    SameWord(c, 56, n, 0);
    SameWord(c, 60, n, 4);
  }

  lemma SameWord(b: Bytes, i: nat, c: Bytes, j: nat)
    requires i + 4 <= |b| && j + 4 <= |c| && b[i] == c[j] && b[i + 1] == c[j + 1] && b[i + 2] == c[j + 2]
      && b[i + 3] == c[j + 3]
    ensures WordAt(b, i) == WordAt(c, j)
  {
  }

  lemma TwoWords(bits: nat)
    requires bits < M64
    ensures bits / M32 < M32 && bits % M64 == bits
    ensures WordAt(LengthBytes(bits), 0) == bits / M32 && WordAt(LengthBytes(bits), 4) == bits % M32
  {
    hide FourBytes, WordAt;
    assert bits / M32 < M32;
    var high, low := FourBytes(bits / M32), FourBytes(bits % M32);
    FourBack(bits / M32);
    FourBack(bits % M32);
    SameWord(LengthBytes(bits), 0, high, 0);
    SameWord(LengthBytes(bits), 4, low, 0);
  }

  /** Room for the length in the same block. */
  lemma OneBlock(m: Bytes, done: nat, first: Bytes, bits: nat)
    requires done % 64 == 0 && done <= |m| < done + 56 && bits == 8 * |m| % M64
    requires first == m[done..] + [0x80] + Zeros(63 - (|m| - done))
    ensures Hash(m) == Compress(Fold(m[..done]), Block(first[..56] + LengthBytes(bits)))
  {
    hide Fold, Compress, LengthBytes, Pad, Block;
    var last := first[..56] + LengthBytes(bits);
    PadOne(m, done, first, bits);
    assert (m[..done] + last)[..done] == m[..done];
    WholeBlock(m[..done] + last, done, last);
  }

  lemma PadOne(m: Bytes, done: nat, first: Bytes, bits: nat)
    requires done % 64 == 0 && done <= |m| < done + 56 && bits == 8 * |m| % M64
    requires first == m[done..] + [0x80] + Zeros(63 - (|m| - done))
    ensures Pad(m) == m[..done] + (first[..56] + LengthBytes(bits))
  {
    hide FourBytes;
    assert LengthBytes(bits) == LengthBytes(8 * |m|);
    hide LengthBytes;
    PadCount(|m|, done);
    var tail := m[done..] + [0x80];
    var n := 55 - (|m| - done);
    assert Zeros(n + 8) == Zeros(n) + Zeros(8);
    assert first[..56] == tail + Zeros(n);
    assert m == m[..done] + m[done..];
    assert m + [0x80] == m[..done] + tail;
  }

  lemma PadCount(len: nat, done: nat)
    requires done % 64 == 0 && done <= len < done + 64
    ensures (55 - len) % 64 == if len < done + 56 then 55 - (len - done) else 119 - (len - done)
  {
  }

  /** The length goes to a block of its own. */
  lemma TwoBlocks(m: Bytes, done: nat, first: Bytes, bits: nat)
    requires done % 64 == 0 && done + 56 <= |m| < done + 64 && bits == 8 * |m| % M64
    requires first == m[done..] + [0x80] + Zeros(63 - (|m| - done))
    ensures Hash(m) == Compress(Fold(m[..done] + first), Block(Zeros(64)[..56] + LengthBytes(bits)))
  {
    hide Fold, Compress, LengthBytes, Pad, Block;
    var last := Zeros(64)[..56] + LengthBytes(bits);
    var front := m[..done] + first;
    PadTwo(m, done, first, bits);
    assert (front + last)[..done + 64] == front;
    WholeBlock(front + last, done + 64, last);
  }

  lemma PadTwo(m: Bytes, done: nat, first: Bytes, bits: nat)
    requires done % 64 == 0 && done + 56 <= |m| < done + 64 && bits == 8 * |m| % M64
    requires first == m[done..] + [0x80] + Zeros(63 - (|m| - done))
    ensures Pad(m) == m[..done] + first + (Zeros(64)[..56] + LengthBytes(bits))
  {
    hide FourBytes;
    assert LengthBytes(bits) == LengthBytes(8 * |m|);
    PadCount(|m|, done);
    assert Zeros(119 - (|m| - done)) == Zeros(63 - (|m| - done)) + Zeros(64)[..56];
  }

  /** However a message is cut, feeding the pieces gives the hash of the whole. */
  method HashPieces(pieces: seq<Bytes>) returns (result: string)
    ensures result == HexWords(Hash(Concat(pieces)))
  {
    hide Hash, HexWords, Fold, Compress, SHA1.Digest;
    var checksum := new SHA1();
    var i := 0;
    while i < |pieces|
      invariant 0 <= i <= |pieces| && checksum.Valid() && fresh(checksum) && fresh(checksum.digest)
      invariant checksum.message + Concat(pieces[i..]) == Concat(pieces)
    {
      assert pieces[i..][1..] == pieces[i + 1..];
      checksum.Update(pieces[i]);
      i := i + 1;
    }
    assert checksum.message + [] == checksum.message;
    result := checksum.Final();
  }

  function Concat(pieces: seq<Bytes>): Bytes {
    if pieces == [] then [] else pieces[0] + Concat(pieces[1..])
  }
}
