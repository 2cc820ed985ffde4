/** SHA-1 as FIPS PUB 180-1 defines it: section 4 (padding), section 5 (functions and
    constants) and section 7 (the 80-word method of computing the digest). */
module Fips180 {

  datatype Regs = Regs(a: bv32, b: bv32, c: bv32, d: bv32, e: bv32)

  const H0 := Regs(0x67452301, 0xEFCDAB89, 0x98BADCFE, 0x10325476, 0xC3D2E1F0)

  // The circular left shift of section 3.
  function Rol(x: bv32, n: nat): bv32
    requires 0 < n < 32
  {
    (x << n) | (x >> (32 - n))
  }

  function Choice(b: bv32, c: bv32, d: bv32): bv32 {
    (b & c) | (!b & d)
  }

  function Parity(b: bv32, c: bv32, d: bv32): bv32 {
    b ^ c ^ d
  }

  function Majority(b: bv32, c: bv32, d: bv32): bv32 {
    (b & c) | (b & d) | (c & d)
  }

  function F(t: nat, b: bv32, c: bv32, d: bv32): bv32 {
    if t < 20 then Choice(b, c, d)
    else if t < 40 then Parity(b, c, d)
    else if t < 60 then Majority(b, c, d)
    else Parity(b, c, d)
  }

  function K(t: nat): bv32 {
    if t < 20 then 0x5A827999
    else if t < 40 then 0x6ED9EBA1
    else if t < 60 then 0x8F1BBCDC
    else 0xCA62C1D6
  }

  // W(t): the sixteen words of the block, then the expansion of step b.
  function W(m: seq<bv32>, t: nat): bv32
    requires |m| == 16
  {
    if t < 16 then m[t]
    else Rol(Mix(W(m, t - 3), W(m, t - 8), W(m, t - 14), W(m, t - 16)), 1)
  }

  function Mix(w: bv32, x: bv32, y: bv32, z: bv32): bv32 {
    w ^ x ^ y ^ z
  }

  // Addition modulo 2^32.
  function Plus(x: bv32, y: bv32): bv32 {
    x + y
  }

  function Sum5(v: bv32, w: bv32, x: bv32, y: bv32, z: bv32): bv32 {
    v + w + x + y + z
  }

  // One turn of the loop of step d.
  function Turn(t: nat, w: bv32, r: Regs): Regs {
    var temp := Sum5(Rol(r.a, 5), F(t, r.b, r.c, r.d), r.e, w, K(t));
    Regs(temp, r.a, Rol(r.b, 30), r.c, r.d)
  }

  function Turns(m: seq<bv32>, h: Regs, t: nat): Regs
    requires |m| == 16
  {
    if t == 0 then h else Turn(t - 1, W(m, t - 1), Turns(m, h, t - 1))
  }

  // Steps c to e.
  function Compress(h: Regs, m: seq<bv32>): Regs
    requires |m| == 16
  {
    var r := Turns(m, h, 80);
    Regs(Plus(h.a, r.a), Plus(h.b, r.b), Plus(h.c, r.c), Plus(h.d, r.d), Plus(h.e, r.e))
  }

  function BigEndian(b0: bv8, b1: bv8, b2: bv8, b3: bv8): bv32 {
    (b0 as bv32 << 24) | (b1 as bv32 << 16) | (b2 as bv32 << 8) | b3 as bv32
  }

  // Step a: a block of 64 bytes as sixteen words.
  function BlockWords(block: seq<bv8>): (m: seq<bv32>)
    requires |block| == 64
    ensures |m| == 16
  {
    seq(16, i requires 0 <= i < 16 =>
      BigEndian(block[4 * i], block[4 * i + 1], block[4 * i + 2], block[4 * i + 3]))
  }

  // All the blocks of a padded message, in order.
  function Hash(data: seq<bv8>): Regs
    requires |data| % 64 == 0
  {
    if data == [] then H0
    else
      var n := |data| - 64;
      Compress(Hash(data[..n]), BlockWords(data[n..]))
  }

  function Zeros(n: nat): (s: seq<bv8>)
    ensures |s| == n
  {
    seq(n, i => 0)
  }

  // Byte k of a 32-bit number, the most significant one first.
  function NumberByte(x: nat, k: nat): bv8
    requires k < 4
  {
    ((if k == 0 then x / 0x100_0000 else if k == 1 then x / 0x1_0000 else if k == 2 then x / 0x100 else x) % 256) as bv8
  }

  function LengthWord(x: nat): seq<bv8> {
    [NumberByte(x, 0), NumberByte(x, 1), NumberByte(x, 2), NumberByte(x, 3)]
  }

  // The two-word representation of the number of bits, high word first. The standard
  // admits messages of fewer than 2^64 bits; beyond that the number is taken modulo 2^64.
  function LengthWords(bits: nat): (s: seq<bv8>)
    ensures |s| == 8
  {
    LengthWord(bits / 0x1_0000_0000 % 0x1_0000_0000) + LengthWord(bits % 0x1_0000_0000)
  }

  function PadZeros(n: nat): nat {
    (55 - n) % 64
  }

  lemma PadLength(n: nat)
    ensures (n + 1 + PadZeros(n) + 8) % 64 == 0
  {
    var q := (55 - n) / 64;
    assert n + 1 + PadZeros(n) + 8 == 64 * (1 - q);
  }

  function Pad(msg: seq<bv8>): (p: seq<bv8>)
    ensures |p| % 64 == 0
  {
    PadLength(|msg|);
    msg + [0x80] + Zeros(PadZeros(|msg|)) + LengthWords(8 * |msg|)
  }

  // Byte k of a word, the most significant one first.
  function WordByte(w: bv32, k: nat): bv8
    requires k < 4
  {
    ((if k == 0 then w >> 24 else if k == 1 then w >> 16 else if k == 2 then w >> 8 else w) & 255) as bv8
  }

  function WordBytes(w: bv32): (s: seq<bv8>)
    ensures |s| == 4
  {
    [WordByte(w, 0), WordByte(w, 1), WordByte(w, 2), WordByte(w, 3)]
  }

  function DigestBytes(r: Regs): (d: seq<bv8>)
    ensures |d| == 20
  {
    WordBytes(r.a) + WordBytes(r.b) + WordBytes(r.c) + WordBytes(r.d) + WordBytes(r.e)
  }

  function Digest(msg: seq<bv8>): (d: seq<bv8>)
    ensures |d| == 20
  {
    DigestBytes(Hash(Pad(msg)))
  }
}
