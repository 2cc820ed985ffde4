/** The streaming SHA-1 of src/sha1.c, against FIPS PUB 180-1. */
module Sha1 {
  import opened Fips180

  // ----- The block transform -----

  // What one call of the transform works on: the block as big-endian words, as the
  // machine words that a byte copy gives, and the hash value it starts from.
  datatype Job = Job(m: seq<bv32>, raw: seq<bv32>, h: Regs, littleEndian: bool)

  ghost predicate ValidJob(job: Job) {
    && |job.m| == |job.raw| == 16
    && forall i | 0 <= i < 16 :: Blk0Word(job.raw[i], job.littleEndian) == job.m[i]
  }

  // The last of the first t words W(0), W(1), ... that is kept in place i (section 8).
  function Latest(t: nat, i: nat): nat
    requires i < 16 <= t
  {
    t - t % 16 + i - if i < t % 16 then 0 else 16
  }

  // The circular schedule before round t.
  ghost predicate Schedule(block: seq<bv32>, job: Job, t: nat) {
    && ValidJob(job)
    && |block| == 16
    && (t < 16 ==> forall i | 0 <= i < 16 :: block[i] == if i < t then job.m[i] else job.raw[i])
    && (t >= 16 ==> forall i | 0 <= i < 16 :: block[i] == W(job.m, Latest(t, i)))
  }

  // The registers of round t, in the order in which the round names them.
  ghost predicate At(t: nat, v: bv32, w: bv32, x: bv32, y: bv32, z: bv32, block: seq<bv32>, job: Job) {
    Schedule(block, job, t) && Regs(v, w, x, y, z) == Turns(job.m, job.h, t)
  }

  function Blk0Word(l: bv32, littleEndian: bool): bv32 {
    if littleEndian then (Rol(l, 24) & 0xFF00FF00) | (Rol(l, 8) & 0x00FF00FF) else l
  }

  function MachineWord(b0: bv8, b1: bv8, b2: bv8, b3: bv8, littleEndian: bool): bv32 {
    if littleEndian then BigEndian(b3, b2, b1, b0) else BigEndian(b0, b1, b2, b3)
  }

  // The block as a byte copy into an array of words leaves it.
  function MachineWords(buffer: seq<bv8>, littleEndian: bool): (l: seq<bv32>)
    requires |buffer| == 64
    ensures |l| == 16
  {
    seq(16, i requires 0 <= i < 16 =>
      MachineWord(buffer[4 * i], buffer[4 * i + 1], buffer[4 * i + 2], buffer[4 * i + 3], littleEndian))
  }

  lemma StartsAt(buffer: seq<bv8>, littleEndian: bool, h: Regs)
    requires |buffer| == 64
    ensures
      var l := MachineWords(buffer, littleEndian);
      At(0, h.a, h.b, h.c, h.d, h.e, l, Job(BlockWords(buffer), l, h, littleEndian))
  {
    hide Blk0Word, MachineWord, BigEndian;
    var l := MachineWords(buffer, littleEndian);
    forall i | 0 <= i < 16 ensures Blk0Word(l[i], littleEndian) == BlockWords(buffer)[i] {
      Blk0OfMachineWord(buffer[4 * i], buffer[4 * i + 1], buffer[4 * i + 2], buffer[4 * i + 3], littleEndian);
    }
  }

  lemma Blk0OfMachineWord(b0: bv8, b1: bv8, b2: bv8, b3: bv8, littleEndian: bool)
    ensures Blk0Word(MachineWord(b0, b1, b2, b3, littleEndian), littleEndian) == BigEndian(b0, b1, b2, b3)
  {
    hide Rol;
    var l := BigEndian(b3, b2, b1, b0);
    RolBytes(l);
    Reversed(b0 as bv32, b1 as bv32, b2 as bv32, b3 as bv32);
  }

  lemma RolBytes(l: bv32)
    ensures Rol(l, 24) == (l << 24) | (l >> 8) && Rol(l, 8) == (l << 8) | (l >> 24)
  {
  }

  lemma Reversed(b0: bv32, b1: bv32, b2: bv32, b3: bv32)
    requires b0 < 0x100 && b1 < 0x100 && b2 < 0x100 && b3 < 0x100
    ensures
      var l := (b3 << 24) | (b2 << 16) | (b1 << 8) | b0;
      (((l << 24) | (l >> 8)) & 0xFF00FF00) | (((l << 8) | (l >> 24)) & 0x00FF00FF)
        == (b0 << 24) | (b1 << 16) | (b2 << 8) | b3
  {
  }

  // The functions of the rounds as the source writes them.
  function Choice'(w: bv32, x: bv32, y: bv32): bv32 {
    (w & (x ^ y)) ^ y
  }

  function Majority'(w: bv32, x: bv32, y: bv32): bv32 {
    ((w | x) & y) | (w & x)
  }

  lemma ChoiceIsChoice(w: bv32, x: bv32, y: bv32)
    ensures Choice'(w, x, y) == Choice(w, x, y)
  {
    ChoiceBits(w, x, y);
  }

  lemma ChoiceBits(w: bv32, x: bv32, y: bv32)
    ensures (w & (x ^ y)) ^ y == (w & x) | (!w & y)
  {
  }

  lemma MajorityIsMajority(w: bv32, x: bv32, y: bv32)
    ensures Majority'(w, x, y) == Majority(w, x, y)
  {
    MajorityBits(w, x, y);
  }

  lemma MajorityBits(w: bv32, x: bv32, y: bv32)
    ensures ((w | x) & y) | (w & x) == (w & x) | (w & y) | (x & y)
  {
  }

  // z += f + blk + k + rol(v, 5)
  function Increase(z: bv32, f: bv32, blk: bv32, k: bv32, r: bv32): bv32 {
    z + (f + blk + k + r)
  }

  lemma IncreaseIsSum(z: bv32, f: bv32, blk: bv32, k: bv32, r: bv32)
    ensures Increase(z, f, blk, k, r) == Sum5(r, f, z, blk, k)
  {
  }

  method Blk0(i: nat, block: array<bv32>, ghost job: Job, littleEndian: bool) returns (b: bv32)
    requires i < 16 && block.Length == 16 && Schedule(block[..], job, i) && littleEndian == job.littleEndian
    modifies block
    ensures Schedule(block[..], job, i + 1) && b == W(job.m, i)
  {
    hide Blk0Word;
    block[i] := Blk0Word(block[i], littleEndian);
    b := block[i];
  }

  method Blk(i: nat, block: array<bv32>, ghost job: Job) returns (b: bv32)
    requires 16 <= i < 80 && block.Length == 16 && Schedule(block[..], job, i)
    modifies block
    ensures Schedule(block[..], job, i + 1) && b == W(job.m, i)
  {
    hide Rol, Mix, Blk0Word;
    LatestPlaces(i);
    block[i % 16] := Rol(Mix(block[(i + 13) % 16], block[(i + 8) % 16], block[(i + 2) % 16], block[i % 16]), 1);
    b := block[i % 16];
  }

  // The four places that round i reads and the one it overwrites.
  lemma LatestPlaces(i: nat)
    requires 16 <= i
    ensures Latest(i, (i + 13) % 16) == i - 3 && Latest(i, (i + 8) % 16) == i - 8
    ensures Latest(i, (i + 2) % 16) == i - 14 && Latest(i, i % 16) == i - 16
    ensures forall p: nat | p < 16 ::
      Latest(i + 1, p) == if p == i % 16 then i else Latest(i, p)
  {
    var r := i % 16;
    Modulo16(i, 13);
    Modulo16(i, 8);
    Modulo16(i, 2);
    Modulo16(i, 1);
  }

  lemma Modulo16(i: nat, d: nat)
    requires d < 16
    ensures (i + d) % 16 == if i % 16 + d < 16 then i % 16 + d else i % 16 + d - 16
  {
  }

  method R0(v: bv32, w: bv32, x: bv32, y: bv32, z: bv32, i: nat, block: array<bv32>, littleEndian: bool, ghost job: Job)
    returns (z': bv32, w': bv32)
    requires i < 16 && block.Length == 16 && At(i, v, w, x, y, z, block[..], job) && littleEndian == job.littleEndian
    modifies block
    ensures At(i + 1, z', v, w', x, y, block[..], job)
  {
    hide Rol, Sum5, Increase, Choice, Majority, Parity, Choice', Majority', Schedule, W;
    var b := Blk0(i, block, job, littleEndian);
    ChoiceIsChoice(w, x, y);
    IncreaseIsSum(z, Choice'(w, x, y), b, 0x5A827999, Rol(v, 5));
    z' := Increase(z, Choice'(w, x, y), b, 0x5A827999, Rol(v, 5));
    w' := Rol(w, 30);
  }

  method R1(v: bv32, w: bv32, x: bv32, y: bv32, z: bv32, i: nat, block: array<bv32>, ghost job: Job)
    returns (z': bv32, w': bv32)
    requires 16 <= i < 20 && block.Length == 16 && At(i, v, w, x, y, z, block[..], job)
    modifies block
    ensures At(i + 1, z', v, w', x, y, block[..], job)
  {
    hide Rol, Sum5, Increase, Choice, Majority, Parity, Choice', Majority', Schedule, W;
    var b := Blk(i, block, job);
    ChoiceIsChoice(w, x, y);
    IncreaseIsSum(z, Choice'(w, x, y), b, 0x5A827999, Rol(v, 5));
    z' := Increase(z, Choice'(w, x, y), b, 0x5A827999, Rol(v, 5));
    w' := Rol(w, 30);
  }

  method R2(v: bv32, w: bv32, x: bv32, y: bv32, z: bv32, i: nat, block: array<bv32>, ghost job: Job)
    returns (z': bv32, w': bv32)
    requires 20 <= i < 40 && block.Length == 16 && At(i, v, w, x, y, z, block[..], job)
    modifies block
    ensures At(i + 1, z', v, w', x, y, block[..], job)
  {
    hide Rol, Sum5, Increase, Choice, Majority, Parity, Choice', Majority', Schedule, W;
    var b := Blk(i, block, job);
    IncreaseIsSum(z, Parity(w, x, y), b, 0x6ED9EBA1, Rol(v, 5));
    z' := Increase(z, Parity(w, x, y), b, 0x6ED9EBA1, Rol(v, 5));
    w' := Rol(w, 30);
  }

  method R3(v: bv32, w: bv32, x: bv32, y: bv32, z: bv32, i: nat, block: array<bv32>, ghost job: Job)
    returns (z': bv32, w': bv32)
    requires 40 <= i < 60 && block.Length == 16 && At(i, v, w, x, y, z, block[..], job)
    modifies block
    ensures At(i + 1, z', v, w', x, y, block[..], job)
  {
    hide Rol, Sum5, Increase, Choice, Majority, Parity, Choice', Majority', Schedule, W;
    var b := Blk(i, block, job);
    MajorityIsMajority(w, x, y);
    IncreaseIsSum(z, Majority'(w, x, y), b, 0x8F1BBCDC, Rol(v, 5));
    z' := Increase(z, Majority'(w, x, y), b, 0x8F1BBCDC, Rol(v, 5));
    w' := Rol(w, 30);
  }

  method R4(v: bv32, w: bv32, x: bv32, y: bv32, z: bv32, i: nat, block: array<bv32>, ghost job: Job)
    returns (z': bv32, w': bv32)
    requires 60 <= i < 80 && block.Length == 16 && At(i, v, w, x, y, z, block[..], job)
    modifies block
    ensures At(i + 1, z', v, w', x, y, block[..], job)
  {
    hide Rol, Sum5, Increase, Choice, Majority, Parity, Choice', Majority', Schedule, W;
    var b := Blk(i, block, job);
    IncreaseIsSum(z, Parity(w, x, y), b, 0xCA62C1D6, Rol(v, 5));
    z' := Increase(z, Parity(w, x, y), b, 0xCA62C1D6, Rol(v, 5));
    w' := Rol(w, 30);
  }

  function RegsOf(state: seq<bv32>): Regs
    requires |state| == 5
  {
    Regs(state[0], state[1], state[2], state[3], state[4])
  }

  // Rounds 0 to 19, unrolled. The registers are renamed from round to round, not moved.
  method Rounds0(a0: bv32, b0: bv32, c0: bv32, d0: bv32, e0: bv32, block: array<bv32>, littleEndian: bool,
                 ghost job: Job)
    returns (a: bv32, b: bv32, c: bv32, d: bv32, e: bv32)
    requires block.Length == 16 && At(0, a0, b0, c0, d0, e0, block[..], job) && littleEndian == job.littleEndian
    modifies block
    ensures At(20, a, b, c, d, e, block[..], job)
  {
    hide *;
    a, b, c, d, e := a0, b0, c0, d0, e0;
    e, b := R0(a, b, c, d, e, 0, block, littleEndian, job);
    d, a := R0(e, a, b, c, d, 1, block, littleEndian, job);
    c, e := R0(d, e, a, b, c, 2, block, littleEndian, job);
    b, d := R0(c, d, e, a, b, 3, block, littleEndian, job);
    a, c := R0(b, c, d, e, a, 4, block, littleEndian, job);
    e, b := R0(a, b, c, d, e, 5, block, littleEndian, job);
    d, a := R0(e, a, b, c, d, 6, block, littleEndian, job);
    c, e := R0(d, e, a, b, c, 7, block, littleEndian, job);
    b, d := R0(c, d, e, a, b, 8, block, littleEndian, job);
    a, c := R0(b, c, d, e, a, 9, block, littleEndian, job);
    e, b := R0(a, b, c, d, e, 10, block, littleEndian, job);
    d, a := R0(e, a, b, c, d, 11, block, littleEndian, job);
    c, e := R0(d, e, a, b, c, 12, block, littleEndian, job);
    b, d := R0(c, d, e, a, b, 13, block, littleEndian, job);
    a, c := R0(b, c, d, e, a, 14, block, littleEndian, job);
    e, b := R0(a, b, c, d, e, 15, block, littleEndian, job);
    d, a := R1(e, a, b, c, d, 16, block, job);
    c, e := R1(d, e, a, b, c, 17, block, job);
    b, d := R1(c, d, e, a, b, 18, block, job);
    a, c := R1(b, c, d, e, a, 19, block, job);
  }

  // Rounds 20 to 39, unrolled. The registers are renamed from round to round, not moved.
  method Rounds20(a0: bv32, b0: bv32, c0: bv32, d0: bv32, e0: bv32, block: array<bv32>, ghost job: Job)
    returns (a: bv32, b: bv32, c: bv32, d: bv32, e: bv32)
    requires block.Length == 16 && At(20, a0, b0, c0, d0, e0, block[..], job)
    modifies block
    ensures At(40, a, b, c, d, e, block[..], job)
  {
    hide *;
    a, b, c, d, e := a0, b0, c0, d0, e0;
    e, b := R2(a, b, c, d, e, 20, block, job);
    d, a := R2(e, a, b, c, d, 21, block, job);
    c, e := R2(d, e, a, b, c, 22, block, job);
    b, d := R2(c, d, e, a, b, 23, block, job);
    a, c := R2(b, c, d, e, a, 24, block, job);
    e, b := R2(a, b, c, d, e, 25, block, job);
    d, a := R2(e, a, b, c, d, 26, block, job);
    c, e := R2(d, e, a, b, c, 27, block, job);
    b, d := R2(c, d, e, a, b, 28, block, job);
    a, c := R2(b, c, d, e, a, 29, block, job);
    e, b := R2(a, b, c, d, e, 30, block, job);
    d, a := R2(e, a, b, c, d, 31, block, job);
    c, e := R2(d, e, a, b, c, 32, block, job);
    b, d := R2(c, d, e, a, b, 33, block, job);
    a, c := R2(b, c, d, e, a, 34, block, job);
    e, b := R2(a, b, c, d, e, 35, block, job);
    d, a := R2(e, a, b, c, d, 36, block, job);
    c, e := R2(d, e, a, b, c, 37, block, job);
    b, d := R2(c, d, e, a, b, 38, block, job);
    a, c := R2(b, c, d, e, a, 39, block, job);
  }

  // Rounds 40 to 59, unrolled. The registers are renamed from round to round, not moved.
  method Rounds40(a0: bv32, b0: bv32, c0: bv32, d0: bv32, e0: bv32, block: array<bv32>, ghost job: Job)
    returns (a: bv32, b: bv32, c: bv32, d: bv32, e: bv32)
    requires block.Length == 16 && At(40, a0, b0, c0, d0, e0, block[..], job)
    modifies block
    ensures At(60, a, b, c, d, e, block[..], job)
  {
    hide *;
    a, b, c, d, e := a0, b0, c0, d0, e0;
    e, b := R3(a, b, c, d, e, 40, block, job);
    d, a := R3(e, a, b, c, d, 41, block, job);
    c, e := R3(d, e, a, b, c, 42, block, job);
    b, d := R3(c, d, e, a, b, 43, block, job);
    a, c := R3(b, c, d, e, a, 44, block, job);
    e, b := R3(a, b, c, d, e, 45, block, job);
    d, a := R3(e, a, b, c, d, 46, block, job);
    c, e := R3(d, e, a, b, c, 47, block, job);
    b, d := R3(c, d, e, a, b, 48, block, job);
    a, c := R3(b, c, d, e, a, 49, block, job);
    e, b := R3(a, b, c, d, e, 50, block, job);
    d, a := R3(e, a, b, c, d, 51, block, job);
    c, e := R3(d, e, a, b, c, 52, block, job);
    b, d := R3(c, d, e, a, b, 53, block, job);
    a, c := R3(b, c, d, e, a, 54, block, job);
    e, b := R3(a, b, c, d, e, 55, block, job);
    d, a := R3(e, a, b, c, d, 56, block, job);
    c, e := R3(d, e, a, b, c, 57, block, job);
    b, d := R3(c, d, e, a, b, 58, block, job);
    a, c := R3(b, c, d, e, a, 59, block, job);
  }

  // Rounds 60 to 79, unrolled. The registers are renamed from round to round, not moved.
  method Rounds60(a0: bv32, b0: bv32, c0: bv32, d0: bv32, e0: bv32, block: array<bv32>, ghost job: Job)
    returns (a: bv32, b: bv32, c: bv32, d: bv32, e: bv32)
    requires block.Length == 16 && At(60, a0, b0, c0, d0, e0, block[..], job)
    modifies block
    ensures At(80, a, b, c, d, e, block[..], job)
  {
    hide *;
    a, b, c, d, e := a0, b0, c0, d0, e0;
    e, b := R4(a, b, c, d, e, 60, block, job);
    d, a := R4(e, a, b, c, d, 61, block, job);
    c, e := R4(d, e, a, b, c, 62, block, job);
    b, d := R4(c, d, e, a, b, 63, block, job);
    a, c := R4(b, c, d, e, a, 64, block, job);
    e, b := R4(a, b, c, d, e, 65, block, job);
    d, a := R4(e, a, b, c, d, 66, block, job);
    c, e := R4(d, e, a, b, c, 67, block, job);
    b, d := R4(c, d, e, a, b, 68, block, job);
    a, c := R4(b, c, d, e, a, 69, block, job);
    e, b := R4(a, b, c, d, e, 70, block, job);
    d, a := R4(e, a, b, c, d, 71, block, job);
    c, e := R4(d, e, a, b, c, 72, block, job);
    b, d := R4(c, d, e, a, b, 73, block, job);
    a, c := R4(b, c, d, e, a, 74, block, job);
    e, b := R4(a, b, c, d, e, 75, block, job);
    d, a := R4(e, a, b, c, d, 76, block, job);
    c, e := R4(d, e, a, b, c, 77, block, job);
    b, d := R4(c, d, e, a, b, 78, block, job);
    a, c := R4(b, c, d, e, a, 79, block, job);
  }

  lemma RegsOfFive(state: seq<bv32>, a: bv32, b: bv32, c: bv32, d: bv32, e: bv32)
    requires |state| == 5 && state[0] == a && state[1] == b && state[2] == c && state[3] == d && state[4] == e
    ensures RegsOf(state) == Regs(a, b, c, d, e)
  {
  }

  lemma Finished(a: bv32, b: bv32, c: bv32, d: bv32, e: bv32, block: seq<bv32>, job: Job)
    requires At(80, a, b, c, d, e, block, job)
    ensures |job.m| == 16
    ensures Compress(job.h, job.m) == 
        Regs(Plus(job.h.a, a), Plus(job.h.b, b), Plus(job.h.c, c), Plus(job.h.d, d), Plus(job.h.e, e))
  {
    hide Turns, W, Blk0Word, Latest, Plus;
  }

  // SHA1Transform: hash one block into the state.
  method Transform(state: array<bv32>, buffer: seq<bv8>, littleEndian: bool)
    requires state.Length == 5 && |buffer| == 64
    modifies state
    ensures RegsOf(state[..]) == Compress(old(RegsOf(state[..])), BlockWords(buffer))
  {
    hide *;
    ghost var h := Regs(state[0], state[1], state[2], state[3], state[4]);
    RegsOfFive(state[..], h.a, h.b, h.c, h.d, h.e);
    var loaded := MachineWords(buffer, littleEndian);
    var block := new bv32[16](i requires 0 <= i < 16 => loaded[i]);
    assert block[..] == loaded;
    ghost var job := Job(BlockWords(buffer), loaded, h, littleEndian);
    StartsAt(buffer, littleEndian, h);
    var a, b, c, d, e := state[0], state[1], state[2], state[3], state[4];
    a, b, c, d, e := Rounds0(a, b, c, d, e, block, littleEndian, job);
    a, b, c, d, e := Rounds20(a, b, c, d, e, block, job);
    a, b, c, d, e := Rounds40(a, b, c, d, e, block, job);
    a, b, c, d, e := Rounds60(a, b, c, d, e, block, job);
    Finished(a, b, c, d, e, block[..], job);
    state[0] := Plus(state[0], a);
    state[1] := Plus(state[1], b);
    state[2] := Plus(state[2], c);
    state[3] := Plus(state[3], d);
    state[4] := Plus(state[4], e);
    RegsOfFive(state[..], Plus(h.a, a), Plus(h.b, b), Plus(h.c, c), Plus(h.d, d), Plus(h.e, e));
  }

  // ----- The context: buffered blocks and the two-word bit count -----

  lemma HashExtend(data: seq<bv8>, block: seq<bv8>)
    requires |data| % 64 == 0 && |block| == 64
    ensures Hash(data + block) == Compress(Hash(data), BlockWords(block))
  {
    hide Compress, BlockWords;
    assert (data + block)[..|data|] == data && (data + block)[|data|..] == block;
  }

  // The number of bits of n bytes as the words count[0] and count[1].
  function CountLow(n: nat): (c: nat)
    ensures c < 0x1_0000_0000
  {
    8 * n % 0x1_0000_0000
  }

  function CountHigh(n: nat): (c: nat)
    ensures c < 0x1_0000_0000
  {
    8 * n / 0x1_0000_0000 % 0x1_0000_0000
  }

  // What an unsigned 32-bit word holds of a number.
  function Wrap(x: nat): (w: nat)
    ensures w < 0x1_0000_0000
    ensures x < 0x1_0000_0000 ==> w == x
  {
    x % 0x1_0000_0000
  }

  // Adding len << 3 with a carry, then len >> 29.
  lemma CountAdds(n: nat, len: nat)
    requires len < 0x1_0000_0000
    ensures
      var low := Wrap(CountLow(n) + Wrap(len * 8));
      var carry := if low < CountLow(n) then 1 else 0;
      low == CountLow(n + len) && Wrap(Wrap(CountHigh(n) + carry) + len / 0x2000_0000) == CountHigh(n + len)
  {
    assert len / 0x2000_0000 == 8 * len / 0x1_0000_0000;
    BitsAdd(8 * n, 8 * len);
  }

  lemma BitsAdd(n: nat, l: nat)
    ensures
      var low := (n % 0x1_0000_0000 + l % 0x1_0000_0000) % 0x1_0000_0000;
      var carry := if low < n % 0x1_0000_0000 then 1 else 0;
      && low == (n + l) % 0x1_0000_0000
      && ((n / 0x1_0000_0000 % 0x1_0000_0000 + carry) % 0x1_0000_0000 + l / 0x1_0000_0000) % 0x1_0000_0000
         == (n + l) / 0x1_0000_0000 % 0x1_0000_0000
  {
    var q, a := n / 0x1_0000_0000, n % 0x1_0000_0000;
    var p, r := l / 0x1_0000_0000, l % 0x1_0000_0000;
    if a + r < 0x1_0000_0000 {
      Quotient(n + l, q + p, a + r);
      NestedMod(q, 0, p);
    } else {
      Quotient(n + l, q + p + 1, a + r - 0x1_0000_0000);
      NestedMod(q, 1, p);
    }
  }

  lemma NestedMod(q: nat, c: nat, p: nat)
    ensures ((q % 0x1_0000_0000 + c) % 0x1_0000_0000 + p) % 0x1_0000_0000 == (q + c + p) % 0x1_0000_0000
  {
    var u := (q % 0x1_0000_0000 + c) / 0x1_0000_0000;
    var s := (q % 0x1_0000_0000 + c) % 0x1_0000_0000;
    Quotient(q + c + p, q / 0x1_0000_0000 + u + (s + p) / 0x1_0000_0000, (s + p) % 0x1_0000_0000);
  }

  lemma Quotient(x: nat, q: nat, r: nat)
    requires x == 0x1_0000_0000 * q + r && r < 0x1_0000_0000
    ensures x / 0x1_0000_0000 == q && x % 0x1_0000_0000 == r
  {
  }

  lemma BufferedBytes(n: nat)
    ensures CountLow(n) / 8 % 64 == n % 64
  {
    var q := 8 * n / 0x1_0000_0000;
    assert CountLow(n) / 8 == n - 0x2000_0000 * q;
    Remainder64(n - 0x2000_0000 * q, n / 64 - 0x80_0000 * q, n % 64);
  }

  lemma Remainder64(x: nat, q: int, r: nat)
    requires x == 64 * q + r && r < 64
    ensures x % 64 == r
  {
  }

  lemma TailOf(before: seq<bv8>, data: seq<bv8>, i: nat)
    requires i <= |data|
    ensures (before + data)[|before| + i..] == data[i..]
  {
  }

  lemma HeadOf(before: seq<bv8>, data: seq<bv8>, full: nat)
    requires full <= |before|
    ensures (before + data)[..full] == before[..full]
    ensures (before + data)[full..] == before[full..] + data[0..]
  {
  }

  lemma FullBlocks(len: nat, full: nat)
    requires full % 64 == 0 && full <= len < full + 64
    ensures len / 64 * 64 == full
  {
  }

  class Sha1Ctx {
    const state: array<bv32>
    const count: array<nat>
    const buffer: array<bv8>
    const littleEndian: bool
    // Everything passed to Update so far.
    ghost var msg: seq<bv8>

    ghost predicate Valid()
      reads this, state, count, buffer
    {
      && state.Length == 5 && count.Length == 2 && buffer.Length == 64
      && var full := |msg| / 64 * 64;
      && RegsOf(state[..]) == Hash(msg[..full])
      && buffer[..|msg| - full] == msg[full..]
      && count[0] == CountLow(|msg|)
      && count[1] == CountHigh(|msg|)
    }

    // SHA1Init
    constructor (littleEndian: bool)
      ensures Valid() && msg == []
      ensures fresh(state) && fresh(count) && fresh(buffer) && this.littleEndian == littleEndian
    {
      state := new bv32[] [0x67452301, 0xEFCDAB89, 0x98BADCFE, 0x10325476, 0xC3D2E1F0];
      count := new nat[2](i => 0);
      buffer := new bv8[64](i => 0);
      this.littleEndian := littleEndian;
      msg := [];
    }

    method Advance(len: nat, ghost n: nat) returns (j: nat)
      requires count.Length == 2 && count[0] == CountLow(n) && count[1] == CountHigh(n) && len < 0x1_0000_0000
      modifies count
      ensures j == n % 64
      ensures count[0] == CountLow(n + len) && count[1] == CountHigh(n + len)
    {
      hide CountLow, CountHigh, Wrap;
      CountAdds(n, len);
      BufferedBytes(n);
      j := count[0];
      count[0] := Wrap(count[0] + Wrap(len * 8));
      if count[0] < j {
        count[1] := Wrap(count[1] + 1);
      }
      count[1] := Wrap(count[1] + len / 0x2000_0000);
      j := j / 8 % 64;
    }

    method CopyIntoBuffer(j: nat, data: seq<bv8>)
      requires buffer.Length == 64 && j + |data| <= 64
      modifies buffer
      ensures buffer[..j + |data|] == old(buffer[..j]) + data
    {
      for k := 0 to |data|
        invariant buffer[..j] == old(buffer[..j])
        invariant buffer[j..j + k] == data[..k]
      {
        buffer[j + k] := data[k];
      }
      assert buffer[..j + |data|] == buffer[..j] + buffer[j..j + |data|];
    }

    // The blocks completed by data: the first one through the buffer, the others in place.
    method TransformBlocks(j: nat, data: seq<bv8>, ghost before: seq<bv8>) returns (i: nat)
      requires state.Length == 5 && buffer.Length == 64 && j == |before| % 64 && j + |data| > 63
      requires RegsOf(state[..]) == Hash(before[..|before| - j]) && buffer[..j] == before[|before| - j..]
      modifies state, buffer
      ensures 0 < i <= |data| <= i + 63 && (|before| + i) % 64 == 0
      ensures RegsOf(state[..]) == Hash((before + data)[..|before| + i])
    {
      hide Hash, Compress, BlockWords, RegsOf;
      ghost var n := |before|;
      ghost var whole := before + data;
      i := 64 - j;
      CopyIntoBuffer(j, data[..i]);
      assert buffer[..64] == buffer[..];
      assert whole[..n + i] == before[..n - j] + buffer[..];
      HashExtend(before[..n - j], buffer[..]);
      Transform(state, buffer[..], littleEndian);
      while i + 63 < |data|
        invariant 0 < i <= |data| && (n + i) % 64 == 0
        invariant RegsOf(state[..]) == Hash(whole[..n + i])
      {
        assert whole[..n + (i + 64)] == whole[..n + i] + data[i..i + 64];
        HashExtend(whole[..n + i], data[i..i + 64]);
        Transform(state, data[i..i + 64], littleEndian);
        i := i + 64;
      }
    }

    // SHA1Update. The index arithmetic of the source is 32 bits wide.
    method Update(data: seq<bv8>)
      requires Valid() && |data| + 63 < 0x1_0000_0000
      modifies this`msg, state, count, buffer
      ensures Valid() && msg == old(msg) + data
    {
      hide Hash, CountLow, CountHigh, RegsOf;
      ghost var before := msg;
      ghost var whole := before + data;
      ghost var full := |before| - |before| % 64;
      FullBlocks(|before|, full);
      var j := Advance(|data|, |before|);
      var i := 0;
      if j + |data| > 63 {
        i := TransformBlocks(j, data, before);
        j := 0;
        full := |before| + i;
        TailOf(before, data, i);
      } else {
        HeadOf(before, data, full);
      }
      FullBlocks(|whole|, full);
      CopyIntoBuffer(j, data[i..]);
      assert buffer[..|whole| - full] == whole[full..];
      msg := whole;
    }

    lemma BitCount()
      requires Valid()
      ensures count.Length == 2 && count[0] / 8 % 64 == |msg| % 64
    {
      hide Hash, RegsOf, CountLow, CountHigh;
      BufferedBytes(|msg|);
    }

    method LengthBytes() returns (finalcount: array<bv8>)
      requires Valid()
      ensures fresh(finalcount) && finalcount[..] == LengthWords(8 * |msg|)
    {
      hide NumberByte, Hash, RegsOf;
      finalcount := new bv8[8](i => 0);
      ghost var bytes := LengthWords(8 * |msg|);
      for i := 0 to 8
        invariant forall p | 0 <= p < i :: finalcount[p] == bytes[p]
      {
        finalcount[i] := NumberByte(count[if i >= 4 then 0 else 1], i % 4);
      }
      assert finalcount[..] == bytes;
    }

    // The padding loop: zeros until the count of bits is 448 modulo 512.
    method PadWithZeros(ghost m: seq<bv8>)
      requires Valid() && msg == m + [0x80]
      modifies this`msg, state, count, buffer
      ensures Valid() && msg == m + [0x80] + Zeros(PadZeros(|m|))
    {
      hide Valid, PadZeros, Zeros;
      ghost var k := 0;
      NoZeros();
      BitCount();
      assert msg == m + [0x80] + Zeros(0);
      while count[0] / 8 % 64 * 8 != 448
        invariant Valid() && k <= PadZeros(|m|) && msg == m + [0x80] + Zeros(k)
        decreases PadZeros(|m|) - k
      {
        BitCount();
        Padded(|m|, k);
        Update([0]);
        k := k + 1;
        OneMoreZero(k - 1);
      }
      BitCount();
      Padded(|m|, k);
    }

    method PadAndHash(ghost m: seq<bv8>)
      requires Valid() && msg == m
      modifies this`msg, state, count, buffer
      ensures state.Length == 5 && count.Length == 2 && buffer.Length == 64
      ensures RegsOf(state[..]) == Hash(Pad(m))
    {
      hide Hash, RegsOf, CountLow, CountHigh, LengthWords;
      var finalcount := LengthBytes();
      Update([0x80]);
      PadWithZeros(m);
      Update(finalcount[..]);
      assert msg == Pad(m);
      FullBlocks(|msg|, |msg|);
      assert msg[..|msg|] == msg;
    }

    // SHA1Final
    method Final(digest: array<bv8>)
      requires Valid() && digest.Length == 20 && digest != buffer
      modifies this`msg, state, count, buffer, digest
      ensures digest[..] == Digest(old(msg))
      ensures forall i | 0 <= i < state.Length :: state[i] == 0
      ensures forall i | 0 <= i < count.Length :: count[i] == 0
      ensures forall i | 0 <= i < buffer.Length :: buffer[i] == 0
    {
      hide Hash, RegsOf, CountLow, CountHigh, LengthWords, WordByte, DigestBytes, Pad;
      ghost var bytes := Digest(msg);
      PadAndHash(msg);
      ghost var words := state[..];
      for i := 0 to 20
        invariant state[..] == words && forall p | 0 <= p < i :: digest[p] == bytes[p]
      {
        DigestByte(state[..], i);
        digest[i] := WordByte(state[i / 4], i % 4);
      }
      assert digest[..] == bytes;
      Wipe();
    }

    method Wipe()
      requires state.Length == 5 && count.Length == 2 && buffer.Length == 64
      modifies state, count, buffer
      ensures forall i | 0 <= i < state.Length :: state[i] == 0
      ensures forall i | 0 <= i < count.Length :: count[i] == 0
      ensures forall i | 0 <= i < buffer.Length :: buffer[i] == 0
    {
      forall i | 0 <= i < state.Length { state[i] := 0; }
      forall i | 0 <= i < count.Length { count[i] := 0; }
      forall i | 0 <= i < buffer.Length { buffer[i] := 0; }
    }
  }

  lemma NoZeros()
    ensures Zeros(0) == []
  {
  }

  lemma OneMoreZero(k: nat)
    ensures Zeros(k + 1) == Zeros(k) + [0]
  {
  }

  // With k zeros the message is 56 bytes into a block exactly when k is the padding.
  lemma Padded(n: nat, k: nat)
    requires k <= PadZeros(n)
    ensures (n + 1 + k) % 64 * 8 == 448 <==> k == PadZeros(n)
  {
  }

  lemma DigestByte(state: seq<bv32>, i: nat)
    requires |state| == 5 && i < 20
    ensures DigestBytes(RegsOf(state))[i] == WordByte(state[i / 4], i % 4)
  {
    hide WordByte, WordBytes;
    WordBytesAt(state[i / 4], i % 4);
    if i < 4 {} else if i < 8 {} else if i < 12 {} else if i < 16 {} else {}
  }

  lemma WordBytesAt(w: bv32, k: nat)
    requires k < 4
    ensures |WordBytes(w)| == 4 && WordBytes(w)[k] == WordByte(w, k)
  {
    hide WordByte;
  }

  // SHA1: one byte at a time.
  method Sha1(str: seq<bv8>, littleEndian: bool) returns (hash: array<bv8>)
    ensures hash[..] == Digest(str)
  {
    hide Digest, Sha1Ctx.Valid;
    var ctx := new Sha1Ctx(littleEndian);
    for ii := 0 to |str|
      invariant ctx.Valid() && ctx.msg == str[..ii]
      invariant fresh(ctx) && fresh(ctx.state) && fresh(ctx.count) && fresh(ctx.buffer)
    {
      ctx.Update([str[ii]]);
    }
    hash := new bv8[20](i => 0);
    ctx.Final(hash);
    assert str[..|str|] == str;
  }

  // However the message is cut into pieces, the digest is that of the whole.
  method Streamed(pieces: seq<seq<bv8>>, littleEndian: bool) returns (hash: array<bv8>)
    requires forall p | p in pieces :: |p| + 63 < 0x1_0000_0000
    ensures hash[..] == Digest(Concat(pieces))
  {
    hide Digest, Sha1Ctx.Valid;
    var ctx := new Sha1Ctx(littleEndian);
    for n := 0 to |pieces|
      invariant ctx.Valid() && ctx.msg == Concat(pieces[..n])
      invariant fresh(ctx) && fresh(ctx.state) && fresh(ctx.count) && fresh(ctx.buffer)
    {
      assert pieces[..n + 1] == pieces[..n] + [pieces[n]];
      ctx.Update(pieces[n]);
    }
    hash := new bv8[20](i => 0);
    ctx.Final(hash);
    assert pieces[..|pieces|] == pieces;
  }

  function Concat(pieces: seq<seq<bv8>>): seq<bv8> {
    if pieces == [] then [] else Concat(pieces[..|pieces| - 1]) + pieces[|pieces| - 1]
  }

  // ----- The name under which a script is cached: its digest in hexadecimal -----

  const DIGITS := "0123456789abcdef"

  function Hex(d: seq<bv8>): (s: string)
    ensures |s| == 2 * |d|
  {
    if d == [] then "" else Hex(d[..|d| - 1]) + HexByte(d[|d| - 1])
  }

  function HexByte(b: bv8): string {
    [DIGITS[(b >> 4) as nat], DIGITS[(b & 15) as nat]]
  }

  // The value of a lower-case hexadecimal digit.
  function Digit(c: char): nat {
    if '0' <= c <= '9' then c as nat - '0' as nat
    else if 'a' <= c <= 'f' then c as nat - 'a' as nat + 10
    else 16
  }

  // A byte is named by the two digits of its value, the higher one first.
  lemma HexByteMeans(b: bv8)
    ensures Digit(HexByte(b)[0]) < 16 && Digit(HexByte(b)[1]) < 16
    ensures 16 * Digit(HexByte(b)[0]) + Digit(HexByte(b)[1]) == b as nat
  {
    DigitsMean((b >> 4) as nat);
    DigitsMean((b & 15) as nat);
    Halves(b);
  }

  lemma DigitsMean(n: nat)
    requires n < 16
    ensures Digit(DIGITS[n]) == n
  {
  }

  lemma Halves(b: bv8)
    ensures 16 * (b >> 4) as nat + (b & 15) as nat == b as nat
  {
    var high, low := b >> 4, b & 15;
    assert b == (high << 4) + low;
    assert (high << 4) as nat == 16 * high as nat;
  }

  // Each byte of a digest is named in its place.
  lemma {:induction false} HexMeans(d: seq<bv8>, i: nat)
    requires i < |d|
    ensures Hex(d)[2 * i..2 * i + 2] == HexByte(d[i])
  {
    hide HexByte;
    var n := |d| - 1;
    if i < n {
      HexMeans(d[..n], i);
    }
  }

  // Different digests have different names.
  lemma {:induction false} HexInjective(a: seq<bv8>, b: seq<bv8>)
    requires Hex(a) == Hex(b)
    ensures a == b
  {
    hide HexByte;
    if |a| > 0 {
      var n := |a| - 1;
      assert |b| == |a|;
      assert Hex(a)[..2 * n] == Hex(a[..n]) && Hex(b)[..2 * n] == Hex(b[..n]);
      assert Hex(a)[2 * n..] == HexByte(a[n]) && Hex(b)[2 * n..] == HexByte(b[n]);
      HexInjective(a[..n], b[..n]);
      HexByteInjective(a[n], b[n]);
    }
  }

  lemma HexByteInjective(x: bv8, y: bv8)
    requires HexByte(x) == HexByte(y)
    ensures x == y
  {
    Nibble(x >> 4, y >> 4);
    Nibble(x & 15, y & 15);
    assert (x >> 4 << 4) | (x & 15) == x && (y >> 4 << 4) | (y & 15) == y;
  }

  lemma Nibble(x: bv8, y: bv8)
    requires x < 16 && y < 16 && DIGITS[x as nat] == DIGITS[y as nat]
    ensures x == y
  {
  }

  // sha1 of src/core.c
  method ScriptName(script: seq<bv8>, littleEndian: bool) returns (name: string)
    requires |script| + 63 < 0x1_0000_0000
    ensures name == Hex(Digest(script)) && |name| == 40
  {
    hide Digest, Sha1Ctx.Valid;
    var ctx := new Sha1Ctx(littleEndian);
    ctx.Update(script);
    assert ctx.msg == script;
    var buffer := new bv8[20](i => 0);
    ctx.Final(buffer);
    name := "";
    for i := 0 to 20
      invariant name == Hex(buffer[..i])
    {
      assert buffer[..i + 1][..i] == buffer[..i];
      name := name + HexByte(buffer[i]);
    }
    assert buffer[..20] == buffer[..];
  }
}
