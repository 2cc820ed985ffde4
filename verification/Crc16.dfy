/** CRC-16/XMODEM as computed by src/crc16.c, against division of binary polynomials. */
module Crc16 {

  // ----- The specification: long division by x^16 + x^12 + x^5 + 1 over GF(2) -----

  // Polynomials of degree below 16, the coefficient of x^15 first. Their sum.
  function Add(p: bv16, q: bv16): bv16 {
    p ^ q
  }

  // r * x, reduced by the generator.
  function TimesX(r: bv16): bv16 {
    if r & 0x8000 != 0 then (r << 1) ^ 0x1021 else r << 1
  }

  // The next digit of the long division: the remainder of r * x + b.
  function DivStep(r: bv16, b: bool): bv16 {
    Add(TimesX(r), if b then 1 else 0)
  }

  // Eight digits of the division: the coefficients of a byte, most significant bit first.
  function DivByte(r: bv16, b: bv8): bv16 {
    var r := DivStep(DivStep(r, b & 0x80 != 0), b & 0x40 != 0);
    var r := DivStep(DivStep(r, b & 0x20 != 0), b & 0x10 != 0);
    var r := DivStep(DivStep(r, b & 0x08 != 0), b & 0x04 != 0);
    DivStep(DivStep(r, b & 0x02 != 0), b & 0x01 != 0)
  }

  // The remainder left by the polynomial whose coefficients are the bits of msg.
  function Remainder(msg: seq<bv8>): bv16 {
    if msg == [] then 0 else DivByte(Remainder(msg[..|msg| - 1]), msg[|msg| - 1])
  }

  // The check value: the remainder of message * x^16.
  function Crc(msg: seq<bv8>): bv16 {
    Remainder(msg + [0, 0])
  }

  // ----- The table and the loop -----

  // The 256 entries, in the 32 rows of 8 in which the source prints them.
  const CRC16TAB: seq<seq<bv16>> := [
    [0x0000, 0x1021, 0x2042, 0x3063, 0x4084, 0x50a5, 0x60c6, 0x70e7],
    [0x8108, 0x9129, 0xa14a, 0xb16b, 0xc18c, 0xd1ad, 0xe1ce, 0xf1ef],
    [0x1231, 0x0210, 0x3273, 0x2252, 0x52b5, 0x4294, 0x72f7, 0x62d6],
    [0x9339, 0x8318, 0xb37b, 0xa35a, 0xd3bd, 0xc39c, 0xf3ff, 0xe3de],
    [0x2462, 0x3443, 0x0420, 0x1401, 0x64e6, 0x74c7, 0x44a4, 0x5485],
    [0xa56a, 0xb54b, 0x8528, 0x9509, 0xe5ee, 0xf5cf, 0xc5ac, 0xd58d],
    [0x3653, 0x2672, 0x1611, 0x0630, 0x76d7, 0x66f6, 0x5695, 0x46b4],
    [0xb75b, 0xa77a, 0x9719, 0x8738, 0xf7df, 0xe7fe, 0xd79d, 0xc7bc],
    [0x48c4, 0x58e5, 0x6886, 0x78a7, 0x0840, 0x1861, 0x2802, 0x3823],
    [0xc9cc, 0xd9ed, 0xe98e, 0xf9af, 0x8948, 0x9969, 0xa90a, 0xb92b],
    [0x5af5, 0x4ad4, 0x7ab7, 0x6a96, 0x1a71, 0x0a50, 0x3a33, 0x2a12],
    [0xdbfd, 0xcbdc, 0xfbbf, 0xeb9e, 0x9b79, 0x8b58, 0xbb3b, 0xab1a],
    [0x6ca6, 0x7c87, 0x4ce4, 0x5cc5, 0x2c22, 0x3c03, 0x0c60, 0x1c41],
    [0xedae, 0xfd8f, 0xcdec, 0xddcd, 0xad2a, 0xbd0b, 0x8d68, 0x9d49],
    [0x7e97, 0x6eb6, 0x5ed5, 0x4ef4, 0x3e13, 0x2e32, 0x1e51, 0x0e70],
    [0xff9f, 0xefbe, 0xdfdd, 0xcffc, 0xbf1b, 0xaf3a, 0x9f59, 0x8f78],
    [0x9188, 0x81a9, 0xb1ca, 0xa1eb, 0xd10c, 0xc12d, 0xf14e, 0xe16f],
    [0x1080, 0x00a1, 0x30c2, 0x20e3, 0x5004, 0x4025, 0x7046, 0x6067],
    [0x83b9, 0x9398, 0xa3fb, 0xb3da, 0xc33d, 0xd31c, 0xe37f, 0xf35e],
    [0x02b1, 0x1290, 0x22f3, 0x32d2, 0x4235, 0x5214, 0x6277, 0x7256],
    [0xb5ea, 0xa5cb, 0x95a8, 0x8589, 0xf56e, 0xe54f, 0xd52c, 0xc50d],
    [0x34e2, 0x24c3, 0x14a0, 0x0481, 0x7466, 0x6447, 0x5424, 0x4405],
    [0xa7db, 0xb7fa, 0x8799, 0x97b8, 0xe75f, 0xf77e, 0xc71d, 0xd73c],
    [0x26d3, 0x36f2, 0x0691, 0x16b0, 0x6657, 0x7676, 0x4615, 0x5634],
    [0xd94c, 0xc96d, 0xf90e, 0xe92f, 0x99c8, 0x89e9, 0xb98a, 0xa9ab],
    [0x5844, 0x4865, 0x7806, 0x6827, 0x18c0, 0x08e1, 0x3882, 0x28a3],
    [0xcb7d, 0xdb5c, 0xeb3f, 0xfb1e, 0x8bf9, 0x9bd8, 0xabbb, 0xbb9a],
    [0x4a75, 0x5a54, 0x6a37, 0x7a16, 0x0af1, 0x1ad0, 0x2ab3, 0x3a92],
    [0xfd2e, 0xed0f, 0xdd6c, 0xcd4d, 0xbdaa, 0xad8b, 0x9de8, 0x8dc9],
    [0x7c26, 0x6c07, 0x5c64, 0x4c45, 0x3ca2, 0x2c83, 0x1ce0, 0x0cc1],
    [0xef1f, 0xff3e, 0xcf5d, 0xdf7c, 0xaf9b, 0xbfba, 0x8fd9, 0x9ff8],
    [0x6e17, 0x7e36, 0x4e55, 0x5e74, 0x2e93, 0x3eb2, 0x0ed1, 0x1ef0]
  ]

  // crc16tab[i] of the source.
  function TableEntry(i: bv16): bv16
    requires i < 0x100
  {
    TableShape();
    CRC16TAB[(i >> 3) as nat][(i & 7) as nat]
  }

  lemma TableShape()
    ensures |CRC16TAB| == 32
    ensures forall r: nat | r < 32 :: |CRC16TAB[r]| == 8
  {
  }

  // The row of the table that starts at index i.
  predicate RowOk(row: seq<bv16>, i: bv16) {
    && |row| == 8
    && row[0] == TimesX8(i << 8) && row[1] == TimesX8((i + 1) << 8)
    && row[2] == TimesX8((i + 2) << 8) && row[3] == TimesX8((i + 3) << 8)
    && row[4] == TimesX8((i + 4) << 8) && row[5] == TimesX8((i + 5) << 8)
    && row[6] == TimesX8((i + 6) << 8) && row[7] == TimesX8((i + 7) << 8)
  }

  lemma InRow(row: seq<bv16>, start: bv16, i: bv16)
    requires start & 7 == 0 && i & 0xFFF8 == start && RowOk(row, start)
    ensures row[(i & 7) as nat] == TimesX8(i << 8)
  {
    var c := i & 7;
    assert i == start + c;
    if c == 0 {} else if c == 1 {} else if c == 2 {} else if c == 3 {}
    else if c == 4 {} else if c == 5 {} else if c == 6 {} else {
      assert c == 7;
    }
  }

  lemma Rows0()
    ensures |CRC16TAB| == 32
    ensures RowOk(CRC16TAB[0], 0x00) && RowOk(CRC16TAB[1], 0x08)
    ensures RowOk(CRC16TAB[2], 0x10) && RowOk(CRC16TAB[3], 0x18)
  {
    assert RowOk(CRC16TAB[0], 0x00);
    assert RowOk(CRC16TAB[1], 0x08);
    assert RowOk(CRC16TAB[2], 0x10);
    assert RowOk(CRC16TAB[3], 0x18);
  }

  lemma Rows1()
    ensures |CRC16TAB| == 32
    ensures RowOk(CRC16TAB[4], 0x20) && RowOk(CRC16TAB[5], 0x28)
    ensures RowOk(CRC16TAB[6], 0x30) && RowOk(CRC16TAB[7], 0x38)
  {
    assert RowOk(CRC16TAB[4], 0x20);
    assert RowOk(CRC16TAB[5], 0x28);
    assert RowOk(CRC16TAB[6], 0x30);
    assert RowOk(CRC16TAB[7], 0x38);
  }

  lemma Rows2()
    ensures |CRC16TAB| == 32
    ensures RowOk(CRC16TAB[8], 0x40) && RowOk(CRC16TAB[9], 0x48)
    ensures RowOk(CRC16TAB[10], 0x50) && RowOk(CRC16TAB[11], 0x58)
  {
    assert RowOk(CRC16TAB[8], 0x40);
    assert RowOk(CRC16TAB[9], 0x48);
    assert RowOk(CRC16TAB[10], 0x50);
    assert RowOk(CRC16TAB[11], 0x58);
  }

  lemma Rows3()
    ensures |CRC16TAB| == 32
    ensures RowOk(CRC16TAB[12], 0x60) && RowOk(CRC16TAB[13], 0x68)
    ensures RowOk(CRC16TAB[14], 0x70) && RowOk(CRC16TAB[15], 0x78)
  {
    assert RowOk(CRC16TAB[12], 0x60);
    assert RowOk(CRC16TAB[13], 0x68);
    assert RowOk(CRC16TAB[14], 0x70);
    assert RowOk(CRC16TAB[15], 0x78);
  }

  lemma Rows4()
    ensures |CRC16TAB| == 32
    ensures RowOk(CRC16TAB[16], 0x80) && RowOk(CRC16TAB[17], 0x88)
    ensures RowOk(CRC16TAB[18], 0x90) && RowOk(CRC16TAB[19], 0x98)
  {
    assert RowOk(CRC16TAB[16], 0x80);
    assert RowOk(CRC16TAB[17], 0x88);
    assert RowOk(CRC16TAB[18], 0x90);
    assert RowOk(CRC16TAB[19], 0x98);
  }

  lemma Rows5()
    ensures |CRC16TAB| == 32
    ensures RowOk(CRC16TAB[20], 0xa0) && RowOk(CRC16TAB[21], 0xa8)
    ensures RowOk(CRC16TAB[22], 0xb0) && RowOk(CRC16TAB[23], 0xb8)
  {
    assert RowOk(CRC16TAB[20], 0xa0);
    assert RowOk(CRC16TAB[21], 0xa8);
    assert RowOk(CRC16TAB[22], 0xb0);
    assert RowOk(CRC16TAB[23], 0xb8);
  }

  lemma Rows6()
    ensures |CRC16TAB| == 32
    ensures RowOk(CRC16TAB[24], 0xc0) && RowOk(CRC16TAB[25], 0xc8)
    ensures RowOk(CRC16TAB[26], 0xd0) && RowOk(CRC16TAB[27], 0xd8)
  {
    assert RowOk(CRC16TAB[24], 0xc0);
    assert RowOk(CRC16TAB[25], 0xc8);
    assert RowOk(CRC16TAB[26], 0xd0);
    assert RowOk(CRC16TAB[27], 0xd8);
  }

  lemma Rows7()
    ensures |CRC16TAB| == 32
    ensures RowOk(CRC16TAB[28], 0xe0) && RowOk(CRC16TAB[29], 0xe8)
    ensures RowOk(CRC16TAB[30], 0xf0) && RowOk(CRC16TAB[31], 0xf8)
  {
    assert RowOk(CRC16TAB[28], 0xe0);
    assert RowOk(CRC16TAB[29], 0xe8);
    assert RowOk(CRC16TAB[30], 0xf0);
    assert RowOk(CRC16TAB[31], 0xf8);
  }

  lemma RowAt(r: bv16)
    requires r < 32
    ensures |CRC16TAB| == 32 && RowOk(CRC16TAB[r as nat], r << 3)
  {
    hide CRC16TAB, RowOk;
    if r < 16 {
      if r < 4 { Rows0(); } else if r < 8 { Rows1(); } else if r < 12 { Rows2(); } else { Rows3(); }
    } else {
      if r < 20 { Rows4(); } else if r < 24 { Rows5(); } else if r < 28 { Rows6(); } else { Rows7(); }
    }
  }

  lemma TableRow(i: bv16)
    requires i < 0x100
    ensures TableEntry(i) == TimesX8(i << 8)
  {
    hide TimesX8, High;
    RowAt(i >> 3);
    InRow(CRC16TAB[(i >> 3) as nat], (i >> 3) << 3, i);
  }

  // Every entry of the table is the check value of its one-byte index.
  lemma TableIsDivision(b: bv8)
    ensures TableEntry(b as bv16) == Crc([b])
  {
    hide TimesX8, Add, Crc, TableEntry;
    TableRow(b as bv16);
    assert [b] == [] + [b];
    CrcExtend([], b);
    CrcEmpty();
    AddZero(High(b));
  }

  method Crc16(buf: seq<bv8>) returns (crc: bv16)
    ensures crc == Crc(buf)
  {
    hide CrcStep, TimesX8, Add, Crc, High;
    crc := 0;
    CrcEmpty();
    for counter := 0 to |buf|
      invariant crc == Crc(buf[..counter])
    {
      assert buf[..counter + 1] == buf[..counter] + [buf[counter]];
      CrcExtend(buf[..counter], buf[counter]);
      TableStep(crc, buf[counter]);
      crc := CrcStep(crc, buf[counter]);
    }
    assert buf[..|buf|] == buf;
  }

  function TableIndex(crc: bv16, b: bv8): (i: bv16)
    ensures i < 0x100
  {
    ((crc >> 8) ^ (b as bv16)) & 0x00FF
  }

  // The loop body.
  function CrcStep(crc: bv16, b: bv8): bv16 {
    (crc << 8) ^ TableEntry(TableIndex(crc, b))
  }

  // One turn of the table-driven loop is eight digits of the division.
  lemma TableStep(crc: bv16, b: bv8)
    ensures CrcStep(crc, b) == TimesX8(Add(crc, High(b)))
  {
    hide *;
    var i := TableIndex(crc, b);
    TableRow(i);
    CrcStepIsSum(crc, b);
    SplitRegister(crc, b);
    TimesX8Linear(crc & 0x00FF, i << 8);
    TimesX8Low(crc & 0x00FF);
  }

  lemma CrcStepIsSum(crc: bv16, b: bv8)
    ensures CrcStep(crc, b) == Add(crc << 8, TableEntry(TableIndex(crc, b)))
  {
    hide TableEntry, TableIndex;
  }

  lemma SplitRegister(crc: bv16, b: bv8)
    ensures Add(crc, High(b)) == Add(crc & 0x00FF, TableIndex(crc, b) << 8)
    ensures (crc & 0x00FF) << 8 == crc << 8
  {
    hide Add, TableIndex, High;
    HighHalf(crc, b);
    Halves(crc);
    AddAssociates(crc & 0x00FF, crc & 0xFF00, High(b));
  }

  lemma Halves(crc: bv16)
    ensures crc == Add(crc & 0x00FF, crc & 0xFF00)
    ensures (crc & 0x00FF) << 8 == crc << 8
  {
  }

  lemma HighHalf(crc: bv16, b: bv8)
    ensures TableIndex(crc, b) << 8 == Add(crc & 0xFF00, High(b))
  {
  }

  // ----- The algebra of the division -----

  function TimesX8(r: bv16): bv16 {
    TimesX(TimesX(TimesX(TimesX(TimesX(TimesX(TimesX(TimesX(r))))))))
  }

  lemma AddZero(p: bv16)
    ensures Add(p, 0) == p && Add(0, p) == p
  {
  }

  lemma AddCommutes(p: bv16, q: bv16)
    ensures Add(p, q) == Add(q, p)
  {
  }

  lemma AddAssociates(p: bv16, q: bv16, r: bv16)
    ensures Add(Add(p, q), r) == Add(p, Add(q, r))
  {
  }

  lemma AddVanishes(p: bv16, q: bv16)
    ensures Add(p, q) == 0 <==> p == q
  {
  }

  lemma AddExchange(p: bv16, q: bv16, r: bv16, s: bv16)
    ensures Add(Add(p, q), Add(r, s)) == Add(Add(p, r), Add(q, s))
  {
    hide Add;
    AddAssociates(p, q, Add(r, s));
    AddAssociates(q, r, s);
    AddCommutes(q, r);
    AddAssociates(r, q, s);
    AddAssociates(p, r, Add(q, s));
  }

  lemma TimesXLinear(a: bv16, b: bv16)
    ensures TimesX(Add(a, b)) == Add(TimesX(a), TimesX(b))
  {
    hide Add, Overflow, TimesX;
    ShiftLinear(a, b);
    TopLinear(a, b);
    TimesXIsSum(a);
    TimesXIsSum(b);
    TimesXIsSum(Add(a, b));
    OverflowLinear(a & 0x8000 != 0, b & 0x8000 != 0);
    AddExchange(a << 1, Overflow(a & 0x8000 != 0), b << 1, Overflow(b & 0x8000 != 0));
  }

  // x^16 itself, reduced by the generator.
  function Overflow(b: bool): bv16 {
    if b then 0x1021 else 0
  }

  lemma TimesXIsSum(a: bv16)
    ensures TimesX(a) == Add(a << 1, Overflow(a & 0x8000 != 0))
  {
    AddZero(a << 1);
    if a & 0x8000 != 0 {} else {}
  }

  lemma ShiftLinear(a: bv16, b: bv16)
    ensures Add(a, b) << 1 == Add(a << 1, b << 1)
  {
    hide Add;
    AddIsXor(a, b);
    AddIsXor(a << 1, b << 1);
    ShiftXor(a, b);
  }

  lemma ShiftXor(a: bv16, b: bv16)
    ensures (a ^ b) << 1 == (a << 1) ^ (b << 1)
  {
  }

  lemma AddIsXor(p: bv16, q: bv16)
    ensures Add(p, q) == p ^ q
  {
  }

  lemma TopLinear(a: bv16, b: bv16)
    ensures (Add(a, b) & 0x8000 != 0) == ((a & 0x8000 != 0) != (b & 0x8000 != 0))
  {
  }

  lemma OverflowLinear(a: bool, b: bool)
    ensures Overflow(a != b) == Add(Overflow(a), Overflow(b))
  {
  }

  // Multiplication by x loses nothing, because the generator has a constant term.
  lemma TimesXVanishes(a: bv16)
    ensures TimesX(a) == 0 <==> a == 0
  {
  }

  lemma TimesX8Linear(a: bv16, b: bv16)
    ensures TimesX8(Add(a, b)) == Add(TimesX8(a), TimesX8(b))
  {
    hide TimesX, Add;
    var a1, b1 := TimesX(a), TimesX(b);
    var a2, b2 := TimesX(a1), TimesX(b1);
    var a3, b3 := TimesX(a2), TimesX(b2);
    var a4, b4 := TimesX(a3), TimesX(b3);
    var a5, b5 := TimesX(a4), TimesX(b4);
    var a6, b6 := TimesX(a5), TimesX(b5);
    var a7, b7 := TimesX(a6), TimesX(b6);
    TimesXLinear(a, b); TimesXLinear(a1, b1); TimesXLinear(a2, b2); TimesXLinear(a3, b3);
    TimesXLinear(a4, b4); TimesXLinear(a5, b5); TimesXLinear(a6, b6); TimesXLinear(a7, b7);
  }

  lemma TimesX8Injective(a: bv16, b: bv16)
    requires TimesX8(a) == TimesX8(b)
    ensures a == b
  {
    hide TimesX, Add;
    var d := Add(a, b);
    var d1 := TimesX(d);
    var d2 := TimesX(d1);
    var d3 := TimesX(d2);
    var d4 := TimesX(d3);
    var d5 := TimesX(d4);
    var d6 := TimesX(d5);
    var d7 := TimesX(d6);
    TimesX8Linear(a, b);
    AddVanishes(TimesX8(a), TimesX8(b));
    TimesXVanishes(d7); TimesXVanishes(d6); TimesXVanishes(d5); TimesXVanishes(d4);
    TimesXVanishes(d3); TimesXVanishes(d2); TimesXVanishes(d1); TimesXVanishes(d);
    AddVanishes(a, b);
  }

  // Nothing is reduced while the degree stays below 16.
  lemma TimesX8Low(a: bv16)
    requires a < 0x100
    ensures TimesX8(a) == a << 8
  {
  }

  lemma DivStepSplit(a: bv16, p: bv16, b: bool)
    ensures DivStep(Add(a, p), b) == Add(TimesX(a), DivStep(p, b))
  {
    hide TimesX, Add;
    TimesXLinear(a, p);
    AddAssociates(TimesX(a), TimesX(p), if b then 1 else 0);
  }

  // The bits of one byte alone are not reduced.
  lemma DivByteFromZero(b: bv8)
    ensures DivByte(0, b) == b as bv16
  {
  }

  lemma DivByteIsShift(r: bv16, b: bv8)
    ensures DivByte(r, b) == Add(TimesX8(r), b as bv16)
  {
    hide TimesX, Add, DivStep;
    var r1 := TimesX(r);
    var r2 := TimesX(r1);
    var r3 := TimesX(r2);
    var r4 := TimesX(r3);
    var r5 := TimesX(r4);
    var r6 := TimesX(r5);
    var r7 := TimesX(r6);
    var p1 := DivStep(0, b & 0x80 != 0);
    var p2 := DivStep(p1, b & 0x40 != 0);
    var p3 := DivStep(p2, b & 0x20 != 0);
    var p4 := DivStep(p3, b & 0x10 != 0);
    var p5 := DivStep(p4, b & 0x08 != 0);
    var p6 := DivStep(p5, b & 0x04 != 0);
    var p7 := DivStep(p6, b & 0x02 != 0);
    AddZero(r);
    DivStepSplit(r, 0, b & 0x80 != 0);
    DivStepSplit(r1, p1, b & 0x40 != 0);
    DivStepSplit(r2, p2, b & 0x20 != 0);
    DivStepSplit(r3, p3, b & 0x10 != 0);
    DivStepSplit(r4, p4, b & 0x08 != 0);
    DivStepSplit(r5, p5, b & 0x04 != 0);
    DivStepSplit(r6, p6, b & 0x02 != 0);
    DivStepSplit(r7, p7, b & 0x01 != 0);
    DivByteFromZero(b);
  }

  lemma RemainderExtend(msg: seq<bv8>, b: bv8)
    ensures Remainder(msg + [b]) == Add(TimesX8(Remainder(msg)), b as bv16)
  {
    hide TimesX8, Add, DivByte, High;
    assert (msg + [b])[..|msg + [b]| - 1] == msg;
    DivByteIsShift(Remainder(msg), b);
  }

  // Two more bytes: the register is pushed out and the bytes take its place.
  lemma RemainderWord(msg: seq<bv8>, hi: bv8, lo: bv8)
    ensures Remainder(msg + [hi, lo]) == Add(TimesX8(TimesX8(Remainder(msg))), Word(hi, lo))
  {
    hide TimesX8, Add, Remainder, High;
    var r := TimesX8(Remainder(msg));
    assert msg + [hi, lo] == (msg + [hi]) + [lo];
    RemainderExtend(msg, hi);
    RemainderExtend(msg + [hi], lo);
    TimesX8Linear(r, hi as bv16);
    HighIsLow(hi);
    AddAssociates(TimesX8(r), High(hi), lo as bv16);
  }

  // A byte as the upper half of a register.
  function High(b: bv8): bv16 {
    b as bv16 << 8
  }

  lemma HighVanishes(b: bv8)
    ensures High(b) == 0 <==> b == 0
  {
  }

  lemma HighIsLow(b: bv8)
    ensures TimesX8(b as bv16) == High(b)
  {
    TimesX8Low(b as bv16);
  }

  function Word(hi: bv8, lo: bv8): bv16 {
    Add(High(hi), lo as bv16)
  }

  lemma WordZero()
    ensures Word(0, 0) == 0
  {
  }

  lemma CrcIsPushedOut(msg: seq<bv8>)
    ensures Crc(msg) == TimesX8(TimesX8(Remainder(msg)))
  {
    hide TimesX8, Add, Remainder, Word, High;
    RemainderWord(msg, 0, 0);
    WordZero();
    AddZero(TimesX8(TimesX8(Remainder(msg))));
  }

  lemma CrcEmpty()
    ensures Crc([]) == 0
  {
    CrcIsPushedOut([]);
  }

  lemma CrcExtend(msg: seq<bv8>, b: bv8)
    ensures Crc(msg + [b]) == TimesX8(Add(Crc(msg), High(b)))
  {
    hide TimesX8, Add, Remainder, Crc, High;
    var r := TimesX8(Remainder(msg));
    CrcIsPushedOut(msg);
    CrcIsPushedOut(msg + [b]);
    RemainderExtend(msg, b);
    TimesX8Linear(r, b as bv16);
    HighIsLow(b);
  }

  // ----- What the check value is good for -----

  // The message followed by its check value is divisible by the generator,
  // and no other two bytes make it so.
  lemma CheckWord(msg: seq<bv8>, hi: bv8, lo: bv8)
    ensures Remainder(msg + [hi, lo]) == 0 <==> Word(hi, lo) == Crc(msg)
  {
    hide TimesX8, Add, Remainder, Crc, Word, High;
    RemainderWord(msg, hi, lo);
    CrcIsPushedOut(msg);
    AddVanishes(Crc(msg), Word(hi, lo));
  }

  function AddByte(x: bv8, y: bv8): bv8 {
    x ^ y
  }

  lemma AddByteVanishes(x: bv8, y: bv8)
    ensures AddByte(x, y) == 0 <==> x == y
  {
  }

  function Xor(a: seq<bv8>, b: seq<bv8>): seq<bv8>
    requires |a| == |b|
  {
    seq(|a|, i requires 0 <= i < |a| => AddByte(a[i], b[i]))
  }

  lemma {:induction false} CrcLinear(a: seq<bv8>, b: seq<bv8>)
    requires |a| == |b|
    ensures Crc(Xor(a, b)) == Add(Crc(a), Crc(b))
  {
    hide TimesX8, Add, AddByte, Crc, High;
    CrcEmpty();
    if a == [] {
      assert Xor(a, b) == [];
      AddZero(0);
    } else {
      var n := |a| - 1;
      CrcLinear(a[..n], b[..n]);
      assert a == a[..n] + [a[n]] && b == b[..n] + [b[n]];
      assert Xor(a, b) == Xor(a[..n], b[..n]) + [AddByte(a[n], b[n])];
      CrcExtend(a[..n], a[n]);
      CrcExtend(b[..n], b[n]);
      CrcExtend(Xor(a[..n], b[..n]), AddByte(a[n], b[n]));
      var p, q := High(a[n]), High(b[n]);
      AddOfBytes(a[n], b[n]);
      AddExchange(Crc(a[..n]), p, Crc(b[..n]), q);
      TimesX8Linear(Add(Crc(a[..n]), p), Add(Crc(b[..n]), q));
    }
  }

  lemma AddOfBytes(x: bv8, y: bv8)
    ensures High(AddByte(x, y)) == Add(High(x), High(y))
  {
  }

  // Equal bytes keep different check values different.
  lemma {:induction false} CrcSuffixInjective(a: seq<bv8>, b: seq<bv8>, tail: seq<bv8>)
    requires Crc(a) != Crc(b)
    ensures Crc(a + tail) != Crc(b + tail)
  {
    hide TimesX8, Add, Crc, High;
    if tail == [] {
      assert a + tail == a && b + tail == b;
    } else {
      var n := |tail| - 1;
      CrcSuffixInjective(a, b, tail[..n]);
      assert a + tail == (a + tail[..n]) + [tail[n]];
      assert b + tail == (b + tail[..n]) + [tail[n]];
      CrcStepInjective(a + tail[..n], b + tail[..n], tail[n]);
    }
  }

  lemma CrcStepInjective(a: seq<bv8>, b: seq<bv8>, x: bv8)
    requires Crc(a) != Crc(b)
    ensures Crc(a + [x]) != Crc(b + [x])
  {
    hide TimesX8, Add, Crc, High;
    var w := High(x);
    CrcExtend(a, x);
    CrcExtend(b, x);
    if Crc(a + [x]) == Crc(b + [x]) {
      TimesX8Injective(Add(Crc(a), w), Add(Crc(b), w));
      AddVanishes(Add(Crc(a), w), Add(Crc(b), w));
      AddExchange(Crc(a), w, Crc(b), w);
      AddVanishes(w, w);
      AddZero(Add(Crc(a), Crc(b)));
      AddVanishes(Crc(a), Crc(b));
    }
  }

  // Two bytes of non-zero difference never have the check value zero.
  lemma TwoBytes(x: bv8, y: bv8)
    ensures Crc([x, y]) == 0 <==> x == 0 && y == 0
  {
    hide TimesX8, Add, Crc, High;
    var p, q := High(x), High(y);
    assert [x] == [] + [x] && [x, y] == [x] + [y];
    CrcEmpty();
    CrcExtend([], x);
    CrcExtend([x], y);
    AddZero(p);
    Vanishing();
    if Crc([x, y]) == 0 {
      TimesX8Injective(Add(TimesX8(p), q), 0);
      AddVanishes(TimesX8(p), q);
      TwoBytesInRegister(x, y);
    } else {
      HighVanishes(x);
      HighVanishes(y);
      AddZero(0);
    }
  }

  lemma Vanishing()
    ensures TimesX8(0) == 0
  {
  }

  lemma TwoBytesInRegister(x: bv8, y: bv8)
    requires TimesX8(High(x)) == High(y)
    ensures x == 0 && y == 0
  {
  }

  // Any change confined to two consecutive bytes is detected, wherever they are.
  lemma BurstDetected(head: seq<bv8>, x: bv8, y: bv8, x': bv8, y': bv8, tail: seq<bv8>)
    requires x != x' || y != y'
    ensures Crc(head + [x, y] + tail) != Crc(head + [x', y'] + tail)
  {
    hide TimesX8, Add, AddByte, Crc, High;
    var dx, dy := AddByte(x, x'), AddByte(y, y');
    CrcLinear(head + [x, y], head + [x', y']);
    forall b ensures AddByte(b, b) == 0 { AddByteVanishes(b, b); }
    assert Xor(head + [x, y], head + [x', y']) == Zeros(|head|) + [dx, dy];
    CrcOfLeadingZeros(head, [dx, dy]);
    AddByteVanishes(x, x');
    AddByteVanishes(y, y');
    TwoBytes(dx, dy);
    AddVanishes(Crc(head + [x, y]), Crc(head + [x', y']));
    CrcSuffixInjective(head + [x, y], head + [x', y'], tail);
  }

  function Zeros(n: nat): seq<bv8> {
    seq(n, i => 0)
  }

  lemma CrcOfLeadingZeros(head: seq<bv8>, tail: seq<bv8>)
    ensures Crc(Zeros(|head|) + tail) == Crc(tail)
    decreases |tail|
  {
    hide TimesX8, Add, Crc, High;
    var z := Zeros(|head|);
    CrcEmpty();
    if tail == [] {
      assert AddByte(0, 0) == 0;
      assert Xor(z, z) == z && z + tail == z;
      CrcLinear(z, z);
      AddVanishes(Crc(z), Crc(z));
    } else {
      var n := |tail| - 1;
      assert tail == tail[..n] + [tail[n]];
      assert z + tail == (z + tail[..n]) + [tail[n]];
      CrcOfLeadingZeros(head, tail[..n]);
      CrcExtend(tail[..n], tail[n]);
      CrcExtend(z + tail[..n], tail[n]);
    }
  }
}
