/**
 * SMBus Packet Error Code: an 8-bit CRC with polynomial x^8 + x^2 + x + 1,
 * shifted most significant bit first, register preloaded by the caller and no
 * final XOR (section 6.4 of the SMBus 3.x specification).
 *
 * The source computes it with a 16-bit shift register (`crc8`) folded over a
 * byte buffer (`i2c_smbus_pec`). The model keeps both loops and proves them
 * against the byte-wise definition `Pec`.
 */
module PacketErrorCode {

  /** The polynomial as the 16-bit register sees it: 0x1070 << 3. */
  const POLY: bv16 := 0x8380

  /**
   * One shift of the 8-bit CRC register for the polynomial 0x07: shift left,
   * and XOR the polynomial in when the bit shifted out was set.
   */
  function CrcStep(h: bv8): bv8 {
    (h << 1) ^ ((h >> 7) * 0x07)
  }

  /** `k` successive shifts of the 8-bit register. */
  function CrcSteps(h: bv8, k: nat): bv8
    decreases k
  {
    if k == 0 then h else CrcSteps(CrcStep(h), k - 1)
  }

  /** The CRC register after one byte has been shifted through it. */
  function CrcByte(h: bv8): bv8 {
    CrcSteps(h, 8)
  }

  /** The PEC of `bytes` when the register starts at `crc`: a left fold of `CrcByte`. */
  function Pec(crc: bv8, bytes: seq<bv8>): bv8
    decreases |bytes|
  {
    if bytes == [] then crc else Pec(CrcByte(crc ^ bytes[0]), bytes[1..])
  }

  /** The ASCII digits "123456789", the customary CRC check message. */
  const CHECK_MESSAGE: seq<bv8> := [0x31, 0x32, 0x33, 0x34, 0x35, 0x36, 0x37, 0x38, 0x39]

  /**
   * One iteration of the 16-bit loop in `crc8` on a word whose low byte is
   * zero is one shift of the 8-bit register held in its high byte, and the
   * low byte stays zero.
   */
  lemma WordStepIsCrcStep(d: bv16, d': bv16)
    requires d & 0xff == 0
    requires d' == (if d & 0x8000 != 0 then d ^ POLY else d) << 1
    ensures d' & 0xff == 0
    ensures (d' >> 8) as bv8 == CrcStep((d >> 8) as bv8)
  {
  }

  /**
   * `crc8`: eight rounds of the 16-bit shift register. Every caller passes a
   * byte shifted into the high half; for those words the result is the CRC of
   * that byte.
   */
  method Crc8(data: bv16) returns (r: bv8)
    ensures data & 0xff == 0 ==> r == CrcByte((data >> 8) as bv8)
  {
    var d := data;
    var i := 0;
    while i < 8
      invariant 0 <= i <= 8
      invariant data & 0xff == 0 ==>
        d & 0xff == 0 && CrcSteps((d >> 8) as bv8, 8 - i) == CrcByte((data >> 8) as bv8)
    {
      ghost var before := d;
      if d & 0x8000 != 0 {
        d := d ^ POLY;
      }
      d := d << 1;
      if data & 0xff == 0 {
        WordStepIsCrcStep(before, d);
      }
      i := i + 1;
    }
    r := (d >> 8) as bv8;
  }

  /** PEC over a concatenation is PEC over the second part seeded with the first part's PEC. */
  lemma {:induction false} PecAppend(crc: bv8, a: seq<bv8>, b: seq<bv8>)
    ensures Pec(crc, a + b) == Pec(Pec(crc, a), b)
    decreases |a|
  {
    if a == [] {
      assert a + b == b;
    } else {
      assert (a + b)[1..] == a[1..] + b;
      PecAppend(CrcByte(crc ^ a[0]), a[1..], b);
    }
  }

  /** `i2c_smbus_pec`: fold `crc8` over the buffer, starting from `crc`. */
  method SmbusPec(crc: bv8, p: seq<bv8>) returns (r: bv8)
    ensures r == Pec(crc, p)
  {
    r := crc;
    var i := 0;
    while i < |p|
      invariant 0 <= i <= |p|
      invariant r == Pec(crc, p[..i])
    {
      var next := Crc8(((r ^ p[i]) as bv16) << 8);
      assert p[..i + 1] == p[..i] + [p[i]];
      PecAppend(crc, p[..i], [p[i]]);
      r := next;
      i := i + 1;
    }
    assert p[..|p|] == p;
  }

  /** The register is a linear map: zero in, zero out. */
  lemma {:induction false} CrcStepsZero(k: nat)
    ensures CrcSteps(0, k) == 0
    decreases k
  {
    if k > 0 {
      assert CrcStep(0) == 0;
      CrcStepsZero(k - 1);
    }
  }

  /**
   * Appending the PEC of a message to the message gives PEC zero: this is how
   * a receiver checks the trailing PEC byte of a transaction.
   */
  lemma PecResidueIsZero(crc: bv8, bytes: seq<bv8>)
    ensures Pec(crc, bytes + [Pec(crc, bytes)]) == 0
  {
    PecAppend(crc, bytes, [Pec(crc, bytes)]);
    var p := Pec(crc, bytes);
    assert p ^ p == 0;
    CrcStepsZero(8);
    assert Pec(p, [p]) == Pec(CrcByte(0), []);
  }

  /** Every shift of the register can be undone: its low bit records the bit shifted out. */
  lemma CrcStepInjective(a: bv8, b: bv8)
    requires CrcStep(a) == CrcStep(b)
    ensures a == b
  {
  }

  lemma {:induction false} CrcStepsInjective(a: bv8, b: bv8, k: nat)
    requires CrcSteps(a, k) == CrcSteps(b, k)
    ensures a == b
    decreases k
  {
    if k > 0 {
      CrcStepsInjective(CrcStep(a), CrcStep(b), k - 1);
      CrcStepInjective(a, b);
    }
  }

  /** Two different seeds never give the same PEC over the same bytes. */
  lemma {:induction false} PecSeedInjective(c1: bv8, c2: bv8, bytes: seq<bv8>)
    requires Pec(c1, bytes) == Pec(c2, bytes)
    ensures c1 == c2
    decreases |bytes|
  {
    if bytes != [] {
      PecSeedInjective(CrcByte(c1 ^ bytes[0]), CrcByte(c2 ^ bytes[0]), bytes[1..]);
      CrcStepsInjective(c1 ^ bytes[0], c2 ^ bytes[0], 8);
    }
  }

  lemma CrcByteInjective(a: bv8, b: bv8)
    requires CrcByte(a) == CrcByte(b)
    ensures a == b
  {
    CrcStepsInjective(a, b, 8);
  }

  /** The PEC of a single byte is one pass of the register. */
  lemma PecOneByte(crc: bv8, x: bv8)
    ensures Pec(crc, [x]) == CrcByte(crc ^ x)
  {
    assert [x][1..] == [];
  }

  /** The PEC detects every error confined to one byte of a message. */
  lemma PecDetectsSingleByteError(crc: bv8, prefix: seq<bv8>, x: bv8, y: bv8, suffix: seq<bv8>)
    requires x != y
    ensures Pec(crc, prefix + [x] + suffix) != Pec(crc, prefix + [y] + suffix)
  {
    var c := Pec(crc, prefix);
    var cx, cy := Pec(c, [x]), Pec(c, [y]);
    PecAppend(crc, prefix, [x]);
    PecAppend(crc, prefix + [x], suffix);
    PecAppend(crc, prefix, [y]);
    PecAppend(crc, prefix + [y], suffix);
    assert Pec(crc, prefix + [x] + suffix) == Pec(cx, suffix);
    assert Pec(crc, prefix + [y] + suffix) == Pec(cy, suffix);
    PecOneByte(c, x);
    PecOneByte(c, y);
    if Pec(cx, suffix) == Pec(cy, suffix) {
      PecSeedInjective(cx, cy, suffix);
      CrcByteInjective(c ^ x, c ^ y);
      assert false;
    }
  }

  /** The customary check value of this CRC (CRC-8/SMBUS) over "123456789" is 0xF4. */
  lemma PecCheckValue()
    ensures Pec(0, CHECK_MESSAGE) == 0xF4
  {
    var m := CHECK_MESSAGE;
    assert CrcByte(0x0 ^ 0x31) == 0x97;
    assert CrcByte(0x97 ^ 0x32) == 0x72;
    assert CrcByte(0x72 ^ 0x33) == 0xc0;
    assert CrcByte(0xc0 ^ 0x34) == 0xc2;
    assert CrcByte(0xc2 ^ 0x35) == 0xcb;
    assert CrcByte(0xcb ^ 0x36) == 0xfd;
    assert CrcByte(0xfd ^ 0x37) == 0x78;
    assert CrcByte(0x78 ^ 0x38) == 0xc7;
    assert CrcByte(0xc7 ^ 0x39) == 0xf4;
    assert Pec(0, m) == Pec(0x97, m[1..]);
    assert Pec(0x97, m[1..]) == Pec(0x72, m[2..]);
    assert Pec(0x72, m[2..]) == Pec(0xc0, m[3..]);
    assert Pec(0xc0, m[3..]) == Pec(0xc2, m[4..]);
    assert Pec(0xc2, m[4..]) == Pec(0xcb, m[5..]);
    assert Pec(0xcb, m[5..]) == Pec(0xfd, m[6..]);
    assert Pec(0xfd, m[6..]) == Pec(0x78, m[7..]);
    assert Pec(0x78, m[7..]) == Pec(0xc7, m[8..]);
    assert Pec(0xc7, m[8..]) == Pec(0xf4, m[9..]);
  }
}
