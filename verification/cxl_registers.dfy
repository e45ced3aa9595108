/**
 * The cache-memory component registers of a CXL type 3 memory device:
 * 32-bit little-endian words at byte offsets, the HDM decoder 0 registers
 * and the host-to-device address translation they define (CXL 2.0 section
 * 8.2.5.12), the write-1-to-clear RAS status registers (section 8.2.5.9), and
 * the guards the memory window applies before an access reaches the backend.
 */
module CxlRegisters {

  import opened Wrappers

  /* ---------------- 32-bit little-endian registers ---------------- */

  /** A 32-bit register as its four bytes, least significant first. */
  function Le32(v: bv32): (b: seq<bv8>)
    ensures |b| == 4
  {
    [(v & 0xff) as bv8, ((v >> 8) & 0xff) as bv8, ((v >> 16) & 0xff) as bv8, (v >> 24) as bv8]
  }

  function FromLe32(b0: bv8, b1: bv8, b2: bv8, b3: bv8): bv32 {
    (b0 as bv32) | ((b1 as bv32) << 8) | ((b2 as bv32) << 16) | ((b3 as bv32) << 24)
  }

  lemma Le32RoundTrip(v: bv32)
    ensures FromLe32(Le32(v)[0], Le32(v)[1], Le32(v)[2], Le32(v)[3]) == v
  {
  }

  /** The register at byte offset `off` (`ldl_le_p`). */
  function Word(mem: seq<bv8>, off: nat): bv32
    requires off + 4 <= |mem|
  {
    FromLe32(mem[off], mem[off + 1], mem[off + 2], mem[off + 3])
  }

  /** The registers after storing `v` at byte offset `off` (`stl_le_p`). */
  function StoreWord(mem: seq<bv8>, off: nat, v: bv32): (m: seq<bv8>)
    requires off + 4 <= |mem|
    ensures |m| == |mem|
    ensures forall i :: 0 <= i < |mem| && !(off <= i < off + 4) ==> m[i] == mem[i]
    ensures m[off..off + 4] == Le32(v)
  {
    mem[..off] + Le32(v) + mem[off + 4..]
  }

  /** A stored register reads back as stored. */
  lemma StoreWordLoad(mem: seq<bv8>, off: nat, v: bv32)
    requires off + 4 <= |mem|
    ensures Word(StoreWord(mem, off, v), off) == v
  {
    var m := StoreWord(mem, off, v);
    assert m[off..off + 4] == Le32(v);
    assert m[off] == Le32(v)[0] && m[off + 1] == Le32(v)[1] && m[off + 2] == Le32(v)[2] && m[off + 3] == Le32(v)[3];
    Le32RoundTrip(v);
  }

  /** A store leaves every register it does not overlap unchanged. */
  lemma StoreWordOther(mem: seq<bv8>, off: nat, v: bv32, other: nat)
    requires off + 4 <= |mem| && other + 4 <= |mem|
    requires other + 4 <= off || off + 4 <= other
    ensures Word(StoreWord(mem, off, v), other) == Word(mem, other)
  {
    var m := StoreWord(mem, off, v);
    assert m[other] == mem[other] && m[other + 1] == mem[other + 1];
    assert m[other + 2] == mem[other + 2] && m[other + 3] == mem[other + 3];
  }

  /**
   * Byte offsets of the registers the device acts on, within a cache-memory
   * register region of `regionSize` bytes. The offsets are fixed by the
   * component register layout, which is not part of this model; any aligned,
   * distinct placement inside the region is allowed.
   */
  datatype RegisterMap = RegisterMap(
    regionSize: nat,
    hdmCtrl: nat,
    hdmBaseLo: nat,
    hdmBaseHi: nat,
    hdmSizeLo: nat,
    hdmSizeHi: nat,
    rasUncStatus: nat,
    rasCorStatus: nat)
  {
    function Offsets(): seq<nat> {
      [hdmCtrl, hdmBaseLo, hdmBaseHi, hdmSizeLo, hdmSizeHi, rasUncStatus, rasCorStatus]
    }

    /** A register at `off` is aligned and inside the region. */
    predicate Fits(off: nat) {
      off % 4 == 0 && off + 4 <= regionSize
    }

    predicate Valid() {
      && Fits(hdmCtrl) && Fits(hdmBaseLo) && Fits(hdmBaseHi) && Fits(hdmSizeLo) && Fits(hdmSizeHi)
      && Fits(rasUncStatus) && Fits(rasCorStatus)
      && (forall i, j :: 0 <= i < j < 7 ==> Offsets()[i] != Offsets()[j])
    }

    /** Distinct registers of the map do not overlap. */
    lemma Disjoint(i: nat, j: nat)
      requires Valid() && i < 7 && j < 7 && i != j
      ensures Offsets()[i] + 4 <= Offsets()[j] || Offsets()[j] + 4 <= Offsets()[i]
    {
      var o := Offsets();
      assert Fits(o[i]) && Fits(o[j]);
      if i < j {
        assert o[i] != o[j];
      } else {
        assert o[j] != o[i];
      }
    }
  }

  /* ---------------- HDM decoder 0 control (CXL 2.0 section 8.2.5.12.7) ---------------- */

  /** Interleave granularity field, bits 3:0: 2^(8 + IG) bytes per way. */
  function Ig(ctrl: bv32): (g: nat)
    ensures g < 16
  {
    (ctrl & 0xf) as nat
  }

  /** Interleave ways field, bits 7:4, taken as the number of way-select bits. */
  function Iw(ctrl: bv32): (w: nat)
    ensures w < 16
  {
    ((ctrl >> 4) & 0xf) as nat
  }

  const COMMIT_BIT: bv32 := 0x200
  const COMMITTED_BIT: bv32 := 0x400
  const ERR_NOT_COMMITTED_BIT: bv32 := 0x800

  /**
   * The control register after `hdm_decoder_commit`: the commit request and
   * the error flag cleared, the decoder reported committed, every other
   * field (interleave settings included) as it was.
   */
  function CommitCtrl(ctrl: bv32): (r: bv32)
    ensures r & COMMIT_BIT == 0 && r & ERR_NOT_COMMITTED_BIT == 0 && r & COMMITTED_BIT == COMMITTED_BIT
    ensures r & !(COMMIT_BIT | COMMITTED_BIT | ERR_NOT_COMMITTED_BIT)
         == ctrl & !(COMMIT_BIT | COMMITTED_BIT | ERR_NOT_COMMITTED_BIT)
    ensures Ig(r) == Ig(ctrl) && Iw(r) == Iw(ctrl)
  {
    (ctrl & !(COMMIT_BIT | ERR_NOT_COMMITTED_BIT)) | COMMITTED_BIT
  }

  /**
   * A write-1-to-clear status register after writing `value`: every bit
   * written as 1 is cleared, every bit written as 0 keeps its value.
   */
  function ClearOnWrite(status: bv32, value: bv32): (r: bv32)
    ensures r & value == 0
    ensures r & !value == status & !value
  {
    status & !value
  }

  /* ---------------- Host-to-device address translation ---------------- */

  const TWO_POW_32 := 0x1_0000_0000
  const TWO_POW_64 := 0x1_0000_0000_0000_0000

  /** The 64-bit value of a HI/LO register pair: HI above LO. */
  function Join64(hi: bv32, lo: bv32): nat {
    hi as nat * TWO_POW_32 + lo as nat
  }

  /** The low `k` bits of `x` (`MAKE_64BIT_MASK(0, k) & x`). */
  function Low(x: nat, k: nat): nat {
    if k == 0 then 0 else x % 2 + 2 * Low(x / 2, k - 1)
  }

  /** `x` shifted right by `k` bits. */
  function Shr(x: nat, k: nat): nat {
    if k == 0 then x else Shr(x / 2, k - 1)
  }

  /** `x` shifted left by `k` bits. */
  function Shl(x: nat, k: nat): nat {
    if k == 0 then x else 2 * Shl(x, k - 1)
  }

  /** A number is its low `k` bits plus the rest shifted back into place. */
  lemma {:induction false} LowShrSplit(x: nat, k: nat)
    ensures x == Low(x, k) + Shl(Shr(x, k), k)
  {
    if k > 0 {
      LowShrSplit(x / 2, k - 1);
      ShlShr(x / 2, k);
    }
  }

  lemma ShlShr(y: nat, k: nat)
    requires k > 0
    ensures Shl(Shr(y, k - 1), k) == 2 * Shl(Shr(y, k - 1), k - 1)
  {
  }

  /** Shifting by `a` then by `b` is shifting by `a + b`. */
  lemma {:induction false} ShrShr(x: nat, a: nat, b: nat)
    ensures Shr(Shr(x, a), b) == Shr(x, a + b)
    decreases a
  {
    if a > 0 {
      ShrShr(x / 2, a - 1, b);
    }
  }

  lemma {:induction false} ShrBound(x: nat, k: nat)
    ensures Shr(x, k) <= x
  {
    if k > 0 {
      ShrBound(x / 2, k - 1);
    }
  }

  lemma {:induction false} ShlMonotone(a: nat, b: nat, k: nat)
    requires a <= b
    ensures Shl(a, k) <= Shl(b, k)
  {
    if k > 0 {
      ShlMonotone(a, b, k - 1);
    }
  }

  /** Placing `b` above the low `k` bits of `x` keeps those bits and can be shifted back out. */
  lemma {:induction false} LowShlParts(x: nat, b: nat, k: nat)
    ensures Low(Low(x, k) + Shl(b, k), k) == Low(x, k)
    ensures Shr(Low(x, k) + Shl(b, k), k) == b
  {
    if k > 0 {
      var s := Low(x, k) + Shl(b, k);
      LowShlParts(x / 2, b, k - 1);
      assert s % 2 == x % 2 && s / 2 == Low(x / 2, k - 1) + Shl(b, k - 1);
    }
  }

  /**
   * The device address of decoder offset `off` under interleaving: the low
   * 8 + IG bits are kept, the IW way-select bits above them are dropped and
   * the bits above those move down by IW (`cxl_type3_dpa`).
   */
  function InterleaveDpa(off: nat, ig: nat, iw: nat): nat {
    Low(off, 8 + ig) + Shl(Shr(off, 8 + ig + iw), 8 + ig)
  }

  /**
   * `cxl_type3_dpa` on the decoder's base, size and control values: no
   * translation below the base or at or beyond base + size.
   */
  function DecodeDpa(base: nat, size: nat, ctrl: bv32, hostAddr: nat): (r: Option<nat>)
    ensures r.None? <==> hostAddr < base || hostAddr - base >= size
  {
    if hostAddr < base then None
    else if hostAddr - base >= size then None
    else Some(InterleaveDpa(hostAddr - base, Ig(ctrl), Iw(ctrl)))
  }

  /**
   * The translation keeps the low 8 + IG bits of the offset and, above them,
   * the bits of the offset above the way-select field.
   */
  lemma InterleaveDpaBits(off: nat, ig: nat, iw: nat)
    ensures Low(InterleaveDpa(off, ig, iw), 8 + ig) == Low(off, 8 + ig)
    ensures Shr(InterleaveDpa(off, ig, iw), 8 + ig) == Shr(off, 8 + ig + iw)
  {
    LowShlParts(off, Shr(off, 8 + ig + iw), 8 + ig);
  }

  /** Translation never moves an address up, and without interleaving it is the identity. */
  lemma InterleaveDpaBound(off: nat, ig: nat, iw: nat)
    ensures InterleaveDpa(off, ig, iw) <= off
    ensures iw == 0 ==> InterleaveDpa(off, ig, iw) == off
  {
    var k := 8 + ig;
    LowShrSplit(off, k);
    ShrShr(off, k, iw);
    ShrBound(Shr(off, k), iw);
    ShlMonotone(Shr(off, k + iw), Shr(off, k), k);
  }

  /* ---------------- Memory window guards ---------------- */

  /** Where an access to the memory window goes: nowhere, or to device address `dpa` of the backend. */
  datatype Route = Rejected | ToBackend(dpa: nat)

  /**
   * The guard of `cxl_type3_read` and `cxl_type3_write`: an access reaches
   * the backend only when there is a backend region, the address decodes,
   * and the device address is not beyond the region's size; the comparison
   * is strict, so a device address equal to the size passes.
   */
  function WindowRoute(pmemSize: Option<nat>, dpa: Option<nat>): (r: Route)
    ensures r.ToBackend? <==> pmemSize.Some? && dpa.Some? && dpa.value <= pmemSize.value
    ensures r.ToBackend? ==> r.dpa == dpa.value
  {
    match pmemSize
    case None => Rejected
    case Some(size) =>
      match dpa
      case None => Rejected
      case Some(d) => if d > size then Rejected else ToBackend(d)
  }
}
