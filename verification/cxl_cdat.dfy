/**
 * The Coherent Device Attribute Table of the CXL type 3 memory device: the
 * fixed table the device builds for its persistent memory, and the Table
 * Access read-entry exchange over DOE (CXL 2.0 section 8.1.11) through which
 * a host walks the table one entry at a time.
 */
module CxlCdat {

  import opened Wrappers
  import opened FmApi
  import opened CxlRegisters

  /* ---------------- The table ---------------- */

  /** Structure types of the CDAT specification. */
  const CDAT_TYPE_DSMAS: bv8 := 0
  const CDAT_TYPE_DSLBIS: bv8 := 1
  const CDAT_TYPE_DSEMTS: bv8 := 4

  /** DSMAS flag: the range is non-volatile. */
  const DSMAS_FLAG_NV: bv8 := 0x04
  /** Latency and bandwidth data types of ACPI 6.4 section 5.2.27.4 (HMAT). */
  const HMAT_LB_MEM_MEMORY: bv8 := 0
  const HMAT_LB_DATA_READ_LATENCY: bv8 := 1
  const HMAT_LB_DATA_WRITE_LATENCY: bv8 := 2
  const HMAT_LB_DATA_READ_BANDWIDTH: bv8 := 4
  const HMAT_LB_DATA_WRITE_BANDWIDTH: bv8 := 5
  /** EFI memory type of the DSEMTS entry: reserved, the DSMAS non-volatile flag is what counts. */
  const EFI_MEMORY_TYPE_RESERVED: bv8 := 2

  /** The CDAT structures the device reports. */
  datatype CdatEntry =
    | Dsmas(dsmadHandle: bv8, flags: bv8, dpaBase: nat, dpaLength: nat)
    | Dslbis(handle: bv8, flags: bv8, dataType: bv8, entryBaseUnit: nat, entry0: nat)
    | Dsemts(dsmasHandle: bv8, efiMemoryTypeAttr: bv8, dpaOffset: nat, dpaLength: nat)
  {
    function Type(): bv8 {
      match this
      case Dsmas(_, _, _, _) => CDAT_TYPE_DSMAS
      case Dslbis(_, _, _, _, _) => CDAT_TYPE_DSLBIS
      case Dsemts(_, _, _, _) => CDAT_TYPE_DSEMTS
    }

    /** The DSMAS handle the entry belongs to. */
    function Handle(): bv8 {
      match this
      case Dsmas(h, _, _, _) => h
      case Dslbis(h, _, _, _, _) => h
      case Dsemts(h, _, _, _) => h
    }
  }

  /** The persistent memory backend of the device, as far as the table needs it. */
  datatype Backend =
    | NoBackend              // no memory device configured
    | NoRegion               // a backend whose memory region cannot be obtained
    | Region(size: nat)      // a backend with a memory region of `size` bytes

  const EINVAL := 22

  /** The outcome of building the table: the entries, or a negative error number. */
  datatype BuildResult = Built(table: seq<CdatEntry>) | Failed(err: int)

  /** The four latency and bandwidth entries of the persistent range, in table order. */
  function NonvolatileLatencies(handle: bv8): (es: seq<CdatEntry>)
    ensures |es| == 4
  {
    [Dslbis(handle, HMAT_LB_MEM_MEMORY, HMAT_LB_DATA_READ_LATENCY, 10000, 15),
     Dslbis(handle, HMAT_LB_MEM_MEMORY, HMAT_LB_DATA_WRITE_LATENCY, 10000, 25),
     Dslbis(handle, HMAT_LB_MEM_MEMORY, HMAT_LB_DATA_READ_BANDWIDTH, 1000, 16),
     Dslbis(handle, HMAT_LB_MEM_MEMORY, HMAT_LB_DATA_WRITE_BANDWIDTH, 1000, 16)]
  }

  /** The table `ct3_build_cdat_table` produces for a backend. */
  function CdatTable(b: Backend): BuildResult {
    match b
    case NoBackend => Built([])
    case NoRegion => Failed(-EINVAL)
    case Region(size) =>
      Built([Dsmas(0, DSMAS_FLAG_NV, 0, size)] + NonvolatileLatencies(0)
            + [Dsemts(0, EFI_MEMORY_TYPE_RESERVED, 0, size)])
  }

  /**
   * `ct3_build_cdat_table`: the range entry, its four latency and bandwidth
   * entries and its memory type entry, appended in that order.
   */
  method BuildCdatTable(b: Backend) returns (r: BuildResult)
    ensures r == CdatTable(b)
  {
    if b.NoBackend? {
      return Built([]);
    }
    if b.NoRegion? {
      return Failed(-EINVAL);
    }
    var handle: bv8 := 0;
    var dsmas := Dsmas(handle, DSMAS_FLAG_NV, 0, b.size);
    var dslbis := NonvolatileLatencies(handle);
    var dsemts := Dsemts(handle, EFI_MEMORY_TYPE_RESERVED, 0, b.size);
    var table := [dsmas];
    var j := 0;
    while j < |dslbis|
      invariant 0 <= j <= |dslbis|
      invariant table == [dsmas] + dslbis[..j]
    {
      table := table + [dslbis[j]];
      j := j + 1;
    }
    table := table + [dsemts];
    r := Built(table);
  }

  /**
   * With a memory region the table has six entries, all for DSMAS handle 0:
   * the non-volatile range covering the whole region, read latency, write
   * latency, read bandwidth and write bandwidth, and a memory type entry for
   * the same range. Without a backend it is empty, and a backend without a
   * region is an invalid-argument error.
   */
  lemma CdatTableLayout(b: Backend)
    ensures b.NoBackend? ==> CdatTable(b) == Built([])
    ensures b.NoRegion? ==> CdatTable(b).Failed? && CdatTable(b).err < 0
    ensures b.Region? ==> var t := CdatTable(b).table;
      && |t| == 6
      && (forall i :: 0 <= i < 6 ==> t[i].Handle() == 0)
      && [t[0].Type(), t[1].Type(), t[2].Type(), t[3].Type(), t[4].Type(), t[5].Type()]
         == [CDAT_TYPE_DSMAS, CDAT_TYPE_DSLBIS, CDAT_TYPE_DSLBIS, CDAT_TYPE_DSLBIS, CDAT_TYPE_DSLBIS, CDAT_TYPE_DSEMTS]
      && [t[1].dataType, t[2].dataType, t[3].dataType, t[4].dataType]
         == [HMAT_LB_DATA_READ_LATENCY, HMAT_LB_DATA_WRITE_LATENCY,
             HMAT_LB_DATA_READ_BANDWIDTH, HMAT_LB_DATA_WRITE_BANDWIDTH]
      && t[0].flags == DSMAS_FLAG_NV && t[0].dpaBase == 0 && t[0].dpaLength == b.size
      && t[5].dpaOffset == t[0].dpaBase && t[5].dpaLength == t[0].dpaLength
  {
    if b.Region? {
      var t := CdatTable(b).table;
      assert t[1..5] == NonvolatileLatencies(0);
    }
  }

  /* ---------------- Table Access read entry (CXL 2.0 section 8.1.11) ---------------- */

  const CXL_VENDOR_ID: bv16 := 0x1e98
  /** Data object type of Table Access. */
  const CXL_DOE_TABLE_ACCESS: bv8 := 2
  /** Response code of Read Entry. */
  const CXL_DOE_TAB_RSP: bv8 := 0
  const CXL_DOE_TAB_TYPE_CDAT: bv8 := 0
  /** Entry handle that marks the end of the table. */
  const CXL_DOE_TAB_ENT_MAX: bv16 := 0xffff

  /** Size of the read-entry request and of the response header, in bytes and in dwords. */
  const CDAT_MSG_SIZE := 12
  const CDAT_MSG_DWORDS := 3

  /** The handle a read-entry response names next: the following entry, or the end marker after the last. */
  function NextHandle(ent: nat, entries: nat): (h: nat)
    requires ent < entries <= 0xffff
    ensures h == 0xffff <==> ent == entries - 1
    ensures h != 0xffff ==> h == ent + 1 && h < entries
  {
    if ent < entries - 1 then ent + 1 else 0xffff
  }

  /** Length in dwords of a response carrying an entry of `len` bytes. */
  function ResponseDwords(len: nat): (n: nat)
    ensures 4 * n >= CDAT_MSG_SIZE + len && 4 * n < CDAT_MSG_SIZE + len + 4
  {
    (CDAT_MSG_SIZE + len + 3) / 4
  }

  /**
   * The read-entry response header (`CDATRsp`). The device fills it in host
   * byte order; its encoding is the little-endian one.
   */
  datatype CdatRsp = CdatRsp(length: bv32, entryHandle: bv16)

  function EncodeCdatRsp(r: CdatRsp): (b: seq<bv8>)
    ensures |b| == CDAT_MSG_SIZE
  {
    Le16(CXL_VENDOR_ID) + [CXL_DOE_TABLE_ACCESS, 0] + Le32(r.length)
    + [CXL_DOE_TAB_RSP, CXL_DOE_TAB_TYPE_CDAT] + Le16(r.entryHandle)
  }

  function DecodeCdatRsp(b: seq<bv8>): CdatRsp
    requires |b| >= CDAT_MSG_SIZE
  {
    CdatRsp(FromLe32(b[4], b[5], b[6], b[7]), FromLe16(b[10], b[11]))
  }

  /** The response header reads back as written, behind the Table Access object header. */
  lemma CdatRspRoundTrip(r: CdatRsp)
    ensures DecodeCdatRsp(EncodeCdatRsp(r)) == r
    ensures EncodeCdatRsp(r)[..4] == Le16(CXL_VENDOR_ID) + [CXL_DOE_TABLE_ACCESS, 0]
  {
    var b := EncodeCdatRsp(r);
    Le32RoundTrip(r.length);
    Le16RoundTrip(r.entryHandle);
    assert b[4..8] == Le32(r.length);
    assert b[10..12] == Le16(r.entryHandle);
  }

  /**
   * The entries a host reads when it starts at handle 0 and follows each
   * response's next handle until the end marker.
   */
  function Walk(ent: nat, entries: nat): (visited: seq<nat>)
    requires ent < entries <= 0xffff
    decreases entries - ent
  {
    var next := NextHandle(ent, entries);
    if next == 0xffff then [ent] else [ent] + Walk(next, entries)
  }

  /** Following the handles from `ent` visits every later entry once, in order, and then stops. */
  lemma {:induction false} WalkVisitsRest(ent: nat, entries: nat)
    requires ent < entries <= 0xffff
    ensures Walk(ent, entries) == seq(entries - ent, i => ent + i)
    decreases entries - ent
  {
    if ent < entries - 1 {
      WalkVisitsRest(ent + 1, entries);
    }
  }

  /** Walking a non-empty table from handle 0 reads every entry exactly once. */
  lemma WalkVisitsAll(entries: nat)
    requires 0 < entries <= 0xffff
    ensures Walk(0, entries) == seq(entries, i => i)
  {
    WalkVisitsRest(0, entries);
  }
}
