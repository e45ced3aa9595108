/**
 * The CXL type 3 memory device: its component registers and the HDM
 * decoder window they define, the label storage area, the CDAT Table Access
 * mailbox, and the poison list.
 */
module CxlType3 {

  import opened Wrappers
  import opened CxlRegisters
  import opened CxlCdat

  /** A poisoned device address range. */
  datatype Poison = Poison(start: nat, length: nat)

  /** `dpa` lies in a range of the list. */
  predicate Poisoned(list: seq<Poison>, dpa: nat) {
    exists i :: 0 <= i < |list| && list[i].start <= dpa < list[i].start + list[i].length
  }

  /** Transaction results of the memory window. */
  datatype MemTxResult = MemTxOk | MemTxError

  /** What a read does: fail with a result, or read the backend at `dpa`. */
  datatype ReadOutcome = ReadFails(result: MemTxResult) | ReadBackend(dpa: nat)

  /** What a write does: drop the data and report a result, or write the backend at `dpa`. */
  datatype WriteOutcome = WriteDropped(result: MemTxResult) | WriteBackend(dpa: nat)

  /**
   * The check of `validate_lsa_access` in 64-bit arithmetic: the end of the
   * access, computed modulo 2^64, is within the area and above the start.
   */
  predicate LsaAccessValid(areaSize: nat, size: nat, offset: nat) {
    var end := (offset + size) % TWO_POW_64;
    end <= areaSize && end > offset
  }

  /**
   * For 64-bit operands the check admits exactly the non-empty accesses that
   * end inside the area: the second comparison rules out size 0 and an end
   * that wraps around.
   */
  lemma LsaAccessValidMeans(areaSize: nat, size: nat, offset: nat)
    requires areaSize < TWO_POW_64 && size < TWO_POW_64 && offset < TWO_POW_64
    ensures LsaAccessValid(areaSize, size, offset) <==> 0 < size && offset + size <= areaSize
  {
    if offset + size >= TWO_POW_64 {
      assert (offset + size) % TWO_POW_64 == offset + size - TWO_POW_64;
    } else {
      assert (offset + size) % TWO_POW_64 == offset + size;
    }
  }

  /** `s` with `data` copied in at `offset`. */
  function Overwrite(s: seq<bv8>, offset: nat, data: seq<bv8>): (r: seq<bv8>)
    requires offset + |data| <= |s|
    ensures |r| == |s|
    ensures r[offset..offset + |data|] == data
    ensures forall i :: 0 <= i < |s| && !(offset <= i < offset + |data|) ==> r[i] == s[i]
  {
    s[..offset] + data + s[offset + |data|..]
  }

  /**
   * The component registers after `ct3d_reg_write` of `value` at `offset`:
   * the RAS status registers are write-1-to-clear; any other register takes
   * the value, and a write of the HDM decoder 0 control register with the
   * commit bit set then commits the decoder.
   */
  function RegWriteEffect(regs: RegisterMap, mem: seq<bv8>, offset: nat, value: bv32): (m: seq<bv8>)
    requires regs.Valid() && |mem| == regs.regionSize && offset + 4 <= |mem|
    ensures |m| == |mem|
  {
    if offset == regs.rasUncStatus || offset == regs.rasCorStatus then
      StoreWord(mem, offset, ClearOnWrite(Word(mem, offset), value))
    else
      var stored := StoreWord(mem, offset, value);
      if offset == regs.hdmCtrl && value & COMMIT_BIT != 0 then
        StoreWord(stored, regs.hdmCtrl, CommitCtrl(Word(stored, regs.hdmCtrl)))
      else stored
  }

  /**
   * The register written reads back as: the old status with the written ones
   * cleared for a RAS status register; the written control value, committed
   * (commit and error cleared, committed set) when it asked for a commit;
   * the written value otherwise. No byte outside the register changes.
   */
  lemma RegWriteResult(regs: RegisterMap, mem: seq<bv8>, offset: nat, value: bv32)
    requires regs.Valid() && |mem| == regs.regionSize && offset + 4 <= |mem|
    ensures var m := RegWriteEffect(regs, mem, offset, value);
      && (forall i :: 0 <= i < |mem| && !(offset <= i < offset + 4) ==> m[i] == mem[i])
      && Word(m, offset) ==
           if offset == regs.rasUncStatus || offset == regs.rasCorStatus then ClearOnWrite(Word(mem, offset), value)
           else if offset == regs.hdmCtrl && value & COMMIT_BIT != 0 then CommitCtrl(value)
           else value
  {
    if offset == regs.rasUncStatus || offset == regs.rasCorStatus {
      StoreWordLoad(mem, offset, ClearOnWrite(Word(mem, offset), value));
    } else {
      var stored := StoreWord(mem, offset, value);
      StoreWordLoad(mem, offset, value);
      if offset == regs.hdmCtrl && value & COMMIT_BIT != 0 {
        StoreWordLoad(stored, regs.hdmCtrl, CommitCtrl(value));
      }
    }
  }

  /**
   * The HDM decoder 0 translation the registers `mem` define (`cxl_type3_dpa`).
   * The source reads the decoder registers as native words; they are read
   * here as the little-endian words `stl_le_p` stores.
   */
  function DecoderDpa(regs: RegisterMap, mem: seq<bv8>, hostAddr: nat): Option<nat>
    requires regs.Valid() && |mem| == regs.regionSize
  {
    DecodeDpa(Join64(Word(mem, regs.hdmBaseHi), Word(mem, regs.hdmBaseLo)),
              Join64(Word(mem, regs.hdmSizeHi), Word(mem, regs.hdmSizeLo)),
              Word(mem, regs.hdmCtrl), hostAddr)
  }

  /** Clearing RAS status bits leaves the decoder, and so every translation, as it was. */
  lemma {:induction false} RasWriteKeepsTranslation(regs: RegisterMap, mem: seq<bv8>, offset: nat, value: bv32, hostAddr: nat)
    requires regs.Valid() && |mem| == regs.regionSize
    requires offset == regs.rasUncStatus || offset == regs.rasCorStatus
    ensures DecoderDpa(regs, RegWriteEffect(regs, mem, offset, value), hostAddr) == DecoderDpa(regs, mem, hostAddr)
  {
    var k := if offset == regs.rasUncStatus then 5 else 6;
    var v := ClearOnWrite(Word(mem, offset), value);
    regs.Disjoint(0, k);
    regs.Disjoint(1, k);
    regs.Disjoint(2, k);
    regs.Disjoint(3, k);
    regs.Disjoint(4, k);
    StoreWordOther(mem, offset, v, regs.hdmCtrl);
    StoreWordOther(mem, offset, v, regs.hdmBaseLo);
    StoreWordOther(mem, offset, v, regs.hdmBaseHi);
    StoreWordOther(mem, offset, v, regs.hdmSizeLo);
    StoreWordOther(mem, offset, v, regs.hdmSizeHi);
  }

  /**
   * The request check of `cxl_doe_cdat_rsp` as written: only the request
   * length is checked; the entry handle indexes the table unchecked.
   */
  predicate CdatRequestAcceptedAsWritten(objLen: nat, entHandle: bv16) {
    objLen >= CDAT_MSG_DWORDS
  }

  /**
   * The end marker the device returns with the last entry, sent back as the
   * next request's handle, passes the check as written and names an entry
   * beyond any table the handle can address; `Type3Device.CdatResponse`
   * refuses it.
   */
  lemma CdatHandleUncheckedAsWritten(entries: nat)
    requires 0 < entries <= 0xffff
    ensures NextHandle(entries - 1, entries) == CXL_DOE_TAB_ENT_MAX as nat
    ensures CdatRequestAcceptedAsWritten(CDAT_MSG_DWORDS, CXL_DOE_TAB_ENT_MAX)
    ensures CXL_DOE_TAB_ENT_MAX as nat >= entries
  {
  }

  /**
   * The device (`CXLType3Dev`): the cache-memory component registers, the
   * size of the persistent memory region if there is one, the label storage
   * area, the CDAT entries served over DOE with the DOE read mailbox, and the
   * poison list with the range the next injection adds.
   */
  class Type3Device {
    const regs: RegisterMap
    const cacheMem: array<bv8>
    var pmemSize: Option<nat>
    const lsa: array<bv8>
    const cdat: seq<seq<bv8>>
    const readMbox: array<bv8>
    var readMboxLen: nat
    var poisonStart: nat
    var poisonLength: nat
    var poisonList: seq<Poison>

    predicate Valid() {
      && regs.Valid() && cacheMem.Length == regs.regionSize
      && lsa.Length < TWO_POW_64
      && readMbox.Length < TWO_POW_32
      && |cdat| <= 0xffff
      && (forall e :: e in cdat ==> CDAT_MSG_SIZE + |e| <= readMbox.Length)
      && cacheMem != lsa && cacheMem != readMbox && lsa != readMbox
    }

    constructor(regs: RegisterMap, pmemSize: Option<nat>, lsaSize: nat, cdat: seq<seq<bv8>>, mboxSize: nat)
      requires regs.Valid() && lsaSize < TWO_POW_64 && mboxSize < TWO_POW_32 && |cdat| <= 0xffff
      requires forall e :: e in cdat ==> CDAT_MSG_SIZE + |e| <= mboxSize
      ensures Valid()
      ensures this.regs == regs && this.pmemSize == pmemSize && this.cdat == cdat
      ensures lsa.Length == lsaSize && readMbox.Length == mboxSize
      ensures readMboxLen == 0 && poisonList == []
    {
      this.regs := regs;
      this.pmemSize := pmemSize;
      this.cdat := cdat;
      cacheMem := new bv8[regs.regionSize](_ => 0);
      lsa := new bv8[lsaSize](_ => 0);
      readMbox := new bv8[mboxSize](_ => 0);
      readMboxLen := 0;
      poisonStart, poisonLength := 0, 0;
      poisonList := [];
    }

    /** The translation of a host address by the HDM decoder as currently programmed. */
    function Dpa(hostAddr: bv64): Option<nat>
      requires Valid()
      reads cacheMem
    {
      DecoderDpa(regs, cacheMem[..], hostAddr as nat)
    }

    /**
     * `cxl_type3_read`: an access the window rejects fails with an error;
     * otherwise the backend is read at the translated address.
     */
    function Read(hostAddr: bv64): (r: ReadOutcome)
      requires Valid()
      reads this`pmemSize, cacheMem
      ensures r.ReadFails? <==> WindowRoute(pmemSize, Dpa(hostAddr)).Rejected?
      ensures r.ReadFails? ==> r.result == MemTxError
      ensures r.ReadBackend? ==> WindowRoute(pmemSize, Dpa(hostAddr)) == ToBackend(r.dpa)
    {
      match WindowRoute(pmemSize, Dpa(hostAddr))
      case Rejected => ReadFails(MemTxError)
      case ToBackend(d) => ReadBackend(d)
    }

    /**
     * `cxl_type3_write`: an access the window rejects is dropped and reported
     * as successful; otherwise the backend is written at the translated address.
     */
    function Write(hostAddr: bv64): (w: WriteOutcome)
      requires Valid()
      reads this`pmemSize, cacheMem
      ensures w.WriteDropped? <==> WindowRoute(pmemSize, Dpa(hostAddr)).Rejected?
      ensures w.WriteDropped? ==> w.result == MemTxOk
      ensures w.WriteBackend? ==> WindowRoute(pmemSize, Dpa(hostAddr)) == ToBackend(w.dpa)
    {
      match WindowRoute(pmemSize, Dpa(hostAddr))
      case Rejected => WriteDropped(MemTxOk)
      case ToBackend(d) => WriteBackend(d)
    }

    /**
     * Reads and writes at the same host address reach the same device
     * address, at or below the offset into the decoder's range and within
     * the region, or are both refused.
     */
    lemma ReadWriteAgree(hostAddr: bv64)
      requires Valid()
      ensures Read(hostAddr).ReadBackend? <==> Write(hostAddr).WriteBackend?
      ensures Read(hostAddr).ReadBackend? ==>
        && Read(hostAddr).dpa == Write(hostAddr).dpa
        && pmemSize.Some? && Read(hostAddr).dpa <= pmemSize.value
    {
    }

    /** `stl_le_p` into the component registers. */
    method StoreRegister(offset: nat, v: bv32)
      requires Valid() && offset + 4 <= cacheMem.Length
      modifies cacheMem
      ensures cacheMem[..] == StoreWord(old(cacheMem[..]), offset, v)
    {
      var b := Le32(v);
      cacheMem[offset] := b[0];
      cacheMem[offset + 1] := b[1];
      cacheMem[offset + 2] := b[2];
      cacheMem[offset + 3] := b[3];
    }

    /**
     * `hdm_decoder_commit`: clear the commit request and the error flag of
     * decoder 0 and report it committed.
     */
    method CommitDecoder()
      requires Valid()
      modifies cacheMem
      ensures cacheMem[..] == StoreWord(old(cacheMem[..]), regs.hdmCtrl, CommitCtrl(Word(old(cacheMem[..]), regs.hdmCtrl)))
    {
      var ctrl := Word(cacheMem[..], regs.hdmCtrl);
      ctrl := ctrl & !COMMIT_BIT;
      ctrl := ctrl & !ERR_NOT_COMMITTED_BIT;
      ctrl := ctrl | COMMITTED_BIT;
      StoreRegister(regs.hdmCtrl, ctrl);
    }

    /**
     * `ct3d_reg_write` of a 32-bit `value` at byte `offset` of the
     * cache-memory registers.
     */
    method RegWrite(offset: nat, value: bv32)
      requires Valid() && offset + 4 <= regs.regionSize
      modifies cacheMem
      ensures cacheMem[..] == RegWriteEffect(regs, old(cacheMem[..]), offset, value)
    {
      if offset == regs.rasUncStatus || offset == regs.rasCorStatus {
        var temp := Word(cacheMem[..], offset);
        temp := temp & !value;
        StoreRegister(offset, temp);
        return;
      }
      var shouldCommit := offset == regs.hdmCtrl && value & COMMIT_BIT != 0;
      StoreRegister(offset, value);
      if shouldCommit {
        CommitDecoder();
      }
    }

    /** `get_lsa`: copy `size` bytes of the label storage area from `offset`. */
    method GetLsa(size: nat, offset: nat) returns (buf: seq<bv8>, n: nat)
      requires Valid() && size < TWO_POW_64 && offset < TWO_POW_64
      requires LsaAccessValid(lsa.Length, size, offset)
      ensures offset + size <= lsa.Length
      ensures buf == lsa[offset..offset + size] && n == size
    {
      LsaAccessValidMeans(lsa.Length, size, offset);
      buf := [];
      var i := 0;
      while i < size
        invariant 0 <= i <= size
        invariant buf == lsa[offset..offset + i]
      {
        buf := buf + [lsa[offset + i]];
        i := i + 1;
      }
      n := size;
    }

    /** `set_lsa`: copy `data` into the label storage area at `offset`. */
    method SetLsa(data: seq<bv8>, offset: nat)
      requires Valid() && |data| < TWO_POW_64 && offset < TWO_POW_64
      requires LsaAccessValid(lsa.Length, |data|, offset)
      modifies lsa
      ensures offset + |data| <= lsa.Length
      ensures lsa[..] == Overwrite(old(lsa[..]), offset, data)
    {
      LsaAccessValidMeans(lsa.Length, |data|, offset);
      var i := 0;
      while i < |data|
        invariant 0 <= i <= |data|
        invariant forall k :: 0 <= k < lsa.Length ==>
          lsa[k] == if offset <= k < offset + i then data[k - offset] else old(lsa[k])
      {
        lsa[offset + i] := data[i];
        i := i + 1;
      }
      var r := Overwrite(old(lsa[..]), offset, data);
      assert forall k :: 0 <= k < lsa.Length ==> lsa[k] == r[k];
    }

    /**
     * `cxl_doe_cdat_rsp` for a read-entry request of `objLen` dwords naming
     * entry `entHandle`. A request shorter than `CDATReq` is discarded, and so
     * is a handle beyond the table. Otherwise the response header and the
     * entry are placed at the front of the read mailbox, the header naming
     * the next entry or the end marker, and the mailbox length grows by the
     * response's length in dwords.
     */
    method CdatResponse(objLen: nat, entHandle: bv16) returns (ok: bool)
      requires Valid() && |cdat| > 0
      modifies readMbox, this`readMboxLen
      ensures ok <==> objLen >= CDAT_MSG_DWORDS && entHandle as nat < |cdat|
      ensures !ok ==> readMbox[..] == old(readMbox[..]) && readMboxLen == old(readMboxLen)
      ensures ok ==>
        var e := cdat[entHandle as nat];
        && readMbox[..] == CdatResponseBytes(entHandle as nat) + old(readMbox[..])[CDAT_MSG_SIZE + |e|..]
        && readMboxLen == old(readMboxLen) + ResponseDwords(|e|)
    {
      var ent := entHandle as nat;
      if objLen < CDAT_MSG_DWORDS || ent >= |cdat| {
        ok := false;
      } else {
        CopyToMailbox(CdatResponseBytes(ent));
        readMboxLen := readMboxLen + ResponseDwords(|cdat[ent]|);
        ok := true;
      }
    }

    /** The `memcpy`s of the response into the front of the read mailbox. */
    method CopyToMailbox(bytes: seq<bv8>)
      requires |bytes| <= readMbox.Length
      modifies readMbox
      ensures readMbox[..] == bytes + old(readMbox[..])[|bytes|..]
    {
      var i := 0;
      while i < |bytes|
        invariant 0 <= i <= |bytes|
        invariant forall k :: 0 <= k < readMbox.Length ==> readMbox[k] == if k < i then bytes[k] else old(readMbox[k])
      {
        readMbox[i] := bytes[i];
        i := i + 1;
      }
      var r := bytes + old(readMbox[..])[|bytes|..];
      assert forall k :: 0 <= k < readMbox.Length ==> readMbox[k] == r[k];
    }

    /** The response header for entry `ent` followed by the entry. */
    function CdatResponseBytes(ent: nat): (b: seq<bv8>)
      requires Valid() && ent < |cdat|
      ensures |b| == CDAT_MSG_SIZE + |cdat[ent]| <= readMbox.Length
      ensures b[CDAT_MSG_SIZE..] == cdat[ent]
      ensures DecodeCdatRsp(b) == CdatRsp(ResponseDwords(|cdat[ent]|) as bv32, NextHandle(ent, |cdat|) as bv16)
    {
      assert cdat[ent] in cdat;
      var rsp := CdatRsp(ResponseDwords(|cdat[ent]|) as bv32, NextHandle(ent, |cdat|) as bv16);
      CdatRspRoundTrip(rsp);
      var b := EncodeCdatRsp(rsp) + cdat[ent];
      assert b[..CDAT_MSG_SIZE] == EncodeCdatRsp(rsp);
      b
    }

    /** `ct3_inject_poison`: the configured range goes to the head of the poison list. */
    method InjectPoison()
      modifies this`poisonList
      ensures poisonList == [Poison(poisonStart, poisonLength)] + old(poisonList)
    {
      poisonList := [Poison(poisonStart, poisonLength)] + poisonList;
    }
  }

  /**
   * After an injection an address is poisoned exactly when it lies in the
   * injected range or was poisoned before.
   */
  lemma InjectPoisonMarks(list: seq<Poison>, p: Poison, dpa: nat)
    ensures Poisoned([p] + list, dpa) <==> (p.start <= dpa < p.start + p.length) || Poisoned(list, dpa)
  {
    var l := [p] + list;
    if Poisoned(list, dpa) {
      var i :| 0 <= i < |list| && list[i].start <= dpa < list[i].start + list[i].length;
      assert l[i + 1] == list[i];
    }
    if Poisoned(l, dpa) && !(p.start <= dpa < p.start + p.length) {
      var i :| 0 <= i < |l| && l[i].start <= dpa < l[i].start + l[i].length;
      assert i > 0 && l[i] == list[i - 1];
    }
  }
}
