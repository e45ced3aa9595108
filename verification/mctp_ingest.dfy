/**
 * Request side of the MCTP-over-I2C CXL switch endpoint: the per-byte
 * ingestion state machine (`i2c_mctp_cxl_switch_tx` and its command parsers),
 * stated as a pure step on the request context, and the one-shot parse of a
 * whole request buffer that the step machine is proved to agree with.
 *
 * Byte positions follow the MCTP SMBus/I2C transport binding (DSP0237,
 * section 6): 0 command code 0x0f, 1 byte count, 2 source slave address,
 * 3 header version, 4 destination EID, 5 source EID, 6 flags/tag,
 * 7 message type; from 8 on the message body.
 */
module MctpIngest {

  import opened Wrappers
  import opened FmApi

  const MESSAGE_TYPE_CONTROL: bv8 := 0x00
  const MESSAGE_TYPE_CXL_FMAPI: bv8 := 0x07

  /** MCTP control command codes (DSP0236 section 12). */
  const SET_ENDPOINT_ID: bv8 := 0x01
  const GET_ENDPOINT_ID: bv8 := 0x02
  const GET_ENDPOINT_UUID: bv8 := 0x03
  const GET_VERSION: bv8 := 0x04
  const GET_MESSAGE_TYPE_SUPPORT: bv8 := 0x05
  const GET_VDM_SUPPORT: bv8 := 0x06

  /** Capacity of the requested-port store. */
  const NUM_PORTS := 10

  /** Position of the Set Endpoint ID value in a control request. */
  const SET_EID_VALUE_POS := 11
  /** Position of the declared port count in a Get Physical Port State request. */
  const PORT_COUNT_POS := 20
  /** Position of the first requested port ID. */
  const PORT_LIST_START := 21

  /** The transport header fields captured from positions 1..7. */
  datatype TransportHead = TransportHead(
    byteCount: bv8,
    sourceSlaveAddr: bv8,
    destEid: bv8,
    srcEid: bv8,
    tag: bv8,
    messageType: bv8)

  /** The control-message sub-context. */
  datatype ControlCtx = ControlCtx(rqBit: bv8, dBit: bv8, instanceId: bv8, commandCode: bv8)

  /**
   * The FM-API sub-context, with the Get Physical Port State request body.
   * The declared port count is an `int` in the source that is only ever
   * assigned one byte, so it is a byte here.
   */
  datatype FmapiCtx = FmapiCtx(tag: bv8, command: bv8, commandSet: bv8, numPortsReq: bv8, portsReq: seq<bv8>)
  {
    /** The port store has its fixed capacity. */
    predicate Valid() {
      |portsReq| == NUM_PORTS
    }
  }

  /**
   * The request context the device keeps between bytes: the endpoint ID, the
   * transport header and the control and FM-API sub-contexts. The source
   * overlays the two sub-contexts; here they are kept apart. Nothing here is
   * cleared between transactions.
   */
  datatype Ctx = Ctx(eidSet: bool, myEid: bv8, head: TransportHead, control: ControlCtx, fmapi: FmapiCtx)
  {
    /** The port store has its capacity; the tag holds only the three tag bits. */
    predicate Valid() {
      fmapi.Valid() && head.tag <= 7
    }
  }

  /** The context of a freshly created device: every field zero. */
  function InitialCtx(): (c: Ctx)
    ensures c.Valid() && !c.eidSet && c.fmapi.numPortsReq == 0
  {
    Ctx(false, 0, TransportHead(0, 0, 0, 0, 0, 0), ControlCtx(0, 0, 0, 0),
        FmapiCtx(0, 0, 0, 0, seq(NUM_PORTS, _ => 0)))
  }

  /**
   * Where the byte at position `len` of a port list is stored, given the
   * declared count. Bytes past the declared count, and past the capacity of
   * the store, are accepted and dropped.
   */
  function PortStoreIndex(len: nat, declared: nat): (r: Option<nat>)
    ensures r.Some? ==> r.value < NUM_PORTS && r.value < declared && PORT_LIST_START + r.value == len
    ensures r.None? ==> len < PORT_LIST_START || len >= PORT_LIST_START + declared
                        || len >= PORT_LIST_START + NUM_PORTS
  {
    if PORT_LIST_START <= len < PORT_LIST_START + declared && len - PORT_LIST_START < NUM_PORTS
    then Some(len - PORT_LIST_START)
    else None
  }

  /** The 7-bit slave address carried in the upper bits of an address byte. */
  function SlaveAddress(b: bv8): bv8 {
    b >> 1
  }

  /** The message tag: the low three bits of the flags byte. */
  function TagBits(b: bv8): (t: bv8)
    ensures t <= 7
  {
    b & 0x07
  }

  /** Positions 0..7: the transport header. Bytes 0 and 3 are only checked, never stored. */
  function TransportIngest(h: TransportHead, len: nat, data: bv8): (r: TransportHead)
    ensures h.tag <= 7 ==> r.tag <= 7
  {
    if len == 1 then h.(byteCount := data)
    else if len == 2 then h.(sourceSlaveAddr := SlaveAddress(data))
    else if len == 4 then h.(destEid := data)
    else if len == 5 then h.(srcEid := data)
    else if len == 6 then h.(tag := TagBits(data))
    else if len == 7 then h.(messageType := data)
    else h
  }

  /** Control message header: flags and instance at 8, command code at 9. */
  function ControlFieldsIngest(k: ControlCtx, len: nat, data: bv8): ControlCtx {
    if len == 8 then
      k.(rqBit := if data & 0x80 != 0 then 1 else 0,
         dBit := if data & 0x40 != 0 then 1 else 0,
         instanceId := data & 0x1f)
    else if len == 9 then k.(commandCode := data)
    else k
  }

  /** `mctp_command_set_eid_parse`: byte 11 becomes the endpoint ID at once; byte 10 is only logged. */
  function SetEidIngest(c: Ctx, len: nat, data: bv8): (r: Ctx)
    ensures r.head == c.head && r.control == c.control && r.fmapi == c.fmapi
  {
    if len == SET_EID_VALUE_POS then c.(eidSet := true, myEid := data) else c
  }

  /** A control message byte: its header fields, then the command's parser. */
  function ControlIngest(c: Ctx, len: nat, data: bv8): (r: Ctx)
    ensures r.head == c.head && r.fmapi == c.fmapi
  {
    var c1 := c.(control := ControlFieldsIngest(c.control, len, data));
    if len > 9 && c1.control.commandCode == SET_ENDPOINT_ID then SetEidIngest(c1, len, data) else c1
  }

  /** `cxl_fmapi_cmd_set_physical_switch_parse`: only Get Physical Port State keeps anything. */
  function PhysicalSwitchIngest(f: FmapiCtx, len: nat, data: bv8): (r: FmapiCtx)
    requires f.Valid()
    ensures r.Valid()
  {
    if f.command != GetPhysicalPortState.Opcode() then f
    else if len == PORT_COUNT_POS then f.(numPortsReq := data)
    else match PortStoreIndex(len, f.numPortsReq as nat)
      case Some(i) => f.(portsReq := f.portsReq[i := data])
      case None => f
  }

  /** An FM-API message byte: tag at 9, command at 11, command set at 12, command body from 20. */
  function FmapiIngest(f: FmapiCtx, len: nat, data: bv8): (r: FmapiCtx)
    requires f.Valid()
    ensures r.Valid()
  {
    var f1 :=
      if len == 9 then f.(tag := data)
      else if len == 11 then f.(command := data)
      else if len == 12 then f.(commandSet := data)
      else f;
    if len > 19 && f1.commandSet == CMD_SET_PHYSICAL_SWITCH then PhysicalSwitchIngest(f1, len, data)
    else f1
  }

  /** One call of `i2c_mctp_cxl_switch_tx` with the byte `data` at position `len`. */
  function IngestByte(c: Ctx, len: nat, data: bv8): (r: Ctx)
    requires c.Valid()
    ensures r.Valid()
  {
    var c1 := c.(head := TransportIngest(c.head, len, data));
    var c2 := if len > 7 && c1.head.messageType == MESSAGE_TYPE_CONTROL then ControlIngest(c1, len, data) else c1;
    if len > 7 && c2.head.messageType == MESSAGE_TYPE_CXL_FMAPI then c2.(fmapi := FmapiIngest(c2.fmapi, len, data))
    else c2
  }

  /** Successive calls, the first at position `len`. */
  function IngestFrom(c: Ctx, len: nat, bytes: seq<bv8>): (r: Ctx)
    requires c.Valid()
    ensures r.Valid()
    decreases |bytes|
  {
    if bytes == [] then c else IngestFrom(IngestByte(c, len, bytes[0]), len + 1, bytes[1..])
  }

  /*
   * The same request read at once from a complete buffer `r`: every field is
   * the byte at its fixed position when the buffer reaches that position, and
   * keeps its old value otherwise.
   */

  function ParseTransport(h: TransportHead, r: seq<bv8>): TransportHead {
    var n := |r|;
    TransportHead(
      byteCount := if n > 1 then r[1] else h.byteCount,
      sourceSlaveAddr := if n > 2 then SlaveAddress(r[2]) else h.sourceSlaveAddr,
      destEid := if n > 4 then r[4] else h.destEid,
      srcEid := if n > 5 then r[5] else h.srcEid,
      tag := if n > 6 then TagBits(r[6]) else h.tag,
      messageType := if n > 7 then r[7] else h.messageType)
  }

  predicate IsControl(r: seq<bv8>) {
    |r| > 7 && r[7] == MESSAGE_TYPE_CONTROL
  }

  predicate IsFmapi(r: seq<bv8>) {
    |r| > 7 && r[7] == MESSAGE_TYPE_CXL_FMAPI
  }

  function ParseControl(k: ControlCtx, r: seq<bv8>): ControlCtx {
    var n := |r|;
    if !IsControl(r) then k
    else ControlCtx(
      rqBit := if n > 8 then (if r[8] & 0x80 != 0 then 1 else 0) else k.rqBit,
      dBit := if n > 8 then (if r[8] & 0x40 != 0 then 1 else 0) else k.dBit,
      instanceId := if n > 8 then r[8] & 0x1f else k.instanceId,
      commandCode := if n > 9 then r[9] else k.commandCode)
  }

  /** A Set Endpoint ID request that has reached its value byte. */
  predicate SetsEid(r: seq<bv8>) {
    IsControl(r) && |r| > SET_EID_VALUE_POS && r[9] == SET_ENDPOINT_ID
  }

  /** A Get Physical Port State request that has reached its port count. */
  predicate IsPortStateRequest(r: seq<bv8>) {
    IsFmapi(r) && |r| > PORT_COUNT_POS
    && r[12] == CMD_SET_PHYSICAL_SWITCH && r[11] == GetPhysicalPortState.Opcode()
  }

  function ParseFmapi(f: FmapiCtx, r: seq<bv8>): (g: FmapiCtx)
    requires f.Valid()
    ensures g.Valid()
  {
    var n := |r|;
    if !IsFmapi(r) then f
    else if !IsPortStateRequest(r) then
      f.(tag := if n > 9 then r[9] else f.tag,
         command := if n > 11 then r[11] else f.command,
         commandSet := if n > 12 then r[12] else f.commandSet)
    else
      FmapiCtx(r[9], r[11], r[12], r[PORT_COUNT_POS], PortsAfter(f.portsReq, r, r[PORT_COUNT_POS] as nat))
  }

  /** The port store after the port list of buffer `r`, `declared` entries long, has been read. */
  function PortsAfter(ports: seq<bv8>, r: seq<bv8>, declared: nat): (s: seq<bv8>)
    requires |ports| == NUM_PORTS
    ensures |s| == NUM_PORTS
  {
    seq(NUM_PORTS, i requires 0 <= i < NUM_PORTS =>
      if i < declared && PORT_LIST_START + i < |r| then r[PORT_LIST_START + i] else ports[i])
  }

  function Parse(c: Ctx, r: seq<bv8>): (p: Ctx)
    requires c.Valid()
    ensures p.Valid()
  {
    Ctx(eidSet := if SetsEid(r) then true else c.eidSet,
        myEid := if SetsEid(r) then r[SET_EID_VALUE_POS] else c.myEid,
        head := ParseTransport(c.head, r),
        control := ParseControl(c.control, r),
        fmapi := ParseFmapi(c.fmapi, r))
  }

  /** Feeding one more byte after a run of bytes. */
  lemma {:induction false} IngestFromSnoc(c: Ctx, len: nat, bytes: seq<bv8>, x: bv8)
    requires c.Valid()
    ensures IngestFrom(c, len, bytes + [x]) == IngestByte(IngestFrom(c, len, bytes), len + |bytes|, x)
    decreases |bytes|
  {
    if bytes == [] {
      assert [x][1..] == [];
    } else {
      assert (bytes + [x])[1..] == bytes[1..] + [x];
      IngestFromSnoc(IngestByte(c, len, bytes[0]), len + 1, bytes[1..], x);
    }
  }

  /** One more byte of a port list is stored where `PortStoreIndex` says, or dropped. */
  lemma PortsAfterSnoc(ports: seq<bv8>, r: seq<bv8>, x: bv8, declared: nat)
    requires |ports| == NUM_PORTS && |r| >= PORT_LIST_START
    ensures PortsAfter(ports, r + [x], declared) ==
      match PortStoreIndex(|r|, declared)
      case Some(i) => PortsAfter(ports, r, declared)[i := x]
      case None => PortsAfter(ports, r, declared)
  {
  }

  /** Before the port list starts, the store is untouched. */
  lemma PortsAfterCount(ports: seq<bv8>, r: seq<bv8>, declared: nat)
    requires |ports| == NUM_PORTS && |r| <= PORT_LIST_START
    ensures PortsAfter(ports, r, declared) == ports
  {
  }

  lemma TransportSnoc(h: TransportHead, r: seq<bv8>, x: bv8)
    ensures ParseTransport(h, r + [x]) == TransportIngest(ParseTransport(h, r), |r|, x)
  {
    var r' := r + [x];
    assert forall i :: 0 <= i < |r| ==> r'[i] == r[i];
  }

  lemma ControlSnoc(k: ControlCtx, r: seq<bv8>, x: bv8)
    ensures ParseControl(k, r + [x]) ==
      if IsControl(r) then ControlFieldsIngest(ParseControl(k, r), |r|, x) else ParseControl(k, r)
  {
    var r' := r + [x];
    assert forall i :: 0 <= i < |r| ==> r'[i] == r[i];
  }

  lemma FmapiSnoc(f: FmapiCtx, r: seq<bv8>, x: bv8)
    requires f.Valid()
    ensures ParseFmapi(f, r + [x]) ==
      if IsFmapi(r) then FmapiIngest(ParseFmapi(f, r), |r|, x) else ParseFmapi(f, r)
  {
    var r' := r + [x];
    assert forall i :: 0 <= i < |r| ==> r'[i] == r[i];
    if IsFmapi(r) {
      if |r| == PORT_COUNT_POS {
        PortsAfterCount(f.portsReq, r', r'[PORT_COUNT_POS] as nat);
      } else if IsPortStateRequest(r) {
        PortsAfterSnoc(f.portsReq, r, x, r[PORT_COUNT_POS] as nat);
      }
    }
  }

  /** The one-shot parse of a buffer one byte longer is one ingestion step on the shorter parse. */
  lemma ParseSnoc(c: Ctx, r: seq<bv8>, x: bv8)
    requires c.Valid()
    ensures Parse(c, r + [x]) == IngestByte(Parse(c, r), |r|, x)
  {
    var r' := r + [x];
    assert forall i :: 0 <= i < |r| ==> r'[i] == r[i];
    TransportSnoc(c.head, r, x);
    ControlSnoc(c.control, r, x);
    FmapiSnoc(c.fmapi, r, x);
  }

  /**
   * The byte-at-a-time state machine, started at position 0, leaves exactly
   * the context that a one-shot parse of the whole buffer gives.
   */
  lemma {:induction false} IngestMatchesParse(c: Ctx, r: seq<bv8>)
    requires c.Valid()
    ensures IngestFrom(c, 0, r) == Parse(c, r)
    decreases |r|
  {
    if r == [] {
    } else {
      var front, x := r[..|r| - 1], r[|r| - 1];
      assert r == front + [x];
      IngestMatchesParse(c, front);
      IngestFromSnoc(c, 0, front, x);
      ParseSnoc(c, front, x);
    }
  }

  /** Once the header has arrived, the context holds its fields: the source address shifted down, the tag's low three bits. */
  lemma HeaderCapture(c: Ctx, r: seq<bv8>)
    requires c.Valid() && |r| > 7
    ensures IngestFrom(c, 0, r).head == TransportHead(r[1], r[2] >> 1, r[4], r[5], r[6] & 0x07, r[7])
  {
    IngestMatchesParse(c, r);
  }

  /** Bytes 0 (the 0x0f command code) and 3 (the header version) are checked only: they change nothing. */
  lemma UnstoredBytesIgnored(c: Ctx, r: seq<bv8>, r': seq<bv8>)
    requires c.Valid() && |r| == |r'|
    requires forall i :: 0 <= i < |r| && i != 0 && i != 3 ==> r[i] == r'[i]
    ensures IngestFrom(c, 0, r) == IngestFrom(c, 0, r')
  {
    IngestMatchesParse(c, r);
    IngestMatchesParse(c, r');
    if |r| > PORT_LIST_START {
      assert PortsAfter(c.fmapi.portsReq, r, r[PORT_COUNT_POS] as nat)
          == PortsAfter(c.fmapi.portsReq, r', r'[PORT_COUNT_POS] as nat);
    }
  }

  /**
   * Set Endpoint ID takes effect as soon as its value byte arrives: the
   * endpoint ID is byte 11, whatever operation byte 10 asked for.
   */
  lemma SetEndpointIdTakesEffect(c: Ctx, r: seq<bv8>)
    requires c.Valid() && IsControl(r) && |r| > SET_EID_VALUE_POS && r[9] == SET_ENDPOINT_ID
    ensures IngestFrom(c, 0, r).eidSet
    ensures IngestFrom(c, 0, r).myEid == r[SET_EID_VALUE_POS]
  {
    IngestMatchesParse(c, r);
  }

  /** No request other than Set Endpoint ID changes the endpoint ID. */
  lemma EidOnlyChangedBySetEid(c: Ctx, r: seq<bv8>)
    requires c.Valid() && !SetsEid(r)
    ensures IngestFrom(c, 0, r).myEid == c.myEid && IngestFrom(c, 0, r).eidSet == c.eidSet
  {
    IngestMatchesParse(c, r);
  }

  /**
   * A Get Physical Port State request stores its declared count and the first
   * port IDs of its list, at most `NUM_PORTS` of them and no more than were
   * declared or sent; every other slot keeps whatever an earlier request left there.
   */
  lemma PortListCapture(c: Ctx, r: seq<bv8>)
    requires c.Valid() && IsPortStateRequest(r)
    ensures IngestFrom(c, 0, r).fmapi.command == GetPhysicalPortState.Opcode()
    ensures IngestFrom(c, 0, r).fmapi.commandSet == CMD_SET_PHYSICAL_SWITCH
    ensures IngestFrom(c, 0, r).fmapi.numPortsReq == r[PORT_COUNT_POS]
    ensures forall i :: 0 <= i < NUM_PORTS ==>
      IngestFrom(c, 0, r).fmapi.portsReq[i] ==
        if i < r[PORT_COUNT_POS] as nat && PORT_LIST_START + i < |r| then r[PORT_LIST_START + i]
        else c.fmapi.portsReq[i]
  {
    IngestMatchesParse(c, r);
  }

  /**
   * A Get Physical Port State request whose body, from the count byte on, is
   * the encoding of `q` with at most `NUM_PORTS` ports leaves `q` in the
   * device: its count, its port IDs in the first slots of the store, and the
   * slots after them as an earlier request left them.
   */
  lemma PortStateRequestCapture(c: Ctx, r: seq<bv8>, q: PortStateReq)
    requires c.Valid() && IsPortStateRequest(r)
    requires q.numPorts as nat <= NUM_PORTS && |q.ports| == q.numPorts as nat
    requires PORT_COUNT_POS + 1 + |q.ports| <= |r|
    requires r[PORT_COUNT_POS..PORT_COUNT_POS + 1 + |q.ports|] == EncodePortStateReq(q)
    ensures IngestFrom(c, 0, r).fmapi.numPortsReq == q.numPorts
    ensures IngestFrom(c, 0, r).fmapi.portsReq[..q.numPorts as nat] == q.ports
    ensures IngestFrom(c, 0, r).fmapi.portsReq[q.numPorts as nat..] == c.fmapi.portsReq[q.numPorts as nat..]
  {
    PortListCapture(c, r);
    var e := EncodePortStateReq(q);
    assert r[PORT_COUNT_POS] == e[0];
    forall i | 0 <= i < |q.ports|
      ensures r[PORT_LIST_START + i] == q.ports[i]
    {
      assert r[PORT_COUNT_POS + 1 + i] == e[1 + i];
    }
  }

  /** Requests that are not Get Physical Port State leave the port store and count alone. */
  lemma PortStoreOnlyChangedByPortState(c: Ctx, r: seq<bv8>)
    requires c.Valid() && !IsPortStateRequest(r)
    ensures IngestFrom(c, 0, r).fmapi.numPortsReq == c.fmapi.numPortsReq
    ensures IngestFrom(c, 0, r).fmapi.portsReq == c.fmapi.portsReq
  {
    IngestMatchesParse(c, r);
  }
}
