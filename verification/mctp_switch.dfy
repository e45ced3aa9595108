/**
 * Response side of the MCTP-over-I2C CXL switch endpoint: the reply frames it
 * builds for each supported request, the byte-per-callback emitter that walks
 * a frame and appends its PEC, the bottom-half responder state machine, and
 * the device object tying the request and response sides together.
 */
module MctpSwitch {

  import opened Wrappers
  import opened PacketErrorCode
  import opened FmApi
  import opened MctpIngest

  /** Size of the combined transport and control command header of a control reply. */
  const CONTROL_HEAD_SIZE := 11
  /** Size of the combined transport and CCI message header of an FM-API reply. */
  const FMAPI_HEAD_SIZE := 21
  /** Offset of the responder address byte; the byte count covers everything from here to the PEC. */
  const BYTE_COUNT_BASE := 3
  /** Transport header version (DSP0237). */
  const HEADER_VERSION: bv8 := 0x01
  /** CCI message category of a response. */
  const CATEGORY_RESPONSE: bv8 := 0x01
  const VENDOR_SPECIFIC: bv16 := 0xbeef

  /**
   * Transmit buffer: room for the largest reply, an FM-API header, a port
   * state response of `NUM_PORTS` blocks, and the PEC.
   */
  const SEND_BUF_SIZE := FMAPI_HEAD_SIZE + PORT_STATE_RESP_HEAD_SIZE + PORT_INFO_BLOCK_SIZE * NUM_PORTS + 1

  datatype ResponderState = ProcessRequest | StartSend | Ack

  datatype I2cEvent = I2cStartRecv | I2cStartSend | I2cFinish | I2cNack

  /** What one bottom-half callback does on the bus. */
  datatype BusAction =
    | Silent                  // nothing goes on the bus
    | StartSendTo(addr: bv8)  // start a write transfer to the 7-bit address `addr`
    | SendByte(value: bv8)    // send one byte
    | EndAndRelease           // end the transfer and give the bus back

  /** A reply: header and payload; `control` selects the control emitter over the FM-API one. */
  datatype Frame = Frame(control: bool, head: seq<bv8>, payload: seq<bv8>)
  {
    function Bytes(): seq<bv8> {
      head + payload
    }
  }

  /** The address byte of a transfer to the 7-bit address `a`: the address above the read/write bit, here write. */
  function WriteAddressByte(a: bv8): bv8 {
    a << 1
  }

  /** The source address byte of a transport header: the 7-bit address `a` above a bit that is always 1. */
  function SourceAddressByte(a: bv8): bv8 {
    (a << 1) | 1
  }

  /** The flags byte of a single-packet reply: start and end of message, tag owner clear, tag `tag`. */
  function ReplyFlagsByte(tag: bv8): bv8 {
    tag | 0x80 | 0x40
  }

  /**
   * The nine-byte transport header of a reply (`struct mctp_i2c_head`): back
   * to the requester's address and EID, from this device's address and EID,
   * start and end of message set, tag owner clear, the request's tag. The byte
   * count is computed in full and truncated to a byte.
   */
  function ReplyTransportHead(c: Ctx, address: bv8, headSize: nat, plSize: nat, messageType: bv8): (h: seq<bv8>)
    requires headSize >= BYTE_COUNT_BASE
    ensures |h| == 9
  {
    [WriteAddressByte(c.head.sourceSlaveAddr),
     0x0f,
     ((headSize - BYTE_COUNT_BASE + plSize) % 256) as bv8,
     SourceAddressByte(address),
     HEADER_VERSION,
     c.head.srcEid,
     c.myEid,
     ReplyFlagsByte(c.head.tag),
     messageType]
  }

  /** `mctp_control_set_reply` for a payload of `plSize` bytes: transport header, instance ID, command code. */
  function ControlReplyHead(c: Ctx, address: bv8, plSize: nat): (h: seq<bv8>)
    ensures |h| == CONTROL_HEAD_SIZE
  {
    ReplyTransportHead(c, address, CONTROL_HEAD_SIZE, plSize, MESSAGE_TYPE_CONTROL)
    + [c.control.instanceId, c.control.commandCode]
  }

  /**
   * `mctp_fmapi_set_reply` for a payload of `plSize` bytes, a byte-sized
   * parameter: transport header then the CCI message header, whose two upper
   * payload-length bytes are therefore zero.
   */
  function FmapiReplyHead(c: Ctx, address: bv8, plSize: nat): (h: seq<bv8>)
    requires plSize < 256
    ensures |h| == FMAPI_HEAD_SIZE
  {
    ReplyTransportHead(c, address, FMAPI_HEAD_SIZE, plSize, MESSAGE_TYPE_CXL_FMAPI)
    + [CATEGORY_RESPONSE, c.fmapi.tag, 0, c.fmapi.command, c.fmapi.commandSet, plSize as bv8, 0, 0]
    + Le16(0) + Le16(VENDOR_SPECIFIC)
  }

  /**
   * The frame carrying payload `p`. Both header builders take the payload
   * size as a byte, so the header carries it truncated to one; the FM-API
   * emitter itself sends the whole payload.
   */
  function FrameOf(c: Ctx, address: bv8, control: bool, p: seq<bv8>): (f: Frame)
    ensures f.control == control && f.payload == p
    ensures |f.head| == if control then CONTROL_HEAD_SIZE else FMAPI_HEAD_SIZE
  {
    var plSize := |p| % 256;
    Frame(control, if control then ControlReplyHead(c, address, plSize) else FmapiReplyHead(c, address, plSize), p)
  }

  // Control reply payloads. Byte 0 of each is the completion code, 0 for success.

  function EidSetPayload(eid: bv8): seq<bv8> {
    [0, 0, eid, 0]
  }

  function EidGetPayload(eid: bv8): seq<bv8> {
    [0, eid, 0, 0]
  }

  const UUID_PAYLOAD: seq<bv8> :=
    [0, 0xdf, 0x2b, 0xbe, 0xba, 0x73, 0xc6, 0x4e, 0x33, 0x82, 0x5c, 0x98, 0x00, 0x15, 0x8a, 0xc9, 0x2e]

  const VERSION_PAYLOAD: seq<bv8> := [0, 1, 0, 0, 3, 1]

  /** Two supported message types: MCTP control and CXL FM-API. */
  const MESSAGE_TYPE_SUPPORT_PAYLOAD: seq<bv8> := [0, 2, MESSAGE_TYPE_CONTROL, MESSAGE_TYPE_CXL_FMAPI]

  const VDM_SUPPORT_PAYLOAD: seq<bv8> := [0, 0xff, 0, 0x19, 0xe5, 0, 0]

  /** The reply payload of each supported control command. */
  function ControlPayload(c: Ctx): Option<seq<bv8>> {
    var code := c.control.commandCode;
    if code == SET_ENDPOINT_ID then Some(EidSetPayload(c.myEid))
    else if code == GET_ENDPOINT_ID then Some(EidGetPayload(c.myEid))
    else if code == GET_ENDPOINT_UUID then Some(UUID_PAYLOAD)
    else if code == GET_VERSION then Some(VERSION_PAYLOAD)
    else if code == GET_MESSAGE_TYPE_SUPPORT then Some(MESSAGE_TYPE_SUPPORT_PAYLOAD)
    else if code == GET_VDM_SUPPORT then Some(VDM_SUPPORT_PAYLOAD)
    else None
  }

  /** The fixed identity of the emulated switch. */
  function SwitchIdentity(): (r: IdentifySwitchResp)
    ensures r.WellFormed()
  {
    IdentifySwitchResp(
      ingressPortId := 0,
      numPhysicalPorts := 10,
      numVcs := 2,
      activePortBitmask := [0xff, 0x03] + seq(BITMASK_LEN - 2, _ => 0),
      activeVcsBitmask := [0x03] + seq(BITMASK_LEN - 1, _ => 0),
      numTotalVppb := 128,
      numActiveVppb := 8)
  }

  /**
   * The state block reported for port `id`: ports 0 and 1 are upstream ports
   * with nothing attached; every other port is a downstream port with a CXL
   * type 3 device of three logical devices. All links are x16 at 32 GT/s.
   */
  function PortBlock(id: bv8): PortInfoBlock {
    var upstream := id < 2;
    PortInfoBlock(
      portId := id,
      configState := if upstream then 4 else 3,
      connectedDeviceCxlVersion := 2,
      connectedDeviceType := if upstream then 0 else 4,
      portCxlVersionBitmask := 0x2,
      maxLinkWidth := 0x10,
      negotiatedLinkWidth := 0x10,
      supportedLinkSpeedsVector := 0x1c,
      maxLinkSpeed := 5,
      currentLinkSpeed := 5,
      ltssmState := 0x7,
      firstLaneNum := 0,
      linkState := 0,
      supportedLdCount := if upstream then 0 else 3)
  }

  /** How many requested ports are reported: the declared count, bounded by the store's capacity. */
  function ReportedPorts(f: FmapiCtx): (n: nat)
    ensures n <= NUM_PORTS && n <= f.numPortsReq as nat
    ensures n == NUM_PORTS || n == f.numPortsReq as nat
  {
    if f.numPortsReq as nat <= NUM_PORTS then f.numPortsReq as nat else NUM_PORTS
  }

  /** The Get Physical Port State response for the stored request. */
  function PortStateResponse(f: FmapiCtx): (r: PortStateResp)
    requires f.Valid()
    ensures |r.ports| == r.numPorts as nat == ReportedPorts(f)
  {
    PortStateResp(ReportedPorts(f) as bv8, PortBlocks(f.portsReq, ReportedPorts(f)))
  }

  /** The state blocks of the first `n` stored ports, in request order. */
  function PortBlocks(ports: seq<bv8>, n: nat): (bs: seq<PortInfoBlock>)
    requires n <= |ports|
    ensures |bs| == n
  {
    seq(n, i requires 0 <= i < n => PortBlock(ports[i]))
  }

  /** The reply payload of each implemented Physical Switch command. */
  function PhysicalSwitchPayload(f: FmapiCtx): (p: Option<seq<bv8>>)
    requires f.Valid()
    ensures p.Some? <==> f.command <= GetPhysicalPortState.Opcode()
    ensures f.command == IdentifySwitch.Opcode() ==> |p.value| == IDENTIFY_SWITCH_RESP_SIZE
    ensures f.command == GetPhysicalPortState.Opcode() ==>
      |p.value| == PORT_STATE_RESP_HEAD_SIZE + PORT_INFO_BLOCK_SIZE * ReportedPorts(f)
  {
    PortStateRespSize(PortStateResponse(f));
    if f.command == IdentifySwitch.Opcode() then Some(EncodeIdentifySwitchResp(SwitchIdentity()))
    else if f.command == GetPhysicalPortState.Opcode() then Some(EncodePortStateResp(PortStateResponse(f)))
    else None
  }

  /** The request kinds the device answers. */
  predicate Answered(c: Ctx) {
    || (c.head.messageType == MESSAGE_TYPE_CONTROL && SET_ENDPOINT_ID <= c.control.commandCode <= GET_VDM_SUPPORT)
    || (c.head.messageType == MESSAGE_TYPE_CXL_FMAPI && c.fmapi.commandSet == CMD_SET_PHYSICAL_SWITCH
        && c.fmapi.command <= GetPhysicalPortState.Opcode())
  }

  /**
   * The reply to the request held in `c`, or none for a request the device
   * does not answer. Every reply fits the transmit buffer with its PEC.
   */
  function ReplyFrame(c: Ctx, address: bv8): (f: Option<Frame>)
    requires c.Valid()
    ensures f.Some? <==> Answered(c)
    ensures f.Some? ==> |f.value.Bytes()| < SEND_BUF_SIZE
    ensures f.Some? ==> f.value == FrameOf(c, address, f.value.control, f.value.payload)
    ensures f.Some? && f.value.control ==> ControlPayload(c) == Some(f.value.payload)
    ensures f.Some? && !f.value.control ==> PhysicalSwitchPayload(c.fmapi) == Some(f.value.payload)
    ensures f.Some? ==> (f.value.control <==> c.head.messageType == MESSAGE_TYPE_CONTROL)
  {
    if c.head.messageType == MESSAGE_TYPE_CONTROL then
      match ControlPayload(c)
      case Some(p) => Some(FrameOf(c, address, true, p))
      case None => None
    else if c.head.messageType == MESSAGE_TYPE_CXL_FMAPI && c.fmapi.commandSet == CMD_SET_PHYSICAL_SWITCH then
      match PhysicalSwitchPayload(c.fmapi)
      case Some(p) => Some(FrameOf(c, address, false, p))
      case None => None
    else None
  }

  /** The responder's own state: bottom-half state, bytes handled, transmit buffer. */
  datatype Responder = Responder(state: ResponderState, len: nat, buf: seq<bv8>)
  {
    predicate Valid() {
      |buf| == SEND_BUF_SIZE
    }
  }

  /**
   * One transmit callback for frame `f` (`mctp_cmd_send_reply` for control
   * replies, `cxl_fmapi_reply` for FM-API replies): header byte, payload byte,
   * the PEC over everything sent so far, or the end of the transfer. Beyond
   * that the control emitter sends zeros and the FM-API emitter does nothing.
   */
  function Emit(f: Frame, r: Responder): (res: (BusAction, Responder))
    requires r.Valid() && |f.Bytes()| < SEND_BUF_SIZE
    ensures res.1.Valid() && res.1.state == r.state
  {
    var h, p := |f.head|, |f.payload|;
    if r.len < h + p + 1 then
      var v :=
        if r.len < h then f.head[r.len]
        else if r.len < h + p then f.payload[r.len - h]
        else Pec(0, r.buf[..r.len]);
      (SendByte(v), r.(len := r.len + 1, buf := r.buf[r.len := v]))
    else if r.len == h + p + 1 then (EndAndRelease, r)
    else if f.control then
      (SendByte(0), r.(len := r.len + 1, buf := if r.len < |r.buf| then r.buf[r.len := 0] else r.buf))
    else (Silent, r)
  }

  /**
   * One call of the bottom half `mctp_bh` with the request context `c`:
   * start the reply transfer to the requester, then emit the reply one byte
   * per callback; unanswered requests get nothing.
   */
  function BhStep(c: Ctx, address: bv8, r: Responder): (res: (BusAction, Responder))
    requires c.Valid() && r.Valid()
    ensures res.1.Valid()
  {
    match r.state
    case ProcessRequest | StartSend =>
      var b := if r.len < |r.buf| then r.buf[r.len := WriteAddressByte(c.head.sourceSlaveAddr)] else r.buf;
      (StartSendTo(c.head.sourceSlaveAddr), Responder(Ack, r.len + 1, b))
    case Ack =>
      match ReplyFrame(c, address)
      case Some(f) => Emit(f, r)
      case None => (Silent, r)
  }

  /** While acknowledging, a bottom-half call is one transmit callback of the reply for the request's kind. */
  lemma AckStep(c: Ctx, address: bv8, r: Responder)
    requires c.Valid() && r.Valid() && r.state == Ack
    ensures BhStep(c, address, r) ==
      if c.head.messageType == MESSAGE_TYPE_CONTROL then
        match ControlPayload(c)
        case Some(p) => Emit(FrameOf(c, address, true, p), r)
        case None => (Silent, r)
      else if c.head.messageType == MESSAGE_TYPE_CXL_FMAPI && c.fmapi.commandSet == CMD_SET_PHYSICAL_SWITCH then
        match PhysicalSwitchPayload(c.fmapi)
        case Some(p) => Emit(FrameOf(c, address, false, p), r)
        case None => (Silent, r)
      else (Silent, r)
  {
  }

  /** The acknowledge step for a physical switch request: the reply frame, or silence for an unknown command. */
  lemma PhysicalSwitchAckStep(c: Ctx, address: bv8, r: Responder)
    requires c.Valid() && r.Valid() && r.state == Ack
    requires c.head.messageType == MESSAGE_TYPE_CXL_FMAPI && c.fmapi.commandSet == CMD_SET_PHYSICAL_SWITCH
    ensures c.fmapi.command <= GetPhysicalPortState.Opcode() ==>
      BhStep(c, address, r) == Emit(FrameOf(c, address, false, PhysicalSwitchPayload(c.fmapi).value), r)
    ensures c.fmapi.command > GetPhysicalPortState.Opcode() ==> BhStep(c, address, r) == (Silent, r)
  {
    AckStep(c, address, r);
  }

  /** The bus actions of `k` successive bottom-half calls while the request context stays `c`. */
  function Run(c: Ctx, address: bv8, r: Responder, k: nat): (acts: seq<BusAction>)
    requires c.Valid() && r.Valid()
    ensures |acts| == k
    decreases k
  {
    if k == 0 then []
    else
      var step := BhStep(c, address, r);
      [step.0] + Run(c, address, step.1, k - 1)
  }

  /** Sending each byte of `s` in turn. */
  function SendsOf(s: seq<bv8>): (acts: seq<BusAction>)
    ensures |acts| == |s|
  {
    if s == [] then [] else [SendByte(s[0])] + SendsOf(s[1..])
  }

  /**
   * The transport header at the front of a reply frame, with the byte count
   * exact whenever the frame fits the transmit buffer.
   */
  lemma FrameTransportFields(c: Ctx, address: bv8, control: bool, p: seq<bv8>)
    requires |FrameOf(c, address, control, p).Bytes()| < SEND_BUF_SIZE
    ensures var b := FrameOf(c, address, control, p).Bytes();
      b[..9] == [WriteAddressByte(c.head.sourceSlaveAddr), 0x0f, (|b| - BYTE_COUNT_BASE) as bv8,
                 SourceAddressByte(address), HEADER_VERSION, c.head.srcEid, c.myEid,
                 ReplyFlagsByte(c.head.tag), if control then MESSAGE_TYPE_CONTROL else MESSAGE_TYPE_CXL_FMAPI]
  {
    var f := FrameOf(c, address, control, p);
    FrameHeadPrefix(c, address, control, p);
    assert f.Bytes()[..9] == f.head[..9];
    SmallMod(|p|);
    SmallMod(|f.Bytes()| - BYTE_COUNT_BASE);
  }

  /** A reply's header starts with its transport header. */
  lemma FrameHeadPrefix(c: Ctx, address: bv8, control: bool, p: seq<bv8>)
    ensures FrameOf(c, address, control, p).head[..9]
         == ReplyTransportHead(c, address, if control then CONTROL_HEAD_SIZE else FMAPI_HEAD_SIZE,
                               |p| % 256, if control then MESSAGE_TYPE_CONTROL else MESSAGE_TYPE_CXL_FMAPI)
  {
  }

  /** The flags byte of a reply: start and end of message, tag owner clear, the request's tag. */
  lemma ReplyFlags(tag: bv8)
    requires tag <= 7
    ensures ReplyFlagsByte(tag) & 0x07 == tag
    ensures ReplyFlagsByte(tag) & 0xf8 == 0xc0
  {
  }

  lemma SmallMod(x: nat)
    requires x < 256
    ensures x % 256 == x
  {
  }

  /**
   * Every reply goes back to the requester: to its slave address and EID,
   * from this device's address and EID, as a single-packet message (start and
   * end of message set, tag owner clear) carrying the request's tag and
   * message type (`ReplyFlags` reads the tag back from the flags byte); its
   * byte count is exactly the number of bytes after it, up to the PEC.
   */
  lemma ReplyTransportFields(c: Ctx, address: bv8)
    requires c.Valid() && Answered(c)
    ensures var b := ReplyFrame(c, address).value.Bytes();
      b[..9] == [WriteAddressByte(c.head.sourceSlaveAddr), 0x0f, (|b| - BYTE_COUNT_BASE) as bv8,
                 SourceAddressByte(address), HEADER_VERSION, c.head.srcEid, c.myEid,
                 ReplyFlagsByte(c.head.tag), c.head.messageType]
  {
    var f := ReplyFrame(c, address).value;
    FrameTransportFields(c, address, f.control, f.payload);
  }

  /** A control reply echoes the request's instance ID and command code and reports success. */
  lemma ControlReplyFields(c: Ctx, address: bv8)
    requires c.Valid() && Answered(c) && c.head.messageType == MESSAGE_TYPE_CONTROL
    ensures var f := ReplyFrame(c, address).value;
      && f.control
      && f.Bytes()[9] == c.control.instanceId
      && f.Bytes()[10] == c.control.commandCode
      && |f.payload| > 0 && f.payload[0] == 0
  {
    var f := ReplyFrame(c, address).value;
    assert f.Bytes()[..CONTROL_HEAD_SIZE] == f.head;
  }

  /**
   * An FM-API reply is a response carrying the request's tag, command and
   * command set, the exact payload length, return code success and the
   * vendor-specific word 0xbeef.
   */
  lemma FmapiReplyFields(c: Ctx, address: bv8)
    requires c.Valid() && Answered(c) && c.head.messageType == MESSAGE_TYPE_CXL_FMAPI
    ensures var f := ReplyFrame(c, address).value; var b := f.Bytes();
      && !f.control
      && b[9] == CATEGORY_RESPONSE
      && b[10] == c.fmapi.tag
      && b[12] == c.fmapi.command
      && b[13] == c.fmapi.commandSet
      && |f.payload| < 256 && b[14] == |f.payload| as bv8 && b[15] == 0 && b[16] == 0
      && FromLe16(b[17], b[18]) == 0
      && FromLe16(b[19], b[20]) == VENDOR_SPECIFIC
  {
    var f := ReplyFrame(c, address).value;
    var b := f.Bytes();
    SmallMod(|f.payload|);
    FmapiHeadFields(c, address, |f.payload|);
    forall i | 0 <= i < FMAPI_HEAD_SIZE
      ensures b[i] == f.head[i]
    {
    }
  }

  /** The CCI message header of an FM-API reply carrying `plSize` payload bytes. */
  lemma FmapiHeadFields(c: Ctx, address: bv8, plSize: nat)
    requires plSize < 256
    ensures var h := FmapiReplyHead(c, address, plSize);
      && h[9] == CATEGORY_RESPONSE
      && h[10] == c.fmapi.tag
      && h[12] == c.fmapi.command
      && h[13] == c.fmapi.commandSet
      && h[14] == plSize as bv8 && h[15] == 0 && h[16] == 0
      && FromLe16(h[17], h[18]) == 0
      && FromLe16(h[19], h[20]) == VENDOR_SPECIFIC
  {
    Le16RoundTrip(0);
    Le16RoundTrip(VENDOR_SPECIFIC);
  }

  /** Identify Switch Device reports the fixed switch identity: ten physical ports, two VCSs. */
  lemma IdentifyReplyContents(c: Ctx, address: bv8)
    requires c.Valid() && c.head.messageType == MESSAGE_TYPE_CXL_FMAPI
    requires c.fmapi.commandSet == CMD_SET_PHYSICAL_SWITCH && c.fmapi.command == IdentifySwitch.Opcode()
    ensures ReplyFrame(c, address).Some?
    ensures DecodeIdentifySwitchResp(ReplyFrame(c, address).value.payload) == SwitchIdentity()
    ensures SwitchIdentity().numPhysicalPorts as nat == NUM_PORTS
  {
    IdentifySwitchRespRoundTrip(SwitchIdentity());
  }

  /**
   * Get Physical Port State reports one block per stored port ID, in request
   * order, as many as were declared but never more than the store holds; the
   * blocks read back from the payload are exactly those.
   */
  lemma PortStatePayloadContents(f: FmapiCtx)
    requires f.Valid()
    ensures var n := ReportedPorts(f); var b := EncodePortStateResp(PortStateResponse(f));
      && |b| == PORT_STATE_RESP_HEAD_SIZE + PORT_INFO_BLOCK_SIZE * n
      && var resp := DecodePortStateResp(b, n);
      && resp.numPorts as nat == n
      && |resp.ports| == n
      && forall i :: 0 <= i < n ==> resp.ports[i] == PortBlock(f.portsReq[i])
  {
    var resp := PortStateResponse(f);
    PortStateRespSize(resp);
    PortStateRespRoundTrip(resp);
  }

  /** Ports 0 and 1 report as upstream ports, every other port as a downstream port with a type 3 device. */
  lemma PortBlockRole(id: bv8)
    ensures PortBlock(id).portId == id
    ensures PortBlock(id).configState == 4 <==> id < 2
    ensures PortBlock(id).connectedDeviceType == 4 <==> id >= 2
  {
  }

  /** A Set Endpoint ID request followed by Get Endpoint ID gets the endpoint ID just set back. */
  lemma GetEidReportsSetEid(c: Ctx, setReq: seq<bv8>, getReq: seq<bv8>, address: bv8)
    requires c.Valid()
    requires IsControl(setReq) && |setReq| > SET_EID_VALUE_POS && setReq[9] == SET_ENDPOINT_ID
    requires IsControl(getReq) && |getReq| > 9 && getReq[9] == GET_ENDPOINT_ID
    ensures var c' := IngestFrom(IngestFrom(c, 0, setReq), 0, getReq);
      ReplyFrame(c', address).Some? && ReplyFrame(c', address).value.payload == EidGetPayload(setReq[SET_EID_VALUE_POS])
  {
    var c1 := IngestFrom(c, 0, setReq);
    SetEndpointIdTakesEffect(c, setReq);
    EidOnlyChangedBySetEid(c1, getReq);
    IngestMatchesParse(c1, getReq);
  }

  /**
   * A Get Physical Port State request that lists its `n <= NUM_PORTS` ports
   * in full gets back exactly those ports, in order.
   */
  lemma PortStateRoundTrip(c: Ctx, r: seq<bv8>, address: bv8)
    requires c.Valid() && IsPortStateRequest(r)
    requires r[PORT_COUNT_POS] as nat <= NUM_PORTS && |r| >= PORT_LIST_START + r[PORT_COUNT_POS] as nat
    ensures var c' := IngestFrom(c, 0, r); var n := r[PORT_COUNT_POS] as nat;
      && ReplyFrame(c', address).Some?
      && !ReplyFrame(c', address).value.control
      && |ReplyFrame(c', address).value.payload| == PORT_STATE_RESP_HEAD_SIZE + PORT_INFO_BLOCK_SIZE * n
      && var resp := DecodePortStateResp(ReplyFrame(c', address).value.payload, n);
      && |resp.ports| == n
      && forall i :: 0 <= i < n ==> resp.ports[i].portId == r[PORT_LIST_START + i]
  {
    var c' := IngestFrom(c, 0, r);
    PortListCapture(c, r);
    HeaderCapture(c, r);
    PortStateReplyPayload(c', address);
    PortStatePayloadContents(c'.fmapi);
  }

  /** The reply to a Get Physical Port State request is the encoded port state response. */
  lemma PortStateReplyPayload(c: Ctx, address: bv8)
    requires c.Valid() && c.head.messageType == MESSAGE_TYPE_CXL_FMAPI
    requires c.fmapi.commandSet == CMD_SET_PHYSICAL_SWITCH && c.fmapi.command == GetPhysicalPortState.Opcode()
    ensures ReplyFrame(c, address).Some? && !ReplyFrame(c, address).value.control
    ensures ReplyFrame(c, address).value.payload == EncodePortStateResp(PortStateResponse(c.fmapi))
  {
  }

  lemma {:induction false} SendsOfCons(s: seq<bv8>)
    requires s != []
    ensures SendsOf(s) == [SendByte(s[0])] + SendsOf(s[1..])
  {
  }

  /** The bus actions of `k` successive transmit callbacks for frame `f`. */
  function EmitRun(f: Frame, r: Responder, k: nat): (acts: seq<BusAction>)
    requires r.Valid() && |f.Bytes()| < SEND_BUF_SIZE
    ensures |acts| == k
    decreases k
  {
    if k == 0 then []
    else
      var step := Emit(f, r);
      [step.0] + EmitRun(f, step.1, k - 1)
  }

  /** While acknowledging, each bottom-half call is one transmit callback of the reply frame. */
  lemma {:induction false} RunIsEmitRun(c: Ctx, address: bv8, f: Frame, r: Responder, k: nat)
    requires c.Valid() && ReplyFrame(c, address) == Some(f) && r.Valid() && r.state == Ack
    ensures Run(c, address, r, k) == EmitRun(f, r, k)
    decreases k
  {
    if k > 0 {
      RunIsEmitRun(c, address, f, Emit(f, r).1, k - 1);
    }
  }

  /**
   * Once the buffer holds the frame's bytes sent so far, the emitter sends
   * the rest of the frame byte by byte, then the PEC of the whole frame, then
   * ends the transfer.
   */
  lemma {:induction false} EmitTranscript(f: Frame, r: Responder)
    requires |f.Bytes()| < SEND_BUF_SIZE
    requires r.Valid() && r.len <= |f.Bytes()| && r.buf[..r.len] == f.Bytes()[..r.len]
    ensures EmitRun(f, r, |f.Bytes()| - r.len + 2)
         == SendsOf(f.Bytes()[r.len..]) + [SendByte(Pec(0, f.Bytes())), EndAndRelease]
    decreases |f.Bytes()| - r.len
  {
    var b := f.Bytes();
    if r.len == |b| {
      EmitPecThenEnd(f, r);
      assert b[r.len..] == [];
    } else {
      var k := |b| - r.len + 1;
      var next := EmitFrameByte(f, r, k);
      EmitTranscript(f, next);
      SendsOfCons(b[r.len..]);
      assert b[r.len..][1..] == b[r.len + 1..];
    }
  }

  /** With the whole frame sent, the emitter sends the PEC over the buffer, which is the frame's PEC, then ends. */
  lemma EmitPecThenEnd(f: Frame, r: Responder)
    requires |f.Bytes()| < SEND_BUF_SIZE
    requires r.Valid() && r.len == |f.Bytes()| && r.buf[..r.len] == f.Bytes()
    ensures EmitRun(f, r, 2) == [SendByte(Pec(0, f.Bytes())), EndAndRelease]
  {
    var step := Emit(f, r);
    assert step.0 == SendByte(Pec(0, f.Bytes()));
    assert EmitRun(f, step.1, 1) == [EndAndRelease];
  }

  /**
   * Before the frame is complete the emitter sends the next frame byte and
   * records it in the buffer.
   */
  lemma EmitFrameByte(f: Frame, r: Responder, k: nat) returns (next: Responder)
    requires |f.Bytes()| < SEND_BUF_SIZE
    requires r.Valid() && r.len < |f.Bytes()| && r.buf[..r.len] == f.Bytes()[..r.len]
    ensures next.Valid() && next.len == r.len + 1 && next.buf[..next.len] == f.Bytes()[..next.len]
    ensures EmitRun(f, r, k + 1) == [SendByte(f.Bytes()[r.len])] + EmitRun(f, next, k)
  {
    var b := f.Bytes();
    next := Emit(f, r).1;
    assert b[r.len] == if r.len < |f.head| then f.head[r.len] else f.payload[r.len - |f.head|];
    assert next.buf[..r.len + 1] == b[..r.len + 1];
  }

  /**
   * The whole reply to an answered request, from the bottom half's first call
   * after the request ends: a transfer to the requester, every frame byte after
   * the address byte, the PEC over the frame, the end of the transfer. The PEC
   * is the one a receiver checks by getting zero over frame and PEC.
   */
  lemma ReplyTranscript(c: Ctx, address: bv8, f: Frame, buf: seq<bv8>)
    requires c.Valid() && ReplyFrame(c, address) == Some(f) && |buf| == SEND_BUF_SIZE
    ensures var b := f.Bytes();
      && Run(c, address, Responder(ProcessRequest, 0, buf), |b| + 2)
         == [StartSendTo(c.head.sourceSlaveAddr)] + SendsOf(b[1..]) + [SendByte(Pec(0, b)), EndAndRelease]
      && Pec(0, b + [Pec(0, b)]) == 0
  {
    var b := f.Bytes();
    RunFirstStep(c, address, buf, |b| + 1);
    ReplyAddressByte(c, address, f);
    RunIsEmitRun(c, address, f, Responder(Ack, 1, buf[0 := b[0]]), |b| + 1);
    FrameTranscript(f, buf);
    PecResidueIsZero(0, b);
  }

  /** A reply frame fits the buffer and starts with the requester's address byte. */
  lemma ReplyAddressByte(c: Ctx, address: bv8, f: Frame)
    requires c.Valid() && ReplyFrame(c, address) == Some(f)
    ensures |f.Bytes()| < SEND_BUF_SIZE && |f.Bytes()| > 9
    ensures f.Bytes()[0] == WriteAddressByte(c.head.sourceSlaveAddr)
  {
    ReplyTransportFields(c, address);
    assert f.Bytes()[0] == f.Bytes()[..9][0];
  }

  /**
   * Once the address byte of frame `f` is in the buffer, the emitter sends the
   * rest of the frame, its PEC, and ends the transfer.
   */
  lemma FrameTranscript(f: Frame, buf: seq<bv8>)
    requires |f.Bytes()| < SEND_BUF_SIZE && |buf| == SEND_BUF_SIZE && |f.Bytes()| > 0
    ensures var b := f.Bytes();
      EmitRun(f, Responder(Ack, 1, buf[0 := b[0]]), |b| + 1)
      == SendsOf(b[1..]) + [SendByte(Pec(0, b)), EndAndRelease]
  {
    var b := f.Bytes();
    var r1 := Responder(Ack, 1, buf[0 := b[0]]);
    assert r1.buf[..1] == b[..1];
    EmitTranscript(f, r1);
  }

  /** The bottom half's first call after a request starts the transfer back and records its address byte. */
  lemma RunFirstStep(c: Ctx, address: bv8, buf: seq<bv8>, k: nat)
    requires c.Valid() && |buf| == SEND_BUF_SIZE
    ensures Run(c, address, Responder(ProcessRequest, 0, buf), k + 1)
         == [StartSendTo(c.head.sourceSlaveAddr)]
            + Run(c, address, Responder(Ack, 1, buf[0 := WriteAddressByte(c.head.sourceSlaveAddr)]), k)
  {
  }

  /**
   * A request the device does not answer gets nothing once the transfer has
   * started: every later callback is silent and the bus is never released.
   */
  lemma {:induction false} UnansweredStaysSilent(c: Ctx, address: bv8, r: Responder, k: nat)
    requires c.Valid() && !Answered(c) && r.Valid() && r.state == Ack
    ensures forall i :: 0 <= i < k ==> Run(c, address, r, k)[i] == Silent
    decreases k
  {
    if k > 0 {
      UnansweredStaysSilent(c, address, r, k - 1);
      assert BhStep(c, address, r) == (Silent, r);
    }
  }

  /**
   * The whole bus activity for a request the device does not answer: the
   * first callback starts a send back to the requester, as for any request,
   * and every later one is silent, so the bus is never released.
   */
  lemma UnansweredRun(c: Ctx, address: bv8, buf: seq<bv8>, k: nat)
    requires c.Valid() && !Answered(c) && |buf| == SEND_BUF_SIZE
    ensures Run(c, address, Responder(ProcessRequest, 0, buf), k + 1)
         == [StartSendTo(c.head.sourceSlaveAddr)] + seq(k, _ => Silent)
    ensures EndAndRelease !in Run(c, address, Responder(ProcessRequest, 0, buf), k + 1)
  {
    RunFirstStep(c, address, buf, k);
    var r := Responder(Ack, 1, buf[0 := WriteAddressByte(c.head.sourceSlaveAddr)]);
    UnansweredStaysSilent(c, address, r, k);
    assert Run(c, address, r, k) == seq(k, _ => Silent);
  }
}
