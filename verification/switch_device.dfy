/**
 * The MCTP-over-I2C CXL switch as the device object the I2C bus drives:
 * the byte callback `Tx`, the read callback `Rx`, the bus event callback
 * `Event` and the bottom half `Bh`, each updating the device's fields in
 * place. Every method is proved against the pure step it implements
 * (`IngestByte`, `BhStep`, `Emit`), whose properties are proved in
 * `MctpIngest` and `MctpSwitch`.
 */
module SwitchDevice {

  import opened Wrappers
  import opened PacketErrorCode
  import opened FmApi
  import opened MctpIngest
  import opened MctpSwitch

  class Switch {
    /** This device's 7-bit I2C address. */
    const address: bv8

    /** Bytes handled in the current transfer, in either direction. */
    var len: nat

    var eidSet: bool
    var myEid: bv8

    // Transport header of the current request.
    var byteCount: bv8
    var sourceSlaveAddr: bv8
    var destEid: bv8
    var srcEid: bv8
    var tag: bv8
    var messageType: bv8

    /** Control message header of the current request. */
    var control: ControlCtx

    // FM-API message header and Get Physical Port State body of the current request.
    var fmTag: bv8
    var fmCommand: bv8
    var fmCommandSet: bv8
    var numPortsReq: bv8
    const portsReq: array<bv8>

    /** Bottom-half state and the bytes of the reply sent so far. */
    var state: ResponderState
    const sendBuf: array<bv8>

    ghost predicate Valid()
      reads this`tag
    {
      portsReq.Length == NUM_PORTS && sendBuf.Length == SEND_BUF_SIZE && portsReq != sendBuf && tag <= 7
    }

    function Head(): TransportHead
      reads this`byteCount, this`sourceSlaveAddr, this`destEid, this`srcEid, this`tag, this`messageType
    {
      TransportHead(byteCount, sourceSlaveAddr, destEid, srcEid, tag, messageType)
    }

    function Fmapi(): FmapiCtx
      reads this`fmTag, this`fmCommand, this`fmCommandSet, this`numPortsReq, portsReq
    {
      FmapiCtx(fmTag, fmCommand, fmCommandSet, numPortsReq, portsReq[..])
    }

    /** The request context the device holds. */
    function Context(): Ctx
      reads this`eidSet, this`myEid, this`control
      reads this`byteCount, this`sourceSlaveAddr, this`destEid, this`srcEid, this`tag, this`messageType
      reads this`fmTag, this`fmCommand, this`fmCommandSet, this`numPortsReq, portsReq
    {
      Ctx(eidSet, myEid, Head(), control, Fmapi())
    }

    /** The responder's state: bottom-half state, bytes handled, transmit buffer. */
    function Responding(): Responder
      reads this`state, this`len, sendBuf
    {
      Responder(state, len, sendBuf[..])
    }

    /** A freshly created device: every field zero. */
    constructor(address: bv8)
      ensures Valid() && this.address == address
      ensures Context() == InitialCtx()
      ensures Responding() == Responder(ProcessRequest, 0, seq(SEND_BUF_SIZE, _ => 0))
    {
      this.address := address;
      len := 0;
      eidSet := false;
      myEid := 0;
      byteCount, sourceSlaveAddr, destEid, srcEid, tag, messageType := 0, 0, 0, 0, 0, 0;
      control := ControlCtx(0, 0, 0, 0);
      fmTag, fmCommand, fmCommandSet, numPortsReq := 0, 0, 0, 0;
      portsReq := new bv8[NUM_PORTS](_ => 0);
      state := ProcessRequest;
      sendBuf := new bv8[SEND_BUF_SIZE](_ => 0);
    }

    /** `mctp_command_set_eid_parse`. */
    method SetEidParse(data: bv8)
      modifies this`eidSet, this`myEid
      ensures Context() == SetEidIngest(old(Context()), len, data)
    {
      if len == SET_EID_VALUE_POS {
        eidSet := true;
        myEid := data;
      }
    }

    /** `cxl_fmapi_cmd_set_physical_switch_parse`, with the port store bounded by its capacity. */
    method PhysicalSwitchParse(data: bv8)
      requires Valid()
      modifies this`numPortsReq, portsReq
      ensures Fmapi() == PhysicalSwitchIngest(old(Fmapi()), len, data)
    {
      if fmCommand == GetPhysicalPortState.Opcode() {
        if len == PORT_COUNT_POS {
          numPortsReq := data;
        } else if PORT_LIST_START <= len < PORT_LIST_START + numPortsReq as nat && len - PORT_LIST_START < NUM_PORTS {
          portsReq[len - PORT_LIST_START] := data;
        }
      }
    }

    /** `i2c_mctp_cxl_switch_tx`: take in byte `data` of a request at position `len`. */
    method Tx(data: bv8) returns (ret: int)
      requires Valid()
      modifies this`byteCount, this`sourceSlaveAddr, this`destEid, this`srcEid, this`tag, this`messageType
      modifies this`control, this`eidSet, this`myEid
      modifies this`fmTag, this`fmCommand, this`fmCommandSet, this`numPortsReq, portsReq
      modifies this`len
      ensures Valid()
      ensures Context() == IngestByte(old(Context()), old(len), data)
      ensures len == old(len) + 1
      ensures ret == 0
    {
      ghost var c0 := Context();
      TransportTx(data);
      ghost var c1 := Context();
      if len > 7 && messageType == MESSAGE_TYPE_CONTROL {
        ControlTx(data);
      }
      ghost var c2 := Context();
      assert c2 == if len > 7 && c1.head.messageType == MESSAGE_TYPE_CONTROL then ControlIngest(c1, len, data) else c1;
      if len > 7 && messageType == MESSAGE_TYPE_CXL_FMAPI {
        FmapiTx(data);
      }
      len := len + 1;
      ret := 0;
    }

    /** The transport header part of `i2c_mctp_cxl_switch_tx`. */
    method TransportTx(data: bv8)
      requires Valid()
      modifies this`byteCount, this`sourceSlaveAddr, this`destEid, this`srcEid, this`tag, this`messageType
      ensures Valid()
      ensures Context() == old(Context()).(head := TransportIngest(old(Head()), len, data))
    {
      if len == 1 {
        byteCount := data;
      } else if len == 2 {
        sourceSlaveAddr := SlaveAddress(data);
      } else if len == 4 {
        destEid := data;
      } else if len == 5 {
        srcEid := data;
      } else if len == 6 {
        tag := TagBits(data);
      } else if len == 7 {
        messageType := data;
      }
    }

    /** The control message part of `i2c_mctp_cxl_switch_tx`. */
    method ControlTx(data: bv8)
      requires Valid() && len > 7 && messageType == MESSAGE_TYPE_CONTROL
      modifies this`control, this`eidSet, this`myEid
      ensures Context() == ControlIngest(old(Context()), len, data)
    {
      control := ControlFieldsIngest(control, len, data);
      if len > 9 && control.commandCode == SET_ENDPOINT_ID {
        SetEidParse(data);
      }
    }

    /** The FM-API message part of `i2c_mctp_cxl_switch_tx`. */
    method FmapiTx(data: bv8)
      requires Valid() && len > 7 && messageType == MESSAGE_TYPE_CXL_FMAPI
      modifies this`fmTag, this`fmCommand, this`fmCommandSet, this`numPortsReq, portsReq
      ensures Context() == old(Context()).(fmapi := FmapiIngest(old(Fmapi()), len, data))
    {
      if len == 9 {
        fmTag := data;
      } else if len == 11 {
        fmCommand := data;
      } else if len == 12 {
        fmCommandSet := data;
      }
      if len > 19 && fmCommandSet == CMD_SET_PHYSICAL_SWITCH {
        PhysicalSwitchParse(data);
      }
    }

    /** `i2c_mctp_cxl_switch_rx`: the device has nothing to say to reads. */
    method Rx() returns (r: bv8)
      ensures r == 0
    {
      r := 0;
    }

    /**
     * `i2c_mctp_cxl_switch_event`: every start of a transfer and its end reset
     * the byte position; the end of a request also rearms the responder and
     * asks for the bus, so that the bottom half runs.
     */
    method Event(e: I2cEvent) returns (ret: int, masterRequested: bool)
      modifies this`len, this`state
      ensures ret == 0
      ensures masterRequested <==> e == I2cFinish
      ensures e != I2cNack ==> len == 0
      ensures e == I2cNack ==> len == old(len)
      ensures state == if e == I2cFinish then ProcessRequest else old(state)
    {
      ret, masterRequested := 0, false;
      match e
      case I2cStartRecv =>
        len := 0;
      case I2cStartSend =>
        len := 0;
      case I2cFinish =>
        len := 0;
        state := ProcessRequest;
        masterRequested := true;
      case I2cNack =>
    }

    /**
     * `mctp_cmd_send_reply`: one transmit callback of the control reply
     * carrying payload `p`.
     */
    method CmdSendReply(p: seq<bv8>) returns (act: BusAction)
      requires Valid() && CONTROL_HEAD_SIZE + |p| < SEND_BUF_SIZE
      modifies this`len, sendBuf
      ensures Valid()
      ensures (act, Responding()) == Emit(FrameOf(Context(), address, true, p), old(Responding()))
    {
      var headSize := CONTROL_HEAD_SIZE;
      var val: bv8;
      if len < headSize {
        val := ControlReplyHead(Context(), address, |p| % 256)[len];
      } else if len < headSize + |p| {
        val := p[len - headSize];
      } else if len == headSize + |p| {
        val := SmbusPec(0, sendBuf[..len]);
      } else if len == headSize + |p| + 1 {
        act := EndAndRelease;
        return;
      } else {
        val := 0;
      }
      act := SendByte(val);
      if len < sendBuf.Length {
        sendBuf[len] := val;
      }
      len := len + 1;
    }

    /** `cxl_fmapi_reply`: one transmit callback of the FM-API reply carrying payload `p`. */
    method FmapiReply(p: seq<bv8>) returns (act: BusAction)
      requires Valid() && FMAPI_HEAD_SIZE + |p| < SEND_BUF_SIZE
      modifies this`len, sendBuf
      ensures Valid()
      ensures (act, Responding()) == Emit(FrameOf(Context(), address, false, p), old(Responding()))
    {
      var headSize := FMAPI_HEAD_SIZE;
      var val: bv8;
      if len < headSize {
        val := FmapiReplyHead(Context(), address, |p| % 256)[len];
      } else if len < headSize + |p| {
        val := p[len - headSize];
      } else if len == headSize + |p| {
        val := SmbusPec(0, sendBuf[..len]);
      } else if len == headSize + |p| + 1 {
        act := EndAndRelease;
        return;
      } else {
        act := Silent;
        return;
      }
      act := SendByte(val);
      sendBuf[len] := val;
      len := len + 1;
    }

    /**
     * `cxl_physical_port_state_reply`: build the state block of each reported
     * port in turn, then send the response.
     */
    method PortStateReply() returns (act: BusAction)
      requires Valid() && fmCommand == GetPhysicalPortState.Opcode()
      modifies this`len, sendBuf
      ensures Valid()
      ensures (act, Responding()) == Emit(FrameOf(Context(), address, false, PhysicalSwitchPayload(Fmapi()).value), old(Responding()))
    {
      var pl := PortStatePayload();
      act := FmapiReply(pl);
    }

    /** The payload part of `cxl_physical_port_state_reply`: the blocks built one port at a time. */
    method PortStatePayload() returns (pl: seq<bv8>)
      requires Valid() && fmCommand == GetPhysicalPortState.Opcode()
      ensures pl == PhysicalSwitchPayload(Fmapi()).value
    {
      var n := ReportedPorts(Fmapi());
      var blocks: seq<PortInfoBlock> := [];
      var i := 0;
      while i < n
        invariant 0 <= i <= n
        invariant blocks == PortBlocks(portsReq[..], i)
      {
        blocks := blocks + [PortBlock(portsReq[i])];
        i := i + 1;
      }
      assert PortStateResp(n as bv8, blocks) == PortStateResponse(Fmapi());
      pl := EncodePortStateResp(PortStateResp(n as bv8, blocks));
    }

    /** `cxl_physical_switch_identify_reply`: the Identify Switch Device response. */
    method IdentifyReply() returns (act: BusAction)
      requires Valid() && fmCommand == IdentifySwitch.Opcode()
      modifies this`len, sendBuf
      ensures Valid()
      ensures (act, Responding()) == Emit(FrameOf(Context(), address, false, PhysicalSwitchPayload(Fmapi()).value), old(Responding()))
    {
      act := FmapiReply(EncodeIdentifySwitchResp(SwitchIdentity()));
    }

    /** `cxl_physical_switch_reply`: Identify Switch Device or Get Physical Port State. */
    method PhysicalSwitchReply() returns (act: BusAction)
      requires Valid()
      modifies this`len, sendBuf
      ensures Valid()
      ensures fmCommand <= GetPhysicalPortState.Opcode() ==>
        (act, Responding()) == Emit(FrameOf(old(Context()), address, false, PhysicalSwitchPayload(old(Fmapi())).value), old(Responding()))
      ensures fmCommand > GetPhysicalPortState.Opcode() ==> act == Silent && Responding() == old(Responding())
    {
      if fmCommand == IdentifySwitch.Opcode() {
        act := IdentifyReply();
      } else if fmCommand == GetPhysicalPortState.Opcode() {
        act := PortStateReply();
      } else {
        act := Silent;
      }
    }

    /**
     * `mctp_bh`: start the reply transfer, then on each later call emit the
     * next byte of the reply to the request held.
     */
    method Bh() returns (act: BusAction)
      requires Valid()
      modifies this`len, this`state, sendBuf
      ensures Valid()
      ensures (act, Responding()) == BhStep(old(Context()), address, old(Responding()))
    {
      if state == Ack {
        act := Reply();
      } else {
        act := StartReply();
      }
    }

    /**
     * The request-processing and start-send states of `mctp_bh`: start the
     * transfer to the requester and record its address byte as the first byte sent.
     */
    method StartReply() returns (act: BusAction)
      requires Valid() && state != Ack
      modifies this`len, this`state, sendBuf
      ensures Valid()
      ensures (act, Responding()) == BhStep(old(Context()), address, old(Responding()))
    {
      state := StartSend;
      act := StartSendTo(sourceSlaveAddr);
      if len < sendBuf.Length {
        sendBuf[len] := WriteAddressByte(sourceSlaveAddr);
      }
      len := len + 1;
      state := Ack;
    }

    /** The acknowledge state of `mctp_bh`: one transmit callback of the reply to the request held, if any. */
    method Reply() returns (act: BusAction)
      requires Valid() && state == Ack
      modifies this`len, sendBuf
      ensures Valid()
      ensures (act, Responding()) == BhStep(old(Context()), address, old(Responding()))
    {
      if messageType == MESSAGE_TYPE_CONTROL {
        act := ControlReply();
      } else if messageType == MESSAGE_TYPE_CXL_FMAPI && fmCommandSet == CMD_SET_PHYSICAL_SWITCH {
        ghost var c, r := Context(), Responding();
        PhysicalSwitchAckStep(c, address, r);
        act := PhysicalSwitchReply();
      } else {
        AckStep(Context(), address, Responding());
        act := Silent;
      }
    }

    /** The control message replies of `mctp_bh`, one per supported command code. */
    method ControlReply() returns (act: BusAction)
      requires Valid() && state == Ack && messageType == MESSAGE_TYPE_CONTROL
      modifies this`len, sendBuf
      ensures Valid()
      ensures (act, Responding()) == BhStep(old(Context()), address, old(Responding()))
    {
      AckStep(Context(), address, Responding());
      match ControlPayload(Context())
      case Some(p) =>
        act := CmdSendReply(p);
      case None =>
        act := Silent;
    }
  }
}
