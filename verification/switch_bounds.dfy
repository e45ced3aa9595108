/**
 * Capacity defects of the switch endpoint as its source declares it, each
 * next to the input that exposes it. The rest of the model uses the
 * corrected definitions (`MctpIngest.PortStoreIndex`, `MctpSwitch.ReportedPorts`,
 * `MctpSwitch.SEND_BUF_SIZE`), whose properties are proved where they are defined.
 */
module SwitchBounds {

  import opened Wrappers
  import opened FmApi
  import opened MctpIngest
  import opened MctpSwitch

  /** The transmit buffer as the device state declares it. */
  const DECLARED_SEND_BUF_SIZE := 128

  /**
   * The port-list store guard of `cxl_fmapi_cmd_set_physical_switch_parse`
   * as written: any byte within the declared count is stored at its position
   * in the list, whatever the capacity of the store.
   */
  function PortStoreIndexAsWritten(len: nat, declared: nat): (r: Option<nat>)
    ensures r.Some? <==> PORT_LIST_START <= len < PORT_LIST_START + declared
    ensures r.Some? ==> PORT_LIST_START + r.value == len
  {
    if PORT_LIST_START <= len < PORT_LIST_START + declared then Some(len - PORT_LIST_START) else None
  }

  /**
   * The guard as written stores past the ten-entry port store exactly for the
   * list bytes beyond the tenth of a request declaring more than ten ports;
   * the first such byte is byte 31 of a request declaring eleven.
   */
  lemma PortStoreOverrunAsWritten(len: nat, declared: nat)
    ensures (PortStoreIndexAsWritten(len, declared).Some? && PortStoreIndexAsWritten(len, declared).value >= NUM_PORTS)
        <==> (declared > NUM_PORTS && PORT_LIST_START + NUM_PORTS <= len < PORT_LIST_START + declared)
    ensures PortStoreIndexAsWritten(31, 11) == Some(10)
  {
  }

  /**
   * The corrected guard stores exactly what the guard as written stores,
   * except the bytes the guard as written would put out of bounds, which it
   * drops.
   */
  lemma {:induction false} PortStoreIndexCorrects(len: nat, declared: nat)
    ensures PortStoreIndex(len, declared) ==
      match PortStoreIndexAsWritten(len, declared)
      case Some(i) => if i < NUM_PORTS then Some(i) else None
      case None => None
    ensures declared <= NUM_PORTS ==> PortStoreIndex(len, declared) == PortStoreIndexAsWritten(len, declared)
  {
  }

  /**
   * The response `cxl_physical_port_state_reply` builds as written: it
   * reports the declared count and takes port `i`'s ID from index `i` of
   * the port store, read on into the memory that follows it, `beyond`.
   */
  function PortStateResponseAsWritten(f: FmapiCtx, beyond: seq<bv8>): (r: PortStateResp)
    requires f.Valid() && f.numPortsReq as nat <= NUM_PORTS + |beyond|
    ensures r.numPorts == f.numPortsReq && |r.ports| == f.numPortsReq as nat
  {
    PortStateResp(f.numPortsReq, PortBlocks(f.portsReq + beyond, f.numPortsReq as nat))
  }

  /**
   * Up to ten declared ports the response as written is the corrected one.
   * Beyond ten it reads past the port store: it reports more ports than the
   * store holds, and the eleventh block describes whatever byte follows the
   * store rather than a requested port.
   */
  lemma PortReadOverrunAsWritten(f: FmapiCtx, beyond: seq<bv8>)
    requires f.Valid() && f.numPortsReq as nat <= NUM_PORTS + |beyond|
    ensures |PortStateResponseAsWritten(f, beyond).ports| > |f.portsReq| <==> f.numPortsReq as nat > NUM_PORTS
    ensures f.numPortsReq as nat <= NUM_PORTS ==> PortStateResponseAsWritten(f, beyond) == PortStateResponse(f)
    ensures f.numPortsReq as nat > NUM_PORTS ==>
      && PortStateResponseAsWritten(f, beyond).ports[NUM_PORTS] == PortBlock(beyond[0])
      && PortStateResponseAsWritten(f, beyond).numPorts as nat != ReportedPorts(f)
  {
    var n := f.numPortsReq as nat;
    if n <= NUM_PORTS {
      assert PortBlocks(f.portsReq + beyond, n) == PortBlocks(f.portsReq, n);
    } else {
      assert (f.portsReq + beyond)[NUM_PORTS] == beyond[0];
    }
  }

  /** Length on the bus of a Get Physical Port State reply for `n` ports, PEC included. */
  function PortStateReplyLength(n: nat): nat {
    FMAPI_HEAD_SIZE + PORT_STATE_RESP_HEAD_SIZE + PORT_INFO_BLOCK_SIZE * n + 1
  }

  /**
   * Every Get Physical Port State reply is written into the transmit buffer
   * one byte per callback, PEC included; with the buffer as declared, the
   * reply for seven or more ports runs past its end, though the ten-port
   * store itself is not exceeded.
   */
  lemma PortStateReplyOverrunsDeclaredBuffer(c: Ctx, address: bv8)
    requires c.Valid() && c.head.messageType == MESSAGE_TYPE_CXL_FMAPI
    requires c.fmapi.commandSet == CMD_SET_PHYSICAL_SWITCH && c.fmapi.command == GetPhysicalPortState.Opcode()
    ensures ReplyFrame(c, address).Some?
    ensures |ReplyFrame(c, address).value.Bytes()| + 1 == PortStateReplyLength(ReportedPorts(c.fmapi))
    ensures PortStateReplyLength(ReportedPorts(c.fmapi)) > DECLARED_SEND_BUF_SIZE <==> ReportedPorts(c.fmapi) >= 7
  {
  }

  /** The corrected transmit buffer holds the longest reply with its PEC, and the declared one does not. */
  lemma SendBufferFitsLongestReply()
    ensures PortStateReplyLength(NUM_PORTS) == SEND_BUF_SIZE
    ensures PortStateReplyLength(NUM_PORTS) > DECLARED_SEND_BUF_SIZE
  {
  }

  /**
   * `mctp_fmapi_set_reply` takes the payload length as a byte. A port state
   * payload for sixteen ports is 260 bytes long, and its FM-API header
   * announces 4: the payload length field and the byte count are both
   * truncated, while the emitter sends all 260 bytes.
   */
  lemma PayloadLengthTruncatedAsWritten(c: Ctx, address: bv8, p: seq<bv8>)
    requires |p| == PORT_STATE_RESP_HEAD_SIZE + PORT_INFO_BLOCK_SIZE * 16
    ensures var f := FrameOf(c, address, false, p);
      && |p| == 260 && |f.Bytes()| == 281
      && f.head[14] == 4 && f.head[15] == 0 && f.head[16] == 0
      && f.head[2] == 22
  {
    FmapiHeadFields(c, address, 4);
    TruncatedByteCount(c, address, p);
  }

  /** The byte count of an FM-API reply whose payload length truncates to 4: 18 + 4. */
  lemma TruncatedByteCount(c: Ctx, address: bv8, p: seq<bv8>)
    requires |p| % 256 == 4
    ensures FrameOf(c, address, false, p).head[2] == 22
  {
    FrameHeadPrefix(c, address, false, p);
    assert ((FMAPI_HEAD_SIZE - BYTE_COUNT_BASE + 4) % 256) as bv8 == 22;
  }
}
