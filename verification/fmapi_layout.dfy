/**
 * CXL Fabric-Manager API wire layouts for the Physical Switch command set
 * (CXL 2.0 section 7.6.7.1, Tables 89 to 92): opcodes and the packed
 * payload structures, with encoders that lay each field at its byte offset
 * and decoders that read them back. Multi-byte fields are little-endian, as
 * the FM-API defines them; the device fills its structures in host byte
 * order, so the layouts here are the bytes it sends on a little-endian host.
 */
module FmApi {

  import opened Wrappers

  /** Command-set opcodes. Only the Physical Switch set is answered by the switch. */
  const CMD_SET_PHYSICAL_SWITCH: bv8 := 0x51
  const CMD_SET_VIRTUAL_SWITCH: bv8 := 0x52
  const CMD_SET_MLD_PORT: bv8 := 0x53
  const CMD_SET_MLD_COMPONENT: bv8 := 0x54

  /** The commands of the Physical Switch set. */
  datatype PhysicalSwitchCommand =
    | IdentifySwitch
    | GetPhysicalPortState
    | PhysicalPortControl
    | SendPpbCxlIoConfigReq
  {
    function Opcode(): (op: bv8)
      ensures op <= 0x03
    {
      match this
      case IdentifySwitch => 0x00
      case GetPhysicalPortState => 0x01
      case PhysicalPortControl => 0x02
      case SendPpbCxlIoConfigReq => 0x03
    }
  }

  function PhysicalSwitchCommandOf(op: bv8): (c: Option<PhysicalSwitchCommand>)
    ensures c.Some? <==> op <= 0x03
    ensures c.Some? ==> c.value.Opcode() == op
  {
    if op == 0x00 then Some(IdentifySwitch)
    else if op == 0x01 then Some(GetPhysicalPortState)
    else if op == 0x02 then Some(PhysicalPortControl)
    else if op == 0x03 then Some(SendPpbCxlIoConfigReq)
    else None
  }

  /** Opcodes name the commands one to one. */
  lemma OpcodeRoundTrip(c: PhysicalSwitchCommand)
    ensures PhysicalSwitchCommandOf(c.Opcode()) == Some(c)
  {
  }

  /** A 16-bit field in little-endian byte order, least significant byte first. */
  function Le16(v: bv16): (r: seq<bv8>)
    ensures |r| == 2
  {
    [(v & 0xff) as bv8, (v >> 8) as bv8]
  }

  function FromLe16(lo: bv8, hi: bv8): bv16 {
    (lo as bv16) | ((hi as bv16) << 8)
  }

  lemma Le16RoundTrip(v: bv16)
    ensures FromLe16(Le16(v)[0], Le16(v)[1]) == v
  {
  }

  /* ---------------- Identify Switch Device response (Table 89) ---------------- */

  const BITMASK_LEN := 32
  const IDENTIFY_SWITCH_RESP_SIZE := 72

  datatype IdentifySwitchResp = IdentifySwitchResp(
    ingressPortId: bv8,
    numPhysicalPorts: bv8,
    numVcs: bv8,
    activePortBitmask: seq<bv8>,
    activeVcsBitmask: seq<bv8>,
    numTotalVppb: bv16,
    numActiveVppb: bv16)
  {
    /** The two bitmasks are fixed arrays of 32 bytes. */
    predicate WellFormed() {
      |activePortBitmask| == BITMASK_LEN && |activeVcsBitmask| == BITMASK_LEN
    }
  }

  /** Bytes 0..3 are single-byte fields (byte 1 reserved), 4..35 and 36..67 the bitmasks, then two 16-bit counts. */
  function EncodeIdentifySwitchResp(r: IdentifySwitchResp): (b: seq<bv8>)
    requires r.WellFormed()
    ensures |b| == IDENTIFY_SWITCH_RESP_SIZE
    ensures b[0] == r.ingressPortId && b[1] == 0 && b[2] == r.numPhysicalPorts && b[3] == r.numVcs
    ensures b[4..36] == r.activePortBitmask && b[36..68] == r.activeVcsBitmask
    ensures b[68..70] == Le16(r.numTotalVppb) && b[70..72] == Le16(r.numActiveVppb)
  {
    var front := [r.ingressPortId, 0, r.numPhysicalPorts, r.numVcs]
                 + r.activePortBitmask + r.activeVcsBitmask + Le16(r.numTotalVppb);
    var b := front + Le16(r.numActiveVppb);
    assert b[70..72] == Le16(r.numActiveVppb);
    b
  }

  function DecodeIdentifySwitchResp(b: seq<bv8>): (r: IdentifySwitchResp)
    requires |b| == IDENTIFY_SWITCH_RESP_SIZE
    ensures r.WellFormed()
  {
    IdentifySwitchResp(b[0], b[2], b[3], b[4..36], b[36..68],
                       FromLe16(b[68], b[69]), FromLe16(b[70], b[71]))
  }

  lemma IdentifySwitchRespRoundTrip(r: IdentifySwitchResp)
    requires r.WellFormed()
    ensures DecodeIdentifySwitchResp(EncodeIdentifySwitchResp(r)) == r
  {
    var b := EncodeIdentifySwitchResp(r);
    Le16RoundTrip(r.numTotalVppb);
    Le16RoundTrip(r.numActiveVppb);
    assert b[68] == Le16(r.numTotalVppb)[0] && b[69] == Le16(r.numTotalVppb)[1];
    assert b[70] == Le16(r.numActiveVppb)[0] && b[71] == Le16(r.numActiveVppb)[1];
  }

  /* ---------------- Port information block (Table 92) ---------------- */

  const PORT_INFO_BLOCK_SIZE := 16

  datatype PortInfoBlock = PortInfoBlock(
    portId: bv8,
    configState: bv8,
    connectedDeviceCxlVersion: bv8,
    connectedDeviceType: bv8,
    portCxlVersionBitmask: bv8,
    maxLinkWidth: bv8,
    negotiatedLinkWidth: bv8,
    supportedLinkSpeedsVector: bv8,
    maxLinkSpeed: bv8,
    currentLinkSpeed: bv8,
    ltssmState: bv8,
    firstLaneNum: bv8,
    linkState: bv16,
    supportedLdCount: bv8)

  /** Thirteen single bytes (byte 3 reserved), `link_state` at bytes 13..14, `supported_ld_count` at 15. */
  function EncodePortInfoBlock(p: PortInfoBlock): (b: seq<bv8>)
    ensures |b| == PORT_INFO_BLOCK_SIZE
  {
    [p.portId, p.configState, p.connectedDeviceCxlVersion, 0, p.connectedDeviceType,
     p.portCxlVersionBitmask, p.maxLinkWidth, p.negotiatedLinkWidth,
     p.supportedLinkSpeedsVector, p.maxLinkSpeed, p.currentLinkSpeed, p.ltssmState,
     p.firstLaneNum] + Le16(p.linkState) + [p.supportedLdCount]
  }

  function DecodePortInfoBlock(b: seq<bv8>): PortInfoBlock
    requires |b| == PORT_INFO_BLOCK_SIZE
  {
    PortInfoBlock(b[0], b[1], b[2], b[4], b[5], b[6], b[7], b[8], b[9], b[10], b[11], b[12],
                  FromLe16(b[13], b[14]), b[15])
  }

  lemma PortInfoBlockRoundTrip(p: PortInfoBlock)
    ensures DecodePortInfoBlock(EncodePortInfoBlock(p)) == p
  {
    var b := EncodePortInfoBlock(p);
    Le16RoundTrip(p.linkState);
    assert b[13] == Le16(p.linkState)[0] && b[14] == Le16(p.linkState)[1];
  }

  /* ---------------- Get Physical Port State (Tables 90 and 91) ---------------- */

  /** Size of the response head: `num_ports` and three reserved bytes. */
  const PORT_STATE_RESP_HEAD_SIZE := 4

  /** The request: a one-byte declared count, then the requested port IDs. */
  datatype PortStateReq = PortStateReq(numPorts: bv8, ports: seq<bv8>)

  function EncodePortStateReq(q: PortStateReq): (b: seq<bv8>)
    ensures |b| == 1 + |q.ports|
    ensures b[0] == q.numPorts && b[1..] == q.ports
  {
    [q.numPorts] + q.ports
  }

  datatype PortStateResp = PortStateResp(numPorts: bv8, ports: seq<PortInfoBlock>)

  /** The blocks one after the other, each 16 bytes. */
  function EncodePortInfoBlocks(ps: seq<PortInfoBlock>): (b: seq<bv8>)
    decreases |ps|
  {
    if ps == [] then [] else EncodePortInfoBlock(ps[0]) + EncodePortInfoBlocks(ps[1..])
  }

  lemma {:induction false} EncodePortInfoBlocksSize(ps: seq<PortInfoBlock>)
    ensures |EncodePortInfoBlocks(ps)| == PORT_INFO_BLOCK_SIZE * |ps|
    decreases |ps|
  {
    if ps != [] {
      EncodePortInfoBlocksSize(ps[1..]);
    }
  }

  /** Block `i` occupies bytes 16*i .. 16*i+15 of the concatenation. */
  lemma {:induction false} EncodePortInfoBlocksAt(ps: seq<PortInfoBlock>, i: nat)
    requires i < |ps|
    ensures |EncodePortInfoBlocks(ps)| == PORT_INFO_BLOCK_SIZE * |ps|
    ensures EncodePortInfoBlocks(ps)[PORT_INFO_BLOCK_SIZE * i .. PORT_INFO_BLOCK_SIZE * i + PORT_INFO_BLOCK_SIZE]
            == EncodePortInfoBlock(ps[i])
    decreases |ps|
  {
    EncodePortInfoBlocksSize(ps);
    EncodePortInfoBlocksSize(ps[1..]);
    if i > 0 {
      EncodePortInfoBlocksAt(ps[1..], i - 1);
      SliceAfterPrefix(EncodePortInfoBlock(ps[0]), EncodePortInfoBlocks(ps[1..]),
                       PORT_INFO_BLOCK_SIZE * i, PORT_INFO_BLOCK_SIZE * i + PORT_INFO_BLOCK_SIZE);
    }
  }

  /** A slice lying past the prefix `a` of `a + b` is a slice of `b`. */
  lemma SliceAfterPrefix(a: seq<bv8>, b: seq<bv8>, lo: nat, hi: nat)
    requires |a| <= lo <= hi <= |a| + |b|
    ensures (a + b)[lo..hi] == b[lo - |a|..hi - |a|]
  {
  }

  /** The response: head of four bytes, then `num_ports` blocks of 16 bytes. */
  function EncodePortStateResp(r: PortStateResp): (b: seq<bv8>)
    ensures |b| >= PORT_STATE_RESP_HEAD_SIZE
    ensures b[..PORT_STATE_RESP_HEAD_SIZE] == [r.numPorts, 0, 0, 0]
    ensures b[PORT_STATE_RESP_HEAD_SIZE..] == EncodePortInfoBlocks(r.ports)
  {
    [r.numPorts, 0, 0, 0] + EncodePortInfoBlocks(r.ports)
  }

  lemma PortStateRespSize(r: PortStateResp)
    ensures |EncodePortStateResp(r)| == PORT_STATE_RESP_HEAD_SIZE + PORT_INFO_BLOCK_SIZE * |r.ports|
  {
    EncodePortInfoBlocksSize(r.ports);
  }

  function DecodePortInfoBlocks(b: seq<bv8>, n: nat): (ps: seq<PortInfoBlock>)
    requires |b| == PORT_INFO_BLOCK_SIZE * n
    ensures |ps| == n
    decreases n
  {
    if n == 0 then []
    else [DecodePortInfoBlock(b[..PORT_INFO_BLOCK_SIZE])]
         + DecodePortInfoBlocks(b[PORT_INFO_BLOCK_SIZE..], n - 1)
  }

  lemma {:induction false} PortInfoBlocksRoundTrip(ps: seq<PortInfoBlock>)
    ensures |EncodePortInfoBlocks(ps)| == PORT_INFO_BLOCK_SIZE * |ps|
    ensures DecodePortInfoBlocks(EncodePortInfoBlocks(ps), |ps|) == ps
    decreases |ps|
  {
    EncodePortInfoBlocksSize(ps);
    if ps != [] {
      var b := EncodePortInfoBlocks(ps);
      PortInfoBlocksRoundTrip(ps[1..]);
      PortInfoBlockRoundTrip(ps[0]);
      assert b[..PORT_INFO_BLOCK_SIZE] == EncodePortInfoBlock(ps[0]);
      assert b[PORT_INFO_BLOCK_SIZE..] == EncodePortInfoBlocks(ps[1..]);
      assert [ps[0]] + ps[1..] == ps;
    }
  }

  /** Reads a response of `n` blocks back from its bytes. */
  function DecodePortStateResp(b: seq<bv8>, n: nat): PortStateResp
    requires |b| == PORT_STATE_RESP_HEAD_SIZE + PORT_INFO_BLOCK_SIZE * n
  {
    PortStateResp(b[0], DecodePortInfoBlocks(b[PORT_STATE_RESP_HEAD_SIZE..], n))
  }

  lemma PortStateRespRoundTrip(r: PortStateResp)
    ensures |EncodePortStateResp(r)| == PORT_STATE_RESP_HEAD_SIZE + PORT_INFO_BLOCK_SIZE * |r.ports|
    ensures DecodePortStateResp(EncodePortStateResp(r), |r.ports|) == r
  {
    PortStateRespSize(r);
    PortInfoBlocksRoundTrip(r.ports);
  }
}
