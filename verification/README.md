# CXL switch endpoint over MCTP/I2C and CXL type 3 memory device

This project is a Dafny model of two emulated CXL devices, with proofs about them.

**The switch endpoint.** This is an I2C slave that speaks MCTP (DMTF DSP0236) over SMBus/I2C (DSP0237). It answers a CXL Fabric Manager API (FM-API) agent.
- It takes a request one byte per bus callback (`Tx`). Each byte goes into a request context, by its position in the packet.
- When the bus finishes, a bottom half (`Bh`) first takes the bus as master. It then sends the reply one byte per callback, with the SMBus packet error code (PEC) after it, and releases the bus.
- Replies are defined for six MCTP control commands and for the two FM-API Physical Switch commands it implements: Identify Switch Device and Get Physical Port State.

**The type 3 memory device.** The model covers:
- the host-to-device address decode of HDM decoder 0, and the guards on reads and writes through that window;
- component register writes: write-1-to-clear RAS status, and committing the decoder;
- label storage area (LSA) reads and writes;
- the CDAT table the device builds;
- the DOE Table Access read-entry response that serves the table;
- poison injection.

Modules:

| module | content |
|---|---|
| `Wrappers` | `Option` |
| `PacketErrorCode` | the CRC-8 of the SMBus PEC: a specification function `Pec` and the source's two loops, proved against it |
| `FmApi` | FM-API opcodes and the packed payload layouts: the responses with encode, decode and a round trip, the request with its encoding, tied to the parse in `MctpIngest` |
| `MctpIngest` | the request context and what one received byte does to it (`IngestByte`), related to a declarative `Parse` of a whole request |
| `MctpSwitch` | reply frames (`ReplyFrame`), the per-callback reply emitter (`Emit`), the bottom-half step (`BhStep`) and whole transcripts (`Run`) |
| `SwitchDevice` | the device as a class with the source's fields, whose methods are proved against the functions above |
| `SwitchBounds` | capacity defects of the switch as written, next to the corrected definitions |
| `CxlRegisters` | little-endian register words, the HDM decoder fields, commit and write-1-to-clear, and the interleave decode |
| `CxlCdat` | the CDAT table, the read-entry response header, and the walk over the table by entry handle |
| `CxlType3` | the type 3 device as a class: register writes, LSA, CDAT responses, poison, the memory window |

## Model

| member | source | states |
|---|---|---|
| PacketErrorCode.Crc8 | hw/misc/i2c_mctp_cxl_fmapi.c:342-353 | for a data word whose low byte is zero, the eight shift-and-xor rounds with polynomial 0x107 yield the CRC-8 of the high byte |
| PacketErrorCode.SmbusPec | hw/misc/i2c_mctp_cxl_fmapi.c:355-364 | the byte loop computes `Pec(crc, p)`, the CRC-8 of the message continued from `crc` |
| PacketErrorCode.PecAppend | hw/misc/i2c_mctp_cxl_fmapi.c:355-364 | the PEC of `a + b` is the PEC of `b` continued from the PEC of `a`, so it can be accumulated byte by byte |
| PacketErrorCode.PecResidueIsZero | hw/misc/i2c_mctp_cxl_fmapi.c:355-364 | a message followed by its own PEC has PEC zero, which is how a receiver checks it |
| PacketErrorCode.PecDetectsSingleByteError | hw/misc/i2c_mctp_cxl_fmapi.c:342-364 | changing any one byte of a message changes its PEC |
| PacketErrorCode.PecCheckValue | hw/misc/i2c_mctp_cxl_fmapi.c:342-353 | the CRC of the ASCII digits "123456789" is 0xF4, the check value of CRC-8 with polynomial 0x07 |
| FmApi.PhysicalSwitchCommandOf | include/hw/cxl/cxl_fmapi.h:68-72 | exactly the opcodes 0x00 to 0x03 name a Physical Switch command, and each names the command with that opcode |
| FmApi.OpcodeRoundTrip | include/hw/cxl/cxl_fmapi.h:68-72 | each command's opcode maps back to the command |
| FmApi.EncodeIdentifySwitchResp | include/hw/cxl/cxl_fmapi.h:97-106 | the 72-byte packed Identify Switch Device payload: field offsets, the reserved byte, 16-bit fields little-endian |
| FmApi.IdentifySwitchRespRoundTrip | include/hw/cxl/cxl_fmapi.h:97-106 | decoding the encoded Identify Switch Device payload gives back the response |
| FmApi.PortInfoBlockRoundTrip | include/hw/cxl/cxl_fmapi.h:119-135 | the 16-byte port information block decodes back to the block |
| FmApi.EncodePortStateReq | include/hw/cxl/cxl_fmapi.h:114-117 | the request is the port count byte followed by the port IDs |
| MctpIngest.PortStateRequestCapture | hw/misc/i2c_mctp_cxl_fmapi.c:173-182 | a port-state request whose body is the encoding of a request for up to ten ports leaves that count and those port IDs in the device, and the rest of the store as it was |
| FmApi.EncodePortStateResp | include/hw/cxl/cxl_fmapi.h:137-141 | the response is the count, three reserved zero bytes, then the blocks back to back |
| FmApi.PortStateRespRoundTrip | include/hw/cxl/cxl_fmapi.h:137-141 | the response is 4 + 16n bytes and decodes back to itself |
| MctpIngest.InitialCtx | hw/misc/i2c_mctp_cxl_fmapi.c:80-120 | the state of a new device: no EID assigned, no ports requested |
| MctpIngest.PortStoreIndex | hw/misc/i2c_mctp_cxl_fmapi.c:179-180 | the corrected port-list guard: a byte is stored only within both the declared count and the ten-entry store, at its list position |
| MctpIngest.TransportIngest | hw/misc/i2c_mctp_cxl_fmapi.c:212-240 | capturing a transport header byte keeps the tag within its three bits |
| MctpIngest.SetEidIngest | hw/misc/i2c_mctp_cxl_fmapi.c:124-138 | a Set Endpoint ID byte changes only the endpoint ID fields |
| MctpIngest.ControlIngest | hw/misc/i2c_mctp_cxl_fmapi.c:241-275 | a control-message byte leaves the transport header and FM-API context alone |
| MctpIngest.IngestMatchesParse | hw/misc/i2c_mctp_cxl_fmapi.c:207-312 | feeding a request byte by byte from position 0 gives the context of the declarative parse of the whole request |
| MctpIngest.ParseSnoc | hw/misc/i2c_mctp_cxl_fmapi.c:207-312 | parsing a request with one more byte is ingesting that byte at its position |
| MctpIngest.HeaderCapture | hw/misc/i2c_mctp_cxl_fmapi.c:212-240 | after a request the header holds the byte count, the requester's 7-bit address, both EIDs, the tag bits and the message type from bytes 1 to 7 |
| MctpIngest.UnstoredBytesIgnored | hw/misc/i2c_mctp_cxl_fmapi.c:212-227 | bytes 0 and 3 (command code and header version) are only logged, so they never affect the context |
| MctpIngest.SetEndpointIdTakesEffect | hw/misc/i2c_mctp_cxl_fmapi.c:124-138 | a Set Endpoint ID request sets the endpoint ID to byte 11 and marks it assigned |
| MctpIngest.EidOnlyChangedBySetEid | hw/misc/i2c_mctp_cxl_fmapi.c:254-258 | no other request changes the endpoint ID |
| MctpIngest.PortListCapture | hw/misc/i2c_mctp_cxl_fmapi.c:284-300 | a Get Physical Port State request stores its command, command set, port count and, per slot of the store, the requested port ID |
| MctpIngest.PortStoreOnlyChangedByPortState | hw/misc/i2c_mctp_cxl_fmapi.c:167-186 | no other request touches the port count or the port store |
| MctpSwitch.FrameOf | hw/misc/i2c_mctp_cxl_fmapi.c:390-415 | a reply frame has a 11-byte control header or a 21-byte FM-API header followed by the payload |
| MctpSwitch.FrameTransportFields | hw/misc/i2c_mctp_cxl_fmapi.c:393-407 | the first nine bytes address the requester, give the byte count after the count field, this device's address and EID, the requester's EID, SOM and EOM with the request's tag, and the message type |
| MctpSwitch.ControlReplyFields | hw/misc/i2c_mctp_cxl_fmapi.c:408-411 | a control reply echoes the instance ID and command code and starts its payload with completion code 0 |
| MctpSwitch.FmapiReplyFields | hw/misc/i2c_mctp_cxl_fmapi.c:556-566 | an FM-API reply is a response-category message that echoes tag, command and command set, gives the payload length, return code 0 and vendor field 0xbeef |
| MctpSwitch.ReportedPorts | hw/misc/i2c_mctp_cxl_fmapi.c:608-612 | the corrected reply reports the declared count, but at most the ten ports the store holds |
| MctpSwitch.PhysicalSwitchPayload | hw/misc/i2c_mctp_cxl_fmapi.c:653-666 | Identify Switch and Get Physical Port State are answered, with a 72-byte payload and a 4 + 16n-byte payload; other commands are not |
| MctpSwitch.ReplyFrame | hw/misc/i2c_mctp_cxl_fmapi.c:684-722 | a reply exists exactly for the six control commands and the two Physical Switch commands; it is a control frame exactly for control requests, and every reply fits the transmit buffer with its PEC |
| MctpSwitch.IdentifyReplyContents | hw/misc/i2c_mctp_cxl_fmapi.c:637-651 | the Identify reply payload decodes to the switch's fixed identity, which reports ten physical ports |
| MctpSwitch.PortStatePayloadContents | hw/misc/i2c_mctp_cxl_fmapi.c:596-635 | the port state payload decodes to the reported count and, in request order, one block per requested port |
| MctpSwitch.PortBlockRole | hw/misc/i2c_mctp_cxl_fmapi.c:612-620 | ports 0 and 1 are upstream, in configuration state 4; all others are downstream and connect a type 3 device |
| MctpSwitch.GetEidReportsSetEid | hw/misc/i2c_mctp_cxl_fmapi.c:441-465 | after Set Endpoint ID, a Get Endpoint ID reply reports the EID that was set |
| MctpSwitch.PortStateRoundTrip | hw/misc/i2c_mctp_cxl_fmapi.c:596-635 | for a request of up to ten ports, the reply carries one block per requested port, and block i names the i-th requested port |
| MctpSwitch.PortStateReplyPayload | hw/misc/i2c_mctp_cxl_fmapi.c:659-660 | a port-state request is answered with an FM-API frame carrying the encoded port-state response |
| MctpSwitch.Emit | hw/misc/i2c_mctp_cxl_fmapi.c:417-439 | one emitter callback keeps the transmit buffer at its size and the responder in its state |
| MctpSwitch.EmitTranscript | hw/misc/i2c_mctp_cxl_fmapi.c:572-594 | from any consistent point, the emitter sends the rest of the frame, then the PEC over the whole frame, then ends the transfer and releases the bus |
| MctpSwitch.RunIsEmitRun | hw/misc/i2c_mctp_cxl_fmapi.c:668-724 | once acknowledged, the bottom half's callbacks are exactly the frame emitter's |
| MctpSwitch.RunFirstStep | hw/misc/i2c_mctp_cxl_fmapi.c:672-682 | the first callback after a request starts a send to the requester and records its address byte |
| MctpSwitch.ReplyTranscript | hw/misc/i2c_mctp_cxl_fmapi.c:668-724 | a whole reply on the bus is: start send to the requester, the frame, its PEC, end and release; and the frame with its PEC checks to zero |
| MctpSwitch.UnansweredStaysSilent | hw/misc/i2c_mctp_cxl_fmapi.c:706-719 | for a request the device does not answer, once the send has started every later callback is silent |
| MctpSwitch.UnansweredRun | hw/misc/i2c_mctp_cxl_fmapi.c:668-724 | for a request the device does not answer, the first callback still starts a send to the requester, every later one is silent, and the bus is never released |
| SwitchDevice.Switch.constructor | hw/misc/i2c_mctp_cxl_fmapi.c:80-120 | a new device has the initial context and a zeroed transmit buffer |
| SwitchDevice.Switch.Tx | hw/misc/i2c_mctp_cxl_fmapi.c:207-312 | each received byte updates the fields as `IngestByte` says, advances the position and returns 0 |
| SwitchDevice.Switch.SetEidParse | hw/misc/i2c_mctp_cxl_fmapi.c:124-138 | the Set Endpoint ID parser updates the context as `SetEidIngest` says |
| SwitchDevice.Switch.PhysicalSwitchParse | hw/misc/i2c_mctp_cxl_fmapi.c:167-205 | the Physical Switch parser updates the FM-API fields as `PhysicalSwitchIngest` says |
| SwitchDevice.Switch.Rx | hw/misc/i2c_mctp_cxl_fmapi.c:314-317 | a master read gets 0 |
| SwitchDevice.Switch.Event | hw/misc/i2c_mctp_cxl_fmapi.c:319-340 | start and finish reset the position, finish also resets the state and requests the bus, and NACK changes nothing |
| SwitchDevice.Switch.CmdSendReply | hw/misc/i2c_mctp_cxl_fmapi.c:417-439 | one control emitter callback acts as `Emit` on the control frame of the payload |
| SwitchDevice.Switch.FmapiReply | hw/misc/i2c_mctp_cxl_fmapi.c:572-594 | one FM-API emitter callback acts as `Emit` on the FM-API frame of the payload |
| SwitchDevice.Switch.PortStatePayload | hw/misc/i2c_mctp_cxl_fmapi.c:596-631 | the loop builds the port-state payload the reply frame carries |
| SwitchDevice.Switch.PortStateReply | hw/misc/i2c_mctp_cxl_fmapi.c:596-635 | the port-state reply emits the next byte of the frame carrying that payload |
| SwitchDevice.Switch.IdentifyReply | hw/misc/i2c_mctp_cxl_fmapi.c:637-651 | the Identify reply emits the next byte of the frame carrying the switch identity |
| SwitchDevice.Switch.PhysicalSwitchReply | hw/misc/i2c_mctp_cxl_fmapi.c:653-666 | the implemented commands emit the next reply byte; any other command sends nothing and changes nothing |
| SwitchDevice.Switch.Bh | hw/misc/i2c_mctp_cxl_fmapi.c:668-724 | each bottom-half run acts as `BhStep` on the context and the responder |
| SwitchDevice.Switch.Reply | hw/misc/i2c_mctp_cxl_fmapi.c:684-722 | in the acknowledged state the reply dispatch acts as `BhStep` |
| SwitchBounds.PortStoreIndexAsWritten | hw/misc/i2c_mctp_cxl_fmapi.c:179-180 | the guard as written stores every byte within the declared count at its list position |
| SwitchBounds.PortStoreOverrunAsWritten | hw/misc/i2c_mctp_cxl_fmapi.c:179-180 | as written, a store lands past the ten-entry array exactly for list bytes beyond the tenth of a request declaring more than ten; byte 31 of an eleven-port request is the first |
| SwitchBounds.PortStoreIndexCorrects | hw/misc/i2c_mctp_cxl_fmapi.c:179-180 | the corrected guard drops exactly the out-of-bounds stores, and equals the guard as written for up to ten declared ports |
| SwitchBounds.PortStateResponseAsWritten | hw/misc/i2c_mctp_cxl_fmapi.c:608-612 | as written the response reports the declared count, with one block per declared port taken from the store and the memory after it |
| SwitchBounds.PortReadOverrunAsWritten | hw/misc/i2c_mctp_cxl_fmapi.c:608-612 | up to ten declared ports the response as written equals the corrected one; beyond ten it reads past the store, reports a count the corrected reply does not, and its eleventh block describes the byte after the store |
| SwitchBounds.PortStateReplyOverrunsDeclaredBuffer | hw/misc/i2c_mctp_cxl_fmapi.c:119 | a port-state reply with its PEC is 26 + 16n bytes, and it overruns the declared 128-byte buffer exactly when seven or more ports are reported |
| SwitchBounds.SendBufferFitsLongestReply | hw/misc/i2c_mctp_cxl_fmapi.c:119 | the corrected buffer holds the ten-port reply with its PEC, which the declared one does not |
| SwitchBounds.PayloadLengthTruncatedAsWritten | hw/misc/i2c_mctp_cxl_fmapi.c:538-548 | a 260-byte payload (sixteen ports) goes out as 281 frame bytes, while the header's payload length says 4 and its byte count says 22 |
| CxlRegisters.StoreWord | hw/mem/cxl_type3.c:441 | a 32-bit little-endian store changes its four bytes to the value and no other byte |
| CxlRegisters.StoreWordLoad | hw/mem/cxl_type3.c:429-432 | a stored word loads back |
| CxlRegisters.StoreWordOther | hw/mem/cxl_type3.c:429-432 | a store leaves every disjoint word as it was |
| CxlRegisters.Le32RoundTrip | hw/mem/cxl_type3.c:429-432 | the little-endian bytes of a word read back as the word |
| CxlRegisters.CommitCtrl | hw/mem/cxl_type3.c:396-408 | committing clears COMMIT and ERR, sets COMMITTED, and keeps every other bit, the granularity and the ways |
| CxlRegisters.ClearOnWrite | hw/mem/cxl_type3.c:428-436 | write-1-to-clear: the bits written as 1 read 0, and the bits written as 0 keep their value |
| CxlRegisters.DecodeDpa | hw/mem/cxl_type3.c:602-631 | an address is translated exactly when it lies inside the decoder's window, base included and base plus size excluded |
| CxlRegisters.InterleaveDpaBits | hw/mem/cxl_type3.c:623-628 | the translation keeps the low 8 + IG bits of the offset and removes the IW way-selection bits above them |
| CxlRegisters.InterleaveDpaBound | hw/mem/cxl_type3.c:623-628 | the device address never exceeds the window offset, and without interleaving it equals it |
| CxlRegisters.LowShrSplit | hw/mem/cxl_type3.c:623-628 | an offset is its low bits plus its high bits shifted back, which the mask-and-shift translation splits |
| CxlRegisters.WindowRoute | hw/mem/cxl_type3.c:640-652 | an access goes to the backend exactly when there is a backend region, the address decodes, and the device address is not above the region size |
| CxlCdat.BuildCdatTable | hw/mem/cxl_type3.c:27-157 | the table built is `CdatTable` of the backend |
| CxlCdat.CdatTableLayout | hw/mem/cxl_type3.c:41-146 | with a region: six entries of handle 0 in the order DSMAS, four DSLBIS, DSEMTS; read and write latency then read and write bandwidth; non-volatile over the whole region; the DSEMTS range equals the DSMAS range. Without a backend the table is empty, and a backend without a region is an invalid-argument error |
| CxlCdat.NextHandle | hw/mem/cxl_type3.c:199-200 | the response names the following entry, or the end marker 0xffff exactly after the last |
| CxlCdat.ResponseDwords | hw/mem/cxl_type3.c:195 | the response length is the header and entry size rounded up to dwords |
| CxlCdat.CdatRspRoundTrip | hw/mem/cxl_type3.c:190-201 | the 12-byte response header decodes back, and starts with the CXL vendor ID and the Table Access object type |
| CxlCdat.WalkVisitsAll | hw/mem/cxl_type3.c:199-200 | following the next handles from 0 reads every entry exactly once, in order, and stops |
| CxlType3.LsaAccessValidMeans | hw/mem/cxl_type3.c:709-714 | the two 64-bit checks admit exactly the non-empty accesses that end inside the area |
| CxlType3.Overwrite | hw/mem/cxl_type3.c:731-748 | the written range holds the data and every other byte is unchanged |
| CxlType3.RegWriteResult | hw/mem/cxl_type3.c:410-445 | a register write changes only the register written, which reads back as the cleared status, the committed control value, or the value |
| CxlType3.RasWriteKeepsTranslation | hw/mem/cxl_type3.c:428-436 | clearing RAS status bits never changes an address translation |
| CxlType3.CdatHandleUncheckedAsWritten | hw/mem/cxl_type3.c:180-188 | the end marker returned with the last entry passes the request check as written and indexes beyond the table |
| CxlType3.InjectPoisonMarks | hw/mem/cxl_type3.c:501-512 | after injection an address is poisoned exactly when it is in the new range or was poisoned before |
| CxlType3.Type3Device.constructor | hw/mem/cxl_type3.c:514-587 | a new device has its register map, backend, CDAT entries, LSA and mailbox sizes, an empty mailbox and no poison |
| CxlType3.Type3Device.Read | hw/mem/cxl_type3.c:633-655 | a read fails with an error exactly when the window routes it nowhere, and otherwise reads the backend at the translated address |
| CxlType3.Type3Device.Write | hw/mem/cxl_type3.c:657-678 | a write is dropped with success exactly when the window routes it nowhere, and otherwise writes the backend at the translated address |
| CxlType3.Type3Device.ReadWriteAgree | hw/mem/cxl_type3.c:633-678 | a read and a write at the same address reach the backend in the same cases and at the same device address |
| CxlType3.Type3Device.StoreRegister | hw/mem/cxl_type3.c:441 | the register store writes the value's four little-endian bytes |
| CxlType3.Type3Device.CommitDecoder | hw/mem/cxl_type3.c:396-408 | committing rewrites the decoder control register with `CommitCtrl` of its value |
| CxlType3.Type3Device.RegWrite | hw/mem/cxl_type3.c:410-445 | the component registers become `RegWriteEffect` of the old registers |
| CxlType3.Type3Device.GetLsa | hw/mem/cxl_type3.c:716-729 | a valid read returns the `size` bytes of the area at `offset` and reports `size` |
| CxlType3.Type3Device.SetLsa | hw/mem/cxl_type3.c:731-748 | a valid write overwrites the area at `offset` with the data |
| CxlType3.Type3Device.CdatResponseBytes | hw/mem/cxl_type3.c:190-205 | the response is the 12-byte header then the entry; the header gives the dword length and the next handle |
| CxlType3.Type3Device.CdatResponse | hw/mem/cxl_type3.c:169-210 | the corrected request check answers exactly requests of at least three dwords naming an existing entry; it puts the response at the start of the mailbox and adds its dword length, and otherwise changes nothing |
| CxlType3.Type3Device.CopyToMailbox | hw/mem/cxl_type3.c:203-205 | the bytes are copied to the start of the mailbox and the rest is kept |
| CxlType3.Type3Device.InjectPoison | hw/mem/cxl_type3.c:501-512 | the range set by the properties goes at the head of the poison list |

## Left out

- Bus primitives: starting a send, sending a byte, ending the transfer and releasing the bus become `BusAction` values. Taking the bus as master becomes the `masterRequested` result of `Event`.
- Logging (`printf`), QOM type registration, realize and class glue are left out.
- The Get Version and Resolve Endpoint ID request parsers only log, so they are not modelled beyond accepting the bytes.
- The source overlays the control and FM-API contexts in a union (hw/misc/i2c_mctp_cxl_fmapi.c:92-116): the control request bits and instance ID share storage with the FM-API tag, command and command set. The model keeps them apart. The two differ only for a truncated request that follows a request of the other kind. An FM-API request shorter than 13 bytes takes its missing tag, command or command set from the control fields in the source; the source then never answers it, since the command set is at most 0x1f. The model keeps the previous FM-API fields instead, and may answer it. A control request shorter than 9 bytes echoes the FM-API command set as its instance ID in the source, and the previous instance ID in the model.
- Allocation failure of the port-state payload is not modelled.
- MctpSwitch.ReplyFrame: replies are built against the corrected transmit buffer; the overrun of the declared one is in Findings.
- CxlType3.Type3Device.RegWrite: it requires the whole 32-bit register to lie in the region (`offset + 4` at most the region size). The source asserts only that `offset` is below the region size.
- Register offsets of `cxl_component.h` are not part of this model. They are a `RegisterMap` parameter, whose validity says the registers are aligned, inside the region and pairwise disjoint. The field positions of the HDM decoder 0 control register (IG, IW, COMMIT, COMMITTED, ERR) are fixed constants, as CXL 2.0 section 8.2.5.12.7 defines them.
- Register reset values (`ct3d_reset`) are not modelled.
- Host byte order: the model fixes a little-endian host. The switch fills the 16-bit fields of its reply structures in host order (hw/misc/i2c_mctp_cxl_fmapi.c:564-565, :630, :646-647) and sends them byte by byte. The type 3 device builds the CDAT response header in host order (hw/mem/cxl_type3.c:192-203). `cxl_type3_dpa` and `hdm_decoder_commit` read and update the decoder registers as native words (hw/mem/cxl_type3.c:404-407, :609-623), while `ct3d_reg_write` stores little-endian. The model encodes all of these little-endian, so it matches the source only on a little-endian host.
- CxlType3.Type3Device.Valid: it requires every CDAT entry to fit the DOE read mailbox with its 12-byte header. The source never checks this before copying the response into the mailbox.
- CDAT entries are served as byte strings. Their serialisation happens outside `cxl_type3.c` and is not part of this model.
- The backend memory is not modelled: `address_space_read`, `address_space_write` and `memory_region_set_dirty` are left out. `Read` and `Write` state which device address is accessed, or which result is returned without an access.
- The second "no region" check before the DSEMTS entry is merged with the first, since the backend cannot change in between.
- `ct3_free_cdat_table` and `ct3_exit` are left out.
- PCI configuration space, the DVSEC builder, the compliance DOE protocol and SPDM are left out.
- `get_lsa_size` is the length of the LSA array.
- `get_poison_list` is the `poisonList` field.
- CxlType3.Type3Device.CdatResponse: it refuses a handle that names no entry (the corrected check); as written the source indexes the table with it. See Findings.
- CxlRegisters.InterleaveDpa: the mask-and-shift arithmetic of `cxl_type3_dpa` is written as low-bits, shift-right and shift-left functions on unbounded naturals. With IG and IW at most 15, every shift stays below 64 bits, so 64-bit wrap-around never arises.
- CxlRegisters.WindowRoute: the bound check admits a device address equal to the region size (`>` rather than `>=`), as the source does.

## Findings

| source | as written | input that shows it | evidently intended | confidence | as-written member | corrected member |
|---|---|---|---|---|---|---|
| hw/misc/i2c_mctp_cxl_fmapi.c:179-180 | a port-list byte is stored at `ports_req[len - 21]` whenever it is within the declared count | a Get Physical Port State request declaring 11 ports: byte 31 is stored at index 10 of a 10-entry array | store only within the array's capacity | high (not executed) | SwitchBounds.PortStoreOverrunAsWritten | SwitchBounds.PortStoreIndexCorrects |
| hw/misc/i2c_mctp_cxl_fmapi.c:608-612 | the reply reports `num_ports_req` ports and reads `ports_req[i]` for each | a request declaring 11 ports: the reply reads index 10 of the 10-entry store | report at most the ports the store holds | high (not executed) | SwitchBounds.PortReadOverrunAsWritten | MctpSwitch.PortStatePayloadContents |
| hw/misc/i2c_mctp_cxl_fmapi.c:119 | the transmit buffer is 128 bytes, and every reply byte is recorded in it, PEC included | a port-state request for 7 ports: the reply and its PEC take 138 bytes | a buffer that holds the longest reply, 186 bytes for ten ports | high (not executed) | SwitchBounds.PortStateReplyOverrunsDeclaredBuffer | SwitchBounds.SendBufferFitsLongestReply |
| hw/misc/i2c_mctp_cxl_fmapi.c:538-548 | the FM-API header builder takes the payload length as a `uint8_t`, so the length field and the byte count are truncated modulo 256 | a port-state request declaring 16 ports: a 260-byte payload is announced as 4 bytes, with byte count 22, while 281 frame bytes are sent | the full 20-bit payload length, and a payload that fits one packet | high (not executed) | SwitchBounds.PayloadLengthTruncatedAsWritten | MctpSwitch.FmapiReplyFields |
| hw/mem/cxl_type3.c:180-188 | only the request length is checked; the entry handle indexes the table unchecked | a read-entry request with handle 0xffff, the end marker the previous response returned | refuse a handle that names no entry | high (not executed) | CxlType3.CdatHandleUncheckedAsWritten | CxlType3.Type3Device.CdatResponse |
