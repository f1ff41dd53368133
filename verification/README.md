# RMD-X8 command-frame encoder

A Dafny model of the RMD-X8 servo driver (`src/rmd_x8.py`, class `RMD_X8`).
Each high-level method of the driver turns an operation and a caller-supplied
data list into an 8-byte CAN payload. Byte 0 is a fixed opcode. The data bytes
go to fixed offsets. Every other byte is `0x00`. The frame is then passed to
`send_cmd`, which transmits it under the motor's arbitration identifier,
waits, and returns whatever frame the bus receives next.

Modules:

- `Results` (`results.dfy`): `Option`, `Result` and the driver's error kinds.
- `Protocol` (`protocol.dfy`): the 23 operations (`Op`), their opcodes, the
  offset table `Layout(op)` and the data length `Required(op) == |Layout(op)|`.
  It also holds `OpOfOpcode`, which recognises an opcode byte.
- `Codec` (`codec.dfy`): `Encode` writes out each method's message list as
  the source does. `Conforms` states the layout rule independently of those
  lists. `Build` is one table-driven builder that produces the same bytes.
  `Decode` reads a frame back into its `Command`. The lemmas relate all four.
- `Driver` (`driver.dfy`): the driver object (`MotorLink`), a bus that logs
  transmissions and queues inbound frames, `SendCmd`, `Perform` (one
  high-level method call) and `Run` (a script of calls).

Modelling decisions, each taken from the code:

- `position_closed_loop_4` copies five data bytes into bytes 1..5
  (`src/rmd_x8.py:479-480`), so it needs five data bytes.
- Nothing is raised when no reply arrives. `send_cmd` returns the result of
  `bus.recv()` unchanged. The model returns `Ok(None)` in that case, not an error.
- A data list that is too short fails while the message list is being built.
  That happens before the bus is used. So `InvalidArgument` takes precedence
  over `NotReady` when both apply.
- A failing call raises in the source, so a script of calls stops at the
  first failure. `Driver.Run` does the same, and the failure is its last reply.
- `bus.send` can raise on any call (`src/rmd_x8.py:132`), so the bus carries one
  outcome per transmission. A frame refused part-way through a script ends
  the script there.

## Model

| member | source | states |
|---|---|---|
| Protocol.Opcode | src/rmd_x8.py:146-480 | the byte 0 each of the 23 message lists carries, which the opcode recogniser maps back to that same operation |
| Protocol.Layout | src/rmd_x8.py:146-480 | every data offset lies in 1..7 and the offsets strictly increase, so no two data bytes share a frame slot and byte 0 stays the opcode |
| Protocol.OpcodeInjective | src/rmd_x8.py:146-480 | the 23 opcodes are pairwise distinct, so byte 0 identifies the operation (both directions) |
| Protocol.OpOfOpcodeExact | src/rmd_x8.py:146-480 | the opcode recogniser names an operation for a byte if and only if the byte is that operation's opcode |
| Protocol.ZeroArgOpsTakeNoData | src/rmd_x8.py:137-373 | the thirteen argument-less methods are exactly the operations whose layout is empty |
| Codec.Encode | src/rmd_x8.py:146-480 | every builder yields exactly 8 bytes whose byte 0 is the operation's opcode; a data list shorter than the layout is outside its domain (the source raises IndexError) |
| Codec.EncodeConforms | src/rmd_x8.py:146-480 | each of the 23 message lists puts data[i] at Layout(op)[i] and zero in every other byte 1..7 |
| Codec.ConformsUnique | src/rmd_x8.py:146-480 | the opcode-plus-layout rule determines the frame: two frames that both follow it are equal |
| Codec.EncodeIsLayout | src/rmd_x8.py:146-480 | a frame follows the layout rule for (op, data) if and only if it is the frame the source builds |
| Codec.Build | src/rmd_x8.py:146-480 | one generic builder driven by the layout table produces byte-identical frames to the 23 hand-written lists |
| Codec.Decode | src/rmd_x8.py:146-480 | any frame that decodes is 8 bytes long, starts with the decoded operation's opcode, and carries exactly the number of data bytes that operation needs |
| Codec.DecodeEncode | src/rmd_x8.py:163-480 | round trip: decoding an encoded frame returns the operation and data[..Required(op)] |
| Codec.EncodeDecode | src/rmd_x8.py:163-480 | every frame that decodes is the encoding of the command it decodes to |
| Codec.EncodeInjective | src/rmd_x8.py:163-480 | two well-formed commands encode to the same frame if and only if they are equal, across operations and data |
| Codec.EncodeReadsOnlyPrefix | src/rmd_x8.py:163-480 | elements past the first Required(op) are never read: data lists that agree on that prefix give byte-identical frames |
| Codec.ZeroArgFrame | src/rmd_x8.py:146-372 | the thirteen argument-less commands send their opcode followed by seven 0x00 bytes |
| Codec.SixByteFrame | src/rmd_x8.py:163-164 | write_pid_ram (and write_pid_rom at 181-182, position_closed_loop_2 at 443-444) puts data[0..5] at bytes 2..7 with byte 1 zero |
| Codec.FourByteFrame | src/rmd_x8.py:211-212 | write_acceleration_ram (and speed_closed_loop at 407-408, position_closed_loop_1 at 425-426) puts data[0..3] at bytes 4..7 with bytes 1..3 zero |
| Codec.TorqueFrame | src/rmd_x8.py:389-390 | torque_closed_loop puts data[0..1] at bytes 4..5 with bytes 1..3 and 6..7 zero |
| Codec.EncoderOffsetFrame | src/rmd_x8.py:241-242 | write_encoder_offset puts data[0..1] at bytes 6..7 with bytes 1..5 zero |
| Codec.PositionLoop3Frame | src/rmd_x8.py:461-462 | position_closed_loop_3 puts data[0] at byte 1 and data[1..2] at bytes 4..5, with bytes 2, 3, 6, 7 zero |
| Codec.PositionLoop4Frame | src/rmd_x8.py:479-480 | position_closed_loop_4 puts data[0..4] at bytes 1..5 with bytes 6..7 zero, so it needs five data bytes |
| Codec.SampleFrames | src/rmd_x8.py:241-242 | byte-exact samples: write_encoder_offset([0x12, 0x34]) and position_closed_loop_3([0xAA, 0x01, 0x02]) (lines 461-462) |
| Driver.New | src/rmd_x8.py:81-86 | a new driver keeps the identifier it was given and has no bus, so every call on it fails and sends nothing |
| Driver.Attach | src/rmd_x8.py:111-112 | storing a bus keeps the identifier; the driver then sees that bus's log, waiting frames and transmission outcomes, and can transmit exactly when the bus accepts the next frame |
| Driver.SendCmd | src/rmd_x8.py:114-135 | every transmission attempt on an attached bus uses up one outcome of that bus; when the bus accepts, exactly one frame is logged under the link's identifier and the reply is the oldest waiting frame (or none), which is removed from the queue and nothing else is; without a bus it fails with NotReady and changes nothing; a refused frame fails with TransportError and leaves the log and the queue unchanged |
| Driver.Perform | src/rmd_x8.py:137-481 | a call fails with InvalidArgument exactly when the data list is too short, and then changes nothing; otherwise it fails with NotReady before setup (changing nothing) and TransportError when the bus refuses the frame (log and queue unchanged, one outcome used), and succeeds exactly when the bus accepts the next frame; a success appends one frame under the link's identifier that decodes back to the operation and its data prefix, and returns send_cmd's reply (the oldest waiting frame or none, consumed from the queue) |
| Driver.Run | src/rmd_x8.py:114-481 | a script of calls stops at the first failure, which is its last reply; every earlier reply is a success |
| Driver.RunLogged | src/rmd_x8.py:114-481 | on an attached bus with long enough data lists, a script runs until the bus first refuses a frame, at any point of the script: each accepted call appends exactly its encoded frame in call order (extra data elements ignored) and the i-th returns the i-th waiting frame whatever command it answers; the refused call ends the script with TransportError and is not logged |
| Driver.SampleRefusal | src/rmd_x8.py:132 | a bus that accepts one frame and refuses the next: the second call of a two-call script fails with TransportError after the first frame was logged |

## Left out

- `setup` (`src/rmd_x8.py:88-112`): it shells out to bring the interface up, sleeps, opens a socketcan bus and may end the process. This is process control and I/O. Only its effect of storing a bus on the driver is modelled, as `Driver.Attach`.
- The 0.01 s settle delay passed to `send_cmd`: it is a floating-point sleep with timing semantics only. The order of transmit and receive inside `send_cmd` is not represented either: the waiting frames are fixed before the call, so the model cannot tell a reply that arrived after the transmission from one that was already queued.
- The internals of python-can (`can.Message`, `bus.send`, `bus.recv`): the bus is modelled as a log of sent frames, a queue of inbound frames and the outcome of each transmission it will still be asked for, so `send` may fail on any call. Once the listed outcomes run out the bus refuses every further frame. Why a transmission fails is not modelled. `recv` is treated as returning None when nothing is waiting; the real call blocks without a timeout.
- The width of the arbitration identifier: the source passes it through as a standard (11-bit) identifier and never checks its range, so the model keeps it as a natural number.
- The range of the data elements: the source does not check them. Data bytes are typed `bv8`.
- Reply frames: they are returned unparsed, so the model treats them as opaque byte lists.
- Driver.SendCmd: a receive that raises after the frame was sent (`bus.recv` at `src/rmd_x8.py:134`, after `bus.send` at line 132) is not modelled; the receive step always yields the oldest waiting frame or None. As a consequence, in `Driver.SendCmd`, `Driver.Perform` and `Driver.RunLogged` alike, every error leaves the bus log unchanged and every frame the bus accepts yields a successful reply, whereas in the source a frame can be on the bus while the caller gets an exception.
- Driver.Perform: the Python exceptions become error values. A data list that is too short is the IndexError of the subscript, modelled as `InvalidArgument`. A call before setup is the AttributeError of `None.send`, modelled as `NotReady`. An exception from python-can's `send` is modelled as `TransportError`.
- Driver.Perform: every operation takes a data list, and the thirteen argument-less operations ignore it. In the source those methods have no data parameter at all, so passing one is a TypeError. The model does not represent that call-site error.
- Driver.Run: an error value ends the script as an uncaught exception would. A caller that catches the exception and carries on is not modelled.
