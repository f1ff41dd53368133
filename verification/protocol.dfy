/**
 * The RMD-X8 command set: the 23 operations the driver can send, the opcode
 * each one puts in byte 0, and the frame offsets its data bytes occupy.
 */
module Protocol {
  import opened Results

  type byte = bv8

  /** Every command frame is a classic CAN payload of eight bytes. */
  const FrameSize: nat := 8

  /** One constructor per frame-building method of the driver class. */
  datatype Op =
    | ReadPid
    | WritePidRam
    | WritePidRom
    | ReadAcceleration
    | WriteAccelerationRam
    | ReadEncoder
    | WriteEncoderOffset
    | WriteMotorZeroRom
    | ReadMultiTurnsAngle
    | ReadSingleTurnAngle
    | MotorOff
    | MotorStop
    | MotorRun
    | ReadMotorStatus1
    | ReadMotorStatus2
    | ReadMotorStatus3
    | ClearMotorErrorFlag
    | TorqueClosedLoop
    | SpeedClosedLoop
    | PositionClosedLoop1
    | PositionClosedLoop2
    | PositionClosedLoop3
    | PositionClosedLoop4

  /** The operations that take no data bytes. */
  const ZeroArgOps: set<Op> :=
    {ReadPid, ReadAcceleration, ReadEncoder, WriteMotorZeroRom, ReadMultiTurnsAngle,
     ReadSingleTurnAngle, MotorOff, MotorStop, MotorRun, ReadMotorStatus1,
     ReadMotorStatus2, ReadMotorStatus3, ClearMotorErrorFlag}

  /** The fixed byte 0 of each operation's frame; it names the operation back. */
  function Opcode(op: Op): (b: byte)
    ensures OpOfOpcode(b) == Some(op)
  {
    match op
    case ReadPid => 0x30
    case WritePidRam => 0x31
    case WritePidRom => 0x32
    case ReadAcceleration => 0x33
    case WriteAccelerationRam => 0x34
    case ReadEncoder => 0x90
    case WriteEncoderOffset => 0x91
    case WriteMotorZeroRom => 0x19
    case ReadMultiTurnsAngle => 0x92
    case ReadSingleTurnAngle => 0x94
    case MotorOff => 0x80
    case MotorStop => 0x81
    case MotorRun => 0x88
    case ReadMotorStatus1 => 0x9A
    case ReadMotorStatus2 => 0x9C
    case ReadMotorStatus3 => 0x9D
    case ClearMotorErrorFlag => 0x9B
    case TorqueClosedLoop => 0xA1
    case SpeedClosedLoop => 0xA2
    case PositionClosedLoop1 => 0xA3
    case PositionClosedLoop2 => 0xA4
    case PositionClosedLoop3 => 0xA5
    case PositionClosedLoop4 => 0xA6
  }

  /**
   * Layout(op)[i] is the frame offset that receives data[i]. Offsets lie in
   * 1..7 (byte 0 is the opcode) and strictly increase, so no two data bytes
   * share a slot and the placement keeps the caller's order.
   */
  function Layout(op: Op): (offsets: seq<nat>)
    ensures forall i :: 0 <= i < |offsets| ==> 1 <= offsets[i] < FrameSize
    ensures forall i, j :: 0 <= i < j < |offsets| ==> offsets[i] < offsets[j]
  {
    match op
    case WritePidRam | WritePidRom | PositionClosedLoop2 => [2, 3, 4, 5, 6, 7]
    case WriteAccelerationRam | SpeedClosedLoop | PositionClosedLoop1 => [4, 5, 6, 7]
    case WriteEncoderOffset => [6, 7]
    case TorqueClosedLoop => [4, 5]
    case PositionClosedLoop3 => [1, 4, 5]
    case PositionClosedLoop4 => [1, 2, 3, 4, 5]
    case _ => []
  }

  /** How many leading bytes of the caller's data list an operation reads. */
  function Required(op: Op): nat {
    |Layout(op)|
  }

  /** The operation a frame's byte 0 names, if any. */
  function OpOfOpcode(b: byte): Option<Op> {
    if b == 0x30 then Some(ReadPid)
    else if b == 0x31 then Some(WritePidRam)
    else if b == 0x32 then Some(WritePidRom)
    else if b == 0x33 then Some(ReadAcceleration)
    else if b == 0x34 then Some(WriteAccelerationRam)
    else if b == 0x90 then Some(ReadEncoder)
    else if b == 0x91 then Some(WriteEncoderOffset)
    else if b == 0x19 then Some(WriteMotorZeroRom)
    else if b == 0x92 then Some(ReadMultiTurnsAngle)
    else if b == 0x94 then Some(ReadSingleTurnAngle)
    else if b == 0x80 then Some(MotorOff)
    else if b == 0x81 then Some(MotorStop)
    else if b == 0x88 then Some(MotorRun)
    else if b == 0x9A then Some(ReadMotorStatus1)
    else if b == 0x9C then Some(ReadMotorStatus2)
    else if b == 0x9D then Some(ReadMotorStatus3)
    else if b == 0x9B then Some(ClearMotorErrorFlag)
    else if b == 0xA1 then Some(TorqueClosedLoop)
    else if b == 0xA2 then Some(SpeedClosedLoop)
    else if b == 0xA3 then Some(PositionClosedLoop1)
    else if b == 0xA4 then Some(PositionClosedLoop2)
    else if b == 0xA5 then Some(PositionClosedLoop3)
    else if b == 0xA6 then Some(PositionClosedLoop4)
    else None
  }

  /** The 23 opcodes are pairwise distinct: byte 0 identifies the operation. */
  lemma {:induction false} OpcodeInjective(a: Op, b: Op)
    ensures Opcode(a) == Opcode(b) <==> a == b
  {
    if Opcode(a) == Opcode(b) {
      assert Some(a) == OpOfOpcode(Opcode(a)) == OpOfOpcode(Opcode(b)) == Some(b);
    }
  }

  /** A byte is recognised exactly when it is some operation's opcode. */
  lemma {:induction false} OpOfOpcodeExact(b: byte, op: Op)
    ensures OpOfOpcode(b) == Some(op) <==> Opcode(op) == b
  {
  }

  /** The no-argument commands are exactly those whose layout is empty. */
  lemma {:induction false} ZeroArgOpsTakeNoData(op: Op)
    ensures op in ZeroArgOps <==> Required(op) == 0
  {
    match op
    case WritePidRam | WritePidRom | PositionClosedLoop2 =>
    case WriteAccelerationRam | SpeedClosedLoop | PositionClosedLoop1 =>
    case WriteEncoderOffset | TorqueClosedLoop =>
    case PositionClosedLoop3 | PositionClosedLoop4 =>
    case _ =>
  }
}
