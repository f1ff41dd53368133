/**
 * The command-frame encoder: how each driver method turns its opcode and the
 * caller's data list into the eight bytes handed to the bus, and the decoder
 * that reads a frame back into the command it carries.
 */
module Codec {
  import opened Results
  import opened Protocol

  /** A command as a caller issues it: an operation and its data bytes. */
  datatype Command = Command(op: Op, data: seq<byte>)

  /** A command whose data list has exactly the length its layout needs. */
  predicate WellFormed(c: Command) {
    |c.data| == Required(c.op)
  }

  /**
   * The layout rule stated independently of any one builder: `frame` is eight
   * bytes, byte 0 is the opcode, data[i] sits at Layout(op)[i], and every other
   * byte is zero.
   */
  predicate Conforms(op: Op, data: seq<byte>, frame: seq<byte>) {
    && |frame| == FrameSize
    && |data| >= Required(op)
    && frame[0] == Opcode(op)
    && (forall i :: 0 <= i < Required(op) ==> frame[Layout(op)[i]] == data[i])
    && (forall k :: 1 <= k < FrameSize && k !in Layout(op) ==> frame[k] == 0)
  }

  /**
   * The message list each builder method writes out literally. Reading
   * data[i] past the end raises IndexError in the driver, so the list must be
   * at least as long as the layout; extra elements are never read.
   */
  function Encode(op: Op, data: seq<byte>): (frame: seq<byte>)
    requires |data| >= Required(op)
    ensures |frame| == FrameSize && frame[0] == Opcode(op)
  {
    match op
    case ReadPid => [0x30, 0x00, 0x00, 0x00, 0x00, 0x00, 0x00, 0x00]
    case WritePidRam => [0x31, 0x00, data[0], data[1], data[2], data[3], data[4], data[5]]
    case WritePidRom => [0x32, 0x00, data[0], data[1], data[2], data[3], data[4], data[5]]
    case ReadAcceleration => [0x33, 0x00, 0x00, 0x00, 0x00, 0x00, 0x00, 0x00]
    case WriteAccelerationRam => [0x34, 0x00, 0x00, 0x00, data[0], data[1], data[2], data[3]]
    case ReadEncoder => [0x90, 0x00, 0x00, 0x00, 0x00, 0x00, 0x00, 0x00]
    case WriteEncoderOffset => [0x91, 0x00, 0x00, 0x00, 0x00, 0x00, data[0], data[1]]
    case WriteMotorZeroRom => [0x19, 0x00, 0x00, 0x00, 0x00, 0x00, 0x00, 0x00]
    case ReadMultiTurnsAngle => [0x92, 0x00, 0x00, 0x00, 0x00, 0x00, 0x00, 0x00]
    case ReadSingleTurnAngle => [0x94, 0x00, 0x00, 0x00, 0x00, 0x00, 0x00, 0x00]
    case MotorOff => [0x80, 0x00, 0x00, 0x00, 0x00, 0x00, 0x00, 0x00]
    case MotorStop => [0x81, 0x00, 0x00, 0x00, 0x00, 0x00, 0x00, 0x00]
    case MotorRun => [0x88, 0x00, 0x00, 0x00, 0x00, 0x00, 0x00, 0x00]
    case ReadMotorStatus1 => [0x9A, 0x00, 0x00, 0x00, 0x00, 0x00, 0x00, 0x00]
    case ReadMotorStatus2 => [0x9C, 0x00, 0x00, 0x00, 0x00, 0x00, 0x00, 0x00]
    case ReadMotorStatus3 => [0x9D, 0x00, 0x00, 0x00, 0x00, 0x00, 0x00, 0x00]
    case ClearMotorErrorFlag => [0x9B, 0x00, 0x00, 0x00, 0x00, 0x00, 0x00, 0x00]
    case TorqueClosedLoop => [0xA1, 0x00, 0x00, 0x00, data[0], data[1], 0x00, 0x00]
    case SpeedClosedLoop => [0xA2, 0x00, 0x00, 0x00, data[0], data[1], data[2], data[3]]
    case PositionClosedLoop1 => [0xA3, 0x00, 0x00, 0x00, data[0], data[1], data[2], data[3]]
    case PositionClosedLoop2 => [0xA4, 0x00, data[0], data[1], data[2], data[3], data[4], data[5]]
    case PositionClosedLoop3 => [0xA5, data[0], 0x00, 0x00, data[1], data[2], 0x00, 0x00]
    case PositionClosedLoop4 => [0xA6, data[0], data[1], data[2], data[3], data[4], 0x00, 0x00]
  }

  /** Each hand-written message list follows the layout rule. */
  lemma {:induction false} EncodeConforms(op: Op, data: seq<byte>)
    requires |data| >= Required(op)
    ensures Conforms(op, data, Encode(op, data))
  {
    match op
    case WritePidRam | WritePidRom | PositionClosedLoop2 => SixByteConforms(op, data);
    case WriteAccelerationRam | SpeedClosedLoop | PositionClosedLoop1 => FourByteConforms(op, data);
    case TorqueClosedLoop => SlotsConform(op, data, Encode(op, data), [4, 5]);
    case WriteEncoderOffset => SlotsConform(op, data, Encode(op, data), [6, 7]);
    case PositionClosedLoop3 => SlotsConform(op, data, Encode(op, data), [1, 4, 5]);
    case PositionClosedLoop4 => SlotsConform(op, data, Encode(op, data), [1, 2, 3, 4, 5]);
    case _ => ZeroArgConforms(op, data);
  }

  /** The layout rule leaves no freedom: at most one frame conforms. */
  lemma {:induction false} ConformsUnique(op: Op, data: seq<byte>, f: seq<byte>, g: seq<byte>)
    requires Conforms(op, data, f) && Conforms(op, data, g)
    ensures f == g
  {
    var layout := Layout(op);
    forall k | 0 <= k < FrameSize
      ensures f[k] == g[k]
    {
      if k != 0 && k in layout {
        var i :| 0 <= i < |layout| && layout[i] == k;
        assert f[layout[i]] == data[i] == g[layout[i]];
      }
    }
  }

  /** Encode is the only frame the layout rule allows. */
  lemma {:induction false} EncodeIsLayout(op: Op, data: seq<byte>, frame: seq<byte>)
    requires |data| >= Required(op)
    ensures Conforms(op, data, frame) <==> frame == Encode(op, data)
  {
    EncodeConforms(op, data);
    if Conforms(op, data, frame) {
      ConformsUnique(op, data, frame, Encode(op, data));
    }
  }

  /**
   * One generic builder driven by the layout table, in place of the 23
   * hand-written message lists: start from the opcode and seven zeros and
   * copy data[i] to Layout(op)[i]. It produces byte-identical frames.
   */
  method Build(op: Op, data: seq<byte>) returns (frame: seq<byte>)
    requires |data| >= Required(op)
    ensures Conforms(op, data, frame)
    ensures frame == Encode(op, data)
  {
    var layout := Layout(op);
    frame := [Opcode(op), 0x00, 0x00, 0x00, 0x00, 0x00, 0x00, 0x00];
    var i := 0;
    while i < |layout|
      invariant 0 <= i <= |layout|
      invariant |frame| == FrameSize && frame[0] == Opcode(op)
      invariant forall j :: 0 <= j < i ==> frame[layout[j]] == data[j]
      invariant forall k :: 1 <= k < FrameSize && k !in layout[..i] ==> frame[k] == 0
    {
      frame := frame[layout[i] := data[i]];
      assert layout[..i + 1] == layout[..i] + [layout[i]];
      i := i + 1;
    }
    assert layout[..i] == layout;
    EncodeConforms(op, data);
    ConformsUnique(op, data, frame, Encode(op, data));
  }

  /** The bytes of `frame` at the given offsets, in order. */
  function Gather(frame: seq<byte>, offsets: seq<nat>): seq<byte>
    requires forall i :: 0 <= i < |offsets| ==> offsets[i] < |frame|
  {
    seq(|offsets|, i requires 0 <= i < |offsets| => frame[offsets[i]])
  }

  /**
   * Reads a frame back into the command that produced it: None when the frame
   * is not eight bytes, byte 0 is no known opcode, or a byte outside the
   * operation's layout is not zero.
   */
  function Decode(frame: seq<byte>): (r: Option<Command>)
    ensures r.Some? ==> WellFormed(r.value)
    ensures r.Some? ==> |frame| == FrameSize && frame[0] == Opcode(r.value.op)
  {
    if |frame| != FrameSize then None
    else
      match OpOfOpcode(frame[0])
      case None => None
      case Some(op) =>
        OpOfOpcodeExact(frame[0], op);
        if forall k :: 1 <= k < FrameSize && k !in Layout(op) ==> frame[k] == 0
        then Some(Command(op, Gather(frame, Layout(op))))
        else None
  }

  /** Round trip: decoding an encoded frame returns the operation and data[..Required(op)]. */
  lemma {:induction false} DecodeEncode(op: Op, data: seq<byte>)
    requires |data| >= Required(op)
    ensures Decode(Encode(op, data)) == Some(Command(op, data[..Required(op)]))
  {
    var frame := Encode(op, data);
    EncodeConforms(op, data);
    assert Gather(frame, Layout(op)) == data[..Required(op)];
  }

  /** The other direction: every frame that decodes is the encoding of what it decodes to. */
  lemma {:induction false} EncodeDecode(frame: seq<byte>)
    requires Decode(frame).Some?
    ensures Encode(Decode(frame).value.op, Decode(frame).value.data) == frame
  {
    var c := Decode(frame).value;
    assert Conforms(c.op, c.data, frame);
    EncodeConforms(c.op, c.data);
    ConformsUnique(c.op, c.data, frame, Encode(c.op, c.data));
  }

  /** Two well-formed commands with the same frame are the same command. */
  lemma {:induction false} EncodeInjective(c: Command, d: Command)
    requires WellFormed(c) && WellFormed(d)
    ensures Encode(c.op, c.data) == Encode(d.op, d.data) <==> c == d
  {
    if Encode(c.op, c.data) == Encode(d.op, d.data) {
      DecodeEncode(c.op, c.data);
      DecodeEncode(d.op, d.data);
      assert c.data[..Required(c.op)] == c.data;
      assert d.data[..Required(d.op)] == d.data;
    }
  }

  /** The frame depends only on data[..Required(op)]; later elements are never read. */
  lemma {:induction false} EncodeReadsOnlyPrefix(op: Op, data: seq<byte>, other: seq<byte>)
    requires |data| >= Required(op) && |other| >= Required(op)
    requires data[..Required(op)] == other[..Required(op)]
    ensures Encode(op, data) == Encode(op, other)
  {
    var n := Required(op);
    assert forall i :: 0 <= i < n ==> data[i] == data[..n][i] == other[..n][i] == other[i];
    EncodeConforms(op, data);
    EncodeConforms(op, other);
    ConformsUnique(op, data, Encode(op, data), Encode(op, other));
  }

  /** A frame whose data bytes occupy exactly the given slots follows the layout rule. */
  lemma SlotsConform(op: Op, data: seq<byte>, f: seq<byte>, slots: seq<nat>)
    requires Layout(op) == slots && |data| >= |slots|
    requires |f| == FrameSize && f[0] == Opcode(op)
    requires forall i :: 0 <= i < |slots| ==> slots[i] < FrameSize && f[slots[i]] == data[i]
    requires forall k :: 1 <= k < FrameSize && k !in slots ==> f[k] == 0
    ensures Conforms(op, data, f)
  {
  }

  /** The argument-less message lists follow the layout rule. */
  lemma ZeroArgConforms(op: Op, data: seq<byte>)
    requires op in ZeroArgOps
    ensures Conforms(op, data, Encode(op, data))
  {
    ZeroArgFrame(op, data);
    assert Layout(op) == [];
    SlotsConform(op, data, [Opcode(op), 0x00, 0x00, 0x00, 0x00, 0x00, 0x00, 0x00], []);
  }

  /** The six-byte message lists follow the layout rule. */
  lemma SixByteConforms(op: Op, data: seq<byte>)
    requires op in {WritePidRam, WritePidRom, PositionClosedLoop2} && |data| >= 6
    ensures Conforms(op, data, Encode(op, data))
  {
    SlotsConform(op, data, Encode(op, data), [2, 3, 4, 5, 6, 7]);
  }

  /** The four-byte message lists follow the layout rule. */
  lemma FourByteConforms(op: Op, data: seq<byte>)
    requires op in {WriteAccelerationRam, SpeedClosedLoop, PositionClosedLoop1} && |data| >= 4
    ensures Conforms(op, data, Encode(op, data))
  {
    SlotsConform(op, data, Encode(op, data), [4, 5, 6, 7]);
  }

  /** The thirteen query and state commands send their opcode and seven zero bytes. */
  lemma ZeroArgFrame(op: Op, data: seq<byte>)
    requires op in ZeroArgOps
    ensures Required(op) == 0
    ensures Encode(op, data) == [Opcode(op), 0x00, 0x00, 0x00, 0x00, 0x00, 0x00, 0x00]
  {
  }

  /** The PID writes and position loop 2 put six data bytes at offsets 2..7 behind a zero byte 1. */
  lemma SixByteFrame(op: Op, data: seq<byte>)
    requires op in {WritePidRam, WritePidRom, PositionClosedLoop2}
    requires |data| >= 6
    ensures Required(op) == 6
    ensures Encode(op, data)[1] == 0x00 && Encode(op, data)[2..] == data[..6]
  {
  }

  /** The acceleration write, speed loop and position loop 1 put four data bytes at offsets 4..7. */
  lemma FourByteFrame(op: Op, data: seq<byte>)
    requires op in {WriteAccelerationRam, SpeedClosedLoop, PositionClosedLoop1}
    requires |data| >= 4
    ensures Required(op) == 4
    ensures Encode(op, data)[1..4] == [0x00, 0x00, 0x00] && Encode(op, data)[4..] == data[..4]
  {
  }

  /** The torque loop puts two data bytes at offsets 4..5 with zeros either side. */
  lemma TorqueFrame(data: seq<byte>)
    requires |data| >= 2
    ensures Required(TorqueClosedLoop) == 2
    ensures Encode(TorqueClosedLoop, data)[1..4] == [0x00, 0x00, 0x00]
    ensures Encode(TorqueClosedLoop, data)[4..6] == data[..2]
    ensures Encode(TorqueClosedLoop, data)[6..] == [0x00, 0x00]
  {
  }

  /** The encoder offset write puts two data bytes at offsets 6..7 after five zeros. */
  lemma EncoderOffsetFrame(data: seq<byte>)
    requires |data| >= 2
    ensures Required(WriteEncoderOffset) == 2
    ensures Encode(WriteEncoderOffset, data)[1..6] == [0x00, 0x00, 0x00, 0x00, 0x00]
    ensures Encode(WriteEncoderOffset, data)[6..] == data[..2]
  {
  }

  /** Position loop 3 splits its data: data[0] at offset 1, data[1..3] at offsets 4..5. */
  lemma PositionLoop3Frame(data: seq<byte>)
    requires |data| >= 3
    ensures Required(PositionClosedLoop3) == 3
    ensures Encode(PositionClosedLoop3, data)[1] == data[0]
    ensures Encode(PositionClosedLoop3, data)[2..4] == [0x00, 0x00]
    ensures Encode(PositionClosedLoop3, data)[4..6] == data[1..3]
    ensures Encode(PositionClosedLoop3, data)[6..] == [0x00, 0x00]
  {
  }

  /** Position loop 4 puts five data bytes at offsets 1..5 and zeros at 6..7. */
  lemma PositionLoop4Frame(data: seq<byte>)
    requires |data| >= 5
    ensures Required(PositionClosedLoop4) == 5
    ensures Encode(PositionClosedLoop4, data)[1..6] == data[..5]
    ensures Encode(PositionClosedLoop4, data)[6..] == [0x00, 0x00]
  {
  }

  /** Two byte-exact sample frames of the protocol. */
  lemma SampleFrames()
    ensures Encode(WriteEncoderOffset, [0x12, 0x34]) == [0x91, 0x00, 0x00, 0x00, 0x00, 0x00, 0x12, 0x34]
    ensures Encode(PositionClosedLoop3, [0xAA, 0x01, 0x02]) == [0xA5, 0xAA, 0x00, 0x00, 0x01, 0x02, 0x00, 0x00]
  {
  }
}
