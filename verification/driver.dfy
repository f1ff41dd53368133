/**
 * The driver object around the encoder: a motor link holding its arbitration
 * identifier and, once set up, a bus. Every operation builds its frame, sends
 * it once, waits, and hands back whatever the bus receives next.
 */
module Driver {
  import opened Results
  import opened Protocol
  import opened Codec

  /** One frame put on the bus under a standard (non-extended) arbitration identifier. */
  datatype Transmission = Transmission(id: nat, payload: seq<byte>)

  /**
   * What the driver can observe of a CAN bus: the outcome of each transmission
   * it will still be asked for, oldest first (true when python-can's send
   * returns, false when it raises), the frames sent on it so far, and the
   * frames waiting to be received, oldest first. Once the outcomes run out the
   * bus refuses every further transmission, as a bus that has gone down does.
   */
  datatype Bus = Bus(accepts: seq<bool>, sent: seq<Transmission>, inbound: seq<seq<byte>>)

  /** The driver object: its motor's identifier and the bus, absent until set up. */
  datatype MotorLink = MotorLink(identifier: nat, bus: Option<Bus>)

  /** The link after one call, and what the call returned to its caller. */
  datatype Exchange = Exchange(link: MotorLink, reply: Result<Option<seq<byte>>>)

  /** A freshly constructed driver has no bus: every call fails without transmitting. */
  function New(identifier: nat): (l: MotorLink)
    ensures l.identifier == identifier
    ensures !Ready(l) && Sent(l) == [] && Pending(l) == []
    ensures forall op, data :: Perform(l, op, data).reply.Err? && Perform(l, op, data).link == l
  {
    MotorLink(identifier, None)
  }

  /** The effect of a successful setup: the bus is stored on the driver, which keeps its identifier. */
  function Attach(link: MotorLink, bus: Bus): (l: MotorLink)
    ensures l.identifier == link.identifier
    ensures Sent(l) == bus.sent && Pending(l) == bus.inbound && Outcomes(l) == bus.accepts
    ensures Ready(l) <==> Accepting(bus)
  {
    link.(bus := Some(bus))
  }

  /** The bus accepts the next frame it is asked to transmit. */
  predicate Accepting(bus: Bus) {
    |bus.accepts| > 0 && bus.accepts[0]
  }

  /** A link that can transmit: a bus is attached and accepts the next frame. */
  predicate Ready(link: MotorLink) {
    link.bus.Some? && Accepting(link.bus.value)
  }

  /** The frames this link has put on its bus. */
  function Sent(link: MotorLink): seq<Transmission> {
    if link.bus.Some? then link.bus.value.sent else []
  }

  /** The frames waiting on this link's bus. */
  function Pending(link: MotorLink): seq<seq<byte>> {
    if link.bus.Some? then link.bus.value.inbound else []
  }

  /** The outcomes of the transmissions this link's bus will still be asked for. */
  function Outcomes(link: MotorLink): seq<bool> {
    if link.bus.Some? then link.bus.value.accepts else []
  }

  /** The outcomes left after one transmission attempt; an exhausted list stays exhausted. */
  function Consume(q: seq<bool>): seq<bool> {
    if |q| == 0 then [] else q[1..]
  }

  /** The reply a single receive yields: the oldest waiting frame, or None when none is waiting. */
  function NthPending(q: seq<seq<byte>>, i: nat): Option<seq<byte>> {
    if i < |q| then Some(q[i]) else None
  }

  /**
   * send_cmd: transmit the payload under the link's identifier, then receive
   * once. Every transmission attempt uses up one outcome of the bus. The
   * reply is the oldest waiting frame, or None when nothing is waiting; it is
   * not checked against the command that was sent.
   */
  function SendCmd(link: MotorLink, payload: seq<byte>): (x: Exchange)
    ensures x.link.identifier == link.identifier
    ensures x.link.bus.Some? <==> link.bus.Some?
    ensures x.reply.Ok? <==> Ready(link)
    ensures link.bus.None? ==> x.reply == Err(NotReady) && x.link == link
    ensures link.bus.Some? && !Accepting(link.bus.value) ==> x.reply == Err(TransportError)
    ensures link.bus.Some? ==> Outcomes(x.link) == Consume(Outcomes(link))
    ensures x.reply.Err? ==> Sent(x.link) == Sent(link) && Pending(x.link) == Pending(link)
    ensures x.reply.Ok? ==> Sent(x.link) == Sent(link) + [Transmission(link.identifier, payload)]
    ensures x.reply.Ok? ==> x.reply.value == NthPending(Pending(link), 0)
    ensures x.reply.Ok? && x.reply.value.None? ==> Pending(x.link) == []
    ensures x.reply.Ok? && x.reply.value.Some? ==> Pending(link) == [x.reply.value.value] + Pending(x.link)
  {
    match link.bus
    case None => Exchange(link, Err(NotReady))
    case Some(bus) =>
      var rest := Consume(bus.accepts);
      if !Accepting(bus) then Exchange(link.(bus := Some(bus.(accepts := rest))), Err(TransportError))
      else
        var log := bus.sent + [Transmission(link.identifier, payload)];
        if |bus.inbound| == 0 then
          Exchange(link.(bus := Some(bus.(accepts := rest, sent := log))), Ok(None))
        else
          Exchange(link.(bus := Some(bus.(accepts := rest, sent := log, inbound := bus.inbound[1..]))),
                   Ok(Some(bus.inbound[0])))
  }

  /**
   * One high-level driver method: build the operation's frame from the
   * caller's data list (failing as the list subscript does when the list is
   * too short, before the bus is touched) and return send_cmd's reply.
   */
  function Perform(link: MotorLink, op: Op, data: seq<byte>): (x: Exchange)
    ensures x.link.identifier == link.identifier
    ensures x.link.bus.Some? <==> link.bus.Some?
    ensures x.reply == Err(InvalidArgument) <==> |data| < Required(op)
    ensures x.reply == Err(InvalidArgument) ==> x.link == link
    ensures |data| >= Required(op) && link.bus.None? ==> x.reply == Err(NotReady) && x.link == link
    ensures |data| >= Required(op) && link.bus.Some? && !Accepting(link.bus.value) ==> x.reply == Err(TransportError)
    ensures |data| >= Required(op) ==> (x.reply.Ok? <==> Ready(link))
    ensures |data| >= Required(op) && link.bus.Some? ==> Outcomes(x.link) == Consume(Outcomes(link))
    ensures x.reply.Err? ==> Sent(x.link) == Sent(link) && Pending(x.link) == Pending(link)
    ensures x.reply.Ok? ==> Sent(x.link) == Sent(link) + [Transmission(link.identifier, Encode(op, data))]
    ensures x.reply.Ok? ==>
              Decode(Sent(x.link)[|Sent(link)|].payload) == Some(Command(op, data[..Required(op)]))
    ensures x.reply.Ok? ==> x.reply.value == NthPending(Pending(link), 0)
    ensures x.reply.Ok? && x.reply.value.None? ==> Pending(x.link) == []
    ensures x.reply.Ok? && x.reply.value.Some? ==> Pending(link) == [x.reply.value.value] + Pending(x.link)
  {
    if |data| < Required(op) then Exchange(link, Err(InvalidArgument))
    else
      DecodeEncode(op, data);
      SendCmd(link, Encode(op, data))
  }

  /** A command whose data list covers its layout; elements past the layout are ignored. */
  predicate Fits(c: Command) {
    |c.data| >= Required(c.op)
  }

  /** Every command's data list covers its layout. */
  predicate AllFit(cmds: seq<Command>) {
    forall i :: 0 <= i < |cmds| ==> Fits(cmds[i])
  }

  /** The transmission a command produces under identifier `id`. */
  function FrameOf(id: nat, c: Command): Transmission
    requires Fits(c)
  {
    Transmission(id, Encode(c.op, c.data))
  }

  /** The frames a script of commands puts on the bus, in order. */
  function Frames(id: nat, cmds: seq<Command>): (r: seq<Transmission>)
    requires AllFit(cmds)
    ensures |r| == |cmds|
  {
    if |cmds| == 0 then [] else [FrameOf(id, cmds[0])] + Frames(id, cmds[1..])
  }

  /** Concatenation regroups freely; stated generically to keep it cheap to use. */
  lemma AppendAssoc<T>(a: seq<T>, b: seq<T>, c: seq<T>)
    ensures a + b + c == a + (b + c)
  {
  }

  /** After a call that received, the i-th waiting frame is the one that was (i + 1)-th before. */
  lemma PendingShift(before: MotorLink, after: MotorLink, received: Option<seq<byte>>)
    requires received == NthPending(Pending(before), 0)
    requires received.None? ==> Pending(after) == []
    requires received.Some? ==> Pending(before) == [received.value] + Pending(after)
    ensures forall i: nat :: NthPending(Pending(after), i) == NthPending(Pending(before), i + 1)
  {
  }

  /** The number of transmissions a bus accepts before it first refuses one. */
  function Accepted(q: seq<bool>): (n: nat)
    ensures n <= |q|
    ensures forall i :: 0 <= i < n ==> q[i]
    ensures n < |q| ==> !q[n]
  {
    if |q| == 0 || !q[0] then 0 else 1 + Accepted(q[1..])
  }

  /** How many calls of a script get their frame onto the link's bus before a refusal. */
  function Completed(link: MotorLink, cmds: seq<Command>): nat {
    var a := Accepted(Outcomes(link));
    if a < |cmds| then a else |cmds|
  }

  /** The state after a script of calls, and the return value of every call made. */
  datatype Session = Session(link: MotorLink, replies: seq<Result<Option<seq<byte>>>>)

  /**
   * The outcome of a script run from `before` on an attached bus: the calls
   * whose frames the bus accepts all return, the bus log gains exactly their
   * frames in order, and the i-th of them returns the i-th frame that was
   * waiting; the first refused frame, if the script reaches one, ends the
   * script with a transport error and is not logged.
   */
  predicate Logged(before: MotorLink, cmds: seq<Command>, s: Session)
    requires AllFit(cmds)
  {
    var n := Completed(before, cmds);
    && s.link.bus.Some?
    && |s.replies| == (if n < |cmds| then n + 1 else n)
    && Sent(s.link) == Sent(before) + Frames(before.identifier, cmds[..n])
    && (forall i :: 0 <= i < n ==> s.replies[i] == Ok(NthPending(Pending(before), i)))
    && (n < |cmds| ==> s.replies[n] == Err(TransportError))
  }

  /** A script whose first frame the bus refuses ends there, with nothing logged. */
  lemma ScriptRefused(link: MotorLink, cmds: seq<Command>, first: Exchange)
    requires |cmds| > 0 && link.bus.Some? && AllFit(cmds)
    requires first == Perform(link, cmds[0].op, cmds[0].data)
    requires first.reply.Err?
    ensures Logged(link, cmds, Session(first.link, [first.reply]))
  {
    assert Fits(cmds[0]);
    assert Frames(link.identifier, cmds[..0]) == [];
    assert Sent(link) + [] == Sent(link);
  }

  /**
   * What a successful call of command `c` did to a link: the bus accepted the
   * frame, logged it under the link's identifier, used up one outcome, and the
   * reply was the oldest waiting frame, which left the queue.
   */
  predicate Delivered(link: MotorLink, c: Command, first: Exchange)
    requires Fits(c)
  {
    && first.reply.Ok?
    && Ready(link)
    && first.link.identifier == link.identifier
    && first.link.bus.Some?
    && Outcomes(first.link) == Outcomes(link)[1..]
    && Sent(first.link) == Sent(link) + [FrameOf(link.identifier, c)]
    && first.reply.value == NthPending(Pending(link), 0)
    && (first.reply.value.None? ==> Pending(first.link) == [])
    && (first.reply.value.Some? ==> Pending(link) == [first.reply.value.value] + Pending(first.link))
  }

  /** A call that succeeds is delivered in the sense above. */
  lemma PerformDelivers(link: MotorLink, c: Command)
    requires Fits(c)
    ensures Perform(link, c.op, c.data).reply.Ok? ==> Delivered(link, c, Perform(link, c.op, c.data))
  {
  }

  /** A call whose frame the bus accepts adds one to the calls the script completes. */
  lemma CompletedStep(link: MotorLink, cmds: seq<Command>, first: Exchange)
    requires |cmds| > 0 && Fits(cmds[0]) && Delivered(link, cmds[0], first)
    ensures Completed(link, cmds) == 1 + Completed(first.link, cmds[1..])
  {
  }

  /** The frames of a nonempty script prefix: the first command's frame, then the rest's. */
  lemma FramesFirst(id: nat, cmds: seq<Command>, n: nat)
    requires AllFit(cmds) && 0 < n <= |cmds|
    ensures AllFit(cmds[1..][..n - 1])
    ensures Frames(id, cmds[..n]) == [FrameOf(id, cmds[0])] + Frames(id, cmds[1..][..n - 1])
  {
    assert cmds[..n][1..] == cmds[1..][..n - 1];
    assert cmds[..n][0] == cmds[0];
  }

  /**
   * One step of a script on an attached bus: if the first call succeeds and
   * the rest of the script, run after it, behaves as `Logged` says, then so
   * does the whole script.
   */
  lemma ScriptStep(link: MotorLink, cmds: seq<Command>, first: Exchange, rest: Session)
    requires |cmds| > 0 && AllFit(cmds) && Delivered(link, cmds[0], first)
    requires AllFit(cmds[1..]) && Logged(first.link, cmds[1..], rest)
    ensures Logged(link, cmds, Session(rest.link, [first.reply] + rest.replies))
  {
    CompletedStep(link, cmds, first);
    StepSent(link, cmds, first, rest);
    StepReplies(link, cmds, first, rest);
  }

  /** The bus log of a script whose first call succeeded: that call's frame, then the rest's. */
  lemma StepSent(link: MotorLink, cmds: seq<Command>, first: Exchange, rest: Session)
    requires |cmds| > 0 && AllFit(cmds) && Delivered(link, cmds[0], first)
    requires AllFit(cmds[1..]) && Logged(first.link, cmds[1..], rest)
    ensures Sent(rest.link) == Sent(link) + Frames(link.identifier, cmds[..Completed(link, cmds)])
  {
    var id := link.identifier;
    var n := Completed(link, cmds);
    CompletedStep(link, cmds, first);
    FramesFirst(id, cmds, n);
    AppendAssoc(Sent(link), [FrameOf(id, cmds[0])], Frames(id, cmds[1..][..n - 1]));
  }

  /** The replies of a script whose first call succeeded: that call's reply, then the rest's, shifted by one. */
  lemma StepReplies(link: MotorLink, cmds: seq<Command>, first: Exchange, rest: Session)
    requires |cmds| > 0 && AllFit(cmds) && Delivered(link, cmds[0], first)
    requires AllFit(cmds[1..]) && Logged(first.link, cmds[1..], rest)
    ensures var n := Completed(link, cmds);
            var r := [first.reply] + rest.replies;
            && |r| == (if n < |cmds| then n + 1 else n)
            && (forall i :: 0 <= i < n ==> r[i] == Ok(NthPending(Pending(link), i)))
            && (n < |cmds| ==> r[n] == Err(TransportError))
  {
    var n := Completed(link, cmds);
    var r := [first.reply] + rest.replies;
    CompletedStep(link, cmds, first);
    assert |rest.replies| == (if n - 1 < |cmds| - 1 then n else n - 1);
    PendingShift(link, first.link, first.reply.value);
    forall i | 0 <= i < n
      ensures r[i] == Ok(NthPending(Pending(link), i))
    {
      if i > 0 {
        assert r[i] == rest.replies[i - 1];
      }
    }
    if n < |cmds| {
      assert r[n] == rest.replies[n - 1];
    }
  }

  /**
   * Issues the commands one after another on the same link. A failed call
   * ends the script, as the exception it stands for would; its error is the
   * last reply.
   */
  function Run(link: MotorLink, cmds: seq<Command>): (s: Session)
    ensures s.link.identifier == link.identifier
    ensures |s.replies| <= |cmds|
    ensures |cmds| > 0 ==> |s.replies| > 0
    ensures forall i :: 0 <= i < |s.replies| - 1 ==> s.replies[i].Ok?
    ensures |s.replies| < |cmds| ==> s.replies[|s.replies| - 1].Err?
    decreases |cmds|
  {
    if |cmds| == 0 then Session(link, [])
    else
      var first := Perform(link, cmds[0].op, cmds[0].data);
      if first.reply.Err? then Session(first.link, [first.reply])
      else
        var rest := Run(first.link, cmds[1..]);
        Session(rest.link, [first.reply] + rest.replies)
  }

  /**
   * A script on an attached bus with long enough data lists runs until the
   * bus first refuses a frame, however many frames it accepted before: each
   * accepted call appends exactly its encoded frame in call order and the
   * i-th returns the i-th frame that was waiting, whatever command it
   * answers; the refused call, if the script reaches one, ends it with a
   * transport error.
   */
  lemma {:induction false} RunLogged(link: MotorLink, cmds: seq<Command>)
    requires link.bus.Some? && AllFit(cmds)
    ensures Logged(link, cmds, Run(link, cmds))
    decreases |cmds|
  {
    if |cmds| == 0 {
      assert Frames(link.identifier, cmds[..0]) == [];
    } else {
      var first := Perform(link, cmds[0].op, cmds[0].data);
      if first.reply.Err? {
        ScriptRefused(link, cmds, first);
      } else {
        PerformDelivers(link, cmds[0]);
        RunLogged(first.link, cmds[1..]);
        ScriptStep(link, cmds, first, Run(first.link, cmds[1..]));
      }
    }
  }

  /**
   * A bus that accepts one frame and refuses the next: the second call of a
   * two-call script fails with a transport error after the first was logged.
   */
  lemma SampleRefusal(id: nat)
    ensures var link := MotorLink(id, Some(Bus([true, false], [], [])));
            var s := Run(link, [Command(MotorStop, []), Command(MotorRun, [])]);
            && s.replies == [Ok(None), Err(TransportError)]
            && Sent(s.link) == [Transmission(id, Encode(MotorStop, []))]
  {
    var link := MotorLink(id, Some(Bus([true, false], [], [])));
    var cmds := [Command(MotorStop, []), Command(MotorRun, [])];
    assert AllFit(cmds);
    RunLogged(link, cmds);
    assert Completed(link, cmds) == 1;
    assert cmds[..1] == [Command(MotorStop, [])];
  }
}
