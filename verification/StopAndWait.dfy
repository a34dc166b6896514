// pc_tool/src/tm4c_ota/transport.py and client.py against the update engine: the
// stop-and-wait exchange over two FIFO channels that may lose any frame. A
// frame damaged on the line is a lost frame.

module StopAndWait {
  import opened Bytes
  import opened Flash
  import opened Crc32
  import opened Image
  import opened Metadata
  import opened Update
  import opened Session

  const ATTEMPTS: int := 4

  // ---- What the client sends ----

  /** An image that the client has checked, for the slot that is not active. */
  datatype Job = Job(slot: u8, header: Header, payload: seq<u8>, first: u16)

  predicate JobOk(job: Job) {
    && IsSlot(job.slot) && HeaderOk(job.header, job.slot)
    && 0 < |job.payload| <= PAYLOAD_MAX && PayloadSize(job.header) == |job.payload|
  }

  function Chunks(job: Job): nat { (|job.payload| + CHUNK_MAX - 1) / CHUNK_MAX }

  /** Payload bytes in the first i chunks. */
  function Covered(job: Job, i: nat): nat {
    if CHUNK_MAX * i < |job.payload| then CHUNK_MAX * i else |job.payload|
  }

  function Chunk(job: Job, i: nat): (c: Payload) {
    job.payload[Covered(job, i)..Covered(job, i + 1)]
  }

  /** Requests are numbered: 0 asks for the device information, 1 starts the
      update, and 2 + i carries chunk i. */
  function Number(job: Job, j: nat): u16 { (job.first + j) % 0x1_0000 }

  function Req(job: Job, j: nat): Request {
    if j == 0 then Request(GET_INFO, Number(job, j), [])
    else if j == 1 then Request(START_UPDATE, Number(job, j), job.header)
    else Request(DATA, Number(job, j), Chunk(job, j - 2))
  }

  /** The number behind the last chunk. */
  function Last(job: Job): nat { Chunks(job) + 2 }

  lemma NumbersDiffer(job: Job, j: nat)
    ensures Number(job, j + 1) != Number(job, j)
    ensures Number(job, j + 1) == Succ16(Number(job, j))
  {
  }

  lemma ChunkFacts(job: Job, i: nat)
    requires 0 < |job.payload| && i < Chunks(job)
    ensures Covered(job, i) == CHUNK_MAX * i && 0 < |Chunk(job, i)| <= CHUNK_MAX
    ensures Covered(job, i + 1) == Covered(job, i) + |Chunk(job, i)|
    ensures |Chunk(job, i)| == CHUNK_MAX || Covered(job, i + 1) == |job.payload|
    ensures job.payload[..Covered(job, i)] + Chunk(job, i) == job.payload[..Covered(job, i + 1)]
  {
  }

  lemma CoveredFits(job: Job, i: nat)
    ensures Covered(job, i) <= |job.payload|
  {
  }

  lemma AllCovered(job: Job)
    ensures Covered(job, Chunks(job)) == |job.payload|
  {
  }

  // ---- One request of the transport ----

  /** SerialTransport.request reads a reply per attempt, or nothing in time. */
  datatype Verdict = Accepted | Refused | Exhausted

  predicate Matches(q: Request, r: Reply) { r.sequence == q.sequence && r.command == q.command }

  /** The first decisive reply among those of the attempts. */
  function FirstDecisive(q: Request, replies: seq<Option<Reply>>): Verdict {
    if replies == [] then Exhausted
    else if replies[0].Some? && Matches(q, replies[0].value) then
      if replies[0].value.Ack? then Accepted else Refused
    else FirstDecisive(q, replies[1..])
  }

  /** The loop over the attempts: a reply that does not match uses one up. */
  method RequestLoop(q: Request, replies: seq<Option<Reply>>) returns (verdict: Verdict, sent: nat)
    requires |replies| == 4
    ensures verdict == FirstDecisive(q, replies)
    ensures 1 <= sent <= 4
    ensures verdict == Exhausted ==>
      sent == 4 && forall i :: 0 <= i < 4 ==> !(replies[i].Some? && Matches(q, replies[i].value))
    ensures verdict != Exhausted ==>
      replies[sent - 1].Some? && Matches(q, replies[sent - 1].value)
      && (verdict == Accepted <==> replies[sent - 1].value.Ack?)
      && forall i :: 0 <= i < sent - 1 ==> !(replies[i].Some? && Matches(q, replies[i].value))
  {
    sent := 0;
    while sent < ATTEMPTS
      invariant 0 <= sent <= ATTEMPTS
      invariant FirstDecisive(q, replies) == FirstDecisive(q, replies[sent..])
      invariant forall i :: 0 <= i < sent ==> !(replies[i].Some? && Matches(q, replies[i].value))
    {
      var reply := replies[sent];
      assert replies[sent..][1..] == replies[sent + 1..];
      sent := sent + 1;
      if reply.Some? && Matches(q, reply.value) {
        return if reply.value.Ack? then Accepted else Refused, sent;
      }
    }
    verdict := Exhausted;
  }

  // ---- The exchange ----

  /** A reply on its way, with the number of the request it answers. */
  datatype Answer = Answer(index: nat, reply: Reply)

  datatype Net = Net(
    t: Transfer, toDevice: seq<nat>, toClient: seq<Answer>,
    cur: nat, attempts: nat, waiting: bool, failed: bool,
    // How many requests have been accepted, and the chunks programmed, in order.
    accepted: nat, programmed: seq<nat>)

  datatype Action =
    | Send
    | Deliver
    | DropRequest(i: nat)
    | DropReply(i: nat)
    | Receive
    | GiveUp
    | PollAt(now: u32)
    | Noted(now: u32)

  function Without<T>(s: seq<T>, i: nat): seq<T>
    requires i < |s|
  {
    s[..i] + s[i + 1..]
  }

  /** The engine handles the request at the head of its queue. */
  function Delivered(job: Job, s: Net): Net
    requires s.toDevice != []
  {
    var j := s.toDevice[0];
    var f := Handle(s.t.engine, s.t.mem, Req(job, j));
    s.(t := Advance(s.t, Req(job, j)),
       toDevice := s.toDevice[1..],
       toClient := s.toClient + [Answer(j, f.reply)],
       accepted := if f.reply.Ack? && j == s.accepted then s.accepted + 1 else s.accepted,
       programmed := if j >= 2 && f.steps != [] then s.programmed + [j - 2] else s.programmed)
  }

  /** The client takes the reply at the head of its queue. */
  function Taken(job: Job, s: Net): Net
    requires s.toClient != []
  {
    var r, rest := s.toClient[0].reply, s.toClient[1..];
    if !Matches(Req(job, s.cur), r) then s.(toClient := rest, waiting := false)
    else if r.Ack? then s.(toClient := rest, waiting := false, attempts := 0, cur := s.cur + 1)
    else s.(toClient := rest, waiting := false, failed := true)
  }

  function Next(job: Job, s: Net, a: Action): Net {
    match a
    case Send =>
      if !s.waiting && !s.failed && s.attempts < ATTEMPTS && s.cur < Last(job)
      then s.(toDevice := s.toDevice + [s.cur], attempts := s.attempts + 1, waiting := true)
      else s
    case Deliver => if s.toDevice != [] then Delivered(job, s) else s
    case DropRequest(i) => if i < |s.toDevice| then s.(toDevice := Without(s.toDevice, i)) else s
    case DropReply(i) => if i < |s.toClient| then s.(toClient := Without(s.toClient, i)) else s
    case Receive => if s.waiting && s.toClient != [] then Taken(job, s) else s
    case GiveUp => s.(waiting := false)
    case PollAt(now) => s.(t := s.t.(engine := Poll(s.t.engine, now)))
    case Noted(now) => s.(t := s.t.(engine := s.t.engine.(lastActivity := now)))
  }

  function Run(job: Job, s: Net, actions: seq<Action>): Net
    decreases |actions|
  {
    if actions == [] then s else Run(job, Next(job, s, actions[0]), actions[1..])
  }

  // ---- The device's side ----

  function Stored(job: Job, accepted: nat): nat { if accepted < 2 then 0 else Covered(job, accepted - 2) }

  /** The engine remembers the last chunk it took. */
  predicate Remembers(job: Job, e: Engine, accepted: nat) {
    && e.nextSequence == Number(job, accepted)
    && (e.haveLast <==> accepted > 2)
    && (accepted > 2 ==>
          && e.lastSequence == Number(job, accepted - 1)
          && e.lastLength == |Chunk(job, accepted - 3)| && e.lastCrc == Crc(Chunk(job, accepted - 3)))
  }

  /** After `accepted` requests: the flash holds that much of the payload; while
      the transfer is alive the engine waits for exactly the next chunk. */
  ghost predicate Device(job: Job, t: Transfer, accepted: nat) {
    && JobOk(job) && job.slot != t.engine.metadata.active && accepted <= Last(job)
    && PrefixOk(t) && t.engine.state != ReadyToBoot
    && (accepted >= 2 ==>
          && t.engine.header == job.header
          && t.accepted == job.payload[..Stored(job, accepted)]
          && t.mem[PayloadStart(job.slot)..PayloadStart(job.slot) + Stored(job, accepted)] == t.accepted
          && (t.engine.state == Receiving ==> ChunksOk(t) && Remembers(job, t.engine, accepted)))
  }

  lemma DeviceFacts(job: Job, t: Transfer, accepted: nat)
    requires Device(job, t, accepted)
    ensures JobOk(job) && job.slot != t.engine.metadata.active && accepted <= Last(job)
    ensures PrefixOk(t) && EngineOk(t.engine) && t.engine.state != ReadyToBoot
    ensures accepted >= 2 ==>
      t.engine.header == job.header && t.accepted == job.payload[..Stored(job, accepted)]
      && (t.engine.state == Receiving ==> ChunksOk(t) && Remembers(job, t.engine, accepted))
  {
    hide JobOk, TransferOk, ChunksOk, Remembers, Stored, Sound, GoodTarget;
  }

  /** The information request, and anything in a transfer that has timed out,
      changes neither the flash nor the place in the transfer. */
  lemma InfoDelivered(job: Job, t: Transfer, accepted: nat)
    requires Device(job, t, accepted)
    ensures var q := Req(job, 0);
      && Advance(t, q) == t && Handle(t.engine, t.mem, q).reply.Ack?
      && Device(job, Advance(t, q), accepted)
  {
    hide Device;
    ReplayNone(t.mem);
    assert ErasedBy([]) == {};
    assert t.erased + {} == t.erased;
  }

  lemma DeadDelivered(job: Job, t: Transfer, accepted: nat, j: nat)
    requires Device(job, t, accepted) && t.engine.state != Receiving && j >= 2
    ensures var q := Req(job, j);
      && Handle(t.engine, t.mem, q).reply.Nack? && Handle(t.engine, t.mem, q).steps == []
      && Device(job, Advance(t, q), accepted)
  {
    hide JobOk, ChunksOk, Remembers, Stored, Sound, GoodTarget, Replay, Crc, Chunk, Number, Last;
    ReplayNone(t.mem);
    assert ErasedBy([]) == {};
    assert t.erased + {} == t.erased;
  }

  lemma PollDevice(job: Job, t: Transfer, accepted: nat, now: u32)
    requires Device(job, t, accepted)
    ensures Device(job, t.(engine := Poll(t.engine, now)), accepted)
    ensures Device(job, t.(engine := t.engine.(lastActivity := now)), accepted)
  {
    hide JobOk, Stored, Sound, PointerOk, HeaderOk, PayloadSize, Remembers, Blank;
    var e1, e2 := Poll(t.engine, now), t.engine.(lastActivity := now);
    if t.engine.state == Receiving && accepted >= 2 {
      RemembersSame(job, t.engine, e2, accepted);
      RemembersSame(job, t.engine, if e1.state == Receiving then e1 else t.engine, accepted);
    }
  }

  lemma RemembersSame(job: Job, e: Engine, e': Engine, accepted: nat)
    requires Remembers(job, e, accepted)
    requires e'.nextSequence == e.nextSequence && e'.haveLast == e.haveLast && e'.lastSequence == e.lastSequence
    requires e'.lastLength == e.lastLength && e'.lastCrc == e.lastCrc
    ensures Remembers(job, e', accepted)
  {
    hide Crc, Chunk, Number;
  }

  /** START, also when it is repeated before any chunk has been taken. */
  lemma StartDelivered(job: Job, t: Transfer, accepted: nat)
    requires Device(job, t, accepted) && 1 <= accepted <= 2
    ensures var q := Req(job, 1);
      Handle(t.engine, t.mem, q).reply.Ack? && Device(job, Advance(t, q), 2)
  {
    hide Device, ChunksOk, Remembers, Stored, PrefixOk, Handle, Advance, Number;
    DeviceFacts(job, t, accepted);
    var q := Req(job, 1);
    StartAccepted(job, t.engine, t.mem, q);
    StartFresh(job, t, q);
  }

  lemma StartAccepted(job: Job, e: Engine, m: Memory, q: Request)
    requires JobOk(job) && job.slot != e.metadata.active && EngineOk(e) && q == Req(job, 1)
    ensures !RefusedMidTransfer(e, q)
    ensures var f := Handle(e, m, q);
      && f.reply == Ack(START_UPDATE, q.sequence)
      && f.engine == e.(header := job.header, state := Receiving, received := 0,
                        nextSequence := Number(job, 2), haveLast := false, lastError := NoError)
  {
    hide HeaderOk, RangeAllowed, EraseSteps, Sound, Number;
    HeaderSize(job.header, job.slot);
    TargetOpens(job.slot, e.metadata.active);
    NumbersDiffer(job, 1);
  }

  lemma StartFresh(job: Job, t: Transfer, q: Request)
    requires JobOk(job) && job.slot != t.engine.metadata.active && PrefixOk(t) && q == Req(job, 1)
    requires !RefusedMidTransfer(t.engine, q)
    requires var f := Handle(t.engine, t.mem, q);
      && f.reply == Ack(START_UPDATE, q.sequence)
      && f.engine == t.engine.(header := job.header, state := Receiving, received := 0,
                               nextSequence := Number(job, 2), haveLast := false, lastError := NoError)
    ensures Device(job, Advance(t, q), 2)
  {
    hide Handle, PrefixOk, Replay, ErasedBy, Number, HeaderOk, RefusedMidTransfer;
    assert Target(job.header) == job.slot by { HeaderSize(job.header, job.slot); }
    StartClears(t, q);
    var t' := Advance(t, q);
    assert t'.accepted == [] && t'.engine.received == 0;
    EmptyChunks(t');
    assert job.payload[..Stored(job, 2)] == [];
    assert t'.mem[PayloadStart(job.slot)..PayloadStart(job.slot) + 0] == [];
    assert Remembers(job, t'.engine, 2);
  }

  lemma EmptyChunks(t: Transfer)
    requires PrefixOk(t) && t.engine.state == Receiving && t.engine.received == 0
    ensures ChunksOk(t)
  {
    hide HeaderOk, PayloadSize, Sound;
  }

  /** A repetition of the chunk just taken is acknowledged, and nothing else
      happens. */
  lemma RepeatDelivered(job: Job, t: Transfer, accepted: nat)
    requires Device(job, t, accepted) && accepted > 2 && t.engine.state == Receiving
    ensures var q := Req(job, accepted - 1);
      && Handle(t.engine, t.mem, q).reply.Ack? && Handle(t.engine, t.mem, q).steps == []
      && Device(job, Advance(t, q), accepted)
  {
    hide JobOk, ChunksOk, Stored, PrefixOk, Replay, Crc, Chunk, Number, Last;
    ReplayNone(t.mem);
    assert ErasedBy([]) == {};
    assert t.erased + {} == t.erased;
    assert Advance(t, Req(job, accepted - 1)) == t;
  }

  /** A new chunk is never taken for a repetition: its number is one more than
      the last one. It is programmed, and the next one is awaited. */
  lemma ChunkDelivered(job: Job, t: Transfer, accepted: nat)
    requires Device(job, t, accepted) && 2 <= accepted < Last(job) && t.engine.state == Receiving
    ensures var q := Req(job, accepted);
      && Handle(t.engine, t.mem, q).reply.Ack? && Handle(t.engine, t.mem, q).steps != []
      && Device(job, Advance(t, q), accepted + 1)
  {
    hide Device, ChunksOk, PrefixOk, Handle, Advance, Chunk, Covered;
    DeviceFacts(job, t, accepted);
    var q, i := Req(job, accepted), accepted - 2;
    JobSize(job);
    ChunkFacts(job, i);
    CoveredFits(job, i);
    PrefixHolds(t);
    ChunkAwaited(job, t, q, accepted);
    ChunkAccepted(t, q);
    ChunkKept(job, t, q, accepted);
  }

  lemma ChunkAwaited(job: Job, t: Transfer, q: Request, accepted: nat)
    requires JobOk(job) && 2 <= accepted < Last(job) && q == Req(job, accepted)
    requires t.engine.header == job.header && t.engine.received == Covered(job, accepted - 2)
    requires Remembers(job, t.engine, accepted)
    ensures InSequence(t.engine, q) && !Duplicate(t.engine, q) && FullChunk(t.engine, q)
  {
    hide HeaderOk, PayloadSize, Crc, Covered, Chunk, Number;
    ChunkFacts(job, accepted - 2);
    CoveredFits(job, accepted - 1);
    if accepted > 2 { NumbersDiffer(job, accepted - 1); }
    assert |q.payload| <= |job.payload| - t.engine.received;
    assert Sub32(|job.payload|, t.engine.received) == |job.payload| - t.engine.received;
  }

  lemma ChunkKept(job: Job, t: Transfer, q: Request, accepted: nat)
    requires JobOk(job) && job.slot != t.engine.metadata.active && 2 <= accepted < Last(job) && q == Req(job, accepted)
    requires t.engine.header == job.header && t.accepted == job.payload[..Stored(job, accepted)]
    requires Remembers(job, t.engine, accepted) && !Duplicate(t.engine, q)
    requires Handle(t.engine, t.mem, q).reply.Ack?
    requires var t' := Advance(t, q);
      && t'.accepted == t.accepted + q.payload && t'.engine.state == Receiving
      && t'.engine.header == t.engine.header && ChunksOk(t')
    ensures Handle(t.engine, t.mem, q).steps != []
    ensures Device(job, Advance(t, q), accepted + 1)
  {
    hide ChunksOk, PrefixOk, Handle, Advance, Chunk, Covered, JobOk, Number, Crc, Duplicate;
    var t', i := Advance(t, q), accepted - 2;
    JobSize(job);
    ChunkFacts(job, i);
    TakenChunk(t, q);
    NumbersDiffer(job, accepted);
    PrefixHolds(t');
    TargetIs(job);
  }

  lemma JobSize(job: Job)
    requires JobOk(job)
    ensures 0 < |job.payload|
  {
  }

  lemma TargetIs(job: Job)
    requires JobOk(job)
    ensures Target(job.header) == job.slot
  {
    hide HeaderOk;
    HeaderSize(job.header, job.slot);
  }

  lemma PrefixHolds(t: Transfer)
    requires ChunksOk(t) && t.engine.state == Receiving
    ensures PrefixOk(t) && |t.accepted| == t.engine.received
    ensures var start := PayloadStart(Target(t.engine.header));
      start + |t.accepted| <= FLASH_END && t.mem[start..start + |t.accepted|] == t.accepted
  {
    hide HeaderOk, PayloadSize, Sound, PointerOk, TransferOk, GoodTarget;
  }

  lemma TakenChunk(t: Transfer, q: Request)
    requires q.command == DATA && !Duplicate(t.engine, q) && Handle(t.engine, t.mem, q).reply.Ack? && q.payload != []
    ensures var f, e' := Handle(t.engine, t.mem, q), Advance(t, q).engine;
      && f.steps != []
      && e'.nextSequence == Succ16(t.engine.nextSequence) && e'.haveLast
      && e'.lastSequence == q.sequence && e'.lastLength == |q.payload| && e'.lastCrc == Crc(q.payload)
      && e'.metadata == t.engine.metadata
  {
    hide Duplicate, Crc, PayloadSize, Replay, ErasedBy, DataSteps;
    if WriteSucceeds(t.engine, t.mem, q) { ReadBack(t.engine, t.mem, q); }
  }

  // ---- The invariant of the exchange ----

  predicate Sorted(js: seq<nat>) { forall a, b :: 0 <= a < b < |js| ==> js[a] <= js[b] }

  function Indexes(answers: seq<Answer>): (js: seq<nat>)
    ensures |js| == |answers|
    ensures forall a :: 0 <= a < |answers| ==> js[a] == answers[a].index
  {
    seq(|answers|, a requires 0 <= a < |answers| => answers[a].index)
  }

  /** Every queued number is the current one or the one before. */
  predicate Recent(js: seq<nat>, cur: nat) {
    forall a :: 0 <= a < |js| ==> js[a] == cur || js[a] + 1 == cur
  }

  /** Only the current number is left. */
  predicate AllCurrent(js: seq<nat>, cur: nat) { forall a :: 0 <= a < |js| ==> js[a] == cur }

  /** An answer carries the number and command of the request it answers; a
      positive answer to the current request means that it has been accepted. */
  predicate Answers(job: Job, answers: seq<Answer>, cur: nat, accepted: nat) {
    forall a :: 0 <= a < |answers| ==>
      && Matches(Req(job, answers[a].index), answers[a].reply)
      && (answers[a].index == cur && answers[a].reply.Ack? ==> accepted == cur + 1)
  }

  ghost predicate Inv(job: Job, s: Net) {
    && Device(job, s.t, s.accepted)
    && s.cur <= Last(job) && s.cur <= s.accepted <= s.cur + 1
    && Sorted(s.toDevice) && Recent(s.toDevice, s.cur)
    && Sorted(Indexes(s.toClient)) && Recent(Indexes(s.toClient), s.cur)
    && (s.cur in Indexes(s.toClient) || s.accepted == s.cur + 1 ==> AllCurrent(s.toDevice, s.cur))
    && (s.cur == Last(job) ==> s.cur !in s.toDevice)
    && Answers(job, s.toClient, s.cur, s.accepted)
    && s.programmed == Programmed(s.accepted)
  }

  function Counting(n: nat): seq<nat> { seq(n, i => i) }

  function Programmed(accepted: nat): seq<nat> { Counting(if accepted < 2 then 0 else accepted - 2) }

  /** The number at the head of the queue, and how it stands to the accepted. */
  lemma HeadFacts(job: Job, s: Net)
    requires Inv(job, s) && s.toDevice != []
    ensures var j := s.toDevice[0];
      && (j == s.cur || j + 1 == s.cur)
      && (j == s.accepted || j + 1 == s.accepted)
      && (j == s.accepted ==> j == s.cur && j < Last(job))
      && (j == s.cur ==> AllCurrent(s.toDevice[1..], s.cur))
      && (j < 2 ==> s.accepted <= 2)
  {
    hide Device, Answers, Req;
  }

  /** How a request that is current or one old moves the device: exactly a newly
      accepted chunk is programmed. */
  lemma DeviceMoves(job: Job, t: Transfer, accepted: nat, j: nat)
    requires Device(job, t, accepted)
    requires (j == accepted && j < Last(job)) || j + 1 == accepted
    requires j < 2 ==> accepted <= 2
    ensures var q := Req(job, j);
      var f := Handle(t.engine, t.mem, q);
      var accepted' := if f.reply.Ack? && j == accepted then accepted + 1 else accepted;
      && Device(job, Advance(t, q), accepted')
      && (j >= 2 ==> (f.steps != [] <==> accepted' != accepted))
  {
    hide Device, Req, Handle, Advance, Last;
    if j == 0 {
      InfoDelivered(job, t, accepted);
      if accepted == 0 { FirstTwo(job, t, accepted); }
    } else if j == 1 {
      StartDelivered(job, t, accepted);
    } else if t.engine.state != Receiving {
      DeadDelivered(job, t, accepted, j);
    } else if j == accepted {
      ChunkDelivered(job, t, accepted);
    } else {
      RepeatDelivered(job, t, accepted);
    }
  }

  lemma DeviceStep(job: Job, s: Net)
    requires Inv(job, s) && s.toDevice != []
    ensures var s' := Delivered(job, s);
      && Device(job, s'.t, s'.accepted)
      && s'.programmed == Programmed(s'.accepted)
      && s.accepted <= s'.accepted <= s.accepted + 1
      && (s'.accepted != s.accepted ==> s.toDevice[0] == s.accepted)
      && (Handle(s.t.engine, s.t.mem, Req(job, s.toDevice[0])).reply.Ack? && s.toDevice[0] == s.accepted ==>
            s'.accepted == s.accepted + 1)
  {
    hide Device, Answers, Req, Handle, Advance, Last, Inv, Programmed;
    HeadFacts(job, s);
    DeviceOf(job, s);
    DeviceMoves(job, s.t, s.accepted, s.toDevice[0]);
    ProgrammedGrows(s.accepted);
  }

  lemma ProgrammedGrows(accepted: nat)
    ensures Programmed(accepted + 1) ==
      if accepted < 2 then Programmed(accepted) else Programmed(accepted) + [accepted - 2]
  {
  }

  lemma DeviceOf(job: Job, s: Net)
    requires Inv(job, s)
    ensures Device(job, s.t, s.accepted) && s.programmed == Programmed(s.accepted)
    ensures s.cur <= s.accepted <= s.cur + 1 && s.cur <= Last(job)
  {
    hide Device, Answers, Req;
  }

  /** Before START has been accepted the place in the transfer does not matter. */
  lemma FirstTwo(job: Job, t: Transfer, accepted: nat)
    requires Device(job, t, accepted) && accepted == 0
    ensures Device(job, t, 1)
  {
    hide JobOk, PrefixOk, ChunksOk, Remembers;
  }

  lemma Echo(e: Engine, m: Memory, q: Request)
    ensures Matches(q, Handle(e, m, q).reply)
  {
    hide HeaderOk, RangeAllowed, Duplicate, InSequence, WriteSucceeds, WriteSteps, DataSteps, EndError, EndSteps,
      PendingRecord, EraseSteps;
  }

  lemma QueuesAfterDelivery(job: Job, s: Net, accepted': nat, reply: Reply)
    requires Inv(job, s) && s.toDevice != [] && Matches(Req(job, s.toDevice[0]), reply)
    requires s.accepted <= accepted' <= s.accepted + 1
    requires accepted' != s.accepted ==> s.toDevice[0] == s.accepted
    requires reply.Ack? && s.toDevice[0] == s.accepted ==> accepted' == s.accepted + 1
    ensures var js, answers := s.toDevice[1..], s.toClient + [Answer(s.toDevice[0], reply)];
      && s.cur <= accepted' <= s.cur + 1
      && Sorted(js) && Recent(js, s.cur)
      && Sorted(Indexes(answers)) && Recent(Indexes(answers), s.cur)
      && (s.cur in Indexes(answers) || accepted' == s.cur + 1 ==> AllCurrent(js, s.cur))
      && (s.cur == Last(job) ==> s.cur !in js)
      && Answers(job, answers, s.cur, accepted')
  {
    hide Device, Req, Matches, Last, Answers, Sorted, Recent, AllCurrent, Indexes;
    HeadFacts(job, s);
    var j := s.toDevice[0];
    if s.cur in Indexes(s.toClient) || s.accepted == s.cur + 1 { HeadCurrent(s.toDevice, s.cur); }
    TailKeeps(s.toDevice, s.cur);
    OneMoreAnswer(job, s.toClient, Answer(j, reply), s.cur, s.accepted, accepted');
  }

  lemma HeadCurrent(js: seq<nat>, cur: nat)
    requires js != [] && AllCurrent(js, cur)
    ensures js[0] == cur
  {
  }

  lemma TailKeeps(js: seq<nat>, cur: nat)
    requires js != []
    ensures Sorted(js) ==> Sorted(js[1..])
    ensures Recent(js, cur) ==> Recent(js[1..], cur)
    ensures cur in js[1..] ==> cur in js
  {
  }

  lemma OneMoreAnswer(job: Job, answers: seq<Answer>, a: Answer, cur: nat, accepted: nat, accepted': nat)
    requires Answers(job, answers, cur, accepted) && Matches(Req(job, a.index), a.reply)
    requires Sorted(Indexes(answers)) && Recent(Indexes(answers), cur)
    requires a.index == cur || a.index + 1 == cur
    requires cur in Indexes(answers) ==> a.index == cur
    requires accepted <= accepted' && (accepted == cur + 1 ==> accepted' == cur + 1)
    requires a.index == cur && a.reply.Ack? ==> accepted' == cur + 1
    ensures Answers(job, answers + [a], cur, accepted')
    ensures Sorted(Indexes(answers + [a])) && Recent(Indexes(answers + [a]), cur)
    ensures cur in Indexes(answers + [a]) ==> cur in Indexes(answers) || a.index == cur
  {
    hide Req, Matches;
    assert Indexes(answers + [a]) == Indexes(answers) + [a.index];
  }

  lemma DeliverKeeps(job: Job, s: Net)
    requires Inv(job, s) && s.toDevice != []
    ensures Inv(job, Delivered(job, s))
  {
    hide Device, Req, Matches, Last, Handle, Advance, Sorted, Recent, AllCurrent, Answers;
    DeviceStep(job, s);
    Echo(s.t.engine, s.t.mem, Req(job, s.toDevice[0]));
    QueuesAfterDelivery(job, s, Delivered(job, s).accepted, Handle(s.t.engine, s.t.mem, Req(job, s.toDevice[0])).reply);
  }

  lemma MatchesCurrent(job: Job, s: Net)
    requires Inv(job, s) && s.toClient != []
    ensures Matches(Req(job, s.cur), s.toClient[0].reply) <==> s.toClient[0].index == s.cur
    ensures s.toClient[0].index == s.cur && s.toClient[0].reply.Ack? ==>
      s.accepted == s.cur + 1 && AllCurrent(s.toDevice, s.cur) && AllCurrent(Indexes(s.toClient), s.cur)
  {
    hide Device, Chunk, Last;
    var j := s.toClient[0].index;
    assert Indexes(s.toClient)[0] == j;
    if j + 1 == s.cur { NumbersDiffer(job, j); }
    hide Number;
  }

  lemma ReceiveKeeps(job: Job, s: Net)
    requires Inv(job, s) && s.toClient != []
    ensures Inv(job, Taken(job, s))
  {
    hide Device, Req, Matches, Last, Sorted, Recent, AllCurrent, Answers, Indexes;
    MatchesCurrent(job, s);
    AnswerTail(job, s.toClient, s.cur, s.accepted);
    DeviceBound(job, s);
    if s.toClient[0].index == s.cur && s.toClient[0].reply.Ack? { NextRound(job, s); }
  }

  lemma AnswerTail(job: Job, answers: seq<Answer>, cur: nat, accepted: nat)
    requires answers != [] && Answers(job, answers, cur, accepted)
    ensures Answers(job, answers[1..], cur, accepted)
    ensures Sorted(Indexes(answers)) ==> Sorted(Indexes(answers[1..]))
    ensures Recent(Indexes(answers), cur) ==> Recent(Indexes(answers[1..]), cur)
    ensures cur in Indexes(answers[1..]) ==> cur in Indexes(answers)
  {
    hide Req, Matches;
    assert Indexes(answers[1..]) == Indexes(answers)[1..];
  }

  /** The queues when the client moves on to the next request. */
  lemma NextRound(job: Job, s: Net)
    requires s.toClient != [] && AllCurrent(s.toDevice, s.cur) && AllCurrent(Indexes(s.toClient), s.cur)
    requires Answers(job, s.toClient, s.cur, s.accepted) && s.accepted == s.cur + 1
    ensures var cur, rest := s.cur + 1, s.toClient[1..];
      && Recent(s.toDevice, cur) && cur !in s.toDevice
      && Recent(Indexes(rest), cur) && cur !in Indexes(rest)
      && Answers(job, rest, cur, s.accepted)
  {
    hide Req, Matches;
    var rest := s.toClient[1..];
    assert Indexes(rest) == Indexes(s.toClient)[1..];
    assert forall a :: 0 <= a < |rest| ==> Indexes(rest)[a] == rest[a].index == s.cur;
  }

  lemma DeviceBound(job: Job, s: Net)
    requires Inv(job, s)
    ensures s.accepted <= Last(job)
  {
    hide JobOk, PrefixOk, ChunksOk, Remembers, Sorted, Recent, Answers;
  }

  /** Losing an element keeps what is known of a queue. */
  lemma LossKeeps(js: seq<nat>, i: nat, cur: nat)
    requires i < |js|
    ensures Sorted(js) ==> Sorted(Without(js, i))
    ensures Recent(js, cur) ==> Recent(Without(js, i), cur)
    ensures AllCurrent(js, cur) ==> AllCurrent(Without(js, i), cur)
    ensures cur in Without(js, i) ==> cur in js
  {
    var rest := Without(js, i);
    assert forall a :: 0 <= a < |rest| ==> rest[a] == js[if a < i then a else a + 1];
  }

  lemma AnswerLoss(job: Job, answers: seq<Answer>, i: nat, cur: nat, accepted: nat)
    requires i < |answers| && Answers(job, answers, cur, accepted)
    ensures Answers(job, Without(answers, i), cur, accepted)
    ensures Indexes(Without(answers, i)) == Without(Indexes(answers), i)
  {
    hide Req, Matches;
    var rest := Without(answers, i);
    assert forall a :: 0 <= a < |rest| ==> rest[a] == answers[if a < i then a else a + 1];
  }

  lemma DropKeeps(job: Job, s: Net, i: nat)
    requires Inv(job, s)
    ensures Inv(job, Next(job, s, DropRequest(i))) && Inv(job, Next(job, s, DropReply(i)))
  {
    hide Device, Req, Matches, Last, Sorted, Recent, AllCurrent, Answers, Without, Indexes;
    if i < |s.toDevice| { LossKeeps(s.toDevice, i, s.cur); }
    if i < |s.toClient| {
      AnswerLoss(job, s.toClient, i, s.cur, s.accepted);
      LossKeeps(Indexes(s.toClient), i, s.cur);
    }
  }

  lemma SendKeeps(job: Job, s: Net)
    requires Inv(job, s) && s.cur < Last(job)
    ensures Inv(job, s.(toDevice := s.toDevice + [s.cur], attempts := s.attempts + 1, waiting := true))
  {
    hide Device, Req, Matches, Last;
  }

  lemma StepKeeps(job: Job, s: Net, a: Action)
    requires Inv(job, s)
    ensures Inv(job, Next(job, s, a))
  {
    hide Inv, Delivered, Taken, Poll, Last;
    match a
    case Send => if s.cur < Last(job) { SendKeeps(job, s); }
    case Deliver => if s.toDevice != [] { DeliverKeeps(job, s); }
    case DropRequest(i) => DropKeeps(job, s, i);
    case DropReply(i) => DropKeeps(job, s, i);
    case Receive => if s.toClient != [] { ReceiveKeeps(job, s); }
    case GiveUp => QuietKeeps(job, s, s.(waiting := false));
    case PollAt(now) => ClockKeeps(job, s, now);
    case Noted(now) => ClockKeeps(job, s, now);
  }

  lemma QuietKeeps(job: Job, s: Net, s': Net)
    requires Inv(job, s) && s' == s.(waiting := s'.waiting)
    ensures Inv(job, s')
  {
    hide Device, Answers, Sorted, Recent, AllCurrent, Last;
  }

  lemma ClockKeeps(job: Job, s: Net, now: u32)
    requires Inv(job, s)
    ensures Inv(job, Next(job, s, PollAt(now))) && Inv(job, Next(job, s, Noted(now)))
  {
    hide Device, Answers, Sorted, Recent, AllCurrent, Last, Poll;
    DeviceOf(job, s);
    PollDevice(job, s.t, s.accepted, now);
  }

  lemma {:induction false} RunKeeps(job: Job, s: Net, actions: seq<Action>)
    requires Inv(job, s)
    ensures Inv(job, Run(job, s, actions))
    decreases |actions|
  {
    hide Inv, Next;
    if actions != [] {
      StepKeeps(job, s, actions[0]);
      RunKeeps(job, Next(job, s, actions[0]), actions[1..]);
    }
  }

  function Start(t: Transfer): Net { Net(t, [], [], 0, 0, false, false, 0, []) }

  /** Over FIFO channels that drop any frames, with any repetitions, timeouts and
      engine polls: when the client's DATA loop has finished, the payload area of
      the target slot equals the payload, and each chunk has been programmed
      exactly once, in order. */
  lemma Delivery(job: Job, t: Transfer, actions: seq<Action>)
    requires JobOk(job) && job.slot != t.engine.metadata.active && t.engine.state != ReadyToBoot && PrefixOk(t)
    ensures var s := Run(job, Start(t), actions);
      var start := PayloadStart(job.slot);
      s.cur == Last(job) ==>
        && s.t.mem[start..start + |job.payload|] == job.payload
        && s.programmed == Counting(Chunks(job))
  {
    hide Inv, Next, Device, PrefixOk, JobOk;
    StartInv(job, t);
    RunKeeps(job, Start(t), actions);
    var s := Run(job, Start(t), actions);
    if s.cur == Last(job) {
      DeviceOf(job, s);
      DeviceBound(job, s);
      AllCovered(job);
      FinalDevice(job, s.t);
    }
  }

  lemma StartInv(job: Job, t: Transfer)
    requires JobOk(job) && job.slot != t.engine.metadata.active && t.engine.state != ReadyToBoot && PrefixOk(t)
    ensures Inv(job, Start(t))
  {
    hide JobOk, PrefixOk, ChunksOk, Remembers, Req;
  }

  lemma FinalDevice(job: Job, t: Transfer)
    requires Device(job, t, Last(job))
    ensures t.engine.header == job.header && t.accepted == job.payload
    ensures var start := PayloadStart(job.slot);
      t.mem[start..start + |job.payload|] == job.payload
  {
    hide JobOk, PrefixOk, ChunksOk, Remembers;
    AllCovered(job);
    assert job.payload[..|job.payload|] == job.payload;
  }

  // ---- Numbers in any session ----

  /** Whatever the packets, a remembered chunk is one number behind the next. */
  lemma NextFollowsLast(e: Engine, m: Memory, q: Request)
    requires e.haveLast ==> e.nextSequence == Succ16(e.lastSequence)
    ensures var e' := Handle(e, m, q).engine;
      e'.haveLast ==> e'.nextSequence == Succ16(e'.lastSequence)
  {
    hide HeaderOk, RangeAllowed, WriteSucceeds, WriteSteps, DataSteps, EndError, EndSteps, PendingRecord,
      EraseSteps, Crc, PayloadSize;
  }

  // ---- The client in numbers ----

  /** The requests of a job: 1 for the information, 2 with the header, and 3 with
      256 bytes of the payload each, or what is left of it, numbered on from the
      first number on a counter of 16 bits. */
  lemma RequestsExact(job: Job, i: nat)
    requires i < (|job.payload| + 255) / 256
    ensures Req(job, 0) == Request(1, job.first, [])
    ensures Req(job, 1) == Request(2, (job.first + 1) % 65536, job.header)
    ensures 256 * i < |job.payload|
    ensures var end := if 256 * i + 256 < |job.payload| then 256 * i + 256 else |job.payload|;
      Req(job, 2 + i) == Request(3, (job.first + 2 + i) % 65536, job.payload[256 * i..end])
    ensures Last(job) == 2 + (|job.payload| + 255) / 256
  {
  }

  /** A reply decides a request exactly if it carries its number and its command. */
  lemma DecidesExact(q: Request, r: Reply)
    ensures FirstDecisive(q, [Some(r)]) == Exhausted <==> r.sequence != q.sequence || r.command != q.command
    ensures FirstDecisive(q, [Some(r)]) == Accepted <==> r == Ack(q.command, q.sequence)
    ensures FirstDecisive(q, [None]) == Exhausted
  {
  }

  /** The client sends its current request exactly while it is not waiting, has
      not failed, has sent it fewer than four times, and is not through; it begins
      with nothing on the way; and a matching acknowledgement lets it go on with
      the next request and four new attempts, while a matching refusal ends it. */
  lemma SendingExact(job: Job, s: Net, t: Transfer)
    ensures Next(job, s, Send) ==
      if !s.waiting && !s.failed && s.attempts < 4 && s.cur < Last(job)
      then s.(toDevice := s.toDevice + [s.cur], attempts := s.attempts + 1, waiting := true) else s
    ensures s.waiting && s.toClient != []
            && s.toClient[0].reply == Ack(Req(job, s.cur).command, Req(job, s.cur).sequence) ==>
      Next(job, s, Receive)
      == s.(toClient := s.toClient[1..], waiting := false, attempts := 0, cur := s.cur + 1)
    ensures s.waiting && s.toClient != [] && s.toClient[0].reply.Nack?
            && s.toClient[0].reply.command == Req(job, s.cur).command
            && s.toClient[0].reply.sequence == Req(job, s.cur).sequence ==>
      Next(job, s, Receive) == s.(toClient := s.toClient[1..], waiting := false, failed := true)
    ensures Next(job, Start(t), Send).toDevice == [0] && Start(t).toClient == []
  {
    hide Req, Chunks;
  }

  /** A reply that does not match is taken and ends the attempt; a loss takes one
      frame out of its queue and leaves the others in order; giving up ends the
      attempt; and the clock reaches the engine alone. */
  lemma LossExact(job: Job, s: Net, i: nat, now: u32)
    ensures s.waiting && s.toClient != []
            && (s.toClient[0].reply.command != Req(job, s.cur).command
                || s.toClient[0].reply.sequence != Req(job, s.cur).sequence) ==>
      Next(job, s, Receive) == s.(toClient := s.toClient[1..], waiting := false)
    ensures i < |s.toDevice| ==>
      Next(job, s, DropRequest(i)) == s.(toDevice := s.toDevice[..i] + s.toDevice[i + 1..])
    ensures i < |s.toClient| ==>
      Next(job, s, DropReply(i)) == s.(toClient := s.toClient[..i] + s.toClient[i + 1..])
    ensures Next(job, s, GiveUp) == s.(waiting := false)
    ensures Next(job, s, PollAt(now)) == s.(t := s.t.(engine := Poll(s.t.engine, now)))
    ensures Next(job, s, Noted(now)) == s.(t := s.t.(engine := s.t.engine.(lastActivity := now)))
  {
    hide Req, Poll, Last;
  }

  /** The request at the head of the queue is handled, and its answer queued. */
  lemma DeliverExact(job: Job, s: Net)
    requires s.toDevice != []
    ensures var j, s' := s.toDevice[0], Next(job, s, Deliver);
      var f := Handle(s.t.engine, s.t.mem, Req(job, j));
      && s'.t.engine == f.engine && s'.t.mem == Replay(s.t.mem, f.steps)
      && s'.toDevice == s.toDevice[1..] && s'.toClient == s.toClient + [Answer(j, f.reply)]
      && s'.cur == s.cur && s'.attempts == s.attempts && s'.waiting == s.waiting && s'.failed == s.failed
  {
    hide Req, Handle, Replay;
  }

  // ---- An exchange that goes through ----

  /** Some attempts of the current request are lost, and then one is answered. */
  function Round(lost: nat): seq<Action> {
    if lost == 0 then [Send, Deliver, Receive] else [Send, DropRequest(0), GiveUp] + Round(lost - 1)
  }

  function Rounds(losses: seq<nat>): seq<Action> {
    if losses == [] then [] else Rounds(losses[..|losses| - 1]) + Round(losses[|losses| - 1])
  }

  /** Between two requests: nothing is on the way, and the transfer is alive. */
  ghost predicate Between(job: Job, s: Net, j: nat) {
    && Inv(job, s) && s.cur == s.accepted == j && !s.waiting && !s.failed && s.toDevice == [] && s.toClient == []
    && (j >= 2 ==> s.t.engine.state == Receiving)
  }

  lemma {:induction false} RunConcat(job: Job, s: Net, a: seq<Action>, b: seq<Action>)
    ensures Run(job, s, a + b) == Run(job, Run(job, s, a), b)
    decreases |a|
  {
    hide Next;
    if a == [] {
      assert a + b == b;
    } else {
      assert (a + b)[1..] == a[1..] + b;
      RunConcat(job, Next(job, s, a[0]), a[1..], b);
    }
  }

  lemma ThreeActions(job: Job, s: Net, a: Action, b: Action, c: Action)
    ensures Run(job, s, [a, b, c]) == Next(job, Next(job, Next(job, s, a), b), c)
  {
    hide Next;
    assert [a, b, c][1..] == [b, c] && [b, c][1..] == [c] && [c][1..] == [];
    var s1 := Next(job, s, a);
    var s2 := Next(job, s1, b);
    assert Run(job, s2, [c]) == Run(job, Next(job, s2, c), []);
    assert Run(job, s1, [b, c]) == Run(job, s2, [c]);
  }

  lemma LostAttempt(job: Job, s: Net)
    requires !s.waiting && !s.failed && s.toDevice == [] && s.attempts < 4 && s.cur < Last(job)
    ensures Run(job, s, [Send, DropRequest(0), GiveUp]) == s.(attempts := s.attempts + 1)
  {
    hide Last;
    ThreeActions(job, s, Send, DropRequest(0), GiveUp);
    assert [s.cur][..0] + [s.cur][1..] == [];
    var s1 := Next(job, s, Send);
    assert s1 == s.(toDevice := [s.cur], attempts := s.attempts + 1, waiting := true);
    assert Next(job, s1, DropRequest(0)) == s1.(toDevice := []);
  }

  /** The device acknowledges the request that it awaits, and awaits the next. */
  lemma DeviceAnswers(job: Job, t: Transfer, j: nat)
    requires Device(job, t, j) && j < Last(job) && (j >= 2 ==> t.engine.state == Receiving)
    ensures var q := Req(job, j);
      && Handle(t.engine, t.mem, q).reply == Ack(q.command, q.sequence)
      && (j >= 1 ==> Advance(t, q).engine.state == Receiving)
  {
    hide *;
    var q := Req(job, j);
    Echo(t.engine, t.mem, q);
    AckOf(Handle(t.engine, t.mem, q).reply, q);
    AdvanceEngine(t, q);
    if j == 0 {
      InfoDelivered(job, t, j);
    } else if j == 1 {
      StartDelivered(job, t, j);
      DeviceFacts(job, t, j);
      StartAccepted(job, t.engine, t.mem, q);
    } else {
      ChunkDelivered(job, t, j);
      StaysReceiving(job, t.engine, t.mem, j);
    }
  }

  lemma AckOf(r: Reply, q: Request)
    requires Matches(q, r)
    ensures r.Ack? ==> r == Ack(q.command, q.sequence)
  {
  }

  lemma AdvanceEngine(t: Transfer, q: Request)
    ensures Advance(t, q).engine == Handle(t.engine, t.mem, q).engine
  {
    hide Handle, Replay;
  }

  lemma StaysReceiving(job: Job, e: Engine, m: Memory, j: nat)
    requires e.state == Receiving && j >= 2
    ensures Handle(e, m, Req(job, j)).engine.state == Receiving
  {
    hide Crc, PayloadSize, WriteSucceeds, WriteSteps, DataSteps, Chunk, Number;
  }

  lemma AnsweredAttempt(job: Job, s: Net, j: nat)
    requires Between(job, s, j) && s.attempts < 4 && j < Last(job)
    ensures var s' := Run(job, s, [Send, Deliver, Receive]);
      Between(job, s', j + 1) && s'.attempts == 0
  {
    hide Inv, Device, Advance, Handle, Req, Last;
    DeviceOf(job, s);
    DeviceAnswers(job, s.t, j);
    ThreeActions(job, s, Send, Deliver, Receive);
    RunKeeps(job, s, [Send, Deliver, Receive]);
    var s1 := Next(job, s, Send);
    assert s1 == s.(toDevice := [j], attempts := s.attempts + 1, waiting := true);
    var q := Req(job, j);
    var s2 := Next(job, s1, Deliver);
    assert [j][1..] == [] && [] + [Answer(j, Ack(q.command, q.sequence))] == [Answer(j, Ack(q.command, q.sequence))];
    assert s2.toClient == [Answer(j, Ack(q.command, q.sequence))] && s2.accepted == j + 1 && s2.toDevice == [];
    assert s2.toClient[1..] == [];
  }

  lemma {:induction false} RoundGoes(job: Job, s: Net, j: nat, lost: nat)
    requires Between(job, s, j) && s.attempts + lost < 4 && j < Last(job)
    ensures var s' := Run(job, s, Round(lost));
      Between(job, s', j + 1) && s'.attempts == 0
    decreases lost
  {
    hide Between, Run, Last;
    if lost == 0 {
      AnsweredAttempt(job, s, j);
    } else {
      BetweenFacts(job, s, j);
      LostAttempt(job, s);
      RunConcat(job, s, [Send, DropRequest(0), GiveUp], Round(lost - 1));
      RoundGoes(job, s.(attempts := s.attempts + 1), j, lost - 1);
    }
  }

  lemma BetweenFacts(job: Job, s: Net, j: nat)
    requires Between(job, s, j)
    ensures s.cur == j && !s.waiting && !s.failed && s.toDevice == []
    ensures Between(job, s.(attempts := s.attempts + 1), j)
  {
    hide Device, Answers, Sorted, Recent, AllCurrent;
  }

  lemma {:induction false} RoundsGo(job: Job, t: Transfer, losses: seq<nat>)
    requires JobOk(job) && job.slot != t.engine.metadata.active && t.engine.state != ReadyToBoot && PrefixOk(t)
    requires |losses| <= Last(job) && forall k :: 0 <= k < |losses| ==> losses[k] <= 3
    ensures var s := Run(job, Start(t), Rounds(losses));
      Between(job, s, |losses|) && s.attempts == 0
    decreases |losses|
  {
    hide Run, Between, Last, JobOk, PrefixOk, Start;
    if losses == [] {
      NothingSent(job, t);
    } else {
      var n := |losses| - 1;
      RoundsGo(job, t, losses[..n]);
      RunConcat(job, Start(t), Rounds(losses[..n]), Round(losses[n]));
      RoundGoes(job, Run(job, Start(t), Rounds(losses[..n])), n, losses[n]);
    }
  }

  lemma NothingSent(job: Job, t: Transfer)
    requires JobOk(job) && job.slot != t.engine.metadata.active && t.engine.state != ReadyToBoot && PrefixOk(t)
    ensures Run(job, Start(t), []) == Start(t) && Between(job, Start(t), 0) && Start(t).attempts == 0
  {
    hide JobOk, PrefixOk, Inv;
    StartInv(job, t);
  }

  /** The exchange ends: if of every request up to three attempts are lost and the
      next one is answered, then the client gets through, with every chunk
      programmed once; and if a fourth one is lost, it sends nothing any more. */
  lemma Completion(job: Job, t: Transfer, losses: seq<nat>)
    requires JobOk(job) && job.slot != t.engine.metadata.active && t.engine.state != ReadyToBoot && PrefixOk(t)
    requires |losses| == Last(job) && forall k :: 0 <= k < |losses| ==> losses[k] <= 3
    ensures var s := Run(job, Start(t), Rounds(losses));
      && s.cur == 2 + (|job.payload| + 255) / 256 && !s.failed
      && s.programmed == seq((|job.payload| + 255) / 256, i => i)
      && s.t.mem[PayloadStart(job.slot)..PayloadStart(job.slot) + |job.payload|] == job.payload
  {
    hide Run, Between, PrefixOk, JobOk, Rounds;
    RoundsGo(job, t, losses);
    BetweenFacts(job, Run(job, Start(t), Rounds(losses)), |losses|);
    Delivery(job, t, Rounds(losses));
  }

  lemma FourLost(job: Job, s: Net)
    requires !s.waiting && !s.failed && s.toDevice == [] && s.toClient == [] && s.attempts == 0 && s.cur < Last(job)
    ensures var lost := [Send, DropRequest(0), GiveUp];
      var s3, s4 := Run(job, s, lost + lost + lost), Run(job, s, lost + lost + lost + lost);
      && Next(job, s3, Send).toDevice == [s.cur]
      && s4 == s.(attempts := 4) && Next(job, s4, Send) == s4
  {
    hide Run, Last;
    var lost := [Send, DropRequest(0), GiveUp];
    LostAttempt(job, s);
    RunConcat(job, s, lost, lost);
    LostAttempt(job, s.(attempts := 1));
    RunConcat(job, s, lost + lost, lost);
    LostAttempt(job, s.(attempts := 2));
    RunConcat(job, s, lost + lost + lost, lost);
    LostAttempt(job, s.(attempts := 3));
  }
}
