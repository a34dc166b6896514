// The update over the serial line from end to end: whatever the channels lose
// during the exchange, END then publishes the package, or the transfer has
// timed out.

module Serial {
  import opened Bytes
  import opened Flash
  import opened Image
  import opened Update
  import opened Session
  import opened Bootloader
  import opened Pipeline
  import Exchange = StopAndWait

  /** An image that passes the checks of the client, for the inactive slot of a
      running session. */
  ghost predicate Ready(job: Exchange.Job, v: Version, t: Transfer) {
    && Exchange.JobOk(job) && job.header == PackagedHeader(job.slot, v, job.payload)
    && Package(job.slot, v, job.payload).Some?
    && job.slot != t.engine.metadata.active && PrefixOk(t)
    && Startable(t.mem) && SessionOk(t.mem, t.engine)
  }

  /** The exchange stays inside a session of the bootloader. */
  ghost predicate InSession(s: Exchange.Net) { Startable(s.t.mem) && SessionOk(s.t.mem, s.t.engine) }

  lemma RequestKeepsSession(t: Transfer, q: Request)
    requires PrefixOk(t) && Startable(t.mem) && SessionOk(t.mem, t.engine)
    requires Advance(t, q).engine.state != ReadyToBoot
    ensures Startable(Advance(t, q).mem) && SessionOk(Advance(t, q).mem, Advance(t, q).engine)
  {
    hide *;
    AdvanceIs(t, q);
    PrefixCourse(t, q);
    PacketKeepsSession(t.mem, t.engine, q);
    StillStartable(t.mem, Advance(t, q).mem);
  }

  lemma PrefixCourse(t: Transfer, q: Request)
    requires PrefixOk(t)
    ensures !Strays(t.engine, t.mem, q)
  {
    hide TransferOk, LooseTransfer, EngineOk, GoodTarget, InSequence, Duplicate, EndError;
    TransferIsLoose(t.engine, t.mem);
  }

  lemma DeviceHolds(job: Exchange.Job, s: Exchange.Net)
    requires Exchange.Inv(job, s)
    ensures PrefixOk(s.t) && s.t.engine.state != ReadyToBoot
  {
    hide *;
    Exchange.DeviceOf(job, s);
    Exchange.DeviceFacts(job, s.t, s.accepted);
  }

  /** What an action does to the device: it handles a request, or its clock
      moves, or nothing happens. */
  lemma ActionShape(job: Exchange.Job, s: Exchange.Net, a: Exchange.Action)
    ensures var t, t' := s.t, Exchange.Next(job, s, a).t;
      || t' == t
      || (a.Deliver? && s.toDevice != [] && t' == Advance(t, Exchange.Req(job, s.toDevice[0])))
      || (a.PollAt? && t' == t.(engine := Poll(t.engine, a.now)))
      || (a.Noted? && t' == t.(engine := t.engine.(lastActivity := a.now)))
  {
    hide Advance, Poll, Handle, Exchange.Req, Exchange.Matches, Exchange.Last;
  }

  lemma ActionKeepsSession(job: Exchange.Job, s: Exchange.Net, a: Exchange.Action)
    requires Exchange.Inv(job, s) && InSession(s)
    ensures Exchange.Inv(job, Exchange.Next(job, s, a)) && InSession(Exchange.Next(job, s, a))
  {
    hide Exchange.Inv, Exchange.Next, Advance, Poll, Startable, SessionOk, PrefixOk, Exchange.Req;
    Exchange.StepKeeps(job, s, a);
    DeviceHolds(job, s);
    DeviceHolds(job, Exchange.Next(job, s, a));
    ActionShape(job, s, a);
    match a
    case Deliver => if s.toDevice != [] { Delivering(s.t, Exchange.Req(job, s.toDevice[0])); }
    case PollAt(now) => PollKeepsSession(s.t.mem, s.t.engine, now);
    case Noted(now) => PollKeepsSession(s.t.mem, s.t.engine, now);
    case _ =>
  }

  lemma Delivering(t: Transfer, q: Request)
    requires PrefixOk(t) && Startable(t.mem) && SessionOk(t.mem, t.engine)
    ensures Advance(t, q).engine.state != ReadyToBoot ==>
      Startable(Advance(t, q).mem) && SessionOk(Advance(t, q).mem, Advance(t, q).engine)
  {
    hide *;
    if Advance(t, q).engine.state != ReadyToBoot { RequestKeepsSession(t, q); }
  }

  lemma {:induction false} ExchangeKeepsSession(job: Exchange.Job, s: Exchange.Net, actions: seq<Exchange.Action>)
    requires Exchange.Inv(job, s) && InSession(s)
    ensures Exchange.Inv(job, Exchange.Run(job, s, actions)) && InSession(Exchange.Run(job, s, actions))
    decreases |actions|
  {
    hide Exchange.Inv, InSession, Exchange.Next;
    if actions != [] {
      ActionKeepsSession(job, s, actions[0]);
      ExchangeKeepsSession(job, Exchange.Next(job, s, actions[0]), actions[1..]);
    }
  }

  function EndOf(job: Exchange.Job): Request {
    Request(END_UPDATE, Exchange.Number(job, Exchange.Last(job)), [])
  }

  /** Once the client's DATA loop has finished. */
  lemma Finished(job: Exchange.Job, s: Exchange.Net)
    requires Exchange.Inv(job, s) && s.cur == Exchange.Last(job)
    ensures PrefixOk(s.t) && s.t.accepted == job.payload && s.t.engine.header == job.header
    ensures job.slot != s.t.engine.metadata.active && |job.payload| <= PAYLOAD_MAX
    ensures var start := PayloadStart(job.slot);
      s.t.mem[start..start + |job.payload|] == job.payload
  {
    hide *;
    Exchange.DeviceOf(job, s);
    Exchange.DeviceBound(job, s);
    Exchange.DeviceFacts(job, s.t, s.accepted);
    Exchange.FinalDevice(job, s.t);
    SmallJob(job);
  }

  lemma SmallJob(job: Exchange.Job)
    requires Exchange.JobOk(job)
    ensures IsSlot(job.slot) && 0 < |job.payload| <= PAYLOAD_MAX && HeaderOk(job.header, job.slot)
  {
    hide HeaderOk, PayloadSize;
  }

  lemma EndRefused(e: Engine, m: Memory, q: Request)
    requires q.command == END_UPDATE && e.state != Receiving
    ensures Handle(e, m, q).reply.Nack? && Handle(e, m, q).steps == []
  {
    hide PayloadVerified, PendingRecord, EndSteps, PayloadSize;
  }

  lemma SameActive(slot: u8, a: u8, b: u8)
    requires IsSlot(slot) && IsSlot(a) && IsSlot(b) && slot != a && slot != b
    ensures a == b
  {
  }

  /** Over channels that lose any frames, with repetitions, timeouts and polls:
      after the client's DATA loop, END is acknowledged if and only if the
      transfer has not timed out; then the slot holds the package and validates,
      and the next load finds it pending beside the active slot. Otherwise END
      touches nothing. */
  lemma UpdateDelivered(job: Exchange.Job, v: Version, t: Transfer, actions: seq<Exchange.Action>)
    requires Ready(job, v, t)
    ensures var s := Exchange.Run(job, Exchange.Start(t), actions);
      s.cur == Exchange.Last(job) ==>
        var f := Handle(s.t.engine, s.t.mem, EndOf(job));
        && (f.reply.Ack? <==> s.t.engine.state == Receiving)
        && (f.reply.Ack? ==>
              && f.engine.state == ReadyToBoot
              && Delivered(Replay(s.t.mem, f.steps), t.engine.metadata.active, job.slot, v, job.payload))
        && (!f.reply.Ack? ==> f.steps == [])
  {
    hide *;
    ReadyParts(job, v, t);
    Exchange.StartInv(job, t);
    ExchangeKeepsSession(job, Exchange.Start(t), actions);
    var s := Exchange.Run(job, Exchange.Start(t), actions);
    if s.cur == Exchange.Last(job) {
      Finished(job, s);
      EndAfter(job, v, s);
      SessionParts(s);
      SlotOfEngine(s.t.mem, s.t.engine);
      SlotOfEngine(t.mem, t.engine);
      SmallJob(job);
      SameActive(job.slot, s.t.engine.metadata.active, t.engine.metadata.active);
    }
  }

  lemma ReadyParts(job: Exchange.Job, v: Version, t: Transfer)
    requires Ready(job, v, t)
    ensures Exchange.JobOk(job) && |job.payload| <= PAYLOAD_MAX && IsSlot(job.slot)
    ensures job.header == PackagedHeader(job.slot, v, job.payload) && Package(job.slot, v, job.payload).Some?
    ensures job.slot != t.engine.metadata.active && PrefixOk(t) && t.engine.state != ReadyToBoot
    ensures SessionOk(t.mem, t.engine) && InSession(Exchange.Start(t))
  {
    hide Startable, PrefixOk, PackagedHeader, Package, EffectiveRecord, ImageOk;
  }

  lemma SessionParts(s: Exchange.Net)
    requires InSession(s)
    ensures Startable(s.t.mem) && SessionOk(s.t.mem, s.t.engine)
  {
    hide Startable, SessionOk;
  }

  lemma SlotOfEngine(m: Memory, e: Engine)
    requires SessionOk(m, e)
    ensures IsSlot(e.metadata.active)
  {
    hide ImageOk, EffectiveRecord;
  }

  lemma EndAfter(job: Exchange.Job, v: Version, s: Exchange.Net)
    requires Exchange.JobOk(job) && |job.payload| <= PAYLOAD_MAX && IsSlot(job.slot)
    requires job.header == PackagedHeader(job.slot, v, job.payload) && Package(job.slot, v, job.payload).Some?
    requires InSession(s) && PrefixOk(s.t) && s.t.accepted == job.payload && s.t.engine.header == job.header
    requires s.t.mem[PayloadStart(job.slot)..PayloadStart(job.slot) + |job.payload|] == job.payload
    ensures var f := Handle(s.t.engine, s.t.mem, EndOf(job));
      && (f.reply.Ack? <==> s.t.engine.state == Receiving)
      && (f.reply.Ack? ==>
            && f.engine.state == ReadyToBoot
            && Delivered(Replay(s.t.mem, f.steps), s.t.engine.metadata.active, job.slot, v, job.payload))
      && (!f.reply.Ack? ==> f.steps == [])
  {
    assert EndOf(job).command == END_UPDATE;
    hide *;
    var e, m, q := s.t.engine, s.t.mem, EndOf(job);
    SessionParts(s);
    if e.state == Receiving {
      SmallJob(job);
      HeaderSize(job.header, job.slot);
      PackagedHeaderOk(job.slot, v, job.payload);
      StoredPayload(s.t, job.slot, v, job.payload);
      EndEffect(e, m, q);
      PrefixParts(s.t);
      EndPublishes(m, e, job.slot, v, job.payload);
    } else {
      EndRefused(e, m, q);
    }
  }
}
