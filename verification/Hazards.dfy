// What the assumptions of the run theorems keep out, and what the decision at
// start-up does not promise: runs that end badly.

module Hazards {
  import opened Bytes
  import opened Flash
  import opened Image
  import opened Metadata
  import opened Boot
  import opened Update
  import opened Session
  import opened Mailbox
  import opened Bootloader
  import opened Runs
  import opened Reversal

  // ---- A straying packet ----

  function ErasedStart(sequence: u16): Request { Request(START_UPDATE, sequence, ErasedHeader()) }

  /** Without copy 0, load takes the record in copy 1. */
  lemma LoseCopy(m: Memory, o: u8)
    requires CopyValid(m, 1) && RecordAt(m, 1).active == o && IsSlot(o) && !ImageOk(m, o)
    ensures var m' := Replay(m, [EraseStep(CopyStart(0))]);
      EffectiveRecord(m') == RecordAt(m, 1) && !Startable(m')
  {
    hide RecordValid, Decode, ImageOk, Reconstructed, Next, Replay;
    var m' := Replay(m, [EraseStep(CopyStart(0))]);
    ReplayOne(m, EraseStep(CopyStart(0)));
    assert Same(m, m', CopyStart(1), CopyStart(1) + PAGE);
    assert Same(m, m', SlotStart(o), SlotStart(o) + SLOT_SIZE);
    CopyFrame(m, m', 1);
    SlotFrame(m, m', o);
    TornCopyFails(m', 0);
  }

  /** Crash safety does need its exclusion. A session has received as much as a
      slot holds, and its other copy names the slot it is overwriting, as after
      a confirmed start-up. A START with an erased header is refused, the next
      DATA packet strays, and a power cut right after its first flash step
      leaves a flash that does not start: the slot that load finds active does
      not validate. */
  lemma StrayBreaksStart(d: Machine, sequence: u16, q: Request, box: Box)
    requires MachineOk(d) && d.Running? && d.engine.state == Receiving && d.engine.received == PAYLOAD_MAX
    requires q.command == DATA && q.sequence == d.engine.nextSequence && q.payload != [] && !Duplicate(d.engine, q)
    requires CopyValid(d.flash, 1) && RecordAt(d.flash, 1).active == Other(d.engine.metadata.active)
    ensures var d1 := Do(d, Packet(ErasedStart(sequence)));
      && Admissible(d, Whole(Packet(ErasedStart(sequence))))
      && d1.Running? && d1 == d.(engine := d1.engine) && Strays(d1.engine, d1.flash, q)
      && var d2 := AfterEvent(d1, Cut(Packet(q), 1, None, box));
         EffectiveRecord(d2.flash) == RecordAt(d.flash, 1) && !Startable(d2.flash)
  {
    assert ErasedStart(sequence).command == START_UPDATE && START_UPDATE != RESET;
    hide *;
    var m, e, start := d.flash, d.engine, ErasedStart(sequence);
    RunningFacts(d);
    StrayErasesRecord(e, m, sequence, q);
    StartIs(sequence);
    StartsStraight(e, m, start);
    PacketAdmissible(d, start);
    RefusedStart(d, sequence);
    CutOnce(Do(d, Packet(start)), q, box);
    ReceivingTarget(m, e);
    OtherIsSlot(e.metadata.active);
    LoseCopy(m, Other(e.metadata.active));
  }

  lemma StartIs(sequence: u16)
    ensures ErasedStart(sequence) == Request(START_UPDATE, sequence, ErasedHeader())
  {
  }

  lemma RefusedStart(d: Machine, sequence: u16)
    requires d.Running? && d.engine.state == Receiving
    ensures var q := ErasedStart(sequence);
      Do(d, Packet(q)) == d.(engine := Handle(d.engine, d.flash, q).engine)
  {
    ErasedHeaderFields();
    ReplayNone(d.flash);
    hide HeaderOk, Replay;
  }

  lemma CutOnce(d: Machine, q: Request, box: Box)
    requires d.Running? && Handle(d.engine, d.flash, q).steps != []
    ensures AfterEvent(d, Cut(Packet(q), 1, None, box)).flash ==
      Replay(d.flash, [Handle(d.engine, d.flash, q).steps[0]])
  {
    hide Handle, Replay;
    var steps := Handle(d.engine, d.flash, q).steps;
    assert steps[..1] == [steps[0]];
  }

  // ---- A jump to an image that is gone ----

  function Abort(): Request { Request(ABORT, 2, []) }

  /** A trial start-up, the beginning of another update, its end, and the jump. */
  function DisturbedRun(t: u8, v: Version, payload: seq<u8>): seq<Event>
    requires Small(t, v, payload)
  {
    [] + [Whole(PowerOn)] + [Whole(Packet(StartPacket(t, v, payload)))] + [Whole(Packet(Abort()))] + [Whole(Jump)]
  }

  lemma AbortStep(d: Machine)
    requires d.Running? && d.engine.state == Receiving
    ensures var d' := Do(d, Packet(Abort()));
      && d'.Running? && d' == d.(engine := d'.engine) && d'.engine.state == Idle
      && Admissible(d, Whole(Packet(Abort())))
  {
    ReplayNone(d.flash);
    hide Replay, GoodTarget;
  }

  lemma PlainSteps(d: Machine)
    ensures Admissible(d, Whole(PowerOn)) && Admissible(d, Whole(Jump))
    ensures AdmissibleRun(d, []) && Run(d, []) == d
  {
    QuietAdmissible(d, PowerOn);
    QuietAdmissible(d, Jump);
    hide Admissible;
  }

  lemma DisturbedRunIs(t: u8, v: Version, payload: seq<u8>)
    requires Small(t, v, payload)
    ensures DisturbedRun(t, v, payload) ==
      [] + [Whole(PowerOn)] + [Whole(Packet(StartPacket(t, v, payload)))] + [Whole(Packet(Abort()))] + [Whole(Jump)]
  {
    hide StartPacket;
  }

  /** The image that is jumped to may be gone: on every trial boot, a START
      that is accepted and then aborted leaves the decision as it was, and the
      jump goes to the slot whose image it has erased. */
  lemma JumpsToErased(m: Memory, a: u8, t: u8, v: Version, v': Version, payload: seq<u8>)
    requires TrialOf(EffectiveRecord(m), m, a, t, v) && EffectiveRecord(m).Slot(t).bootCount < MAX_ATTEMPTS
    requires Small(t, v', payload)
    ensures AdmissibleRun(Off(m, Cleared()), DisturbedRun(t, v', payload))
    ensures var d := Run(Off(m, Cleared()), DisturbedRun(t, v', payload));
      d == App(d.flash, Cleared(), t) && ImageOk(m, t) && !ImageOk(d.flash, t)
  {
    hide *;
    var d0 := Off(m, Cleared());
    var d1 := Do(d0, PowerOn);
    TrialFacts(m, a, t, v);
    TrialStart(m, a, t, v);
    PoweredOn(m, Cleared());
    SlotOfSession(d1);
    TrialSlots(d1.flash, a, t, v);
    OtherOfOther(a, t);
    var b, erased := StartsSmall(d1, t, v', payload);
    StoringReceives(b, 1, t, v', payload, 0, erased);
    var d2 := Do(d1, Packet(StartPacket(t, v', payload)));
    SessionGone(d2);
    AbortStep(d2);
    var d3 := Do(d2, Packet(Abort()));
    JumpStep(d3);
    DisturbedRunIs(t, v', payload);
    PlainSteps(d0);
    PlainSteps(d3);
    RunMore(d0, [], PowerOn);
    var es := [] + [Whole(PowerOn)];
    RunMore(d0, es, Packet(StartPacket(t, v', payload)));
    var es' := es + [Whole(Packet(StartPacket(t, v', payload)))];
    RunMore(d0, es', Packet(Abort()));
    RunMore(d0, es' + [Whole(Packet(Abort()))], Jump);
  }

  lemma OtherOfOther(a: u8, t: u8)
    requires IsSlot(t) && a == Other(t)
    ensures t == Other(a)
  {
  }

  lemma SessionGone(d: Machine)
    requires d.Running? && SessionOk(d.flash, d.engine) && d.engine.state == Receiving
    ensures !ImageOk(d.flash, Other(d.engine.metadata.active))
  {
    hide ImageOk, HeaderValid, EffectiveRecord, RecordValid, Decode, LooseTransfer, EngineOk;
    SessionFacts(d.flash, d.engine);
    ReceivingTarget(d.flash, d.engine);
  }

  lemma EndIs()
    ensures END_PACKET.command == END_UPDATE && 0 < MAX_ATTEMPTS
  {
  }

  function TinyUpdate(v: Version): seq<Event> {
    TinyIsSmall(SLOT_B, v);
    LoadRun(SLOT_B, v, TinyPayload(SLOT_B)) + [Whole(Packet(END_PACKET))]
  }

  function TinyDisturbed(v: Version): seq<Event> {
    TinyIsSmall(SLOT_B, v);
    DisturbedRun(SLOT_B, v, TinyPayload(SLOT_B))
  }

  lemma TinyParts(v: Version)
    ensures Small(SLOT_B, v, TinyPayload(SLOT_B))
    ensures TinyUpdate(v) == LoadRun(SLOT_B, v, TinyPayload(SLOT_B)) + [Whole(Packet(END_PACKET))]
    ensures TinyDisturbed(v) == DisturbedRun(SLOT_B, v, TinyPayload(SLOT_B))
  {
    hide LoadRun, DisturbedRun, Small, TinyPayload;
    TinyIsSmall(SLOT_B, v);
  }

  /** Such a run from a new device. */
  lemma JumpAfterErase(v: Version)
    ensures AdmissibleRun(Off(TinyDevice(v), Cleared()), TinyUpdate(v) + TinyDisturbed(v))
    ensures var d := Run(Off(TinyDevice(v), Cleared()), TinyUpdate(v) + TinyDisturbed(v));
      d == App(d.flash, Cleared(), SLOT_B) && !ImageOk(d.flash, SLOT_B)
  {
    hide *;
    var m, d0, p := TinyDevice(v), Off(TinyDevice(v), Cleared()), TinyPayload(SLOT_B);
    TinyIs(v);
    TinyParts(v);
    NewDeviceBoots(v, TinyPayload(SLOT_A), Cleared());
    UnconfirmedStart(m);
    LoadRuns(m, Cleared(), SLOT_B, v, p);
    var d1 := Run(d0, LoadRun(SLOT_B, v, p));
    LoadedFacts(d1, SLOT_B, v, p);
    EndIs();
    PacketAdmissible(d1, END_PACKET);
    EndLeavesTrial(d1, END_PACKET);
    RunMore(d0, LoadRun(SLOT_B, v, p), Packet(END_PACKET));
    var d2 := Run(d0, TinyUpdate(v));
    JumpsToErased(d2.flash, d1.engine.metadata.active, SLOT_B, v, v, p);
    RunInParts(d0, TinyUpdate(v), TinyDisturbed(v));
  }
}
