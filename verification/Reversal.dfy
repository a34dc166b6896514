// A run in which the active slot goes back without a confirmation: an update
// is confirmed, and END of the next one is cut while it commits.

module Reversal {
  import opened Bytes
  import opened Flash
  import opened Image
  import opened Metadata
  import opened Boot
  import opened Update
  import opened Session
  import opened Mailbox
  import opened Bootloader
  import opened CloudOta
  import opened Runs
  import opened Pipeline

  // ---- Runs in parts ----

  lemma {:induction false} RunInParts(d: Machine, a: seq<Event>, b: seq<Event>)
    requires AdmissibleRun(d, a) && AdmissibleRun(Run(d, a), b)
    ensures AdmissibleRun(d, a + b) && Run(d, a + b) == Run(Run(d, a), b)
    decreases |a|
  {
    hide Admissible, AfterEvent;
    if a == [] {
      assert a + b == b;
    } else {
      RunInParts(AfterEvent(d, a[0]), a[1..], b);
      assert (a + b)[0] == a[0] && (a + b)[1..] == a[1..] + b;
    }
  }

  lemma RunMore(d: Machine, es: seq<Event>, i: Input)
    requires AdmissibleRun(d, es) && Admissible(Run(d, es), Whole(i))
    ensures AdmissibleRun(d, es + [Whole(i)]) && Run(d, es + [Whole(i)]) == Do(Run(d, es), i)
  {
    hide Admissible, Do;
    var d1 := Run(d, es);
    assert [Whole(i)][1..] == [];
    assert Run(d1, [Whole(i)]) == Do(d1, i);
    RunInParts(d, es, [Whole(i)]);
  }

  lemma QuietAdmissible(d: Machine, i: Input)
    requires !i.Packet?
    ensures Admissible(d, Whole(i))
  {
  }

  // ---- One update over the serial line ----

  /** A payload of one chunk, and its packets. */
  predicate Small(t: u8, v: Version, payload: seq<u8>) {
    IsSlot(t) && |payload| <= CHUNK_MAX && Package(t, v, payload).Some?
  }

  function StartPacket(t: u8, v: Version, payload: seq<u8>): Request
    requires Small(t, v, payload)
  {
    Request(START_UPDATE, 0, PackagedHeader(t, v, payload))
  }

  function DataPacket(t: u8, v: Version, payload: seq<u8>): Request
    requires Small(t, v, payload)
  {
    Request(DATA, 1, payload)
  }

  const END_PACKET: Request := Request(END_UPDATE, 2, [])

  /** A running bootloader whose engine has stored the payload and has only to
      be told END. */
  ghost predicate Loaded(d: Machine, t: u8, v: Version, payload: seq<u8>)
    requires Small(t, v, payload)
  {
    && MachineOk(d) && d.Running? && GoodTarget(d.engine) && Target(d.engine.header) == t
    && EndError(d.engine, d.flash) == NoError && VersionOf(d.engine.header) == v
  }

  /** The machine follows the engine on its board. */
  lemma BoardStep(d: Machine, q: Request)
    requires d.Running? && q.command != RESET
    requires Submitted(Board(d.engine, d.flash, []), q).engine.state == Receiving
    ensures var b := Submitted(Board(d.engine, d.flash, []), q);
      Do(d, Packet(q)) == d.(flash := b.mem, engine := b.engine)
  {
    NoReset(d.engine, d.flash, q);
    hide Handle, Replay;
  }

  lemma NoReset(e: Engine, m: Memory, q: Request)
    requires q.command != RESET
    ensures !Handle(e, m, q).reset
  {
    hide Replay, HeaderOk, RangeAllowed, Duplicate, InSequence, WriteSucceeds, WriteSteps, DataSteps, EndError,
      EndSteps, PendingRecord;
  }

  lemma SmallParts(t: u8, v: Version, payload: seq<u8>)
    requires Small(t, v, payload)
    ensures IsSlot(t) && 0 < |payload| <= CHUNK_MAX && payload[..|payload|] == payload && Package(t, v, payload).Some?
  {
    hide PackHeader, PatchCrc, VectorVerdict;
  }

  lemma StoringReceives(b: Board, sequence: u16, t: u8, v: Version, payload: seq<u8>, done: nat, erased: set<nat>)
    requires Storing(b, sequence, t, v, payload, done, erased)
    ensures b.engine.state == Receiving && Startable(b.mem) && SessionOk(b.mem, b.engine)
  {
    hide SessionOk, Startable, PackagedHeader, ChunksOk;
  }

  lemma ChunkIsNext(payload: seq<u8>)
    requires 0 < |payload| <= CHUNK_MAX
    ensures NextChunk(Request(DATA, 1, payload), 1, payload, 0)
  {
    assert payload[0..0 + |payload|] == payload;
  }

  lemma SameBoard(b: Board, q: Request)
    ensures var b' := Board(b.engine, b.mem, []);
      && Submitted(b', q).engine == Submitted(b, q).engine && Submitted(b', q).mem == Submitted(b, q).mem
      && Acknowledged(b', q) == Acknowledged(b, q)
  {
    hide Handle, Replay;
  }

  lemma StartsStraight(e: Engine, m: Memory, q: Request)
    requires q.command == START_UPDATE
    ensures !Strays(e, m, q)
  {
    hide GoodTarget, InSequence, Duplicate, EndError;
  }

  lemma PacketAdmissible(d: Machine, q: Request)
    requires d.Running? && !Strays(d.engine, d.flash, q)
    ensures Admissible(d, Whole(Packet(q)))
  {
    hide Strays;
  }

  lemma Shapes(t: u8, v: Version, payload: seq<u8>)
    requires Small(t, v, payload)
    ensures StartPacket(t, v, payload) == Request(START_UPDATE, 0, PackagedHeader(t, v, payload))
    ensures DataPacket(t, v, payload) == Request(DATA, 1, payload)
    ensures START_UPDATE != RESET && DATA != RESET && Succ16(0) == 1 && Succ16(1) == 2
  {
  }

  lemma ReadyParts(d: Machine, t: u8)
    requires MachineOk(d) && d.Running? && IsSlot(t) && t == Other(d.engine.metadata.active)
    ensures Accepting(Board(d.engine, d.flash, []), t) && d.decision.BootSlot?
  {
    hide Startable, SessionOk;
  }

  lemma MachineParts(m: Memory, box: Box, e: Engine, decision: Decision)
    requires Startable(m) && SessionOk(m, e) && decision.BootSlot?
    ensures MachineOk(Running(m, box, e, decision))
  {
    hide Startable, SessionOk;
  }

  lemma ActiveKept(b: Board, q: Request)
    requires IsSlot(b.engine.metadata.active)
    ensures Submitted(b, q).engine.metadata.active == b.engine.metadata.active
  {
    hide Handle, Replay, Harmless;
    HandleHarmless(b.engine, b.mem, q);
  }

  /** START of a small package for the inactive slot. */
  lemma StartsSmall(d: Machine, t: u8, v: Version, payload: seq<u8>) returns (b: Board, erased: set<nat>)
    requires MachineOk(d) && d.Running? && Small(t, v, payload) && t == Other(d.engine.metadata.active)
    ensures Admissible(d, Whole(Packet(StartPacket(t, v, payload))))
    ensures Do(d, Packet(StartPacket(t, v, payload))) == Running(b.mem, d.box, b.engine, d.decision)
    ensures Storing(b, 1, t, v, payload, 0, erased) && b.engine.metadata.active == d.engine.metadata.active
  {
    hide *;
    var q, b0 := StartPacket(t, v, payload), Board(d.engine, d.flash, []);
    Shapes(t, v, payload);
    SmallParts(t, v, payload);
    SmallFits(payload);
    ReadyParts(d, t);
    erased := StartOpens(b0, 0, t, v, payload);
    b := Submitted(b0, q);
    StoringReceives(b, 1, t, v, payload, 0, erased);
    BoardStep(d, q);
    StartsStraight(d.engine, d.flash, q);
    PacketAdmissible(d, q);
    SlotOfSession(d);
    ActiveKept(b0, q);
  }

  lemma SmallFits(payload: seq<u8>)
    ensures |payload| <= CHUNK_MAX ==> |payload| <= PAYLOAD_MAX
  {
  }

  /** START and DATA of a small package for the inactive slot. */
  lemma LoadsSmall(d: Machine, t: u8, v: Version, payload: seq<u8>)
    requires MachineOk(d) && d.Running? && Small(t, v, payload) && t == Other(d.engine.metadata.active)
    ensures var d1 := Do(d, Packet(StartPacket(t, v, payload)));
      var d2 := Do(d1, Packet(DataPacket(t, v, payload)));
      && Admissible(d, Whole(Packet(StartPacket(t, v, payload))))
      && Admissible(d1, Whole(Packet(DataPacket(t, v, payload))))
      && d1.Running? && Loaded(d2, t, v, payload)
      && d2.engine.metadata.active == d.engine.metadata.active
  {
    hide *;
    var q := DataPacket(t, v, payload);
    Shapes(t, v, payload);
    SmallParts(t, v, payload);
    SmallFits(payload);
    ReadyParts(d, t);
    SlotOfSession(d);
    var b, erased := StartsSmall(d, t, v, payload);
    var d1 := Running(b.mem, d.box, b.engine, d.decision);
    ChunkIsNext(payload);
    var erased' := ChunkGoes(b, q, t, v, payload, 0, erased);
    var b2 := Submitted(b, q);
    StoringReceives(b2, 2, t, v, payload, |payload|, erased');
    SameBoard(b, q);
    BoardStep(d1, q);
    StoringFacts(b, 1, t, v, payload, 0, erased);
    KeepsCourse(b.engine, b.mem, q, t);
    PacketAdmissible(d1, q);
    ActiveKept(b, q);
    StoringFacts(b2, 2, t, v, payload, |payload|, erased');
    EndWillPass(b2, 2, t, v, payload, erased');
    MachineParts(b2.mem, d.box, b2.engine, d.decision);
    LoadedIs(Running(b2.mem, d.box, b2.engine, d.decision), t, v, payload);
  }

  lemma LoadedIs(d: Machine, t: u8, v: Version, payload: seq<u8>)
    requires Small(t, v, payload) && MachineOk(d) && d.Running? && GoodTarget(d.engine)
    requires Target(d.engine.header) == t && EndError(d.engine, d.flash) == NoError && VersionOf(d.engine.header) == v
    ensures Loaded(d, t, v, payload)
  {
    hide MachineOk, GoodTarget, EndError, Small;
  }

  // ---- A confirmed update ----

  /** An update of the inactive slot, its trial boot, and the confirmation. */
  function InstallRun(t: u8, v: Version, payload: seq<u8>): seq<Event>
    requires Small(t, v, payload)
  {
    LoadRun(t, v, payload) + [Whole(Packet(END_PACKET))] + [Whole(PowerOn)] + [Whole(Jump)] + [Whole(Confirm(v))]
  }

  /** A start-up, START and DATA. */
  function LoadRun(t: u8, v: Version, payload: seq<u8>): seq<Event>
    requires Small(t, v, payload)
  {
    [] + [Whole(PowerOn)] + [Whole(Packet(StartPacket(t, v, payload)))] + [Whole(Packet(DataPacket(t, v, payload)))]
  }

  /** From any startable flash: start-up, then the package is loaded. */
  lemma LoadRuns(m: Memory, box: Box, t: u8, v: Version, payload: seq<u8>)
    requires Startable(m) && Small(t, v, payload)
    requires t == Other(EffectiveRecord(Do(Off(m, box), PowerOn).flash).active)
    ensures AdmissibleRun(Off(m, box), LoadRun(t, v, payload))
    ensures var d := Run(Off(m, box), LoadRun(t, v, payload));
      && Loaded(d, t, v, payload) && InSessionOf(d, m, Message(box))
      && d.engine.metadata.active == EffectiveRecord(Do(Off(m, box), PowerOn).flash).active
  {
    var d0 := Off(m, box);
    var d1 := Do(d0, PowerOn);
    assert AdmissibleRun(d0, []) && Run(d0, []) == d0;
    QuietAdmissible(d0, PowerOn);
    hide *;
    PoweredOn(m, box);
    Started(m, box);
    SlotOfSession(d1);
    LoadsSmall(d1, t, v, payload);
    var start, data := Packet(StartPacket(t, v, payload)), Packet(DataPacket(t, v, payload));
    SessionBegins(m, box);
    SessionStep(d1, start, m, Message(box));
    LoadedRuns(Do(Do(d1, start), data), t, v, payload);
    SessionStep(Do(d1, start), data, m, Message(box));
    RunMore(d0, [], PowerOn);
    RunMore(d0, [] + [Whole(PowerOn)], Packet(StartPacket(t, v, payload)));
    RunMore(d0, [] + [Whole(PowerOn)] + [Whole(Packet(StartPacket(t, v, payload)))],
            Packet(DataPacket(t, v, payload)));
    LoadRunIs(t, v, payload);
  }

  lemma SessionStep(d: Machine, i: Input, m0: Memory, c: Option<Confirmation>)
    requires MachineOk(d) && Admissible(d, Whole(i)) && InSessionOf(d, m0, c) && Do(d, i).Running?
    ensures MachineOk(Do(d, i)) && InSessionOf(Do(d, i), m0, c)
  {
    hide Admissible, MachineOk, InSessionOf, Do, Durable;
    EventKeepsSafe(d, Whole(i));
    SessionGoesOn(d, Whole(i), m0, c);
  }

  lemma LoadedRuns(d: Machine, t: u8, v: Version, payload: seq<u8>)
    requires Small(t, v, payload) && Loaded(d, t, v, payload)
    ensures d.Running?
  {
    hide MachineOk, GoodTarget, EndError, Small;
  }

  lemma LoadRunIs(t: u8, v: Version, payload: seq<u8>)
    requires Small(t, v, payload)
    ensures LoadRun(t, v, payload) ==
      [] + [Whole(PowerOn)] + [Whole(Packet(StartPacket(t, v, payload)))] + [Whole(Packet(DataPacket(t, v, payload)))]
  {
    hide StartPacket, DataPacket;
  }

  /** END over a loaded package, the trial boot, and the confirmation. */
  lemma LoadedConfirms(d: Machine, t: u8, v: Version, payload: seq<u8>)
    requires Small(t, v, payload) && Loaded(d, t, v, payload)
    ensures var d1 := Do(d, Packet(END_PACKET));
      var d2 := Do(d1, PowerOn);
      var d3 := Do(d2, Jump);
      var d4 := Do(d3, Confirm(v));
      && Admissible(d, Whole(Packet(END_PACKET)))
      && d4 == Off(d4.flash, Posted(t, v))
      && TrialOf(EffectiveRecord(d4.flash), d4.flash, d.engine.metadata.active, t, v)
  {
    LoadedFacts(d, t, v, payload);
    assert END_PACKET.command == END_UPDATE && 0 < MAX_ATTEMPTS;
    assert !AlreadyConfirmed(Cleared(), t, v);
    hide *;
    var a := d.engine.metadata.active;
    PacketAdmissible(d, END_PACKET);
    EndLeavesTrial(d, END_PACKET);
    var d1 := Do(d, Packet(END_PACKET));
    TrialStart(d1.flash, a, t, v);
    var d2 := Do(d1, PowerOn);
    JumpStep(d2);
    ConfirmStep(d2.flash, Cleared(), t, v);
  }

  lemma LoadedFacts(d: Machine, t: u8, v: Version, payload: seq<u8>)
    requires Small(t, v, payload) && Loaded(d, t, v, payload)
    ensures MachineOk(d) && d.Running? && Target(d.engine.header) == t && VersionOf(d.engine.header) == v
    ensures !Strays(d.engine, d.flash, END_PACKET) && Handle(d.engine, d.flash, END_PACKET).reply.Ack?
    ensures !Strays(d.engine, d.flash, END_PACKET) && Published(EndError(d.engine, d.flash))
  {
    hide MachineOk, GoodTarget, EndError, Small, EndSteps, PendingRecord;
  }

  /** Every small package for the inactive slot of a startable device can be
      installed and confirmed. */
  lemma Installs(m: Memory, a: u8, t: u8, v: Version, payload: seq<u8>)
    requires Startable(m) && Small(t, v, payload) && t == Other(a)
    requires EffectiveRecord(Do(Off(m, Cleared()), PowerOn).flash).active == a
    ensures AdmissibleRun(Off(m, Cleared()), InstallRun(t, v, payload))
    ensures var d := Run(Off(m, Cleared()), InstallRun(t, v, payload));
      d == Off(d.flash, Posted(t, v)) && TrialOf(EffectiveRecord(d.flash), d.flash, a, t, v)
  {
    var d0, es := Off(m, Cleared()), LoadRun(t, v, payload);
    InstallRunIs(t, v, payload);
    hide *;
    LoadRuns(m, Cleared(), t, v, payload);
    var d := Run(d0, es);
    LoadedConfirms(d, t, v, payload);
    RunMore(d0, es, Packet(END_PACKET));
    QuietInputs(Do(d, Packet(END_PACKET)), v);
    var es1 := es + [Whole(Packet(END_PACKET))];
    RunMore(d0, es1, PowerOn);
    var es2 := es1 + [Whole(PowerOn)];
    RunMore(d0, es2, Jump);
    var es3 := es2 + [Whole(Jump)];
    RunMore(d0, es3, Confirm(v));
  }

  lemma InstallRunIs(t: u8, v: Version, payload: seq<u8>)
    requires Small(t, v, payload)
    ensures InstallRun(t, v, payload) ==
      LoadRun(t, v, payload) + [Whole(Packet(END_PACKET))] + [Whole(PowerOn)] + [Whole(Jump)] + [Whole(Confirm(v))]
  {
    hide LoadRun;
  }

  lemma QuietInputs(d: Machine, v: Version)
    ensures Admissible(d, Whole(PowerOn))
    ensures Admissible(Do(d, PowerOn), Whole(Jump))
    ensures Admissible(Do(Do(d, PowerOn), Jump), Whole(Confirm(v)))
  {
    hide Do;
  }

  // ---- The reversal ----

  /** END cut after `done` of its steps. */
  function CutEnd(done: nat, box: Box): Event { Cut(Packet(END_PACKET), done, None, box) }

  /** Every confirmation can be undone: the start-up that makes slot t active
      is followed by an update of the former active slot, and a power cut while
      its END commits makes that slot active again. */
  lemma ConfirmationUndone(m: Memory, a: u8, t: u8, v: Version, v': Version, payload: seq<u8>, done: nat, box: Box)
    requires TrialOf(EffectiveRecord(m), m, a, t, v) && Small(a, v', payload) && 8 < done < 29
    ensures AdmissibleRun(Off(m, Posted(t, v)), LoadRun(a, v', payload))
    ensures var d := Run(Off(m, Posted(t, v)), LoadRun(a, v', payload));
      && Admissible(d, CutEnd(done, box)) && Reverts(d, CutEnd(done, box)) && !ConfirmedStart(d, CutEnd(done, box))
      && EffectiveRecord(d.flash).active == t
      && EffectiveRecord(AfterEvent(d, CutEnd(done, box)).flash).active == a
  {
    hide *;
    TrialFacts(m, a, t, v);
    TrialSlots(m, a, t, v);
    PromotingStart(m, a, t, v);
    LoadRuns(m, Posted(t, v), a, v', payload);
    var d := Run(Off(m, Posted(t, v)), LoadRun(a, v', payload));
    LoadedFacts(d, a, v', payload);
    SlotOfSession(d);
    CutReverts(d, m, Message(Posted(t, v)), done, box);
    ActiveSlotChanges(d, CutEnd(done, box));
  }

  lemma TrialSlots(m: Memory, a: u8, t: u8, v: Version)
    requires TrialOf(EffectiveRecord(m), m, a, t, v)
    ensures EffectiveRecord(m).active == a && a == Other(t)
  {
    hide EffectiveRecord, ImageOk;
  }

  lemma CutReverts(d: Machine, m: Memory, c: Option<Confirmation>, done: nat, box: Box)
    requires MachineOk(d) && d.Running? && InSessionOf(d, m, c) && 8 < done < 29
    requires Published(EndError(d.engine, d.flash)) && !Strays(d.engine, d.flash, END_PACKET)
    requires EffectiveRecord(m).active != d.engine.metadata.active
    ensures Admissible(d, CutEnd(done, box)) && Reverts(d, CutEnd(done, box))
    ensures !ConfirmedStart(d, CutEnd(done, box))
    ensures RecordAt(d.flash, d.engine.copy) == EffectiveRecord(m)
  {
    hide Startable, SessionOk, Strays, EndError, Published, Handle, EffectiveRecord, EffectiveCopy, BootRecordOf,
      SessionRecord, RecordValid, Decode, CutFlash;
    EndLength(d.flash, d.engine, END_PACKET);
  }

  lemma TinyIsSmall(slot: u8, v: Version)
    requires IsSlot(slot)
    ensures Small(slot, v, TinyPayload(slot))
  {
    hide PackHeader, PatchCrc, VectorVerdict, TinyPayload;
    TinyVector(slot);
  }

  /** A new device with such an image in slot A, the installation of another
      in slot B, and the beginning of a further update of slot A. */
  function TinyDevice(v: Version): Memory {
    TinyIsSmall(SLOT_A, v);
    NewDevice(Package(SLOT_A, v, TinyPayload(SLOT_A)).value)
  }

  function TinyRun(v: Version): seq<Event> {
    TinyIsSmall(SLOT_A, v);
    TinyIsSmall(SLOT_B, v);
    InstallRun(SLOT_B, v, TinyPayload(SLOT_B)) + LoadRun(SLOT_A, v, TinyPayload(SLOT_A))
  }

  lemma TinyIs(v: Version)
    ensures Package(SLOT_A, v, TinyPayload(SLOT_A)).Some?
    ensures TinyDevice(v) == NewDevice(Package(SLOT_A, v, TinyPayload(SLOT_A)).value)
    ensures Small(SLOT_A, v, TinyPayload(SLOT_A)) && Small(SLOT_B, v, TinyPayload(SLOT_B))
    ensures TinyRun(v) == InstallRun(SLOT_B, v, TinyPayload(SLOT_B)) + LoadRun(SLOT_A, v, TinyPayload(SLOT_A))
    ensures SLOT_B == Other(SLOT_A)
  {
    hide Package, TinyPayload, NewDevice, InstallRun, LoadRun;
    TinyIsSmall(SLOT_A, v);
    TinyIsSmall(SLOT_B, v);
  }

  /** A start-up that is not confirmed leaves the active slot alone. */
  lemma UnconfirmedStart(m: Memory)
    requires Startable(m)
    ensures EffectiveRecord(Do(Off(m, Cleared()), PowerOn).flash).active == EffectiveRecord(m).active
  {
    hide EffectiveRecord, Startable, SessionOk, Do, HeadersHonest, Cleared;
    NothingPosted();
    QuietAdmissible(Off(m, Cleared()), PowerOn);
    ActiveSlotChanges(Off(m, Cleared()), Whole(PowerOn));
  }

  /** Such a run exists: on a new device the image in slot A is followed by a
      confirmed one in slot B, and then, by a power cut in the next END and
      without a confirmation, slot A is active again. */
  lemma ActiveSlotReverts(v: Version, box: Box)
    ensures AdmissibleRun(Off(TinyDevice(v), Cleared()), TinyRun(v))
    ensures var d, e := Run(Off(TinyDevice(v), Cleared()), TinyRun(v)), CutEnd(9, box);
      && Admissible(d, e) && !ConfirmedStart(d, e)
      && EffectiveRecord(d.flash).active == SLOT_B
      && EffectiveRecord(AfterEvent(d, e).flash).active == SLOT_A
  {
    hide *;
    var m, d0 := TinyDevice(v), Off(TinyDevice(v), Cleared());
    TinyIs(v);
    NewDeviceBoots(v, TinyPayload(SLOT_A), Cleared());
    UnconfirmedStart(m);
    Installs(m, SLOT_A, SLOT_B, v, TinyPayload(SLOT_B));
    var d1 := Run(d0, InstallRun(SLOT_B, v, TinyPayload(SLOT_B)));
    ConfirmationUndone(d1.flash, SLOT_A, SLOT_B, v, v, TinyPayload(SLOT_A), 9, box);
    RunInParts(d0, InstallRun(SLOT_B, v, TinyPayload(SLOT_B)), LoadRun(SLOT_A, v, TinyPayload(SLOT_A)));
  }
}
