// tm4c123gxl/common/src/ota_boot.c: which slot to boot, and what the decision
// does to the boot record.

module Boot {
  import opened Bytes
  import opened Flash
  import opened Image
  import opened Metadata

  const MAX_ATTEMPTS: u32 := 3

  datatype Confirmation = Confirmation(slot: u8, version: Version)

  datatype Decision = Stay | BootSlot(slot: u8)

  datatype Outcome = Outcome(record: Record, decision: Decision, commit: bool)

  /** bootable. */
  predicate Bootable(probe: u8 -> bool, slot: u8) { IsSlot(slot) && probe(slot) }

  /** The confirmation names the pending image, and that image validates. */
  predicate Confirms(r: Record, c: Option<Confirmation>, probe: u8 -> bool) {
    && IsSlot(r.pending)
    && c.Some?
    && c.value.slot == r.pending
    && c.value.version == r.Slot(r.pending).version
    && Bootable(probe, r.pending)
  }

  /** The pending image has had its chances, or does not validate any more. */
  predicate Exhausted(r: Record, probe: u8 -> bool) {
    !Bootable(probe, r.pending) || r.Slot(r.pending).bootCount >= MAX_ATTEMPTS
  }

  function Promote(r: Record): Record {
    var demoted := if IsSlot(r.active) then r.WithSlot(r.active, r.Slot(r.active).(state := VALID)) else r;
    demoted.WithSlot(r.pending, demoted.Slot(r.pending).(state := ACTIVE, bootCount := 0))
           .(active := r.pending, pending := SLOT_NONE)
  }

  function Reject(r: Record): Record {
    r.WithSlot(r.pending, r.Slot(r.pending).(state := FAILED)).(pending := SLOT_NONE)
  }

  function CountAttempt(r: Record): Record {
    var p := r.Slot(r.pending);
    r.WithSlot(r.pending, p.(bootCount := Add32(p.bootCount, 1)))
  }

  /** The active slot if it validates, else the other one (A if there is no
      active slot), else none. */
  function Fallback(active: u8, probe: u8 -> bool): Decision {
    if Bootable(probe, active) then BootSlot(active)
    else if Bootable(probe, Other(active)) then BootSlot(Other(active))
    else Stay
  }

  function Decide(r: Record, c: Option<Confirmation>, probe: u8 -> bool): Outcome {
    if Confirms(r, c, probe) then Outcome(Promote(r), BootSlot(r.pending), true)
    else if IsSlot(r.pending) && Exhausted(r, probe) then
      Outcome(Reject(r), Fallback(r.active, probe), true)
    else if IsSlot(r.pending) then Outcome(CountAttempt(r), BootSlot(r.pending), true)
    else Outcome(r, Fallback(r.active, probe), false)
  }

  /** The boot record in RAM, which ota_boot_decide edits in place. */
  class BootRecord {
    var record: Record

    constructor (r: Record)
      ensures record == r
    {
      record := r;
    }

    method DecideInPlace(c: Option<Confirmation>, probe: u8 -> bool) returns (decision: Decision, commit: bool)
      modifies this
      ensures Outcome(record, decision, commit) == Decide(old(record), c, probe)
    {
      decision, commit := Stay, false;
      var active, pending := record.active, record.pending;
      if IsSlot(pending) {
        var p := record.Slot(pending);
        if c.Some? && c.value.slot == pending && c.value.version == p.version && Bootable(probe, pending) {
          if IsSlot(active) {
            record := record.WithSlot(active, record.Slot(active).(state := VALID));
          }
          record := record.WithSlot(pending, record.Slot(pending).(state := ACTIVE));
          record := record.WithSlot(pending, record.Slot(pending).(bootCount := 0));
          record := record.(active := pending);
          record := record.(pending := SLOT_NONE);
          return BootSlot(pending), true;
        }
        if !Bootable(probe, pending) || p.bootCount >= MAX_ATTEMPTS {
          record := record.WithSlot(pending, p.(state := FAILED));
          record := record.(pending := SLOT_NONE);
          commit := true;
        } else {
          record := record.WithSlot(pending, p.(bootCount := Add32(p.bootCount, 1)));
          return BootSlot(pending), true;
        }
      }
      active := record.active;
      if Bootable(probe, active) {
        return BootSlot(active), commit;
      }
      var backup := Other(active);
      if Bootable(probe, backup) {
        return BootSlot(backup), commit;
      }
    }
  }

  // ---- What every decision keeps ----

  /** Deciding keeps a record storable, never touches the fields the commit
      seals, and changes nothing when it asks for no commit. */
  lemma DecideKeepsSound(r: Record, c: Option<Confirmation>, probe: u8 -> bool)
    ensures var o := Decide(r, c, probe);
      && (Sound(r) ==> Sound(o.record))
      && o.record.generation == r.generation && o.record.crc == r.crc
      && (!o.commit ==> o.record == r)
  {
  }

  /** A chosen slot validates; with a validating active slot there is always a
      choice, and the new record again has a validating active slot. */
  lemma DecideIsSafe(r: Record, c: Option<Confirmation>, probe: u8 -> bool)
    ensures var o := Decide(r, c, probe);
      && (o.decision.BootSlot? ==> Bootable(probe, o.decision.slot))
      && (Bootable(probe, r.active) ==> o.decision.BootSlot? && Bootable(probe, o.record.active))
  {
  }

  /** The active slot changes exactly by a matching confirmation. */
  lemma ActiveChanges(r: Record, c: Option<Confirmation>, probe: u8 -> bool)
    ensures var o := Decide(r, c, probe);
      o.record.active == if Confirms(r, c, probe) then r.pending else r.active
  {
  }

  /** Remaining unconfirmed boots of the pending image. */
  function Remaining(r: Record, slot: u8): nat {
    if r.pending == slot && IsSlot(slot) && r.Slot(slot).bootCount < MAX_ATTEMPTS
    then MAX_ATTEMPTS - r.Slot(slot).bootCount
    else 0
  }

  /** Without a matching confirmation every boot of the pending slot spends one
      attempt in a record that must be committed; once none is left the slot is
      FAILED, and the active slot is chosen if it validates. */
  lemma TrialSpendsAttempt(r: Record, c: Option<Confirmation>, probe: u8 -> bool, p: u8)
    requires IsSlot(p) && p != r.active && Bootable(probe, r.active)
    requires !Confirms(r, c, probe)
    ensures var o := Decide(r, c, probe);
      && o.record.active == r.active
      && (o.decision == BootSlot(p) ==> o.commit && r.pending == p && Remaining(r, p) > 0
                                         && Remaining(o.record, p) == Remaining(r, p) - 1)
      && (o.decision != BootSlot(p) ==> o.decision == BootSlot(r.active) && Remaining(o.record, p) == 0)
      && (r.pending == p && Remaining(r, p) == 0 ==>
            o.record.Slot(p).state == FAILED && o.record.pending == SLOT_NONE
            && o.commit && o.decision == BootSlot(r.active))
  {
  }

  // ---- The decision in terms of the two probes ----

  /** The image named pending validates. */
  predicate PendingValid(r: Record, probe: u8 -> bool) {
    (r.pending == 0 && probe(0)) || (r.pending == 1 && probe(1))
  }

  /** The pending image has been started fewer than three times. */
  predicate AttemptLeft(r: Record) { (if r.pending == 0 then r.slotA else r.slotB).bootCount < 3 }

  /** The message names the pending slot and its version. */
  predicate Matching(r: Record, c: Option<Confirmation>) {
    c == Some(Confirmation(r.pending, (if r.pending == 0 then r.slotA else r.slotB).version))
  }

  /** The slot that is booted: the pending one while it validates and is either
      confirmed or has an attempt left; else the active one if it validates;
      else the other one; with no active slot only A is considered. */
  lemma DecisionExact(r: Record, c: Option<Confirmation>, probe: u8 -> bool)
    ensures Decide(r, c, probe).decision ==
      if PendingValid(r, probe) && (Matching(r, c) || AttemptLeft(r)) then BootSlot(r.pending)
      else if r.active == 0 then (if probe(0) then BootSlot(0) else if probe(1) then BootSlot(1) else Stay)
      else if r.active == 1 then (if probe(1) then BootSlot(1) else if probe(0) then BootSlot(0) else Stay)
      else if probe(0) then BootSlot(0) else Stay
  {
  }

  /** So the device stays in the bootloader exactly if nothing can be booted. */
  lemma StaysExactly(r: Record, c: Option<Confirmation>, probe: u8 -> bool)
    ensures IsSlot(r.active) ==> (Decide(r, c, probe).decision == Stay <==> !probe(0) && !probe(1))
    ensures !IsSlot(r.active) ==>
      (Decide(r, c, probe).decision == Stay <==>
         !probe(0) && !(PendingValid(r, probe) && (Matching(r, c) || AttemptLeft(r))))
  {
    DecisionExact(r, c, probe);
    hide Decide;
  }

  /** What the decision does to the record: a confirmed image becomes ACTIVE (2)
      and the former one VALID (1); an image that is tried has its attempt
      counted; one that is exhausted or invalid is FAILED (5) and no longer
      pending; everything else is as before, and a commit is asked for exactly if
      a slot was pending. */
  lemma RecordExact(r: Record, c: Option<Confirmation>, probe: u8 -> bool)
    ensures var o := Decide(r, c, probe);
      && (o.commit <==> r.pending == 0 || r.pending == 1)
      && (o.commit && PendingValid(r, probe) && Matching(r, c) ==>
            && o.record.active == r.pending && o.record.pending == 0xFF
            && (r.pending == 0 ==> o.record.slotA == r.slotA.(state := 2, bootCount := 0)
                                   && o.record.slotB == if r.active == 1 then r.slotB.(state := 1) else r.slotB)
            && (r.pending == 1 ==> o.record.slotB == r.slotB.(state := 2, bootCount := 0)
                                   && o.record.slotA == if r.active == 0 then r.slotA.(state := 1) else r.slotA))
      && (o.commit && PendingValid(r, probe) && !Matching(r, c) && AttemptLeft(r) ==>
            && o.record.active == r.active && o.record.pending == r.pending
            && (r.pending == 0 ==> o.record.slotA == r.slotA.(bootCount := r.slotA.bootCount + 1)
                                   && o.record.slotB == r.slotB)
            && (r.pending == 1 ==> o.record.slotB == r.slotB.(bootCount := r.slotB.bootCount + 1)
                                   && o.record.slotA == r.slotA))
      && (o.commit && (!PendingValid(r, probe) || (!Matching(r, c) && !AttemptLeft(r))) ==>
            && o.record.active == r.active && o.record.pending == 0xFF
            && (r.pending == 0 ==> o.record.slotA == r.slotA.(state := 5) && o.record.slotB == r.slotB)
            && (r.pending == 1 ==> o.record.slotB == r.slotB.(state := 5) && o.record.slotA == r.slotA))
      && (!o.commit ==> o.record == r)
      && o.record == r.(slotA := o.record.slotA, slotB := o.record.slotB, active := o.record.active,
                        pending := o.record.pending)
  {
  }
}
