// tm4c123gxl/common/src/ota_metadata.c: the two-copy boot record.

module Metadata {
  import opened Bytes
  import opened Flash
  import opened Crc32
  import opened Image

  const RECORD_SIZE: int := 80
  const RECORD_MAGIC: u32 := 0x4F54_414D
  const RECORD_SCHEMA: u16 := 1

  const EMPTY: u8 := 0
  const VALID: u8 := 1
  const ACTIVE: u8 := 2
  const PENDING: u8 := 3
  const FAILED: u8 := 5

  type Bytes3 = b: seq<u8> | |b| == 3 witness [0, 0, 0]
  type Bytes12 = b: seq<u8> | |b| == 12 witness [0, 0, 0, 0, 0, 0, 0, 0, 0, 0, 0, 0]

  const ZERO3: Bytes3 := [0, 0, 0]
  const ZERO12: Bytes12 := [0, 0, 0, 0, 0, 0, 0, 0, 0, 0, 0, 0]

  /** ota_slot_record_t. */
  datatype SlotRecord = SlotRecord(
    state: u8, reserved0: Bytes3, version: Version, reserved1: u16,
    payloadSize: u32, payloadCrc: u32, bootCount: u32)

  /** ota_metadata_record_t. */
  datatype Record = Record(
    magic: u32, schema: u16, reserved0: u16, generation: u32,
    slotA: SlotRecord, slotB: SlotRecord,
    active: u8, pending: u8, lastError: u16, crc: u32, reserved: Bytes12)
  {
    /** slot_record. */
    function Slot(slot: u8): SlotRecord { if slot == SLOT_A then slotA else slotB }

    function WithSlot(slot: u8, s: SlotRecord): Record {
      if slot == SLOT_A then this.(slotA := s) else this.(slotB := s)
    }
  }

  // ---- The stored form ----

  function EncodeSlot(s: SlotRecord): (b: seq<u8>)
    ensures |b| == 24
  {
    [s.state] + s.reserved0 + PutU16(s.version.major) + PutU16(s.version.minor) + PutU16(s.version.patch)
    + PutU16(s.reserved1) + PutU32(s.payloadSize) + PutU32(s.payloadCrc) + PutU32(s.bootCount)
  }

  function DecodeSlot(b: seq<u8>): SlotRecord
    requires |b| == 24
  {
    SlotRecord(b[0], b[1..4], Version(GetU16(b[4..6], 0), GetU16(b[6..8], 0), GetU16(b[8..10], 0)),
      GetU16(b[10..12], 0), GetU32(b[12..16], 0), GetU32(b[16..20], 0), GetU32(b[20..24], 0))
  }

  function Encode(r: Record): (b: seq<u8>)
    ensures |b| == RECORD_SIZE
  {
    PutU32(r.magic) + PutU16(r.schema) + PutU16(r.reserved0) + PutU32(r.generation)
    + EncodeSlot(r.slotA) + EncodeSlot(r.slotB)
    + [r.active, r.pending] + PutU16(r.lastError) + PutU32(r.crc) + r.reserved
  }

  function Decode(b: seq<u8>): Record
    requires |b| == RECORD_SIZE
  {
    Record(GetU32(b[0..4], 0), GetU16(b[4..6], 0), GetU16(b[6..8], 0), GetU32(b[8..12], 0),
      DecodeSlot(b[12..36]), DecodeSlot(b[36..60]),
      b[60], b[61], GetU16(b[62..64], 0), GetU32(b[64..68], 0), b[68..80])
  }

  lemma SlotRoundTrip(s: SlotRecord)
    ensures DecodeSlot(EncodeSlot(s)) == s
  {
    hide PutU16, PutU32, GetU16, GetU32;
    SlotFields(s);
    U32RoundTrip(s.payloadSize);
    U32RoundTrip(s.payloadCrc);
    U32RoundTrip(s.bootCount);
    U16RoundTrip(s.version.major);
    U16RoundTrip(s.version.minor);
    U16RoundTrip(s.version.patch);
    U16RoundTrip(s.reserved1);
    hide EncodeSlot;
  }

  lemma SlotFields(s: SlotRecord)
    ensures var b := EncodeSlot(s);
      && b[0] == s.state && b[1..4] == s.reserved0
      && b[4..6] == PutU16(s.version.major) && b[6..8] == PutU16(s.version.minor) && b[8..10] == PutU16(s.version.patch)
      && b[10..12] == PutU16(s.reserved1)
      && b[12..16] == PutU32(s.payloadSize) && b[16..20] == PutU32(s.payloadCrc) && b[20..24] == PutU32(s.bootCount)
  {
    hide PutU16, PutU32;
  }

  lemma RecordRoundTrip(r: Record)
    ensures Decode(Encode(r)) == r
  {
    hide EncodeSlot, DecodeSlot, PutU16, PutU32, GetU16, GetU32;
    RecordFields(r);
    U32RoundTrip(r.magic);
    U16RoundTrip(r.schema);
    U16RoundTrip(r.reserved0);
    U32RoundTrip(r.generation);
    U16RoundTrip(r.lastError);
    U32RoundTrip(r.crc);
    SlotRoundTrip(r.slotA);
    SlotRoundTrip(r.slotB);
    hide Encode;
  }

  lemma RecordFields(r: Record)
    ensures var b := Encode(r);
      && b[0..4] == PutU32(r.magic) && b[4..6] == PutU16(r.schema) && b[6..8] == PutU16(r.reserved0)
      && b[8..12] == PutU32(r.generation)
      && b[12..36] == EncodeSlot(r.slotA) && b[36..60] == EncodeSlot(r.slotB)
      && b[60] == r.active && b[61] == r.pending
      && b[62..64] == PutU16(r.lastError) && b[64..68] == PutU32(r.crc) && b[68..80] == r.reserved
  {
    hide EncodeSlot, PutU16, PutU32;
  }

  // ---- Validity ----

  function RecordCrc(r: Record): u32 { Crc(Encode(r.(crc := 0))) }

  /** ota_metadata_finalize. */
  function Finalize(r: Record): Record { r.(crc := RecordCrc(r)) }

  predicate SlotRecordOk(s: SlotRecord) {
    s.state <= FAILED && s.reserved0 == ZERO3 && s.reserved1 == 0
  }

  predicate SlotNameOk(slot: u8) { IsSlot(slot) || slot == SLOT_NONE }

  /** The checks of ota_metadata_record_valid other than the checksum. */
  predicate Sound(r: Record) {
    && r.magic == RECORD_MAGIC && r.schema == RECORD_SCHEMA && r.reserved0 == 0
    && SlotRecordOk(r.slotA) && SlotRecordOk(r.slotB)
    && SlotNameOk(r.active) && SlotNameOk(r.pending)
    && r.reserved == ZERO12
  }

  /** ota_metadata_record_valid. */
  predicate RecordValid(r: Record) { Sound(r) && r.crc == RecordCrc(r) }

  lemma FinalizeIsValid(r: Record)
    requires Sound(r)
    ensures RecordValid(Finalize(r))
  {
    assert Finalize(r).(crc := 0) == r.(crc := 0);
  }

  /** newer: the signed reading of the 32-bit difference is positive (the
      comparison of section 3.2 of RFC 1982). */
  predicate Newer(left: u32, right: u32) { 0 < Sub32(left, right) < 0x8000_0000 }

  /** The successor generation wins, also across the wrap, and never loses. */
  lemma SuccessorIsNewer(g: u32)
    ensures Newer(Add32(g, 1), g) && !Newer(g, Add32(g, 1))
  {
  }

  // ---- The two copies ----

  function RecordAt(m: Memory, copy: Copy): Record {
    Decode(m[CopyStart(copy)..CopyStart(copy) + RECORD_SIZE])
  }

  predicate CopyValid(m: Memory, copy: Copy) { RecordValid(RecordAt(m, copy)) }

  function OtherCopy(copy: Copy): Copy { 1 - copy }

  /** The copy that ota_metadata_load selects. */
  function Selected(m: Memory): Option<Copy> {
    if !CopyValid(m, 0) && !CopyValid(m, 1) then None
    else if CopyValid(m, 1)
            && (!CopyValid(m, 0) || Newer(RecordAt(m, 1).generation, RecordAt(m, 0).generation)) then Some(1)
    else Some(0)
  }

  /** ota_metadata_load, with its loop over the two copies. */
  method Load(flash: FlashDriver) returns (found: bool, record: Record, selected: Copy)
    ensures found == Selected(flash.mem).Some?
    ensures found ==> selected == Selected(flash.mem).value && record == RecordAt(flash.mem, selected)
  {
    hide RecordValid, Decode, Newer;
    var copies: seq<Record> := [];
    var valid: seq<bool> := [];
    var index := 0;
    while index < 2
      invariant 0 <= index <= 2 && |copies| == |valid| == index
      invariant index > 0 ==> copies[0] == RecordAt(flash.mem, 0) && valid[0] == CopyValid(flash.mem, 0)
      invariant index > 1 ==> copies[1] == RecordAt(flash.mem, 1) && valid[1] == CopyValid(flash.mem, 1)
    {
      var bytes := flash.ReadBytes(CopyStart(index), RECORD_SIZE);
      copies := copies + [Decode(bytes)];
      valid := valid + [RecordValid(Decode(bytes))];
      index := index + 1;
    }
    selected := if valid[1] && (!valid[0] || Newer(copies[1].generation, copies[0].generation)) then 1 else 0;
    record := copies[selected];
    found := valid[0] || valid[1];
  }

  /** What a commit stores: the record with the next generation, sealed. */
  function Next(r: Record): Record { Finalize(r.(generation := Add32(r.generation, 1))) }

  lemma NextIsValid(r: Record)
    requires Sound(r)
    ensures RecordValid(Next(r))
    ensures Next(r).generation == Add32(r.generation, 1)
    ensures Next(r).(generation := r.generation, crc := r.crc) == r
  {
    FinalizeIsValid(r.(generation := Add32(r.generation, 1)));
  }

  /** The flash steps of a commit into a copy: one page erase, twenty words. */
  function CommitSteps(copy: Copy, r: Record): (steps: seq<Step>)
    ensures |steps| == 21
  {
    [EraseStep(CopyStart(copy))] + ProgramSteps(CopyStart(copy), Encode(Next(r)))
  }

  lemma WholeWords(b: seq<u8>)
    requires |b| % 4 == 0
    ensures Padded(b) == b
  {
  }

  lemma MetadataOpen(copy: Copy)
    ensures RangeAllowed(CopyStart(copy), PAGE, SLOT_NONE, Erase)
    ensures ProgramAllowed(CopyStart(copy), RECORD_SIZE, SLOT_NONE)
    ensures EraseSteps(CopyStart(copy), PAGE) == [EraseStep(CopyStart(copy))]
  {
  }

  /** The flash while a commit is under way: before it, with the destination
      erased and n words written, or (n = 20) after it. */
  lemma CommitPrefix(m: Memory, copy: Copy, r: Record, k: nat)
    requires k <= 21
    ensures k == 0 ==> Replay(m, CommitSteps(copy, r)[..k]) == m
    ensures k > 0 ==>
      (Replay(m, CommitSteps(copy, r)[..k])
       == Programmed(Apply(m, EraseStep(CopyStart(copy))), CopyStart(copy), Encode(Next(r))[..4 * (k - 1)]))
  {
    hide Next, Encode;
    if k > 0 {
      var erase := EraseStep(CopyStart(copy));
      var words := ProgramSteps(CopyStart(copy), Encode(Next(r)));
      assert CommitSteps(copy, r)[..k] == [erase] + words[..k - 1];
      ReplayConcat(m, [erase], words[..k - 1]);
      ReplayOne(m, erase);
      ProgramPrefix(Apply(m, erase), CopyStart(copy), Encode(Next(r)), k - 1);
    }
  }

  /** A copy whose last record word is still erased is not valid: the reserved
      tail has to be zero. */
  lemma TornCopyFails(m: Memory, copy: Copy)
    requires m[CopyStart(copy) + RECORD_SIZE - 1] == 0xFF
    ensures !CopyValid(m, copy)
  {
    hide Decode, RecordCrc, SlotRecordOk, SlotNameOk;
    var b := m[CopyStart(copy)..CopyStart(copy) + RECORD_SIZE];
    ReservedRead(b);
    assert b[68..80][11] == b[79] == 0xFF;
  }

  lemma ReservedRead(b: seq<u8>)
    requires |b| == RECORD_SIZE
    ensures Decode(b).reserved == b[68..80]
  {
    hide DecodeSlot, GetU16, GetU32;
  }

  /** At every point of a commit everything outside the destination page is as
      before; strictly inside, the destination does not validate; at the end
      it holds exactly the sealed record. */
  lemma CommitCut(m: Memory, copy: Copy, r: Record, k: nat)
    requires k <= 21
    ensures var m' := Replay(m, CommitSteps(copy, r)[..k]);
      && Same(m, m', 0, CopyStart(copy))
      && Same(m, m', CopyStart(copy) + PAGE, FLASH_END)
      && (k == 0 ==> m' == m)
      && (0 < k < 21 ==> !CopyValid(m', copy))
      && (k == 21 ==> m'[CopyStart(copy)..CopyStart(copy) + RECORD_SIZE] == Encode(Next(r))
                      && RecordAt(m', copy) == Next(r))
  {
    hide Next, Encode, Decode, RecordValid;
    CommitPrefix(m, copy, r, k);
    if k > 0 {
      var at := CopyStart(copy);
      var data := Encode(Next(r));
      var erased := Apply(m, EraseStep(at));
      var m' := Programmed(erased, at, data[..4 * (k - 1)]);
      if k < 21 {
        TornCopyFails(m', copy);
      } else {
        assert data[..80] == data;
        ProgramBlank(erased, at, data);
        RecordRoundTrip(Next(r));
      }
    }
  }

  lemma CopyFrame(m: Memory, m': Memory, copy: Copy)
    requires Same(m, m', CopyStart(copy), CopyStart(copy) + PAGE)
    ensures RecordAt(m, copy) == RecordAt(m', copy)
  {
    hide Decode;
    SameSlice(m, m', CopyStart(copy), CopyStart(copy) + PAGE, CopyStart(copy), CopyStart(copy) + RECORD_SIZE);
  }

  /** ota_metadata_commit on a working flash: it performs exactly the commit
      steps, and its read-back check succeeds exactly for a sound record. */
  method Commit(flash: FlashDriver, r: Record, current: Copy) returns (ok: bool)
    modifies flash
    ensures flash.trace == old(flash.trace) + CommitSteps(OtherCopy(current), r)
    ensures flash.mem == Replay(old(flash.mem), CommitSteps(OtherCopy(current), r))
    ensures ok == Sound(r)
  {
    hide Encode, Decode, RecordCrc;
    var destination := OtherCopy(current);
    var next := Finalize(r.(generation := Add32(r.generation, 1)));
    MetadataOpen(destination);
    WholeWords(Encode(next));
    var erased := flash.ErasePages(CopyStart(destination), PAGE, SLOT_NONE);
    if !erased {
      return false;
    }
    ghost var middle := flash.mem;
    var programmed := flash.ProgramBytes(CopyStart(destination), Encode(next), SLOT_NONE);
    if !programmed {
      return false;
    }
    ghost var erase := [EraseStep(CopyStart(destination))];
    ghost var words := ProgramSteps(CopyStart(destination), Encode(next));
    assert CommitSteps(destination, r) == erase + words;
    ReplayConcat(old(flash.mem), erase, words);
    assert CommitSteps(destination, r)[..21] == CommitSteps(destination, r);
    CommitCut(old(flash.mem), destination, r, 21);
    var verified := flash.ReadBytes(CopyStart(destination), RECORD_SIZE);
    RecordRoundTrip(next);
    ok := verified == Encode(next) && RecordValid(Decode(verified));
    if Sound(r) { NextIsValid(r); }
  }

  // ---- The stored record in numbers ----

  /** Where the fields of a slot stand. */
  predicate SlotLayout(s: SlotRecord, b: seq<u8>, at: nat)
    requires at + 24 <= |b|
  {
    && b[at] == s.state && b[at + 1..at + 4] == s.reserved0
    && Le16(b[at + 4], b[at + 5]) == s.version.major && Le16(b[at + 6], b[at + 7]) == s.version.minor
    && Le16(b[at + 8], b[at + 9]) == s.version.patch && Le16(b[at + 10], b[at + 11]) == s.reserved1
    && Le32(b[at + 12], b[at + 13], b[at + 14], b[at + 15]) == s.payloadSize
    && Le32(b[at + 16], b[at + 17], b[at + 18], b[at + 19]) == s.payloadCrc
    && Le32(b[at + 20], b[at + 21], b[at + 22], b[at + 23]) == s.bootCount
  }

  /** The layout of the 80 bytes, for every stored record. */
  predicate RecordLayout(r: Record, b: seq<u8>) {
    && |b| == 80
    && Le32(b[0], b[1], b[2], b[3]) == r.magic && Le16(b[4], b[5]) == r.schema && Le16(b[6], b[7]) == r.reserved0
    && Le32(b[8], b[9], b[10], b[11]) == r.generation
    && SlotLayout(r.slotA, b, 12) && SlotLayout(r.slotB, b, 36)
    && b[60] == r.active && b[61] == r.pending && Le16(b[62], b[63]) == r.lastError
    && Le32(b[64], b[65], b[66], b[67]) == r.crc && b[68..80] == r.reserved
  }

  lemma SlotDecoded(b: seq<u8>)
    requires |b| == 24
    ensures SlotLayout(DecodeSlot(b), b, 0)
  {
  }

  lemma SlotMoved(s: SlotRecord, b: seq<u8>, at: nat)
    requires at + 24 <= |b| && SlotLayout(s, b[at..at + 24], 0)
    ensures SlotLayout(s, b, at)
  {
    hide Le16, Le32;
    var c := b[at..at + 24];
    assert forall k {:trigger c[k]} :: 0 <= k < 24 ==> c[k] == b[at + k];
    assert c[1..4] == b[at + 1..at + 4];
  }

  lemma Decoded(b: seq<u8>)
    requires |b| == 80
    ensures RecordLayout(Decode(b), b)
  {
    hide SlotLayout, DecodeSlot;
    SlotDecoded(b[12..36]);
    SlotDecoded(b[36..60]);
    SlotMoved(DecodeSlot(b[12..36]), b, 12);
    SlotMoved(DecodeSlot(b[36..60]), b, 36);
  }

  lemma SlotReencoded(b: seq<u8>)
    requires |b| == 24
    ensures EncodeSlot(DecodeSlot(b)) == b
  {
    hide PutU16, PutU32, GetU16, GetU32;
    U16Bytes(b[4..6]);
    U16Bytes(b[6..8]);
    U16Bytes(b[8..10]);
    U16Bytes(b[10..12]);
    U32Bytes(b[12..16]);
    U32Bytes(b[16..20]);
    U32Bytes(b[20..24]);
    assert b == [b[0]] + b[1..4] + b[4..6] + b[6..8] + b[8..10] + b[10..12] + b[12..16] + b[16..20] + b[20..24];
  }

  lemma Reencoded(b: seq<u8>)
    requires |b| == 80
    ensures Encode(Decode(b)) == b
  {
    hide PutU16, PutU32, GetU16, GetU32, EncodeSlot, DecodeSlot;
    U32Bytes(b[0..4]);
    U16Bytes(b[4..6]);
    U16Bytes(b[6..8]);
    U32Bytes(b[8..12]);
    SlotReencoded(b[12..36]);
    SlotReencoded(b[36..60]);
    U16Bytes(b[62..64]);
    U32Bytes(b[64..68]);
    assert b == b[0..4] + b[4..6] + b[6..8] + b[8..12] + b[12..36] + b[36..60]
                + [b[60], b[61]] + b[62..64] + b[64..68] + b[68..80];
  }

  /** Decoding reads this layout, and encoding writes it: the two are inverse to
      each other. */
  lemma LayoutExact(r: Record, b: seq<u8>)
    requires |b| == 80
    ensures RecordLayout(Decode(b), b) && RecordLayout(r, Encode(r)) && Encode(Decode(b)) == b
  {
    hide RecordLayout, EncodeSlot, DecodeSlot, Encode, Decode;
    Decoded(b);
    RecordRoundTrip(r);
    Decoded(Encode(r));
    Reencoded(b);
  }

  /** The record with the bytes of its checksum cleared. */
  lemma ChecksumCleared(b: seq<u8>)
    requires |b| == 80
    ensures Encode(Decode(b).(crc := 0)) == b[..64] + [0, 0, 0, 0] + b[68..]
  {
    hide EncodeSlot, DecodeSlot, PutU16, GetU16, GetU32;
    Reencoded(b);
    RecordFields(Decode(b));
    RecordFields(Decode(b).(crc := 0));
    assert PutU32(0) == [0, 0, 0, 0];
    var e := Encode(Decode(b).(crc := 0));
    hide Encode, Decode, PutU32;
    assert e == e[0..4] + e[4..6] + e[6..8] + e[8..12] + e[12..36] + e[36..60]
                + [e[60], e[61]] + e[62..64] + e[64..68] + e[68..80];
    assert b[..64] == b[0..4] + b[4..6] + b[6..8] + b[8..12] + b[12..36] + b[36..60] + [b[60], b[61]] + b[62..64];
  }

  /** What a stored slot has to look like. */
  predicate SlotBytesOk(b: seq<u8>, at: nat)
    requires at + 24 <= |b|
  {
    b[at] <= 5 && b[at + 1] == 0 && b[at + 2] == 0 && b[at + 3] == 0 && b[at + 10] == 0 && b[at + 11] == 0
  }

  predicate NameByteOk(b: u8) { b == 0 || b == 1 || b == 0xFF }

  /** A record is valid exactly if its 80 bytes begin with "MATO", schema 1 and
      two zero bytes, the two slots and the two slot names are possible, the last
      twelve bytes are zero, and the checksum, over the record with the four
      bytes of the checksum cleared, is the one at byte 64. */
  lemma ValidBytes(b: seq<u8>)
    requires |b| == 80
    ensures RecordValid(Decode(b)) <==>
      && b[..8] == [0x4D, 0x41, 0x54, 0x4F, 1, 0, 0, 0]
      && SlotBytesOk(b, 12) && SlotBytesOk(b, 36) && NameByteOk(b[60]) && NameByteOk(b[61])
      && (forall i :: 68 <= i < 80 ==> b[i] == 0)
      && Le32(b[64], b[65], b[66], b[67]) == Crc(b[..64] + [0, 0, 0, 0] + b[68..])
  {
    hide Decode, Encode, Le32, Le16, SlotBytesOk, NameByteOk, SlotRecordOk, SlotNameOk, SlotLayout;
    ChecksumCleared(b);
    Decoded(b);
    FirstBytes(b);
    SlotBytes(Decode(b).slotA, b, 12);
    SlotBytes(Decode(b).slotB, b, 36);
    NameByte(b[60]);
    NameByte(b[61]);
    ZeroTail(b);
  }

  lemma SlotBytes(s: SlotRecord, b: seq<u8>, at: nat)
    requires at + 24 <= |b| && SlotLayout(s, b, at)
    ensures SlotRecordOk(s) <==> SlotBytesOk(b, at)
  {
    hide Le32, Le16;
    TwoBytes(b[at + 10], b[at + 11]);
    ZeroBytes3(b, at + 1);
  }

  lemma NameByte(b: u8)
    ensures SlotNameOk(b) <==> NameByteOk(b)
  {
  }

  lemma TwoBytes(a: u8, b: u8)
    ensures Le16(a, b) == 0 <==> a == 0 && b == 0
  {
  }

  lemma ZeroTail(b: seq<u8>)
    requires |b| == 80
    ensures b[68..80] == ZERO12 <==> forall i :: 68 <= i < 80 ==> b[i] == 0
  {
    if forall i :: 68 <= i < 80 ==> b[i] == 0 {
      assert b[68..80] == ZERO12;
    } else {
      var i :| 68 <= i < 80 && b[i] != 0;
      assert b[68..80][i - 68] != ZERO12[i - 68];
    }
  }

  lemma ZeroBytes3(b: seq<u8>, i: nat)
    requires i + 3 <= |b|
    ensures b[i..i + 3] == ZERO3 <==> b[i] == 0 && b[i + 1] == 0 && b[i + 2] == 0
  {
    var c := b[i..i + 3];
    assert c[0] == b[i] && c[1] == b[i + 1] && c[2] == b[i + 2];
  }

  lemma FirstBytes(b: seq<u8>)
    requires |b| == 80
    ensures b[..8] == [0x4D, 0x41, 0x54, 0x4F, 1, 0, 0, 0] <==>
      && Le32(b[0], b[1], b[2], b[3]) == RECORD_MAGIC && Le16(b[4], b[5]) == RECORD_SCHEMA && Le16(b[6], b[7]) == 0
  {
    var c := b[..8];
    assert c[0] == b[0] && c[1] == b[1] && c[2] == b[2] && c[3] == b[3];
    assert c[4] == b[4] && c[5] == b[5] && c[6] == b[6] && c[7] == b[7];
    MagicWord(b[0], b[1], b[2], b[3]);
  }

  lemma MagicWord(a: u8, b: u8, c: u8, d: u8)
    ensures Le32(a, b, c, d) == RECORD_MAGIC <==> a == 0x4D && b == 0x41 && c == 0x54 && d == 0x4F
  {
  }

  /** The comparison of generations, in plain numbers. */
  lemma NewerExact(left: u32, right: u32)
    ensures Newer(left, right) <==>
      (left > right && left - right < 2147483648) || (left < right && right - left > 2147483648)
  {
  }

  /** Which of the two pages is selected: the one at 0x3F800, unless only the
      other is valid or both are and the other is newer. */
  lemma SelectedExact(m: Memory)
    ensures var first, second := Decode(m[0x3_F800..0x3_F850]), Decode(m[0x3_FC00..0x3_FC50]);
      && (Selected(m) == None <==> !RecordValid(first) && !RecordValid(second))
      && (Selected(m) == Some(0) <==>
            RecordValid(first) && (RecordValid(second) ==> !Newer(second.generation, first.generation)))
      && (Selected(m) == Some(1) <==>
            RecordValid(second) && (RecordValid(first) ==> Newer(second.generation, first.generation)))
  {
    hide RecordValid, Decode, Newer;
  }

  /** The accessors name the slots 0 and 1, and change one of them. */
  lemma SlotsByNumber(r: Record, slot: u8, s: SlotRecord)
    requires slot == 0 || slot == 1
    ensures r.Slot(0) == r.slotA && r.Slot(1) == r.slotB
    ensures r.WithSlot(slot, s).Slot(slot) == s && r.WithSlot(slot, s).Slot(1 - slot) == r.Slot(1 - slot)
    ensures r.WithSlot(slot, s).(slotA := r.slotA, slotB := r.slotB) == r
  {
  }

  /** A commit leaves in the other page, at its address, the record that was to be
      stored with the next generation and a checksum under which it is valid if
      it is sound; the rest of that page is erased, and nothing else changes. */
  lemma CommitExact(m: Memory, current: Copy, r: Record, i: nat)
    requires i < 0x4_0000
    ensures var m', at := Replay(m, CommitSteps(OtherCopy(current), r)), if current == 1 then 0x3_F800 else 0x3_FC00;
      var next := r.(generation := (r.generation + 1) % 0x1_0000_0000);
      && Decode(m'[at..at + 80]) == next.(crc := Crc(Encode(next.(crc := 0))))
      && (at + 80 <= i < at + 1024 ==> m'[i] == 0xFF)
      && (!(at <= i < at + 1024) ==> m'[i] == m[i])
  {
    hide Encode, Decode, Replay, Apply;
    var copy := OtherCopy(current);
    assert CommitSteps(copy, r)[..21] == CommitSteps(copy, r);
    CommitCut(m, copy, r, 21);
    CommitPrefix(m, copy, r, 21);
    if CopyStart(copy) + 80 <= i < CopyStart(copy) + 1024 { CommitRest(m, copy, r, i); }
  }

  lemma CommitRest(m: Memory, copy: Copy, r: Record, i: nat)
    requires CopyStart(copy) + 80 <= i < CopyStart(copy) + 1024
    ensures Programmed(Apply(m, EraseStep(CopyStart(copy))), CopyStart(copy), Encode(Next(r))[..80])[i] == 0xFF
  {
    hide Encode, Next;
  }
}
