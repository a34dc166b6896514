// tm4c123gxl/common/src/ota_image.c: the image validator, and
// scripts/package_image.py: the packager that has to agree with it.

module Image {
  import opened Bytes
  import opened Flash
  import opened Crc32

  const HEADER_SIZE: int := 32
  const CRC_OFFSET: int := 22
  const RESERVED_OFFSET: int := 26
  const MAGIC: u32 := 0x3141_544F
  const SCHEMA: u16 := 1
  const SRAM_START: u32 := 0x2000_0000
  const SRAM_END: u32 := 0x2000_8000

  datatype Version = Version(major: u16, minor: u16, patch: u16)

  /** ota_firmware_header_t is packed: a header is its 32 bytes. */
  type Header = h: seq<u8> | |h| == HEADER_SIZE witness seq(HEADER_SIZE, i => 0)

  function Target(h: Header): u8 { h[6] }

  function VersionOf(h: Header): Version {
    Version(GetU16(h, 8), GetU16(h, 10), GetU16(h, 12))
  }

  function PayloadSize(h: Header): u32 { GetU32(h, 14) }

  function PayloadCrc(h: Header): u32 { GetU32(h, 18) }

  function HeaderCrc(h: Header): u32 { GetU32(h, CRC_OFFSET) }

  /** ota_header_crc32: the checksum with its own field cleared. */
  function ComputedHeaderCrc(h: Header): u32 {
    Crc(h[..CRC_OFFSET] + [0, 0, 0, 0] + h[RESERVED_OFFSET..])
  }

  predicate ReservedClear(h: Header) {
    forall i :: RESERVED_OFFSET <= i < HEADER_SIZE ==> h[i] == 0
  }

  /** ota_header_validate. */
  predicate HeaderOk(h: Header, slot: u8) {
    && IsSlot(slot)
    && GetU32(h, 0) == MAGIC
    && GetU16(h, 4) == SCHEMA
    && Target(h) == slot
    && h[7] == 0
    && 0 < PayloadSize(h) <= PAYLOAD_MAX
    && HeaderCrc(h) == ComputedHeaderCrc(h)
    && ReservedClear(h)
  }

  datatype Verdict = Ok | BadHeader | BadMsp | BadReset | BadPayloadCrc

  /** ota_vector_validate. */
  function VectorVerdict(msp: u32, reset: u32, slot: u8): Verdict {
    var resetAddress := reset - reset % 2;
    if msp % 4 != 0 || msp < SRAM_START || msp > SRAM_END then BadMsp
    else if !IsSlot(slot) || reset % 2 == 0 || resetAddress < PayloadStart(slot)
            || resetAddress >= PayloadStart(slot) + PAYLOAD_MAX then BadReset
    else Ok
  }

  function HeaderAt(m: Memory, slot: u8): Header {
    m[SlotStart(slot)..SlotStart(slot) + HEADER_SIZE]
  }

  function PayloadAt(m: Memory, slot: u8, size: nat): (p: seq<u8>)
    requires size <= PAYLOAD_MAX
    ensures |p| == size
  {
    m[PayloadStart(slot)..PayloadStart(slot) + size]
  }

  function VectorAt(m: Memory, slot: u8): Verdict {
    VectorVerdict(GetU32(m, PayloadStart(slot)), GetU32(m, PayloadStart(slot) + 4), slot)
  }

  /** What ota_image_validate answers, with a one-shot payload checksum. */
  function ImageVerdict(m: Memory, slot: u8): Verdict {
    var h := HeaderAt(m, slot);
    if !HeaderOk(h, slot) then BadHeader
    else if VectorAt(m, slot) != Ok then VectorAt(m, slot)
    else if Crc(PayloadAt(m, slot, PayloadSize(h))) != PayloadCrc(h) then BadPayloadCrc
    else Ok
  }

  predicate HeaderValid(m: Memory, slot: u8) { HeaderOk(HeaderAt(m, slot), slot) }

  predicate ImageOk(m: Memory, slot: u8) { IsSlot(slot) && ImageVerdict(m, slot) == Ok }

  /** ota_image_validate, reading the payload through a 256-byte buffer. The
      header it reports is the one it validated. */
  method Validate(flash: FlashDriver, slot: u8) returns (verdict: Verdict, info: Header)
    requires IsSlot(slot)
    ensures verdict == ImageVerdict(flash.mem, slot)
    ensures verdict == Ok ==> info == HeaderAt(flash.mem, slot)
  {
    hide Crc, HeaderOk, VectorVerdict;
    info := flash.ReadBytes(SlotStart(slot), HEADER_SIZE);
    if !HeaderOk(info, slot) {
      return BadHeader, info;
    }
    var vector := flash.ReadBytes(PayloadStart(slot), 8);
    verdict := VectorVerdict(GetU32(vector, 0), GetU32(vector, 4), slot);
    assert verdict == VectorAt(flash.mem, slot);
    if verdict != Ok {
      return;
    }
    HeaderSize(info, slot);
    var crc := PayloadChecksum(flash, slot, PayloadSize(info));
    if crc != PayloadCrc(info) {
      verdict := BadPayloadCrc;
    }
  }

  /** The checksum loop shared by ota_image_validate and read_payload_crc:
      256-byte reads give the one-shot checksum of the bytes. */
  method PayloadChecksum(flash: FlashDriver, slot: u8, size: nat) returns (crc: u32)
    ensures crc == Crc(Read(flash.mem, PayloadStart(slot), size))
  {
    hide Update, Finish;
    var address: nat := PayloadStart(slot);
    var remaining := size;
    var register := INITIAL;
    ghost var all := Read(flash.mem, PayloadStart(slot), size);
    assert all[..0] == [];
    UpdateNone(INITIAL);
    while remaining != 0
      invariant 0 <= remaining <= size
      invariant address == PayloadStart(slot) + (size - remaining)
      invariant register == Update(INITIAL, all[..size - remaining])
    {
      var length := if remaining > CHUNK_MAX then CHUNK_MAX else remaining;
      var buffer := flash.ReadBytes(address, length);
      var done := size - remaining;
      UpdateConcat(INITIAL, all[..done], buffer);
      assert all[..done] + buffer == all[..done + length];
      register := UpdateLoop(register, buffer);
      address := address + length;
      remaining := remaining - length;
    }
    assert all[..size] == all;
    crc := Finish(register);
  }

  // ---- Framing ----

  /** A verdict depends on the header and on the bytes from the payload on; the
      rest of the header page is never read. */
  lemma VerdictReads(m: Memory, m': Memory, slot: u8)
    requires Same(m, m', SlotStart(slot), SlotStart(slot) + HEADER_SIZE)
    requires Same(m, m', PayloadStart(slot), SlotStart(slot) + SLOT_SIZE)
    ensures HeaderAt(m, slot) == HeaderAt(m', slot)
    ensures ImageVerdict(m, slot) == ImageVerdict(m', slot)
  {
    hide HeaderOk, VectorVerdict, Crc;
    assert HeaderAt(m, slot) == HeaderAt(m', slot);
    var p := PayloadStart(slot);
    assert GetU32(m, p) == GetU32(m', p) && GetU32(m, p + 4) == GetU32(m', p + 4);
    if HeaderOk(HeaderAt(m, slot), slot) {
      var size := PayloadSize(HeaderAt(m, slot));
      HeaderSize(HeaderAt(m, slot), slot);
      assert PayloadAt(m, slot, size) == PayloadAt(m', slot, size);
    }
  }

  /** A verdict depends on the bytes of the slot only. */
  lemma VerdictFrame(m: Memory, m': Memory, slot: u8)
    requires Same(m, m', SlotStart(slot), SlotStart(slot) + SLOT_SIZE)
    ensures HeaderAt(m, slot) == HeaderAt(m', slot)
    ensures ImageVerdict(m, slot) == ImageVerdict(m', slot)
  {
    hide HeaderAt, ImageVerdict;
    VerdictReads(m, m', slot);
  }

  lemma HeaderSize(h: Header, slot: u8)
    requires HeaderOk(h, slot)
    ensures IsSlot(slot) && Target(h) == slot && 0 < PayloadSize(h) <= PAYLOAD_MAX
  {
  }

  /** A header page whose last header word is still erased does not validate:
      the reserved tail has to be zero. */
  lemma TornHeaderFails(m: Memory, slot: u8)
    requires m[SlotStart(slot) + HEADER_SIZE - 1] == 0xFF
    ensures !HeaderValid(m, slot)
  {
    assert HeaderAt(m, slot)[HEADER_SIZE - 1] == 0xFF;
  }

  // ---- The packager ----

  /** HEADER.pack with a zero checksum field. */
  function PackHeader(slot: u8, v: Version, size: u32, payloadCrc: u32): (h: Header) {
    PutU32(MAGIC) + PutU16(SCHEMA) + [slot, 0] + PutU16(v.major) + PutU16(v.minor) + PutU16(v.patch)
    + PutU32(size) + PutU32(payloadCrc) + [0, 0, 0, 0] + [0, 0, 0, 0, 0, 0]
  }

  /** struct.pack_into("<I", header, 22, crc). */
  function PatchCrc(h: Header): Header {
    h[..CRC_OFFSET] + PutU32(Crc(h)) + h[RESERVED_OFFSET..]
  }

  /** package: None where the script raises ValueError. The script's own
      vector check needs eight payload bytes. */
  function Package(slot: u8, v: Version, payload: seq<u8>): Option<seq<u8>>
    requires IsSlot(slot)
  {
    if payload == [] || |payload| > PAYLOAD_MAX then None
    else if |payload| < 8 then None
    else if VectorVerdict(GetU32(payload, 0), GetU32(payload, 4), slot) != Ok then None
    else
      var header := PatchCrc(PackHeader(slot, v, |payload|, Crc(payload)));
      Some(header + seq(PAGE - HEADER_SIZE, i => 0xFF) + payload)
  }

  /** m holds the package at the slot: its header page, then its payload. */
  predicate Stored(m: Memory, slot: u8, package: seq<u8>) {
    SlotStart(slot) + |package| <= FLASH_END && m[SlotStart(slot)..SlotStart(slot) + |package|] == package
  }

  lemma PackFields(slot: u8, v: Version, size: u32, payloadCrc: u32)
    ensures var h := PackHeader(slot, v, size, payloadCrc);
      && GetU32(h, 0) == MAGIC && GetU16(h, 4) == SCHEMA && Target(h) == slot && h[7] == 0
      && VersionOf(h) == v && PayloadSize(h) == size && PayloadCrc(h) == payloadCrc
      && h[CRC_OFFSET..RESERVED_OFFSET] == [0, 0, 0, 0] && ReservedClear(h)
  {
    var h := PackHeader(slot, v, size, payloadCrc);
    U32Slice(h, 0);
    U32Slice(h, 14);
    U32Slice(h, 18);
    assert h[0..4] == PutU32(MAGIC);
    assert h[14..18] == PutU32(size);
    assert h[18..22] == PutU32(payloadCrc);
    U32RoundTrip(MAGIC);
    U32RoundTrip(size);
    U32RoundTrip(payloadCrc);
  }

  /** Patching leaves the other fields alone, and the result checks. */
  lemma PatchChecks(h: Header)
    requires h[CRC_OFFSET..RESERVED_OFFSET] == [0, 0, 0, 0]
    ensures PatchCrc(h)[..CRC_OFFSET] == h[..CRC_OFFSET]
    ensures PatchCrc(h)[RESERVED_OFFSET..] == h[RESERVED_OFFSET..]
    ensures HeaderCrc(PatchCrc(h)) == ComputedHeaderCrc(PatchCrc(h))
  {
    var p := PatchCrc(h);
    assert p[..CRC_OFFSET] + [0, 0, 0, 0] + p[RESERVED_OFFSET..] == h;
    U32Slice(p, CRC_OFFSET);
    assert p[CRC_OFFSET..CRC_OFFSET + 4] == PutU32(Crc(h));
    U32RoundTrip(Crc(h));
  }

  lemma FieldsFromPrefix(h: Header, p: Header)
    requires p[..CRC_OFFSET] == h[..CRC_OFFSET]
    ensures GetU32(p, 0) == GetU32(h, 0) && GetU16(p, 4) == GetU16(h, 4) && p[6] == h[6] && p[7] == h[7]
    ensures VersionOf(p) == VersionOf(h) && PayloadSize(p) == PayloadSize(h) && PayloadCrc(p) == PayloadCrc(h)
  {
    assert forall i :: 0 <= i < CRC_OFFSET ==> p[i] == p[..CRC_OFFSET][i] == h[i];
  }

  /** The script's header for a payload, and the fields a reader finds in it. */
  function PackagedHeader(slot: u8, v: Version, payload: seq<u8>): Header
    requires |payload| <= PAYLOAD_MAX
  {
    PatchCrc(PackHeader(slot, v, |payload|, Crc(payload)))
  }

  lemma PackagedHeaderOk(slot: u8, v: Version, payload: seq<u8>)
    requires IsSlot(slot) && 0 < |payload| <= PAYLOAD_MAX
    ensures var h := PackagedHeader(slot, v, payload);
      HeaderOk(h, slot) && VersionOf(h) == v && PayloadSize(h) == |payload| && PayloadCrc(h) == Crc(payload)
  {
    hide Crc, PackHeader, PatchCrc, VersionOf;
    var raw := PackHeader(slot, v, |payload|, Crc(payload));
    var header := PatchCrc(raw);
    PackFields(slot, v, |payload|, Crc(payload));
    PatchChecks(raw);
    FieldsFromPrefix(raw, header);
    forall i | RESERVED_OFFSET <= i < HEADER_SIZE
      ensures header[i] == 0
    {
      assert header[i] == header[RESERVED_OFFSET..][i - RESERVED_OFFSET] == raw[i];
    }
  }

  lemma StoredParts(slot: u8, v: Version, payload: seq<u8>, m: Memory)
    requires IsSlot(slot) && Package(slot, v, payload).Some?
    requires Stored(m, slot, Package(slot, v, payload).value)
    ensures HeaderAt(m, slot) == PackagedHeader(slot, v, payload)
    ensures PayloadAt(m, slot, |payload|) == payload
  {
    hide Crc, VectorVerdict, PackHeader, PatchCrc;
    var package := Package(slot, v, payload).value;
    var start := SlotStart(slot);
    var stored := m[start..start + |package|];
    assert stored[..HEADER_SIZE] == PackagedHeader(slot, v, payload);
    assert HeaderAt(m, slot) == stored[..HEADER_SIZE];
    assert PayloadAt(m, slot, |payload|) == stored[PAGE..];
    assert stored[PAGE..] == payload;
  }

  /** Every package the script writes validates when stored at its slot. */
  lemma PackageValidates(slot: u8, v: Version, payload: seq<u8>, m: Memory)
    requires IsSlot(slot) && Package(slot, v, payload).Some?
    requires Stored(m, slot, Package(slot, v, payload).value)
    ensures ImageOk(m, slot)
    ensures VersionOf(HeaderAt(m, slot)) == v && PayloadAt(m, slot, |payload|) == payload
  {
    hide Crc, VectorVerdict, HeaderOk, VersionOf, PayloadSize, PayloadCrc;
    StoredParts(slot, v, payload, m);
    PackagedHeaderOk(slot, v, payload);
    VectorOfPayload(m, slot, payload);
  }

  lemma VectorOfPayload(m: Memory, slot: u8, payload: seq<u8>)
    requires 8 <= |payload| <= PAYLOAD_MAX && PayloadAt(m, slot, |payload|) == payload
    ensures VectorAt(m, slot) == VectorVerdict(GetU32(payload, 0), GetU32(payload, 4), slot)
  {
    hide VectorVerdict;
    assert forall i :: 0 <= i < |payload| ==>
      m[PayloadStart(slot) + i] == PayloadAt(m, slot, |payload|)[i] == payload[i];
  }

  lemma WordField(h: Header, i: nat)
    requires i + 4 <= HEADER_SIZE
    ensures PutU32(GetU32(h, i)) == h[i..i + 4]
  {
    U32Slice(h, i);
    U32Bytes(h[i..i + 4]);
  }

  lemma HalfField(h: Header, i: nat)
    requires i + 2 <= HEADER_SIZE
    ensures PutU16(GetU16(h, i)) == h[i..i + 2]
  {
    U16Bytes(h[i..i + 2]);
  }

  /** A header that validates is the packager's header for its own fields. */
  lemma ValidHeaderIsPacked(h: Header, slot: u8)
    requires HeaderOk(h, slot)
    ensures h == PatchCrc(PackHeader(slot, VersionOf(h), PayloadSize(h), PayloadCrc(h)))
  {
    hide HeaderOk, ComputedHeaderCrc, PatchCrc, GetU32, GetU16, PutU32, PutU16, ReservedClear, HeaderCrc;
    FixedFields(h, slot);
    HalfField(h, 8);
    HalfField(h, 10);
    HalfField(h, 12);
    WordField(h, 14);
    WordField(h, 18);
    Reassemble(h, PackHeader(slot, VersionOf(h), PayloadSize(h), PayloadCrc(h)));
  }

  lemma FixedFields(h: Header, slot: u8)
    requires HeaderOk(h, slot)
    ensures PutU32(MAGIC) == h[0..4] && PutU16(SCHEMA) == h[4..6] && h[6] == slot && h[7] == 0
    ensures HeaderCrc(h) == ComputedHeaderCrc(h) && ReservedClear(h)
  {
    hide ComputedHeaderCrc, PutU32, PutU16;
    WordField(h, 0);
    HalfField(h, 4);
  }

  lemma Reassemble(h: Header, raw: Header)
    requires raw == h[0..4] + h[4..6] + [h[6], h[7]] + h[8..10] + h[10..12] + h[12..14] + h[14..18] + h[18..22]
      + [0, 0, 0, 0] + [0, 0, 0, 0, 0, 0]
    requires HeaderCrc(h) == ComputedHeaderCrc(h) && ReservedClear(h)
    ensures h == PatchCrc(raw)
  {
    hide Crc;
    HeaderParts(h);
    WordField(h, 22);
    assert raw == h[..22] + [0, 0, 0, 0] + h[26..];
    assert raw[..22] == h[..22];
    assert raw[26..] == h[26..];
  }

  lemma HeaderParts(h: Header)
    requires ReservedClear(h)
    ensures h[26..] == [0, 0, 0, 0, 0, 0]
    ensures h[..22] == h[0..4] + h[4..6] + [h[6], h[7]] + h[8..10] + h[10..12] + h[12..14] + h[14..18] + h[18..22]
    ensures h == h[..22] + h[22..26] + h[26..]
  {
  }

  /** A slot holds a package, byte for byte, if it holds its header, erased
      bytes up to the end of the page, and its payload. */
  lemma StoredExactly(m: Memory, slot: u8, header: Header, payload: seq<u8>)
    requires |payload| <= PAYLOAD_MAX
    requires HeaderAt(m, slot) == header && PayloadAt(m, slot, |payload|) == payload
    ensures Stored(m, slot, header + seq(PAGE - HEADER_SIZE, i => 0xFF) + payload) <==>
      Blank(m, SlotStart(slot) + HEADER_SIZE, PayloadStart(slot))
  {
    var start, erased := SlotStart(slot), seq(PAGE - HEADER_SIZE, i => 0xFF);
    ThreeParts(m, start, header, erased, payload);
    ErasedIsBlank(m, start + HEADER_SIZE, PAGE - HEADER_SIZE);
  }

  lemma ThreeParts(m: seq<u8>, start: nat, a: seq<u8>, b: seq<u8>, c: seq<u8>)
    requires start + |a| + |b| + |c| <= |m|
    requires m[start..start + |a|] == a && m[start + |a| + |b|..start + |a| + |b| + |c|] == c
    ensures m[start..start + |a| + |b| + |c|] == a + b + c <==> m[start + |a|..start + |a| + |b|] == b
  {
    var whole, mid := m[start..start + |a| + |b| + |c|], m[start + |a|..start + |a| + |b|];
    assert whole == a + mid + c;
    assert whole[|a|..|a| + |b|] == mid && (a + b + c)[|a|..|a| + |b|] == b;
  }

  lemma ErasedIsBlank(m: Memory, at: nat, n: nat)
    requires at + n <= FLASH_END
    ensures m[at..at + n] == seq(n, i => 0xFF) <==> Blank(m, at, at + n)
  {
    if m[at..at + n] == seq(n, i => 0xFF) {
      forall i | at <= i < at + n
        ensures m[i] == 0xFF
      {
        assert m[at..at + n][i - at] == m[i];
      }
    }
  }

  /** Conversely, a slot that validates holds the header and the payload of a
      package, with two exceptions: the validator also accepts payloads shorter
      than the vector table, which the packager refuses, and it does not look at
      the rest of the header page. Without them it holds a package. */
  lemma ValidImageIsPackage(m: Memory, slot: u8)
    requires ImageOk(m, slot)
    ensures var h := HeaderAt(m, slot);
      var payload := PayloadAt(m, slot, PayloadSize(h));
      var package := Package(slot, VersionOf(h), payload);
      && (package.Some? <==> PayloadSize(h) >= 8)
      && (package.Some? ==>
            && package.value[..HEADER_SIZE] == h && package.value[PAGE..] == payload
            && (Stored(m, slot, package.value) <==> Blank(m, SlotStart(slot) + HEADER_SIZE, PayloadStart(slot))))
  {
    hide Crc, VectorVerdict, HeaderOk, PackHeader, PatchCrc, Stored, Blank;
    var h := HeaderAt(m, slot);
    HeaderSize(h, slot);
    var payload := PayloadAt(m, slot, PayloadSize(h));
    ValidHeaderIsPacked(h, slot);
    if PayloadSize(h) >= 8 {
      VectorOfPayload(m, slot, payload);
      StoredExactly(m, slot, h, payload);
    }
  }

  /** One exception: any other byte in the rest of the header page leaves a
      stored package valid. */
  lemma PaddingIgnored(slot: u8, v: Version, payload: seq<u8>, m: Memory, k: nat, b: u8)
    requires IsSlot(slot) && Package(slot, v, payload).Some?
    requires Stored(m, slot, Package(slot, v, payload).value)
    requires HEADER_SIZE <= k < PAGE && b != 0xFF
    ensures var m': Memory := m[SlotStart(slot) + k := b];
      ImageOk(m', slot) && !Stored(m', slot, Package(slot, v, payload).value)
  {
    hide Crc, VectorVerdict, HeaderOk, PackHeader, PatchCrc, ImageVerdict, HeaderAt;
    var m': Memory := m[SlotStart(slot) + k := b];
    PackageValidates(slot, v, payload, m);
    VerdictReads(m, m', slot);
    var package := Package(slot, v, payload).value;
    assert package[k] == 0xFF;
    assert m'[SlotStart(slot)..SlotStart(slot) + |package|][k] == b;
  }

  /** A payload of eight bytes: a stack pointer, and an entry point in the slot. */
  function TinyPayload(slot: u8): (p: seq<u8>)
    ensures |p| == 8
  {
    PutU32(SRAM_START) + PutU32(PayloadStart(slot) + 1)
  }

  lemma TinyVector(slot: u8)
    requires IsSlot(slot)
    ensures var p := TinyPayload(slot);
      |p| == 8 && VectorVerdict(GetU32(p, 0), GetU32(p, 4), slot) == Ok
  {
    var p := TinyPayload(slot);
    U32Slice(p, 0);
    U32Slice(p, 4);
    assert p[0..4] == PutU32(SRAM_START) && p[4..8] == PutU32(PayloadStart(slot) + 1);
    U32RoundTrip(SRAM_START);
    U32RoundTrip(PayloadStart(slot) + 1);
  }

  /** An erased flash with these bytes at a place in a slot. */
  function Holding(start: nat, header: seq<u8>, payload: seq<u8>): Memory {
    var erased: Memory := seq(FLASH_END, i => 0xFF);
    Programmed(Programmed(erased, start, header), start + PAGE, payload)
  }

  lemma HoldingReads(start: nat, header: Header, payload: seq<u8>)
    requires start + PAGE + |payload| <= FLASH_END
    ensures var m := Holding(start, header, payload);
      m[start..start + HEADER_SIZE] == header && m[start + PAGE..start + PAGE + |payload|] == payload
  {
    hide And8;
    var erased: Memory := seq(FLASH_END, i => 0xFF);
    ProgramBlank(erased, start, header);
    var m1 := Programmed(erased, start, header);
    ProgramBlank(m1, start + PAGE, payload);
    SameSlice(m1, Programmed(m1, start + PAGE, payload), start, start + HEADER_SIZE, start, start + HEADER_SIZE);
  }

  /** A slot whose header counts only the first four bytes of such a vector. */
  function ShortImage(slot: u8, v: Version): Memory {
    Holding(SlotStart(slot), PackagedHeader(slot, v, TinyPayload(slot)[..4]), TinyPayload(slot))
  }

  /** The other exception: a payload of four bytes validates, although no
      package has one. */
  lemma ShortImageValidates(slot: u8, v: Version)
    requires IsSlot(slot)
    ensures var m := ShortImage(slot, v);
      ImageOk(m, slot) && PayloadSize(HeaderAt(m, slot)) == 4
    ensures forall payload: seq<u8> :: |payload| == 4 ==> Package(slot, v, payload) == None
  {
    hide Crc, VectorVerdict, HeaderOk, PackHeader, PatchCrc, PayloadSize, PayloadCrc, TinyPayload, PackagedHeader,
      Holding;
    TinyVector(slot);
    var m, payload := ShortImage(slot, v), TinyPayload(slot)[..4];
    PackagedHeaderOk(slot, v, payload);
    HoldingReads(SlotStart(slot), PackagedHeader(slot, v, payload), TinyPayload(slot));
    assert PayloadAt(m, slot, 4) == PayloadAt(m, slot, 8)[..4];
    VectorOfPayload(m, slot, TinyPayload(slot));
  }

  // ---- The formats, byte by byte ----

  /** Where the payload of a slot starts. */
  function Entry(slot: u8): u32 { if slot == 0 then 0x8400 else 0x2_4000 }

  /** A vector table is accepted exactly with a stack pointer that is a multiple
      of four in the 32 KiB of SRAM or at their end, and an odd reset vector
      whose even part lies in the slot's 110 KiB of payload. */
  predicate VectorFits(msp: u32, reset: u32, slot: u8) {
    && msp % 4 == 0 && 0x2000_0000 <= msp <= 0x2000_8000
    && (slot == 0 || slot == 1) && reset % 2 == 1 && Entry(slot) <= reset - 1 < Entry(slot) + 110 * 1024
  }

  lemma VectorExact(msp: u32, reset: u32, slot: u8)
    ensures VectorVerdict(msp, reset, slot) == Ok <==> VectorFits(msp, reset, slot)
    ensures VectorVerdict(msp, reset, slot) == BadMsp <==>
      msp % 4 != 0 || msp < 0x2000_0000 || msp > 0x2000_8000
    ensures VectorVerdict(msp, reset, slot) == Ok || VectorVerdict(msp, reset, slot) == BadMsp
      || VectorVerdict(msp, reset, slot) == BadReset
  {
  }

  lemma FieldsExact(h: Header)
    ensures Target(h) == h[6]
    ensures VersionOf(h) == Version(Le16(h[8], h[9]), Le16(h[10], h[11]), Le16(h[12], h[13]))
    ensures PayloadSize(h) == Le32(h[14], h[15], h[16], h[17])
    ensures PayloadCrc(h) == Le32(h[18], h[19], h[20], h[21])
  {
  }

  /** A header is accepted exactly with the letters OTA1, schema 1, its own slot,
      a zero byte, a size of up to 110 KiB, the checksum of its 32 bytes with the
      checksum field cleared, and six zero bytes at the end. */
  lemma HeaderExact(h: Header, slot: u8)
    ensures HeaderOk(h, slot) <==>
      && (slot == 0 || slot == 1)
      && h[0..4] == [0x4F, 0x54, 0x41, 0x31] && h[4..6] == [1, 0] && h[6] == slot && h[7] == 0
      && 0 < Le32(h[14], h[15], h[16], h[17]) <= 110 * 1024
      && Le32(h[22], h[23], h[24], h[25]) == Crc(h[..22] + [0, 0, 0, 0] + h[26..])
      && h[26..32] == [0, 0, 0, 0, 0, 0]
  {
    hide Crc;
    assert h[26..] == h[26..32];
    if h[0..4] == [0x4F, 0x54, 0x41, 0x31] {
      assert h[0] == h[0..4][0] && h[1] == h[0..4][1] && h[2] == h[0..4][2] && h[3] == h[0..4][3];
    }
    if GetU32(h, 0) == MAGIC { MagicBytes(h); }
    if h[4..6] == [1, 0] { assert h[4] == h[4..6][0] && h[5] == h[4..6][1]; }
    if h[26..32] == [0, 0, 0, 0, 0, 0] {
      forall i | 26 <= i < 32 ensures h[i] == 0 { assert h[i] == h[26..32][i - 26]; }
    }
  }

  lemma MagicBytes(h: Header)
    requires GetU32(h, 0) == MAGIC
    ensures h[0..4] == [0x4F, 0x54, 0x41, 0x31]
  {
    U32Slice(h, 0);
    U32Injective(h[0..4], [0x4F, 0x54, 0x41, 0x31]);
  }

  /** The script packages exactly the payloads of 8 bytes to 110 KiB whose vector
      table fits the slot, with this header, 992 erased bytes and the payload. */
  lemma PackageExact(slot: u8, v: Version, payload: seq<u8>)
    requires IsSlot(slot)
    ensures Package(slot, v, payload).Some? <==>
      && 8 <= |payload| <= 110 * 1024
      && VectorFits(Le32(payload[0], payload[1], payload[2], payload[3]),
                    Le32(payload[4], payload[5], payload[6], payload[7]), slot)
    ensures Package(slot, v, payload).Some? ==>
      var p, size := Package(slot, v, payload).value, |payload|;
      && |p| == 1024 + size && p[1024..] == payload
      && p[..14] == [0x4F, 0x54, 0x41, 0x31, 1, 0, slot, 0, v.major % 256, v.major / 256,
                     v.minor % 256, v.minor / 256, v.patch % 256, v.patch / 256]
      && p[14..18] == PutU32(size) && p[18..22] == PutU32(Crc(payload))
      && p[22..26] == PutU32(Crc(p[..22] + [0, 0, 0, 0] + [0, 0, 0, 0, 0, 0]))
      && p[26..32] == [0, 0, 0, 0, 0, 0]
      && (forall i :: 32 <= i < 1024 ==> p[i] == 0xFF)
  {
    hide Crc, VectorVerdict, VectorFits, PackHeader, PatchCrc, PutU32;
    if |payload| >= 8 {
      VectorExact(GetU32(payload, 0), GetU32(payload, 4), slot);
    }
    if Package(slot, v, payload).Some? {
      PackedBytes(slot, v, |payload|, Crc(payload));
      var p, h := Package(slot, v, payload).value, PatchCrc(PackHeader(slot, v, |payload|, Crc(payload)));
      assert p == h + seq(PAGE - HEADER_SIZE, i => 0xFF) + payload;
      assert p[..32] == h;
      assert p[..14] == h[..14] && p[14..18] == h[14..18] && p[18..22] == h[18..22] && p[22..26] == h[22..26];
      assert p[26..32] == h[26..32] && p[..22] == h[..22];
    }
  }

  lemma PackedBytes(slot: u8, v: Version, size: u32, crc: u32)
    ensures var h := PatchCrc(PackHeader(slot, v, size, crc));
      && h[..14] == [0x4F, 0x54, 0x41, 0x31, 1, 0, slot, 0, v.major % 256, v.major / 256,
                     v.minor % 256, v.minor / 256, v.patch % 256, v.patch / 256]
      && h[14..18] == PutU32(size) && h[18..22] == PutU32(crc)
      && h[22..26] == PutU32(Crc(h[..22] + [0, 0, 0, 0] + [0, 0, 0, 0, 0, 0]))
      && h[26..32] == [0, 0, 0, 0, 0, 0]
  {
    hide Crc;
    var first := [0x4F, 0x54, 0x41, 0x31, 1, 0, slot, 0, v.major % 256, v.major / 256,
                  v.minor % 256, v.minor / 256, v.patch % 256, v.patch / 256];
    RawBytes(slot, v, size, crc);
    var raw := PackHeader(slot, v, size, crc);
    hide PutU32, PackHeader;
    assert raw[..22] == first + PutU32(size) + PutU32(crc);
    assert raw[26..] == [0, 0, 0, 0, 0, 0];
    var h := PatchCrc(raw);
    assert h == first + PutU32(size) + PutU32(crc) + PutU32(Crc(raw)) + [0, 0, 0, 0, 0, 0];
    assert h[..22] + [0, 0, 0, 0] + [0, 0, 0, 0, 0, 0] == raw;
  }

  lemma RawBytes(slot: u8, v: Version, size: u32, crc: u32)
    ensures PackHeader(slot, v, size, crc)
         == [0x4F, 0x54, 0x41, 0x31, 1, 0, slot, 0, v.major % 256, v.major / 256,
             v.minor % 256, v.minor / 256, v.patch % 256, v.patch / 256]
            + PutU32(size) + PutU32(crc) + [0, 0, 0, 0] + [0, 0, 0, 0, 0, 0]
  {
    assert PutU32(MAGIC) == [0x4F, 0x54, 0x41, 0x31] && PutU16(SCHEMA) == [1, 0];
    hide PutU32;
    assert PutU16(v.major) == [v.major % 256, v.major / 256] && PutU16(v.minor) == [v.minor % 256, v.minor / 256];
    assert PutU16(v.patch) == [v.patch % 256, v.patch / 256];
    hide PutU16;
  }

  /** The validator looks at the header, then at the vector table at the start of
      the payload, then at the payload's checksum. */
  lemma VerdictExact(m: Memory, slot: u8)
    ensures var start := if slot == 0 then 0x8000 else 0x2_3C00;
      var h := m[start..start + 32];
      var vector := VectorVerdict(
        Le32(m[start + 1024], m[start + 1025], m[start + 1026], m[start + 1027]),
        Le32(m[start + 1028], m[start + 1029], m[start + 1030], m[start + 1031]), slot);
      ImageVerdict(m, slot) ==
        if !HeaderOk(h, slot) then BadHeader
        else if vector != Ok then vector
        else if PayloadSize(h) <= PAYLOAD_MAX
                && Crc(m[start + 1024..start + 1024 + PayloadSize(h)]) != PayloadCrc(h) then BadPayloadCrc
        else Ok
  {
    hide Crc, HeaderOk, VectorVerdict;
    var start := if slot == 0 then 0x8000 else 0x2_3C00;
    if HeaderOk(m[start..start + 32], slot) { HeaderSize(m[start..start + 32], slot); }
  }
}
