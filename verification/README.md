# A verified model of the A/B over-the-air bootloader

The device keeps two firmware slots, A and B, and two copies of a boot record.
An update arrives over a serial line from the Python client, or over HTTP
through the modem controller; the update engine writes it into the slot that is
not active, marks it pending, and the bootloader tries it a bounded number of
times until the application confirms itself. This project models that system in
Dafny and proves what it promises, in three parts that share one flash model:

1. **The power-fail-safe transaction.** The flash is a sequence of bytes on which
   only two elementary steps exist: erasing a page to 0xFF and programming a
   word, which can only clear bits. Every operation is described by the exact
   list of steps it performs, and power may fail between any two of them. The
   update engine, the two-copy record, the boot decision, the image validator,
   the mailbox and the start-up sequence are composed into one machine, and the
   theorems speak about every run of that machine.
2. **The streaming download.** The range planner, the length-framed body parser
   and the package splitter drive the same engine. The result is shown to be
   independent of how the stream is fragmented, and the flash to be quiet while
   body bytes are outstanding.
3. **The wire.** CRC-32, the frame encoder, the byte-at-a-time parser, and the
   stop-and-wait exchange over lossy channels.

Code that works by changing state is modelled by classes and loops
(`FlashDriver`, `BlUpdate`, `BootRecord`, `RetainedMailbox`, `Device`,
`FrameParser`, `BodyStream`, `Splitter`, `EspController`, the CRC, record,
checksum, compaction and parsing loops). Each method is proved to have exactly
the effect of a specification function, flash step for flash step, and the
lemmas are about those functions.

Formats, limits and decisions are also stated in literal numbers, without the
constants of the model: the lemmas whose names end in `Exact`,
`Exactly`, `InNumbers` or `Bytes` say what each of them accepts, refuses or does,
in both directions, and go through the inputs of each state machine one by one.

## Files

| file | contents |
|---|---|
| `Bytes.dfy`, `Crc32.dfy` | fixed-width integers and their byte images; CRC-32 as the bitwise loop, as the table form, and as a linear injective map |
| `Flash.dfy` | memory map, range guard, elementary steps, the driver |
| `Image.dfy`, `Metadata.dfy`, `Boot.dfy`, `Mailbox.dfy` | image validator and packager; boot record; boot decision; confirmation mailbox |
| `Update.dfy`, `Session.dfy` | the update engine, and what it keeps from packet to packet |
| `Bootloader.dfy`, `Runs.dfy`, `BlMain.dfy` | the machine with power cuts, theorems over its runs, and the main program as code |
| `Reversal.dfy`, `Hazards.dfy` | runs that end badly: a power cut undoes a confirmed change of the active slot, a straying packet breaks start-up, an erased image is jumped to |
| `HttpStream.dfy`, `CloudOta.dfy`, `Pipeline.dfy` | body parser, splitter, and the pipeline from end to end |
| `Controller.dfy`, `Download.dfy`, `Rpc.dfy`, `Modem.dfy`, `Bringup.dfy` | the modem controller, its run invariant and retries, the update request, a whole update with a modem that answers, and the bring-up of the link |
| `Protocol.dfy`, `StopAndWait.dfy`, `Serial.dfy` | frames and parser; client and engine over lossy channels; a whole update over the serial line |

## Assumptions

- Programming one 32-bit word is atomic, and flash operations fail only by a
  power cut. After a cut in an erase the page is either as it was or holds
  anything that does not validate as a header or as a record. Torn writes need
  no assumption about checksums: the header ends in six bytes, and the record in
  twelve, that have to be zero, so a prefix written over erased bytes is refused.
- A START that is refused in the middle of a transfer leaves its header behind,
  because the header is copied before it is checked (`bl_update.c:107-110`), and
  the engine goes on receiving with it. The invariant of a transfer
  (`Session.HandleKeepsTransfer`, `Session.PrefixRun`) excludes such a START;
  `Session.RefusedStartExact` shows that for this invariant the exclusion is
  exact, and `Session.ZeroStartLeavesBadHeader` gives such a packet.
- The theorems over runs allow refused STARTs, and exclude only packets that
  stray: with a refused header in place, a DATA packet stored in the metadata
  pages or in the header page of the inactive slot, or an END that publishes that
  header. DATA cannot stray before a whole slot has been received
  (`Session.PointerInside`). That condition is sufficient, not necessary. It
  cannot be dropped: `Session.StrayErasesRecord` shows a straying packet that
  erases an intact metadata copy, and `Hazards.StrayBreaksStart` a session in
  which that, with a power cut, leaves a flash whose active slot does not
  validate. The protected regions need no exclusion at all.
- The jump may happen up to a minute after the boot decision, after further
  packets (`bl_main.c:173-175`). The image that is jumped to then need not
  validate any more: `Runs.JumpedImage` shows that it does if and only if it is
  the active one or no START has been accepted since start-up, and
  `Hazards.JumpAfterErase` is a run of a new device in which it does not. "Cannot
  be booted" in the table means that no start-up decides for the slot.
- The boot-time commit and the END of the same session both write the copy that
  was not selected at load, with the same generation, because the copy index is
  not refreshed (`bl_main.c:129`, `bl_update.c:146`). A cut in that END brings
  back the record that the session started from. So it is not true that the
  active slot changes only by a confirmation: `Runs.ActiveSlotChanges` gives the
  exact condition for every event, and `Reversal.ActiveSlotReverts` a run of a new
  device in which slot A, replaced by a confirmed slot B, becomes active again
  through a power cut. Crash safety holds regardless.
- In `Modem` every transmission is answered, at any times short of a timeout, and
  the body of a range arrives intact; `Download` covers what happens otherwise.
- A frame damaged on the line is dropped in `StopAndWait`; `Protocol` shows that
  damage within four consecutive bytes is always detected.

## Model

| member | source | states |
|---|---|---|
| Crc32.UpdateLoop | tm4c123gxl/common/src/ota_crc32.c:9-26 | the two nested loops compute the register that the recursive definition gives, for every start value |
| Crc32.ByteStepIsTableStep | tm4c123gxl/common/src/ota_crc32.c:14-23 | eight bit steps equal one step of the table form in section 8 of RFC 1952 |
| Crc32.UpdateConcat | tm4c123gxl/common/src/ota_crc32.c:9-26 | updating with a concatenation is updating with the parts in turn |
| Crc32.BitStepsLinear | tm4c123gxl/common/src/ota_crc32.c:16-22 | the register steps are linear over exclusive or |
| Crc32.UpdateInjective | tm4c123gxl/common/src/ota_crc32.c:9-26 | different registers stay different under the same data |
| Crc32.BurstDetected | tm4c123gxl/common/src/ota_crc32.c:9-31 | messages of equal length that differ only inside four consecutive bytes have different checksums |
| Crc32.CodewordExact | tm4c123gxl/common/src/ota_protocol.c:112-137 | four bytes after a message bring the register to one constant if and only if they are the bytes of its checksum |
| Crc32.CrcIsRfc1952 | tm4c123gxl/common/src/ota_crc32.c:4-31 | for every message the checksum is the one of section 8 of RFC 1952: start value 0xFFFFFFFF, the table made by eight divisions by 0xEDB88320, and the final complement |
| Crc32.CheckValues | tests/c/test_crc32.c:19-24 | the empty message has checksum 0, and "123456789" has 0xCBF43926 |
| Bytes.LittleEndian | tm4c123gxl/bootloader/src/bl_update.c:159-160 | numbers are stored with the low byte first, and read back from any place |
| Bytes.WrapAround | tm4c123gxl/common/src/ota_metadata.c:15 | sums, differences and sequence numbers wrap around exactly like unsigned machine words |
| Bytes.AndExact | tm4c123gxl/bootloader/src/bl_hal_tm4c.c:73-81 | programming a byte clears exactly the bits that are clear in the data |
| Flash.GuardExact | tm4c123gxl/bootloader/src/bl_hal_tm4c.c:5-20 | in unbounded arithmetic the guard opens exactly the non-empty (for an erase: page-aligned) ranges inside the inactive slot or the metadata pages |
| Flash.GuardProtects | tm4c123gxl/bootloader/src/bl_hal_tm4c.c:13-20 | a range that is let through touches neither the bootloader nor the active slot |
| Flash.GuardInNumbers | tm4c123gxl/common/inc/ota_config.h:20-32 | the guard opens slot B from 0x23C00 on while slot A is active, slot A from 0x8000 on otherwise, each of 111 KiB, and the two record pages from 0x3F800 on |
| Flash.WriteInNumbers | tm4c123gxl/bootloader/src/bl_hal_tm4c.c:73-81 | a write takes 1 to 256 bytes, and its range is checked to the end of its last word |
| Flash.ErasedExactly | tm4c123gxl/bootloader/src/bl_hal_tm4c.c:72 | an erase sets the bytes of its pages to 0xFF and changes no others |
| Flash.WrittenExactly | tm4c123gxl/bootloader/src/bl_hal_tm4c.c:73-81 | a write of any length clears the bits that are clear in its data and changes no byte outside it |
| Flash.FlashDriver.ErasePages | tm4c123gxl/bootloader/src/bl_hal_tm4c.c:72 | erases page after page exactly if the guard allows, and otherwise changes nothing |
| Flash.FlashDriver.ProgramBytes | tm4c123gxl/bootloader/src/bl_hal_tm4c.c:73-81 | pads with 0xFF, checks the padded range, and writes the words in address order, or changes nothing |
| Flash.ProgramPrefix | tm4c123gxl/bootloader/src/bl_hal_tm4c.c:73-81 | a write cut after k words has programmed exactly its first 4k bytes |
| Flash.ReplaySame | tm4c123gxl/bootloader/src/bl_hal_tm4c.c:72-81 | steps that avoid a region leave all its bytes alone |
| Image.Validate | tm4c123gxl/common/src/ota_image.c:64-112 | the loop with its reads answers the verdict defined by header, vector and the one-shot checksum of the payload, and reports the header it read |
| Image.VerdictExact | tm4c123gxl/common/src/ota_image.c:64-112 | the verdict as header, vector table at the start of the payload, and payload checksum at the addresses of each slot, in that order |
| Image.VectorExact | tm4c123gxl/common/src/ota_image.c:49-62 | a vector table is accepted if and only if the stack pointer is a multiple of 4 from 0x20000000 to 0x20008000 and the reset vector is odd with its even part in the 110 KiB of payload of that slot |
| Image.HeaderExact | tm4c123gxl/common/src/ota_image.c:31-47 | a header is accepted if and only if its 32 bytes are OTA1, schema 1, its slot, zero, a size of 1 byte to 110 KiB, the checksum with its own field cleared, and six zero bytes |
| Image.FieldsExact | tm4c123gxl/common/src/ota_image.c:35-38 | where target, version, size and checksum stand in the header |
| Image.PayloadChecksum | tm4c123gxl/common/src/ota_image.c:95-106 | 256-byte reads give the checksum of the whole payload |
| Image.VerdictFrame | tm4c123gxl/common/src/ota_image.c:64-112 | the verdict depends on the bytes of the slot only |
| Image.TornHeaderFails | tm4c123gxl/common/src/ota_image.c:41-45 | a header whose last byte is still erased does not validate |
| Image.VerdictReads | tm4c123gxl/common/src/ota_image.c:64-112 | the rest of the header page is never read: the verdict depends on the header and the bytes from the payload on |
| Image.PackageValidates | scripts/package_image.py:35-42 | every package the script writes, stored at its slot, validates with its version and payload |
| Image.ValidImageIsPackage | scripts/package_image.py:25-42 | a slot that validates has the header and payload of the package of its own fields, which exists exactly if the payload has eight bytes; it holds that package byte for byte if and only if the rest of the header page is erased |
| Image.PackageExact | scripts/package_image.py:25-42 | the script packages exactly the payloads of 8 bytes to 110 KiB whose vector table fits the slot, and the package byte for byte |
| Image.PaddingIgnored | tm4c123gxl/common/src/ota_image.c:64-112 | any byte of a stored package between the header and the payload can be changed: it still validates and is no package any more |
| Image.ShortImageValidates | scripts/package_image.py:25-32 | an image with a four-byte payload that validates, although the script packages none of that length |
| Metadata.RecordRoundTrip | tm4c123gxl/common/src/ota_metadata.c:47-60 | reading back an encoded record gives the record |
| Metadata.LayoutExact | tm4c123gxl/common/src/ota_metadata.c:47-60 | where every field stands in the 80 bytes, for encoding and decoding, which are inverse to each other |
| Metadata.ValidBytes | tm4c123gxl/common/src/ota_metadata.c:17-28 | 80 bytes are a valid record if and only if magic, schema, states, slot names, the bytes that have to be zero and the checksum with its own field cleared are right |
| Metadata.FinalizeIsValid | tm4c123gxl/common/src/ota_metadata.c:17-30 | sealing a sound record makes it valid |
| Metadata.SuccessorIsNewer | tm4c123gxl/common/src/ota_metadata.c:15 | generation g+1 beats g and never loses to it, for every 32-bit g including the wrap (section 3.2 of RFC 1982) |
| Metadata.NewerExact | tm4c123gxl/common/src/ota_metadata.c:15 | one generation is newer than another if and only if it is larger by less than 2^31 or smaller by more |
| Metadata.SelectedExact | tm4c123gxl/common/src/ota_metadata.c:32-45 | which of the records at 0x3F800 and 0x3FC00 is selected, with both directions for each answer |
| Metadata.Load | tm4c123gxl/common/src/ota_metadata.c:32-45 | the loop selects the valid copy, or the newer of two valid ones |
| Metadata.NextIsValid | tm4c123gxl/common/src/ota_metadata.c:54 | a commit stores a valid record that differs only in generation and seal |
| Metadata.TornCopyFails | tm4c123gxl/common/src/ota_metadata.c:17-28 | a copy whose last byte is still erased is not valid |
| Metadata.CommitCut | tm4c123gxl/common/src/ota_metadata.c:47-60 | at every point of a commit everything outside the destination is as before; strictly inside, the destination is invalid; at the end it holds exactly the sealed record |
| Metadata.Commit | tm4c123gxl/common/src/ota_metadata.c:47-60 | performs exactly the erase and twenty words of a commit into the other copy; its read-back succeeds exactly for a sound record |
| Metadata.CommitExact | tm4c123gxl/common/src/ota_metadata.c:47-60 | a commit leaves the record with the next generation and its checksum at the start of the other page, the rest of which is erased, and changes nothing else |
| Metadata.SlotsByNumber | tm4c123gxl/common/src/ota_boot.c:5 | the slot accessors name slots 0 and 1, and changing one leaves the other |
| Boot.BootRecord.DecideInPlace | tm4c123gxl/common/src/ota_boot.c:11-42 | edits the record and answers as the decision function does, of which `Boot.DecisionExact` and `Boot.RecordExact` give every answer and every field |
| Boot.DecideKeepsSound | tm4c123gxl/common/src/ota_boot.c:11-42 | deciding keeps a record storable, leaves generation and seal alone, and changes nothing unless it asks for a commit |
| Boot.DecideIsSafe | tm4c123gxl/common/src/ota_boot.c:21-42 | a chosen slot validates; from a validating active slot there is always a choice, and the new active slot validates |
| Boot.ActiveChanges | tm4c123gxl/common/src/ota_boot.c:23-28 | the active slot changes exactly by a matching confirmation of the pending slot |
| Boot.TrialSpendsAttempt | tm4c123gxl/common/src/ota_boot.c:29-40 | an unconfirmed boot of the pending slot spends one attempt in a record that must be committed; with none left the slot is FAILED and the active one is chosen |
| Boot.DecisionExact | tm4c123gxl/common/src/ota_boot.c:11-42 | the decision for every record, message and probe: the pending slot while it validates and is confirmed or has had fewer than three attempts, else the active slot if it validates, else the other one |
| Boot.StaysExactly | tm4c123gxl/common/src/ota_boot.c:35-41 | with an active slot the device stays in the bootloader if and only if neither image validates; without one the condition is given too |
| Boot.RecordExact | tm4c123gxl/common/src/ota_boot.c:21-34 | what the decision does to every field of the record, and that a commit is asked for exactly if a slot was pending |
| Mailbox.RetainedMailbox.Consume | tm4c123gxl/application/src/boot_confirm.c:24-29 | yields a valid message once and marks it confirmed, clears garbage, keeps a confirmed mark |
| Mailbox.RetainedMailbox.Confirm | tm4c123gxl/application/src/boot_confirm.c:31-44 | posts and resets unless this slot and version are already confirmed |
| Mailbox.PostedOnce | tm4c123gxl/application/src/boot_confirm.c:17-44 | a posted confirmation is read back exactly once, and then counts as confirmed |
| Mailbox.SpeaksExactly | tm4c123gxl/application/src/boot_confirm.c:12-23 | a box is read as a message if and only if its 64 bytes have the magic, the schema, slot 0 or 1, a zero byte and the checksum with its own field cleared; and it says what stands in it |
| Mailbox.DamageSilences | tm4c123gxl/application/src/boot_confirm.c:17-23 | damage within any four bytes, or to the checksum alone, silences a box |
| Mailbox.ConsumedExactly | tm4c123gxl/application/src/boot_confirm.c:24-29 | what start-up leaves in the box, byte by byte where it clears it |
| Mailbox.ConfirmedExactly | tm4c123gxl/application/src/boot_confirm.c:33 | when an application counts as confirmed already |
| Mailbox.PostedExactly | tm4c123gxl/application/src/boot_confirm.c:31-36 | the bytes that an application posts |
| Mailbox.BoxLayout | tm4c123gxl/application/src/boot_confirm.c:12-16 | where the fields stand in the 64 bytes |
| Update.BlUpdate.HandleRequest | tm4c123gxl/bootloader/src/bl_update.c:74-150 | every request has exactly the specified effect on engine, flash steps, reply and reset |
| Update.BlUpdate.Start | tm4c123gxl/bootloader/src/bl_update.c:105-119 | header copied, checked, page erased, transfer opened, with the source's four refusals |
| Update.BlUpdate.Data | tm4c123gxl/bootloader/src/bl_update.c:120-133 | repetition, sequence, length, lazy erase, padded write and read-back in the source's order |
| Update.BlUpdate.TryEnd | tm4c123gxl/bootloader/src/bl_update.c:134-147 | the first failing check of END, and the header and record steps exactly when all pass |
| Update.BlUpdate.CheckPayload | tm4c123gxl/bootloader/src/bl_update.c:137-141 | accepts exactly if checksum and vector table of the flash contents check out |
| Update.BlUpdate.PollAt | tm4c123gxl/bootloader/src/bl_update.c:152-157 | a silent transfer is dropped after the timeout, also across the clock's wrap |
| Update.StartExact | tm4c123gxl/bootloader/src/bl_update.c:105-119 | START is acknowledged if and only if the header validates for the slot it names and that slot is not the active one; each refusal has its error; the engine and the erased page in each case |
| Update.DataExact | tm4c123gxl/bootloader/src/bl_update.c:120-133 | when DATA is refused for the state or the sequence, when it is a repetition, and every field of the engine after each answer |
| Update.StoredExact | tm4c123gxl/bootloader/src/bl_update.c:125-130 | DATA in sequence is acknowledged if and only if the guard lets the lazy erase and the write through and the bytes read back; the flash steps in every case |
| Update.EndExact | tm4c123gxl/bootloader/src/bl_update.c:134-147 | END is acknowledged if and only if the payload is complete, has the checksum of the header and a vector table that fits, the slot is not active and the record is sound; each refusal has its error and its effect |
| Update.EndStepsExact | tm4c123gxl/bootloader/src/bl_update.c:142-146 | END programs the header at the start of the slot and then commits into the copy that was not loaded |
| Update.ChecksExact | tm4c123gxl/bootloader/src/bl_update.c:136-142 | those checks in terms of the header bytes and the flash contents |
| Update.PendingExact | tm4c123gxl/bootloader/src/bl_update.c:143-145 | the record that END commits, field by field |
| Update.OtherCommandsExact | tm4c123gxl/bootloader/src/bl_update.c:82-104 | the other commands: 1 and 8 are always acknowledged, 8 alone resets, 5 is acknowledged exactly while receiving, everything else is refused |
| Update.PollExact | tm4c123gxl/bootloader/src/bl_update.c:152-157 | a poll drops the transfer if and only if the engine is receiving and the last activity lies at least 1000 ms back, modulo 2^32 |
| Update.NewEngineExact | tm4c123gxl/bootloader/src/bl_update.c:66-72 | a new engine remembers nothing and refuses DATA, END and ABORT |
| Session.HandleHarmless | tm4c123gxl/bootloader/src/bl_update.c:74-150 | no request, in any engine state, touches the bootloader or the active slot, or changes which slot is active |
| Session.ProtectedRegions | tm4c123gxl/bootloader/src/bl_update.c:101-148 | no run of arbitrary packets, refused STARTs included, changes a bootloader byte or a byte of the active slot |
| Session.HandleKeepsTransfer | tm4c123gxl/bootloader/src/bl_update.c:105-148 | during a transfer the header is valid for the inactive slot and its header page is blank, unless a START is refused in mid-transfer |
| Session.RefusedStartExact | tm4c123gxl/bootloader/src/bl_update.c:105-119 | after a START during a transfer a receiving engine holds a good header if and only if that START was not refused after its header had been copied |
| Session.ZeroStartLeavesBadHeader | tm4c123gxl/bootloader/src/bl_update.c:107-109 | an all-zero START is refused and leaves a receiving engine with a bad header |
| Session.HandleKeepsLoose | tm4c123gxl/bootloader/src/bl_update.c:105-148 | refused STARTs included, a request that does not stray keeps the header page of the inactive slot blank during a transfer |
| Session.PointerInside | tm4c123gxl/bootloader/src/bl_update.c:120-133 | whatever header a refused START has left, DATA stays out of the metadata and of the inactive header page until 110 KiB have been received |
| Session.StrayErasesRecord | tm4c123gxl/bootloader/src/bl_update.c:107-130 | after a complete transfer of the largest size, a refused START with an erased header makes the next DATA packet erase metadata copy 0 |
| Session.WriteFootprint | tm4c123gxl/bootloader/src/bl_update.c:125-130 | the erase and padded write of a DATA packet stay between the write pointer and the end of the target slot |
| Session.RunServes | tm4c123gxl/bootloader/src/bl_update.c:74-150 | the packets of a run are handled one after the other, each by the engine and on the flash that the ones before have left |
| Session.PrefixRun | tm4c123gxl/bootloader/src/bl_update.c:120-133 | over any run of packets without a START refused in mid-transfer the flash from the payload start up to `received` equals the accepted DATA payloads, concatenated |
| Session.ChunkAccepted | tm4c123gxl/bootloader/src/bl_update.c:120-133 | with 256-byte chunks an in-sequence DATA packet is always stored and acknowledged, and every programmed word lies in a page erased in this transfer |
| Bootloader.LoadPhase | tm4c123gxl/bootloader/src/bl_main.c:36-52 | after load or reconstruction the working record sits in a valid selected copy |
| Bootloader.CommitOutcome | tm4c123gxl/common/src/ota_metadata.c:47-60 | which record the next load finds after a cut in a commit: as before until the erase begins, then the one in the untouched copy, after the last word the new one |
| Bootloader.StartupCrash | tm4c123gxl/bootloader/src/bl_main.c:112-129 | after a power cut in start-up the next one finds the same record, and the committed one exactly after the last step; both slots are untouched |
| Bootloader.StartupOpens | tm4c123gxl/bootloader/src/bl_main.c:112-130 | a completed start-up establishes the session invariant and has chosen a validating slot |
| Bootloader.HeaderCrash | tm4c123gxl/bootloader/src/bl_update.c:134-142 | until the last word of the header it does not validate, and then the whole image does |
| Bootloader.EndCrash | tm4c123gxl/bootloader/src/bl_update.c:134-147 | a power cut at any of the 29 steps of END leaves a startable flash and the record found before, then the session-start record, then the new one; the target validates exactly from the last header word on |
| Bootloader.PacketCrash | tm4c123gxl/bootloader/src/bl_update.c:101-148 | a power cut anywhere in handling any packet that does not stray leaves a startable flash and, except in END, the same record |
| Bootloader.EventKeepsSafe | tm4c123gxl/bootloader/src/bl_main.c:112-178 | every event of the machine, whole or cut by power failure, keeps it safe |
| Runs.CrashSafety | tm4c123gxl/bootloader/src/bl_main.c:36-52 | from a device whose active slot validates, after any run with power cuts the next start-up finds a validating active slot and decides to boot a slot that validates |
| Runs.BootsIfAny | tm4c123gxl/bootloader/src/bl_main.c:112-130 | a start-up whose record names an active slot decides for a slot if and only if either image validates, whatever the mailbox holds; without a pending image it is the active slot if that validates, else the other one |
| Runs.NewDeviceBoots | tm4c123gxl/bootloader/src/bl_main.c:36-52 | a device with one packaged image and no records meets the assumptions of the run theorems, and its first start-up boots that image |
| Runs.HeaderLast | tm4c123gxl/bootloader/src/bl_update.c:111-142 | over every run with cuts, resets and aborts: a header validates exactly if its whole image does; a slot validates exactly if its last erase, if any, is followed by a completed header; otherwise, and during a transfer, the slot cannot be booted |
| Runs.ImageExact | tm4c123gxl/bootloader/src/bl_update.c:105-147 | after any event, whole or cut, a slot validates if and only if END has just written its last header word, or it validated before and no START for it has begun to erase |
| Runs.UnbootableUntilHeader | tm4c123gxl/bootloader/src/bl_update.c:111-142 | from the event in which START erases a slot on, through power cuts, resets, aborts and timeouts, no start-up boots it until the last header word of an END for it |
| Runs.ImageAppears | tm4c123gxl/bootloader/src/bl_update.c:134-142 | over an event, whole or cut, a slot that does not validate comes to validate if and only if an END for it passes its checks and writes at least its eight header words |
| Runs.StaysInvalid | tm4c123gxl/bootloader/src/bl_update.c:134-142 | over any run without such an END it goes on not validating |
| Runs.AcceptedTarget | tm4c123gxl/bootloader/src/bl_update.c:105-119 | a START that a running bootloader accepts carries a header for the inactive slot |
| Runs.ImagePersists | tm4c123gxl/bootloader/src/bl_update.c:111-147 | over an event, whole or cut, an image that validates stops doing so if and only if a START for its slot is accepted and its erase begins |
| Runs.ImageOutlives | tm4c123gxl/bootloader/src/bl_update.c:111-147 | over a run an image outlives everything, power cuts and refused STARTs included, but an accepted START for its own slot |
| Runs.SessionAtomicity | tm4c123gxl/bootloader/src/bl_main.c:129 | however a session ends, which record the next load finds: its boot-time record, or in END its start record during the commit and the new one at the end; until then the copy selected at load is intact |
| Runs.JumpedImage | tm4c123gxl/bootloader/src/bl_main.c:131-178 | when the slot decided at start-up is jumped to, its image validates if and only if it is the active slot or no START has been accepted since start-up |
| Runs.ActiveSlotChanges | tm4c123gxl/common/src/ota_boot.c:23-28 | the active slot changes over an event if and only if a start-up with a matching confirmation completes, or an END is cut during its commit in a session whose start record names another active slot |
| Runs.BoundedTrials | tm4c123gxl/bootloader/src/bl_main.c:112-129 | a slot that is not active is jumped to at most as often as attempts are left, hence at most three times, over any run of resets, packets and power cuts without a matching confirmation and without an END carried out to its last step |
| Runs.ExhaustedFails | tm4c123gxl/common/src/ota_boot.c:29-40 | with no attempt left the next start-up durably marks the slot FAILED and chooses the active one |
| Runs.ThreeTrials | tm4c123gxl/common/src/ota_boot.c:29-40 | an unconfirmed new image is chosen by exactly three start-ups, whatever else the mailbox says; the fourth marks it FAILED and chooses the active slot |
| Runs.ConfirmationHandshake | tm4c123gxl/application/src/boot_confirm.c:24-44 | after an accepted END, with any polls and any packets but RESET and an accepted START in the two boot windows, the application resets through the mailbox exactly once, its slot becomes active, the old one VALID, and then it runs on |
| Reversal.ConfirmationUndone | tm4c123gxl/bootloader/src/bl_update.c:134-147 | every confirmed change of the active slot can be undone in its session by an update of the former slot whose END is cut at any step of its commit |
| Reversal.ActiveSlotReverts | tm4c123gxl/bootloader/src/bl_main.c:129 | such a run from a new device: slot B is active after a confirmation, and after a cut END slot A is, without one |
| Hazards.StrayBreaksStart | tm4c123gxl/bootloader/src/bl_update.c:107-130 | crash safety needs its exclusion: a refused START, a straying DATA packet and a cut after its first step leave a record whose active slot does not validate |
| Hazards.JumpsToErased | tm4c123gxl/bootloader/src/bl_main.c:171-177 | in every trial boot a START that is accepted and aborted makes the jump go to a slot whose image is erased |
| Hazards.JumpAfterErase | tm4c123gxl/bootloader/src/bl_main.c:171-177 | such a run from a new device |
| BlMain.Device.Reconstruct | tm4c123gxl/bootloader/src/bl_main.c:36-52 | the field-by-field reconstruction yields the record derived from the two images, and commits it to copy 0 |
| BlMain.Device.StartUp | tm4c123gxl/bootloader/src/bl_main.c:106-130 | load, consume, decide, commit and initialise perform exactly the steps of the machine's power-on, and reach its state |
| BlMain.Device.LoopBody | tm4c123gxl/bootloader/src/bl_main.c:145-178 | one turn of the loop without the cloud controller is the machine's poll, packet, activity and jump in that order |
| BlMain.TurnSteps | tm4c123gxl/bootloader/src/bl_main.c:145-178 | a turn is the poll, then the packet and the activity it notes, then the jump once the window is over |
| Bootloader.ReconstructedExact | tm4c123gxl/bootloader/src/bl_main.c:34-46 | A is active if its image validates, otherwise B is; B is VALID beside an active A; each slot is described by its header or empty |
| Bootloader.PowerOnExact | tm4c123gxl/bootloader/src/bl_main.c:112-130 | the decision, the engine, the mailbox and the commits of a start-up |
| Bootloader.EffectiveExact | tm4c123gxl/bootloader/src/bl_main.c:36-52 | the record that a start-up works with: the selected copy, or the reconstructed record in generation 1 |
| Bootloader.PacketExact | tm4c123gxl/bootloader/src/bl_main.c:163-168 | a packet resets the device if and only if it is RESET or an acknowledged END; the second clears the mailbox, the first leaves it |
| Bootloader.NothingOtherwise | tm4c123gxl/bootloader/src/bl_main.c:106-130 | start-up happens only after power-off, and packets are heard only by the bootloader |
| Bootloader.OtherInputsExact | tm4c123gxl/bootloader/src/bl_main.c:169-177 | the jump is taken if and only if the engine is idle and a slot has been decided for; the application resets to confirm unless it is confirmed |
| Bootloader.OneEvent | tm4c123gxl/bootloader/src/bl_main.c:145-178 | an event of a run is one input, carried out or cut |
| Bootloader.CutExact | tm4c123gxl/bootloader/src/bl_hal_tm4c.c:72-81 | a cut leaves the flash as the steps before it do, with anything in the page that was being erased |
| HttpStream.ParsePositiveSize | tm4c_uart_esp32_bridge/esp_at_http.c:73-93 | the digit loop with its overflow test returns the decimal value exactly if the terminator follows and the value is positive and at most SIZE_MAX |
| HttpStream.SizeRoundTrip | tm4c_uart_esp32_bridge/esp_at_http.c:73-93 | parsing the notation of a number gives the number if and only if it is positive and at most SIZE_MAX |
| HttpStream.SizeLineRoundTrip | tm4c_uart_esp32_bridge/esp_at_http.c:95-103 | the same at the end of a line |
| HttpStream.BodyStream.AcceptFrame | tm4c_uart_esp32_bridge/esp_at_http.c:114-129 | opens the body exactly if prefix and declared length are the expected ones |
| HttpStream.BodyStream.Feed | tm4c_uart_esp32_bridge/esp_at_http.c:131-165 | one call with any data, with an accepting or a failing sink |
| HttpStream.FragmentsAgree | tm4c_uart_esp32_bridge/esp_at_http.c:131-165 | every fragmentation gives the sink the same bytes, reaches the same state and ends with the same answer |
| HttpStream.FrameDelivered | tm4c_uart_esp32_bridge/esp_at_http.c:114-165 | up to any byte of a correct frame, in any fragmentation, the sink has received exactly the body bytes so far, and DONE is answered exactly when all have been delivered |
| HttpStream.FrameExact | tm4c_uart_esp32_bridge/esp_at_http.c:114-165 | a frame is accepted if and only if it declares the expected length, and any other length is refused without a byte delivered |
| HttpStream.FrameLimit | tm4c_uart_esp32_bridge/esp_at_http.c:131-165 | without a comma 31 bytes are collected and a 32nd is refused |
| HttpStream.NothingExpected | tm4c_uart_esp32_bridge/esp_at_http.c:131-165 | a stream that expects nothing refuses everything |
| HttpStream.SizeLineExact | tm4c_uart_esp32_bridge/esp_at_http.c:95-103 | a size line is accepted exactly from 1 to 2^32 - 1 |
| HttpStream.SizeLineOnly | tm4c_uart_esp32_bridge/esp_at_http.c:95-103 | a size line is read if and only if it is the prefix and the digits of such a value |
| HttpStream.FrameOnly | tm4c_uart_esp32_bridge/esp_at_http.c:114-165 | what stands in front of the comma opens the body if and only if it is the prefix and the digits of the expected length |
| CloudOta.Splitter.WriteData | tm4c_uart_esp32_bridge/cloud_ota.c:73-118 | the block-copying loop terminates, also with steps that consume nothing, and does what the bytes one by one would do |
| CloudOta.Splitter.Start | tm4c_uart_esp32_bridge/cloud_ota.c:20-38 | version, size in 32-bit arithmetic and header are checked before START is submitted; `Pipeline.VersionGate` gives the consequence for every stream |
| CloudOta.Splitter.Flush | tm4c_uart_esp32_bridge/cloud_ota.c:40-53 | a chunk is submitted, and kept if it is refused |
| CloudOta.Splitter.BeginPackage | tm4c_uart_esp32_bridge/cloud_ota.c:55-71 | clears everything, and accepts exactly the possible package sizes |
| CloudOta.Splitter.FinishTransfer | tm4c_uart_esp32_bridge/cloud_ota.c:120-131 | refuses a truncated package, else flushes and submits END |
| CloudOta.Splitter.AbortPackage | tm4c_uart_esp32_bridge/cloud_ota.c:133-141 | submits ABORT only for a started transfer that the engine is receiving |
| CloudOta.PutConcat | tm4c_uart_esp32_bridge/cloud_ota.c:73-118 | writing a concatenation is writing the parts in turn, up to a refusal |
| CloudOta.FullChunkBlock | tm4c_uart_esp32_bridge/cloud_ota.c:103-115 | the zero-byte step flushes a full chunk again and leaves the data to be written as it was |
| CloudOta.BeginExact | tm4c_uart_esp32_bridge/cloud_ota.c:55-71 | a package is begun exactly with a size of more than 1 KiB and at most 111 KiB, from a cleared state |
| CloudOta.HeaderExactly | tm4c_uart_esp32_bridge/cloud_ota.c:20-38 | the header is sent if and only if it has the expected version and size and validates; otherwise nothing happens |
| CloudOta.FlushExactly | tm4c_uart_esp32_bridge/cloud_ota.c:40-53 | a pending chunk is sent, and kept if it is refused |
| CloudOta.ByteExactly | tm4c_uart_esp32_bridge/cloud_ota.c:81-116 | what the byte at each position of a package does |
| CloudOta.WriteExactly | tm4c_uart_esp32_bridge/cloud_ota.c:76-80 | a write that does not fit is refused as a whole |
| CloudOta.FinishExactly | tm4c_uart_esp32_bridge/cloud_ota.c:120-131 | the three answers at the end, and what has been sent before each |
| CloudOta.AbortExactly | tm4c_uart_esp32_bridge/cloud_ota.c:133-141 | ABORT is sent if and only if the transfer was started and the engine is receiving |
| CloudOta.SentExactly | tm4c_uart_esp32_bridge/cloud_ota.c:5-18 | a request reaches the engine and its flash, and counts as accepted exactly if its own acknowledgement comes back |
| Pipeline.WritesAgree | tm4c_uart_esp32_bridge/cloud_ota.c:73-118 | the state after any sequence of writes depends on the concatenated bytes only |
| Pipeline.QuietByte | tm4c_uart_esp32_bridge/cloud_ota.c:81-116 | a byte reaches the engine only as the last of the header or of a 256-byte chunk |
| Pipeline.EndToEnd | tm4c_uart_esp32_bridge/cloud_ota.c:55-131 | every package for the inactive slot, in every fragmentation, is accepted throughout and ends READY TO REBOOT: the slot holds the package byte for byte and validates, and the next load finds it PENDING |
| Pipeline.VersionGate | tm4c_uart_esp32_bridge/cloud_ota.c:20-31 | for every board, size, version and fragmentation of any bytes, the engine and the flash are untouched unless the first 32 bytes are a valid header of that version and size; otherwise the write that completes them answers that the header is refused |
| Pipeline.OnlyWhatWasSent | tm4c_uart_esp32_bridge/cloud_ota.c:55-131 | conversely, READY TO REBOOT is answered only if the bytes begin with a header of the expected version and size for the inactive slot; and then that slot holds the header and payload that were sent, byte for byte, validates, and is found PENDING with that version |
| Controller.PlanStep | tm4c_uart_esp32_bridge/esp_at_controller.c:62-80 | a planned range stays in the package, takes at most 256 bytes, does not cross 1024, ends where the next may begin, and only its last byte can trigger a flash operation |
| Controller.RangeTextFits | tm4c_uart_esp32_bridge/esp_at_controller.c:81-89 | the text of a range always fits its buffer |
| Controller.EspController.Fail | tm4c_uart_esp32_bridge/esp_at_controller.c:226-244 | enter_retry: abort, retry state, saturating counter; binary mode is left as it is |
| Controller.EspController.TickNow | tm4c_uart_esp32_bridge/esp_at_controller.c:628-660 | retry delay, timeout and sending, in the source's order |
| Controller.EspController.Advance | tm4c_uart_esp32_bridge/esp_at_controller.c:333-358 | one step of the bring-up, the resumed download, and the only reset of the retry counter; `Bringup.BringUp` runs all of them |
| Controller.EspController.AskForRange | tm4c_uart_esp32_bridge/esp_at_controller.c:62-103 | asks for the planned range |
| Controller.EspController.RequestLine | tm4c_uart_esp32_bridge/esp_at_controller.c:414-481 | a request is refused for the active version, and otherwise starts the size query before its response is built |
| Controller.EspController.OkReceived | tm4c_uart_esp32_bridge/esp_at_controller.c:525-609 | the download's progress on OK lines |
| Controller.EspController.LineReceived | tm4c_uart_esp32_bridge/esp_at_controller.c:483-610 | the dispatch of a line, in the source's order |
| Controller.EspController.Feed | tm4c_uart_esp32_bridge/esp_at_controller.c:26-32 | the body stream with the splitter as its sink |
| Controller.EspController.ReceiveNow | tm4c_uart_esp32_bridge/esp_at_controller.c:662-725 | prompt, binary byte, line end and line byte |
| Controller.RangeTextExact | tm4c_uart_esp32_bridge/esp_at_controller.c:81-83 | the text of a range reads back as its first and its last byte |
| Controller.RangesExact | tm4c_uart_esp32_bridge/esp_at_controller.c:68-80 | the ranges of a package: bytes 0 to 31, four in the rest of the first KiB, and then 256 bytes each |
| Controller.AskExact | tm4c_uart_esp32_bridge/esp_at_controller.c:62-103 | a range request always fits, asks for the planned bytes, and leaves every other field alone |
| Controller.PromptExact | tm4c_uart_esp32_bridge/esp_at_controller.c:666-675 | the prompt is answered with the same range |
| Controller.TimeoutExact | tm4c_uart_esp32_bridge/esp_at_controller.c:285-292 | a waiting controller gives up if and only if more than 30000 ms have passed for the Wi-Fi or a body, or more than 5000 ms otherwise, modulo 2^32 |
| Controller.UnsentExact | tm4c_uart_esp32_bridge/esp_at_controller.c:628-660 | a tick with no command outstanding: nothing while online, after three failures or within 2000 ms of one; failure if the command does not fit |
| Controller.CommandsExact | tm4c_uart_esp32_bridge/esp_at_controller.c:651-659 | which states have a command, and which commands always fit |
| Controller.FailureExact | tm4c_uart_esp32_bridge/esp_at_controller.c:226-244 | what a failure changes, and that it is counted up to three |
| Controller.RequestExact | tm4c_uart_esp32_bridge/esp_at_controller.c:403-481 | an update request starts the size query if and only if it does not name the version of the active slot and its texts fit |
| Controller.InfoExact | tm4c_uart_esp32_bridge/esp_at_controller.c:425-481 | a request for information is answered if an answer can be built |
| Controller.HandoverExact | tm4c_uart_esp32_bridge/esp_at_controller.c:403-414 | an update handed over by the application is taken up if and only if it names a version other than the running one and its address fits |
| Controller.ByteExact | tm4c_uart_esp32_bridge/esp_at_controller.c:676-709 | a byte belongs to the body in binary mode and to the line otherwise; CR is dropped and LF ends a line that is not empty |
| Controller.LineByteExact | tm4c_uart_esp32_bridge/esp_at_controller.c:705-724 | a line takes 383 bytes, and one more fails; the body prefix goes to the stream |
| Controller.LineExact | tm4c_uart_esp32_bridge/esp_at_controller.c:483-610 | what each kind of line does |
| Controller.DisconnectedExact | tm4c_uart_esp32_bridge/esp_at_controller.c:520-524 | an online controller fails exactly on a line that names a disconnection |
| Controller.OtherLineExact | tm4c_uart_esp32_bridge/esp_at_controller.c:483-525 | all other lines are passed over |
| Controller.SizeExact | tm4c_uart_esp32_bridge/esp_at_controller.c:490-504 | a size is taken if and only if a package can have it |
| Controller.NoSizeExact | tm4c_uart_esp32_bridge/esp_at_controller.c:493-499 | a size that cannot be read fails |
| Controller.OkBeforeExact | tm4c_uart_esp32_bridge/esp_at_controller.c:526-560 | OK lines before the first range |
| Controller.OkExact | tm4c_uart_esp32_bridge/esp_at_controller.c:561-603 | OK lines in a range: two are expected with the prompt in between, and any other fails; behind a range comes the next one or the end |
| Controller.FinishedExact | tm4c_uart_esp32_bridge/esp_at_controller.c:592-601 | only a finished package ends the request and brings the controller back online |
| Controller.AnnouncedExact | tm4c_uart_esp32_bridge/esp_at_controller.c:340-357 | the last step of the bring-up leads online, or into the download that has been asked for |
| Controller.PollLeftOut | tm4c123gxl/bootloader/src/bl_main.c:147-149 | the engine is polled exactly outside a download |
| Controller.BodyByteExact | tm4c_uart_esp32_bridge/esp_at_controller.c:676-693 | what a body byte does for each answer of the stream |
| Controller.FeedExact | tm4c_uart_esp32_bridge/esp_at_controller.c:26-32 | what the stream delivers goes to the splitter, whose refusal it reports |
| Download.StepKeeps | tm4c_uart_esp32_bridge/esp_at_controller.c:483-725 | every input keeps the run invariant, and touches the flash only as the last outstanding byte of a range or in finishing a package of which none is outstanding |
| Download.RunInvariant | tm4c_uart_esp32_bridge/esp_at_controller.c:553-609 | in every interleaving binary mode is on only in DOWNLOAD, RETRY or SYNC; at each range request the offset is what was received since the last begin; the requests since byte 0 tile the package, all of it when it is finished |
| Download.RangeRequests | tm4c_uart_esp32_bridge/esp_at_controller.c:62-103 | a step transmits at most one command, and a range request is for the planned range at the number of bytes received |
| Download.RequestOrigin | tm4c_uart_esp32_bridge/esp_at_controller.c:553-609 | a download is entered only by a range request, which starts at byte 0; every other range request starts behind the range just received |
| Download.RestartsFromZero | tm4c_uart_esp32_bridge/esp_at_controller.c:226-244 | over any run from a retry, or any other state outside a range, the first range asked for starts at byte 0 |
| Download.StuckForever | tm4c_uart_esp32_bridge/esp_at_controller.c:628-642 | exhausted retries are never left by any bytes, ticks or requests, and nothing is transmitted |
| Download.CounterStep | tm4c_uart_esp32_bridge/esp_at_controller.c:226-244 | entering RETRY always counts one failure, and the counter never falls while an update is requested |
| Download.FiniteRetries | tm4c_uart_esp32_bridge/esp_at_controller.c:226-244 | between two resets of the counter there are at most three failures, and the third leaves the controller stuck |
| Modem.RangesServed | tm4c_uart_esp32_bridge/esp_at_controller.c:553-609 | from a range request at any offset on, three answers for each planned range finish the package |
| Modem.UpdateServed | tm4c_uart_esp32_bridge/esp_at_controller.c:414-609 | from the request line on, a modem that answers every command and serves the ranges, with any times short of a timeout, brings any package for the inactive slot into the flash, valid and pending, and the controller back online |
| Modem.AnswersServe | tm4c_uart_esp32_bridge/esp_at_controller.c:662-725 | such a modem exists for any number of answers |
| Bringup.BringUpFromReset | tm4c_uart_esp32_bridge/esp_at_controller.c:333-358 | from a reset, a modem that answers every command with OK, or the clearing of its MQTT state with ERROR, at any times short of a timeout, is sent exactly the ten set-up commands in this order; then the controller is online with no failures counted, or, if an update has been handed over, in the resumed download |
| Bringup.BringUp | tm4c_uart_esp32_bridge/esp_at_controller.c:628-660 | the same from any state in which the link is to be brought up, after a failure too |
| Bringup.SpokenIsAttended | tm4c_uart_esp32_bridge/esp_at_controller.c:662-725 | there are such inputs for every list of answers |
| Rpc.CompactJson | tm4c_uart_esp32_bridge/esp_at_rpc.c:10-42 | the loop writes the compaction as a C string, and succeeds exactly if the text fits and its strings are closed |
| Rpc.CompactTwice | tm4c_uart_esp32_bridge/esp_at_rpc.c:10-42 | compaction is idempotent |
| Rpc.SpaceIgnored | tm4c_uart_esp32_bridge/esp_at_rpc.c:21-39 | white space outside strings does not matter, wherever it stands |
| Rpc.ParseComponent | tm4c_uart_esp32_bridge/esp_at_rpc.c:60-82 | reads the decimal value exactly if it is at most 65535 and the terminator follows |
| Rpc.AnyFormatting | tm4c_uart_esp32_bridge/esp_at_rpc.c:84-102 | every formatting of an update request yields its version if it fits the buffer, and nothing otherwise |
| Rpc.OnlyStartTexts | tm4c_uart_esp32_bridge/esp_at_rpc.c:94-101 | nothing but an update request with three numbers in range yields a version |
| Rpc.CompactRequest | tm4c_uart_esp32_bridge/esp_at_rpc.c:84-102 | the compact request for any version is read as that version |
| Rpc.ScannerExact | tm4c_uart_esp32_bridge/esp_at_rpc.c:21-39 | what each byte does inside and outside strings |
| Rpc.RequestTextExact | tm4c_uart_esp32_bridge/esp_at_rpc.c:8 | the text of a request, and that it is read exactly with at most 127 bytes and closed strings |
| Protocol.EncodePacket | tm4c123gxl/common/src/ota_protocol.c:24-57 | writes exactly the frame and leaves the rest of the buffer alone, or refuses and changes nothing |
| Protocol.FrameExact | tm4c123gxl/common/src/ota_protocol.c:24-57 | the bytes of every frame: 55 AA, version 1, command, sequence, length, payload, checksum |
| Protocol.FrameParser.ConsumeByte | tm4c123gxl/common/src/ota_protocol.c:73-145 | the parser over its fixed buffers and running checksum takes the specified step |
| Protocol.FrameVerdict | tm4c123gxl/common/src/ota_protocol.c:82-137 | a frame, good or bad, fed without long pauses delivers nothing before its last byte, whose result is the verdict on version and checksum |
| Protocol.StreamRoundTrip | tm4c123gxl/common/src/ota_protocol.c:67-145 | any list of packets is received exactly, each on the last byte of its frame, whatever the pauses between frames and also when a checksum ends in 0x55; the first frame may follow any parser state after a pause of more than a second |
| Protocol.BurstNeverDelivered | tm4c123gxl/common/src/ota_protocol.c:112-137 | a frame damaged within any four consecutive bytes, across payload and checksum too, is never delivered if its start marker and length field are intact |
| Protocol.GapExact | tm4c123gxl/common/src/ota_protocol.c:82-88 | a byte is refused for its pause if and only if a frame has begun and more than 1000 ms have passed, modulo 2^32; it may open the next frame |
| Protocol.MarkerExact | tm4c123gxl/common/src/ota_protocol.c:89-100 | how the marker is found, also behind a first 55 |
| Protocol.LengthExact | tm4c123gxl/common/src/ota_protocol.c:101-116 | a length over 256 is refused at the sixth header byte, and any other one is awaited |
| Protocol.CheckExact | tm4c123gxl/common/src/ota_protocol.c:125-137 | at the last byte the packet is delivered if and only if the version is 1 and the checksum agrees |
| StopAndWait.RequestLoop | pc_tool/src/tm4c_ota/transport.py:53-63 | at most four attempts; the first decisive reply decides, and a reply that does not match uses one attempt up |
| StopAndWait.ChunkDelivered | tm4c123gxl/bootloader/src/bl_update.c:120-133 | a new chunk is never taken for a repetition; it is programmed and the next one is awaited |
| StopAndWait.RepeatDelivered | tm4c123gxl/bootloader/src/bl_update.c:123 | a repeated chunk is acknowledged and nothing is programmed |
| StopAndWait.StepKeeps | pc_tool/src/tm4c_ota/transport.py:53-63 | sending, losing, delivering, receiving, giving up and polling keep the invariant of the exchange |
| StopAndWait.Delivery | pc_tool/src/tm4c_ota/client.py:57-60 | over FIFO channels that drop any frames, a finished DATA loop means that the payload area equals the payload and each chunk was programmed exactly once, in order |
| StopAndWait.Completion | pc_tool/src/tm4c_ota/transport.py:53-63 | an exchange in which of every request at most three attempts are lost ends, with every chunk programmed once and the payload in place |
| StopAndWait.FourLost | pc_tool/src/tm4c_ota/transport.py:54 | the client sends a fourth attempt, and after four nothing any more |
| StopAndWait.RequestsExact | pc_tool/src/tm4c_ota/client.py:54-60 | the requests of an update: 1, 2 with the header, 3 with 256 bytes of payload each, numbered on modulo 2^16 |
| StopAndWait.SendingExact | pc_tool/src/tm4c_ota/transport.py:53-63 | when the client sends, and what a matching reply does |
| StopAndWait.LossExact | pc_tool/src/tm4c_ota/transport.py:53-63 | a reply that does not match uses the attempt up; losses take single frames out of the channels and keep the order of the others |
| StopAndWait.DeliverExact | tm4c123gxl/bootloader/src/bl_main.c:163 | the request at the head of the channel is handled, and its answer sent |
| StopAndWait.DecidesExact | pc_tool/src/tm4c_ota/transport.py:58-62 | a reply decides if and only if it carries the number and command of the request |
| StopAndWait.NextFollowsLast | tm4c123gxl/bootloader/src/bl_update.c:131-132 | whatever the packets, a remembered chunk is one number behind the next, modulo 2^16 |
| Serial.ExchangeKeepsSession | pc_tool/src/tm4c_ota/transport.py:53-63 | the exchange over lossy channels stays inside a session of the bootloader |
| Serial.UpdateDelivered | pc_tool/src/tm4c_ota/client.py:59-62 | whatever the channels lose, after the DATA loop END is acknowledged if and only if the transfer has not timed out; then the slot holds the package and validates, and the next load finds it PENDING; otherwise END touches nothing |

## Left out

- Hardware access, clocks, UART and SysTick set-up, the jump itself, start-up and linker files: no logic to prove.
- Texts of AT commands, telemetry, log messages and credentials: a transmission is modelled by what it asks for, and whether a formatted command fits its buffer is an input of the step.
- What the set-up commands say to the modem, beyond which of them are sent and in which order.
- Building URLs and escaping responses: their success is an input of the controller's step.
- The topic, request identifier and declared length of a request line, and the GET_INFO request: `Rpc` covers compaction and the version only.
- The payload of the GET_INFO response: the reply is modelled as an acknowledgement.
- `ota_request.c`, `app_ota_handoff.c`, the dashboard, the simulators, the command line and the PowerShell scripts.
- The receive buffer of the Python transport (`transport.py:24-51`): it is part of the lossy channel, and its resynchronisation is not modelled.
- NULL arguments and unset callbacks of the C functions, a controller without an engine, and its optional start callback.
- The repeated END: a second END is refused by the engine's state, and the client treats that as a failure; `StopAndWait` ends with the DATA loop, and `Serial` adds the END that reaches the engine first.
- Modem messages that are not answers, such as a busy notice in the middle of a command: `Download` covers them as arbitrary bytes, `Modem` does not.
- Applications that write to the flash themselves.
- Reads by the validator and the engine never fail; the flash model answers 0xFF beyond its end, which only a transfer with a header that had been refused could reach.
- Writes at addresses that are not word-aligned: the hardware's own refusal of them is not modelled; with 256-byte chunks they do not occur.
- The minute-long update window: the jump may happen at any time while the engine is idle.
- Damage to the start marker or the length field of a frame: the parser then looks for another frame in the same bytes.
- BlMain.Device.LoopBody: does not model the cloud controller's branch of the loop, whose calls are the steps of `Controller`.
- Controller.EspController.Feed: works on the value of the body stream instead of the `BodyStream` object, because the sink of that object is a fixed class; `HttpStream.BodyStream.Feed` ties the object to the same function.
- Controller.EspController.TickNow: whether the command of a state fits its buffer is an input of the step, because the texts with the credentials are not modelled.
- Controller.EspController.RequestLine: what the request asks for, whether the URL fits and whether the response can be built are inputs of the step; `Rpc` covers the parsing of the version.
- Update.BlUpdate.HandleRequest: the payload of the GET_INFO reply is reduced to an acknowledgement; the engine's fields are one record that the methods edit field by field, so aliasing between them is not captured.
