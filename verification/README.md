# A verified model of the PCI-424 driver core

The project models the parts of the MOTU PCI-424 driver that decide what reaches the card, and
proves what they do for every input, every run and every answer the hardware may give.

- **Golden sequences** (`Regex`, `Golden`, `Grammar`, `Blob`, `Extract`, `RoundTrip`, `TraceFormat`,
  `FrontToBack`, `Rendering`): a device's accesses are traced, the trace is cut down to `write_reg(...)` text,
  the text is compiled to a blob of 9-byte entries, and the blob is replayed into the card.
- **Replay and translation** (`Replay`, `Translation`): decoding, register polling, and the
  rewriting of the five captured address windows onto the driver's own DMA buffer.
- **FPGA loading** (`Fpga`): the bit-bang serializer of the driver and the two other encodings in
  the tools, against one edge-triggered receiver.
- **Bring-up** (`FullInit`, `FullInitTraffic`, `FullInitMemory`, `Probe`): the whole initialization,
  as the order of its bus accesses and as what it leaves in the card's words, and the part of
  probing that allocates the buffer first.
- **Streams** (`Pcm`): PORT_CONF, its shadow and the running flag under the ALSA callbacks,
  `hw_stop` and the Windows START/STOP requests.
- **Position, frames and buffer** (`Position`, `Multiplex`, `Dma`): the PCM pointer, the copies
  between stereo and 98-word frames, and the life of the DMA buffer.

`Pal` and `Hw` hold the platform layer, the driver context and the register map. Run
`dafny verify dfyconfig.toml` to check everything.

## How the hardware is modelled

The card (`Pal.Card`) keeps the history of every bus access. Its answer to a read is an arbitrary
function of that history, so a statement about all such functions covers all hardware. A "plain
RAM" card (`IsRam`) is the special case in which every 32-bit word reads back the last value
written to it; each (BAR, offset) pair is its own word, as the driver only makes aligned accesses.
Methods state the exact history they produce; the lemmas are about those histories.

Register values are bit-vectors. Offsets and sizes are bounded integers, with the wrap-around of
the C types written out where it can happen. The three BARs are taken to be mapped, as probing
guarantees, except where the code itself tests the BAR1 pointer. A spinlock-protected body is one
atomic step. The FPGA receiver (sample bit 5 when bit 7 rises) and the table of ALSA state
transitions (`Pcm.Next`) are assumptions about the parties the code talks to.

## Where the code and its documentation differ

The model follows the code.

- The PORT_CONF bits are 7, 17, 18 and 31; `okf/registers/port_config.md` says 0 to 3.
- A poll entry is exactly bar 0xFF and always reads BAR0; the "bar | 0xF0" of
  `convert_golden.py` is not implemented.
- The final check of full initialization zeroes the DSP RAM again, so in plain RAM the loaded
  program survives only until then (`FullInitMemory.ProgramLoaded`,
  `FullInitMemory.RamZeroAfterFullInit`). The descriptors that buffer allocation writes to BAR0
  are gone by then for the same reason.
- Translation window 4 keeps 16 offset bits, so "base + offset" holds iff the buffer is 64 KiB
  aligned (`Translation.AdditiveIffAligned`). Without alignment a buffer that meets no window can
  still have its addresses translated a second time (`Translation.ClearNotEnough`).
- The extractor's expression wants a device name without a colon, while the trace format that
  `analyze_mixer_trace.py` and `smart_replay.c` document prints a PCI address. It sees a write iff
  the name has no colon (`TraceFormat.SeenIffNoColon`), so of a PCI device's trace only the
  kick-start is left (`FrontToBack.ColonLosesAll`, `FrontToBack.PciWriteLost`).
- The extractor's comment speaks of BAR0; it prints the writes of every region
  (`FrontToBack.TracedToBus`).
- The extractor looks for its marker and for the kick-start value as text: it compares leading
  digits, and finds them in offsets and device names too (`TraceFormat.MarkerIff`,
  `TraceFormat.KickstartIff`). A write to 0xb440 can open the window early
  (`FrontToBack.EarlyWindow`); `FrontToBack.MeantIff` says when the window is the one that is meant.
- The advertised PCM limits allow buffers larger than the frame copies can serve
  (`Multiplex.FitsIff`, `Multiplex.LimitsAllowTooMany`).
- DMA enabled does not imply the running flag, and the two streams disturb each other: one's stop
  ends the other's DMA, and the one started last sets the direction (`Pcm.FlagIffEnabled`,
  `Pcm.BothRefineIff`, `Pcm.OtherStreamStopsDma`, `Pcm.SecondStreamTurnsDirection`).
- A pause does not move the start time, so the fallback position counts it as played
  (`Position.PauseCounted`).

## Model

| member | source | states |
|---|---|---|
| Pal.MotuWrite | source/shared/motu424_pal.h:153-167 | a write reaches the BAR its byte names; writes to unknown BARs leave no trace |
| Pal.MotuRead | source/shared/motu424_pal.h:169-182 | a read returns the hardware's answer; an unknown BAR reads all ones without touching the bus |
| Pal.RamIsRam | source/shared/motu424_pal.h:110-150 | every power-on contents has a hardware whose words read back what was written |
| Translation.WindowsDisjoint | source/shared/motu424_hw.h:151-159 | no value is in two windows |
| Translation.TranslateInside | source/shared/motu424_init.c:30-63 | for a 64 KiB-aligned buffer the masks compute base + offset in each window |
| Translation.OrderIrrelevant | source/shared/motu424_init.c:39-62 | for every buffer address, running the driver's tests in any order that covers them gives the driver's function |
| Translation.AdditiveInOrder | source/shared/motu424_init.c:39-62 | and for a 64 KiB-aligned one any order gives base + offset |
| Translation.AdditiveIffAligned | source/shared/motu424_init.c:52-60 | the chain is base + offset for all values iff the base is 64 KiB aligned |
| Translation.ToolAgreesIffAligned | source/tools/replay/smart_replay.c:36-43 | the replay tool's translation agrees with the driver's for all values iff the base is 64 KiB aligned |
| Translation.RewrittenInBuffer | source/shared/motu424_init.c:37-62 | every rewritten value is an address in the 4 MiB buffer and every other value is kept, iff the buffer is 64 KiB aligned and its rewritten part ends below 2^32 |
| Translation.IdempotentIff | source/shared/motu424_init.c:30-63 | for every buffer address: translating twice is translating once iff its 64 KiB block and the 4 KiB of window 5's table hold no address that a window moves, as explicit ranges of the address |
| Translation.ClearNotEnough | source/shared/motu424_init.c:30-63 | a buffer that meets no window, at 0x10915000, is translated differently the second time |
| Translation.ClearAlignedStable | source/shared/motu424_init.c:30-63 | a 64 KiB-aligned buffer that meets no window is not |
| Blob.EntryRoundTrip | source/shared/convert_golden.py:70-71 | the driver's byte assembly inverts the little-endian packing of an entry |
| Blob.DecodeEncode | source/shared/motu424_init.c:232-242 | decoding a packed blob gives back its entries, for every sequence of entries |
| Blob.EncodeDecode | source/shared/motu424_init.c:232-242 | packing the entries of a blob gives back the blob, for every blob of whole entries |
| Blob.EntryBytes | source/shared/motu424_init.c:232-242 | byte 0 is the BAR, bytes 1 to 4 and 5 to 8 are offset and value as numbers, lowest byte first |
| Replay.PollReg | source/shared/motu424_init.c:67-84 | returns 0 iff one of the first timeout_ms answers is the target; no bus access for an unknown BAR |
| Replay.PollReadsToFirstMatch | source/shared/motu424_init.c:73-78 | a poll reads exactly up to the first matching answer, or timeout_ms times |
| Replay.ReplaySequence | source/shared/motu424_init.c:217-262 | refuses NULL, empty and ragged blobs without touching the bus; otherwise the bus sees every entry in order, its value translated onto the low word of the buffer's address, or as it is when there is no buffer |
| Replay.ReplayBlobAppend | source/shared/motu424_init.c:217-262 | replaying a concatenation is replaying the parts in order |
| Replay.ReplayTranslatedBlob | source/shared/motu424_init.c:244-250 | the buffer matters only through the values: replay equals bufferless replay of the blob translated beforehand, poll targets included |
| Replay.ReplayMemory | source/shared/motu424_init.c:232-257 | each word ends with the translated value of the last entry naming it, or unchanged; polls and unknown BARs name nothing |
| Regex.MatchSound | source/shared/convert_golden.py:45-48 | what the backtracking match returns is a reading of the pattern |
| Regex.MatchFinds | source/shared/convert_golden.py:45-48 | for every pattern, backtracking finds a match whenever the text has a reading |
| Regex.MatchIffDenotes | source/shared/convert_golden.py:45-48 | for a deterministic pattern the match succeeds with these groups iff the text spells the pattern so: backtracking never matters |
| Regex.SearchIsLeftmost | source/tools/analysis/generate_golden3.py:23 | a search gives the match at the first place that has one |
| Golden.Convert | source/shared/convert_golden.py:57-71 | the blob is the packing of the parsed calls of all lines of all files, up to the first one out of range, which is an error |
| Grammar.ParsesIff | source/shared/convert_golden.py:45-54 | exactly which lines are calls: blanks, `write_reg`, `(`, `fd`, and three numbers in decimal, hexadecimal and hexadecimal between commas and a parenthesis; and the numbers they give |
| Grammar.DigitValues | source/shared/convert_golden.py:51-54 | what each digit counts, in both cases of the letters |
| Golden.CompilerCorrect | source/shared/convert_golden.py:43-71 | conversion succeeds iff every call is in range, and then replaying the blob is executing the text line by line with translated values, on any hardware |
| Golden.ReplayBlob | source/shared/motu424_init.c:217-262 | the running replay of a compiled blob puts the execution of the texts on the bus, and is refused iff they hold no call |
| Extract.Generate | source/tools/analysis/generate_golden3.py:9-37 | the flag-driven loop prints the lines between the first marker and the first later stop line, then the kick-start |
| RoundTrip.WriteLineParses | source/tools/analysis/generate_golden3.py:28 | a printed call parses back to its three numbers, whatever follows it |
| RoundTrip.NumbersRoundTrip | source/shared/convert_golden.py:51-54 | printing any three numbers as a call and parsing the line gives the numbers back |
| RoundTrip.ReadLineIgnored | source/tools/analysis/generate_golden3.py:34 | a line printed for a read is never a call |
| RoundTrip.KickstartParses | source/tools/analysis/generate_golden3.py:20 | the kick-start line is the call BAR1 0x8 = 0x10914221 |
| RoundTrip.JoinParses | source/tools/analysis/generate_golden3.py:36-37 | joining printed lines into a file and parsing its lines is parsing the lines |
| RoundTrip.ExtractedParses | source/tools/analysis/generate_golden3.py:9-34 | for any text as trace, the extracted text parses to exactly the region writes the extractor's expressions see in the window, then the kick-start if there is a stop line |
| RoundTrip.TraceToBus | source/tools/analysis/generate_golden3.py:9-37 | for any text as trace, extract, compile and bufferless replay put exactly the seen writes on the bus, in trace order |
| TraceFormat.SeenIffNoColon | source/tools/analysis/generate_golden3.py:23 | a traced write is seen, with exactly its numbers, iff the device has a name without a colon |
| TraceFormat.ReadSeenIffNoColon | source/tools/analysis/generate_golden3.py:30 | a traced read is seen, with its region and offset, under the same condition |
| TraceFormat.MarkerIff | source/tools/analysis/generate_golden3.py:13 | a traced write is taken for the end of the upload iff it is to BAR0, its offset begins with b44, and its value begins with 30000890 or the name contains it |
| TraceFormat.KickstartIff | source/tools/analysis/generate_golden3.py:19 | an access is taken for the kick-start iff 10914221 is in the device name or in one of its three numbers |
| FrontToBack.CodeIsValue | source/tools/analysis/generate_golden3.py:19 | in a 32-bit number that is the case iff it is 0x10914221 |
| FrontToBack.UploadWordIsValue | source/tools/analysis/generate_golden3.py:13 | a 32-bit number begins with 30000890 iff it is 0x30000890 |
| FrontToBack.B44IsRanges | source/tools/analysis/generate_golden3.py:13 | a 32-bit offset begins with b44 iff it is 0xb44 or in one of five ranges |
| FrontToBack.TracedToBus | source/tools/analysis/generate_golden3.py:9-37 | for every device and every list of accesses, with the window's ends as numbers: traced, extracted, compiled and replayed without a buffer, the card sees exactly the writes from the end of the upload to the kick-start, and the kick-start; or only the kick-start, if the name has a colon |
| Rendering.FileRendered | source/tools/analysis/generate_golden3.py:9-37 | for every device and every list of accesses the extracted file is, line by line, the window's writes as calls and its reads as delays, in order, and the kick-start line |
| FrontToBack.MeantIff | source/tools/analysis/generate_golden3.py:5-20 | that window runs from BAR0 0xb44 = 0x30000890 to BAR1 0x8 = 0x10914221 and holds every write between them, iff the first access taken for each end is that one and no other is taken for the end of the upload in between |
| FrontToBack.EarlyWindow | source/tools/analysis/generate_golden3.py:13 | a write of the same word to 0xb440 opens the window early and lets a write from before the end of the upload through |
| FrontToBack.ColonLosesAll | source/tools/analysis/generate_golden3.py:23 | for every device name with a colon, what reaches the bus is the kick-start if the window is closed, and otherwise nothing |
| FrontToBack.PciWriteLost | source/tools/analysis/analyze_mixer_trace.py:27-28 | on a device named by its PCI address a write between the two ends does not reach the bus |
| Fpga.LoadFpga | source/shared/motu424_fpga.c:33-100 | refuses a missing image with no bus access; otherwise the bus sees the set-up, three writes a bit, the finish and a status read, and the answer cannot make it fail |
| Fpga.FixBitbangUpload | source/tools/replay/fix_bitbang.c:39-58 | the low/high/low encoding of the whole image |
| Fpga.SafeSyncUpload | source/tools/clock_sync/motu_safe_sync.c:46-62 | the val/val/val-with-clock encoding of the whole image |
| Fpga.UploadReceived | source/shared/motu424_fpga.c:46-80 | for every image, loader and previous clock level, the receiver rebuilds exactly the image |
| Fpga.UploadEdges | source/shared/motu424_fpga.c:54-71 | 24n+1 control writes, 8n rising edges, 8n-1 falling edges (8n for fix_bitbang, one more if the clock was left high before), and the final clock level |
| Fpga.LoadersAgree | source/tools/replay/fix_bitbang.c:44-56 | any two of the three loaders send the receiver the same bits |
| Fpga.UploadSkew | source/tools/clock_sync/motu_safe_sync.c:51-60 | no write moves clock and data together, for the driver and fix_bitbang always, for safe_sync iff all bits of the image are equal |
| FullInit.ZeroDspRam | source/shared/motu424_init.c:88-101 | 64K zero writes in order |
| FullInit.DspKickstart | source/shared/motu424_init.c:105-127 | the three start writes, then the three logged reads |
| FullInit.PostInitPortLoop | source/shared/motu424_init.c:149-213 | 32 iterations, with the status check and its conditional clears in every eighth |
| FullInit.HwInit | source/shared/motu424_init.c:266-302 | zeroing, shadow read, sync poll, status read; never fails |
| FullInit.FullInit | source/shared/motu424_init.c:333-374 | fails iff a non-empty sequence is not a multiple of 9 bytes, whatever the hardware answers, and the exact history in both cases |
| FullInit.RefusedNeverStarts | source/shared/motu424_init.c:355-360 | with a refused sequence the card sees the upload and the zeroing and nothing more, so the DSP start write never happens |
| FullInit.KickstartFollowsReplay | source/shared/motu424_init.c:351-373 | otherwise the card sees, in this order, the loading and zeroing, every entry, and directly after the last one BAR2 0x0 = 0, the boot vector 0 and BAR2 0x4 = 2 |
| FullInitTraffic.LoadMoves | source/shared/motu424_fpga.c:42-98 | the accesses of an upload: reset and set-up, the control register only, and the finish, with their values |
| FullInitTraffic.KickMoves | source/shared/motu424_init.c:105-127 | the six accesses of the kick-start |
| FullInitTraffic.ConfigureMoves | source/shared/motu424_init.c:159-184 | the six accesses of a port configuration |
| FullInitTraffic.StatusEvents | source/shared/motu424_init.c:187-199 | the status check reads three words and clears each iff it was not zero, in the source's order |
| FullInitTraffic.PortLoopCounts | source/shared/motu424_init.c:149-213 | the port loop strobes the ports 32 times and checks the status 4 times, whatever the hardware answers |
| FullInitTraffic.HwInitTraffic | source/shared/motu424_init.c:266-302 | 64K zero writes, the shadow read, reads of the sync status up to the first zero or 2000, and the port status |
| FullInitTraffic.StartedWords | source/shared/motu424_init.c:333-374 | full initialization ends with BAR2 0x4 at 2, the DSP started, and BAR1 0x400000 at 0x10 |
| Probe.BringUp | source/linux/motu424_alsa.c:469-504 | allocating the buffer and initializing: the descriptors and then the initialization with exactly the allocated address, or nothing when there is no memory |
| Probe.LowWord | source/linux/motu424_alsa.c:469-504 | every bus address has a low word |
| Probe.BroughtUpAdditive | source/shared/motu424_init.c:37-62 | with an aligned buffer the card is initialized as if every window value in the sequence were base + offset |
| FullInitMemory.ProgramLoaded | source/shared/motu424_init.c:351-370 | before the final check DSP RAM is zero, overlaid with the sequence's last writes, overlaid with the kick-start and port-loop clears |
| FullInitMemory.RamZeroAfterFullInit | source/shared/motu424_init.c:266-286 | after full initialization every DSP RAM word is zero, whatever the image, the sequence and the answers |
| FullInitMemory.SyncPollImmediate | source/shared/motu424_init.c:281-286 | on plain RAM the sync poll succeeds on its first read |
| FullInitMemory.ShadowMatchesConf | source/shared/motu424_init.c:274-279 | the shadow taken is what PORT_CONF holds when initialization ends |
| FullInitMemory.OtherWordsFollowSequence | source/shared/motu424_init.c:333-374 | any word the initialization code does not write itself changes only as the sequence says |
| Pcm.PreparePlayback | source/linux/motu424_alsa.c:143-168 | clears buffer, register and flag, writes period size and base, leaves the shadow |
| Pcm.PrepareCapture | source/linux/motu424_alsa.c:170-180 | clears the flag and touches nothing on the card |
| Pcm.HandleTrigger | source/linux/motu424_alsa.c:184-238 | each command's bus accesses, shadow, flag and start time, on any hardware and on plain RAM |
| Pcm.StopHardware | source/shared/motu424_init.c:304-317 | the stop step, or nothing when BAR1 is not mapped |
| Pcm.RequestStart | source/windows/motu424_wdf.c:540-555 | the Windows start step, or not-ready with nothing changed |
| Pcm.RequestStop | source/windows/motu424_wdf.c:557-572 | the Windows stop step, or not-ready with nothing changed |
| Pcm.StopClears | source/linux/motu424_alsa.c:208-216 | every stop clears bits 7, 17, 18 and 31 of the register and keeps all others |
| Pcm.TriggerStarts | source/linux/motu424_alsa.c:194-206 | a start sets bits 7 and 17, makes bit 18 the direction and keeps all others |
| Pcm.WdfStarts | source/windows/motu424_wdf.c:546-552 | the Windows start sets bits 7, 17 and 18 and keeps all others |
| Pcm.PauseSwitches | source/linux/motu424_alsa.c:218-230 | pause and release clear and set bit 7 of the shadow, keep all others of it, and write that |
| Pcm.RunTracks | source/linux/motu424_alsa.c:143-238 | over every interleaving of all operations, running implies shadow equals PORT_CONF and DMA is enabled |
| Pcm.RunOutcome | source/linux/motu424_alsa.c:143-238 | after any run the last register write decides whether DMA is enabled, and the flag agrees unless a capture was prepared since |
| Pcm.FlagIffEnabled | source/linux/motu424_alsa.c:170-180 | flag and register agree after a run iff it did not prepare a capture after a last register write that enabled DMA |
| Pcm.CapturePrepareDropsFlag | source/linux/motu424_alsa.c:170-180 | playback start then capture prepare: DMA enabled, flag clear |
| Pcm.RegisterOutcome | source/linux/motu424_alsa.c:143-238 | who wrote the register last decides DMA_EN; a playback prepare clears RUN and DMA_RD, and otherwise who last started or stopped decides them |
| Pcm.StreamRefines | source/linux/motu424_alsa.c:184-238 | over every legal run of one stream, silent suspends and drops included, the register, shadow and flag are what the ALSA state says, for playback to the exact value; and from DMA off, DMA is on exactly while running |
| Pcm.CaptureKeepsOthers | source/linux/motu424_alsa.c:194-230 | over every run of a capture stream no bit but 7, 17, 18 and 31 changes |
| Pcm.RunKeepsOthers | source/linux/motu424_alsa.c:143-238 | nor over any interleaving of all operations without a playback prepare |
| Pcm.PausePairsRestore | source/linux/motu424_alsa.c:218-230 | any number of pause/release pairs restores the exact state |
| Pcm.BothRefineIff | source/linux/motu424_alsa.c:143-238 | over every legal run of two streams with removal and Windows requests in between, what holds of a single stream holds of each iff the last writer and the last setter were right for it |
| Pcm.RunningHasDmaIff | source/linux/motu424_alsa.c:184-238 | with two streams, a running one has DMA iff the last register write by anyone was an enabling one |
| Pcm.SecondStreamTurnsDirection | source/linux/motu424_alsa.c:194-206 | with playback and then capture started, both run and the direction is the capture's |
| Pcm.OtherStreamStopsDma | source/linux/motu424_alsa.c:208-216 | stopping capture ends the DMA of a running playback |
| Position.Pointer | source/linux/motu424_alsa.c:242-263 | hardware pointer when plausible, time otherwise, always inside a non-empty buffer |
| Position.PlausiblePosition | source/linux/motu424_alsa.c:249-254 | a plausible hardware pointer gives the frame of two 4-byte samples it is in, or 0 past the buffer |
| Position.PlausibleAdvance | source/linux/motu424_alsa.c:249-254 | between two plausible pointers the reported advance modulo the buffer is their distance in frames |
| Position.FramesExactIff | source/linux/motu424_alsa.c:257-258 | the frame count is the true one iff elapsed * rate fits in 64 bits |
| Position.FramesAdvance | source/linux/motu424_alsa.c:256-258 | monotone, and any two polls differ from the elapsed frames by less than one |
| Position.AdvanceRecovered | source/linux/motu424_alsa.c:259 | whatever implausible values the hardware pointer has, position differences modulo the buffer give back any advance shorter than it |
| Position.PauseCounted | source/linux/motu424_alsa.c:218-223 | across a pause the count stands still iff no frame boundary falls inside it |
| Multiplex.PlaybackAck | source/linux/motu424_alsa.c:267-291 | in place, the hardware buffer becomes the interleaving of the stereo buffer; nothing without both buffers |
| Multiplex.CaptureAck | source/linux/motu424_alsa.c:293-315 | in place, the stereo buffer becomes words 2 and 3 of the frames; nothing without both buffers |
| Multiplex.CaptureUndoesPlayback | source/linux/motu424_alsa.c:281-312 | capture after playback gives back every stereo sample |
| Multiplex.PlaybackUndoesCapture | source/linux/motu424_alsa.c:281-312 | playback after capture gives back the hardware buffer |
| Multiplex.PlayedFrame | source/linux/motu424_alsa.c:281-287 | after playback words 2 and 3 of each frame of 98 are its left and right sample |
| Multiplex.CapturedFrame | source/linux/motu424_alsa.c:306-312 | after capture the left and right samples are words 2 and 3 of the frame |
| Multiplex.FitsIffInside | source/linux/motu424_alsa.c:281-287 | the copies fit iff the words of every frame are inside the buffer |
| Multiplex.OtherWordsKept | source/linux/motu424_alsa.c:281-287 | no word but 2 and 3 of the copied frames changes |
| Multiplex.FitsIff | source/shared/motu424_hw.h:92-104 | the copies fit a 4 MiB buffer iff there are at most 10700 frames |
| Multiplex.LimitsAllowTooMany | source/linux/motu424_alsa.c:86-90 | the advertised limits allow 16384 frames, which do not fit |
| Dma.SetupSg | source/shared/motu424_dma.c:79-109 | the five descriptor writes, or -1 with no buffer |
| Dma.DescriptorWords | source/shared/motu424_dma.c:88-104 | the five words hold the low address three times, 0x30000 and 0x59C |
| Dma.DmaFree | source/shared/motu424_dma.c:68-77 | releases the held block with its own address and size, once |
| Dma.OwnsIff | source/shared/motu424_dma.c:68-77 | the context owns its pool iff its block, with its own address and size, is the only one allocated |
| Dma.FreeReleases | source/shared/motu424_dma.c:68-77 | freeing gives back the one block, if there is one |
| Dma.DmaAlloc | source/shared/motu424_dma.c:28-66 | keeps a large enough block, otherwise frees, allocates, clears and publishes a new one, or holds nothing after a failure |
| Dma.AllocKeepsIff | source/shared/motu424_dma.c:30-40 | a block is kept iff it is large enough; otherwise it is given back and the allocator asked once |
| Dma.RequestIsLeast | source/shared/motu424_dma.c:23-43 | up to 4 MiB the size asked for is the least number of whole 4 KiB pages that is enough |
| Dma.RequestCapped | source/shared/motu424_dma.c:23-43 | above, it is 4 MiB |
| Dma.RunConserves | source/shared/motu424_dma.c:28-77 | over every run and every pattern of allocator failures one block is live iff one is held, in whole pages, 4 MiB at most |
| Dma.AllocEnoughIff | source/shared/motu424_dma.c:23-40 | a successful allocation gives the size asked for, up to 4 MiB, iff rounding it to a page does not wrap; else the block is empty |

## Left out

- Golden.Convert: text is ASCII after newline translation; Unicode digits and spaces, file errors and the printed summary are not modelled.
- Dma.DmaAlloc: the cleanup after a failing descriptor set-up is dead code, because set-up only fails without a buffer; the model proves it is not reached.
- FullInit.FullInit: the early return after a failing FPGA load is dead code, because loading a non-empty image always returns 0; the model proves it is not reached.
- Multiplex.PlaybackAck: that the frames fit the hardware buffer is a precondition; the model does not say what the writes past its end would hit.
- Multiplex.CaptureAck: the same precondition; the model does not say what the reads past its end would give.
- TraceFormat.SeenIffNoColon: device names that contain the tracer's own word "region" are not covered, because such a name can spell a whole access of its own.
- FrontToBack.TracedToBus: the same names and names with a newline are left out, and so are accesses to regions from 255 on and numbers over 32 bits, which a card does not have.
- OS glue: PCI probing and removal, WDF plug and play, interrupts, firmware files, logging, sleeps and yields have no logic to prove.
- The raw register requests and the poke driver make arbitrary writes and so break any register invariant by design.
- Locking: each locked body is one step; the lock itself is not modelled.
- The main loop of the trace replay tool, the other analysis scripts and the prototype drivers repeat or predate the modelled code.
- The recorded golden tables as data: the theorems are about arbitrary sequences instead.
- What the FPGA and the DSP do once started, and real clock lock, are not in the source.
- A 32-bit `size_t` and a non-word-aligned access to the card's RAM.
