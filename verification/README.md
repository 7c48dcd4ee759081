# Verified model of a streaming radio player

A Dafny model of the hand-written logic of an internet radio player for the PS Vita: who owns a network
connection when, how bytes get from the network to the decoder, and what is kept on the card. `dafny verify
dfyconfig.toml` checks all of it.

## What is modelled

- **Ownership of connections** (`Player`, `PlayerBounds`, `PlayerSafety`, `PlayerStarts`). The UI thread, the
  decode thread, the network workers and the detached reapers as a state machine whose steps are the critical
  sections of the two locks, the tests of the stop flag and the unlocked accesses to shared memory. The theorems
  are about every state that any interleaving can reach; `PlayerStarts` is what pressing play or stop and
  following a playlist lead to in every interleaving.
- **Transport streams** (`TsPacket`, `TsUnits`, `TsGaps`, `TsFrame`, `TsRuns`, `TsTables`, `TsMux`, `TsDemux`).
  `TsDemux` is the object with its buffer and counter table updated in place. It is proved equal to a machine
  over single bytes (`TsFrame`) above a function of single packets (`TsPacket`). About those two: provenance of
  every byte handed out (`TsUnits` over packets, `TsRuns` from there to bytes), what a counter gap breaks off,
  exactly when the cutting into feeds does not matter, and a round trip from any legal multiplexer.
- **ADTS and ID3** (`AdtsStream`, `AdtsHeaders`, `AdtsCutFree`, `AdtsCuts`, `AdtsCutShort`, `AdtsScan`). `Explains`
  says which pieces a stream falls into; the scanner object keeps it as its invariant, so that everything proved
  of explained streams holds of every scanner. `AdtsHeaders` are the headers from the sender's side. `AdtsCuts` is
  the scanner as a machine over pieces of input, which the object's feed is proved equal to; it and `AdtsCutFree`
  say exactly when the cutting matters.
- **Icecast metadata** (`Icy`): the parser object against a machine over single bytes, and the round trip.
- **Segment decryption** (`AesTables`, `AesCipher`, `AesStandard`, `AesVectors`, `Cbc`, `Aes128`, `HlsCrypt`). The
  encryptor exists only as specification; the decryptor works in place on arrays, as the source does. What FIPS 197
  says of the tables apart from printing them, and its examples, are in `AesStandard` and `AesVectors`.
- **HLS** (`Hls`, `HlsKeys`, `M3u8`, `M3u8Attrs`, `M3u8Keys`, `M3u8Text`, `M3u8ReadBack`, `M3u8Live`, `M3u8Master`).
  The worker keeps a trace of what it attempts, breaks, resets and feeds; the safety properties of a run are about
  that trace, and when it ends about the course of its counters. The playlist parser is modelled on lines (`M3u8`)
  and from the text (`M3u8Text`); `M3u8Live` and `M3u8Master` are the round trips.
- **Ring buffer** (`RingBuf`, `RingRuns`): the circular array as an object, and its passes under the lock
  interleaved between one writer and one reader.
- **URLs** (`UrlPath`, `UrlUtil`), **JSON** (`JsonText`, `JsonChars`, `JsonNumber`, `Json`, `JsonExact`, `JsonParser`) and
  the **favourites file** (`FavFormat`, `Favourites`).

`Prelude` holds the shared types. Methods have the source's loops and branches. Each is tied by its contract
to a function of its arguments or of the old state, and the lemmas are about those functions.

## What the proofs brought to light

- A connection that the decode thread has retired itself keeps the current generation until the next stop or
  play, so its worker's callbacks still land (`RetiredHeardIff` gives the exact condition,
  `EndedConnectionStillHeard` a run). A stop and a source switch do silence every earlier connection for good
  (`SilencedForever`).
- A counter gap on any PID, not only the audio PID, interrupts the audio unit (src/ts_demux.c:282): `UnitKeptIff`
  is the exact condition, `LossElsewhere` gives packets for any state in the middle of a unit.
- The discard budget of the transport demuxer is per call, so garbage can fail in one feed and pass in two
  (`CuttingMattersForGarbage`). Cutting does not matter if and only if no run of discarded bytes between two
  resynchronisations exceeds the budget (`ChunkingIrrelevantIff`), and that is so if and only if the stream in
  one feed returns 0 (`NoneFailsIffWholeGoes`).
- An ID3 tag costs the ADTS scanner its sync only if it outruns the buffer, which depends on the cutting
  (src/adts_scan.c:105-110 and 205-208): `CuttingMatters` is a stream of 27 bytes that gives two frames in one
  feed and one frame in three. On the bytes alone the exact condition is `CutFree` (`AlikeIffFree`); for feeds
  to a fresh scanner, where a tag of ten bytes never outruns the buffer and one longer than the buffer always
  does, it is `Unmoved` (`CuttingIrrelevantIff`). Streams without "ID3" meet both.
- The worker's next sequence number overflows at a segment numbered LLONG_MAX (src/hls.c:538), and only there
  (`MeetSegment`); the parser does give out that number (`TopOfTheRange`).
- A reference that is only a query or fragment, on a base without a path, gains a "/" that section 5.2.2 of
  RFC 3986 does not put there (src/url_util.c:138). `ResolvedIsRfc3986` proves that this is the only difference.
- A save begins by emptying ".tmp", so a complete ".tmp" left by a failed save is no protection for the next
  one: a save is safe throughout if and only if the file itself or its ".bak" was complete (`Save`).
- fav_load reads only the file itself. Where rename refuses an existing target, every save that works passes a
  state in which the old list is whole under ".bak" and the new one under ".tmp", and a load gives no stations
  and reports success (src/favourites.c:192-194): `MakesWay` is the exact condition, `LoadedAfter` what a load
  gives at every crash point. The comment at src/favourites.c:91-97 has the old file step aside so as to leave no
  such window.

## Model

| member | source | states |
|---|---|---|
| Player.RunKeepsInv | src/player.c:271-720 | in every interleaving of play, stop, source switch, self-exit, reaping and callbacks, each connection that still needs retiring has exactly one holder (installed, with the UI thread, or with the decode thread), and how far its reaper has come fixes what is left of it |
| PlayerSafety.NothingUsedAfterFree | src/player.c:271-720 | no step of any thread, in any reachable state, dereferences a connection, ring buffer or source handle that has been freed, or a null ring; each call on the ring and each question to the source is a step of its own |
| PlayerSafety.ReleasedExactlyOnce | src/player.c:499-593 | conn_release is entered at most once per connection, and exactly once for every started one that is neither installed nor still in the UI thread's hands; an unstarted one is freed without it |
| PlayerSafety.QuietLeavesNothing | src/player.c:499-593 | once nothing plays and no stop is under way, every connection is freed or with its reaper; when the reaper count is zero, everything is freed and no worker is alive |
| PlayerSafety.UiNeverStuck | src/player.c:595-720 | the UI thread waits for nothing but the join, and there only while the decode thread has not finished |
| PlayerSafety.DecodeProgresses | src/player.c:356-526 | wherever it is, the decode thread can take a step, and each one that leaves the phase it is in - waiting for data, playing, waiting for the end - brings it nearer its end |
| PlayerSafety.JoinIsShort | src/player.c:369-497 | during the join of player_stop (src/player.c:698-705), under any schedule and whatever the network does, the decode thread takes at most seven more steps, every test of g_stop, poll and read counted: it re-tests g_stop at each turn of its loops, and its ring is aborted |
| PlayerSafety.HeardOnlyFromNewest | src/player.c:167-220 | a callback changes the status only if its connection is the newest and carries the current generation |
| PlayerSafety.SilencedForever | src/player.c:292-296 | after a stop or a source switch has bumped the generation, no callback of any earlier connection ever changes anything again |
| PlayerSafety.RetiredHeardIff | src/player.c:499-521 | a connection already handed to conn_release can still change the status if and only if its generation is the current one, and then the decode thread left by itself |
| PlayerSafety.EndedConnectionStillHeard | src/player.c:499-521 | such a state exists: after a self-exit, before the next stop, the retired worker's title callback still lands |
| PlayerBounds.RunKeepsBounded | src/player.c:564-627 | the reaper count equals the connections being reaped plus those counted but not yet spawned, in every run |
| PlayerBounds.AtMostSixOpen | src/player.c:618-627 | the reaper counter is exact, and connections with a live source, installed, being swapped or being reaped, never exceed MAX_REAPERS + MAX_SOURCE_HOPS = 6 |
| PlayerStarts.PlayAdmittedIff | src/player.c:610-627 | in every reachable state in which player_play has an audio port and an URL, it goes on to start the connection if and only if fewer than four connections are being reaped, counted over the connections; otherwise only the status changes, and says so |
| PlayerStarts.PlayReads | src/player.c:595-720 | whatever is being played and however the other threads are scheduled: within fourteen steps of the UI thread that go well, play comes to a state with a new connection of the current generation installed, its ring in place, the decode thread started on it and the URL in the status, unless it is refused with four connections still closing |
| PlayerStarts.StopSilences | src/player.c:679-720 | within seven steps of the UI thread, stop comes to a state with nothing installed, no decode thread and a cleared status |
| PlayerStarts.PlaylistFollowed | src/player.c:271-354 | switch_source first clears content type and HTTP status, goes back to connecting, keeps title and error and renews the generation; within five further steps of the decode thread that go well, under any schedule and unless something is pressed, the new connection is installed and read and the old one is with its reaper |
| PlayerStarts.NewsIsShown | src/player.c:167-220 | what the connection now heard tells of its body is shown and ends the state of connecting; a title or a note changes the title alone |
| PlayerStarts.PlaysOn | src/player.c:369-474 | until something is pressed, the ring closes, the bytes turn out not to be audio or decoding fails, the decode thread goes on with the same installed connection under any schedule, and whatever a read brings is decoded once before the next read |
| RingBuf.RingBuf.Init | src/ringbuf.c:8-29 | an empty buffer is refused, any other starts empty, open and not aborted |
| RingBuf.RingBuf.CopyIn | src/ringbuf.c:62-69 | the two copies of a write put the bytes round the end of the array |
| RingBuf.RingBuf.CopyOut | src/ringbuf.c:166-172 | the two copies of a read fetch the oldest bytes, round the end of the array |
| RingBuf.PlacedAppends | src/ringbuf.c:62-71 | bytes placed at the tail, wrapped or not, are appended to the contents |
| RingBuf.TakeDrops | src/ringbuf.c:166-174 | moving the head on drops exactly the first bytes of the contents |
| RingBuf.RingBuf.StorePass | src/ringbuf.c:55-75 | a pass of rb_write on the circular array does to the contents what a bounded FIFO does, with tail = (head + count) mod cap |
| RingBuf.RingBuf.TakePass | src/ringbuf.c:128-177 | a pass of rb_read likewise; the destination gets the oldest bytes and is otherwise untouched |
| RingBuf.RingBuf.Close | src/ringbuf.c:188-194 | marks the FIFO closed and changes nothing else |
| RingBuf.RingBuf.Abort | src/ringbuf.c:196-202 | marks the FIFO aborted and changes nothing else |
| RingBuf.RingBuf.Reset | src/ringbuf.c:42-50 | an empty, open FIFO of the same size |
| RingBuf.RingBuf.Count | src/ringbuf.c:180-186 | the number of bytes held |
| RingRuns.RunKeepsInv | src/ringbuf.c:52-202 | whatever the interleaving, spurious wake-ups and early timeouts included: stored = read + held; a sleeper has a reason to sleep; an ended reader has drained the buffer |
| RingRuns.ReadsInOrder | src/ringbuf.c:52-178 | bytes read are a prefix of bytes stored, which are a prefix of bytes offered; a write that returned without failing has stored everything |
| RingRuns.NoLostWakeup | src/ringbuf.c:52-178 | a sleeping writer faces a full buffer, a sleeping reader an empty one, neither a close or abort; so never both sleep |
| RingRuns.EndMeansDrained | src/ringbuf.c:119-194 | a read that ends without an abort comes after every stored byte has been read, and nothing is stored later |
| RingRuns.ClosedReadReturns | src/ringbuf.c:128-178 | after a close without abort a read returns at once: bytes while there are any, then the end |
| RingRuns.ReadsReturnInTime | src/ringbuf.c:119-178 | in every run, a read that is not to wait never sleeps and returns from its first look, and a timed one that sleeps returns when its time is up, nothing lost |
| RingRuns.ReadLetsWriterOn | src/ringbuf.c:119-178 | a read that takes bytes wakes a sleeping writer, which then stores more |
| AesTables.InvSboxUndoesSbox | src/aes128.c:5-44 | the two tables of the source are inverse on all 256 bytes |
| AesTables.SboxUndoesInvSbox | src/aes128.c:5-44 | and the other way round |
| AesStandard.SboxIsAffineInverse | src/aes128.c:7-24 | on all 256 bytes, the table is the affine map of FIPS 197, section 5.1.1, of the inverse in GF(2^8), 0 standing for its own |
| AesStandard.RconDoubles | src/aes128.c:45-47 | the round constants are the first ten powers of x |
| AesStandard.ShiftRowsTurns | src/aes128.c:85-95 | row r turns by r, as a formula, for the cipher and its inverse |
| AesStandard.RoundByColumns | src/aes128.c:128-146 | a round of the cipher, and the last one, column by column from the diagonals before it |
| AesVectors.ScheduleA1 | src/aes128.c:64-83 | the schedule of the key of FIPS 197, appendix A.1, all forty-four words |
| AesVectors.ScheduleC1 | src/aes128.c:64-83 | that of the key of appendix C.1 |
| AesVectors.ExampleC1 | src/aes128.c:128-146 | the block of appendix C.1 enciphers to the standard's output, and that deciphers to the block |
| AesCipher.MixColumnsCancels | src/aes128.c:113-126 | the inverse matrix over GF(2^8) undoes MixColumns of FIPS 197, and conversely |
| AesCipher.InvCipherUndoesCipher | src/aes128.c:128-146 | the decryption rounds undo the cipher of FIPS 197, section 5.1, for any round keys |
| AesCipher.CipherUndoesInvCipher | src/aes128.c:128-146 | the cipher undoes the decryption rounds, so the two are bijections |
| Cbc.CbcDecryptUndoesEncrypt | src/aes128.c:148-170 | CBC decryption undoes CBC encryption (NIST SP 800-38A, section 6.2) of any whole blocks |
| Cbc.CbcEncryptUndoesDecrypt | src/aes128.c:148-170 | and conversely |
| Cbc.UnpaddedIffPadded | src/aes128.c:172-190 | a length is accepted if and only if the buffer is the PKCS#7 padding (RFC 5652, section 6.3) of its bytes up to that length |
| Cbc.PadLength | src/aes128.c:172-190 | the padding of any payload is taken off again |
| Aes128.GMul | src/aes128.c:49-62 | the shift-and-add loop computes the field product |
| Aes128.InvMixOne | src/aes128.c:118-124 | four gmul sums are one column of the inverse matrix |
| Aes128.InvMixColumnAt | src/aes128.c:117-125 | one turn of the loop mixes its column and leaves the others |
| Aes128.InvMixColumnsInPlace | src/aes128.c:113-126 | in place, all four columns |
| Aes128.InvShiftRowsInPlace | src/aes128.c:85-95 | in place, by way of a copy, each row turns right by its number |
| Aes128.InvSubBytesInPlace | src/aes128.c:97-103 | in place, the inverse table on every byte |
| Aes128.AddRoundKeyInPlace | src/aes128.c:105-111 | in place, the sum with sixteen bytes of the schedule |
| Aes128.Aes128.constructor | src/aes128.c:64-83 | the schedule is the key expansion of FIPS 197, section 5.2 |
| Aes128.Aes128.ScheduleWord | src/aes128.c:69-82 | each turn adds the next word and keeps those before it |
| Aes128.Aes128.DecryptBlock | src/aes128.c:128-146 | the block decrypted, even if output is input |
| Aes128.Aes128.CbcDecryptBuffer | src/aes128.c:148-170 | CBC decryption of the buffer, the two buffers being one allowed; -1 exactly for a length that is no whole blocks, nothing written then |
| HlsCrypt.Pkcs7Length | src/aes128.c:172-190 | the loop over the padding finds the unpadded length, or -1 |
| HlsCrypt.DecryptSegment | src/hls_crypt.c:15-52 | in place: 0 with the payload at the front and its length, or -1 with the length kept; empty and ragged segments are left alone, and nothing beyond the segment is touched |
| HlsCrypt.DecryptedIffEncrypted | src/hls_crypt.c:15-52 | for every key, IV and payload, a segment decrypts to the payload if and only if it is the padded CBC encryption of it |
| HlsCrypt.IvFromSequence | src/hls_crypt.c:54-64 | the IV of RFC 8216, section 5.2, for any 64-bit number, negative ones in two's complement |
| HlsCrypt.SequenceIvByShifts | src/m3u8.c:163-172 | seq_iv writes the same bytes as hls_iv_from_sequence |
| HlsCrypt.IvDigitsValue | src/hls_crypt.c:54-64 | read as a big-endian number, the IV is the sequence number modulo 2^64 |
| TsUnits.UnitGrows | src/ts_demux.c:187-238 | for a unit cut into payloads anywhere, headers included, what pes_feed has handed out is always exactly the elementary bytes of what it has been given, and its state that of the whole |
| TsUnits.PacketFollowed | src/ts_demux.c:249-307 | every packet keeps the state explained by a chain of packets on the audio PID: unit start first, counters consecutive |
| TsUnits.RunFollowed | src/ts_demux.c:249-346 | and so does every run of packets and resets |
| TsUnits.NothingSpliced | src/ts_demux.c:249-346 | whatever went before, any bytes handed out end such a chain, whose last packet is the one just processed: nothing is joined across a counter gap, a change of audio PID or a reset |
| TsUnits.NothingMissing | src/ts_demux.c:300-305 | as long as no PAT puts the PMT on the audio PID, every payload of the chain has gone to pes_feed |
| TsGaps.UnitKeptIff | src/ts_demux.c:270-290 | a packet of neither tables nor audio leaves the audio unit as it was if and only if its PID shows no counter gap or no unit is open |
| TsGaps.SilencedIff | src/ts_demux.c:270-307 | between two packets of a unit without a gap of their own, one packet of another PID decides: the second is handed out if and only if that PID shows no gap either |
| TsGaps.LossElsewhere | src/ts_demux.c:270-307 | wherever a unit is being handed out and another PID has been seen, packets built with one to fourteen of that other PID missing silence the next payload, and with none missing do not |
| TsRuns.GoRuns | src/ts_demux.c:359-429 | any feed, however it ends, does and hands out what a run of packets and resets does, the packets being disjoint slices, in order, of what was held and what the feed takes |
| TsRuns.FeedsAreRuns | src/ts_demux.c:359-429 | so does any series of feeds, failed ones included |
| TsRuns.FeedsSpliceNothing | src/ts_demux.c:249-429 | for any bytes fed to a new demuxer in any chunks, whatever hands something out ends a chain of slices of the stream that are packets of the audio PID, arrived one after the other with no reset between them and it last, from a unit start on with consecutive counters |
| TsFrame.FreeJoins | src/ts_demux.c:359-429 | without the discard budget, feeding two pieces is feeding their concatenation |
| TsFrame.GoIsFree | src/ts_demux.c:359-429 | a feed that returns 0 does what the machine without budget does |
| TsFrame.StopsWhenAsked | src/ts_demux.c:402-427 | a feed returns 1 if and only if its last callback asked to stop, none before it having asked, and the callbacks got what they would have got unstopped, up to there |
| TsFrame.FeedsSucceed | src/ts_demux.c:367-418 | if no run of discarded bytes between two resynchronisations exceeds RESYNC_MAX, no cutting of the stream makes a feed fail |
| TsFrame.GoesIffShort | src/ts_demux.c:371-418 | a feed that no callback stops returns 0 if and only if no run of discarded bytes in it exceeds RESYNC_MAX, the junk counter being cleared at each resynchronisation |
| TsFrame.NoneFailsIffWholeGoes | src/ts_demux.c:359-429 | no cutting of a stream makes a feed fail if and only if the stream in one feed does not fail |
| TsFrame.ChunkingIrrelevant | src/ts_demux.c:359-429 | two cuttings of one stream in which no feed fails or is stopped give the same output and the same demuxer state, the junk counter apart |
| TsFrame.ChunkingIrrelevantIff | src/ts_demux.c:359-429 | all cuttings of a stream agree in output, state and success if and only if no run of discarded bytes in it exceeds RESYNC_MAX |
| TsFrame.CuttingMattersForGarbage | src/ts_demux.c:367-388 | the budget being per call, the hypothesis is needed: RESYNC_MAX + 1 bytes without a sync byte fail in one feed and pass in two |
| TsTables.BuildReadsBack | src/ts_demux.c:242-298 | a packet built from PID, unit start, counter, adaptation field and payload has all five read back, and whether a break is signalled; it is passed over exactly on PID 8191 |
| TsTables.PatReadsBack | src/ts_demux.c:95-111 | a PAT of any programs names the first that is not the network table |
| TsTables.PmtReadsBack | src/ts_demux.c:123-147 | a PMT of any streams, descriptors included, names the first of type 3, 4 or 15 and that type, streams of any other type before it passed over, and changes nothing if there is none |
| TsTables.PmtNames | src/ts_demux.c:112-147 | the same with a stream of type 3, 4 or 15 behind any that are of none of these |
| TsTables.IgnoredIff | src/ts_demux.c:249-268 | a packet changes nothing at once if and only if its error bit is set, it is a null packet, it is scrambled, or it has no payload, in the bits and numbers of ISO/IEC 13818-1 |
| TsMux.UnitReadsBack | src/ts_demux.c:187-238 | a PES unit with any optional header holds its elementary bytes |
| TsMux.OnlyUnitsYield | src/ts_demux.c:187-238 | and nothing else yields a byte: what holds elementary bytes is such a unit, with an audio stream id |
| TsMux.SendFollowed | src/ts_demux.c:249-307 | after every packet the demuxer stands where the sender does, tables spanning packets included |
| TsMux.PacketsYield | src/ts_demux.c:249-307 | what a run of sent packets hands out is what its audio pieces yield, without a counter error |
| TsMux.BuiltPacketsAreSent | src/ts_demux.c:249-298 | once the tables are out, any payload with any adaptation field can be sent as the next piece |
| TsMux.MuxRoundTrip | src/ts_demux.c:95-429 | any elementary bytes, packed into PES units, cut into packets anyhow after a PAT and a PMT, among null, payload-free, duplicate and other in-sequence packets, and fed in any chunks, come out exactly, with no counter error and the announced stream type |
| TsMux.RoundTripByType | src/ts_demux.c:95-429 | the same for a multiplex whose PMT lists a stream of type 3, 4 or 15 behind any of other types: its bytes come out, with that type |
| TsDemux.TsDemux.constructor | src/ts_demux.c:311-320 | a new demuxer |
| TsDemux.TsDemux.Reset | src/ts_demux.c:327-346 | as new, but for the count of lost packets |
| TsDemux.TsDemux.ParsePat | src/ts_demux.c:95-111 | the loop over the programs |
| TsDemux.TsDemux.ParsePmt | src/ts_demux.c:123-147 | the loop over the streams; a new audio PID idles the PES state |
| TsDemux.TsDemux.PsiPush | src/ts_demux.c:74-93 | collecting a section, which is parsed once whole and dropped if it can never be |
| TsDemux.TsDemux.PsiFeed | src/ts_demux.c:161-183 | the pointer field ends one section and starts the next |
| TsDemux.TsDemux.PesFeed | src/ts_demux.c:187-238 | the four-state loop over a payload |
| TsDemux.TsDemux.BreakOff | src/ts_demux.c:273-289 | a gap on any PID idles the PES state, drops that PID's section, and counts unless signalled |
| TsDemux.TsDemux.ProcessPkt | src/ts_demux.c:249-307 | one packet, counters updated in place |
| TsDemux.TsDemux.ShiftToNextSync | src/ts_demux.c:348-357 | in place, up to the next sync byte after the first byte, counted |
| TsDemux.TsDemux.Act | src/ts_demux.c:401-426 | what a full buffer leads to |
| TsDemux.TsDemux.SkipStrays | src/ts_demux.c:379-390 | bytes before a candidate packet are counted, up to the budget |
| TsDemux.TsDemux.Fill | src/ts_demux.c:392-399 | gathering up to a full buffer is taking the bytes one by one |
| TsDemux.TsDemux.Pass | src/ts_demux.c:375-427 | each turn of the loop makes progress on unread or buffered bytes and stays on the course of the byte machine |
| TsDemux.TsDemux.Feed | src/ts_demux.c:359-429 | ts_demux_feed, for any bytes and callback answers, terminates with the outputs, state and return code of the byte machine |
| AdtsStream.DecideMonotone | src/adts_scan.c:93-150 | a decision, once made, does not depend on bytes still to come |
| AdtsStream.WaitsAreShort | src/adts_scan.c:6-13 | the scanner never has to wait with more than 8200 bytes in view, so its buffer always suffices |
| AdtsStream.NothingLost | src/adts_scan.c:88-157 | input = emitted frames + dropped tags + skipped bytes + held bytes, in order |
| AdtsStream.PiecesDeclareThemselves | src/adts_scan.c:33-71 | every emitted slice is as long as its own header declares, and so is every whole tag dropped; what a header declares is the matter of AdtsHeaders |
| AdtsStream.HeldIsShort | src/adts_scan.c:10-13 | after a feed at most 8200 bytes are held |
| AdtsStream.CuttingIrrelevant | src/adts_scan.c:85-157 | where no whole tag is come to - so in any stream without "ID3" - two explanations of it are the same, the sync included |
| AdtsCutFree.AlikeIffFree | src/adts_scan.c:85-157 | all explanations of a stream with everything decided have the same frames, tags, junk, held bytes and bytes still to skip if and only if it is CutFree: wherever a whole tag is passed with the sync held, losing the sync there would change no later decision |
| AdtsCutFree.SameIffTagless | src/adts_scan.c:85-157 | they are the same to the last bit, the sync and its loss at each tag included, if and only if no whole tag is come to |
| AdtsCutFree.NoTagIsFree | src/adts_scan.c:64-71 | a stream without the triple "ID3" is CutFree |
| AdtsCuts.CuttingIrrelevantIff | src/adts_scan.c:180-235 | from a fresh scanner, all cuttings of a stream into feeds give the same decisions and frames, held bytes and bytes still to skip if and only if Unmoved holds of it: every sync and buffer fill that some cutting leads to at a decision decides alike, there and all the way on |
| AdtsCuts.FreeIsUnmoved | src/adts_scan.c:180-235 | so does every CutFree stream behave |
| AdtsCutShort.CuttingMatters | src/adts_scan.c:105-110 | at a frame, a tag and the frame again: one feed gives both frames, three feeds, the tag cut behind its header, give the first alone |
| AdtsCutShort.TwoOutcomes | src/adts_scan.c:105-110 | the two explanations of that stream, one for each cutting |
| AdtsStream.CleanStream | src/adts_scan.c:88-157 | on a stream of valid frames and tags, under any cutting, the output is the frames in order, nothing is skipped, and every frame that ends ten bytes before the end of the input is out |
| AdtsHeaders.HeaderReads | src/adts_scan.c:33-58 | a header built from any fields gives its length if sync word and layer are right, the frequency index is at most 12, there are channels and the length is greater than 7, or 9 with a CRC, and 0 otherwise |
| AdtsHeaders.HeaderOfAny | src/adts_scan.c:33-58 | any seven bytes are a header of some fields, so that says what every header gives |
| AdtsHeaders.TagReads | src/adts_scan.c:60-79 | an ID3 header built from version, flags and a size below 2^28 in seven-bit digits gives ten bytes, the size, and ten more with a footer, or 0 if the version does not exist or that exceeds 2^20 |
| AdtsHeaders.TagOfAny | src/adts_scan.c:60-79 | whatever gives a length is a tag header of some fields |
| AdtsHeaders.ItemIsBuilt | src/adts_scan.c:33-79 | the frames and tags of a clean stream are exactly those so built |
| AdtsHeaders.BuiltStream | src/adts_scan.c:88-157 | on a stream of frames and tags so built, under any cutting, the frames come out in order, nothing is skipped, every frame that ends ten bytes before the end of the input is out and, with the sync held, every frame that has come whole |
| AdtsStream.FirstFrameConfirmed | src/adts_scan.c:107-150 | without the sync, the first frame to come out has another header where its declared length leads |
| AdtsStream.NothingStranded | src/adts_scan.c:107-150 | with the sync held, what is held back of a clean stream is only part of a frame or tag |
| AdtsScan.AdtsScan.constructor | src/adts_scan.c:159-162 | a fresh scanner |
| AdtsScan.AdtsScan.Reset | src/adts_scan.c:169-178 | as fresh, but for the two statistics |
| AdtsScan.AdtsScan.Turn | src/adts_scan.c:93-150 | one turn of drain's loop carries out the one decision there is |
| AdtsScan.AdtsScan.Drain | src/adts_scan.c:85-157 | everything that can be decided is, unless a callback stops it |
| AdtsScan.AdtsScan.SkipTag | src/adts_scan.c:191-209 | the rest of a tag that outran the buffer passes unbuffered, and the sync is given up at its end |
| AdtsScan.AdtsScan.TopUp | src/adts_scan.c:211-218 | the buffer is filled in place |
| AdtsScan.AdtsScan.Pass | src/adts_scan.c:188-233 | one turn of the loop takes or decides something or is the last, and stays on the course of that machine |
| AdtsScan.AdtsScan.Feed | src/adts_scan.c:180-235 | adts_scan_feed terminates and never returns -1; it ends with 1 at the first callback that asks to stop and with 0 if none does; unless stopped it takes all input and leaves nothing undecided, what it hands out is the frames among the pieces of the input so far, and output and state are those of the machine AdtsCuts.Feed over pieces of input |
| Icy.TitleReadsBack | src/icy.c:96-131 | a title without NUL or end mark is extracted as it is if it has at most 255 bytes, and cut at the last start of a UTF-8 character there is otherwise |
| Icy.MarksSpell | src/icy.c:98-116 | the bytes of the two marks are those of "StreamTitle='" and "';" |
| Icy.FindBytes | src/icy.c:84-94 | the first occurrence, if there is one |
| Icy.FindNul | src/icy.c:105-108 | what precedes the padding |
| Icy.FitTitle | src/icy.c:119-127 | the longest cut that fits and splits no UTF-8 sequence |
| Icy.ExtractTitle | src/icy.c:96-131 | the title between key and end mark, before the first NUL |
| Icy.FeedsJoin | src/icy.c:32-82 | feeding a body in any chunks is feeding it whole |
| Icy.BodyReadsBack | src/icy.c:18-82 | for a positive interval, any audio with metadata blocks of up to 4080 bytes between, cut anyhow: the audio comes out exactly, and the titles with empty and repeated ones removed |
| Icy.IcyParser.constructor | src/icy.c:7-16 | a parser that expects audio first |
| Icy.IcyParser.FinishBlock | src/icy.c:18-30 | a title is shown if it is neither empty nor the last one shown |
| Icy.IcyParser.Turn | src/icy.c:40-80 | one turn of the loop does what its bytes do one by one; the block buffer is never overrun |
| Icy.IcyParser.FeedAll | src/icy.c:32-82 | 0: the callbacks got what the body holds; -1: exactly the last audio callback asked to stop, before its stretch they got what the body holds, and the parser stands where that stretch begins |
| Hls.LiveStartIndex | src/hls.c:320-336 | the last place, or the first segment, from which at least three target durations follow (RFC 8216, section 6.3.3) |
| Hls.OneStart | src/hls.c:320-336 | that place is unique |
| Hls.ResetBeforeFeed | src/hls.c:453-470 | in any run, between a discontinuity tag, window skip or resync and a later feed the demuxers are reset |
| Hls.AttemptsIncrease | src/hls.c:515-564 | in any run, attempted sequence numbers strictly increase, except across a resync |
| Hls.ThirteenHalves | src/hls.c:672-686 | thirteen half targets outlast the limit of six targets, milliseconds rounded down |
| Hls.NotYetThirteen | src/hls.c:672-686 | while the stall check passes, there have been fewer than thirteen quiet passes |
| Hls.Worker.constructor | src/hls.c:566-605 | the worker before its first pass |
| Hls.Worker.PlaySegment | src/hls.c:453-506 | resets when a discontinuity is due, and succeeds exactly if fetch, key and demuxer do |
| Hls.Worker.MeetSegment | src/hls.c:520-562 | a segment below the next number leaves only its discontinuity; any other is attempted; the stream ends if and only if the outcome ends it, more than five in a row have failed, or the number is LLONG_MAX, at which the next one overflows |
| Hls.Worker.PlayWindow | src/hls.c:515-564 | each segment numbered at or above the next number and above all before it is attempted, their count returned, no discontinuity lost; it is over if and only if a stop came before a segment or a segment met ended the stream, and nothing overflows unless one is numbered LLONG_MAX |
| Hls.Worker.ChooseStart | src/hls.c:615-627 | the live edge at first; later the window's start if it has slid past, on record as a break |
| Hls.Worker.NoticeStale | src/hls.c:649-670 | a playlist that offers nothing and has not moved is counted, and the third time resynced to its live edge |
| Hls.Worker.KeepTime | src/hls.c:672-686 | the exact stall condition, and a wait of at least a whole or half target |
| Hls.Worker.Pass | src/hls.c:607-690 | the stream is over if and only if its window was, a stop was seen, the playlist has ENDLIST, or the silence exceeds the limit; otherwise the worker stands exactly where AfterPass says; a stuck playlist is resynced by the third pass, and a quiet pass is counted |
| Hls.Worker.EndPass | src/hls.c:649-690 | the end of a pass: over if and only if a stop was seen or the silence exceeds the limit |
| Hls.Worker.Turn | src/hls.c:605-712 | one pass and the reload after it: over, or gone on to exactly the state AfterRound gives, which has an end just where the pass ends or reloads have failed more than five times in a row |
| Hls.Worker.Reload | src/hls.c:692-711 | more than five failed reloads in a row are the end |
| Hls.Worker.Play | src/hls.c:605-712 | over the whole run: it plays on until the first pass that ends it, exactly, and stands where the passes before it have led; if no segment completes and the clamped target stays the same, at most fourteen passes; no pass after six failed reloads in a row; and no overflow without a playlist that numbers a segment LLONG_MAX |
| Hls.LivePlaysOn | src/hls.c:605-712 | as long as every round of a live stream goes well and each playlist ends beyond the one before, the worker plays to the end of each and is never over |
| HlsKeys.KeyCache.constructor | src/hls.c:78-86 | an empty cache |
| HlsKeys.KeyCache.Find | src/hls.c:224-231 | finds a key if and only if it is among the last four put |
| HlsKeys.KeyCache.Put | src/hls.c:233-244 | takes the oldest slot, for any URI |
| HlsKeys.KeyCache.SegmentKey | src/hls.c:246-268 | a cached key is used without a fetch; a fetched one is kept and used only if it has 16 bytes, and refused otherwise; no URI comes to be cached twice |
| HlsKeys.EvictedByFourth | src/hls.c:218-244 | a key outlives three others and not four |
| M3u8.TakeTag | src/m3u8.c:296-333 | kind, target duration and end of list, line by line |
| M3u8.Parse | src/m3u8.c:286-448 | on lines told apart: refuses exactly what has no header first or has a NUL; segments, variants, number, kind, target and end are what the lines before each say |
| M3u8.NumberOf | src/m3u8.c:386-395 | a kept segment's number is the media sequence plus the count of earlier URI lines that are no variants, dropped ones included, held at LLONG_MAX |
| M3u8.NumbersRise | src/m3u8.c:174-183 | numbers strictly increase through a playlist until they are held at LLONG_MAX |
| M3u8.KeyIsLast | src/m3u8.c:334-380 | the key in force is the last key tag's |
| M3u8.TopOfTheRange | src/m3u8.c:174-183 | a playlist can number a segment LLONG_MAX |
| M3u8Text.Trim | src/m3u8.c:276-279 | spaces, tabs and carriage returns go at the end, spaces and tabs at the front |
| M3u8Text.TagMatch | src/m3u8.c:48-63 | the tag alone or followed by a colon, and nothing longer |
| M3u8Text.Split | src/m3u8.c:247-291 | the text behind a byte order mark, split at newlines, trimmed and told apart, blank lines left out |
| M3u8Text.ParseText | src/m3u8.c:213-458 | m3u8_parse from a text: refused or what its lines say |
| M3u8ReadBack.TextReadsBack | src/m3u8.c:247-291 | whatever the spacing and line ends, byte order mark or final newline or not, a text reads as its lines |
| M3u8ReadBack.ItemReadsBack | src/m3u8.c:293-380 | each tag and URI line reads as what it says, the media sequence printed in decimal included |
| M3u8Live.PlaylistReadsBack | src/m3u8.c:213-448 | the text of a media playlist, live or over, with its target, first number, and for each segment duration, URI, discontinuity and key, parses to exactly those segments, numbered in order short of overflow, each with the last key given and the IV given with it or that of its number, and is over exactly if it says so |
| M3u8Master.MasterReadsBack | src/m3u8.c:293-430 | the text of a master playlist parses to a master playlist with exactly the URIs of its variants, made absolute, in order, and no segment |
| M3u8Attrs.Scan | src/m3u8.c:69-133 | attr_next by position is attr_next on the rest of the text |
| M3u8Attrs.AttrsReadBack | src/m3u8.c:69-133 | any list of attributes, quoted values with commas included, is read back in order |
| M3u8Attrs.IvReadsBack | src/m3u8.c:143-161 | an IV round trips, and only "0x" with 32 digits parses |
| M3u8Keys.Gather | src/m3u8.c:335-351 | of each name the last value counts, and a shortened URI or IV is noticed wherever it stands |
| M3u8Keys.Decide | src/m3u8.c:353-379 | plain, usable or unusable: usable only with METHOD AES-128 and nothing cut short; its URI is what url_resolve makes of it in a buffer of 2048, its IV parsed |
| M3u8Keys.KeyTagReadsBack | src/m3u8.c:334-380 | a tag with METHOD, URI and IV in any order and form gives that key with that IV, whole |
| M3u8Keys.KeyTagWithoutIv | src/m3u8.c:334-444 | one without an IV gives a key without an IV, and a segment it applies to gets the IV of its number |
| UrlPath.NormalizedIsRemoveDotSegments | src/url_util.c:27-89 | the segment stack computes remove_dot_segments of RFC 3986, section 5.2.4, for every absolute path |
| UrlPath.Idempotent | src/url_util.c:27-89 | normalizing twice is normalizing once, and keeps the path absolute |
| UrlPath.NeverLonger | src/url_util.c:27-89 | a normalized path is never longer |
| UrlPath.WrittenIsRemoveDotSegments | src/url_util.c:72-88 | what is written out for an absolute path is remove_dot_segments of it |
| UrlPath.RefusedOnlyIfLong | src/url_util.c:55-79 | an absolute path is refused only if it has more than 128 segments or is itself too long |
| UrlPath.TakeSegment | src/url_util.c:46-70 | one turn over a segment, with the stack in an array, and whether it finds it full |
| UrlPath.WriteOut | src/url_util.c:72-88 | the stack written out, or too long for the buffer |
| UrlPath.NormalizePath | src/url_util.c:33-89 | for any path, fails exactly where a segment finds the stack full, the buffer overruns or the result does not fit; with a leading "/", remove_dot_segments |
| UrlUtil.UrlIsAbsolute | src/url_util.c:15-25 | true if and only if a letter, scheme characters and a colon come first |
| UrlUtil.SchemeCharIs | src/url_util.c:9-13 | the characters of a scheme are those of section 3.1 of RFC 3986, by code |
| UrlUtil.DirectoryIs | src/url_util.c:171-176 | the directory of a path is what stands in front of the part behind its last "/", that "/" included |
| UrlUtil.ResolveAuthority | src/url_util.c:142-157 | a reference with an authority of its own |
| UrlUtil.ResolvePath | src/url_util.c:159-197 | a rooted path, or one merged with the base's directory |
| UrlUtil.UrlResolve | src/url_util.c:91-198 | the resolved reference, exactly when there is one, no path on the way is too long or too deep, and the result fits; an absolute reference is returned as it is whenever it fits |
| UrlUtil.NoRoomOnlyIfLong | src/url_util.c:91-198 | paths are too long or too deep only where base and reference together are |
| UrlUtil.ResolvedIsRfc3986 | src/url_util.c:91-198 | for every base with an authority and every relative reference, sections 5.2.2 and 5.3 of RFC 3986, if and only if not a bare query or fragment on a base without path (which gains a "/") |
| FavFormat.PutField | src/favourites.c:27-43 | a field with tabs and line ends made spaces |
| FavFormat.WriteRows | src/favourites.c:67-76 | a row for each favourite |
| FavFormat.ReadLine | src/favourites.c:151-182 | the next line, without the carriage return, and whether it ended |
| FavFormat.ParseLine | src/favourites.c:207-217 | three fields between the first two tabs, or none |
| FavFormat.Load | src/favourites.c:196-230 | the stations of the whole lines of a file, as many as can be added; -1 exactly if one cannot or reading fails |
| FavFormat.LoadFile | src/favourites.c:184-230 | the same of the file under a name: none at all loads as no stations with 0, one that cannot be opened gives -1 |
| FavFormat.PrefixLoads | src/favourites.c:67-76 | any prefix of the saved bytes loads as exactly the sanitised favourites whose rows are whole in it |
| FavFormat.SavedLoads | src/favourites.c:184-230 | the whole file loads as the whole list, any prefix as a prefix of it |
| Favourites.LoadedAfter | src/favourites.c:184-194 | a load after a crash at any point of a save gives the old list or the new one, or, with two lists that are not empty, nothing exactly where no file is left under the name itself; then the old list is whole under ".bak" and the new one under ".tmp" |
| FavFormat.SanitizedTwice | src/favourites.c:25-43 | saving what was loaded changes nothing more |
| FavFormat.SanitizedKeeps | src/favourites.c:25-43 | saving keeps every character but TAB, LF and CR, which become spaces, so a station without them is kept whole |
| Favourites.OpeningIsSafeIff | src/favourites.c:62-66 | emptying ".tmp" keeps a list if and only if the file or its ".bak" is complete |
| Favourites.CardDevice.Rename | src/favourites.c:91-97 | rename under replacing and under refusing semantics |
| Favourites.CardDevice.WriteTmp | src/favourites.c:62-76 | while ".tmp" is written the other two files stay as they are |
| Favourites.CardDevice.StepAside | src/favourites.c:109-111 | whether the old file steps aside and the new one takes its place, and that the name is without a file in between exactly if it has stepped aside |
| Favourites.CardDevice.PutInPlace | src/favourites.c:91-124 | the new list is under one name or another at every step, and there is a step without a file under the name itself exactly under the stated conditions; with no bad luck it ends in place under either semantics |
| Favourites.CardDevice.Save | src/favourites.c:45-127 | one file holds the old or the new list complete at every crash point, whichever step fails, if and only if the file or its ".bak" was complete before (a complete ".tmp" alone is lost at the first step); success means the new list is in place; there is a crash point without a file under the name itself if and only if the old one steps aside, which under refusing rename every save does in which nothing fails |
| JsonText.StringReadsBack | src/json.c:125-241 | any characters, each written raw or by any of its escapes - surrogate pairs, and halves of pairs and NUL, which become U+FFFD, included - are scanned and decoded to what they mean |
| JsonText.CharactersOf | src/json.c:128-176 | and whatever scan_string accepts consists of such characters |
| JsonChars.WhiteSpaceIs | src/json.c:46-51 | white space is the four bytes of section 2 of RFC 8259 |
| JsonChars.HexDigitIs | src/json.c:53-59 | a digit of either case has the value of its place among all digits |
| JsonChars.ShortEscapes | src/json.c:195-203 | the eight short escapes by value, and no other |
| JsonChars.FourDigitsRead | src/json.c:204-210 | four hexadecimal digits of either case are those of their number |
| JsonChars.PairReadsBack | src/json.c:212-224 | a surrogate pair stands for the code point whose bits it holds |
| JsonChars.ReplacementIs | src/json.c:223-233 | half a pair and a NUL are written as the three bytes of U+FFFD |
| JsonChars.Utf8ReadsBack | src/json.c:100-122 | what is written for a code point is its UTF-8: decoded by section 3 of RFC 3629 it is the code point |
| JsonText.NumberReadsBack | src/json.c:281-323 | a number is taken whole, whatever may follow it |
| JsonText.Decode | src/json.c:178-241 | decoding never gives more bytes than it takes |
| JsonNumber.NumberIffNumeral | src/json.c:281-323 | a token is taken whole if and only if section 6 of RFC 8259 has it |
| Json.ValueReadsBack | src/json.c:483-510 | at any depth, a value is read back and the text after it left, or refused if it would nest deeper than 64 |
| Json.DocumentReadsBack | src/json.c:514-537 | any value with any legal white space and escapes is read back if it nests at most 64 deep, and refused if deeper |
| Json.EveryValueReadsBack | src/json.c:514-537 | every value of numbers by token and NUL-free strings can be written so |
| JsonExact.ParseIffDocument | src/json.c:483-537 | json_parse accepts a text with a value if and only if the text is a JSON document of that value, nested at most 64 deep, with white space around it |
| JsonParser.Ctx.SkipWs | src/json.c:46-51 | the cursor past the white space |
| JsonParser.Ctx.ParseString | src/json.c:243-261 | a quoted string, decoded |
| JsonParser.Ctx.ParseLiteral | src/json.c:265-279 | true, false and null |
| JsonParser.Ctx.ParseNumber | src/json.c:284-342 | a number's token |
| JsonParser.Ctx.ParseValue | src/json.c:483-510 | the mutual recursion over cursor and depth terminates, restores the depth, and parses what the specification does |
| JsonParser.Ctx.ParseArray | src/json.c:378-420 | the loop over the items |
| JsonParser.Ctx.ParseObject | src/json.c:422-481 | the loop over the members |
| JsonParser.ScanString | src/json.c:128-176 | where the closing quote is, or that the string is not legal |
| JsonParser.DecodeString | src/json.c:181-241 | the decoded bytes, never more than the span's |
| JsonParser.ScanNumber | src/json.c:284-323 | how long the number at the front is |
| JsonParser.JsonParse | src/json.c:514-537 | json_parse |

## Left out

- `src/ime.c` and `src/sha1.c`: conversions and hashing are not part of this model.
- Network transfers, TLS, audio decoding and output, user interface, updater, settings, zip and package files: not part of this model.
- Status text sizes and wording: error messages that differ only in wording are merged, and text is not truncated to its buffer.
- Allocation failure: modelled only where the player reports it; elsewhere allocation succeeds. Null arguments, which the functions refuse, have no counterpart.
- PlayerSafety.ReleasedExactlyOnce: a reaper's thread creation succeeds, so the deliberate leak at src/player.c:581-589 does not occur.
- PlayerSafety.HeardOnlyFromNewest: the generation is an unbounded number and does not wrap.
- Player.RunKeepsInv: the player is a state machine of atomic steps rather than a class, since a method cannot be interrupted; audio output, the decoder handle, and the waiting in player_shutdown are not in it; a progress report may set any status, and how long a call on the ring or the audio port takes is not measured.
- RingRuns.ReadsInOrder: clocks are not modelled; a timed wait may expire at any time, early or not.
- TsDemux.TsDemux.Feed: input data, section buffers and the PES header are sequences, not arrays; the packet buffer and the counter table are arrays.
- AdtsScan.AdtsScan.Feed: the input is a sequence; the scan buffer is an array.
- Statistics counters (lost packets, tags, skipped bytes, segments, reapers) are unbounded and do not wrap.
- Hls.Worker.Play: nothing is promised once the next sequence number has overflowed, which is undefined in C; a nap is cut short only by a stop, durations are reals, and the demuxers, fetches, keys and clock readings are inputs; whether the HLS ready callback is sent is not modelled, nor is the choice of a variant.
- HlsKeys.KeyCache.Put: the copy of the URI never fails.
- M3u8Text.ParseText: what strtod makes of a duration is a parameter and a real number; bandwidths, codecs and key method names are left out.
- UrlUtil.ResolvedIsRfc3986: references that begin with a scheme are returned unchanged, dot segments included, as the source does, and are not compared with section 5.2.2.
- JsonParser.Ctx.ParseNumber: a number is its token; what strtod makes of it is not modelled.
- Json.DocumentReadsBack: accessors and freeing are left out.
- Favourites.CardDevice.Save: a file being written is a prefix of its content; the list is that of the stations marked as favourites; that data reach the card before the rename is taken from the flush. Making the directory is left out.
- FavFormat.Load: how many stations the list still takes, and whether reading fails at the end of what was read, are inputs.
