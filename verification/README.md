# NyaTerminal: a verified model of its protocols

Dafny models of the parts of NyaTerminal that have to be right over whole runs, with proofs of what they promise.
`dafny verify dfyconfig.toml` checks everything.

## What is modelled

* **ZMODEM** (`internal/zmodemproto/proto.go`, driven by `internal/sshclient/zmodem.go`), following Forsberg's "The
  ZMODEM Inter Application File Transfer Protocol": link escapes (section 7.2), headers (7.3), data subpackets (7.4),
  startup, transmission and cleanup (section 8), frame types (section 11). The layers are `Bytes`, `Crc`, `Escape`,
  `Headers`, `FileInfo`, `Subpackets`; the two machines are `Senders` and `Receivers`, each with its transition system
  (`SenderSpec`, `ReceiverSpec`) and its safety over all runs (`SenderSafety`, `ReceiverSafety`); `Session` and
  `Transfer` put both together; `SenderDriver`, `ReceiverDriver` and `Refeed` are their owners; `EmptyFile` says which
  sessions end; `Detector` finds the start of a session in terminal output.
  Which checksums and bytes these are is pinned in `CrcValues` and `Openings`; what each header and each end type does,
  from bytes to bytes, in `ReceiverReplies`, `FrameEnds`, `SenderReplies` and `SenderFrames`; what the owners write, in
  `SenderDeliveries` and `ReceiverDeliveries`.
* **Synchronization** (`internal/syncclient/client.go`): version vectors, field clocks and their merge, envelopes, pull,
  push and the state after a synchronization (`VersionVectors`, `FieldMerge`, `FieldMergeLaws`, `SyncSpec`,
  `SyncSafety`, `SyncReplay`, `SyncEnvelope`, `Sync`, `SyncRuns`, `SyncEdits`, `SyncEchoes`, `SyncAttempts`,
  `SyncDeletions`, `SyncContents`), and the refresh of rotating tokens under a lock (`TokenRefresh`). That
  a sealed payload opens with its key and associated data and with no others is the abstraction of encryption, not a
  result.
* **When to synchronize** (`internal/app/app.go`): triggers, timer and runs around one mutex (`SyncScheduler`).
* **Echo guard** (`frontend/src/terminalEchoGuard.ts`): `TerminalText`, `EchoGuard`, `EchoGuardSafety`, `EchoGuardSessions`.
* **Resumable transfers** (`internal/sftpclient/transfer.go`): `ResumableTransfer`.
* **Command history** (`frontend/src/commandHistorySearch.ts`, `commandHistorySuggestions.ts`): `HistoryIndex`,
  `HistorySuggest`, `HistoryReplica`.
* **Connection groups** (`internal/store/store.go`): `Groups`.

Objects that the program updates in place are classes here, and each of their methods is proved equal to a transition on
values; the properties over whole runs are lemmas about these transitions. Goroutines, workers and timers are
interleaved steps. Files are byte sequences, the server, the peer, the clock, the user and every failure of the
surrounding system are arbitrary; a request may also fail after the server has accepted
it. Members named `history`, `submissions`, `issued` and the like record what happened; no decision reads them.

Where a promise does not hold of the code, the model keeps the code and states when it does hold:

* fed-back bytes of an incomplete header (`Refeed.RefeedIsHarmlessIffQuietTwice`, `Refeed.RefeedsAreHarmlessIffQuietTwice`),
* empty files (`EmptyFile.DoneIffNoEmptyFile`),
* more than 2^32-1 bytes (`ReceiverSafety.DrainsOnceIffInRange`, `ReceiverDriver.OverflowDrainsForEver`),
* negative counters and counters about to wrap (`VersionVectors.CompareIsPointwise`, `VersionVectors.IncrementDominates`),
* merging for three writers (`FieldMergeLaws.MergeAssociates`, `FieldMergeLaws.ThreeWritersDisagree`),
* edits merged with the clocks from before them, when the server does not hand out the own push again
  (`SyncEdits.EditSurvivesSyncIff`, `SyncEdits.AddedFieldIsDropped`); when it does, before or after the other edit, they
  meet (`SyncEchoes.EditsMeetInSync`, `SyncEchoes.EditSurvivesEchoIff`),
* one clock for two texts after a pull that failed behind a push (`SyncAttempts.ClockRepeatsIff`),
* replayed credential conflicts (`SyncReplay.ReplayIsHarmlessIffNoConflict`, `SyncReplay.RenamedTwiceConflicts`),
* clocks learned by a pull and overwritten by a push (`SyncRuns.SyncForgetsPulledClocks`, `SyncEdits.ResurrectionIsLost`),
* tokens that cannot be stored and replies that are lost (`TokenRefresh.SpentIsPresentedIffLost`,
  `TokenRefresh.FailedSaveSpendsTwice`, `TokenRefresh.LostReplySpendsTwice`),
* partial files that are not a prefix (`ResumableTransfer.UploadDelivers`, `ResumableTransfer.DownloadDelivers`), and a
  pause that comes too late (`ResumableTransfer.PausedTooLate`).

## Model

| member | source | states |
|---|---|---|
| Transfer.Run | internal/zmodemproto/proto_test.go:39-91 | For every non-empty list of files with content of 1 to 2^32-1 bytes, a non-empty name without NUL and metadata of at most 8192 bytes, and whatever part of each request is fed, the loop between a sender and a receiver ends without an error, every name, size and content arrives byte for byte in order, and each side sees the end of the session once |
| Transfer.Cycle | internal/zmodemproto/proto_test.go:39-91 | One round of that loop on the two objects is one `Step` of the pure system, without an error, and strictly closer to the end |
| Transfer.Turn | internal/zmodemproto/proto_test.go:48-78 | Carrying the output across, taking events and data, and carrying the answer back is the pure `Exchange` |
| Session.LinkedGoes | internal/zmodemproto/proto_test.go:39-91 | From every state of a session that is in step, not done and not announcing an empty file, any legal feed leads to another state in step, with no call failing and a lexicographic measure over files, phases and bytes decreasing |
| Session.LinkedAtStart | internal/zmodemproto/proto.go:434-471 | A new sender with its first file started and a new receiver are in step |
| Session.LinkedAtEnd | internal/zmodemproto/proto_test.go:59-65 | A session in step whose sender is done has delivered every file whole and raised the end of the session once on each side |
| Session.InitStep | internal/zmodemproto/proto.go:644-657 | The opening exchange of ZRQINIT and ZRINIT leads to the announcement of the first file |
| Session.AnnounceStep | internal/zmodemproto/proto.go:682-700 | A file announcement leads to a start event with its name and size and to a request from position 0 |
| Session.ChunkStep | internal/zmodemproto/proto.go:489-527 | A fed chunk is written at its position on the other side, and either the next request or the end of the file follows |
| Session.EofStep | internal/zmodemproto/proto.go:917-922 | The end of a file at the right position completes it on both sides and starts the next one or finishes |
| Session.FinStep | internal/zmodemproto/proto.go:705-711 | The closing exchange ends the session on both sides |
| Session.ExchangeFile | internal/zmodemproto/proto.go:1016-1029 | Metadata in a ZFILE subpacket reaches the receiver whole, whatever the name, and is answered by ZRPOS 0 |
| Session.ExchangeChunk | internal/zmodemproto/proto.go:590-607 | A framed chunk is drained exactly once, adds its length to the count, and is acknowledged exactly if it closes its frame |
| Session.FedChunk | internal/zmodemproto/proto.go:504-525 | After a chunk is fed the line holds it with its position in the header exactly at the start of a frame |
| EmptyFile.DoneIffNoEmptyFile | internal/zmodemproto/proto.go:447-527 | From the start, for every non-empty list of files that can be announced and every way to grant the requests: a session that has run long enough is done if and only if no file is empty, and has then delivered exactly the files before the first empty one; with an empty file it is never done, however short or long it runs |
| EmptyFile.SingleBytesAreGranted | internal/zmodemproto/proto.go:489-527 | Feeding single bytes is one way to grant every request of a session |
| EmptyFile.EndIsIgnored | internal/zmodemproto/proto.go:917-922 | A ZEOF at position 0 in the state behind a file announcement changes nothing and gets no answer |
| Bytes.CountRoundTrip | internal/zmodemproto/proto.go:151-158 | The four flag bytes carry any 32-bit count and give it back |
| Crc.UpdateLoop16 | internal/zmodemproto/proto.go:1176-1186 | The bit loop is eight steps of the CCITT shift register on the absorbed byte |
| Crc.UpdateLoop32 | internal/zmodemproto/proto.go:1218-1228 | The bit loop is eight steps of the reflected CRC-32 shift register on the absorbed byte |
| Crc.Xmodem | internal/zmodemproto/proto.go:1168-1174 | The loop over a message gives its CRC-16; which one that is says CrcValues |
| Crc.IsoHdlc | internal/zmodemproto/proto.go:1210-1216 | The loop over a message gives its CRC-32; which one that is says CrcValues |
| CrcValues.CheckValue16 | internal/zmodemproto/proto.go:1168-1186 | The CRC-16 of the characters 123456789 is 0x31c3, the published check value of CRC-16/XMODEM |
| CrcValues.CheckValue32 | internal/zmodemproto/proto.go:1210-1228 | The CRC-32 of the characters 123456789 is 0xcbf43926, the published check value of CRC-32/ISO-HDLC |
| CrcValues.Residue16 | internal/zmodemproto/proto.go:1168-1186 | Every message followed by its CRC-16, most significant byte first, has the CRC-16 zero |
| CrcValues.Residue32 | internal/zmodemproto/proto.go:1210-1234 | Every message followed by its CRC-32, least significant byte first, has the CRC-32 0x2144df1c |
| CrcValues.Linear32 | internal/zmodemproto/proto.go:1218-1228 | Eight or any number of rounds of the register are linear over exclusive-or |
| Crc.FoldAppend16 | internal/zmodemproto/proto.go:1168-1174 | Folding a message in two parts is folding it whole |
| Crc.FoldAppend32 | internal/zmodemproto/proto.go:1196-1216 | Folding a message in two parts is folding it whole, so data and end type may be fed apart |
| Crc.Register16.UpdateByte | internal/zmodemproto/proto.go:1160-1162 | The incremental register always holds the checksum of all bytes absorbed so far |
| Crc.Register32.UpdateByte | internal/zmodemproto/proto.go:1202-1204 | The incremental register always holds the checksum of all bytes absorbed so far |
| Crc.Register16.Matches | internal/zmodemproto/proto.go:1009-1014 | The receiver accepts exactly the two bytes whose big-endian value is the CRC-16 of what it absorbed |
| Crc.Register32.Matches | internal/zmodemproto/proto.go:1003-1008 | The receiver accepts exactly the four bytes whose little-endian value is the CRC-32 of what it absorbed |
| Crc.Wire32RoundTrip | internal/zmodemproto/proto.go:1230-1234 | The four bytes on the wire read back as the checksum |
| Crc.Read32Injective | internal/zmodemproto/proto.go:1004-1006 | Different received bytes are different checksums, so the comparison of numbers compares the bytes |
| Crc.Read16Injective | internal/zmodemproto/proto.go:1010-1012 | Different received bytes are different checksums, so the comparison of numbers compares the bytes |
| Crc.UpdateInjective16 | internal/zmodemproto/proto.go:1176-1186 | One update is injective in the register for every byte, and in the byte for every register |
| Crc.UpdateInjective32 | internal/zmodemproto/proto.go:1218-1228 | One update is injective in the register for every byte, and in the byte for every register |
| Crc.Crc16DetectsByteChange | internal/zmodemproto/proto.go:1168-1186 | Messages of any equal length that differ in exactly one byte have different CRC-16 |
| Crc.Crc32DetectsByteChange | internal/zmodemproto/proto.go:1210-1228 | Messages of any equal length that differ in exactly one byte have different CRC-32 |
| Escape.WriteSliceEscaped | internal/zmodemproto/proto.go:1105-1115 | The loop writes each byte or its two-byte escape |
| Escape.UnzdleZdle | internal/zmodemproto/proto.go:1117-1150 | Unescaping undoes escaping for every byte, and escaped bytes are never taken for an end type |
| Escape.EscapeRoundTrip | internal/zmodemproto/proto.go:1105-1150 | Unescaping escaped data gives the data back, whatever it is |
| Escape.EscapedIsLineSafe | internal/zmodemproto/proto.go:1105-1128 | Escaped data has no ZDLE outside an escape, and no ZDLE is followed by an end type |
| Escape.ReservedIsNeverSent | internal/zmodemproto/proto.go:1105-1128 | Escaped data never holds CR, DLE, XON, XOFF, their twins with the high bit, DEL or 0xff, and ZDLE only in front of a byte that is neither reserved nor an end type |
| Escape.OthersAreSentAsTheyAre | internal/zmodemproto/proto.go:1105-1128 | Data without such bytes is sent as it is |
| Escape.ControlsAreUnescaped | internal/zmodemproto/proto.go:1130-1150 | Every control character that a peer chose to escape is understood, also where this side would not have escaped it |
| Escape.EscapedLength | internal/zmodemproto/proto.go:1105-1115 | Escaping at most doubles the length |
| Headers.HexRoundTrip | internal/zmodemproto/proto.go:167-196 | Hexadecimal digits decode to the bytes they were made from |
| Headers.CapitalsAreRead | internal/zmodemproto/proto.go:205-218 | Hexadecimal digits are understood in capitals too, in any mixture |
| Openings.ZrqinitOnTheLine | internal/zmodemproto/proto.go:167-196 | A ZRQINIT is the 21 bytes written out, checksum 0000 included |
| Openings.ZrinitOnTheLine | internal/zmodemproto/proto.go:198-203 | The introduction of the receiver is the 21 bytes written out, with its flags and the checksum 3896 |
| Openings.EofOnTheLine | internal/zmodemproto/proto.go:609-616 | A ZEOF at position 0x04030201 is the 12 bytes written out, least significant byte first, with its CRC-32 |
| Headers.DecodeBody | internal/zmodemproto/proto.go:205-244 | Decoding an encoded body gives the header back in all three encodings, and the body has the length the reader waits for |
| Headers.DecodeIsExact | internal/zmodemproto/proto.go:205-244 | A binary body is decoded as a header if and only if it is what encoding that header writes |
| Headers.ChecksumExact | internal/zmodemproto/proto.go:205-244 | The checksum test accepts the checksum bytes an encoder writes and no others |
| Headers.CorruptHeaderRejected | internal/zmodemproto/proto.go:205-244 | One wrong byte anywhere in a binary body, checksum included, is always rejected as a checksum error of its encoding |
| Headers.HeaderReader.AdvancePadState | internal/zmodemproto/proto.go:311-329 | The pad automaton: a ZDLE starts a header exactly behind at least one pad |
| Headers.HeaderReader.Accept | internal/zmodemproto/proto.go:255-300 | One byte is one transition of the reader |
| Headers.HeaderReader.ReadFrom | internal/zmodemproto/proto.go:255-300 | The reading loop finds what the recursive reader finds, at the same position, and leaves the same state |
| Headers.ReadAppend | internal/zmodemproto/proto.go:255-300 | Reading a stream is reading its first part and going on, unless the first part already decides |
| Headers.ChunkingIsInvisible | internal/zmodemproto/proto.go:255-300 | However a stream is cut into calls, the reader ends in the same state with the same outcome after the same bytes |
| Headers.ReadNoise | internal/zmodemproto/proto.go:264-271 | Bytes without a pad followed by ZDLE leave the reader looking for a header |
| Headers.ReadUndoesEncode | internal/zmodemproto/proto.go:167-329 | After any such noise the reader finds exactly the encoded header, for every encoding, frame and flags, and stops right behind it |
| Headers.ReadUndoesEncodeInChunks | internal/zmodemproto/proto.go:167-329 | The same however noise and header are cut into calls |
| Headers.UnknownTypeIsError | internal/zmodemproto/proto.go:272-281 | Behind a pad and a ZDLE every byte but the three packet types is an error |
| FileInfo.ParseUndoesEncode | internal/zmodemproto/proto.go:1049-1073 | The name and size written in a file announcement are parsed back, for every name without NUL and every 32-bit size |
| FileInfo.MetadataFits | internal/zmodemproto/proto.go:575-588 | A name of up to 8180 bytes fits a metadata subpacket with every 32-bit size |
| FileInfo.SizeEndsAtSpace | internal/zmodemproto/proto.go:1057-1066 | Whatever follows the size behind a space, such as a modification time, does not matter |
| FileInfo.SizeMayBeMissing | internal/zmodemproto/proto.go:1053-1062 | A size that is missing or empty is taken for zero |
| FileInfo.SizeMayBeSigned | internal/zmodemproto/proto.go:1060-1070 | A plus in front of the size changes nothing, a size below zero is out of range |
| Subpackets.SubpacketReader.AcceptDataByte | internal/zmodemproto/proto.go:960-988 | A byte of file data: an escape, an end type, or a byte that is buffered and absorbed by the checksum in use |
| Subpackets.SubpacketReader.VerifyCrc | internal/zmodemproto/proto.go:1003-1015 | The incremental register decides as the checksum over data and end type does |
| Subpackets.SubpacketReader.ReadFrom | internal/zmodemproto/proto.go:949-1047 | The byte loop reads what the recursive reader reads, at the same position, with the same verdict |
| Subpackets.ReadSubAppend | internal/zmodemproto/proto.go:949-1047 | Reading a stream is reading its first part and going on, unless the first part already decides |
| Subpackets.SubChunkingIsInvisible | internal/zmodemproto/proto.go:949-1047 | However a subpacket is cut into calls, the outcome is the same |
| Subpackets.FramingRoundTrip | internal/zmodemproto/proto.go:949-1047 | Any data of up to 8192 bytes with any end type, framed in any encoding, is recovered exactly with its type, and reading stops right behind it |
| Subpackets.FramingRoundTripInChunks | internal/zmodemproto/proto.go:949-1047 | The same however the subpacket is cut into calls |
| Subpackets.CorruptSubpacketRejected | internal/zmodemproto/proto.go:1003-1015 | Data that differs in one byte from what the checksum was computed for is rejected as a checksum error of its encoding, whatever follows |
| Receivers.Receiver.OnZdata | internal/zmodemproto/proto.go:902-916 | A data frame opens only at the position that equals the count; otherwise the right position is asked for |
| Receivers.Receiver.OnZeof | internal/zmodemproto/proto.go:917-922 | A file completes only at the position that equals the count |
| Receivers.Receiver.OnZfin | internal/zmodemproto/proto.go:923-928 | The end of the session is accepted between files or between frames |
| Receivers.Receiver.HandleHeader | internal/zmodemproto/proto.go:886-931 | Every frame in every state makes exactly the modelled transition |
| Receivers.Receiver.FinishSubpacket | internal/zmodemproto/proto.go:1075-1103 | Handing out a subpacket counts it, acknowledges it and continues or closes the frame as its end type asks, type by type in FrameEnds; past 2^32-1 nothing changes |
| Receivers.Receiver.ParseZfileBuf | internal/zmodemproto/proto.go:1049-1073 | Name and size are taken from the metadata; a malformed size leaves the name changed |
| Receivers.Receiver.ProcessSubpacket | internal/zmodemproto/proto.go:949-1047 | Reading a subpacket and acting on its verdict |
| Receivers.Receiver.FeedIncoming | internal/zmodemproto/proto.go:768-808 | The feeding loop is the recursive one: same state, same bytes consumed, same error |
| Receivers.Receiver.DrainFile | internal/zmodemproto/proto.go:816-825 | Draining hands out the waiting data |
| FrameEnds.ClosedFrameEnds | internal/zmodemproto/proto.go:1075-1103 | After a drained subpacket of type 0x68 or 0x6b, whatever its data, a ZEOF at the position reached completes the file |
| FrameEnds.OpenFrameGoesOn | internal/zmodemproto/proto.go:1075-1103 | After one of type 0x69 or 0x6a the next subpacket, of any type, is taken as data of the same frame |
| FrameEnds.AcknowledgedIff | internal/zmodemproto/proto.go:1084-1092 | Exactly the types 0x6a and 0x6b queue a ZACK, with the position reached |
| FrameEnds.FrameThenEof | internal/zmodemproto/proto.go:949-1103 | However a peer cuts a frame into subpackets and whichever end types it chooses: the data comes out in order, and a ZEOF at the position reached completes the file |
| ReceiverReplies.SpeaksFirst | internal/zmodemproto/proto.go:754-766 | A new receiver has the 21 bytes of its introduction queued |
| ReceiverReplies.IntroducesItself | internal/zmodemproto/proto.go:886-908 | Before the first file the bytes of a ZRQINIT or of a data header are answered by the 21 bytes of the introduction, and nothing else changes |
| ReceiverReplies.TakesFrameAtPosition | internal/zmodemproto/proto.go:902-916 | With a file open, a data header at the position reached opens a frame; any other is answered by a ZRPOS with the position reached and takes nothing |
| ReceiverReplies.CompletesAtPosition | internal/zmodemproto/proto.go:917-922 | A ZEOF completes the file exactly behind a closed frame and at the position reached, and is passed over otherwise |
| ReceiverReplies.ClosesSession | internal/zmodemproto/proto.go:923-928 | A ZFIN is answered by a ZFIN and ends the session exactly between files and behind a frame |
| ReceiverReplies.PassesOver | internal/zmodemproto/proto.go:886-931 | Every other header in every state changes nothing |
| ReceiverReplies.StartsFile | internal/zmodemproto/proto.go:1016-1029 | Metadata with a name, a size and anything behind the size starts the file with that name and size, and is answered by ZRPOS 0 |
| ReceiverReplies.NeedsName | internal/zmodemproto/proto.go:1049-1053 | Metadata without a name is an error |
| ReceiverReplies.NeedsSize | internal/zmodemproto/proto.go:1054-1066 | So is a size that cannot be read; the name is remembered all the same |
| ReceiverSafety.ReceiverIsSafe | internal/zmodemproto/proto.go:754-1103 | In every run against any peer bytes that raised no overflow error: data frames open only at the count, only subpackets with a right checksum are handed out, each once and in order, the count is the number of bytes handed out since the last start, files complete only at the count, and the events and data the owner got are exactly those of the record |
| ReceiverSafety.DeliveredIsAccepted | internal/zmodemproto/proto.go:1075-1103 | What was handed out is the concatenation of the accepted subpackets in order |
| ReceiverSafety.DrainsOnceIffInRange | internal/zmodemproto/proto.go:816-825 | Data is handed out exactly once if and only if the count stays within 2^32-1; otherwise it is handed out again |
| Senders.Sender.Extend | internal/zmodemproto/proto.go:354-369 | The bounded buffer takes all bytes or fills up and fails |
| Senders.Sender.QueueZfile | internal/zmodemproto/proto.go:575-588 | An announcement that does not fit leaves a cut buffer and an error |
| Senders.Sender.StartFile | internal/zmodemproto/proto.go:447-471 | Every state, size and pending output leads to the modelled outcome |
| Senders.Sender.FinishSession | internal/zmodemproto/proto.go:473-483 | The closing header is queued now, later, or refused |
| Senders.Sender.FeedFile | internal/zmodemproto/proto.go:489-527 | A chunk is refused or queued as part of its frame, and the next request or the wait for an acknowledgement follows |
| Senders.Sender.OnZrinit | internal/zmodemproto/proto.go:644-680 | Every state reacts to a ZRINIT with the modelled transition |
| Senders.Sender.OnZrpos | internal/zmodemproto/proto.go:682-703 | A position is answered by the end of the file or a request of at most 8192 bytes in a frame of at most the allowed number of chunks |
| Senders.Sender.HandleHeader | internal/zmodemproto/proto.go:628-642 | Every frame in every state makes exactly the modelled transition |
| Senders.Sender.FeedIncoming | internal/zmodemproto/proto.go:529-552 | The feeding loop is the recursive one: same state, same bytes consumed, same error |
| SenderSpec.MessagesFit | internal/zmodemproto/proto.go:570-626 | No message but an announcement can exceed 16418 bytes, so none overflows the 256 KiB buffer, and no message is empty |
| SenderSafety.SenderIsSafe | internal/zmodemproto/proto.go:434-711 | In every run: a request is pending exactly in the state that needs data, with its length the smaller of 8192 and what is left and at least 1; the chunks of a frame are contiguous from the position in its header, which is the one the receiver asked for last; a frame ends after at most 200 chunks |
| SenderSafety.UnacknowledgedIsBounded | internal/zmodemproto/proto.go:503-525 | In every legal record an open frame has carried fewer than 200 full chunks and has not reached the announced size, so at most 200 times 8192 bytes are out without an acknowledgement |
| SenderFrames.FrameAfterZrinit | internal/zmodemproto/proto.go:489-527 | After an introduction and a position, for any full pieces and a last one of any length: every subpacket but the last keeps its frame open, and the last one closes it and asks for an acknowledgement exactly at the 200th subpacket, or the first without CANOVIO, behind a short one, and at the end of the file |
| SenderReplies.CallsFirst | internal/zmodemproto/proto.go:434-445 | A new sender calls the receiver exactly if it starts the session |
| SenderReplies.CallsAgain | internal/zmodemproto/proto.go:628-642 | Before the introduction every header but it and a ZFIN is answered by the 21 bytes of a ZRQINIT |
| SenderReplies.AnnouncesFile | internal/zmodemproto/proto.go:644-666 | The introduction makes the sender announce its file, or become ready, or close the session if it was asked to |
| SenderReplies.CompletesFile | internal/zmodemproto/proto.go:667-675 | An introduction behind a ZEOF completes the file, and closes the session if that was asked for |
| SenderReplies.EndsFile | internal/zmodemproto/proto.go:686-691 | A position at or behind the size is answered by a ZEOF at that position |
| SenderReplies.SaysGoodbye | internal/zmodemproto/proto.go:676-711 | A closing session ends with a ZFIN or an introduction, and with the two letters O |
| SenderReplies.PassesOver | internal/zmodemproto/proto.go:628-711 | Every other header in every state changes nothing, but for what an introduction says of the receiver |
| SenderReplies.StartsFile | internal/zmodemproto/proto.go:447-471 | When a file can be started, which error comes first otherwise, and that it is announced at once between files |
| SenderDriver.ZmodemSend.FlushSender | internal/sshclient/zmodem.go:309-377 | For any files and any peer, flushing ends with nothing left to do; it fails only because a file is too short, too large or has too long a name, never because the sender is misused; a waiting event is acted on exactly once |
| SenderDriver.ZmodemSend.SenderConsume | internal/sshclient/zmodem.go:299-307 | Feeding and flushing keeps the sender in order, and what it leaves - the sender, the current file and every byte written - is that of the function SenderDeliveries speaks of |
| SenderDriver.ZmodemSend.Begin | internal/sshclient/zmodem.go:105-128 | So does the start of a transfer, with the first file |
| SenderDriver.FeedKeepsOrder | internal/zmodemproto/proto.go:529-552 | However many headers one input holds, a waiting event is never overwritten |
| SenderDriver.ChunkAccepted | internal/sshclient/zmodem.go:328-339 | A non-empty part of a request, read from the file is always accepted |
| SenderDriver.NextFileStarts | internal/sshclient/zmodem.go:379-395 | Starting the file after a completed one fails only because of the file itself |
| SenderDeliveries.PositionIsServed | internal/sshclient/zmodem.go:309-361 | A position inside the file is answered by exactly the bytes of the current file from there on: as many subpackets of 8192 bytes as one acknowledgement covers, or up to the end of the file |
| SenderDeliveries.NextIsAnnounced | internal/sshclient/zmodem.go:362-377 | A completed file is followed by the announcement of the next one with its own name and size, the last one by the end of the session |
| ReceiverDriver.FeedGivesOneThing | internal/zmodemproto/proto.go:768-808 | A receiver whose news were handed out and that is fed once holds at most one event, never together with file data, so the order in which its owner takes events and data loses nothing; and nothing if no byte was consumed |
| ReceiverDriver.ZmodemReceive.FlushReceiver | internal/sshclient/zmodem.go:222-297 | Flushing hands out the events, then the data, then the answer, leaves nothing, and reports progress exactly if there was something; the end of the session stops it at once |
| ReceiverDriver.ZmodemReceive.ReceiverConsume | internal/sshclient/zmodem.go:196-220 | The consuming loop ends, and what it wrote to files and to the line, what it keeps and how it ends are exactly those of the recursive function |
| ReceiverDriver.ConsumedKeepsTheRest | internal/sshclient/zmodem.go:196-220 | What consuming keeps is the last part of the bytes, nothing that was sent is taken back, and if it ends for want of bytes the receiver has handed out everything |
| ReceiverDriver.OverflowDrainsForEver | internal/sshclient/zmodem.go:274-284 | Past 2^32-1 bytes draining until there is no data never ends |
| ReceiverDeliveries.FrameIsWritten | internal/sshclient/zmodem.go:196-297 | A frame of any subpackets with data, in one piece: its data is written to the open file in order, its acknowledgements go out in order, and what follows it is kept |
| ReceiverDeliveries.FileIsKept | internal/sshclient/zmodem.go:196-297 | With the ZEOF behind it: the file is finished with all its content and the introduction goes out |
| Refeed.AbsorbedButNotConsumed | internal/zmodemproto/proto.go:790-797 | Bytes of an incomplete header change the reader but are reported as not consumed |
| Refeed.RefeedIsHarmlessIffQuietTwice | internal/sshclient/zmodem.go:196-215 | Feeding these kept bytes once more is harmless for every continuation if and only if the bytes, twice in a row, contain no pad followed by ZDLE; for the first part of a header it is not |
| Refeed.RefeedsAreHarmlessIffQuietTwice | internal/sshclient/zmodem.go:196-215 | However often the kept bytes grow and are fed again, every feeding has the outcome of a first reading for every continuation if and only if everything that was ever kept is quiet twice in a row |
| Detector.Index | internal/zmodemproto/proto.go:70-72 | The first position of a pattern, or none |
| Detector.DetectHeader | internal/zmodemproto/proto.go:70-80 | The earlier of the two header starts, with its direction |
| Detector.LongestHeaderPrefixSuffix | internal/zmodemproto/proto.go:82-98 | The longest tail of at most five bytes that could begin a header |
| Detector.HeaderDetector.Consume | internal/zmodemproto/proto.go:44-64 | One call emits up to the first header start, or all but the tail that could begin one |
| Detector.ConsumeFollowsStream | internal/zmodemproto/proto.go:44-64 | Going on from the held bytes finds the first header of the whole stream, and emitted and held bytes make up the stream |
| Detector.Watch | internal/zmodemproto/proto.go:44-98 | For every way to cut a stream: up to the first detection emitted plus held bytes are the stream so far, at most five bytes are held, no header start is ever emitted whatever follows, and the direction and position found are those of the first occurrence in the whole stream |
| Openings.DetectedIffInit | internal/zmodemproto/proto.go:70-98 | Of all headers the detector reacts exactly to the hexadecimal ZRQINIT and ZRINIT, whatever their flags, and tells them apart |
| VersionVectors.CompareVectors | internal/syncclient/client.go:1463-1490 | The two loops find exactly the entries that exceed on either side |
| VersionVectors.CompareIsPointwise | internal/syncclient/client.go:1463-1490 | The comparison is the pointwise order if and only if no device known only to the right side has a negative counter, or something else exceeds |
| VersionVectors.NegativeEntryMisleads | internal/syncclient/client.go:1472-1479 | A concrete pair that the comparison takes for equal although the left side is later |
| VersionVectors.MergeVectors | internal/syncclient/client.go:1453-1461 | The loop computes the pointwise maximum, without idle entries |
| VersionVectors.MergeIsLeastUpperBound | internal/syncclient/client.go:1453-1461 | The merge is the least upper bound of both vectors |
| VersionVectors.MergeAssociates | internal/syncclient/client.go:1453-1461 | Merging vectors is associative |
| VersionVectors.MergeCommutes | internal/syncclient/client.go:1453-1461 | Merging vectors is commutative |
| VersionVectors.IncrementVector | internal/syncclient/client.go:1434-1441 | The own counter is seeded from a legacy version and incremented in 64 bits |
| VersionVectors.IncrementDominates | internal/syncclient/client.go:1434-1441 | The incremented vector is strictly later if and only if the own counter does not wrap around, and no other counter moves |
| VersionVectors.NextCounter | internal/syncclient/client.go:1434-1441 | The own counter goes up by exactly one; without a vector it goes on from the legacy version |
| VersionVectors.MaxVector | internal/syncclient/client.go:1492-1500 | The loop finds the largest counter, at least zero |
| FieldMerge.MergeJSONFields | internal/syncclient/client.go:1563-1619 | The loop over all names, in any order, merges every field as the pure merge does |
| FieldMerge.PrecedesIsTotal | internal/syncclient/client.go:1600 | The order of writer names decides every tie between different writers |
| FieldMerge.FirstDifferenceDecides | internal/syncclient/client.go:1600 | Of two names the one with the greater character where they first differ is the later, whatever follows |
| FieldMergeLaws.TieGoesToGreaterName | internal/syncclient/client.go:1594-1616 | Of two writes of a field that the clocks do not order, the one of the writer whose name is greater where the names first differ survives, on whichever side it is |
| FieldMergeLaws.TieGoesToLongerName | internal/syncclient/client.go:1594-1616 | If one name begins the other, the write of the longer one survives |
| FieldMergeLaws.MergeIsIdempotent | internal/syncclient/client.go:1563-1619 | Merging a document with itself gives it back if and only if every value has a clock that carries a hash |
| FieldMergeLaws.MergeKeepsLive | internal/syncclient/client.go:1603-1615 | Merging keeps every value together with a clock that carries its hash |
| FieldMergeLaws.MergeCommutes | internal/syncclient/client.go:1563-1619 | The two sides can be exchanged if and only if in no field one writer made two different writes that the clocks cannot order |
| FieldMergeLaws.NeverKeepsDominated | internal/syncclient/client.go:1589-1616 | Every field ends with the clock and value of one side, never with a clock earlier than either side has |
| FieldMergeLaws.NeverRevivesDeleted | internal/syncclient/client.go:1603-1615 | A field deleted by the later write stays deleted, on whichever side the deletion is |
| FieldMergeLaws.KeepsIndependentEdits | internal/syncclient/client.go:1589-1616 | Of two well-formed documents that edit a common base, each with the clocks of its edit, the merge has in every field that one of them left alone the write of the other |
| FieldMergeLaws.MergeAssociates | internal/syncclient/client.go:1563-1619 | Three documents merge the same way in both groupings if and only if in no field the three writes beat each other in a circle |
| FieldMergeLaws.TwoWritersNeverCycle | internal/syncclient/client.go:1594-1601 | With at most two writers there is no such circle |
| FieldMergeLaws.MergeAssociatesForTwoWriters | internal/syncclient/client.go:1563-1619 | So merging is associative for two writers |
| FieldMergeLaws.ThreeWritersDisagree | internal/syncclient/client.go:1599-1600 | Three concrete writes by X, Y and Z for which the grouping decides the value |
| SyncEnvelope.MakeSyncEnvelope | internal/syncclient/client.go:1502-1537 | The loops give every present or formerly present field the clock that the pure function gives it; other JSON fails |
| SyncEnvelope.EnvelopeRecordsEdit | internal/syncclient/client.go:1513-1530 | A pushed document has a clock and hash for every value, is a later edit of the one before, and gives new clocks to exactly the fields that changed or are deleted |
| SyncEnvelope.EnvelopeKeepsBound | internal/syncclient/client.go:1502-1537 | Field clocks stay within the record's clock |
| SyncEnvelope.PullKeepsBounded | internal/syncclient/client.go:1334-1377 | Pulling records whose field clocks are within their clock keeps this for every stored record |
| SyncEnvelope.IndependentEditsMeet | internal/syncclient/client.go:1502-1619 | When two devices edit the same base, the merge of their two envelopes has, in either order, a field that one of them left alone as the other wrote it |
| Sync.Client.PullRecord | internal/syncclient/client.go:1284-1379 | One pulled record: deferred, stale, refused, merged, copied, deleted or stored, as the transition says |
| Sync.Client.Integrate | internal/syncclient/client.go:1316-1378 | Conflict detection and its five outcomes |
| Sync.Client.Delete | internal/syncclient/client.go:1354-1377 | A deletion, or the survival of a concurrent local edit; what is gone afterwards says SyncDeletions |
| Sync.Client.MergeInto | internal/syncclient/client.go:1337-1353 | A concurrent edit is merged field by field |
| Sync.Client.CopyCredential | internal/syncclient/client.go:1324-1333 | A concurrent credential is kept beside the local one |
| Sync.Client.ListDeferred | internal/syncclient/client.go:1278-1281 | Every deferred record is tried again, in whatever order |
| Sync.Client.PullBatch | internal/syncclient/client.go:1284-1380 | The loop is the fold of the transition over the batch, up to the first error |
| Sync.Client.PullResponse | internal/syncclient/client.go:1244-1381 | A whole pull, with the deferred records first and freshly exported texts |
| Sync.Client.CollectRecords | internal/syncclient/client.go:943-976 | Exactly the changed records that may leave the device are pushed, sealed with an incremented clock |
| Sync.Client.CollectDeletions | internal/syncclient/client.go:977-1016 | Exactly the journalled deletions of synchronized entities are pushed, each sealed with an incremented clock; others are forgotten |
| Sync.Client.Synchronize | internal/syncclient/client.go:888-1042 | A successful synchronization is the pull, overwritten by what was pushed, with the journal emptied and the cursor moved; a failed one leaves the cursor, and of records and vault either everything or what the pull had stored up to its error; the journal is untouched if a row could not be sealed, and otherwise empty after a push and what is worth pushing before it |
| SyncDeletions.DeletionDeletes | internal/syncclient/client.go:1284-1377 | A readable deletion that is news, and that no text here is concurrent with, ends without an error: the entity is in neither the vault nor the compared texts, is known as deleted, will not be pushed, and every other entity is as before |
| SyncDeletions.PulledDeletionDeletes | internal/syncclient/client.go:1284-1377 | The same for the only record about its entity in a whole pull |
| SyncDeletions.SyncedDeletionDeletes | internal/syncclient/client.go:1017-1036 | The same for a whole synchronization that pushes nothing about the entity |
| SyncDeletions.PushedDeletionDeletes | internal/syncclient/client.go:977-1016 | What one device deletes and pushes, another one without an edit of its own deletes too |
| SyncContents.ConcurrentIff | internal/syncclient/client.go:1312-1316 | A record counts as concurrent exactly if the two clocks cannot be ordered or the row was synchronized before and its text is another now |
| SyncContents.DeletionSparesEdit | internal/syncclient/client.go:1312-1366 | A deletion never takes away a row that was edited since it was last synchronized |
| SyncContents.TakenAsItIs | internal/syncclient/client.go:1334-1377 | A record that is news, and that nothing here is concurrent with, replaces the row, its clock and its field clocks, is not pushed back, and leaves every other entity as it was |
| SyncContents.TakenIsRemembered | internal/syncclient/client.go:1312-1377 | From then on exactly another text in its place, or none, counts as an edit |
| SyncContents.MergeIsNoConflict | internal/syncclient/client.go:1337-1377 | A merge counts as applied and not as a conflict |
| SyncContents.BareFieldsGetClocks | internal/syncclient/client.go:1539-1561 | Every field of a record without field clocks counts as written with the record, by its device |
| SyncContents.VersionIsCounter | internal/syncclient/client.go:1424-1432 | A record without a vector is news exactly if its version is higher than the counter known of its device, and taking it in sets that counter and no other |
| SyncContents.NamelessIsIgnored | internal/syncclient/client.go:1424-1432 | A record without a vector and without a device or a version never changes a row |
| SyncContents.FailsIff | internal/syncclient/client.go:1284-1353 | Which records stop a pull and with which error: news of a shared kind that does not open, has no known form, or would have to be merged or copied without being an object; nothing is changed but that the record is no longer deferred |
| SyncContents.BodyBelongsToRecord | internal/syncclient/client.go:1295-1301 | A sealed body opens only in a record with the kind, entity, version and vector it was sealed for |
| SyncContents.PolicyOrder | internal/syncclient/client.go:1397-1422 | The credential's own setting decides, then that of its connections, then the default |
| SyncContents.ConflictKeepsBoth | internal/syncclient/client.go:1324-1333 | Of a credential changed on both sides the local one stays as it is, and the remote one is stored under the new identifier with a mark behind its name and every other field as it came |
| SyncContents.PushedRows | internal/syncclient/client.go:943-976 | A row is pushed exactly if its kind is shared and its text is not the one last synchronized, new rows included |
| SyncContents.WorthPushingIff | internal/syncclient/client.go:981-987 | A journalled deletion is pushed exactly if its entity was synchronized before |
| SyncContents.PushedIsRemembered | internal/syncclient/client.go:951-975 | The version of a pushed row is its device's counter, and from then on exactly another text, or none, counts as an edit of it |
| SyncContents.DeletionIsRemembered | internal/syncclient/client.go:992-1014 | An entity whose deletion was pushed is known as deleted, with the incremented clock, and does not count as edited |
| SyncSafety.PullNeverLowers | internal/syncclient/client.go:1284-1380 | No record's clock is ever lowered by a pull, not even by one that ends in an error |
| SyncReplay.PullTwiceIsPullOnce | internal/syncclient/client.go:1278-1380 | Pulling the same response again after a pull without error changes no vault row, no record state and no deferred record if and only if no record of the response that may be stored is still news and no deferred record of a synchronized kind has become old |
| SyncReplay.PullKeepsExported | internal/syncclient/client.go:1250-1379 | The texts that a pull compares with stay those of the rows of synchronized kinds, also when it breaks off |
| SyncReplay.ResponseTwiceIsResponseOnce | internal/syncclient/client.go:1244-1380 | The same two conditions for two calls of the client's pull, each of which exports the texts anew |
| SyncReplay.ReplayIsHarmlessIffNoConflict | internal/syncclient/client.go:1278-1380 | Where no two records concern one credential, this is so if and only if no record of the response was met as a credential changed on both sides |
| SyncReplay.MetIsSettled | internal/syncclient/client.go:1284-1380 | After a pull without error every record that may be stored, and was not met as a conflicting credential, is old |
| SyncReplay.RenamedTwiceConflicts | internal/syncclient/client.go:1320-1333 | A concrete credential renamed on two devices, which pulling twice copies twice |
| SyncReplay.CredentialConflictRepeats | internal/syncclient/client.go:1324-1333 | A conflicting credential is copied once more by every replay, beside the local one |
| SyncSafety.EditSurvivesDeletion | internal/syncclient/client.go:1354-1366 | A concurrent local edit is kept when a deletion arrives, is due for pushing, and its next clock is later than both |
| SyncSafety.PullAround | internal/syncclient/client.go:1284-1380 | A batch with one record about an entity does to this entity exactly what that record does when it is met |
| SyncRuns.SyncNeverLowers | internal/syncclient/client.go:940-1042 | After a successful synchronization every record is at or above its clock at the start if and only if no pushed counter wraps around |
| SyncRuns.SyncKeepsBounded | internal/syncclient/client.go:940-1042 | A successful synchronization whose pushed counters all have room keeps every field clock within its record's clock |
| SyncRuns.PullGathers | internal/syncclient/client.go:1288-1377 | The clock after a pull is the least upper bound of the clock before and of the records that were taken in |
| SyncRuns.SyncForgetsPulledClocks | internal/syncclient/client.go:940-1042 | The clocks that a pull reached survive the synchronization if and only if no pushed counter wraps around and every record taken in about a pushed entity is within the clock that the push gave it |
| SyncRuns.PushedIsKnown | internal/syncclient/client.go:969-1036 | Whatever the pull brought, what is known about a pushed row afterwards is what was pushed, so it is pushed again exactly if the pull left another text |
| SyncRuns.ResurrectionIsForgotten | internal/syncclient/client.go:1034-1036 | A changed row that another device deleted concurrently: the pull keeps it and arranges for a later push, the synchronization undoes the arrangement, so it is not pushed again and has the clock of a push that knew nothing of the deletion |
| SyncRuns.OutgoingIsHonest | internal/syncclient/client.go:953-975 | The field clocks of a pushed record are within its own clock |
| SyncEdits.EditSurvivesSyncIff | internal/syncclient/client.go:1316-1353 | Against the only record about its entity in a response, one that differs in a field: the local side - a change, an addition or a deletion - is in the vault after the synchronization if and only if a write of the field was known before and the pulled one is not later, or, for a deletion, the pulled side has no live write of it |
| SyncEdits.ChangeSurvivesPullIff | internal/syncclient/client.go:1337-1353 | A change or addition survives a pull if and only if a live write of the field was known before the edit and the pulled write is not later than that one |
| SyncEdits.DeletionSurvivesPullIff | internal/syncclient/client.go:1337-1353 | A deletion survives a pull if and only if a write of the field was known before the edit and the pulled write is not later than that one, or the pulled side has no live write of it |
| SyncEdits.AddedFieldIsDropped | internal/syncclient/client.go:1337-1340 | A concrete synchronization of two edits of different fields, in which the own push does not come back: it drops the field one device added, and the next push reports it as deleted |
| SyncEdits.DroppedIsPushedAsDeleted | internal/syncclient/client.go:1524-1530 | A field of a pushed row that the pull dropped is reported as deleted by the next push |
| SyncEdits.ResurrectionIsLost | internal/syncclient/client.go:1034-1036 | A concrete synchronization whose pull keeps an edited row against a deletion, after which the row is not pushed and its clock is concurrent with the deletion |
| SyncEchoes.OwnPushSettles | internal/syncclient/client.go:1284-1377 | When the own push comes back, the row stays as it is and gets the clocks of the push |
| SyncEchoes.EchoedField | internal/syncclient/client.go:1017-1353 | When the response holds the own push and one other record about the row, in either order, what the synchronization leaves of a field is the merge, in that order, of the local, the pulled and the pushed write |
| SyncEchoes.EditsMeetInSync | internal/syncclient/client.go:1017-1353 | When the response holds the own push and the other device's edit of the same base, in either order, every field that only one of the two touched ends in the vault as that one wrote it |
| SyncEchoes.EditSurvivesEchoIff | internal/syncclient/client.go:1017-1353 | In such a response, an edited field survives any other record that differs in it if and only if the record's write does not beat the pushed one; or, when the record comes first, if it does not beat the last write known before or is beaten by the pushed one |
| SyncEchoes.AddedFieldIsKept | internal/syncclient/client.go:1017-1353 | The concrete edits of SyncEdits.AddedFieldIsDropped both survive when the own push comes back behind the other record |
| SyncAttempts.ClockRepeatsIff | internal/syncclient/client.go:943-1036 | Two pushes of a row in succession carry the same clock if and only if the first synchronization failed after its push without raising what is known of the row's clock; each carries the text the row has at that time |
| SyncAttempts.SuccessMovesClock | internal/syncclient/client.go:969-1036 | After a successful synchronization the next push of a row is strictly later |
| SyncAttempts.SecondTextIsIgnored | internal/syncclient/client.go:1289-1294 | A device that took in the first of two records with one clock ignores the second, whatever its text |
| SyncRuns.PushedArrives | internal/syncclient/client.go:943-1381 | What one device pushes and another pulls without an edit of its own arrives unchanged with its field clocks and is not pushed back |
| TokenRefresh.Client.EnsureFreshToken | internal/syncclient/client.go:1672-1707 | An uninterrupted call, whether it is refused, loses the reply, or fails to store it, is a run of the protocol; which of the four results it has, which tokens are then in use and stored, and whether one was spent, is said case by case |
| TokenRefresh.StepKeepsInv | internal/syncclient/client.go:1672-1707 | Every step of every caller keeps the invariant, as long as storing works and no reply is lost |
| TokenRefresh.TokensAreSpentOnce | internal/syncclient/client.go:1672-1707 | As long as storing works and no reply is lost, for any number of callers in any interleaving: each refresh token is accepted at most once, at most one caller is in the critical section, and whoever asks presents the newest, unspent pair |
| TokenRefresh.AdoptersTakeTheNewest | internal/syncclient/client.go:1679-1689 | A caller adopts the stored pair exactly if its own is not the newest, and then has the newest |
| TokenRefresh.ForcedIsNeverKept | internal/syncclient/client.go:1672-1707 | In every interleaving a forced call never ends with the tokens it came with: it takes over another caller's or asks the server |
| TokenRefresh.SpentIsPresentedIffLost | internal/syncclient/client.go:1672-1707 | After any run, failures to store and lost replies included, some continuation without further ones presents a spent token if and only if the last granted pair was not stored and nobody is about to store it |
| TokenRefresh.StepKeepsWeakInv | internal/syncclient/client.go:1672-1707 | Every step, a failure to store and a lost reply included, keeps the stored pair spent exactly when it is not the newest |
| TokenRefresh.FailedSaveSpendsTwice | internal/syncclient/client.go:1699-1705 | A concrete run of two callers: the first gets new tokens and fails to store them, the second presents a spent one |
| TokenRefresh.LostReplySpendsTwice | internal/syncclient/client.go:1693-1698 | A concrete run of two callers: the server accepts the first one's request but its reply is lost, the second presents a spent token |
| SyncScheduler.App.TriggerSyncSoon | internal/app/app.go:911-938 | A trigger is remembered, delayed or started as the transition says |
| SyncScheduler.App.TimerCallback | internal/app/app.go:925-931 | The callback clears the handle and goes on to a run |
| SyncScheduler.App.EnterRun | internal/app/app.go:940-949 | A run starts exactly if none is active and the application is open |
| SyncScheduler.App.ExitRun | internal/app/app.go:951-960 | The end of a run passes a pending trigger on |
| SyncScheduler.App.Close | internal/app/app.go:203-214 | Closing stops the timer and all later runs |
| SyncScheduler.StepKeepsInv | internal/app/app.go:911-960 | Every critical section of every goroutine keeps the invariant |
| SyncScheduler.NoTriggerIsLost | internal/app/app.go:911-960 | In every interleaving at most one run is at work, and while the application is open a trigger not followed by a run is pending behind the run at work or carried by an armed timer or a goroutine short of the lock |
| SyncScheduler.EveryTriggerCanBeServed | internal/app/app.go:911-960 | From every such state a few steps without a new trigger, waiting at most 20 seconds, start a run after it |
| SyncScheduler.TriggerWaitsIff | internal/app/app.go:911-938 | A trigger starts a run at once if and only if 20 seconds have passed since the last one; otherwise it leaves exactly one timer, due 20 seconds after it |
| SyncScheduler.BurstLeavesOneTimer | internal/app/app.go:911-938 | Any number of triggers within 20 seconds of the last run start nothing, and leave one timer together |
| SyncScheduler.RunPassesTriggerOn | internal/app/app.go:940-960 | A run passes one trigger on exactly if any came while it was at work, and then owes nothing |
| SyncScheduler.ClosedStaysQuiet | internal/app/app.go:203-214 | Once closed no run begins any more, in any interleaving |
| TerminalText.SkipEscapeSequence | frontend/src/terminalEchoGuard.ts:174-195 | The loops find the end of a control sequence, a string sequence or a two-character escape |
| TerminalText.TerminalOutputTokens | frontend/src/terminalEchoGuard.ts:144-172 | The index loop yields the tokens of the text |
| TerminalText.TokensAreVisible | frontend/src/terminalEchoGuard.ts:161-169 | Only visible characters come out, one code point each |
| TerminalText.PlainTextSurvives | frontend/src/terminalEchoGuard.ts:144-172 | Of text without control characters nothing is lost |
| TerminalText.CutBetweenTokens | frontend/src/terminalEchoGuard.ts:144-172 | Output may arrive in two pieces wherever the scan stops between tokens |
| TerminalText.DropLastCuts | frontend/src/terminalEchoGuard.ts:206-210 | Dropping the last code point cuts the last surrogate pair or the last unit |
| TerminalText.ControlSequenceIsSilent | frontend/src/terminalEchoGuard.ts:174-185 | ESC [ with any parameters and a final character shows nothing, and what follows is read as if it stood alone |
| TerminalText.StringIsSilent | frontend/src/terminalEchoGuard.ts:186-193 | So do ESC ], P, ^ and _ with any text up to BEL or ESC backslash |
| TerminalText.LineBreaks | frontend/src/terminalEchoGuard.ts:152-156 | CR LF is one line break, and so is either of them alone |
| TerminalText.ErasureIsSilent | frontend/src/terminalEchoGuard.ts:157-160 | BS, space, BS shows nothing, its space included |
| EchoGuard.TerminalEchoGuard.AppendInput | frontend/src/terminalEchoGuard.ts:25-33 | Typing appends code point by code point to the line and to what is awaited |
| EchoGuard.TerminalEchoGuard.Backspace | frontend/src/terminalEchoGuard.ts:35-42 | A backspace shortens both |
| EchoGuard.TerminalEchoGuard.MarkUnreliable | frontend/src/terminalEchoGuard.ts:44-47 | Cursor control makes the line unreliable and unsafe |
| EchoGuard.TerminalEchoGuard.Submit | frontend/src/terminalEchoGuard.ts:49-58 | Only reliable, safe lines with text wait for confirmation |
| EchoGuard.TerminalEchoGuard.ConsumeLineBoundary | frontend/src/terminalEchoGuard.ts:113-125 | A line break confirms or drops the oldest submitted line, or spoils the current one; which of these says EchoGuardSessions |
| EchoGuard.TerminalEchoGuard.ObserveOutput | frontend/src/terminalEchoGuard.ts:60-111 | The loop over the tokens makes the modelled transitions and returns the commands confirmed meanwhile; which these are says EchoGuardSessions |
| EchoGuardSafety.ActKeeps | frontend/src/terminalEchoGuard.ts:25-131 | Every key and every piece of output keeps the invariant |
| EchoGuardSafety.ConfirmedWasShown | frontend/src/terminalEchoGuard.ts:25-131 | In every run a confirmed command is the text of a submitted, reliable, safe line with text; it was shown, code unit by code unit in order, in the visible output since its first keystroke, which was exactly the command unless a backspace erased something; confirmations follow the order of submissions |
| EchoGuardSafety.SuggestedWasShown | frontend/src/terminalEchoGuard.ts:21-23 | In every run, when suggestions are allowed, the line was shown in order in the visible output since its first keystroke, which is exactly the line if nothing was erased |
| EchoGuardSafety.AwaitedIsSuffix | frontend/src/terminalEchoGuard.ts:35-42 | What is awaited stays a suffix of the line, with backspaces too |
| EchoGuardSessions.TypedIsConfirmed | frontend/src/terminalEchoGuard.ts:25-131 | In a terminal that echoes, at once or behind Enter, exactly the commands typed are confirmed, as they stand after corrections by backspace, in their order, whatever else is printed |
| EchoGuardSessions.TypedAheadIsConfirmed | frontend/src/terminalEchoGuard.ts:49-125 | Lines entered before any of them is echoed are all confirmed, in their order |
| EchoGuardSessions.ShownDecides | frontend/src/terminalEchoGuard.ts:25-125 | For every line typed, every output before Enter and every output behind it: the next line break confirms the line if and only if the two outputs together are the line |
| EchoGuardSessions.BreakSpoils | frontend/src/terminalEchoGuard.ts:113-131 | A line break in the middle of a line makes it one that is not confirmed |
| EchoGuardSessions.SpoiledIsNotConfirmed | frontend/src/terminalEchoGuard.ts:35-58 | Such a line, whatever is typed and shown after that, is not confirmed when it is entered, and the next one begins afresh |
| EchoGuardSessions.BlankIsNotConfirmed | frontend/src/terminalEchoGuard.ts:53 | A line of white space is not confirmed |
| EchoGuardSessions.ConfirmedIffShown | frontend/src/terminalEchoGuard.ts:113-125 | In every run a line break takes the oldest queued line out and confirms it if and only if nothing of it is awaited, which, if nothing was erased, means that what was shown since its first keystroke is the command |
| ResumableTransfer.CopyTransfer | internal/sftpclient/transfer.go:388-418 | For every behaviour of reads and writes the target gets a contiguous piece of the source, and the progress counts it |
| ResumableTransfer.RunUpload | internal/sftpclient/transfer.go:269-325 | An upload with any faults ends in the modelled state of the files and the progress |
| ResumableTransfer.RunDownload | internal/sftpclient/transfer.go:327-386 | A download with any faults ends in the modelled state of the files and the progress |
| ResumableTransfer.RunTransfer | internal/sftpclient/transfer.go:212-251 | How a run ends: a request decides, then the error, then success |
| ResumableTransfer.PauseTransfer | internal/sftpclient/transfer.go:142-161 | Exactly queued and running transfers can be paused, and pausing a running one cancels its context |
| ResumableTransfer.ResumeTransfer | internal/sftpclient/transfer.go:163-179 | What can be resumed |
| ResumableTransfer.CancelTransfer | internal/sftpclient/transfer.go:181-200 | Every transfer that is not completed can be cancelled, and cancelling a running one cancels its context |
| ResumableTransfer.CopyExtendsPrefix | internal/sftpclient/transfer.go:388-418 | Copying from a prefix keeps a prefix whose length is the progress, and a finished copy is the source |
| ResumableTransfer.UploadDelivers | internal/sftpclient/transfer.go:282-324 | A successful upload delivers the source if and only if it found a prefix of it or something too long |
| ResumableTransfer.DownloadDelivers | internal/sftpclient/transfer.go:350-385 | A successful download delivers the source if and only if it found a prefix of it; a longer partial file leaves a gap of zeros |
| ResumableTransfer.UploadSucceedsIff | internal/sftpclient/transfer.go:269-325 | An upload succeeds exactly if the destination may be written, nothing that it needs fails, and the copy comes to its end |
| ResumableTransfer.DownloadSucceedsIff | internal/sftpclient/transfer.go:327-386 | So does a download, which needs syncing too |
| ResumableTransfer.LifeIsSound | internal/sftpclient/transfer.go:142-386 | Over any sequence of runs, pauses, resumptions and cancellations the partial file is a prefix of the source, the destination is what it was, absent or the source, and a completed transfer has delivered the source |
| ResumableTransfer.LifeCounts | internal/sftpclient/transfer.go:310-418 | From the first run that reaches the copy on, whatever happens: unless the transfer is cancelled, BytesDone is the length of the partial file, or the file was delivered and nothing copied since |
| ResumableTransfer.CompletesIffMayPublish | internal/sftpclient/transfer.go:212-386 | A run without faults that finishes the copy completes the transfer if and only if the destination is free or may be replaced |
| ResumableTransfer.ResumedCompletesIff | internal/sftpclient/transfer.go:163-386 | After any life that left it paused or failed, resuming a transfer with enough rounds in which nothing goes wrong completes it if and only if the destination is free or may be replaced |
| ResumableTransfer.WillingFinishes | internal/sftpclient/transfer.go:388-418 | One round more than bytes are missing, with nothing going wrong, finishes the copy |
| ResumableTransfer.PausedTooLate | internal/sftpclient/transfer.go:236-245 | Without permission to overwrite, resuming after a pause during a run completes the transfer if and only if the file was not yet delivered when the pause arrived |
| ResumableTransfer.EndIsFinal | internal/sftpclient/transfer.go:142-251 | A cancelled or completed transfer stays so, over any sequence of runs and requests, and nothing touches its files |
| ResumableTransfer.RequestDecides | internal/sftpclient/transfer.go:212-251 | A pause or cancellation during a run decides its status, and a cancellation removes the partial file, also when the copy came to its end |
| HistoryIndex.KeyIsInjective | frontend/src/commandHistorySearch.ts:151-153 | Connections without NUL and commands are determined by their key |
| HistoryIndex.CommandHistoryIndex.Replace | frontend/src/commandHistorySearch.ts:25-33 | The loop loads the entries one by one |
| HistoryIndex.CommandHistoryIndex.UpsertEntry | frontend/src/commandHistorySearch.ts:79-99 | An existing entry is counted, a new one gets a made-up identifier |
| HistoryIndex.CommandHistoryIndex.RecordUse | frontend/src/commandHistorySearch.ts:35-40 | A use is counted for the connection, if there is one, and for all connections |
| HistoryIndex.CommandHistoryIndex.DeleteRecords | frontend/src/commandHistorySearch.ts:52-56 | The loop deletes the records one by one |
| HistoryIndex.CommandHistoryIndex.DeleteCommand | frontend/src/commandHistorySearch.ts:42-50 | Whatever the visit order, exactly the matching entries go |
| HistoryIndex.CommandHistoryIndex.DeleteById | frontend/src/commandHistorySearch.ts:101-109 | An entry goes with the key that leads to it |
| HistoryIndex.RecordCounts | frontend/src/commandHistorySearch.ts:35-40 | Recording counts one use for the connection and one for all, keeps the two maps inverse, and changes nothing else |
| HistoryIndex.UpsertCounts | frontend/src/commandHistorySearch.ts:79-99 | One use more in one scope, with the maps inverse before and after |
| HistoryIndex.DeleteCommandForgets | frontend/src/commandHistorySearch.ts:42-50 | Deleting a command forgets exactly its two scopes |
| HistoryIndex.DeleteAllForgets | frontend/src/commandHistorySearch.ts:52-56 | Deleting records forgets exactly their scopes |
| HistoryIndex.ReplaceMeansSnapshot | frontend/src/commandHistorySearch.ts:25-33 | After loading a snapshot with unique identifiers and scopes the maps are inverse and mean exactly the snapshot |
| HistoryIndex.IndexRefinesMap | frontend/src/commandHistorySearch.ts:25-56 | Over any sequence of replacements, recordings and deletions the two maps stay inverse, and the index means what the same sequence makes of a plain map from connection and command to identifier, count and time |
| HistorySuggest.Collect | frontend/src/commandHistorySearch.ts:59-68 | The loop, in any visit order, keeps for each command a match that no other match beats |
| HistorySuggest.BestIsUnique | frontend/src/commandHistorySearch.ts:61-68 | These best entries do not depend on the visit order |
| HistorySuggest.Rank | frontend/src/commandHistorySearch.ts:69 | Every best entry once, more uses first, then the later use |
| HistorySuggest.Suggest | frontend/src/commandHistorySearch.ts:58-77 | The suggestions are the first `limit` commands by rank, each once, each with its best entry |
| HistorySuggest.SuggestionCoversMatches | frontend/src/commandHistorySearch.ts:58-77 | Every match is represented by an entry of its command that is as good or better, or the list is full of commands that rank no lower |
| HistorySuggest.SuggestionIsRanked | frontend/src/commandHistorySearch.ts:58-77 | At most as many as asked for, or 20; each the connection's own or one for all and with the prefix; no command twice; more uses first, then the later use |
| HistorySuggest.SuggestionIsBest | frontend/src/commandHistorySearch.ts:111-123 | No entry of the same command ranks before a listed one, and among equals the connection's own is listed |
| HistorySuggest.SuggestionMissesNothing | frontend/src/commandHistorySearch.ts:58-77 | A matching command is listed, or the list is full of commands that rank no lower |
| HistoryReplica.CommandHistorySuggestions.RunChange | frontend/src/commandHistorySuggestions.ts:146-171 | A queued change is made in the index at home and posted to the worker |
| HistoryReplica.CommandHistorySuggestions.SendQuestion | frontend/src/commandHistorySuggestions.ts:158-171 | A question is posted without waiting for changes |
| HistoryReplica.CommandHistorySuggestions.HandleWorkerMessage | frontend/src/commandHistorySuggestions.ts:173-194 | A reply ends the change that awaits it; a failed one stops the worker |
| HistoryReplica.StepKeeps | frontend/src/commandHistorySuggestions.ts:40-194 | Every change, question, message, reply and failure keeps the invariant |
| HistoryReplica.ReplicaEqualsLocal | frontend/src/commandHistorySuggestions.ts:40-194 | In every run, when no change is under way a live worker holds exactly the local index |
| HistoryReplica.ChangeReachesWorker | frontend/src/commandHistorySuggestions.ts:146-194 | A change with nothing else under way starts the worker if need be, is carried out by it, and ends with its reply: the worker then holds the index at home |
| HistoryReplica.FailedChangeStopsWorker | frontend/src/commandHistorySuggestions.ts:173-194 | If the worker fails at it, the worker is given up and the next change may run |
| Groups.IntroducesCycle | internal/store/store.go:519-536 | The search ends on every store and answers exactly whether the chain from the new parent, with the edit in place, has no end |
| Groups.EditKeepsAcyclic | internal/store/store.go:519-536 | An edit of an acyclic tree keeps it acyclic if and only if that chain ends |
| Groups.EndingAvoidsGroup | internal/store/store.go:529-535 | A chain that ends never passes through the edited group |
| Groups.Store.PutGroup | internal/store/store.go:61-82 | An edit is stored if and only if the name is valid, the group is not its own parent and the tree stays acyclic; otherwise nothing changes |
| Groups.Store.DeleteGroup | internal/store/store.go:84-104 | A group is removed if and only if no group and no connection is in it, and the tree stays acyclic |

## Left out

- `frontend/src/zmodem.ts`, user interface, status messages, progress throttling, discard windows after a cancellation: no property beyond those of the parts above.
- HTTP, WebSocket, SSH, SFTP, SQLite, keyring and the file system are not modelled; their answers and failures are parameters.
- Encryption and hashing: SHA-256 is an injective function, and opening a sealed payload succeeds exactly with the same key and associated data; nonces do not appear.
- ZMODEM buffers: the outgoing buffer of either machine is represented by the one message it can hold; a buffer write offset that is always zero and a count that always equals the length of the checksum buffer are omitted, as are error returns that the ranges of the fields exclude.
- Writing to a closed remote session, a file that cannot be opened or written, and a download that the user declines end a transfer and are not modelled; file names are the bytes they are sent as.
- ReceiverDriver.ZmodemReceive.ReceiverConsume: stops with `stuck` where the program would drain for ever.
- ReceiverDeliveries.FrameIsWritten: for subpackets with data; an empty one is taken in together with what follows it.
- SyncContents.ConflictKeepsBoth: for a credential with a name, as the program writes them.
- Session and Transfer: a lossless line without noise between the two sides; noise and splitting are covered by the readers' own lemmas.
- JSON: a record is its object of raw field texts, or another valid JSON text; white space, the escaping of characters when a record is stored again, and null in place of an object are not distinguished.
- Sync.Client.CopyCredential: the texts of its strings are taken to need no escapes, the other fields of the copy are not written anew, and the credential's own choice to synchronize is looked up under its exact field name.
- Identifiers drawn at random are parameters; those for conflicting credentials are taken to be new where it matters.
- SyncEdits and SyncEchoes: state what happens to a field when the pull holds one record about its entity, or the own push and one more; longer chains of records about one entity are not followed.
- SyncAttempts.ClockRepeatsIff: for rows known by a vector; a row that only has the version number of an older client can lose that number when it is merged.
- SyncEnvelope.PullKeepsBounded: records from the server are assumed to carry field clocks within their own clock, which SyncRuns.OutgoingIsHonest proves of every record this client pushes.
- TokenRefresh: clearing the session after a rejected request, and other writers of the stored session, are not modelled; the server is assumed to issue new refresh tokens with strictly later expiry.
- SyncScheduler: what a run does between its two critical sections; two starts can lie closer together than 20 seconds when a callback and a trigger race, so no spacing of starts is claimed beyond `SyncScheduler.BurstLeavesOneTimer`.
- Echo guard: the rules for what is stored in the history are not modelled; the program's two implementations of them use different expression dialects.
- Resumable transfers: one runner per transfer and an unchanging source; a pause followed at once by a resumption can leave two runners on one partial file.
- ResumableTransfer.LifeIsSound: assumes a partial file that is a prefix of the source at the start; the cases without it are `UploadDelivers` and `DownloadDelivers`.
- HistoryIndex.ReplaceMeansSnapshot: assumes unique, non-empty identifiers and connections without NUL, as the backend provides; trimming and case folding are arbitrary functions.
- HistorySuggest.Rank: times are instants; the byte order and the locale order of time stamps agree for equally formatted stamps only, and the order of entries of equal rank is left open.
- Groups: trimming is an arbitrary function and lengths count characters of the trimmed name; groups that arrive by synchronization do not pass the check.
- Convergence of many devices: rests on the server and fails for three writers.
