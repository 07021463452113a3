# librats verification

Dafny models of the hard cores of librats, a peer-to-peer library, with proofs of what they
promise. Every module can be read on its own; the models follow the source's own form, so objects
that the source updates in place are classes proved against pure specifications, and threads are
steps of a state machine.

## What is modelled

* **File transfer** (`TransferModel`, `TransferStream`, `TransferIntegrity`, `TransferFlow`,
  `TransferWorkers`, `TransferFinish`, `TransferWitness`, `TransferObject`, `ChunkFrame`). One transfer as a state
  machine: sender, pool of workers, receiver, its io thread, two FIFO channels, application calls,
  timeouts and disconnects. Every region that holds the transfer's mutex is one step, and so is
  every wire or disk operation between two such regions; putting a frame on the wire and
  accounting for it are two steps. Disk failures, send failures, racing cancels and a sudden
  disconnect may happen at any step. The theorems are about every run. The class `Transfer` shows
  that the fields do what the steps say. Both sides are honest, the source files do not change,
  manifest paths are distinct, `chunk_size` and `window_bytes` are at least 1. A hash state is the
  bytes fed to it; the whole-file hash is an arbitrary function.
* **Piece picker** (`PickerModel`, `PickerRuns`, `PickerPicking`, `PiecePicker`). The class is
  proved against value-level specifications, and `PickerRuns` says what every run of calls keeps.
  Where a cached value can go wrong the exact condition is proved, both directions, with a run
  that shows it.
* **Bencode and what rests on it** (`Bencode`, `BencodeCodec`, `BencodeScan`, `Metadata`,
  `MetadataHandlers`, `ResumeData`, `ResumeRoundTrip`, `ResumeFile`). The encoder, the recursive
  decoder, the second scanner that finds the end of a dictionary, metadata reassembly and resume
  files. Dictionaries are maps whose ascending key order is proved unique.
* **Storage layout** (`FileStorage`, `DiskIo`, `TorrentCreator`, `Files`). Two mappers and a streaming
  hasher describe one flat byte string, with zero-length and pad files allowed.
* **Wire** (`Wire`, `PeerStream`, `PeerConnection`). Messages, handshake and stream framing.
* **Low level** (`Bits`, `Popcount`, `Bitfields`, `Crc32`, `Choker`), with `Casts` for the fixed-width integers and
  `Wrappers` for optional results.

Random choices are nondeterministic picks, clocks are parameters, `std::sort` promises order but
nothing about ties, 32-bit and 64-bit conversions are written out.

## Where the code does less than its comments say

* A piece that is held and in progress keeps its downloading flag when `mark_have_all` clears the
  list (`HaveAllLosesEntry`); `set_have_bitfield` with a short bitfield leaves `num_have` wrong
  (`ShortHaveMiscounts`); a peer added again is counted again (`ReaddedPeerCountsTwice`); a have
  message past a short bitfield is counted (`ShortBitfieldOvercounts`). The lemmas `StepIndex`,
  `StepCount` and `StepKeepsExact` give the exact conditions.
* `blocks_in_piece` overflows for piece sizes above 2^32 - 16384; `BlocksTilePiece` gives the exact
  condition and `HugePieceHasNoBlocks` an input.
* Limits below -1 and peers that are not dotted quads do not survive a resume file;
  `RestoredExactly` gives the exact condition and `LowLimitIsLost` an input.
* `BtMessageDecoder::decode` turns a keep-alive into a choke; the connection never lets it get there
  (`ExactlyTheSentMessages`).
* Seed-mode choking never chokes uninterested peers.

## Model

| member | source | states |
|---|---|---|
| `TransferIntegrity.TransferIsFaithful` | src/file_transfer.cpp:648-1151 | On every interleaving of sender, worker pool, receiver, acks, pause, resume, cancel, timeout and disconnect: no integrity error is ever raised on either side, every temp file holds exactly the received prefix of its source, and when either side is COMPLETED every destination file equals its source byte for byte |
| `TransferIntegrity.NoBadFile` | src/file_transfer.cpp:1073-1151 | In every state of every run each destination path holds what it held before, nothing, or the complete source file; only while the fallback for a rename across volumes is copying it may it hold a prefix of that file |
| `TransferStream.StepKeepsInv` | src/file_transfer.cpp:622-1321 | The stream invariant (data in flight continues exactly where the receiver stands, hash states equal the bytes so far, handlers hold only checked work, a copy in progress is a prefix of its source) is kept by each of the 21 kinds of step |
| `TransferStream.RunInv` | src/file_transfer.cpp:578-1321 | The stream invariant holds in every state of every run that starts with the offer on the wire |
| `TransferStream.WriteKeeps` | src/file_transfer.cpp:979-1006 | The CRC check, temp-file creation and write of on_chunk extend the received prefix of the temp file and nothing else; the CRC check cannot fail |
| `TransferFlow.WindowCannotDeadlock` | src/file_transfer.cpp:744-750 | With both channels drained, the io thread idle and a live receiver, the unacknowledged bytes are below the ack interval and below the window, so the backpressure loop does not wait |
| `TransferFlow.UnackedIsBounded` | src/file_transfer.cpp:659-750 | Acks never exceed the bytes put on the wire; after r resumes the sender is less than window_bytes + (r + 1) * chunk_size ahead of them; the unsigned subtraction in the wait does not wrap |
| `TransferFlow.RunFlow` | src/file_transfer.cpp:923-1046 | Conservation on every run: bytes received, in hand and in flight never exceed the bytes put on the wire and equal them while the receiver is live; acks in flight, pending and recorded agree with last_ack_sent |
| `TransferWorkers.AtMostOneWorker` | src/file_transfer.cpp:622-646 | On every run at most one worker of the pool is past its claim of the transfer, exactly when worker_active is set |
| `TransferFinish.FinishOnceAndForAll` | src/file_transfer.cpp:431-453 | On every run and on both sides finish takes effect at most once; from then on the status is terminal and status, error and the number of completion callbacks never change |
| `TransferFinish.StepSettles` | src/file_transfer.cpp:431-1344 | Each step of the system keeps a finished side exactly as it is |
| `TransferWitness.CompletionIsReachable` | src/file_transfer.cpp:578-1213 | A run of 26 steps from the offer to COMPLETED on both sides with the file in place, whatever the hash function, so the promises above are not empty |
| `TransferObject.Transfer.RunSend` | src/file_transfer.cpp:648-769 | The loop of run_send with other threads between its critical sections and reads and sends that may fail: its successive states are steps of the protocol model or what the others did, what it puts on the wire is exactly the stream from the cursor it found to the cursor it leaves, it terminates, and it awaits completion only past the last byte of the last file |
| `TransferObject.SessionSteps` | src/file_transfer.cpp:648-769 | Each step of the worker carries such a call on: the trace stays one of the model and the bytes out stay the stream up to the cursor |
| `TransferObject.SenderStepInterferes` | src/file_transfer.cpp:1157-1344 | Every step of the sender's other threads leaves the cursor, the hash and the counters of the worker alone |
| `TransferObject.Transfer.SendChunk` | src/file_transfer.cpp:686-765 | One chunk: framed, sent, accounted for, and at the end of a file followed by its end marker and the wait for the window; a failed read or send leaves |
| `TransferObject.Transfer.Finish` | src/file_transfer.cpp:431-455 | First call sets finished, keeps CANCELLED on failure, otherwise COMPLETED or FAILED; later calls change nothing; agrees with the protocol step |
| `TransferObject.Transfer.Pause` | src/file_transfer.cpp:1266-1279 | Only IN_PROGRESS becomes PAUSED, and the control message is then due; agrees with the protocol step |
| `TransferObject.Transfer.Cancel` | src/file_transfer.cpp:1304-1317 | Any non-terminal status becomes CANCELLED, then the control message and finish are due; agrees with the protocol step |
| `TransferObject.Transfer.ClaimWorker` | src/file_transfer.cpp:633-638 | A worker gets the transfer exactly when no other has it |
| `TransferObject.Transfer.NextChunk` | src/file_transfer.cpp:656-673 | Resuming becomes IN_PROGRESS, any other status but IN_PROGRESS leaves, a finished cursor awaits completion, otherwise the next position is taken and the hash restarted at offset 0; agrees with the protocol step |
| `TransferObject.Transfer.AccountChunk` | src/file_transfer.cpp:716-733 | Accounting after the frame is on the wire: hash, offset, byte count, and at the end of the file the cursor and the digest; agrees with the protocol step |
| `TransferObject.Transfer.MustWait` | src/file_transfer.cpp:746-749 | The wait condition is the one proved not to deadlock |
| `TransferObject.Transfer.OnProgress` | src/file_transfer.cpp:1184-1199 | Acks only move forward |
| `TransferObject.Transfer.OnResponse` | src/file_transfer.cpp:1157-1182 | Acceptance starts streaming only from STARTING; refusal fails the transfer |
| `TransferObject.Transfer.ResumeSending` | src/file_transfer.cpp:1225-1240 | Only PAUSED resumes, into RESUMING, and the transfer is queued again |
| `TransferObject.Transfer.Accept` | src/file_transfer.cpp:835-875 | Only PENDING is accepted; a manifest without files completes at once |
| `TransferObject.Transfer.Reject` | src/file_transfer.cpp:877-889 | Only PENDING is rejected |
| `TransferObject.Transfer.CheckChunk` | src/file_transfer.cpp:941-970 | Chunks are taken only while live; a wrong file, offset or size fails the transfer with its own error; agrees with the protocol step |
| `TransferObject.Transfer.AccountReceived` | src/file_transfer.cpp:1008-1034 | Received counts, hash and digest, and when an ack with which byte count is due; agrees with the protocol step |
| `TransferObject.Transfer.OnFileEnd` | src/file_transfer.cpp:1055-1065 | The expected digest is recorded for an unfinished file, an empty file gets its digest; agrees with the protocol step |
| `TransferObject.Transfer.MayFinalize` | src/file_transfer.cpp:1079-1100 | Exactly when a file is moved, when it is a digest mismatch and when nothing is done |
| `TransferObject.Transfer.RecordFinalized` | src/file_transfer.cpp:1132-1143 | The loop reports all files done exactly when every file is finalized |
| `ChunkFrame.FrameRoundTrip` | src/file_transfer.cpp:689-702 | Every chunk frame is parsed to exactly the chunk it was built from |
| `ChunkFrame.OnlyFramesAreDelivered` | src/file_transfer.cpp:895-921 | A byte string is delivered as a chunk only if it is the frame of that chunk |
| `ChunkFrame.BuildFrame` | src/file_transfer.cpp:689-702 | The frame built field by field is the frame the parser takes back |
| `ChunkFrame.Put64` | src/file_transfer.cpp:54-56 | The shifting loop writes the big-endian bytes |
| `ChunkFrame.Get64` | src/file_transfer.cpp:61-65 | The folding loop reads them |
| `PickerRuns.EveryRunIsSound` | src/bt_piece_picker.cpp:106-250 | Over every run of calls: in-progress entries are distinct, in range, flagged and of the right block count, their number is cached correctly, availability is at least the number of known holders; flagged pieces have their entry, num_have is the number of held pieces and availability is exact as long as the stated guard held at each step |
| `PickerRuns.StepIndex` | src/bt_piece_picker.cpp:106-142 | Each call keeps one entry per flagged piece exactly when it is not mark_have_all on a held piece in progress |
| `PickerRuns.StepCount` | src/bt_piece_picker.cpp:161-170 | Each call keeps num_have equal to the held pieces exactly when it is not set_have_bitfield with a bitfield that leaves a held piece uncovered |
| `PickerRuns.StepExcess` | src/bt_piece_picker.cpp:191-248 | Availability minus holders never shrinks and grows exactly when a known peer is added again for a piece it had, or a have message lies past the end of the stored bitfield |
| `PickerRuns.StepKeepsExact` | src/bt_piece_picker.cpp:191-248 | Availability stays exact if and only if the peer was new or known with no piece, or the have message lies inside the stored bitfield |
| `PickerRuns.StepKeepsSound` | src/bt_piece_picker.cpp:69-784 | Every call, with any arguments, keeps the unconditional invariant |
| `PickerRuns.AddedOnceIsExact` | src/bt_piece_picker.cpp:191-248 | When each peer is added at most once while known, with a full-size bitfield, availability is the number of known holders in every state of the run |
| `PickerRuns.HaveAllLosesEntry` | src/bt_piece_picker.cpp:121-142 | A run after which mark_have_all leaves a flagged piece without entry |
| `PickerRuns.ShortHaveMiscounts` | src/bt_piece_picker.cpp:161-170 | A run after which a short bitfield leaves num_have wrong |
| `PickerRuns.ReaddedPeerCountsTwice` | src/bt_piece_picker.cpp:191-203 | A run after which a re-added peer is counted twice |
| `PickerRuns.ShortBitfieldOvercounts` | src/bt_piece_picker.cpp:232-248 | A run after which a have message past a short bitfield is counted for a peer not known to have the piece |
| `PickerRuns.HugePieceHasNoBlocks` | src/bt_piece_picker.cpp:627-645 | A piece of 2^32 - 1 bytes has no blocks, which do not cover it |
| `PiecePicker.PiecePicker.PickPieces` | src/bt_piece_picker.cpp:260-345 | At most num_blocks pairwise distinct blocks of pieces the peer has; only unrequested blocks outside endgame and exactly the asked blocks change; pieces in progress first; new pieces are unheld, unflagged, unskipped, least available in rarest-first and lowest in sequential mode, within the limit outside endgame; it stops short only at the limit or when nothing is free; terminates because each new piece is flagged |
| `PickerPicking.StartGrabs` | src/bt_piece_picker.cpp:300-342 | Starting the preferred free piece and taking its blocks keeps every clause of that promise |
| `PickerPicking.ResumeGrabs` | src/bt_piece_picker.cpp:272-298 | So does going through one piece in progress |
| `PiecePicker.PiecePicker.PickRarest` | src/bt_piece_picker.cpp:648-691 | UINT32_MAX exactly when no piece is free, otherwise a free piece of least availability |
| `PiecePicker.PiecePicker.PickSequential` | src/bt_piece_picker.cpp:693-709 | UINT32_MAX exactly when no piece is free, otherwise the first free piece |
| `PiecePicker.PiecePicker.PickRandom` | src/bt_piece_picker.cpp:711-734 | UINT32_MAX exactly when no piece is free, otherwise some free piece |
| `PiecePicker.PiecePicker.PickPiece` | src/bt_piece_picker.cpp:347-368 | The choice of the current mode |
| `PiecePicker.PiecePicker.MarkFinished` | src/bt_piece_picker.cpp:412-452 | True exactly when the finished blocks now add up to the whole piece (piece sizes up to 2^32 - 16384) |
| `PiecePicker.CompleteIsWhole` | src/bt_piece_picker.cpp:412-452 | The same about the specification: complete if and only if the block exists and the finished bytes are the piece size |
| `PickerModel.BlocksTilePiece` | src/bt_piece_picker.cpp:627-645 | The blocks of a piece have positive size, are disjoint and cover it, if and only if rounding its size up stays inside 32 bits |
| `PiecePicker.PiecePicker.MarkHave` | src/bt_piece_picker.cpp:106-119 | Marks the piece, counts it once and drops its entry; keeps the invariant |
| `PiecePicker.PiecePicker.MarkHaveAll` | src/bt_piece_picker.cpp:121-142 | The whole new state, flags of already held pieces left as they were; keeps the unconditional invariant |
| `PiecePicker.PiecePicker.SetHaveBitfield` | src/bt_piece_picker.cpp:161-170 | The whole new state, pieces past the bitfield untouched and uncounted |
| `PiecePicker.PiecePicker.GetHaveBitfield` | src/bt_piece_picker.cpp:150-159 | Bit i is set exactly when piece i is held |
| `PiecePicker.PiecePicker.IsComplete` | src/bt_piece_picker.cpp:182-185 | Under the count invariant, true exactly when every piece is held |
| `PiecePicker.PiecePicker.AddPeer` | src/bt_piece_picker.cpp:191-203 | Availability rises by one exactly on the announced pieces; keeps the invariant |
| `PiecePicker.PiecePicker.RemovePeer` | src/bt_piece_picker.cpp:205-230 | Availability falls on the peer's pieces, its requested blocks become free, it is forgotten; keeps the invariant |
| `PiecePicker.PiecePicker.PeerHasPiece` | src/bt_piece_picker.cpp:232-248 | The peer's bit and the availability are set at most once while the bit is stored; keeps the invariant |
| `PiecePicker.PiecePicker.CancelPeerRequests` | src/bt_piece_picker.cpp:470-481 | Exactly the blocks requested of the peer become free |
| `PiecePicker.PiecePicker.IsInteresting` | src/bt_piece_picker.cpp:370-381 | True exactly when the peer has an unheld, unskipped piece |
| `PiecePicker.PiecePicker.MarkRequested` | src/bt_piece_picker.cpp:387-398 | Starts the piece if needed and marks exactly the block |
| `PiecePicker.PiecePicker.MarkWriting` | src/bt_piece_picker.cpp:400-410 | Marks exactly the block, whatever its state was |
| `PiecePicker.PiecePicker.CancelRequest` | src/bt_piece_picker.cpp:454-468 | Frees the block only when it is requested of that peer |
| `PiecePicker.PiecePicker.AbortDownload` | src/bt_piece_picker.cpp:483-501 | Frees the block only when it is requested, of that peer or any |
| `PiecePicker.PiecePicker.SetPiecePriorityRange` | src/bt_piece_picker.cpp:94-100 | Changes exactly the priorities in the range |
| `Bencode.RoundTrip` | src/bencode.cpp:224-464 | For every value with 64-bit integers and every suffix, decoding the encoding gives the value back and consumes exactly the encoding |
| `Bencode.EncodingPrefixFree` | src/bencode.cpp:224-279 | Two encodings in front of any suffixes that give the same bytes are of the same value with the same suffix |
| `Bencode.EncodingInjective` | src/bencode.cpp:224-279 | Equal encodings mean equal values |
| `Bencode.AscendingUnique` | src/bencode.cpp:250-275 | The ascending order of a key set is unique, so the bytes of a dictionary do not depend on map iteration order |
| `Bencode.IntTextParses` | src/bencode.cpp:347-370 | Every 64-bit integer is read back from its decimal text |
| `BencodeCodec.Encoder.EncodeToBuffer` | src/bencode.cpp:224-279 | Appends exactly the encoding to what is in the buffer, for every order in which the map yields its keys |
| `BencodeCodec.SortKeys` | src/bencode.cpp:250-275 | The sorted keys are ascending and the same set |
| `BencodeCodec.EncodeValue` | src/bencode.cpp:213-217 | The buffer is the encoding |
| `BencodeCodec.Decoder.DecodeValue` | src/bencode.cpp:327-345 | The cursor decoder returns the value and stops where the recursive grammar says, or fails where it fails |
| `BencodeCodec.Decoder.DecodeInteger` | src/bencode.cpp:347-370 | As the grammar on integers |
| `BencodeCodec.Decoder.DecodeString` | src/bencode.cpp:372-399 | As the grammar on strings, including lengths past the end |
| `BencodeCodec.Decoder.DecodeList` | src/bencode.cpp:401-417 | As the grammar on lists |
| `BencodeCodec.Decoder.DecodeDict` | src/bencode.cpp:419-441 | As the grammar on dictionaries; a repeated key keeps its last value |
| `BencodeCodec.DecodeBytes` | src/bencode.cpp:314-325 | The first value of the data, or failure |
| `BencodeScan.ScannerFindsEnd` | src/bt_torrent.cpp:1618-1647 | For every dictionary or list and every suffix the depth-counting scanner returns exactly the length of the encoding, which is where the decoder stops |
| `BencodeScan.ScanPasses` | src/bt_torrent.cpp:1624-1644 | Inside any depth of at least one the scanner passes over any encoded value exactly |
| `BencodeScan.FindBencodeEnd` | src/bt_torrent.cpp:1618-1647 | The loop computes the scanner's result, and the data length when there is no end |
| `BencodeScan.ScanLoop` | src/bt_extension.cpp:270-299 | The loop computes the scanner's result |
| `BencodeScan.ReadLength` | src/bt_torrent.cpp:1631-1637 | The digit loop reads the whole length prefix |
| `BencodeScan.SkipInteger` | src/bt_torrent.cpp:1638-1643 | The loop stops at the next 'e' |
| `Metadata.MetadataIsFaithful` | src/bt_torrent.cpp:1486-1616 | With honest peers, data messages and rejects in any order, with repeats and from several peers, leave every received piece equal to its slice of the original; what is signalled is the original |
| `Metadata.CompletionIsExact` | src/bt_torrent.cpp:1568-1612 | Completion is signalled exactly when data for every piece has arrived, and then the buffer is the original |
| `Metadata.DataMessageParses` | src/bt_extension.cpp:217-230 | A data message is read back as its piece number and exactly its raw bytes |
| `Metadata.RejectMessageParses` | src/bt_extension.cpp:232-237 | A reject message is read back as its type and its piece number |
| `MetadataHandlers.TorrentMetadata.RequestMetadata` | src/bt_torrent.cpp:1486-1535 | Allocates once, then marks up to four pieces neither received nor requested, in order, also for a peer that announced another size whose pieces fit the buffer's flags |
| `MetadataHandlers.TorrentMetadata.OnMetadataMessage` | src/bt_torrent.cpp:1537-1616 | The handler does to the buffer and the vectors what the specification says, for every payload, also from a peer that announced another size whose pieces fit the buffer's flags |
| `MetadataHandlers.ExtensionStaysFaithful` | src/bt_extension.cpp:257-341 | The extension's own copy of the handler: an honest data message stores its slice, marks it, and calls back with the original if and only if all pieces are then in |
| `MetadataHandlers.RejectStaysFaithful` | src/bt_extension.cpp:318-329 | A reject message clears the request mark of its piece and changes nothing else |
| `MetadataHandlers.ExtensionRun` | src/bt_extension.cpp:128-341 | From the constructor's state, over any sequence of honest data messages and reject messages: received pieces equal their slices, the received flags are exactly the arrivals, complete if and only if all pieces are in, the callback has run if and only if complete, and it saw nothing but the original |
| `MetadataHandlers.UtMetadata.HandleDataMessage` | src/bt_extension.cpp:257-316 | The handler does what the specification says, including a missing dictionary end and surplus bytes |
| `MetadataHandlers.UtMetadata.OnMessage` | src/bt_extension.cpp:159-197 | Dispatch on the message type, with malformed messages ignored |
| `MetadataHandlers.UtMetadata.CheckComplete` | src/bt_extension.cpp:331-341 | Completes exactly when every piece is received |
| `MetadataHandlers.UtMetadata.NextPieceToRequest` | src/bt_extension.cpp:343-350 | The first piece neither received nor requested |
| `Crc32.TableStep` | src/crc32.cpp:45-53 | One table lookup is eight steps of bitwise division |
| `Crc32.RegisterSplit` | src/crc32.cpp:45-53 | The register does not depend on how the data is cut |
| `Crc32.BurstIsDetected` | src/crc32.cpp:75-79 | Two equal-length buffers that differ only within four consecutive bytes have different checksums, and equal ones the same |
| `Crc32.InitTable` | src/crc32.cpp:16-35 | Each of the 256 entries is the bitwise division of its index |
| `Crc32.Hasher.Reset` | src/crc32.cpp:41-43 | Nothing counts as fed, and the register is that of no data |
| `Crc32.Hasher.Update` | src/crc32.cpp:45-53 | What has been fed since the reset grows by the data, and the table-driven register stays its bit-by-bit division |
| `Crc32.Hasher.Finalize` | src/crc32.cpp:67-69 | The value is the checksum of everything fed since the reset |
| `Crc32.Calculate` | src/crc32.cpp:75-79 | The table-driven result is the bit-by-bit checksum |
| `Crc32.CalculateInParts` | src/crc32.cpp:45-53 | Any split across update calls gives the checksum of the whole |
| `Crc32.TransferCrc` | src/file_transfer.cpp:68-83 | The second copy computes the same checksum |
| `FileStorage.Storage.AddFile` | src/bt_file_storage.cpp:29-45 | The new file starts where the torrent ended; nothing is added after finalize |
| `FileStorage.Storage.FinalizeFiles` | src/bt_file_storage.cpp:71-82 | The piece count rounds up; files and sizes stay |
| `FileStorage.Storage.FindFileAtOffset` | src/bt_file_storage.cpp:167-195 | The binary search returns the file that holds the byte, never a zero-length one, and the last file past the end |
| `FileStorage.Storage.MapBlock` | src/bt_file_storage.cpp:102-150 | Exactly the parts of the block in file order with pad files left out, also for blocks that reach past the end |
| `DiskIo.MapToFiles` | src/disk_io.cpp:376-423 | The linear walk yields exactly the parts of the range in file order, pad files included |
| `DiskIo.MappersAgree` | src/disk_io.cpp:376-423 | map_block equals map_to_files with pad-file slices dropped, on every contiguous layout |
| `DiskIo.ExecuteWriteBlock` | src/disk_io.cpp:429-457 | The job succeeds if and only if every one of its file writes does, and then every slice of the block has its part of the data; a write that fails, after any part of its slice or none, ends the job with the earlier slices written |
| `DiskIo.TornWrite` | src/disk_io.cpp:429-457 | A write job that fails anywhere leaves each byte that was on disk as it was, or, inside the block's range, as the block's own byte |
| `DiskIo.ExecuteReadPiece` | src/disk_io.cpp:459-488 | The slices of the piece are read into a zeroed buffer in order, or the job fails |
| `DiskIo.WriteCover` | src/disk_io.cpp:429-457 | A block write sets exactly the bytes of its range, each to its own byte of the data, and keeps the others |
| `DiskIo.ReadCover` | src/disk_io.cpp:459-478 | Reading a range that is on disk gives each of its bytes at its own place |
| `DiskIo.WritesAreFlat` | src/disk_io.cpp:376-457 | On any disk and after any sequence of overlapping block writes, each byte is the last one written at its torrent offset, or what the disk held before where none was |
| `DiskIo.FlatReadBack` | src/disk_io.cpp:376-488 | Disk and writes behave as one flat byte array: reading any range whose bytes are known, written or on disk before, succeeds and gives exactly those bytes |
| `DiskIo.WrittenReadBack` | src/disk_io.cpp:376-488 | Where every byte of the range has been written, the byte read at a torrent offset is the last one written there, whatever the disk held |
| `TorrentCreator.PieceSizesSumToTotal` | src/bt_file_storage.cpp:71-96 | Piece sizes are positive, at most the piece length, and add up to the total |
| `TorrentCreator.PieceInputs` | src/bt_create_torrent.cpp:278-355 | The streaming hasher hashes exactly num_pieces inputs and the i-th is the i-th piece of the concatenated files; it fails exactly when there are no files or no bytes, or a file cannot be opened or is shorter than declared |
| `TorrentCreator.HashFile` | src/bt_create_torrent.cpp:297-331 | The inner loop extends the full pieces and the partial one by the bytes of the file |
| `TorrentCreator.FreshTorrentVerifies` | src/disk_io.cpp:490-522 | The bytes the disk hasher reads for piece i are the i-th input of the streaming hasher, so a freshly created torrent verifies whatever the hash |
| `PeerStream.StreamIsChunkingFree` | src/bt_peer_connection.cpp:280-425 | The handled messages and the final peer state depend only on the received bytes, not on how they are cut into receives; outside this are length prefixes of 2^32 - 3 and above, which the source does not frame at all |
| `PeerStream.ReceiveSplit` | src/bt_peer_connection.cpp:280-302 | Receiving a and then b is receiving a + b, in every state, also when the connection closes in between; length prefixes of 2^32 - 3 and above are outside |
| `PeerStream.ExactlyTheSentMessages` | src/bt_peer_connection.cpp:304-425 | A valid handshake followed by any encoded messages and keep-alives, cut anywhere: exactly the messages are handled, in order, the state is what they amount to, nothing is left over, and no keep-alive acts as a choke |
| `PeerStream.DrainFrames` | src/bt_peer_connection.cpp:393-425 | Draining encoded frames handles exactly their messages |
| `Wire.MessageRoundTrip` | src/bt_messages.cpp:52-357 | Every message is recognised as complete, not as keep-alive, and decoded to itself in front of anything; a bitfield takes the receiver's size |
| `Wire.KeepAliveIsRecognised` | src/bt_messages.cpp:242-260 | A keep-alive is recognised and is four bytes long |
| `Wire.HandshakeRoundTrip` | src/bt_handshake.cpp:50-116 | The 68-byte handshake is decoded to its fields in front of anything |
| `Wire.FlagsRoundTrip` | src/bt_handshake.cpp:10-44 | The reserved bytes carry the three extension flags |
| `PeerConnection.Connection.Receive` | src/bt_peer_connection.cpp:280-302 | The object's fields are those of the specification after the bytes |
| `PeerConnection.Connection.ProcessHandshake` | src/bt_peer_connection.cpp:304-391 | Waits for 68 bytes, closes on a bad handshake, an unknown torrent or another info hash, otherwise connects and consumes exactly the handshake |
| `PeerConnection.Connection.ProcessMessages` | src/bt_peer_connection.cpp:393-425 | The loop handles and consumes exactly the complete messages, skipping undecodable ones, for length prefixes below 2^32 - 3 |
| `PeerConnection.Connection.HandleMessage` | src/bt_peer_connection.cpp:464-571 | Each message type changes exactly its fields |
| `PeerConnection.Connection.ParseExtensionHandshake` | src/bt_peer_connection.cpp:573-618 | Metadata size, ut_metadata id and version are taken when present with the right type |
| `PeerConnection.Connection.RemovePending` | src/bt_peer_connection.cpp:731-736 | Removes the first equal request only |
| `Bitfields.SameBitsSameWords` | src/bt_bitfield.cpp:316-319 | With no bit past the end, equal words mean equal bits and conversely |
| `Bitfields.CountIsOnes` | src/bt_bitfield.cpp:130-136 | The words' set bits are the set bits of the field |
| `Popcount.PopcountCounts` | src/bt_bitfield.cpp:138-151 | The software population count is the number of set bits |
| `Bits.PackRoundTrip` | src/bt_bitfield.cpp:213-241 | Reading packed bytes gives the bits back |
| `Bitfields.Bitfield.constructor` | src/bt_bitfield.cpp:16-25 | All bits have the initial value, none past the end |
| `Bitfields.Bitfield.SetBit` | src/bt_bitfield.cpp:57-65 | Sets exactly that bit, nothing past the end |
| `Bitfields.Bitfield.ClearBit` | src/bt_bitfield.cpp:67-75 | Clears exactly that bit |
| `Bitfields.Bitfield.GetBit` | src/bt_bitfield.cpp:77-85 | Reads the bit, false past the end |
| `Bitfields.Bitfield.SetAll` | src/bt_bitfield.cpp:87-92 | Sets all bits and none past the end |
| `Bitfields.Bitfield.ClearAll` | src/bt_bitfield.cpp:94-98 | Clears all bits |
| `Bitfields.Bitfield.AllSet` | src/bt_bitfield.cpp:104-121 | True exactly when every bit is set |
| `Bitfields.Bitfield.NoneSet` | src/bt_bitfield.cpp:123-128 | True exactly when no bit is set |
| `Bitfields.Bitfield.Count` | src/bt_bitfield.cpp:130-151 | The number of set bits, through the software population count |
| `Bitfields.Bitfield.AndWith` | src/bt_bitfield.cpp:158-168 | Bitwise and with a field of any size, missing bits read as clear |
| `Bitfields.Bitfield.OrWith` | src/bt_bitfield.cpp:170-177 | Bitwise or with a field of any size |
| `Bitfields.Bitfield.XorWith` | src/bt_bitfield.cpp:179-186 | Bitwise exclusive or with a field of any size |
| `Bitfields.Bitfield.Complement` | src/bt_bitfield.cpp:188-195 | Every bit negated, none past the end |
| `Bitfields.Bitfield.HasBitsNotIn` | src/bt_bitfield.cpp:197-207 | True exactly when some bit is set here and not there |
| `Bitfields.Bitfield.Equals` | src/bt_bitfield.cpp:316-319 | Word comparison decides bit equality |
| `Bitfields.Bitfield.Resize` | src/bt_bitfield.cpp:251-269 | Old bits stay, new ones have the given value |
| `Bitfields.Bitfield.FindFirstSet` | src/bt_bitfield.cpp:275-289 | The least set bit, or the size when there is none |
| `Bitfields.Bitfield.ToBytes` | src/bt_bitfield.cpp:213-226 | The bits packed most significant first |
| `Bitfields.FromBytes` | src/bt_bitfield.cpp:228-241 | The bits of the bytes, short data padded with clear bits, surplus dropped |
| `Bitfields.RoundTrip` | src/bt_bitfield.cpp:213-241 | from_bytes undoes to_bytes |
| `ResumeRoundTrip.ResumeRoundTrip` | src/bt_resume_data.cpp:21-357 | Every record is read back from its file: hash, name, path, have bits, every partial-piece mask with its exact length, statistics, info bytes, limits down to -1, and the peers with a scannable address |
| `ResumeRoundTrip.RestoredExactly` | src/bt_resume_data.cpp:21-357 | The record comes back identical if and only if its limits are -1 or more and every peer address is a dotted quad |
| `ResumeRoundTrip.LowLimitIsLost` | src/bt_resume_data.cpp:91-102 | A record with a limit of -2 that does not come back |
| `ResumeRoundTrip.MaskIsUnpacked` | src/bt_resume_data.cpp:276-289 | With a stored block count below 2^32 the mask loop reads exactly that many bits, most significant first, bits past the end of the mask read as clear |
| `ResumeRoundTrip.PartialsRoundTrip` | src/bt_resume_data.cpp:53-81 | The partial pieces come back in key order with their masks |
| `ResumeRoundTrip.PeerRoundTrip` | src/bt_resume_data.cpp:113-136 | Address and port of a dotted quad survive the six-byte form |
| `ResumeFile.Write` | src/bt_resume_data.cpp:21-139 | The bytes are the encoding of the record's dictionary, and reading them restores the record as above |
| `ResumeFile.Load` | src/bt_resume_data.cpp:182-357 | The reader computes the specified record or rejects the file, for every byte string |
| `ResumeFile.PackBlocks` | src/bt_resume_data.cpp:63-73 | The mask loop packs the block bits |
| `ResumeFile.UnpackBlocks` | src/bt_resume_data.cpp:281-289 | The mask loop reads them back |
| `ResumeFile.ReadUnfinished` | src/bt_resume_data.cpp:250-294 | Malformed entries are skipped, a repeated piece keeps its last mask |
| `Choker.Choker.RunDownloadMode` | src/bt_choker.cpp:51-124 | On distinct peers: at most max(1, max_uploads) are unchoked, all of them interested, the optimistic peer among them if interested; min(slots, others) regular slots are given, each to a peer at least as fast as every choked interested one; the lists are exactly the changes and last_unchoke moves exactly on a change to unchoked; the optimistic peer changes only when its interval has passed |
| `Choker.Choker.RunSeedMode` | src/bt_choker.cpp:126-180 | Exactly min(max_uploads, interested) of the interested peers are unchoked, each with at least the score of every refused one; uninterested peers keep their state; the lists are exactly the changes and last_unchoke moves exactly on a change to unchoked |
| `Choker.Choker.RotateOptimistic` | src/bt_choker.cpp:182-226 | The new optimistic peer is choked and interested with fewer than a quarter of the candidates (at least one) newer than it, or there is no candidate and nothing changes; only the marks change, and exactly that peer is marked |
| `Choker.Choker.Allot` | src/bt_choker.cpp:84-111 | The slot loop: who is unchoked, how many, and the lists of changes |
| `Choker.Choker.Run` | src/bt_choker.cpp:41-49 | The promise of the configured mode |
| `Choker.ListsAreDisjoint` | src/bt_choker.cpp:51-180 | No connection is in both lists |
| `Choker.SettleAll` | src/bt_choker.cpp:84-111 | After the loop the slots are min(slots, candidates) and went to the best |

## Left out

- File transfer: shutdown of the manager, the purge of finished transfers, statistics, progress rates and JSON parsing. The deletion of the partial file after a failed copy across volumes is taken to succeed.
- File transfer liveness after resume: a resume that arrives while the old worker is leaving can be dropped, so only safety and the quiescent no-stall property are proved.
- Wrap-around of the 64-bit byte counters of a transfer and of the 32-bit availability counters: both are unbounded here.
- BencodeScan.ReadLength: does not model the wrap-around of `size_t` for length prefixes of 2^64 and above, which the encoder cannot produce for data that fits in memory; nor does the scanner's depth stop at the range of `int`.
- BencodeCodec.Decoder.DecodeString: a length whose sum with the position wraps past 2^64 is a plain failure here; in the source it passes the bounds check and the string constructor refuses it with an exception, so decoding fails there too.
- PeerConnection.Connection.ProcessMessages: does not model length prefixes of 2^32 - 3 and above, for which the 32-bit sum in `message_length` wraps to 1, 2 or 3 and the source consumes that many bytes and may read past the buffer; here they are never complete.
- PeerStream.StreamIsChunkingFree: for the same reason says nothing about the source on streams with such a length prefix.
- PeerStream.ReceiveSplit: likewise.
- Connection callbacks are observers and do not call back into the connection, except for the lookup of an incoming torrent.
- MetadataHandlers.TorrentMetadata.RequestMetadata: does not model a peer that announces a size with more pieces than the flags of the peer that sized the buffer, for which the source indexes past its vectors.
- MetadataHandlers.TorrentMetadata.OnMetadataMessage: likewise.
- Client names from the peer id table, send buffers and timers of a connection.
- Bitfields handed to the picker, the connection and resume records are boolean sequences; `Bitfields` shows that the packed class is one.
- `find_first_clear`, `find_next_set`, `find_next_clear` and `to_string` of the bitfield; `map_file`, `file_first_piece` and `file_last_piece`; `set_piece_size`: easy members.
- Picker: `block_state` and the statistics getters; `piece_priority`.
- Failed hash checks and failed writes do not reset blocks in the source, so nothing is claimed about downloading a piece again.
- `verify_piece_hash_sync` places bytes of a second file at the wrong offset and does not agree with the other mappers.
- Resume files: `%d` conversions outside the range of `int`, which C leaves undefined, wrap around here.
- SHA-1, SHA-256, sockets, threads, condition-variable timing and file-system calls are arbitrary functions, outcomes or steps.
- Sessions, torrents, trackers, the DHT, magnet links, PEX, ICE, Noise and the language bindings.
