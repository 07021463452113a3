/** The file-transfer protocol of src/file_transfer.cpp as a state machine.

    One transfer, its sender, its receiver and the two FIFO directions of the connection
    between them.  Every critical section of the source (every region that holds the
    transfer's mutex) and every wire or disk operation between two critical sections is one
    step, so that any interleaving of the threads involved is a sequence of these steps. */
module TransferModel {
  import opened Wrappers
  import opened Files
  import Crc32

  type Byte = Crc32.Byte
  type Digest = string

  datatype Config = Config(chunkSize: nat, windowBytes: nat, progressInterval: nat, verifyIntegrity: bool)

  /** What does not change during a run: the source files, the configuration that both sides
      share and the whole-file hash, which is left arbitrary. */
  datatype Env = Env(files: seq<seq<Byte>>, cfg: Config, sha: seq<Byte> -> Digest)

  predicate ValidEnv(env: Env) {
    env.cfg.chunkSize >= 1 && env.cfg.windowBytes >= 1
  }

  // ----- messages, errors and thread scripts

  datatype Error =
    | NoError
    | OutOfOrderFile | OutOfOrderOffset | ChunkTooBig | CrcMismatch | ShaMismatch
    | ReadFailed | ConnectionLost | TempFailed | WriteFailed | MoveFailed
    | CancelledHere | CancelledByPeer | TimedOut | PeerGone | Rejected

  /** The errors that report a violation of the stream discipline. */
  predicate Integrity(e: Error) {
    e.OutOfOrderFile? || e.OutOfOrderOffset? || e.ChunkTooBig? || e.CrcMismatch? || e.ShaMismatch?
  }

  datatype Control = Pause | Resume | Cancel

  datatype Msg =
    | Offer(sizes: seq<nat>)
    | Response(accepted: bool)
    | Chunk(fi: nat, off: nat, data: seq<Byte>, crc: bv32)
    | FileEnd(fi: nat, sha: Digest)
    | Progress(received: nat)
    | Complete(success: bool, error: Error)
    | Ctl(action: Control)

  /** What a thread still has to do after a critical section: messages to send, a call of
      finish, a push on the send queue, the removal of temporary files. */
  datatype Action =
    | Send(m: Msg)
    | Requeue
    | Finish(success: bool, error: Error)
    | CollectTemps
    | DeleteTemps(which: set<nat>)

  type Script = seq<Action>

  // ----- state common to both sides

  datatype Status = Pending | Starting | InProgress | Paused | Completed | Failed | Cancelled | Resuming

  predicate Terminal(s: Status) {
    s.Completed? || s.Failed? || s.Cancelled?
  }

  /** The fields of Transfer that both directions use.  `callbacks` counts how often the
      completed callback was fired; `scripts` are the threads inside cancel, pause, timeout
      and message handlers that have left their first critical section. */
  datatype Local = Local(status: Status, finished: bool, error: Error, callbacks: nat, scripts: seq<Script>)

  function Push(l: Local, s: Script): Local {
    l.(scripts := l.scripts + [s])
  }

  /** finish(): the first call takes effect, later ones return. */
  function FinishLocal(l: Local, success: bool, error: Error): Local {
    if l.finished then l
    else l.(finished := true,
            status := if !success && l.status.Cancelled? then Cancelled
                      else if success then Completed else Failed,
            error := error,
            callbacks := l.callbacks + 1)
  }

  function PauseLocal(l: Local): Local {
    if l.status.InProgress? then Push(l.(status := Paused), [Send(Ctl(Pause))]) else l
  }

  function CancelLocal(l: Local): Local {
    if Terminal(l.status) then l
    else Push(l.(status := Cancelled), [Send(Ctl(Cancel)), Finish(false, CancelledHere)])
  }

  function TimeoutLocal(l: Local): Local {
    if Terminal(l.status) || l.status.Paused? then l
    else Push(l, [Send(Complete(false, TimedOut)), Finish(false, TimedOut)])
  }

  function PeerGoneLocal(l: Local): Local {
    if Terminal(l.status) then l else Push(l, [Finish(false, PeerGone)])
  }

  /** on_control for pause and cancel, on_complete: the same on both sides. */
  function PausedByPeer(l: Local): Local {
    if l.status.InProgress? then l.(status := Paused) else l
  }

  function CancelledByPeerLocal(l: Local): Local {
    if Terminal(l.status) then l else Push(l.(status := Cancelled), [Finish(false, CancelledByPeer)])
  }

  function CompletedByPeer(l: Local, success: bool, error: Error): Local {
    Push(l, [Finish(success, if success then NoError else error)])
  }

  /** Removes the first action of script k. */
  function Popped(l: Local, k: nat): Local
    requires k < |l.scripts| && l.scripts[k] != []
  {
    l.(scripts := l.scripts[k := l.scripts[k][1..]])
  }

  // ----- sender

  /** Where a worker thread of the pool is with respect to this transfer. */
  datatype Worker =
    | Idle
    | Claiming                                   // dequeued the id, worker_active not yet tested
    | Top                                        // before the first critical section of the loop
    | Sending(fi: nat, off: nat)                 // has its snapshot, frame not yet on the wire
    | Accounting(fi: nat, off: nat, data: seq<Byte>)  // frame on the wire, not yet accounted for
    | EndMarker(fi: nat, sha: Digest)            // file accounted for, ft_file_end not yet sent
    | EmptyEnd(fi: nat)                          // ft_file_end of an empty file sent, cursor not moved
    | Window                                     // backpressure wait
    | Awaiting                                   // all streamed, waits for ft_complete
    | Leaving                                    // run_send returned, worker_active still set

  predicate Streaming(w: Worker) {
    !w.Idle? && !w.Claiming?
  }

  datatype Sender = Sender(
    local: Local,
    bytesDone: nat, acked: nat, filesDone: nat,
    sendFile: nat, sendOffset: nat, sendHash: seq<Byte>,
    workerActive: bool, queue: nat,
    resumes: nat)

  datatype WorkerResult = WorkerResult(s: Sender, w: Worker, out: seq<Msg>)

  /** The first critical section of the loop in run_send. */
  function WorkerTop(env: Env, s: Sender): WorkerResult {
    var s1 := if s.local.status.Resuming? then s.(local := s.local.(status := InProgress)) else s;
    if !s1.local.status.InProgress? then WorkerResult(s1, Leaving, [])
    else if s1.sendFile >= |env.files| then WorkerResult(s1, Awaiting, [])
    else
      WorkerResult(if s1.sendOffset == 0 then s1.(sendHash := []) else s1, Sending(s1.sendFile, s1.sendOffset), [])
  }

  function Min(a: nat, b: nat): nat { if a <= b then a else b }
  function Max(a: nat, b: nat): nat { if a <= b then b else a }

  /** Reading the chunk and handing the frame to the connection; `read` and `sent` are the
      outcomes of the two system calls. */
  function WorkerSend(env: Env, s: Sender, fi: nat, off: nat, read: bool, sent: bool): WorkerResult
    requires fi < |env.files| && off <= |env.files[fi]|
  {
    var file := env.files[fi];
    if |file| == 0 then WorkerResult(s, EmptyEnd(fi), [FileEnd(fi, env.sha([]))])
    else
      var data := file[off..off + Min(env.cfg.chunkSize, |file| - off)];
      if !read then
        WorkerResult(s.(local := Push(s.local, [Send(Complete(false, ReadFailed)), Finish(false, ReadFailed)])),
                     Leaving, [])
      else if !sent then
        WorkerResult(s.(local := Push(s.local, [Finish(false, ConnectionLost)])), Leaving, [])
      else WorkerResult(s, Accounting(fi, off, data), [Chunk(fi, off, data, Crc32.Checksum(data))])
  }

  /** The critical section after the frame is on the wire. */
  function WorkerAccount(env: Env, s: Sender, fi: nat, data: seq<Byte>): WorkerResult
    requires fi < |env.files|
  {
    var hash := s.sendHash + data;
    var s1 := s.(sendHash := hash, sendOffset := s.sendOffset + |data|, bytesDone := s.bytesDone + |data|);
    if s1.sendOffset >= |env.files[fi]| then
      WorkerResult(s1.(sendFile := s1.sendFile + 1, sendOffset := 0, filesDone := s1.filesDone + 1),
                   EndMarker(fi, env.sha(hash)), [])
    else WorkerResult(s1, Window, [])
  }

  /** The condition under which the backpressure loop keeps waiting. */
  predicate WindowClosed(env: Env, s: Sender) {
    s.local.status.InProgress? && s.bytesDone - s.acked >= env.cfg.windowBytes
  }

  /** One step of a worker that owns the transfer. */
  function WorkerStep(env: Env, s: Sender, w: Worker, read: bool, sent: bool): WorkerResult
    requires Streaming(w) && WorkerReady(env, s, w)
  {
    match w
    case Top => WorkerTop(env, s)
    case Sending(fi, off) => WorkerSend(env, s, fi, off, read, sent)
    case Accounting(fi, _, data) => WorkerAccount(env, s, fi, data)
    case EndMarker(fi, sha) => WorkerResult(s, Window, [FileEnd(fi, sha)])
    case EmptyEnd(_) =>
      WorkerResult(s.(sendFile := s.sendFile + 1, sendOffset := 0, filesDone := s.filesDone + 1), Top, [])
    case Window => WorkerResult(s, Top, [])
    case Awaiting => WorkerResult(s, Leaving, [])
    case Leaving => WorkerResult(s.(workerActive := false), Idle, [])
  }

  /** When a worker can take its next step: file accesses stay in range and the two waits
      are over. */
  predicate WorkerReady(env: Env, s: Sender, w: Worker) {
    match w
    case Sending(fi, off) => fi < |env.files| && off <= |env.files[fi]|
    case Accounting(fi, _, _) => fi < |env.files|
    case Window => !WindowClosed(env, s)
    case Awaiting => !s.local.status.InProgress?
    case _ => true
  }

  /** resume() and on_control("resume") on the sending side. */
  function ResumeSender(s: Sender, here: bool): Sender {
    if !s.local.status.Paused? then s
    else s.(local := Push(s.local.(status := Resuming),
                          (if here then [Send(Ctl(Resume))] else []) + [Requeue]),
            resumes := s.resumes + 1)
  }

  /** on_response, on_progress, on_complete and on_control on the sending side. */
  function SenderHandle(s: Sender, m: Msg): Sender {
    match m
    case Response(accepted) =>
      if !accepted then s.(local := Push(s.local, [Finish(false, Rejected)]))
      else if s.local.status.Starting? then s.(local := Push(s.local.(status := InProgress), [Requeue]))
      else s
    case Progress(n) => s.(acked := Max(s.acked, n))
    case Complete(success, error) => s.(local := CompletedByPeer(s.local, success, error))
    case Ctl(Pause) => s.(local := PausedByPeer(s.local))
    case Ctl(Resume) => ResumeSender(s, false)
    case Ctl(Cancel) => s.(local := CancelledByPeerLocal(s.local))
    case _ => s
  }

  // ----- receiver

  datatype RecvFile = RecvFile(
    size: nat, received: nat, tempCreated: bool,
    expectedSha: Digest, computedSha: Digest, shaKnown: bool, finalized: bool)

  /** The io thread handles one message at a time; this is where it is. */
  datatype Handler =
    | HIdle
    | HWrite(fi: nat, off: nat, data: seq<Byte>, crc: bv32)  // checks passed, not yet on disk
    | HAccount(fi: nat, data: seq<Byte>)                     // written, not yet accounted for
    | HAck(bytes: nat, fi: nat, dataComplete: bool)          // about to send ft_progress
    | HFinalize(fi: nat)                                     // about to enter try_finalize_file
    | HMove(fi: nat)                                         // verified, old destination not yet removed
    | HPlace(fi: nat)                                        // about to create or rename the destination
    | HCopy(fi: nat, content: seq<Byte>, n: nat)             // copying: n bytes are at the destination
    | HRecord(fi: nat)                                       // moved, not yet recorded
    | HReport(success: bool, error: Error)                   // about to send ft_complete
    | HEnd(success: bool, error: Error)                      // about to call finish

  datatype Receiver = Receiver(
    local: Local, known: bool,
    bytesDone: nat, filesDone: nat,
    recvFile: nat, recvHash: seq<Byte>, lastAck: nat,
    files: seq<RecvFile>,
    handler: Handler,
    temp: seq<Option<seq<Byte>>>, dest: seq<Option<seq<Byte>>>)

  function AckInterval(cfg: Config): nat {
    Min(cfg.progressInterval, Max(1, cfg.windowBytes / 2))
  }

  /** Fails the transfer from a handler: ft_complete to the peer, then finish. */
  function FailHandler(r: Receiver, e: Error): Receiver {
    r.(handler := HReport(false, e))
  }

  /** The first critical section of on_chunk. */
  function ChunkArrives(r: Receiver, fi: nat, off: nat, data: seq<Byte>, crc: bv32): Receiver {
    if !r.local.status.InProgress? && !r.local.status.Paused? then r
    else if fi >= |r.files| || fi != r.recvFile then
      FailHandler(r.(local := r.local.(status := Failed, error := OutOfOrderFile)), OutOfOrderFile)
    else if off != r.files[fi].received then
      FailHandler(r.(local := r.local.(status := Failed, error := OutOfOrderOffset)), OutOfOrderOffset)
    else if off + |data| > r.files[fi].size then
      FailHandler(r.(local := r.local.(status := Failed, error := ChunkTooBig)), ChunkTooBig)
    else r.(handler := HWrite(fi, off, data, crc))
  }

  /** The middle of on_chunk: CRC check, creation of the temp file, the write itself. */
  function ChunkWrite(env: Env, r: Receiver, fi: nat, off: nat, data: seq<Byte>, crc: bv32,
                      created: bool, written: bool): Receiver
    requires fi < |r.files| && fi < |r.temp|
  {
    if env.cfg.verifyIntegrity && Crc32.Checksum(data) != crc then FailHandler(r, CrcMismatch)
    else if !r.files[fi].tempCreated && !created then FailHandler(r, TempFailed)
    else
      var f := r.files[fi];
      var before := if !f.tempCreated then Zeros(f.size)
                    else if r.temp[fi].Some? then r.temp[fi].value else [];
      var r1 := r.(files := r.files[fi := f.(tempCreated := true)]);
      if !written then FailHandler(r1.(temp := r1.temp[fi := Some(before)]), WriteFailed)
      else r1.(temp := r1.temp[fi := Some(WriteAt(before, off, data))], handler := HAccount(fi, data))
  }

  /** The second critical section of on_chunk. */
  function ChunkAccount(env: Env, r: Receiver, fi: nat, data: seq<Byte>): Receiver
    requires fi < |r.files|
  {
    var f := r.files[fi];
    var hash := (if f.received == 0 then [] else r.recvHash) + data;
    var received := f.received + |data|;
    var done := r.bytesDone + |data|;
    var complete := received >= f.size;
    var ack := complete || done - r.lastAck >= AckInterval(env.cfg);
    r.(recvHash := hash,
       files := r.files[fi := f.(received := received,
                                 computedSha := if complete then env.sha(hash) else f.computedSha)],
       bytesDone := done,
       lastAck := if ack then done else r.lastAck,
       handler := if ack then HAck(done, fi, complete) else HIdle)
  }

  /** The critical section of on_file_end. */
  function FileEndArrives(env: Env, r: Receiver, fi: nat, sha: Digest): Receiver {
    if Terminal(r.local.status) || fi >= |r.files| || r.files[fi].finalized then r
    else
      var f := r.files[fi];
      r.(files := r.files[fi := f.(expectedSha := sha, shaKnown := true,
                                   computedSha := if f.size == 0 && f.computedSha == "" then env.sha([])
                                                  else f.computedSha)],
         handler := HFinalize(fi))
  }

  /** The first critical section of try_finalize_file. */
  function FinalizeCheck(env: Env, r: Receiver, fi: nat): Receiver {
    if Terminal(r.local.status) || fi >= |r.files| || r.files[fi].finalized
       || r.files[fi].received < r.files[fi].size || !r.files[fi].shaKnown then r.(handler := HIdle)
    else if env.cfg.verifyIntegrity && r.files[fi].computedSha != r.files[fi].expectedSha then
      FailHandler(r, ShaMismatch)
    else r.(handler := HMove(fi))
  }

  /** Removing what the destination path holds; `gone` is false when that fails. */
  function ClearDestination(r: Receiver, fi: nat, gone: bool): Receiver
    requires fi < |r.dest|
  {
    r.(dest := if gone then r.dest[fi := None] else r.dest, handler := HPlace(fi))
  }

  /** Creating an empty file, or renaming the temp file; when rename fails a copy is tried, for
      which both files must open.  The temp file may be gone. */
  function PlaceFile(r: Receiver, fi: nat, placed: bool, copies: bool): Receiver
    requires fi < |r.files| && fi < |r.temp| && fi < |r.dest|
  {
    if r.files[fi].size == 0 then
      var r1 := r.(temp := r.temp[fi := None]);
      if placed then r1.(dest := r.dest[fi := Some([])], handler := HRecord(fi)) else FailHandler(r1, MoveFailed)
    else if r.temp[fi].None? then FailHandler(r, MoveFailed)
    else if placed then r.(temp := r.temp[fi := None], dest := r.dest[fi := r.temp[fi]], handler := HRecord(fi))
    else if copies then r.(dest := r.dest[fi := Some([])], handler := HCopy(fi, r.temp[fi].value, 0))
    else FailHandler(r, MoveFailed)
  }

  const COPY_BUFFER: nat := 4096

  /** One turn of copy_file, whose source stays open: an error removes the partial copy, the end
      removes the temp file. */
  function CopyFile(r: Receiver, fi: nat, content: seq<Byte>, n: nat, written: bool): Receiver
    requires fi < |r.temp| && fi < |r.dest|
  {
    if !written then FailHandler(r.(dest := r.dest[fi := None]), MoveFailed)
    else if n < |content| then
      var m := Min(n + COPY_BUFFER, |content|);
      r.(dest := r.dest[fi := Some(content[..m])], handler := HCopy(fi, content, m))
    else r.(temp := r.temp[fi := None], handler := HRecord(fi))
  }

  predicate AllFinalized(files: seq<RecvFile>) {
    forall i :: 0 <= i < |files| ==> files[i].finalized
  }

  /** The last critical section of try_finalize_file; the last file completes the transfer. */
  function RecordFile(r: Receiver, fi: nat): Receiver
    requires fi < |r.files|
  {
    var files := r.files[fi := r.files[fi].(finalized := true)];
    r.(files := files, filesDone := r.filesDone + 1,
       recvFile := if fi == r.recvFile then r.recvFile + 1 else r.recvFile,
       handler := if AllFinalized(files) then HReport(true, NoError) else HIdle)
  }

  datatype HandlerResult = HandlerResult(r: Receiver, out: seq<Msg>)

  predicate HandlerReady(r: Receiver) {
    match r.handler
    case HIdle => false
    case HWrite(fi, _, _, _) => fi < |r.files| && fi < |r.temp|
    case HAccount(fi, _) => fi < |r.files|
    case HMove(fi) => fi < |r.dest|
    case HPlace(fi) => fi < |r.files| && fi < |r.temp| && fi < |r.dest|
    case HCopy(fi, _, _) => fi < |r.temp| && fi < |r.dest|
    case HRecord(fi) => fi < |r.files|
    case _ => true
  }

  /** One step of the io thread inside a data handler; `a` and `b` are disk outcomes. */
  function HandlerStep(env: Env, r: Receiver, a: bool, b: bool): HandlerResult
    requires HandlerReady(r)
  {
    match r.handler
    case HWrite(fi, off, data, crc) => HandlerResult(ChunkWrite(env, r, fi, off, data, crc, a, b), [])
    case HAccount(fi, data) => HandlerResult(ChunkAccount(env, r, fi, data), [])
    case HAck(n, fi, complete) =>
      HandlerResult(r.(handler := if complete then HFinalize(fi) else HIdle), [Progress(n)])
    case HFinalize(fi) => HandlerResult(FinalizeCheck(env, r, fi), [])
    case HMove(fi) => HandlerResult(ClearDestination(r, fi, a), [])
    case HPlace(fi) => HandlerResult(PlaceFile(r, fi, a, b), [])
    case HCopy(fi, content, n) => HandlerResult(CopyFile(r, fi, content, n, a), [])
    case HRecord(fi) => HandlerResult(RecordFile(r, fi), [])
    case HReport(success, error) => HandlerResult(r.(handler := HEnd(success, error)), [Complete(success, error)])
    case HEnd(success, error) => HandlerResult(ReceiverAct(r.(handler := HIdle), Finish(success, error)), [])
  }

  /** on_offer: registers the transfer, or rejects it when a manifest path is unsafe. */
  function OfferArrives(r: Receiver, sizes: seq<nat>, safe: bool): Receiver {
    if r.known then r
    else if !safe then r.(local := Push(r.local, [Send(Response(false))]))
    else r.(known := true,
            files := seq(|sizes|, i requires 0 <= i < |sizes| =>
                                    RecvFile(sizes[i], 0, false, "", "", false, false)))
  }

  /** The io thread takes the next message. */
  function ReceiverHandle(env: Env, r: Receiver, m: Msg, safe: bool): Receiver {
    match m
    case Offer(sizes) => OfferArrives(r, sizes, safe)
    case _ =>
      if !r.known then r
      else match m
        case Chunk(fi, off, data, crc) => ChunkArrives(r, fi, off, data, crc)
        case FileEnd(fi, sha) => FileEndArrives(env, r, fi, sha)
        case Complete(success, error) => r.(local := CompletedByPeer(r.local, success, error))
        case Ctl(Pause) => r.(local := PausedByPeer(r.local))
        case Ctl(Resume) => if r.local.status.Paused? then r.(local := r.local.(status := InProgress)) else r
        case Ctl(Cancel) => r.(local := CancelledByPeerLocal(r.local))
        case _ => r
  }

  function Accept(r: Receiver): Receiver {
    if !r.local.status.Pending? then r
    else r.(local := Push(r.local.(status := InProgress),
                          [Send(Response(true))] +
                          (if r.files == [] then [Send(Complete(true, NoError)), Finish(true, NoError)] else [])))
  }

  function Reject(r: Receiver): Receiver {
    if !r.local.status.Pending? then r
    else r.(local := Push(r.local.(status := Cancelled), [Send(Response(false)), Finish(false, Rejected)]))
  }

  function ResumeReceiver(r: Receiver): Receiver {
    if r.local.status.Paused? then r.(local := Push(r.local.(status := InProgress), [Send(Ctl(Resume))])) else r
  }

  /** cleanup_temp_files: what it collects. */
  function TempsToDelete(r: Receiver): set<nat> {
    set i: nat | i < |r.files| && r.files[i].tempCreated && !r.files[i].finalized
  }

  // ----- threads that run scripts

  function SenderAct(s: Sender, a: Action): Sender {
    match a
    case Requeue => s.(queue := s.queue + 1)
    case Finish(success, error) => s.(local := FinishLocal(s.local, success, error))
    case _ => s
  }

  function ReceiverAct(r: Receiver, a: Action): Receiver {
    match a
    case Finish(success, error) =>
      var l := FinishLocal(r.local, success, error);
      r.(local := if !r.local.finished && !success then Push(l, [CollectTemps]) else l)
    case CollectTemps => r.(local := Push(r.local, [DeleteTemps(TempsToDelete(r))]))
    case DeleteTemps(which) =>
      r.(temp := seq(|r.temp|, i requires 0 <= i < |r.temp| => if i in which then None else r.temp[i]))
    case _ => r
  }

  function Sent(a: Action): seq<Msg> {
    match a
    case Send(m) => [m]
    case _ => []
  }

  // ----- the whole system

  datatype System = System(
    s: Sender, workers: seq<Worker>, r: Receiver,
    toR: seq<Msg>, toS: seq<Msg>, connected: bool)

  datatype Step =
    | Dequeue(i: nat)
    | Claim(i: nat)
    | Work(i: nat, read: bool, sent: bool)
    | SenderScript(k: nat)
    | SenderReceives
    | SenderPauses | SenderResumes | SenderCancels | SenderTimesOut | SenderLosesPeer
    | ReceiverScript(k: nat)
    | ReceiverReceives(safe: bool)
    | HandlerMoves(a: bool, b: bool)
    | ReceiverAccepts | ReceiverRejects
    | ReceiverPauses | ReceiverResumes | ReceiverCancels | ReceiverTimesOut | ReceiverLosesPeer
    | Disconnect

  predicate HasAction(l: Local, k: nat) {
    k < |l.scripts| && l.scripts[k] != []
  }

  predicate Enabled(env: Env, st: System, step: Step) {
    match step
    case Dequeue(i) => i < |st.workers| && st.workers[i].Idle? && st.s.queue > 0
    case Claim(i) => i < |st.workers| && st.workers[i].Claiming?
    case Work(i, _, sent) =>
      i < |st.workers| && Streaming(st.workers[i]) && WorkerReady(env, st.s, st.workers[i])
      && (sent ==> st.connected)
    case SenderScript(k) => HasAction(st.s.local, k)
    case SenderReceives => st.toS != []
    case SenderLosesPeer => !st.connected
    case ReceiverScript(k) => HasAction(st.r.local, k)
    case ReceiverReceives(_) => st.toR != [] && st.r.handler.HIdle?
    case HandlerMoves(_, _) => HandlerReady(st.r)
    case ReceiverAccepts => st.r.known
    case ReceiverRejects => st.r.known
    case ReceiverPauses => st.r.known
    case ReceiverResumes => st.r.known
    case ReceiverCancels => st.r.known
    case ReceiverTimesOut => st.r.known
    case ReceiverLosesPeer => st.r.known && !st.connected
    case Disconnect => st.connected
    case _ => true
  }

  /** Bytes put on a dead connection are lost. */
  function Wire(st: System, channel: seq<Msg>, out: seq<Msg>): seq<Msg> {
    if st.connected then channel + out else channel
  }

  /** A step of the receiving side: the io thread, the application, the maintenance thread. */
  predicate AtReceiver(step: Step) {
    || step.ReceiverScript? || step.ReceiverReceives? || step.HandlerMoves?
    || step.ReceiverAccepts? || step.ReceiverRejects? || step.ReceiverPauses? || step.ReceiverResumes?
    || step.ReceiverCancels? || step.ReceiverTimesOut? || step.ReceiverLosesPeer?
  }

  function ReceiverStep(env: Env, st: System, step: Step): (res: HandlerResult)
    requires Enabled(env, st, step) && AtReceiver(step)
  {
    match step
    case ReceiverScript(k) =>
      var a := st.r.local.scripts[k][0];
      HandlerResult(ReceiverAct(st.r.(local := Popped(st.r.local, k)), a), Sent(a))
    case ReceiverReceives(safe) => HandlerResult(ReceiverHandle(env, st.r, st.toR[0], safe), [])
    case HandlerMoves(a, b) => HandlerStep(env, st.r, a, b)
    case ReceiverAccepts => HandlerResult(Accept(st.r), [])
    case ReceiverRejects => HandlerResult(Reject(st.r), [])
    case ReceiverPauses => HandlerResult(st.r.(local := PauseLocal(st.r.local)), [])
    case ReceiverResumes => HandlerResult(ResumeReceiver(st.r), [])
    case ReceiverCancels => HandlerResult(st.r.(local := CancelLocal(st.r.local)), [])
    case ReceiverTimesOut => HandlerResult(st.r.(local := TimeoutLocal(st.r.local)), [])
    case ReceiverLosesPeer => HandlerResult(st.r.(local := PeerGoneLocal(st.r.local)), [])
  }

  /** A step of the sending side outside the worker pool. */
  predicate AtSender(step: Step) {
    || step.SenderScript? || step.SenderReceives? || step.SenderPauses? || step.SenderResumes?
    || step.SenderCancels? || step.SenderTimesOut? || step.SenderLosesPeer?
  }

  function SenderStep(env: Env, st: System, step: Step): Sender
    requires Enabled(env, st, step) && AtSender(step)
  {
    match step
    case SenderScript(k) => SenderAct(st.s.(local := Popped(st.s.local, k)), st.s.local.scripts[k][0])
    case SenderReceives => SenderHandle(st.s, st.toS[0])
    case SenderPauses => st.s.(local := PauseLocal(st.s.local))
    case SenderResumes => ResumeSender(st.s, true)
    case SenderCancels => st.s.(local := CancelLocal(st.s.local))
    case SenderTimesOut => st.s.(local := TimeoutLocal(st.s.local))
    case SenderLosesPeer => st.s.(local := PeerGoneLocal(st.s.local))
  }

  function Apply(env: Env, st: System, step: Step): System
    requires Enabled(env, st, step)
  {
    if AtReceiver(step) then
      var res := ReceiverStep(env, st, step);
      st.(r := res.r,
          toR := if step.ReceiverReceives? then st.toR[1..] else st.toR,
          toS := Wire(st, st.toS, res.out))
    else if AtSender(step) then
      st.(s := SenderStep(env, st, step),
          toS := if step.SenderReceives? then st.toS[1..] else st.toS,
          toR := if step.SenderScript? then Wire(st, st.toR, Sent(st.s.local.scripts[step.k][0])) else st.toR)
    else match step
      case Dequeue(i) => st.(s := st.s.(queue := st.s.queue - 1), workers := st.workers[i := Claiming])
      case Claim(i) =>
        if st.s.workerActive then st.(workers := st.workers[i := Idle])
        else st.(s := st.s.(workerActive := true), workers := st.workers[i := Top])
      case Work(i, read, sent) =>
        var res := WorkerStep(env, st.s, st.workers[i], read, sent);
        st.(s := res.s, workers := st.workers[i := res.w], toR := Wire(st, st.toR, res.out))
      case Disconnect => st.(connected := false, toR := [], toS := [])
  }

  function Sizes(files: seq<seq<Byte>>): seq<nat> {
    seq(|files|, i requires 0 <= i < |files| => |files[i]|)
  }

  /** start_send has registered the transfer and put the offer on the wire.  The disk of the
      receiver may hold anything. */
  predicate Init(env: Env, st: System) {
    && st.s == Sender(Local(Starting, false, NoError, 0, []), 0, 0, 0, 0, 0, [], false, 0, 0)
    && (forall i :: 0 <= i < |st.workers| ==> st.workers[i].Idle?)
    && st.r.local == Local(Pending, false, NoError, 0, [])
    && !st.r.known && st.r.bytesDone == 0 && st.r.filesDone == 0 && st.r.recvFile == 0
    && st.r.recvHash == [] && st.r.lastAck == 0 && st.r.files == [] && st.r.handler.HIdle?
    && |st.r.temp| == |st.r.dest| == |env.files|
    && st.toR == [Offer(Sizes(env.files))] && st.toS == [] && st.connected
  }

  ghost predicate Next(env: Env, st: System, st': System) {
    exists step :: Enabled(env, st, step) && st' == Apply(env, st, step)
  }

  ghost predicate Run(env: Env, run: seq<System>) {
    && ValidEnv(env)
    && |run| > 0
    && Init(env, run[0])
    && forall i :: 0 <= i < |run| - 1 ==> Next(env, run[i], run[i + 1])
  }
}
