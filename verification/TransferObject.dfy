/** The Transfer object of src/file_transfer.cpp. Each method is one critical section; it is
    proved to do to the fields what the step functions of TransferModel say, on either side. */
module TransferObject {
  import opened Wrappers
  import opened TransferModel
  import opened TransferStream
  import Crc32

  // ----- one call of run_send among other threads

  /** The sender and its worker at one moment. */
  datatype Turn = Turn(s: Sender, w: Worker)

  /** Other threads change status, outcome, scripts, queue and acknowledgements, never the cursor. */
  predicate Interfered(s: Sender, s': Sender) {
    s' == s.(local := s'.local, acked := s'.acked, queue := s'.queue, resumes := s'.resumes)
  }

  /** What every step of the sender's other threads is. */
  lemma SenderStepInterferes(env: Env, st: System, step: Step)
    requires Enabled(env, st, step) && AtSender(step)
    ensures Interfered(st.s, SenderStep(env, st, step))
  {
  }

  /** From one moment to the next: a step of the worker, or something another thread did. */
  ghost predicate Linked(env: Env, t: Turn, t': Turn) {
    || (t'.w == t.w && Interfered(t.s, t'.s))
    || (Streaming(t.w) && WorkerReady(env, t.s, t.w)
        && exists read, sent :: WorkerStep(env, t.s, t.w, read, sent).s == t'.s
                                && WorkerStep(env, t.s, t.w, read, sent).w == t'.w)
  }

  ghost predicate Traced(env: Env, trace: seq<Turn>) {
    trace != [] && forall i :: 0 <= i < |trace| - 1 ==> Linked(env, trace[i], trace[i + 1])
  }

  /** A call that began at `start` and is at (s, w): the trace leads there, and `out` is the
      stream from where it began to where it is. */
  ghost predicate Session(env: Env, start: Sender, s: Sender, w: Worker, out: seq<Msg>, trace: seq<Turn>) {
    && Traced(env, trace) && trace[0] == Turn(start, Top) && trace[|trace| - 1] == Turn(s, w)
    && SenderOk(env, s, w)
    && Walk(env, out, SentPos(env, start, Top)) == Some(SentPos(env, s, w))
  }

  lemma SessionStarts(env: Env, start: Sender)
    requires SenderOk(env, start, Top)
    ensures Session(env, start, start, Top, [], [Turn(start, Top)])
  {
    hide SenderOk, SentPos;
  }

  lemma TraceGrows(env: Env, trace: seq<Turn>, t: Turn)
    requires Traced(env, trace) && Linked(env, trace[|trace| - 1], t)
    ensures Traced(env, trace + [t])
  {
    hide Linked;
    var longer := trace + [t];
    forall i | 0 <= i < |longer| - 1 ensures Linked(env, longer[i], longer[i + 1]) {
      if i < |trace| - 1 { assert Linked(env, trace[i], trace[i + 1]); }
    }
  }

  lemma SessionInterfered(env: Env, start: Sender, s: Sender, w: Worker, out: seq<Msg>, trace: seq<Turn>, s': Sender)
    requires Session(env, start, s, w, out, trace) && Interfered(s, s')
    ensures Session(env, start, s', w, out, trace + [Turn(s', w)])
  {
    hide Walk;
    TraceGrows(env, trace, Turn(s', w));
    assert SentPos(env, s', w) == SentPos(env, s, w);
  }

  lemma SessionSteps(env: Env, start: Sender, s: Sender, w: Worker, out: seq<Msg>, trace: seq<Turn>, read: bool,
                     sent: bool)
    requires ValidEnv(env) && Session(env, start, s, w, out, trace) && Streaming(w) && WorkerReady(env, s, w)
    ensures var res := WorkerStep(env, s, w, read, sent);
            Session(env, start, res.s, res.w, out + res.out, trace + [Turn(res.s, res.w)])
  {
    var res := WorkerStep(env, s, w, read, sent);
    assert Linked(env, Turn(s, w), Turn(res.s, res.w));
    hide WorkerStep, Walk, SenderOk, SentPos, Advance, Linked, WorkerReady, ToReceiver;
    TraceGrows(env, trace, Turn(res.s, res.w));
    CursorKeeps(env, s, w, read, sent);
    WorkerEmits(env, s, w, read, sent);
    if |res.out| == 1 {
      assert res.out == [res.out[0]];
      WalkAppend(env, out, res.out[0], SentPos(env, start, Top));
    } else {
      assert out + res.out == out;
    }
  }

  /** Before its frame is sent a worker has a valid position. */
  lemma SendingIsReady(env: Env, start: Sender, s: Sender, w: Worker, out: seq<Msg>, trace: seq<Turn>)
    requires Session(env, start, s, w, out, trace)
    ensures s.sendFile <= |env.files| && (s.sendFile < |env.files| ==> s.sendOffset <= |env.files[s.sendFile]|)
    ensures w.Sending? ==> w.fi == s.sendFile < |env.files| && w.off == s.sendOffset <= |env.files[w.fi]|
    ensures w.Accounting? ==> w.fi == s.sendFile < |env.files|
    ensures w.Awaiting? || w.Leaving? || w.Top? || w.Sending? ==> SentPos(env, s, w) == Pos(s.sendFile, s.sendOffset)
    ensures !w.Window? && !w.Awaiting? ==> WorkerReady(env, s, w)
  {
    hide Walk, Traced;
  }

  /** Past the last file the stream is complete. */
  lemma AwaitingIsAll(env: Env, start: Sender, s: Sender, out: seq<Msg>, trace: seq<Turn>)
    requires Session(env, start, s, Awaiting, out, trace) && s.sendFile >= |env.files|
    ensures SentPos(env, s, Awaiting) == Pos(|env.files|, 0)
  {
    hide Walk, Traced;
  }

  class Transfer {
    var status: Status
    var finished: bool
    var error: Error
    var callbacks: nat
    var bytesDone: nat
    var filesDone: nat
    // sending side
    var acked: nat
    var sendFile: nat
    var sendOffset: nat
    var sendHash: seq<Byte>
    var workerActive: bool
    // receiving side
    var recvFile: nat
    var recvHash: seq<Byte>
    var lastAck: nat
    var files: seq<RecvFile>

    ghost predicate IsLocal(l: Local)
      reads this
    {
      status == l.status && finished == l.finished && error == l.error && callbacks == l.callbacks
    }

    ghost predicate IsSender(s: Sender)
      reads this
    {
      && IsLocal(s.local)
      && bytesDone == s.bytesDone && filesDone == s.filesDone && acked == s.acked
      && sendFile == s.sendFile && sendOffset == s.sendOffset && sendHash == s.sendHash
      && workerActive == s.workerActive
    }

    ghost predicate IsReceiver(r: Receiver)
      reads this
    {
      && IsLocal(r.local)
      && bytesDone == r.bytesDone && filesDone == r.filesDone
      && recvFile == r.recvFile && recvHash == r.recvHash && lastAck == r.lastAck && files == r.files
    }

    /** An outgoing transfer, offered but not answered. */
    constructor Outgoing()
      ensures IsSender(Sender(Local(Starting, false, NoError, 0, []), 0, 0, 0, 0, 0, [], false, 0, 0))
    {
      status, finished, error, callbacks := Starting, false, NoError, 0;
      bytesDone, filesDone, acked, sendFile, sendOffset, sendHash, workerActive := 0, 0, 0, 0, 0, [], false;
      recvFile, recvHash, lastAck, files := 0, [], 0, [];
    }

    /** finish: takes effect once. */
    method Finish(success: bool, e: Error, ghost l: Local) returns (first: bool)
      requires IsLocal(l)
      modifies this`status, this`finished, this`error, this`callbacks
      ensures IsLocal(FinishLocal(l, success, e)) && first == !old(finished) && finished
    {
      if finished { return false; }
      finished := true;
      if !success && status == Cancelled {
      } else {
        status := if success then Completed else Failed;
      }
      error := e;
      callbacks := callbacks + 1;
      first := true;
    }

    /** What a thread still has to do, as the step functions record it. */
    ghost predicate Left(l: Local, l': Local, todo: Script)
    {
      l'.scripts == if todo == [] then l.scripts else l.scripts + [todo]
    }

    method Pause(ghost l: Local) returns (todo: Script)
      requires IsLocal(l)
      modifies this`status
      ensures IsLocal(PauseLocal(l)) && Left(l, PauseLocal(l), todo)
    {
      if status != InProgress { return []; }
      status := Paused;
      todo := [Send(Ctl(TransferModel.Pause))];
    }

    method Cancel(ghost l: Local) returns (todo: Script)
      requires IsLocal(l)
      modifies this`status
      ensures IsLocal(CancelLocal(l)) && Left(l, CancelLocal(l), todo)
    {
      if Terminal(status) { return []; }
      status := Cancelled;
      todo := [Send(Ctl(TransferModel.Cancel)), Action.Finish(false, CancelledHere)];
    }

    // ----- sending side

    /** worker_loop: a worker takes the transfer unless another one has it. */
    method ClaimWorker(ghost s: Sender) returns (mine: bool)
      requires IsSender(s)
      modifies this`workerActive
      ensures mine == !s.workerActive && IsSender(s.(workerActive := true))
    {
      mine := !workerActive;
      workerActive := true;
    }

    /** The first critical section of the streaming loop. */
    method NextChunk(numFiles: nat, ghost env: Env, ghost s: Sender) returns (next: Worker)
      requires IsSender(s) && numFiles == |env.files|
      modifies this`status, this`sendHash
      ensures IsSender(WorkerTop(env, s).s) && next == WorkerTop(env, s).w
    {
      if status == Resuming { status := InProgress; }
      if status == Paused { return Leaving; }
      if status != InProgress { return Leaving; }
      if sendFile >= numFiles { return Awaiting; }
      if sendOffset == 0 { sendHash := []; }
      next := Sending(sendFile, sendOffset);
    }

    /** The critical section after the frame is on the wire. */
    method AccountChunk(fi: nat, size: nat, data: seq<Byte>, sha: seq<Byte> -> Digest, ghost env: Env, ghost s: Sender)
      returns (next: Worker)
      requires IsSender(s) && fi < |env.files| && size == |env.files[fi]| && sha == env.sha
      modifies this`sendHash, this`sendOffset, this`bytesDone, this`sendFile, this`filesDone
      ensures IsSender(WorkerAccount(env, s, fi, data).s) && next == WorkerAccount(env, s, fi, data).w
    {
      sendHash := sendHash + data;
      sendOffset := sendOffset + |data|;
      bytesDone := bytesDone + |data|;
      next := Window;
      if sendOffset >= size {
        sendFile := sendFile + 1;
        sendOffset := 0;
        filesDone := filesDone + 1;
        next := EndMarker(fi, sha(sendHash));
      }
    }

    method MustWait(window: nat, ghost env: Env, ghost s: Sender) returns (wait: bool)
      requires IsSender(s) && window == env.cfg.windowBytes
      ensures wait <==> WindowClosed(env, s)
    {
      wait := status == InProgress && bytesDone - acked >= window;
    }

    method OnProgress(received: nat, ghost s: Sender)
      requires IsSender(s)
      modifies this`acked
      ensures IsSender(SenderHandle(s, Progress(received)))
    {
      if received > acked { acked := received; }
    }

    method OnResponse(accepted: bool, ghost s: Sender) returns (todo: Script)
      requires IsSender(s)
      modifies this`status
      ensures IsSender(SenderHandle(s, Response(accepted)))
      ensures Left(s.local, SenderHandle(s, Response(accepted)).local, todo)
    {
      if !accepted { return [Action.Finish(false, Rejected)]; }
      if status != Starting { return []; }
      status := InProgress;
      todo := [Requeue];
    }

    /** resume here, or on_control("resume") from the peer. */
    method ResumeSending(here: bool, ghost s: Sender) returns (todo: Script)
      requires IsSender(s)
      modifies this`status
      ensures IsSender(ResumeSender(s, here)) && Left(s.local, ResumeSender(s, here).local, todo)
    {
      if status != Paused { return []; }
      status := Resuming;
      todo := (if here then [Send(Ctl(Resume))] else []) + [Requeue];
    }

    /** Other threads between two critical sections. */
    method Others(ghost s: Sender) returns (ghost s': Sender)
      requires IsSender(s)
      modifies this`status, this`finished, this`error, this`callbacks, this`acked
      ensures IsSender(s') && Interfered(s, s')
    {
      status, finished, error, callbacks, acked := *, *, *, *, *;
      s' := s.(local := Local(status, finished, error, callbacks, s.local.scripts), acked := acked);
    }

    /** The backpressure wait, left only when its condition is false. */
    method AwaitWindow(ghost env: Env, window: nat, ghost s: Sender) returns (ghost s': Sender)
      requires IsSender(s) && window == env.cfg.windowBytes >= 1
      modifies this`status, this`finished, this`error, this`callbacks, this`acked
      ensures IsSender(s') && Interfered(s, s') && !WindowClosed(env, s')
    {
      s' := Others(s);
      var wait := MustWait(window, env, s');
      if wait {
        if * {
          var n: nat :| bytesDone < n + window;
          acked := n;
          s' := s'.(acked := n);
        } else {
          var other: Status :| other != InProgress;
          status := other;
          s' := s'.(local := s'.local.(status := other));
        }
      }
    }

    /** The critical section after the end marker of an empty file. */
    method SkipEmpty(fi: nat, ghost env: Env, ghost s: Sender)
      requires IsSender(s)
      modifies this`sendFile, this`sendOffset, this`filesDone
      ensures IsSender(WorkerStep(env, s, EmptyEnd(fi), true, true).s)
      ensures sendFile == old(sendFile) + 1 && sendOffset == 0
    {
      sendFile, sendOffset, filesDone := sendFile + 1, 0, filesDone + 1;
    }

    /** The rest of the loop body for an empty file. */
    method SendEmpty(env: Env, fi: nat, off: nat, sofar: seq<Msg>, ghost start: Sender, ghost s: Sender,
                     ghost trace: seq<Turn>)
      returns (out: seq<Msg>, ghost s': Sender, ghost trace': seq<Turn>)
      requires ValidEnv(env) && IsSender(s) && Session(env, start, s, Sending(fi, off), sofar, trace)
      requires fi < |env.files| && off <= |env.files[fi]| && |env.files[fi]| == 0
      modifies this`status, this`finished, this`error, this`callbacks, this`acked
      modifies this`sendOffset, this`sendFile, this`filesDone
      ensures IsSender(s') && Session(env, start, s', Top, out, trace') && sendFile == old(sendFile) + 1
    {
      EmptySteps(env, s, fi, off);
      hide Session, WorkerStep, Interfered;
      SendingIsReady(env, start, s, Sending(fi, off), sofar, trace);
      SessionSteps(env, start, s, Sending(fi, off), sofar, trace, true, true);
      out := sofar + [FileEnd(fi, env.sha([]))];
      trace' := trace + [Turn(s, EmptyEnd(fi))];
      s' := Others(s);
      SessionInterfered(env, start, s, EmptyEnd(fi), out, trace', s');
      trace' := trace' + [Turn(s', EmptyEnd(fi))];
      SendingIsReady(env, start, s', EmptyEnd(fi), out, trace');
      SessionSteps(env, start, s', EmptyEnd(fi), out, trace', true, true);
      EmptySkips(env, s', fi);
      SkipEmpty(fi, env, s');
      s' := WorkerStep(env, s', EmptyEnd(fi), true, true).s;
      trace' := trace' + [Turn(s', Top)];
      assert out + [] == out;
    }

    /** The rest of the loop body for a chunk; false when a read or a send failed. */
    method SendChunk(env: Env, fi: nat, off: nat, sofar: seq<Msg>, ghost start: Sender, ghost s: Sender,
                     ghost trace: seq<Turn>)
      returns (out: seq<Msg>, going: bool, ghost s': Sender, ghost trace': seq<Turn>)
      requires ValidEnv(env) && IsSender(s) && Session(env, start, s, Sending(fi, off), sofar, trace)
      requires fi < |env.files| && off <= |env.files[fi]| && |env.files[fi]| > 0
      modifies this`status, this`finished, this`error, this`callbacks, this`acked
      modifies this`sendHash, this`sendOffset, this`bytesDone, this`sendFile, this`filesDone
      ensures IsSender(s') && Session(env, start, s', if going then Top else Leaving, out, trace')
      ensures going ==> sendFile == old(sendFile) + 1 || (sendFile == old(sendFile) && sendOffset > old(sendOffset))
    {
      var read: bool, sent: bool := *, *;
      var w := Sending(fi, off);
      var data := env.files[fi][off..off + Min(env.cfg.chunkSize, |env.files[fi]| - off)];
      ChunkSteps(env, s, fi, off, read, sent);
      hide Session, WorkerStep, Interfered, WorkerAccount, WindowClosed;
      SendingIsReady(env, start, s, w, sofar, trace);
      SessionSteps(env, start, s, w, sofar, trace, read, sent);
      if !read || !sent {
        s' := WorkerStep(env, s, w, read, sent).s;
        assert sofar + [] == sofar;
        return sofar, false, s', trace + [Turn(s', Leaving)];
      }
      out := sofar + [Chunk(fi, off, data, Crc32.Checksum(data))];
      trace' := trace + [Turn(s, Accounting(fi, off, data))];
      s' := Others(s);
      SessionInterfered(env, start, s, Accounting(fi, off, data), out, trace', s');
      trace' := trace' + [Turn(s', Accounting(fi, off, data))];
      out, s', trace' := FinishChunk(env, fi, off, data, out, start, s', trace');
      going := true;
    }

    /** Accounting for the chunk, the end marker and the wait. */
    method FinishChunk(env: Env, fi: nat, off: nat, data: seq<Byte>, sofar: seq<Msg>,
                       ghost start: Sender, ghost s: Sender, ghost trace: seq<Turn>)
      returns (out: seq<Msg>, ghost s': Sender, ghost trace': seq<Turn>)
      requires ValidEnv(env) && IsSender(s) && Session(env, start, s, Accounting(fi, off, data), sofar, trace)
      requires fi < |env.files|
      modifies this`status, this`finished, this`error, this`callbacks, this`acked
      modifies this`sendHash, this`sendOffset, this`bytesDone, this`sendFile, this`filesDone
      ensures IsSender(s') && Session(env, start, s', Top, out, trace')
      ensures sendFile == old(sendFile) + 1 || (sendFile == old(sendFile) && sendOffset > old(sendOffset))
    {
      var w := Accounting(fi, off, data);
      AccountSteps(env, start, s, fi, off, data, sofar, trace);
      hide Session, WorkerStep, Interfered, WorkerAccount, WindowClosed;
      SendingIsReady(env, start, s, w, sofar, trace);
      SessionSteps(env, start, s, w, sofar, trace, true, true);
      var next := AccountChunk(fi, |env.files[fi]|, data, env.sha, env, s);
      s' := WorkerAccount(env, s, fi, data).s;
      out := sofar;
      assert out + [] == out;
      trace' := trace + [Turn(s', next)];
      if next.EndMarker? {
        var marker := FileEnd(next.fi, next.sha);
        s', trace' := Pausing(env, start, s', next, out, trace');
        MarkerSteps(env, s', next);
        SendingIsReady(env, start, s', next, out, trace');
        SessionSteps(env, start, s', next, out, trace', true, true);
        out := out + [marker];
        trace' := trace' + [Turn(s', Window)];
      }
      ghost var s1 := AwaitWindow(env, env.cfg.windowBytes, s');
      SessionInterfered(env, start, s', Window, out, trace', s1);
      trace' := trace' + [Turn(s1, Window)];
      WindowSteps(env, s1);
      SessionSteps(env, start, s1, Window, out, trace', true, true);
      assert out + [] == out;
      s', trace' := s1, trace' + [Turn(s1, Top)];
    }

    /** Other threads, noted in the trace. */
    method Pausing(ghost env: Env, ghost start: Sender, ghost s: Sender, ghost w: Worker, ghost out: seq<Msg>,
                   ghost trace: seq<Turn>)
      returns (ghost s': Sender, ghost trace': seq<Turn>)
      requires IsSender(s) && Session(env, start, s, w, out, trace)
      modifies this`status, this`finished, this`error, this`callbacks, this`acked
      ensures IsSender(s') && Session(env, start, s', w, out, trace')
    {
      hide Session, Interfered;
      s' := Others(s);
      SessionInterfered(env, start, s, w, out, trace, s');
      trace' := trace + [Turn(s', w)];
    }

    /** run_send, with other threads between its critical sections and with reads and sends that
        may fail: its trace consists of worker steps and of what others did, and what it puts on
        the wire is the stream from the cursor it found to the cursor it leaves.  When it comes to
        await completion that is the end of the last file. */
    method RunSend(env: Env, ghost start: Sender)
      returns (out: seq<Msg>, w: Worker, ghost end: Sender, ghost trace: seq<Turn>)
      requires ValidEnv(env) && IsSender(start) && SenderOk(env, start, Top)
      modifies this`status, this`finished, this`error, this`callbacks, this`acked
      modifies this`sendHash, this`sendOffset, this`bytesDone, this`sendFile, this`filesDone
      ensures IsSender(end) && Session(env, start, end, w, out, trace) && (w.Leaving? || w.Awaiting?)
      ensures w.Awaiting? ==> SentPos(env, end, w) == Pos(|env.files|, 0)
    {
      hide Session, WorkerStep, WorkerTop, SenderOk, SentPos;
      SessionStarts(env, start);
      out, end, trace := [], start, [Turn(start, Top)];
      SendingIsReady(env, start, end, Top, out, trace);
      while true
        invariant IsSender(end) && Session(env, start, end, Top, out, trace)
        invariant sendFile <= |env.files| && (sendFile < |env.files| ==> sendOffset <= |env.files[sendFile]|)
        decreases |env.files| - sendFile, if sendFile < |env.files| then |env.files[sendFile]| - sendOffset else 0
      {
        end, trace := Pausing(env, start, end, Top, out, trace);
        SendingIsReady(env, start, end, Top, out, trace);
        SessionSteps(env, start, end, Top, out, trace, true, true);
        TopSteps(env, end);
        w := NextChunk(|env.files|, env, end);
        end := WorkerTop(env, end).s;
        assert out + [] == out;
        trace := trace + [Turn(end, w)];
        SendingIsReady(env, start, end, w, out, trace);
        if w.Awaiting? {
          AwaitingIsAll(env, start, end, out, trace);
          return;
        }
        if w.Leaving? {
          return;
        }
        end, trace := Pausing(env, start, end, w, out, trace);
        var fi, off := w.fi, w.off;
        if |env.files[fi]| == 0 {
          out, end, trace := SendEmpty(env, fi, off, out, start, end, trace);
        } else {
          var going;
          out, going, end, trace := SendChunk(env, fi, off, out, start, end, trace);
          if !going {
            return out, Leaving, end, trace;
          }
        }
        SendingIsReady(env, start, end, Top, out, trace);
      }
    }

    // ----- receiving side

    method Accept(ghost r: Receiver) returns (todo: Script)
      requires IsReceiver(r)
      modifies this`status
      ensures IsReceiver(TransferModel.Accept(r)) && Left(r.local, TransferModel.Accept(r).local, todo)
    {
      if status != Pending { return []; }
      status := InProgress;
      todo := [Send(Response(true))]
              + (if files == [] then [Send(Complete(true, NoError)), Action.Finish(true, NoError)] else []);
    }

    method Reject(ghost r: Receiver) returns (todo: Script)
      requires IsReceiver(r)
      modifies this`status
      ensures IsReceiver(TransferModel.Reject(r)) && Left(r.local, TransferModel.Reject(r).local, todo)
    {
      if status != Pending { return []; }
      status := Cancelled;
      todo := [Send(Response(false)), Action.Finish(false, Rejected)];
    }

    /** The first critical section of on_chunk. */
    method CheckChunk(fi: nat, off: nat, data: seq<Byte>, ghost crc: bv32, ghost r: Receiver)
      returns (fail: Error, go: bool)
      requires IsReceiver(r) && r.handler.HIdle?
      modifies this`status, this`error
      ensures IsReceiver(ChunkArrives(r, fi, off, data, crc))
      ensures go <==> ChunkArrives(r, fi, off, data, crc).handler == HWrite(fi, off, data, crc)
      ensures fail != NoError <==> ChunkArrives(r, fi, off, data, crc).handler == HReport(false, fail)
    {
      fail, go := NoError, false;
      if status != InProgress && status != Paused { return; }
      if fi >= |files| || fi != recvFile {
        fail := OutOfOrderFile;
      } else if off != files[fi].received {
        fail := OutOfOrderOffset;
      } else if off + |data| > files[fi].size {
        fail := ChunkTooBig;
      } else {
        go := true;
      }
      if fail != NoError {
        status := Failed;
        error := fail;
      }
    }

    /** The second critical section of on_chunk: hash, counters, acknowledgement. */
    method AccountReceived(fi: nat, data: seq<Byte>, interval: nat, sha: seq<Byte> -> Digest, ghost env: Env,
                           ghost r: Receiver)
      returns (ack: bool, ackBytes: nat, dataComplete: bool)
      requires IsReceiver(r) && fi < |files| && interval == AckInterval(env.cfg) && sha == env.sha
      modifies this`recvHash, this`files, this`bytesDone, this`lastAck
      ensures IsReceiver(ChunkAccount(env, r, fi, data))
      ensures ChunkAccount(env, r, fi, data).handler == if ack then HAck(ackBytes, fi, dataComplete) else HIdle
    {
      var f := files[fi];
      if f.received == 0 { recvHash := []; }
      recvHash := recvHash + data;
      f := f.(received := f.received + |data|);
      bytesDone := bytesDone + |data|;
      dataComplete := false;
      if f.received >= f.size {
        f := f.(computedSha := sha(recvHash));
        dataComplete := true;
      }
      files := files[fi := f];
      ack, ackBytes := false, 0;
      if dataComplete || bytesDone - lastAck >= interval {
        lastAck := bytesDone;
        ackBytes := bytesDone;
        ack := true;
      }
    }

    /** The critical section of on_file_end. */
    method OnFileEnd(fi: nat, digest: Digest, sha: seq<Byte> -> Digest, ghost env: Env, ghost r: Receiver)
      returns (go: bool)
      requires IsReceiver(r) && r.handler.HIdle? && sha == env.sha
      modifies this`files
      ensures IsReceiver(FileEndArrives(env, r, fi, digest))
      ensures go <==> FileEndArrives(env, r, fi, digest).handler == HFinalize(fi)
    {
      if Terminal(status) || fi >= |files| { return false; }
      var f := files[fi];
      if f.finalized { return false; }
      f := f.(expectedSha := digest, shaKnown := true);
      if f.size == 0 && f.computedSha == "" { f := f.(computedSha := sha([])); }
      files := files[fi := f];
      go := true;
    }

    /** The first critical section of try_finalize_file. */
    method MayFinalize(fi: nat, verify: bool, ghost env: Env, ghost r: Receiver) returns (go: bool, mismatch: bool)
      requires IsReceiver(r) && verify == env.cfg.verifyIntegrity
      ensures FinalizeCheck(env, r, fi).handler ==
              if go then HMove(fi) else if mismatch then HReport(false, ShaMismatch) else HIdle
    {
      go, mismatch := false, false;
      if Terminal(status) || fi >= |files| { return; }
      var f := files[fi];
      if f.finalized { return; }
      if f.received < f.size { return; }
      if !f.shaKnown { return; }
      if verify && f.computedSha != f.expectedSha {
        mismatch := true;
      } else {
        go := true;
      }
    }

    /** The last critical section of try_finalize_file. */
    method RecordFinalized(fi: nat, ghost r: Receiver) returns (allDone: bool)
      requires IsReceiver(r) && fi < |files|
      modifies this`files, this`filesDone, this`recvFile
      ensures IsReceiver(RecordFile(r, fi))
      ensures RecordFile(r, fi).handler == if allDone then HReport(true, NoError) else HIdle
    {
      files := files[fi := files[fi].(finalized := true)];
      filesDone := filesDone + 1;
      if fi == recvFile { recvFile := recvFile + 1; }
      allDone := true;
      var k := 0;
      while k < |files| && allDone
        invariant k <= |files|
        invariant allDone ==> forall i :: 0 <= i < k ==> files[i].finalized
        invariant !allDone ==> exists i :: 0 <= i < |files| && !files[i].finalized
      {
        if !files[k].finalized { allDone := false; }
        k := k + 1;
      }
    }
  }

  // ----- the worker steps of run_send, one by one

  lemma TopSteps(env: Env, s: Sender)
    ensures var res := WorkerStep(env, s, Top, true, true);
            && res == WorkerTop(env, s) && res.out == []
            && (res.w.Leaving? || res.w.Awaiting? || res.w.Sending?)
            && (res.w.Awaiting? ==> res.s.sendFile >= |env.files|)
  {
  }

  lemma EmptySteps(env: Env, s: Sender, fi: nat, off: nat)
    requires fi < |env.files| && off <= |env.files[fi]| && |env.files[fi]| == 0
    ensures WorkerStep(env, s, Sending(fi, off), true, true) ==
              WorkerResult(s, EmptyEnd(fi), [FileEnd(fi, env.sha([]))])
  {
  }

  lemma EmptySkips(env: Env, s: Sender, fi: nat)
    ensures WorkerStep(env, s, EmptyEnd(fi), true, true).w == Top
            && WorkerStep(env, s, EmptyEnd(fi), true, true).out == []
  {
  }

  lemma ChunkSteps(env: Env, s: Sender, fi: nat, off: nat, read: bool, sent: bool)
    requires fi < |env.files| && off <= |env.files[fi]| && |env.files[fi]| > 0
    ensures var res := WorkerStep(env, s, Sending(fi, off), read, sent);
            var data := env.files[fi][off..off + Min(env.cfg.chunkSize, |env.files[fi]| - off)];
            && (read && sent ==>
                  res == WorkerResult(s, Accounting(fi, off, data), [Chunk(fi, off, data, Crc32.Checksum(data))]))
            && (!read || !sent ==> res.w.Leaving? && res.out == [] && SameFields(s, res.s))
  {
    hide Crc32.Checksum;
  }

  /** Only a script was added. */
  predicate SameFields(s: Sender, s': Sender) { s' == s.(local := s.local.(scripts := s'.local.scripts)) }

  lemma AccountSteps(env: Env, start: Sender, s: Sender, fi: nat, off: nat, data: seq<Byte>, out: seq<Msg>,
                     trace: seq<Turn>)
    requires fi < |env.files| && Session(env, start, s, Accounting(fi, off, data), out, trace)
    ensures var res := WorkerStep(env, s, Accounting(fi, off, data), true, true);
            && res == WorkerAccount(env, s, fi, data) && res.out == [] && (res.w.EndMarker? || res.w.Window?)
            && (res.s.sendFile == s.sendFile + 1 || (res.s.sendFile == s.sendFile && res.s.sendOffset > s.sendOffset))
  {
    hide Walk, Traced, SentPos;
  }

  lemma MarkerSteps(env: Env, s: Sender, w: Worker)
    requires w.EndMarker?
    ensures WorkerStep(env, s, w, true, true) == WorkerResult(s, Window, [FileEnd(w.fi, w.sha)])
  {
  }

  lemma WindowSteps(env: Env, s: Sender)
    requires !WindowClosed(env, s)
    ensures WorkerReady(env, s, Window) && WorkerStep(env, s, Window, true, true) == WorkerResult(s, Top, [])
  {
  }
}
