/** What the receiver gets is, byte for byte and in order, what the sender reads: the
    invariant behind the integrity of a transfer, over every interleaving. */
module TransferStream {
  import opened Wrappers
  import opened Files
  import opened TransferModel
  import opened TransferWorkers
  import Crc32

  // ----- the stream of data messages

  /** `off` bytes of file `file` and all of the files before it, end markers included. */
  datatype Pos = Pos(file: nat, off: nat)

  /** The only data messages that may follow position p, and where they lead. */
  function Advance(env: Env, p: Pos, m: Msg): Option<Pos> {
    match m
    case Chunk(fi, off, data, crc) =>
      if fi < |env.files| && p == Pos(fi, off) && 0 < |data| && off + |data| <= |env.files[fi]|
         && data == env.files[fi][off..off + |data|] && crc == Crc32.Checksum(data)
      then Some(Pos(fi, off + |data|)) else None
    case FileEnd(fi, sha) =>
      if fi < |env.files| && p == Pos(fi, |env.files[fi]|) && sha == env.sha(env.files[fi])
      then Some(Pos(fi + 1, 0)) else None
    case _ => Some(p)
  }

  /** Where the data messages of a channel lead from p, None when one of them is out of place. */
  function Walk(env: Env, ms: seq<Msg>, p: Pos): Option<Pos>
    decreases |ms|
  {
    if ms == [] then Some(p)
    else match Advance(env, p, ms[0])
      case None => None
      case Some(q) => Walk(env, ms[1..], q)
  }

  lemma {:induction false} WalkAppend(env: Env, ms: seq<Msg>, m: Msg, p: Pos)
    ensures Walk(env, ms + [m], p) ==
            match Walk(env, ms, p) { case None => None case Some(q) => Advance(env, q, m) }
    decreases |ms|
  {
    if ms == [] {
      assert (ms + [m])[1..] == [];
    } else {
      assert (ms + [m])[1..] == ms[1..] + [m];
      match Advance(env, p, ms[0])
      case None =>
      case Some(q) => WalkAppend(env, ms[1..], m, q);
    }
  }

  // ----- the sender

  predicate Started(s: Sender, w: Worker) {
    || s.local.status.InProgress? || s.local.status.Paused? || s.local.status.Resuming?
    || s.queue > 0 || !w.Idle? || s.sendFile > 0 || s.sendOffset > 0
  }

  function SentPos(env: Env, s: Sender, w: Worker): Pos {
    match w
    case Accounting(fi, off, data) => Pos(fi, off + |data|)
    case EndMarker(fi, _) => Pos(fi, if fi < |env.files| then |env.files[fi]| else 0)
    case EmptyEnd(fi) => Pos(fi + 1, 0)
    case _ => Pos(s.sendFile, s.sendOffset)
  }

  predicate AtCursor(env: Env, s: Sender, fi: nat, off: nat) {
    fi == s.sendFile < |env.files| && off == s.sendOffset <= |env.files[fi]| && s.sendHash == env.files[fi][..off]
  }

  predicate SenderOk(env: Env, s: Sender, w: Worker) {
    && s.sendFile <= |env.files|
    && (s.sendOffset > 0 ==> AtCursor(env, s, s.sendFile, s.sendOffset) && s.sendOffset < |env.files[s.sendFile]|)
    && match w
       case Sending(fi, off) => AtCursor(env, s, fi, off)
       case Accounting(fi, off, data) =>
         AtCursor(env, s, fi, off) && 0 < |data| && off + |data| <= |env.files[fi]|
         && data == env.files[fi][off..off + |data|]
       case EndMarker(fi, sha) =>
         fi < |env.files| && s.sendFile == fi + 1 && s.sendOffset == 0 && sha == env.sha(env.files[fi])
         && |env.files[fi]| > 0
       case EmptyEnd(fi) => fi == s.sendFile < |env.files| && |env.files[fi]| == 0 && s.sendOffset == 0
       case _ => true
  }

  // ----- the receiver

  predicate Answered(r: Receiver) {
    r.known && !r.local.status.Pending?
  }

  /** Every destination holds its source. */
  predicate Delivered(env: Env, r: Receiver) {
    && r.known && r.recvFile == |env.files| == |r.dest|
    && forall i :: 0 <= i < |env.files| ==> r.dest[i] == Some(env.files[i])
  }

  predicate Holds(temp: Option<seq<Byte>>, file: seq<Byte>, n: nat) {
    n <= |file| && temp.Some? && |temp.value| == |file| && temp.value[..n] == file[..n]
  }

  predicate FreshFile(f: RecvFile) {
    f.received == 0 && !f.tempCreated && !f.shaKnown && !f.finalized && f.computedSha == ""
  }

  predicate CurrentFile(env: Env, r: Receiver, f: RecvFile, file: seq<Byte>) {
    && !f.finalized
    && f.received <= |file|
    && (f.received > 0 ==> f.tempCreated && r.recvHash == file[..f.received])
    && (f.received == |file| > 0 ==> f.computedSha == env.sha(file))
    && (f.shaKnown ==> f.received == |file| && f.expectedSha == f.computedSha == env.sha(file))
    && (|file| == 0 && f.computedSha != "" ==> f.computedSha == env.sha(file))
    && (|file| == 0 ==> !f.tempCreated)
  }

  /** The temp file of the current file holds the received prefix. */
  predicate TempPrefix(env: Env, r: Receiver)
    requires |r.files| == |env.files| == |r.temp|
  {
    r.recvFile < |env.files| && r.files[r.recvFile].tempCreated && !r.local.finished && !r.handler.HRecord? ==>
      Holds(r.temp[r.recvFile], env.files[r.recvFile],
            r.files[r.recvFile].received + (if r.handler.HAccount? then |r.handler.data| else 0))
  }

  predicate FilesOk(env: Env, r: Receiver) {
    && |r.files| == |env.files| == |r.temp| == |r.dest|
    && r.recvFile <= |env.files|
    && (forall i :: 0 <= i < |env.files| ==> r.files[i].size == |env.files[i]|)
    && (forall i :: 0 <= i < r.recvFile ==> r.files[i].finalized && r.dest[i] == Some(env.files[i]))
    && (forall i :: r.recvFile < i < |env.files| ==> FreshFile(r.files[i]))
    && (r.recvFile < |env.files| ==> CurrentFile(env, r, r.files[r.recvFile], env.files[r.recvFile]))
    && TempPrefix(env, r)
  }

  predicate ChunkFits(env: Env, r: Receiver, fi: nat, data: seq<Byte>) {
    && fi == r.recvFile < |env.files| == |r.files|
    && 0 < |data| && r.files[fi].received + |data| <= |env.files[fi]|
    && data == env.files[fi][r.files[fi].received..r.files[fi].received + |data|]
  }

  predicate HandlerOk(env: Env, r: Receiver)
    requires |r.files| == |env.files| == |r.temp| == |r.dest|
  {
    match r.handler
    case HIdle => Terminal(r.local.status) || (r.recvFile < |env.files| ==> !r.files[r.recvFile].shaKnown)
    case HWrite(fi, off, data, crc) =>
      ChunkFits(env, r, fi, data) && off == r.files[fi].received && crc == Crc32.Checksum(data)
    case HAccount(fi, data) => ChunkFits(env, r, fi, data) && r.files[fi].tempCreated
    case HAck(_, fi, complete) =>
      fi == r.recvFile < |env.files| && (complete <==> r.files[fi].received == |env.files[fi]|)
      && !r.files[fi].shaKnown
    case HFinalize(fi) => fi == r.recvFile < |env.files|
    case HMove(fi) =>
      fi == r.recvFile < |env.files| && r.files[fi].shaKnown
      && (|env.files[fi]| > 0 ==> r.temp[fi].None? || r.temp[fi] == Some(env.files[fi]))
    case HPlace(fi) =>
      fi == r.recvFile < |env.files| && r.files[fi].shaKnown
      && (|env.files[fi]| > 0 ==> r.temp[fi].None? || r.temp[fi] == Some(env.files[fi]))
    case HCopy(fi, content, n) =>
      fi == r.recvFile < |env.files| && r.files[fi].shaKnown
      && content == env.files[fi] && n <= |content| && r.dest[fi] == Some(content[..n])
    case HRecord(fi) => fi == r.recvFile < |env.files| && r.files[fi].shaKnown && r.dest[fi] == Some(env.files[fi])
    case HReport(success, error) => !Integrity(error) && (success ==> Delivered(env, r))
    case HEnd(success, error) => !Integrity(error) && (success ==> Delivered(env, r))
  }

  predicate Unknown(env: Env, r: Receiver) {
    && r.files == [] && r.handler.HIdle? && r.recvFile == 0 && r.local.status.Pending? && !r.local.finished
    && |r.temp| == |r.dest| == |env.files|
    && forall k, j :: 0 <= k < |r.local.scripts| && 0 <= j < |r.local.scripts[k]| ==> r.local.scripts[k][j].Send?
  }

  predicate ReceiverOk(env: Env, r: Receiver) {
    && !r.local.status.Starting? && !r.local.status.Resuming?
    && if r.known then FilesOk(env, r) && HandlerOk(env, r) else Unknown(env, r)
  }

  function RecvPos(r: Receiver): Pos {
    match r.handler
    case HWrite(fi, off, data, _) => Pos(fi, off + |data|)
    case HAccount(fi, data) => Pos(fi, (if fi < |r.files| then r.files[fi].received else 0) + |data|)
    case HMove(fi) => Pos(fi + 1, 0)
    case HPlace(fi) => Pos(fi + 1, 0)
    case HCopy(fi, _, _) => Pos(fi + 1, 0)
    case HRecord(fi) => Pos(fi + 1, 0)
    case _ =>
      if r.recvFile >= |r.files| then Pos(r.recvFile, 0)
      else if r.files[r.recvFile].shaKnown then Pos(r.recvFile + 1, 0)
      else Pos(r.recvFile, r.files[r.recvFile].received)
  }

  predicate Failing(h: Handler) {
    (h.HReport? || h.HEnd?) && !h.success
  }

  predicate Taking(r: Receiver) {
    !Terminal(r.local.status) && !Failing(r.handler)
  }

  // ----- scripts and channels

  predicate SenderAction(a: Action, answered: bool, delivered: bool) {
    match a
    case Send(m) => m.Ctl? || (m.Complete? && !m.success && !Integrity(m.error))
    case Requeue => answered
    case Finish(success, error) => !Integrity(error) && (success ==> delivered)
    case _ => false
  }

  predicate ToSender(m: Msg, answered: bool, delivered: bool) {
    match m
    case Response(accepted) => accepted ==> answered
    case Progress(_) => true
    case Complete(success, error) => !Integrity(error) && (success ==> delivered)
    case Ctl(_) => true
    case _ => false
  }

  predicate ReceiverAction(a: Action, answered: bool, delivered: bool, finished: bool) {
    match a
    case Send(m) => ToSender(m, answered, delivered) && !m.Progress?
    case Requeue => false
    case Finish(success, error) => !Integrity(error) && (success ==> delivered)
    case CollectTemps => finished
    case DeleteTemps(_) => finished
  }

  predicate ToReceiver(env: Env, m: Msg, answered: bool) {
    match m
    case Offer(sizes) => sizes == Sizes(env.files)
    case Chunk(_, _, _, _) => answered
    case FileEnd(_, _) => answered
    case Complete(success, error) => !success && !Integrity(error)
    case Ctl(_) => true
    case _ => false
  }

  predicate SenderScripts(l: Local, answered: bool, delivered: bool) {
    forall k, j :: 0 <= k < |l.scripts| && 0 <= j < |l.scripts[k]| ==>
      SenderAction(l.scripts[k][j], answered, delivered)
  }

  predicate ReceiverScripts(l: Local, answered: bool, delivered: bool) {
    forall k, j :: 0 <= k < |l.scripts| && 0 <= j < |l.scripts[k]| ==>
      ReceiverAction(l.scripts[k][j], answered, delivered, l.finished)
  }

  predicate OutcomeOk(l: Local, delivered: bool) {
    && !Integrity(l.error)
    && (l.status.Completed? ==> delivered)
    && (l.finished ==> Terminal(l.status))
  }

  // ----- the invariant

  ghost predicate SenderSide(env: Env, s: Sender, ws: seq<Worker>, answered: bool, delivered: bool) {
    && OneOwner(s.workerActive, ws)
    && SenderOk(env, s, Owner(ws))
    && SenderScripts(s.local, answered, delivered)
    && OutcomeOk(s.local, delivered)
    && (Started(s, Owner(ws)) ==> answered)
    && (forall i :: 0 <= i < |ws| && !ws[i].Idle? ==> answered)
  }

  predicate ReceiverSide(env: Env, r: Receiver) {
    && ReceiverOk(env, r)
    && ReceiverScripts(r.local, Answered(r), Delivered(env, r))
    && OutcomeOk(r.local, Delivered(env, r))
  }

  predicate Channels(env: Env, st: System) {
    && (forall i :: 0 <= i < |st.toS| ==> ToSender(st.toS[i], Answered(st.r), Delivered(env, st.r)))
    && (forall i :: 0 <= i < |st.toR| ==> ToReceiver(env, st.toR[i], Answered(st.r)))
    && (forall i :: 0 <= i < |st.toR| && st.toR[i].Offer? ==> i == 0 && !st.r.known)
    && (!st.connected ==> st.toR == [] && st.toS == [])
  }

  predicate InStep(env: Env, st: System) {
    st.connected && Taking(st.r) ==>
      Walk(env, st.toR, RecvPos(st.r)) == Some(SentPos(env, st.s, Owner(st.workers)))
  }

  ghost predicate Inv(env: Env, st: System) {
    && ValidEnv(env)
    && SenderSide(env, st.s, st.workers, Answered(st.r), Delivered(env, st.r))
    && ReceiverSide(env, st.r)
    && Channels(env, st)
    && InStep(env, st)
  }

  lemma InitInv(env: Env, st: System)
    requires ValidEnv(env) && Init(env, st)
    ensures Inv(env, st)
  {
    NoneIdle(st.workers);
    assert Walk(env, st.toR[1..], RecvPos(st.r)) == Some(RecvPos(st.r));
  }

  /** What the invariant says about the receiver and the stream. */
  lemma InvParts(env: Env, st: System)
    requires Inv(env, st)
    ensures ReceiverSide(env, st.r) && (st.r.known ==> KnownOk(env, st.r)) && Channels(env, st)
    ensures st.toR[0..] == st.toR
    ensures st.connected && Taking(st.r) ==>
              Walk(env, st.toR, RecvPos(st.r)) == Some(SentPos(env, st.s, Owner(st.workers)))
    ensures st.r.local.finished ==> Terminal(st.r.local.status)
  {
    hide SenderSide, Channels, Walk, RecvPos, SentPos, FilesOk, HandlerOk, ReceiverScripts, Delivered;
  }

  /** A step at the receiver changes nothing at the sender. */
  lemma ReceiverApplies(env: Env, st: System, step: Step)
    requires Enabled(env, st, step) && AtReceiver(step)
    ensures var res, n := ReceiverStep(env, st, step), if step.ReceiverReceives? then 1 else 0;
            n <= |st.toR| && Apply(env, st, step) ==
              st.(r := res.r, toR := st.toR[n..], toS := Wire(st, st.toS, res.out))
  {
    hide ReceiverStep, Wire;
    assert st.toR[0..] == st.toR;
  }

  lemma ReceivesApplies(env: Env, st: System, safe: bool)
    requires Enabled(env, st, ReceiverReceives(safe))
    ensures st.toR != [] && st.r.handler.HIdle?
    ensures Apply(env, st, ReceiverReceives(safe))
         == st.(r := ReceiverHandle(env, st.r, st.toR[0], safe), toR := st.toR[1..], toS := Wire(st, st.toS, []))
  {
    hide ReceiverHandle, Wire;
  }

  lemma HandlerApplies(env: Env, st: System, a: bool, b: bool)
    requires Enabled(env, st, HandlerMoves(a, b))
    ensures HandlerReady(st.r) && st.toR[0..] == st.toR
    ensures var res := HandlerStep(env, st.r, a, b);
            Apply(env, st, HandlerMoves(a, b)) == st.(r := res.r, toR := st.toR[0..], toS := Wire(st, st.toS, res.out))
  {
    hide HandlerStep, Wire;
    assert st.toR[0..] == st.toR;
  }

  // ----- steps of the sender

  /** What a step of a worker does to the sender: cursor and hash stay together. */
  lemma WorkerKeeps(env: Env, s: Sender, w: Worker, read: bool, sent: bool, answered: bool, delivered: bool)
    requires ValidEnv(env) && Streaming(w) && WorkerReady(env, s, w) && answered
    requires SenderOk(env, s, w) && SenderScripts(s.local, answered, delivered) && OutcomeOk(s.local, delivered)
    ensures var res := WorkerStep(env, s, w, read, sent);
            && SenderOk(env, res.s, res.w)
            && SenderScripts(res.s.local, answered, delivered) && OutcomeOk(res.s.local, delivered)
  {
    hide *;
    CursorKeeps(env, s, w, read, sent);
    LocalKeeps(env, s, w, read, sent, answered, delivered);
  }

  lemma CursorKeeps(env: Env, s: Sender, w: Worker, read: bool, sent: bool)
    requires ValidEnv(env) && Streaming(w) && WorkerReady(env, s, w) && SenderOk(env, s, w)
    ensures var res := WorkerStep(env, s, w, read, sent);
            SenderOk(env, res.s, res.w)
  {
    match w
    case Accounting(fi, off, data) => AccountingKeeps(env, s, fi, off, data);
    case Top => TopKeeps(env, s);
    case Sending(fi, off) => SendingKeeps(env, s, fi, off, read, sent);
    case _ =>
  }

  lemma TopKeeps(env: Env, s: Sender)
    requires SenderOk(env, s, Top)
    ensures SenderOk(env, WorkerTop(env, s).s, WorkerTop(env, s).w)
  {
    if s.sendFile < |env.files| { assert env.files[s.sendFile][..0] == []; }
  }

  lemma SendingKeeps(env: Env, s: Sender, fi: nat, off: nat, read: bool, sent: bool)
    requires ValidEnv(env) && SenderOk(env, s, Sending(fi, off))
    ensures var res := WorkerSend(env, s, fi, off, read, sent);
            SenderOk(env, res.s, res.w)
  {
    hide Crc32.Checksum;
  }

  lemma LocalKeeps(env: Env, s: Sender, w: Worker, read: bool, sent: bool, answered: bool, delivered: bool)
    requires Streaming(w) && WorkerReady(env, s, w)
    requires SenderScripts(s.local, answered, delivered) && OutcomeOk(s.local, delivered)
    ensures var res := WorkerStep(env, s, w, read, sent);
            SenderScripts(res.s.local, answered, delivered) && OutcomeOk(res.s.local, delivered)
  {
    hide SenderScripts, Crc32.Checksum;
    PushSender(s.local, [Send(Complete(false, ReadFailed)), Finish(false, ReadFailed)], answered, delivered);
    PushSender(s.local, [Finish(false, ConnectionLost)], answered, delivered);
    SameScripts(s.local, s.local.(status := InProgress), answered, delivered);
  }

  lemma SameScripts(l: Local, l': Local, answered: bool, delivered: bool)
    requires SenderScripts(l, answered, delivered) && l'.scripts == l.scripts
    ensures SenderScripts(l', answered, delivered)
  {
  }

  lemma AccountingKeeps(env: Env, s: Sender, fi: nat, off: nat, data: seq<Byte>)
    requires SenderOk(env, s, Accounting(fi, off, data))
    ensures var res := WorkerAccount(env, s, fi, data);
            SenderOk(env, res.s, res.w) && res.s.local == s.local
  {
    assert s.sendHash + data == env.files[fi][..off + |data|];
    assert env.files[fi][..|env.files[fi]|] == env.files[fi];
  }

  /** The messages of a worker step continue the stream from where it was. */
  lemma WorkerEmits(env: Env, s: Sender, w: Worker, read: bool, sent: bool)
    requires ValidEnv(env) && Streaming(w) && WorkerReady(env, s, w) && SenderOk(env, s, w)
    ensures var res := WorkerStep(env, s, w, read, sent);
            var p, q := SentPos(env, s, w), SentPos(env, res.s, res.w);
            && (res.w.Idle? || Streaming(res.w))
            && |res.out| <= 1
            && (res.out == [] ==> q == p)
            && (|res.out| == 1 ==> Advance(env, p, res.out[0]) == Some(q) && ToReceiver(env, res.out[0], true)
                                   && !res.out[0].Offer?)
  {
    hide SenderOk;
    match w
    case Sending(fi, off) => SendingEmits(env, s, fi, off, read, sent);
    case Accounting(fi, off, data) => AccountingMoves(env, s, fi, off, data);
    case EndMarker(fi, sha) => MarkerAtEnd(env, s, w);
    case EmptyEnd(fi) => MarkerAtEnd(env, s, w);
    case _ =>
  }

  lemma MarkerAtEnd(env: Env, s: Sender, w: Worker)
    requires SenderOk(env, s, w) && (w.EndMarker? || w.EmptyEnd?)
    ensures w.EndMarker? ==>
              w.fi < |env.files| && s.sendFile == w.fi + 1 && s.sendOffset == 0 && w.sha == env.sha(env.files[w.fi])
    ensures w.EmptyEnd? ==> w.fi == s.sendFile && s.sendOffset == 0
  {
  }

  lemma SendingEmits(env: Env, s: Sender, fi: nat, off: nat, read: bool, sent: bool)
    requires ValidEnv(env) && SenderOk(env, s, Sending(fi, off))
    ensures var res := WorkerSend(env, s, fi, off, read, sent);
            var p, q := SentPos(env, s, Sending(fi, off)), SentPos(env, res.s, res.w);
            && Streaming(res.w)
            && |res.out| <= 1
            && (res.out == [] ==> q == p)
            && (|res.out| == 1 ==> Advance(env, p, res.out[0]) == Some(q) && ToReceiver(env, res.out[0], true)
                                   && !res.out[0].Offer?)
  {
    if |env.files[fi]| == 0 { assert env.files[fi] == []; }
  }

  lemma AccountingMoves(env: Env, s: Sender, fi: nat, off: nat, data: seq<Byte>)
    requires SenderOk(env, s, Accounting(fi, off, data))
    ensures var res := WorkerAccount(env, s, fi, data);
            SentPos(env, res.s, res.w) == SentPos(env, s, Accounting(fi, off, data)) && Streaming(res.w)
  {
  }

  lemma SendKeepsChannels(env: Env, st: System, m: Msg)
    requires Channels(env, st) && st.connected && ToReceiver(env, m, Answered(st.r)) && !m.Offer?
    ensures Channels(env, st.(toR := st.toR + [m]))
  {
  }

  lemma WorkKeepsInv(env: Env, st: System, i: nat, read: bool, sent: bool)
    requires Inv(env, st) && Enabled(env, st, Work(i, read, sent))
    ensures Inv(env, Apply(env, st, Work(i, read, sent)))
  {
    hide WorkerStep, SenderOk, ReceiverSide, Walk, SentPos, RecvPos, Delivered, ToReceiver, WorkerReady, Advance;
    hide SenderScripts, OutcomeOk;
    var st' := Apply(env, st, Work(i, read, sent));
    var w := st.workers[i];
    OwnerStreams(st.workers, i);
    var res := WorkerStep(env, st.s, w, read, sent);
    StepKeepsOneOwner(env, st, Work(i, read, sent));
    OwnerMoves(st.workers, i, res.w);
    WorkerKeeps(env, st.s, w, read, sent, true, Delivered(env, st.r));
    WorkerEmits(env, st.s, w, read, sent);
    if st.connected && |res.out| == 1 {
      assert res.out == [res.out[0]];
      WalkAppend(env, st.toR, res.out[0], RecvPos(st.r));
      SendKeepsChannels(env, st, res.out[0]);
    } else if st.connected {
      assert st.toR + res.out == st.toR;
    }
    assert st'.r == st.r;
  }

  lemma PoolKeepsInv(env: Env, st: System, step: Step)
    requires Inv(env, st) && Enabled(env, st, step) && (step.Dequeue? || step.Claim?)
    ensures Inv(env, Apply(env, st, step))
  {
    hide ReceiverSide, Walk, RecvPos, Delivered, SenderScripts, OutcomeOk, Enabled, Apply, ToSender, ToReceiver;
    StepKeepsOneOwner(env, st, step);
    PoolApplies(env, st, step);
    var ws := Apply(env, st, step).workers;
    OwnerClaims(st.workers, step.i, ws[step.i]);
  }

  // Threads other than the workers change status, counters and scripts only.

  lemma PushSender(l: Local, s: Script, answered: bool, delivered: bool)
    requires SenderScripts(l, answered, delivered)
    requires forall j :: 0 <= j < |s| ==> SenderAction(s[j], answered, delivered)
    ensures SenderScripts(Push(l, s), answered, delivered)
  {
  }

  lemma PopSender(l: Local, k: nat, answered: bool, delivered: bool)
    requires HasAction(l, k) && SenderScripts(l, answered, delivered)
    ensures SenderScripts(Popped(l, k), answered, delivered)
    ensures SenderAction(l.scripts[k][0], answered, delivered)
  {
    var l' := Popped(l, k);
    forall n, j | 0 <= n < |l'.scripts| && 0 <= j < |l'.scripts[n]|
      ensures SenderAction(l'.scripts[n][j], answered, delivered)
    {
      assert l'.scripts[n][j] == if n == k then l.scripts[k][j + 1] else l.scripts[n][j];
    }
  }

  predicate SameCursor(s: Sender, s': Sender) {
    && s'.sendFile == s.sendFile && s'.sendOffset == s.sendOffset && s'.sendHash == s.sendHash
    && s'.workerActive == s.workerActive
  }

  lemma CalmSender(env: Env, st: System, s': Sender)
    requires Inv(env, st) && SameCursor(st.s, s')
    requires SenderScripts(s'.local, Answered(st.r), Delivered(env, st.r))
    requires OutcomeOk(s'.local, Delivered(env, st.r))
    requires Started(s', Owner(st.workers)) ==> Answered(st.r)
    ensures Inv(env, st.(s := s'))
  {
  }

  lemma ResponseCalm(s: Sender, accepted: bool, w: Worker, answered: bool, delivered: bool)
    requires accepted ==> answered
    requires SenderScripts(s.local, answered, delivered) && OutcomeOk(s.local, delivered)
    requires Started(s, w) ==> answered
    ensures var s' := SenderHandle(s, Response(accepted));
            && SameCursor(s, s') && SenderScripts(s'.local, answered, delivered) && OutcomeOk(s'.local, delivered)
            && (Started(s', w) ==> answered)
  {
    if accepted { PushSender(s.local.(status := InProgress), [Requeue], answered, delivered); }
    else { PushSender(s.local, [Finish(false, Rejected)], answered, delivered); }
  }

  lemma HandleCalm(env: Env, s: Sender, m: Msg, w: Worker, answered: bool, delivered: bool)
    requires ToSender(m, answered, delivered)
    requires SenderScripts(s.local, answered, delivered) && OutcomeOk(s.local, delivered)
    requires Started(s, w) ==> answered
    ensures var s' := SenderHandle(s, m);
            && SameCursor(s, s') && SenderScripts(s'.local, answered, delivered) && OutcomeOk(s'.local, delivered)
            && (Started(s', w) ==> answered)
  {
    match m
    case Response(accepted) => ResponseCalm(s, accepted, w, answered, delivered);
    case Complete(success, error) =>
      PushSender(s.local, [Finish(success, if success then NoError else error)], answered, delivered);
    case Ctl(Resume) => ResumeCalm(s, false, w, answered, delivered);
    case Ctl(Cancel) =>
      PushSender(s.local.(status := Cancelled), [Finish(false, CancelledByPeer)], answered, delivered);
    case _ =>
  }

  lemma ResumeCalm(s: Sender, here: bool, w: Worker, answered: bool, delivered: bool)
    requires SenderScripts(s.local, answered, delivered) && OutcomeOk(s.local, delivered)
    requires Started(s, w) ==> answered
    ensures var s' := ResumeSender(s, here);
            && SameCursor(s, s') && SenderScripts(s'.local, answered, delivered) && OutcomeOk(s'.local, delivered)
            && (Started(s', w) ==> answered)
  {
    if s.local.status.Paused? {
      PushSender(s.local.(status := Resuming), (if here then [Send(Ctl(Resume))] else []) + [Requeue],
                 answered, delivered);
    }
  }

  /** pause, cancel, timeout and disconnect, as the sender runs them. */
  lemma ControlCalm(l: Local, answered: bool, delivered: bool)
    requires SenderScripts(l, answered, delivered) && OutcomeOk(l, delivered)
    ensures SenderScripts(PauseLocal(l), answered, delivered) && OutcomeOk(PauseLocal(l), delivered)
    ensures SenderScripts(CancelLocal(l), answered, delivered) && OutcomeOk(CancelLocal(l), delivered)
    ensures SenderScripts(TimeoutLocal(l), answered, delivered) && OutcomeOk(TimeoutLocal(l), delivered)
    ensures SenderScripts(PeerGoneLocal(l), answered, delivered) && OutcomeOk(PeerGoneLocal(l), delivered)
  {
    PushSender(l.(status := Paused), [Send(Ctl(Pause))], answered, delivered);
    PushSender(l.(status := Cancelled), [Send(Ctl(Cancel)), Finish(false, CancelledHere)], answered, delivered);
    PushSender(l, [Send(Complete(false, TimedOut)), Finish(false, TimedOut)], answered, delivered);
    PushSender(l, [Finish(false, PeerGone)], answered, delivered);
  }

  /** A step of the sender's other threads takes at most one message and sends none. */
  lemma SenderApplies(env: Env, st: System, step: Step)
    requires Enabled(env, st, step) && AtSender(step) && !step.SenderScript?
    ensures (step.SenderReceives? ==> st.toS != [])
    ensures var s' := SenderStep(env, st, step);
            Apply(env, st, step) == (if step.SenderReceives? then st.(toS := st.toS[1..]) else st).(s := s')
  {
    hide SenderStep;
  }

  lemma SenderThreadKeepsInv(env: Env, st: System, step: Step)
    requires Inv(env, st) && Enabled(env, st, step)
    requires AtSender(step) && !step.SenderScript?
    ensures Inv(env, Apply(env, st, step))
  {
    hide *;
    SenderApplies(env, st, step);
    SenderStepCalm(env, st, step);
    var st1 := if step.SenderReceives? then st.(toS := st.toS[1..]) else st;
    if step.SenderReceives? { TakenByS(env, st); }
    CalmSender(env, st1, SenderStep(env, st, step));
  }

  lemma TakenByS(env: Env, st: System)
    requires Inv(env, st) && st.toS != []
    ensures Inv(env, st.(toS := st.toS[1..]))
  {
    hide SenderSide, ReceiverSide, Walk, RecvPos, SentPos, Delivered, ToSender, ToReceiver;
  }

  lemma SenderStepCalm(env: Env, st: System, step: Step)
    requires Inv(env, st) && Enabled(env, st, step)
    requires AtSender(step) && !step.SenderScript?
    ensures var s', answered, delivered := SenderStep(env, st, step), Answered(st.r), Delivered(env, st.r);
            && SameCursor(st.s, s') && SenderScripts(s'.local, answered, delivered) && OutcomeOk(s'.local, delivered)
            && (Started(s', Owner(st.workers)) ==> answered)
  {
    hide ReceiverSide, Walk, InStep, Delivered, SenderScripts, SenderOk, OneOwner, ToSender, SenderHandle, ResumeSender;
    var answered, delivered := Answered(st.r), Delivered(env, st.r);
    ControlCalm(st.s.local, answered, delivered);
    if step.SenderReceives? {
      HandleCalm(env, st.s, st.toS[0], Owner(st.workers), answered, delivered);
    } else {
      ResumeCalm(st.s, true, Owner(st.workers), answered, delivered);
    }
  }

  lemma SenderScriptKeepsInv(env: Env, st: System, k: nat)
    requires Inv(env, st) && Enabled(env, st, SenderScript(k))
    ensures Inv(env, Apply(env, st, SenderScript(k)))
  {
    SenderScriptApplies(env, st, k);
    hide Apply, Enabled, Inv, SenderAct;
    var a := st.s.local.scripts[k][0];
    var s' := SenderAct(st.s.(local := Popped(st.s.local, k)), a);
    SenderActCalm(env, st, k);
    CalmSender(env, st, s');
    if a.Send? && st.connected {
      SendKeepsInv(env, st.(s := s'), a.m);
    }
  }

  lemma SenderScriptApplies(env: Env, st: System, k: nat)
    requires Enabled(env, st, SenderScript(k))
    ensures HasAction(st.s.local, k)
    ensures var a := st.s.local.scripts[k][0];
            var st1 := st.(s := SenderAct(st.s.(local := Popped(st.s.local, k)), a));
            Apply(env, st, SenderScript(k)) == if a.Send? && st.connected then st1.(toR := st.toR + [a.m]) else st1
  {
    hide SenderAct;
    assert st.toR + [] == st.toR;
  }

  lemma SenderActCalm(env: Env, st: System, k: nat)
    requires Inv(env, st) && HasAction(st.s.local, k)
    ensures var a := st.s.local.scripts[k][0];
            var s' := SenderAct(st.s.(local := Popped(st.s.local, k)), a);
            && SameCursor(st.s, s') && SenderScripts(s'.local, Answered(st.r), Delivered(env, st.r))
            && OutcomeOk(s'.local, Delivered(env, st.r))
            && (Started(s', Owner(st.workers)) ==> Answered(st.r))
            && (a.Send? ==> (a.m.Ctl? || a.m.Complete?) && ToReceiver(env, a.m, Answered(st.r)))
  {
    hide ReceiverSide, Channels, InStep, Delivered, SenderScripts, SenderOk, OneOwner;
    PopSender(st.s.local, k, Answered(st.r), Delivered(env, st.r));
    var l := Popped(st.s.local, k);
    var a := st.s.local.scripts[k][0];
    if a.Finish? { SameScripts(l, FinishLocal(l, a.success, a.error), Answered(st.r), Delivered(env, st.r)); }
  }

  /** A message that is not data does not move the stream. */
  lemma SendKeepsInv(env: Env, st: System, m: Msg)
    requires Inv(env, st) && st.connected && (m.Ctl? || m.Complete?) && ToReceiver(env, m, Answered(st.r))
    ensures Inv(env, st.(toR := st.toR + [m]))
  {
    hide SenderSide, ReceiverSide, Walk, RecvPos, SentPos, Delivered, Channels, ToReceiver;
    SendKeepsChannels(env, st, m);
    WalkAppend(env, st.toR, m, RecvPos(st.r));
  }

  // ----- steps of the receiver

  lemma WriteExtends(before: seq<Byte>, file: seq<Byte>, n: nat, data: seq<Byte>)
    requires |before| == |file| && n + |data| <= |file| && before[..n] == file[..n]
    requires data == file[n..n + |data|]
    ensures Holds(Some(WriteAt(before, n, data)), file, n + |data|)
  {
    var c := WriteAt(before, n, data);
    assert |c| == |file|;
    assert c[..n + |data|] == before[..n] + data;
    assert file[..n + |data|] == file[..n] + file[n..n + |data|];
  }

  predicate KnownOk(env: Env, r: Receiver) {
    r.known && FilesOk(env, r) && HandlerOk(env, r)
  }

  /** The temp file gets new content: the part that was already received must survive. */
  lemma TempReplaced(env: Env, r: Receiver, content: seq<Byte>, handler: Handler)
    requires r.handler.HWrite? && KnownOk(env, r)
    requires handler == HAccount(r.handler.fi, r.handler.data) || handler == HReport(false, WriteFailed)
    requires !r.local.finished ==>
               Holds(Some(content), env.files[r.recvFile],
                     r.files[r.recvFile].received + (if handler.HAccount? then |handler.data| else 0))
    ensures KnownOk(env, r.(files := r.files[r.recvFile := r.files[r.recvFile].(tempCreated := true)],
                            temp := r.temp[r.recvFile := Some(content)], handler := handler))
  {
    hide Holds;
    TempFilesOk(env, r, content, handler);
    hide FilesOk, Delivered;
  }

  lemma TempFilesOk(env: Env, r: Receiver, content: seq<Byte>, handler: Handler)
    requires FilesOk(env, r) && r.recvFile < |env.files| && |env.files[r.recvFile]| > 0
    requires !r.local.finished && !handler.HRecord? ==>
               Holds(Some(content), env.files[r.recvFile],
                     r.files[r.recvFile].received + (if handler.HAccount? then |handler.data| else 0))
    ensures FilesOk(env, r.(files := r.files[r.recvFile := r.files[r.recvFile].(tempCreated := true)],
                            temp := r.temp[r.recvFile := Some(content)], handler := handler))
  {
    hide Holds, FreshFile;
  }

  /** Of the handler, the files depend only on what the temp file must hold. */
  lemma HandlerFilesOk(env: Env, r: Receiver, handler: Handler)
    requires FilesOk(env, r) && !r.handler.HAccount? && !r.handler.HRecord? && !handler.HAccount?
    ensures FilesOk(env, r.(handler := handler))
  {
    hide Holds, FreshFile;
  }

  /** What the temp file holds before the write. */
  function TempBefore(r: Receiver, fi: nat): seq<Byte>
    requires fi < |r.files| && fi < |r.temp|
  {
    if !r.files[fi].tempCreated then Zeros(r.files[fi].size)
    else if r.temp[fi].Some? then r.temp[fi].value else []
  }

  lemma WriteFacts(env: Env, r: Receiver)
    requires r.handler.HWrite? && HandlerReady(r) && KnownOk(env, r)
    ensures var fi, off, data := r.handler.fi, r.handler.off, r.handler.data;
            var before := TempBefore(r, fi);
            && fi == r.recvFile < |env.files| && Crc32.Checksum(data) == r.handler.crc
            && (!r.local.finished ==>
                  && Holds(Some(before), env.files[fi], r.files[fi].received)
                  && Holds(Some(WriteAt(before, off, data)), env.files[fi], r.files[fi].received + |data|))
  {
    hide WriteAt;
    var fi, off, data := r.handler.fi, r.handler.off, r.handler.data;
    if !r.local.finished {
      WriteExtends(TempBefore(r, fi), env.files[fi], off, data);
    }
  }

  lemma CreationFails(env: Env, r: Receiver)
    requires r.handler.HWrite? && KnownOk(env, r)
    ensures KnownOk(env, FailHandler(r, TempFailed))
  {
  }

  lemma WriteKeeps(env: Env, r: Receiver, a: bool, b: bool)
    requires r.handler.HWrite? && HandlerReady(r) && KnownOk(env, r)
    ensures KnownOk(env, HandlerStep(env, r, a, b).r)
  {
    WriteFacts(env, r);
    hide KnownOk, WriteAt, Holds, Crc32.Checksum;
    var fi, off, data := r.handler.fi, r.handler.off, r.handler.data;
    var before := TempBefore(r, fi);
    if !r.files[fi].tempCreated && !a {
      CreationFails(env, r);
    } else if b {
      TempReplaced(env, r, WriteAt(before, off, data), HAccount(fi, data));
    } else {
      TempReplaced(env, r, before, HReport(false, WriteFailed));
    }
  }

  lemma AccountKeeps(env: Env, r: Receiver, a: bool, b: bool)
    requires r.handler.HAccount? && HandlerReady(r) && KnownOk(env, r)
    ensures KnownOk(env, HandlerStep(env, r, a, b).r)
  {
    var fi, data := r.handler.fi, r.handler.data;
    var f, file := r.files[fi], env.files[fi];
    var hash := (if f.received == 0 then [] else r.recvHash) + data;
    assert hash == file[..f.received + |data|];
    assert file[..|file|] == file;
  }

  lemma FinalizeKeeps(env: Env, r: Receiver, a: bool, b: bool)
    requires r.handler.HFinalize? && HandlerReady(r) && KnownOk(env, r)
    requires r.local.finished ==> Terminal(r.local.status)
    ensures KnownOk(env, HandlerStep(env, r, a, b).r)
  {
    var fi := r.handler.fi;
    if |env.files[fi]| > 0 && HandlerStep(env, r, a, b).r.handler.HMove? {
      assert env.files[fi][..|env.files[fi]|] == env.files[fi];
      assert r.temp[fi].value[..|env.files[fi]|] == r.temp[fi].value;
    }
  }

  lemma MoveKeeps(env: Env, r: Receiver, a: bool, b: bool)
    requires r.handler.HMove? && HandlerReady(r) && KnownOk(env, r)
    ensures KnownOk(env, HandlerStep(env, r, a, b).r)
  {
  }

  /** Moving the current file into place leaves the files before it alone. */
  lemma MovedFilesOk(env: Env, r: Receiver, r': Receiver)
    requires FilesOk(env, r) && r.recvFile < |env.files|
    requires r' == r.(temp := r'.temp, dest := r'.dest, handler := r'.handler)
    requires |r'.temp| == |r.temp| && |r'.dest| == |r.dest|
    requires forall i :: 0 <= i < r.recvFile ==> r'.dest[i] == r.dest[i]
    requires TempPrefix(env, r')
    ensures FilesOk(env, r')
  {
    hide Holds, FreshFile;
  }

  lemma PlaceKeeps(env: Env, r: Receiver, a: bool, b: bool)
    requires r.handler.HPlace? && HandlerReady(r) && KnownOk(env, r)
    ensures KnownOk(env, HandlerStep(env, r, a, b).r)
  {
    hide ChunkWrite, ChunkAccount, FinalizeCheck, ClearDestination, CopyFile, RecordFile, ReceiverAct, Holds;
    var fi := r.handler.fi;
    if |env.files[fi]| == 0 { assert env.files[fi] == []; }
    assert env.files[fi][..0] == [];
    MovedFilesOk(env, r, HandlerStep(env, r, a, b).r);
    hide FilesOk, Delivered;
  }

  lemma CopyKeeps(env: Env, r: Receiver, a: bool, b: bool)
    requires r.handler.HCopy? && HandlerReady(r) && KnownOk(env, r)
    ensures KnownOk(env, HandlerStep(env, r, a, b).r)
  {
    hide ChunkWrite, ChunkAccount, FinalizeCheck, ClearDestination, PlaceFile, RecordFile, ReceiverAct, Holds;
    var content := r.handler.content;
    assert content[..|content|] == content;
    MovedFilesOk(env, r, HandlerStep(env, r, a, b).r);
    hide FilesOk, Delivered;
  }

  lemma RecordKeeps(env: Env, r: Receiver, a: bool, b: bool)
    requires r.handler.HRecord? && HandlerReady(r) && KnownOk(env, r)
    ensures KnownOk(env, HandlerStep(env, r, a, b).r)
  {
    var r' := HandlerStep(env, r, a, b).r;
    if r'.recvFile < |env.files| {
      assert FreshFile(r.files[r'.recvFile]);
    }
  }

  lemma ReportKeeps(env: Env, r: Receiver, a: bool, b: bool)
    requires r.handler.HAck? || r.handler.HReport? || r.handler.HEnd?
    requires HandlerReady(r) && KnownOk(env, r) && (r.local.finished ==> Terminal(r.local.status))
    ensures KnownOk(env, HandlerStep(env, r, a, b).r)
  {
    hide FreshFile, Holds;
    var r' := HandlerStep(env, r, a, b).r;
    assert Delivered(env, r') == Delivered(env, r);
    assert FilesOk(env, r');
  }

  lemma HandlerKeeps(env: Env, r: Receiver, a: bool, b: bool)
    requires HandlerReady(r) && KnownOk(env, r)
    requires r.local.finished ==> Terminal(r.local.status)
    ensures KnownOk(env, HandlerStep(env, r, a, b).r)
  {
    if r.handler.HIdle? { assert false; }
    hide *;
    match r.handler
    case HWrite(_, _, _, _) => WriteKeeps(env, r, a, b);
    case HAccount(_, _) => AccountKeeps(env, r, a, b);
    case HFinalize(_) => FinalizeKeeps(env, r, a, b);
    case HMove(_) => MoveKeeps(env, r, a, b);
    case HPlace(_) => PlaceKeeps(env, r, a, b);
    case HCopy(_, _, _) => CopyKeeps(env, r, a, b);
    case HRecord(_) => RecordKeeps(env, r, a, b);
    case HAck(_, _, _) => ReportKeeps(env, r, a, b);
    case HReport(_, _) => ReportKeeps(env, r, a, b);
    case HEnd(_, _) => ReportKeeps(env, r, a, b);
  }

  predicate Grows(env: Env, r: Receiver, r': Receiver) {
    && (r.known ==> r'.known)
    && (Answered(r) ==> Answered(r'))
    && (Delivered(env, r) ==> Delivered(env, r'))
  }

  /** A receiver step keeps the invariant when it keeps the receiver's part, loses nothing that
      others rely on, and moves through the stream as far as the message it consumed. */
  lemma ReceiverMoves(env: Env, st: System, r': Receiver, consumed: nat, out: seq<Msg>)
    requires Inv(env, st) && ReceiverSide(env, r') && Grows(env, st.r, r')
    requires consumed <= 1 && consumed <= |st.toR|
    requires consumed == 0 && !st.r.known ==> !r'.known
    requires forall i :: 0 <= i < |out| ==> ToSender(out[i], Answered(r'), Delivered(env, r'))
    requires st.connected && Taking(r') ==>
               Walk(env, st.toR[consumed..], RecvPos(r')) == Some(SentPos(env, st.s, Owner(st.workers)))
    ensures Inv(env, st.(r := r', toR := st.toR[consumed..], toS := Wire(st, st.toS, out)))
  {
    hide SenderSide, ReceiverSide, Channels, Walk, RecvPos, SentPos, Delivered, Answered, Wire, ToSender;
    SenderSideGrows(env, st.s, st.workers, Answered(st.r), Delivered(env, st.r), Answered(r'), Delivered(env, r'));
    ReceiverChannels(env, st, r', consumed, out);
  }

  lemma SenderSideGrows(env: Env, s: Sender, ws: seq<Worker>, answered: bool, delivered: bool, answered': bool,
                        delivered': bool)
    requires SenderSide(env, s, ws, answered, delivered)
    requires (answered ==> answered') && (delivered ==> delivered')
    ensures SenderSide(env, s, ws, answered', delivered')
  {
    hide SenderOk, OneOwner, Integrity;
  }

  lemma ReceiverChannels(env: Env, st: System, r': Receiver, consumed: nat, out: seq<Msg>)
    requires Channels(env, st) && Grows(env, st.r, r')
    requires consumed <= 1 && consumed <= |st.toR|
    requires consumed == 0 && !st.r.known ==> !r'.known
    requires forall i :: 0 <= i < |out| ==> ToSender(out[i], Answered(r'), Delivered(env, r'))
    ensures Channels(env, st.(r := r', toR := st.toR[consumed..], toS := Wire(st, st.toS, out)))
  {
    hide Delivered, Answered, Integrity;
    var st' := st.(r := r', toR := st.toR[consumed..], toS := Wire(st, st.toS, out));
    forall i | 0 <= i < |st'.toR| ensures ToReceiver(env, st'.toR[i], Answered(r')) {
      assert st'.toR[i] == st.toR[i + consumed];
    }
    forall i | 0 <= i < |st'.toR| && st'.toR[i].Offer? ensures i == 0 && !r'.known {
      assert st'.toR[i] == st.toR[i + consumed];
    }
  }

  lemma PushReceiver(l: Local, s: Script, answered: bool, delivered: bool)
    requires ReceiverScripts(l, answered, delivered)
    requires forall j :: 0 <= j < |s| ==> ReceiverAction(s[j], answered, delivered, l.finished)
    ensures ReceiverScripts(Push(l, s), answered, delivered)
  {
  }

  lemma PopReceiver(l: Local, k: nat, answered: bool, delivered: bool)
    requires HasAction(l, k) && ReceiverScripts(l, answered, delivered)
    ensures ReceiverScripts(Popped(l, k), answered, delivered)
    ensures ReceiverAction(l.scripts[k][0], answered, delivered, l.finished)
  {
    var l' := Popped(l, k);
    forall n, j | 0 <= n < |l'.scripts| && 0 <= j < |l'.scripts[n]|
      ensures ReceiverAction(l'.scripts[n][j], answered, delivered, l'.finished)
    {
      assert l'.scripts[n][j] == if n == k then l.scripts[k][j + 1] else l.scripts[n][j];
    }
  }

  lemma RelaxReceiver(l: Local, l': Local, answered: bool, answered': bool, delivered: bool, delivered': bool)
    requires ReceiverScripts(l, answered, delivered) && l'.scripts == l.scripts
    requires (answered ==> answered') && (delivered ==> delivered') && (l.finished ==> l'.finished)
    ensures ReceiverScripts(l', answered', delivered')
  {
  }

  lemma CalmOk(env: Env, r: Receiver, l': Local)
    requires KnownOk(env, r) && (r.local.finished ==> l'.finished)
    requires Terminal(r.local.status) ==> Terminal(l'.status)
    ensures KnownOk(env, r.(local := l'))
    ensures Delivered(env, r.(local := l')) == Delivered(env, r)
    ensures RecvPos(r.(local := l')) == RecvPos(r)
  {
    var r' := r.(local := l');
    assert Delivered(env, r') == Delivered(env, r);
    assert FilesOk(env, r');
  }

  /** Only the status and the scripts change. */
  lemma CalmReceiver(env: Env, st: System, l': Local, out: seq<Msg>)
    requires Inv(env, st) && st.r.known && Calm(st.r.local, l', Delivered(env, st.r))
    requires forall i :: 0 <= i < |out| ==> ToSender(out[i], Answered(st.r), Delivered(env, st.r))
    ensures Inv(env, st.(r := st.r.(local := l'), toR := st.toR[0..], toS := Wire(st, st.toS, out)))
  {
    var r' := st.r.(local := l');
    InvParts(env, st);
    CalmFacts(st.r.local, l', Delivered(env, st.r));
    CalmOk(env, st.r, l');
    CalmSide(env, st.r, l');
    hide ReceiverSide, KnownOk, Inv, Calm, Walk, SentPos, RecvPos, ToSender, Delivered, Channels;
    ReceiverMoves(env, st, r', 0, out);
  }

  lemma CalmFacts(l: Local, l': Local, delivered: bool)
    requires Calm(l, l', delivered)
    ensures (l.finished ==> l'.finished) && (Terminal(l.status) ==> Terminal(l'.status))
    ensures l.status.Pending? || !l'.status.Pending?
  {
  }

  lemma CalmSide(env: Env, r: Receiver, l': Local)
    requires ReceiverSide(env, r) && r.known && Calm(r.local, l', Delivered(env, r))
    requires KnownOk(env, r.(local := l')) && Delivered(env, r.(local := l')) == Delivered(env, r)
    ensures ReceiverSide(env, r.(local := l')) && Grows(env, r, r.(local := l'))
  {
    hide FilesOk, HandlerOk, Delivered, ReceiverScripts;
  }

  /** What CalmReceiver asks of the new status and scripts. */
  predicate Calm(l: Local, l': Local, delivered: bool) {
    && !l'.status.Starting? && !l'.status.Resuming?
    && (l.status.Pending? || !l'.status.Pending?)
    && (l.finished ==> l'.finished) && OutcomeOk(l', delivered)
    && (Terminal(l.status) ==> Terminal(l'.status))
    && ReceiverScripts(l', !l'.status.Pending?, delivered)
  }

  lemma CalmPush(l: Local, status: Status, script: Script, delivered: bool)
    requires ReceiverScripts(l, !l.status.Pending?, delivered) && OutcomeOk(l, delivered)
    requires !Terminal(l.status) && !status.Completed? && (l.status.Pending? || !status.Pending?)
    requires !status.Starting? && !status.Resuming?
    requires forall j :: 0 <= j < |script| ==> ReceiverAction(script[j], !status.Pending?, delivered, l.finished)
    ensures Calm(l, Push(l.(status := status), script), delivered)
  {
    RelaxReceiver(l, l.(status := status), !l.status.Pending?, !status.Pending?, delivered, delivered);
    PushReceiver(l.(status := status), script, !status.Pending?, delivered);
  }

  /** pause, cancel, timeout, disconnect and the peer's control messages on the receiving side. */
  lemma ReceiverControlsCalm(l: Local, delivered: bool)
    requires ReceiverScripts(l, !l.status.Pending?, delivered) && OutcomeOk(l, delivered)
    requires !l.status.Starting? && !l.status.Resuming?
    ensures Calm(l, PauseLocal(l), delivered)
    ensures Calm(l, CancelLocal(l), delivered)
    ensures Calm(l, TimeoutLocal(l), delivered)
    ensures Calm(l, PeerGoneLocal(l), delivered)
    ensures Calm(l, PausedByPeer(l), delivered)
    ensures Calm(l, CancelledByPeerLocal(l), delivered)
  {
    if !Terminal(l.status) {
      if l.status.InProgress? { CalmPush(l, Paused, [Send(Ctl(Pause))], delivered); }
      CalmPush(l, Cancelled, [Send(Ctl(Cancel)), Finish(false, CancelledHere)], delivered);
      CalmPush(l, l.status, [Send(Complete(false, TimedOut)), Finish(false, TimedOut)], delivered);
      CalmPush(l, l.status, [Finish(false, PeerGone)], delivered);
      CalmPush(l, Cancelled, [Finish(false, CancelledByPeer)], delivered);
      RelaxReceiver(l, l.(status := Paused), !l.status.Pending?, true, delivered, delivered);
    }
  }

  lemma AnswersCalm(env: Env, r: Receiver)
    requires ReceiverSide(env, r) && r.known
    ensures Calm(r.local, Accept(r).local, Delivered(env, r)) && Accept(r) == r.(local := Accept(r).local)
    ensures Calm(r.local, Reject(r).local, Delivered(env, r)) && Reject(r) == r.(local := Reject(r).local)
    ensures Calm(r.local, ResumeReceiver(r).local, Delivered(env, r))
    ensures ResumeReceiver(r) == r.(local := ResumeReceiver(r).local)
  {
    var l, delivered := r.local, Delivered(env, r);
    if l.status.Pending? {
      CalmPush(l, InProgress, [Send(Response(true))] +
        (if r.files == [] then [Send(Complete(true, NoError)), Finish(true, NoError)] else []), delivered);
      CalmPush(l, Cancelled, [Send(Response(false)), Finish(false, Rejected)], delivered);
    }
    if l.status.Paused? { CalmPush(l, InProgress, [Send(Ctl(Resume))], delivered); }
  }

  predicate Controls(step: Step) {
    AtReceiver(step) && !step.ReceiverScript? && !step.ReceiverReceives? && !step.HandlerMoves?
  }

  lemma ControlsCalm(env: Env, st: System, step: Step)
    requires ReceiverSide(env, st.r) && Enabled(env, st, step) && Controls(step)
    ensures var res := ReceiverStep(env, st, step);
            && res.r == st.r.(local := res.r.local) && res.out == []
            && Calm(st.r.local, res.r.local, Delivered(env, st.r))
  {
    ControlKnown(env, st, step);
    SideParts(env, st.r);
    hide ReceiverSide, Enabled, Calm, Delivered, Accept, Reject, ResumeReceiver;
    hide PauseLocal, CancelLocal, TimeoutLocal, PeerGoneLocal, ReceiverHandle, HandlerStep, ReceiverAct;
    ReceiverControlsCalm(st.r.local, Delivered(env, st.r));
    AnswersCalm(env, st.r);
  }

  lemma ControlKnown(env: Env, st: System, step: Step)
    requires Enabled(env, st, step) && Controls(step)
    ensures st.r.known
  {
  }

  lemma SideParts(env: Env, r: Receiver)
    requires ReceiverSide(env, r) && r.known
    ensures ReceiverScripts(r.local, !r.local.status.Pending?, Delivered(env, r))
            && OutcomeOk(r.local, Delivered(env, r))
    ensures !r.local.status.Starting? && !r.local.status.Resuming? && KnownOk(env, r)
  {
    hide FilesOk, HandlerOk, ReceiverScripts, Delivered;
  }

  lemma ReceiverControlKeepsInv(env: Env, st: System, step: Step)
    requires Inv(env, st) && Enabled(env, st, step) && Controls(step)
    ensures Inv(env, Apply(env, st, step))
  {
    ControlIsAtReceiver(step);
    hide *;
    InvParts(env, st);
    ControlKnown(env, st, step);
    ControlsCalm(env, st, step);
    ReceiverApplies(env, st, step);
    var res := ReceiverStep(env, st, step);
    CalmReceiver(env, st, res.r.local, res.out);
  }

  lemma ControlIsAtReceiver(step: Step)
    requires Controls(step)
    ensures AtReceiver(step) && !step.ReceiverReceives?
  {
  }

  lemma FinishCalm(l: Local, success: bool, error: Error, delivered: bool)
    requires ReceiverScripts(l, !l.status.Pending?, delivered) && OutcomeOk(l, delivered)
    requires !l.status.Starting? && !l.status.Resuming?
    requires !Integrity(error) && (success ==> delivered)
    ensures var l' := FinishLocal(l, success, error);
            Calm(l, if !l.finished && !success then Push(l', [CollectTemps]) else l', delivered)
  {
    if !l.finished {
      var l' := FinishLocal(l, success, error);
      RelaxReceiver(l, l', !l.status.Pending?, true, delivered, delivered);
      if !success { PushReceiver(l', [CollectTemps], true, delivered); }
    }
  }

  /** Deleting temp files: it happens only after finish, when nothing depends on them. */
  lemma DeleteKeeps(env: Env, r: Receiver, temp: seq<Option<seq<Byte>>>)
    requires KnownOk(env, r) && r.local.finished && |temp| == |r.temp|
    requires forall i :: 0 <= i < |temp| ==> temp[i] == None || temp[i] == r.temp[i]
    ensures KnownOk(env, r.(temp := temp))
    ensures Delivered(env, r.(temp := temp)) == Delivered(env, r) && RecvPos(r.(temp := temp)) == RecvPos(r)
  {
    var r' := r.(temp := temp);
    assert Delivered(env, r') == Delivered(env, r);
    assert FilesOk(env, r');
  }

  lemma UnknownScript(env: Env, st: System, k: nat)
    requires Inv(env, st) && Enabled(env, st, ReceiverScript(k)) && !st.r.known
    ensures Inv(env, Apply(env, st, ReceiverScript(k)))
  {
    ReceiverApplies(env, st, ReceiverScript(k));
    InvParts(env, st);
    UnknownSends(env, st.r, k);
    hide Inv, Apply, ReceiverSide, Channels, Walk, SentPos, RecvPos, Delivered, ToSender;
    var r' := st.r.(local := Popped(st.r.local, k));
    ReceiverMoves(env, st, r', 0, Sent(st.r.local.scripts[k][0]));
  }

  /** Before the offer is taken scripts only send refusals. */
  lemma UnknownSends(env: Env, r: Receiver, k: nat)
    requires ReceiverSide(env, r) && !r.known && HasAction(r.local, k)
    ensures r.local.scripts[k][0].Send?
    ensures var r' := r.(local := Popped(r.local, k));
            && ReceiverSide(env, r') && Grows(env, r, r') && RecvPos(r') == RecvPos(r) && Taking(r') == Taking(r)
            && Delivered(env, r') == Delivered(env, r)
            && ReceiverAct(r', r.local.scripts[k][0]) == r'
            && ToSender(r.local.scripts[k][0].m, Answered(r'), Delivered(env, r'))
  {
    var l := r.local;
    var r' := r.(local := Popped(l, k));
    PopReceiver(l, k, Answered(r), Delivered(env, r));
    forall n, j | 0 <= n < |r'.local.scripts| && 0 <= j < |r'.local.scripts[n]|
      ensures r'.local.scripts[n][j].Send?
    {
      assert r'.local.scripts[n][j] == if n == k then l.scripts[k][j + 1] else l.scripts[n][j];
    }
  }

  /** Every action of a script except the deletion itself touches status and scripts only. */
  lemma ActCalm(env: Env, r: Receiver, k: nat)
    requires ReceiverSide(env, r) && r.known && HasAction(r.local, k) && !r.local.scripts[k][0].DeleteTemps?
    ensures var r' := ReceiverAct(r.(local := Popped(r.local, k)), r.local.scripts[k][0]);
            r' == r.(local := r'.local) && Calm(r.local, r'.local, Delivered(env, r))
    ensures forall m :: m in Sent(r.local.scripts[k][0]) ==> ToSender(m, Answered(r), Delivered(env, r))
  {
    var a, l1, delivered := r.local.scripts[k][0], Popped(r.local, k), Delivered(env, r);
    PopReceiver(r.local, k, Answered(r), delivered);
    match a
    case Finish(success, error) => FinishCalm(l1, success, error, delivered);
    case CollectTemps =>
      PushReceiver(l1, [DeleteTemps(TempsToDelete(r.(local := l1)))], Answered(r), delivered);
    case Send(m) =>
  }

  lemma ReceiverScriptKeepsInv(env: Env, st: System, k: nat)
    requires Inv(env, st) && Enabled(env, st, ReceiverScript(k)) && st.r.known
    requires !st.r.local.scripts[k][0].DeleteTemps?
    ensures Inv(env, Apply(env, st, ReceiverScript(k)))
  {
    InvParts(env, st);
    ReceiverApplies(env, st, ReceiverScript(k));
    ActCalm(env, st.r, k);
    hide Inv, Apply, ReceiverSide, Channels, Walk, SentPos, RecvPos, Delivered, ToSender, Calm, ReceiverAct;
    var res := ReceiverStep(env, st, ReceiverScript(k));
    CalmReceiver(env, st, res.r.local, res.out);
  }

  lemma DeletionKeepsInv(env: Env, st: System, k: nat)
    requires Inv(env, st) && Enabled(env, st, ReceiverScript(k)) && st.r.known
    requires st.r.local.scripts[k][0].DeleteTemps?
    ensures Inv(env, Apply(env, st, ReceiverScript(k)))
  {
    InvParts(env, st);
    ReceiverApplies(env, st, ReceiverScript(k));
    DeletionSide(env, st.r, k);
    hide Inv, Apply, ReceiverSide, Channels, Walk, SentPos, RecvPos, Delivered, ToSender, ReceiverAct, KnownOk;
    ReceiverMoves(env, st, ReceiverStep(env, st, ReceiverScript(k)).r, 0, []);
  }

  lemma DeletionSide(env: Env, r: Receiver, k: nat)
    requires ReceiverSide(env, r) && r.known && HasAction(r.local, k) && r.local.scripts[k][0].DeleteTemps?
    ensures var r' := ReceiverAct(r.(local := Popped(r.local, k)), r.local.scripts[k][0]);
            ReceiverSide(env, r') && Grows(env, r, r') && RecvPos(r') == RecvPos(r) && Taking(r') == Taking(r)
  {
    var a, l1 := r.local.scripts[k][0], Popped(r.local, k);
    PopReceiver(r.local, k, Answered(r), Delivered(env, r));
    SideParts(env, r);
    CalmOk(env, r, l1);
    var r' := ReceiverAct(r.(local := l1), a);
    DeleteKeeps(env, r.(local := l1), r'.temp);
    hide FilesOk, HandlerOk, Delivered, ReceiverScripts, RecvPos;
    assert r' == r.(local := l1).(temp := r'.temp);
  }

  // ----- the io thread of the receiver

  /** Inside a handler the receiver's position in the stream does not move. */
  lemma HandlerStays(env: Env, r: Receiver, a: bool, b: bool)
    requires HandlerReady(r) && KnownOk(env, r) && Taking(r)
    ensures var r' := HandlerStep(env, r, a, b).r;
            Taking(r') ==> RecvPos(r') == RecvPos(r)
  {
    hide *;
    if r.handler.HRecord? {
      RecordStays(env, r, a, b);
    } else if r.handler.HMove? || r.handler.HPlace? || r.handler.HCopy? {
      PlacingStays(env, r, a, b);
    } else if r.handler.HWrite? || r.handler.HAccount? {
      DataStays(env, r, a, b);
    } else {
      OtherStays(env, r, a, b);
    }
  }

  lemma DataStays(env: Env, r: Receiver, a: bool, b: bool)
    requires HandlerReady(r) && KnownOk(env, r) && Taking(r) && (r.handler.HWrite? || r.handler.HAccount?)
    ensures var r' := HandlerStep(env, r, a, b).r;
            Taking(r') ==> RecvPos(r') == RecvPos(r)
  {
    hide FreshFile, Holds, TempPrefix, WriteAt;
  }

  lemma OtherStays(env: Env, r: Receiver, a: bool, b: bool)
    requires HandlerReady(r) && KnownOk(env, r) && Taking(r)
    requires r.handler.HAck? || r.handler.HFinalize? || r.handler.HReport? || r.handler.HEnd? || r.handler.HIdle?
    ensures var r' := HandlerStep(env, r, a, b).r;
            Taking(r') ==> RecvPos(r') == RecvPos(r)
  {
    hide FreshFile, Holds, TempPrefix;
  }

  lemma RecordStays(env: Env, r: Receiver, a: bool, b: bool)
    requires HandlerReady(r) && KnownOk(env, r) && r.handler.HRecord?
    ensures RecvPos(HandlerStep(env, r, a, b).r) == RecvPos(r)
  {
    hide CurrentFile, Holds, TempPrefix;
    var fi := r.handler.fi;
    if fi + 1 < |env.files| { assert FreshFile(r.files[fi + 1]); }
  }

  lemma PlacingStays(env: Env, r: Receiver, a: bool, b: bool)
    requires HandlerReady(r) && KnownOk(env, r) && (r.handler.HMove? || r.handler.HPlace? || r.handler.HCopy?)
    ensures var r' := HandlerStep(env, r, a, b).r;
            Taking(r') ==> RecvPos(r') == RecvPos(r)
  {
    hide CurrentFile, Holds, TempPrefix, FilesOk;
  }

  /** A CRC or SHA mismatch is impossible, and what a handler reports is true. */
  lemma HandlerReports(env: Env, r: Receiver, a: bool, b: bool)
    requires HandlerReady(r) && KnownOk(env, r) && ReceiverSide(env, r)
    ensures var res := HandlerStep(env, r, a, b);
            && (!r.handler.HEnd? ==> res.r.local == r.local)
            && (Delivered(env, r) ==> Delivered(env, res.r))
            && forall i :: 0 <= i < |res.out| ==> ToSender(res.out[i], Answered(r), Delivered(env, r))
  {
  }

  lemma HandlerSide(env: Env, r: Receiver, a: bool, b: bool)
    requires HandlerReady(r) && r.known && ReceiverSide(env, r)
    ensures var r' := HandlerStep(env, r, a, b).r;
            ReceiverSide(env, r') && Grows(env, r, r') && (Taking(r') ==> Taking(r))
  {
    var r' := HandlerStep(env, r, a, b).r;
    SideParts(env, r);
    HandlerKeeps(env, r, a, b);
    HandlerReports(env, r, a, b);
    HandlerTakes(env, r, a, b);
    if r.handler.HEnd? {
      FinishCalm(r.local, r.handler.success, r.handler.error, Delivered(env, r));
      EndOk(env, r);
    } else {
      RelaxReceiver(r.local, r.local, Answered(r), Answered(r'), Delivered(env, r), Delivered(env, r'));
    }
    hide HandlerStep, FilesOk, HandlerOk, Delivered, ReceiverScripts;
  }

  /** Only a handler that is not failing leaves one that is not. */
  lemma HandlerTakes(env: Env, r: Receiver, a: bool, b: bool)
    requires HandlerReady(r) && KnownOk(env, r) && (r.local.finished ==> Terminal(r.local.status))
    ensures Taking(HandlerStep(env, r, a, b).r) ==> Taking(r)
    ensures HandlerStep(env, r, a, b).r.known == r.known
    ensures r.handler.HEnd? ==>
              HandlerStep(env, r, a, b).r ==
                ReceiverAct(r.(handler := HIdle), Finish(r.handler.success, r.handler.error))
  {
    hide WriteAt, FilesOk, HandlerOk;
    if r.handler.HEnd? {
      hide ChunkWrite, ChunkAccount, FinalizeCheck, ClearDestination, PlaceFile, CopyFile, RecordFile;
    } else {
      hide ReceiverAct;
    }
  }

  lemma EndOk(env: Env, r: Receiver)
    requires KnownOk(env, r) && r.handler.HEnd?
    ensures !Integrity(r.handler.error) && (r.handler.success ==> Delivered(env, r))
  {
    hide FilesOk;
  }

  lemma HandlerKeepsInv(env: Env, st: System, a: bool, b: bool)
    requires Inv(env, st) && Enabled(env, st, HandlerMoves(a, b))
    ensures Inv(env, Apply(env, st, HandlerMoves(a, b)))
  {
    hide *;
    InvParts(env, st);
    HandlerApplies(env, st, a, b);
    HandlerIsKnown(env, st.r);
    var res := HandlerStep(env, st.r, a, b);
    HandlerSide(env, st.r, a, b);
    HandlerReports(env, st.r, a, b);
    HandlerOuts(env, st.r, res.r, res.out);
    if Taking(res.r) {
      HandlerStays(env, st.r, a, b);
    }
    ReceiverMoves(env, st, res.r, 0, res.out);
  }

  lemma HandlerIsKnown(env: Env, r: Receiver)
    requires ReceiverSide(env, r) && HandlerReady(r)
    ensures r.known
  {
  }

  lemma HandlerOuts(env: Env, r: Receiver, r': Receiver, out: seq<Msg>)
    requires Grows(env, r, r') && (forall i :: 0 <= i < |out| ==> ToSender(out[i], Answered(r), Delivered(env, r)))
    ensures forall i :: 0 <= i < |out| ==> ToSender(out[i], Answered(r'), Delivered(env, r'))
    ensures r.known ==> r'.known
  {
    hide Delivered;
  }

  lemma OfferKeepsInv(env: Env, st: System, safe: bool)
    requires Inv(env, st) && Enabled(env, st, ReceiverReceives(safe)) && st.toR[0].Offer?
    ensures Inv(env, Apply(env, st, ReceiverReceives(safe)))
  {
    hide SenderSide;
    var r' := ReceiverStep(env, st, ReceiverReceives(safe)).r;
    assert ToReceiver(env, st.toR[0], Answered(st.r));
    assert Advance(env, RecvPos(st.r), st.toR[0]) == Some(RecvPos(st.r));
    PushReceiver(st.r.local, [Send(Response(false))], Answered(st.r), Delivered(env, st.r));
    RelaxReceiver(st.r.local, st.r.local, Answered(st.r), Answered(r'), Delivered(env, st.r),
                  Delivered(env, r') || !safe);
    ReceiverMoves(env, st, r', 1, []);
  }

  /** A chunk that continues the stream passes every check of on_chunk. */
  lemma ChunkFitsStream(env: Env, r: Receiver, m: Msg)
    requires KnownOk(env, r) && r.handler.HIdle? && m.Chunk?
    requires r.local.status.InProgress? || r.local.status.Paused?
    requires Advance(env, RecvPos(r), m).Some?
    ensures var r' := ChunkArrives(r, m.fi, m.off, m.data, m.crc);
            && r' == r.(handler := HWrite(m.fi, m.off, m.data, m.crc)) && KnownOk(env, r')
            && Delivered(env, r') == Delivered(env, r)
            && Advance(env, RecvPos(r), m) == Some(RecvPos(r'))
  {
    var r' := r.(handler := HWrite(m.fi, m.off, m.data, m.crc));
    ChunkAccepted(env, r, m);
    HandlerFilesOk(env, r, r'.handler);
    hide FilesOk, Crc32.Checksum, ChunkArrives, ChunkFits;
    assert ChunkFits(env, r', m.fi, m.data) by { SameChunkFits(env, r, r', m.fi, m.data); }
    assert Delivered(env, r') == Delivered(env, r);
  }

  lemma SameChunkFits(env: Env, r: Receiver, r': Receiver, fi: nat, data: seq<Byte>)
    requires r'.recvFile == r.recvFile && r'.files == r.files && ChunkFits(env, r, fi, data)
    ensures ChunkFits(env, r', fi, data)
  {
  }

  /** The chunk that the stream expects passes every check. */
  lemma ChunkAccepted(env: Env, r: Receiver, m: Msg)
    requires KnownOk(env, r) && r.handler.HIdle? && m.Chunk?
    requires r.local.status.InProgress? || r.local.status.Paused?
    requires Advance(env, RecvPos(r), m).Some?
    ensures ChunkArrives(r, m.fi, m.off, m.data, m.crc) == r.(handler := HWrite(m.fi, m.off, m.data, m.crc))
    ensures ChunkFits(env, r, m.fi, m.data) && m.off == r.files[m.fi].received && m.crc == Crc32.Checksum(m.data)
    ensures Advance(env, RecvPos(r), m) == Some(Pos(m.fi, m.off + |m.data|))
  {
    hide Crc32.Checksum, FreshFile, TempPrefix, CurrentFile, Delivered;
  }

  /** An end marker that continues the stream finds its file complete. */
  lemma EndFitsStream(env: Env, r: Receiver, m: Msg)
    requires KnownOk(env, r) && r.handler.HIdle? && m.FileEnd? && !Terminal(r.local.status)
    requires Advance(env, RecvPos(r), m).Some?
    ensures var r' := FileEndArrives(env, r, m.fi, m.sha);
            && KnownOk(env, r') && r'.local == r.local && Delivered(env, r') == Delivered(env, r)
            && Advance(env, RecvPos(r), m) == Some(RecvPos(r'))
  {
    var r' := FileEndArrives(env, r, m.fi, m.sha);
    if |env.files[m.fi]| == 0 { assert env.files[m.fi] == []; }
    assert Delivered(env, r') == Delivered(env, r);
  }

  lemma DataKeepsInv(env: Env, st: System, safe: bool)
    requires Inv(env, st) && Enabled(env, st, ReceiverReceives(safe)) && (st.toR[0].Chunk? || st.toR[0].FileEnd?)
    ensures Inv(env, Apply(env, st, ReceiverReceives(safe)))
  {
    hide *;
    InvParts(env, st);
    ReceivesApplies(env, st, safe);
    DataIsAwaited(env, st);
    var r, m := st.r, st.toR[0];
    if Terminal(r.local.status) {
      TerminalDrops(env, r, m);
      StillGrows(env, r);
    } else {
      DataSide(env, st, safe);
    }
    ReceiverMoves(env, st, ReceiverHandle(env, r, m, safe), 1, []);
  }

  /** Data messages come after the answer, and in a live receiver they continue its stream. */
  lemma DataIsAwaited(env: Env, st: System)
    requires Inv(env, st) && st.toR != [] && (st.toR[0].Chunk? || st.toR[0].FileEnd?)
    ensures Answered(st.r) && st.r.known && st.connected
    ensures Taking(st.r) || Terminal(st.r.local.status) || !st.r.handler.HIdle?
    ensures Taking(st.r) ==> Advance(env, RecvPos(st.r), st.toR[0]).Some?
    ensures Taking(st.r) ==>
              Walk(env, st.toR[1..], Advance(env, RecvPos(st.r), st.toR[0]).value) ==
                Some(SentPos(env, st.s, Owner(st.workers)))
  {
    hide SenderSide, ReceiverSide, RecvPos, SentPos, Advance, Delivered;
    assert ToReceiver(env, st.toR[0], Answered(st.r));
  }

  lemma StillGrows(env: Env, r: Receiver)
    ensures Grows(env, r, r) && (Terminal(r.local.status) ==> !Taking(r))
  {
  }

  lemma DataSide(env: Env, st: System, safe: bool)
    requires ReceiverSide(env, st.r) && Answered(st.r) && KnownOk(env, st.r) && st.r.handler.HIdle? && st.toR != []
    requires (st.toR[0].Chunk? || st.toR[0].FileEnd?) && !Terminal(st.r.local.status)
    requires Advance(env, RecvPos(st.r), st.toR[0]).Some?
    ensures var r' := ReceiverHandle(env, st.r, st.toR[0], safe);
            && ReceiverSide(env, r') && Grows(env, st.r, r') && Taking(st.r)
            && Advance(env, RecvPos(st.r), st.toR[0]) == Some(RecvPos(r'))
  {
    var r, m := st.r, st.toR[0];
    SideParts(env, r);
    hide FilesOk, HandlerOk, RecvPos, Delivered, ChunkArrives, FileEndArrives, Advance, ReceiverScripts;
    if m.Chunk? { ChunkFitsStream(env, r, m); } else { EndFitsStream(env, r, m); }
  }

  lemma TerminalDrops(env: Env, r: Receiver, m: Msg)
    requires Terminal(r.local.status) && r.known && (m.Chunk? || m.FileEnd?)
    ensures forall safe :: ReceiverHandle(env, r, m, safe) == r
  {
  }

  lemma ControlMessageKeepsInv(env: Env, st: System, safe: bool)
    requires Inv(env, st) && Enabled(env, st, ReceiverReceives(safe)) && (st.toR[0].Complete? || st.toR[0].Ctl?)
    ensures Inv(env, Apply(env, st, ReceiverReceives(safe)))
  {
    hide *;
    InvParts(env, st);
    ReceivesApplies(env, st, safe);
    ControlPasses(env, st);
    var r, m := st.r, st.toR[0];
    var r' := ReceiverHandle(env, r, m, safe);
    if r.known {
      MessageCalm(env, r, m, safe);
      CalmFacts(r.local, r'.local, Delivered(env, r));
      CalmOk(env, r, r'.local);
      CalmSide(env, r, r'.local);
      CalmTakes(r, r'.local, Delivered(env, r));
    } else {
      UnknownDrops(env, r, m, safe);
      StillGrows(env, r);
    }
    ReceiverMoves(env, st, r', 1, []);
  }

  lemma CalmTakes(r: Receiver, l': Local, delivered: bool)
    requires Calm(r.local, l', delivered)
    ensures Taking(r.(local := l')) ==> Taking(r)
  {
    hide ReceiverScripts;
  }

  /** A control message leaves the stream where it is. */
  lemma ControlPasses(env: Env, st: System)
    requires Inv(env, st) && st.toR != [] && (st.toR[0].Complete? || st.toR[0].Ctl?)
    ensures ToReceiver(env, st.toR[0], Answered(st.r))
    ensures st.connected && Taking(st.r) ==>
              Walk(env, st.toR[1..], RecvPos(st.r)) == Some(SentPos(env, st.s, Owner(st.workers)))
  {
    hide SenderSide, ReceiverSide, RecvPos, SentPos, Delivered, ToReceiver;
  }

  lemma UnknownDrops(env: Env, r: Receiver, m: Msg, safe: bool)
    requires !r.known && !m.Offer?
    ensures ReceiverHandle(env, r, m, safe) == r
  {
  }

  lemma MessageCalm(env: Env, r: Receiver, m: Msg, safe: bool)
    requires ReceiverSide(env, r) && r.known && (m.Complete? || m.Ctl?) && ToReceiver(env, m, Answered(r))
    ensures var r' := ReceiverHandle(env, r, m, safe);
            r' == r.(local := r'.local) && Calm(r.local, r'.local, Delivered(env, r))
  {
    ReceiverControlsCalm(r.local, Delivered(env, r));
    match m
    case Complete(success, error) =>
      PushReceiver(r.local, [Finish(success, if success then NoError else error)], Answered(r), Delivered(env, r));
    case Ctl(_) =>
      RelaxReceiver(r.local, r.local.(status := InProgress), Answered(r), true, Delivered(env, r), Delivered(env, r));
  }

  lemma ReceivesKeepsInv(env: Env, st: System, safe: bool)
    requires Inv(env, st) && Enabled(env, st, ReceiverReceives(safe))
    ensures Inv(env, Apply(env, st, ReceiverReceives(safe)))
  {
    HeadIsData(env, st);
    hide Inv, Apply;
    if st.toR[0].Offer? {
      OfferKeepsInv(env, st, safe);
    } else if st.toR[0].Chunk? || st.toR[0].FileEnd? {
      DataKeepsInv(env, st, safe);
    } else {
      ControlMessageKeepsInv(env, st, safe);
    }
  }

  lemma HeadIsData(env: Env, st: System)
    requires Inv(env, st) && st.toR != []
    ensures st.toR[0].Offer? || st.toR[0].Chunk? || st.toR[0].FileEnd? || st.toR[0].Complete? || st.toR[0].Ctl?
  {
    hide SenderSide, ReceiverSide, InStep, Delivered;
    assert ToReceiver(env, st.toR[0], Answered(st.r));
  }

  lemma ScriptKeepsInv(env: Env, st: System, k: nat)
    requires Inv(env, st) && Enabled(env, st, ReceiverScript(k))
    ensures Inv(env, Apply(env, st, ReceiverScript(k)))
  {
    hide Inv, Apply;
    if !st.r.known {
      UnknownScript(env, st, k);
    } else if st.r.local.scripts[k][0].DeleteTemps? {
      DeletionKeepsInv(env, st, k);
    } else {
      ReceiverScriptKeepsInv(env, st, k);
    }
  }

  /** Where a step belongs. */
  lemma Places(step: Step)
    ensures step.ReceiverScript? || step.HandlerMoves? || step.ReceiverReceives? || Controls(step)
         || step.SenderScript? || AtSender(step) || step.Dequeue? || step.Claim? || step.Work? || step.Disconnect?
  {
  }

  lemma StepKeepsInv(env: Env, st: System, step: Step)
    requires Inv(env, st) && Enabled(env, st, step)
    ensures Inv(env, Apply(env, st, step))
  {
    hide *;
    Places(step);
    if step.Dequeue? || step.Claim? {
      PoolKeepsInv(env, st, step);
    } else if step.Work? {
      WorkKeepsInv(env, st, step.i, step.read, step.sent);
    } else if step.SenderScript? {
      SenderScriptKeepsInv(env, st, step.k);
    } else if step.ReceiverScript? {
      ScriptKeepsInv(env, st, step.k);
    } else if step.HandlerMoves? {
      HandlerKeepsInv(env, st, step.a, step.b);
    } else if step.ReceiverReceives? {
      ReceivesKeepsInv(env, st, step.safe);
    } else if step.Disconnect? {
      DisconnectKeepsInv(env, st);
    } else if Controls(step) {
      ReceiverControlKeepsInv(env, st, step);
    } else {
      SenderThreadKeepsInv(env, st, step);
    }
  }

  lemma DisconnectKeepsInv(env: Env, st: System)
    requires Inv(env, st) && Enabled(env, st, Disconnect)
    ensures Inv(env, Apply(env, st, Disconnect))
  {
    hide SenderSide, ReceiverSide, Walk;
  }

  lemma {:induction false} RunInv(env: Env, run: seq<System>, n: nat)
    requires Run(env, run) && n < |run|
    ensures Inv(env, run[n])
  {
    hide Inv, Apply, Init;
    if n == 0 {
      InitInv(env, run[0]);
    } else {
      RunInv(env, run, n - 1);
      assert Next(env, run[n - 1], run[n - 1 + 1]);
      var step :| Enabled(env, run[n - 1], step) && run[n] == Apply(env, run[n - 1], step);
      StepKeepsInv(env, run[n - 1], step);
    }
  }
}
