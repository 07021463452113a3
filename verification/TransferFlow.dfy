/** Backpressure: how far the sender may run ahead, and why waiting for it never deadlocks. */
module TransferFlow {
  import opened TransferModel
  import opened TransferWorkers
  import opened TransferStream

  /** Payload bytes in a channel. */
  function InFlight(ms: seq<Msg>): nat {
    if ms == [] then 0 else (if ms[0].Chunk? then |ms[0].data| else 0) + InFlight(ms[1..])
  }

  lemma {:induction false} InFlightAppend(ms: seq<Msg>, m: Msg)
    ensures InFlight(ms + [m]) == InFlight(ms) + (if m.Chunk? then |m.data| else 0)
  {
    if ms == [] {
      assert (ms + [m])[1..] == [];
    } else {
      InFlightAppend(ms[1..], m);
      assert (ms + [m])[1..] == ms[1..] + [m];
    }
  }

  /** Payload bytes put on the wire so far, accounted for or not. */
  function OnWire(s: Sender, w: Worker): nat {
    s.bytesDone + (if w.Accounting? then |w.data| else 0)
  }

  /** Payload bytes of the chunk the receiver is working on. */
  function InHand(h: Handler): nat {
    match h
    case HWrite(_, _, data, _) => |data|
    case HAccount(_, data) => |data|
    case _ => 0
  }

  // ----- acknowledgements

  /** No byte is invented, and none is lost while the receiver takes chunks. */
  predicate Conserved(st: System) {
    var got := st.r.bytesDone + InHand(st.r.handler) + InFlight(st.toR);
    var put := OnWire(st.s, Owner(st.workers));
    got <= put && (st.connected && Taking(st.r) ==> got == put)
  }

  predicate AcksOk(env: Env, s: Sender, r: Receiver, toS: seq<Msg>, connected: bool) {
    && s.acked <= r.lastAck <= r.bytesDone
    && r.bytesDone - r.lastAck < Max(1, AckInterval(env.cfg))
    && (forall i :: 0 <= i < |toS| && toS[i].Progress? ==> toS[i].received <= r.lastAck)
    && (r.handler.HAck? ==> r.handler.bytes == r.lastAck)
    && (connected ==> s.acked == r.lastAck || r.handler.HAck? || Progress(r.lastAck) in toS)
  }

  // ----- the window

  function Allowance(env: Env, k: int): int {
    env.cfg.windowBytes + k * env.cfg.chunkSize
  }

  /** One chunk is sent without a window check per resume. */
  predicate WindowOk(env: Env, s: Sender, w: Worker) {
    var k: int := s.resumes - (if s.local.status.Resuming? then 1 else 0);
    && k >= 0
    && OnWire(s, w) < s.acked + Allowance(env, k + 1)
    && (w.Sending? ==> s.bytesDone < s.acked + Allowance(env, k))
    && (s.local.status.InProgress? && Checked(w) ==>
          s.bytesDone < s.acked + Allowance(env, k))
    && (s.local.status.Starting? ==> s.bytesDone == 0 && (w.Idle? || w.Top? || w.Leaving?))
  }

  predicate Flow(env: Env, st: System) {
    && Conserved(st)
    && AcksOk(env, st.s, st.r, st.toS, st.connected)
    && WindowOk(env, st.s, Owner(st.workers))
  }

  lemma InitFlow(env: Env, st: System)
    requires ValidEnv(env) && Init(env, st)
    ensures Flow(env, st)
  {
    NoneIdle(st.workers);
    assert InFlight(st.toR[1..]) == 0;
  }

  // ----- steps of the sender

  lemma AllowanceGrows(env: Env, k: int)
    ensures Allowance(env, k + 1) == Allowance(env, k) + env.cfg.chunkSize
  {
    assert (k + 1) * env.cfg.chunkSize == k * env.cfg.chunkSize + env.cfg.chunkSize;
  }

  lemma AllowanceBase(env: Env, k: nat)
    ensures Allowance(env, k) >= env.cfg.windowBytes
  {
    assert 0 <= k * env.cfg.chunkSize;
  }

  /** Positions between a window check and the next chunk. */
  predicate Checked(w: Worker) {
    w.Idle? || w.Top? || w.Leaving? || w.Awaiting? || w.EmptyEnd?
  }

  /** What a worker step does to the counters. */
  lemma WorkerShape(env: Env, s: Sender, w: Worker, read: bool, sent: bool)
    requires ValidEnv(env) && Streaming(w) && WorkerReady(env, s, w) && SenderOk(env, s, w)
    ensures var res := WorkerStep(env, s, w, read, sent);
            && (res.w.Idle? || Streaming(res.w))
            && res.s.acked == s.acked && res.s.resumes == s.resumes
            && OnWire(res.s, res.w) == OnWire(s, w) + InFlight(res.out)
            && InFlight(res.out) <= (if w.Sending? then env.cfg.chunkSize else 0)
            && res.s.bytesDone == (if w.Accounting? then OnWire(s, w) else s.bytesDone)
            && (res.s.local.status == s.local.status
                || (w.Top? && s.local.status.Resuming? && res.s.local.status.InProgress?))
            && (res.w.Sending? ==> w.Top? && res.s.local.status.InProgress?)
            && (Checked(res.w) ==> Checked(w) || w.Sending? || w.Window?)
            && (Checked(res.w) && w.Sending? ==> InFlight(res.out) == 0)
            && (s.local.status.Starting? && Checked(w) && !w.Awaiting? && !w.EmptyEnd? ==>
                res.w.Leaving? || res.w.Idle?)
  {
    if w.Sending? { SendingShape(env, s, w.fi, w.off, read, sent); }
    else {
      hide SenderOk, WorkerSend, OnWire, InFlight;
      WorkerCounts(env, s, w, read, sent);
    }
  }

  lemma WorkerCounts(env: Env, s: Sender, w: Worker, read: bool, sent: bool)
    requires ValidEnv(env) && Streaming(w) && WorkerReady(env, s, w) && SenderOk(env, s, w) && !w.Sending?
    ensures var res := WorkerStep(env, s, w, read, sent);
            && OnWire(res.s, res.w) == OnWire(s, w) + InFlight(res.out)
            && InFlight(res.out) == 0
            && res.s.bytesDone == (if w.Accounting? then OnWire(s, w) else s.bytesDone)
  {
    hide SenderOk, WorkerSend;
  }

  lemma SendingShape(env: Env, s: Sender, fi: nat, off: nat, read: bool, sent: bool)
    requires ValidEnv(env) && SenderOk(env, s, Sending(fi, off))
    ensures var res := WorkerSend(env, s, fi, off, read, sent);
            && res.s == s.(local := res.s.local) && res.s.local.status == s.local.status
            && OnWire(res.s, res.w) == s.bytesDone + InFlight(res.out)
            && InFlight(res.out) <= env.cfg.chunkSize
            && (res.w.Accounting? || (InFlight(res.out) == 0 && (res.w.EmptyEnd? || res.w.Leaving?)))
  {
  }

  lemma WorkerFlow(env: Env, s: Sender, w: Worker, read: bool, sent: bool)
    requires ValidEnv(env) && Streaming(w) && WorkerReady(env, s, w) && SenderOk(env, s, w) && WindowOk(env, s, w)
    ensures var res := WorkerStep(env, s, w, read, sent);
            && WindowOk(env, res.s, if Streaming(res.w) then res.w else Idle)
            && res.s.acked == s.acked
            && OnWire(res.s, res.w) == OnWire(s, w) + InFlight(res.out)
  {
    hide Allowance, WorkerStep, SenderOk;
    var k: int := s.resumes - (if s.local.status.Resuming? then 1 else 0);
    AllowanceGrows(env, k);
    AllowanceGrows(env, k + 1);
    AllowanceBase(env, k);
    WorkerShape(env, s, w, read, sent);
  }

  lemma WorkKeepsFlow(env: Env, st: System, i: nat, read: bool, sent: bool)
    requires Inv(env, st) && Flow(env, st) && Enabled(env, st, Work(i, read, sent))
    ensures Flow(env, Apply(env, st, Work(i, read, sent)))
  {
    WorkFacts(env, st, i, read, sent);
    WorkApplies(env, st, i, read, sent);
    var w := st.workers[i];
    var res := WorkerStep(env, st.s, w, read, sent);
    WorkerFlow(env, st.s, w, read, sent);
    WorkerSendsWhenConnected(env, st.s, w, read, sent);
    AcksStay(env, st.s, res.s, st.r, st.toS, st.connected);
    SentInFlight(st, res.out);
    hide Inv, WorkerStep, WindowOk, Enabled, Apply, AcksOk, InFlight, Owner, Taking, Wire, SenderOk, WorkerReady,
         InHand;
  }

  /** The worker that moves is the owner, before and after. */
  lemma WorkFacts(env: Env, st: System, i: nat, read: bool, sent: bool)
    requires Inv(env, st) && Enabled(env, st, Work(i, read, sent))
    ensures ValidEnv(env) && i < |st.workers| && Streaming(st.workers[i]) && WorkerReady(env, st.s, st.workers[i])
    ensures Owner(st.workers) == st.workers[i] && SenderOk(env, st.s, st.workers[i]) && (sent ==> st.connected)
    ensures var res := WorkerStep(env, st.s, st.workers[i], read, sent);
            Owner(st.workers[i := res.w]) == (if Streaming(res.w) then res.w else Idle) && |res.out| <= 1
  {
    hide WorkerStep, ReceiverSide, Channels, InStep, SenderOk, SenderScripts, OutcomeOk;
    var w := st.workers[i];
    OwnerStreams(st.workers, i);
    WorkerEmits(env, st.s, w, read, sent);
    OwnerMoves(st.workers, i, WorkerStep(env, st.s, w, read, sent).w);
  }

  lemma WorkApplies(env: Env, st: System, i: nat, read: bool, sent: bool)
    requires Enabled(env, st, Work(i, read, sent))
    ensures var res := WorkerStep(env, st.s, st.workers[i], read, sent);
            Apply(env, st, Work(i, read, sent))
            == st.(s := res.s, workers := st.workers[i := res.w], toR := Wire(st, st.toR, res.out))
  {
    hide WorkerStep, WorkerReady, Wire;
  }

  lemma SentInFlight(st: System, out: seq<Msg>)
    requires |out| <= 1
    ensures InFlight(Wire(st, st.toR, out)) == InFlight(st.toR) + (if st.connected then InFlight(out) else 0)
    ensures out == [] ==> InFlight(out) == 0
  {
    hide InFlight;
    NothingInFlight();
    if |out| == 1 {
      assert out == [out[0]];
      InFlightOne(out[0]);
      InFlightAppend(st.toR, out[0]);
    } else {
      assert st.toR + out == st.toR;
    }
  }

  lemma NothingInFlight()
    ensures InFlight([]) == 0
  {
  }

  lemma InFlightOne(m: Msg)
    ensures InFlight([m]) == if m.Chunk? then |m.data| else 0
  {
    assert [m][1..] == [];
  }

  lemma AcksStay(env: Env, s: Sender, s': Sender, r: Receiver, toS: seq<Msg>, connected: bool)
    requires AcksOk(env, s, r, toS, connected) && s'.acked == s.acked
    ensures AcksOk(env, s', r, toS, connected)
  {
  }

  lemma WorkerSendsWhenConnected(env: Env, s: Sender, w: Worker, read: bool, sent: bool)
    requires Streaming(w) && WorkerReady(env, s, w)
    ensures !sent ==> InFlight(WorkerStep(env, s, w, read, sent).out) == 0
  {
  }

  /** Control threads of the sender move neither bytes nor workers. */
  lemma ControlsKeepWindow(env: Env, s: Sender, s': Sender, w: Worker)
    requires ValidEnv(env) && WindowOk(env, s, w)
    requires s'.bytesDone == s.bytesDone && s'.acked >= s.acked
    requires s'.resumes == s.resumes + (if s'.local.status.Resuming? && !s.local.status.Resuming? then 1 else 0)
    requires s'.local.status.InProgress? ==> s.local.status.InProgress? || s.local.status.Starting?
    requires s'.local.status.Starting? ==> s.local.status.Starting?
    ensures WindowOk(env, s', w)
  {
    hide Allowance;
    var k: int := s.resumes - (if s.local.status.Resuming? then 1 else 0);
    AllowanceGrows(env, k);
    AllowanceGrows(env, k + 1);
    AllowanceBase(env, k);
  }

  lemma SenderStepShape(env: Env, st: System, step: Step)
    requires Enabled(env, st, step) && AtSender(step)
    ensures var s, s' := st.s, SenderStep(env, st, step);
            && s'.bytesDone == s.bytesDone
            && s'.acked == (if step.SenderReceives? && st.toS[0].Progress? then Max(s.acked, st.toS[0].received)
                            else s.acked)
            && s'.resumes == s.resumes + (if s'.local.status.Resuming? && !s.local.status.Resuming? then 1 else 0)
            && (s'.local.status.InProgress? ==> s.local.status.InProgress? || s.local.status.Starting?)
            && (s'.local.status.Starting? ==> s.local.status.Starting?)
  {
  }

  lemma SenderKeepsFlow(env: Env, st: System, step: Step)
    requires Inv(env, st) && Flow(env, st) && Enabled(env, st, step) && AtSender(step)
    ensures Flow(env, Apply(env, st, step))
  {
    SenderStepShape(env, st, step);
    SenderFlowApplies(env, st, step);
    hide Inv, Enabled, Apply, WindowOk, SenderStep, InFlight, AtSender, Owner, Taking;
    var s' := SenderStep(env, st, step);
    ValidAlways(env, st);
    ControlsKeepWindow(env, st.s, s', Owner(st.workers));
    if step.SenderReceives? {
      AckTaken(env, st.s, s', st.r, st.toS, st.connected);
    }
  }

  lemma ValidAlways(env: Env, st: System)
    requires Inv(env, st)
    ensures ValidEnv(env)
  {
    hide SenderSide, ReceiverSide, Channels, InStep;
  }

  /** A step of the sender's threads puts no payload on the wire. */
  lemma SenderFlowApplies(env: Env, st: System, step: Step)
    requires Inv(env, st) && Enabled(env, st, step) && AtSender(step)
    ensures step.SenderReceives? ==> st.toS != []
    ensures var st' := Apply(env, st, step);
            && st' == st.(s := SenderStep(env, st, step), toS := st'.toS, toR := st'.toR)
            && st'.toS == (if step.SenderReceives? then st.toS[1..] else st.toS)
            && InFlight(st'.toR) == InFlight(st.toR)
  {
    hide SenderStep, ReceiverSide, Channels, InStep, Delivered, SenderOk, OneOwner, OutcomeOk, InFlight;
    if step.SenderScript? { ScriptSendsNoData(env, st, step.k); }
  }

  lemma ScriptSendsNoData(env: Env, st: System, k: nat)
    requires Inv(env, st) && Enabled(env, st, SenderScript(k))
    ensures InFlight(Apply(env, st, SenderScript(k)).toR) == InFlight(st.toR)
  {
    hide SenderStep, ReceiverSide, Channels, InStep, Delivered, SenderOk, OneOwner, OutcomeOk, InFlight;
    var a := st.s.local.scripts[k][0];
    assert SenderAction(a, Answered(st.r), Delivered(env, st.r));
    if a.Send? { InFlightAppend(st.toR, a.m); }
    assert st.toR + [] == st.toR;
  }

  /** Taking a message from the channel keeps the acks in order. */
  lemma AckTaken(env: Env, s: Sender, s': Sender, r: Receiver, toS: seq<Msg>, connected: bool)
    requires AcksOk(env, s, r, toS, connected) && toS != []
    requires s'.acked == if toS[0].Progress? then Max(s.acked, toS[0].received) else s.acked
    ensures AcksOk(env, s', r, toS[1..], connected)
  {
    assert forall m :: m in toS ==> m == toS[0] || m in toS[1..];
  }

  // ----- steps of the receiver

  /** What a handler step does to the counters and acknowledgements. */
  predicate HandlerMoved(env: Env, r: Receiver, res: HandlerResult) {
    && res.r.bytesDone + InHand(res.r.handler) <= r.bytesDone + InHand(r.handler)
    && (Taking(res.r) ==> res.r.bytesDone + InHand(res.r.handler) == r.bytesDone + InHand(r.handler))
    && r.lastAck <= res.r.lastAck <= res.r.bytesDone
    && res.r.bytesDone - res.r.lastAck < Max(1, AckInterval(env.cfg))
    && (res.r.handler.HAck? ==> res.r.handler.bytes == res.r.lastAck)
    && (res.r.lastAck != r.lastAck ==> res.r.handler.HAck?)
    && (r.handler.HAck? ==> res.out == [Progress(r.handler.bytes)] && res.r.lastAck == r.lastAck)
    && (forall i :: 0 <= i < |res.out| && res.out[i].Progress? ==>
        r.handler.HAck? && res.out[i].received == r.handler.bytes)
  }

  lemma HandlerFlow(env: Env, r: Receiver, a: bool, b: bool)
    requires HandlerReady(r)
    requires r.lastAck <= r.bytesDone && r.bytesDone - r.lastAck < Max(1, AckInterval(env.cfg))
    ensures HandlerMoved(env, r, HandlerStep(env, r, a, b))
  {
    hide HandlerMoved, HandlerStep;
    if r.handler.HWrite? || r.handler.HAccount? {
      DataFlow(env, r, a, b);
    } else {
      OtherFlow(env, r, a, b);
    }
  }

  lemma DataFlow(env: Env, r: Receiver, a: bool, b: bool)
    requires HandlerReady(r) && (r.handler.HWrite? || r.handler.HAccount?)
    requires r.lastAck <= r.bytesDone && r.bytesDone - r.lastAck < Max(1, AckInterval(env.cfg))
    ensures HandlerMoved(env, r, HandlerStep(env, r, a, b))
  {
  }

  lemma OtherFlow(env: Env, r: Receiver, a: bool, b: bool)
    requires HandlerReady(r) && !r.handler.HWrite? && !r.handler.HAccount?
    requires r.lastAck <= r.bytesDone && r.bytesDone - r.lastAck < Max(1, AckInterval(env.cfg))
    ensures HandlerMoved(env, r, HandlerStep(env, r, a, b))
  {
    if r.handler.HReport? || r.handler.HEnd? || r.handler.HAck? {
      ReportFlow(env, r, a, b);
    } else {
      FinalizingFlow(env, r, a, b);
    }
  }

  lemma ReportFlow(env: Env, r: Receiver, a: bool, b: bool)
    requires HandlerReady(r) && (r.handler.HReport? || r.handler.HEnd? || r.handler.HAck?)
    requires r.lastAck <= r.bytesDone && r.bytesDone - r.lastAck < Max(1, AckInterval(env.cfg))
    ensures HandlerMoved(env, r, HandlerStep(env, r, a, b))
  {
    hide AckInterval, TempsToDelete, ChunkWrite, ChunkAccount;
    hide FinalizeCheck, ClearDestination, PlaceFile, CopyFile, RecordFile;
  }

  lemma FinalizingFlow(env: Env, r: Receiver, a: bool, b: bool)
    requires HandlerReady(r) && !r.handler.HWrite? && !r.handler.HAccount?
    requires !r.handler.HReport? && !r.handler.HEnd? && !r.handler.HAck?
    requires r.lastAck <= r.bytesDone && r.bytesDone - r.lastAck < Max(1, AckInterval(env.cfg))
    ensures HandlerMoved(env, r, HandlerStep(env, r, a, b))
  {
    hide AckInterval, TempsToDelete, ChunkWrite, ChunkAccount, ReceiverAct;
  }

  lemma HandlerKeepsFlow(env: Env, st: System, a: bool, b: bool)
    requires Inv(env, st) && Flow(env, st) && Enabled(env, st, HandlerMoves(a, b))
    ensures Flow(env, Apply(env, st, HandlerMoves(a, b)))
  {
    HandlerApplies(env, st, a, b);
    hide Apply, Enabled, HandlerStep, Inv, WindowOk, InFlight, OnWire, Owner, AckInterval, AcksOk, HandlerMoved,
         HandlerReady;
    InvParts(env, st);
    HandlerIsKnown(env, st.r);
    HandlerSide(env, st.r, a, b);
    var res := HandlerStep(env, st.r, a, b);
    AcksBound(env, st.s, st.r, st.toS, st.connected);
    HandlerFlow(env, st.r, a, b);
    HandlerAcks(env, st, res);
    HandlerConserves(env, st.r, res);
  }

  lemma AcksBound(env: Env, s: Sender, r: Receiver, toS: seq<Msg>, connected: bool)
    requires AcksOk(env, s, r, toS, connected)
    ensures r.lastAck <= r.bytesDone && r.bytesDone - r.lastAck < Max(1, AckInterval(env.cfg))
  {
    hide AckInterval;
  }

  lemma HandlerAcks(env: Env, st: System, res: HandlerResult)
    requires AcksOk(env, st.s, st.r, st.toS, st.connected) && HandlerMoved(env, st.r, res)
    ensures AcksOk(env, st.s, res.r, Wire(st, st.toS, res.out), st.connected)
  {
    hide AckInterval, InHand, Taking;
  }

  lemma HandlerConserves(env: Env, r: Receiver, res: HandlerResult)
    requires HandlerMoved(env, r, res)
    ensures res.r.bytesDone + InHand(res.r.handler) <= r.bytesDone + InHand(r.handler)
    ensures Taking(res.r) ==> res.r.bytesDone + InHand(res.r.handler) == r.bytesDone + InHand(r.handler)
  {
    hide AckInterval, InHand, Taking;
  }

  lemma ReceiverQuiet(env: Env, st: System, step: Step)
    requires Enabled(env, st, step) && AtReceiver(step) && !step.HandlerMoves? && !step.ReceiverReceives?
    ensures var res := ReceiverStep(env, st, step);
            && res.r.bytesDone == st.r.bytesDone && res.r.lastAck == st.r.lastAck && res.r.handler == st.r.handler
            && (Terminal(st.r.local.status) ==> Terminal(res.r.local.status))
  {
  }

  lemma ReceiverKeepsFlow(env: Env, st: System, step: Step)
    requires Inv(env, st) && Flow(env, st) && Enabled(env, st, step)
    requires AtReceiver(step) && !step.HandlerMoves? && !step.ReceiverReceives?
    ensures Flow(env, Apply(env, st, step))
  {
    hide ReceiverStep, SenderSide, InStep, WindowOk;
    ReceiverQuiet(env, st, step);
    QuietSends(env, st, step);
  }

  lemma QuietSends(env: Env, st: System, step: Step)
    requires Inv(env, st) && Enabled(env, st, step)
    requires AtReceiver(step) && !step.HandlerMoves? && !step.ReceiverReceives?
    ensures forall m :: m in ReceiverStep(env, st, step).out ==> !m.Progress?
  {
    hide SenderSide, InStep, Channels, ReceiverOk, OutcomeOk;
    if step.ReceiverScript? {
      var a := st.r.local.scripts[step.k][0];
      assert ReceiverAction(a, Answered(st.r), Delivered(env, st.r), st.r.local.finished);
    }
  }

  lemma MessageFlow(env: Env, r: Receiver, m: Msg, safe: bool)
    requires ReceiverOk(env, r) && r.handler.HIdle? && ToReceiver(env, m, Answered(r))
    requires Taking(r) ==> Advance(env, RecvPos(r), m).Some?
    ensures var r' := ReceiverHandle(env, r, m, safe);
            var n := if m.Chunk? then |m.data| else 0;
            && r'.bytesDone == r.bytesDone && r'.lastAck == r.lastAck && !r'.handler.HAck?
            && InHand(r'.handler) <= n
            && (Taking(r') ==> Taking(r))
            && (Taking(r') && m.Chunk? ==> InHand(r'.handler) == n)
  {
    if m.Chunk? && Taking(r) { ChunkFitsStream(env, r, m); }
  }

  lemma ReceivesKeepsFlow(env: Env, st: System, safe: bool)
    requires Inv(env, st) && Flow(env, st) && Enabled(env, st, ReceiverReceives(safe))
    ensures Flow(env, Apply(env, st, ReceiverReceives(safe)))
  {
    hide SenderSide, ReceiverHandle, WindowOk, RecvPos, SentPos, Delivered;
    var m := st.toR[0];
    assert ToReceiver(env, m, Answered(st.r));
    MessageFlow(env, st.r, m, safe);
  }

  lemma StepKeepsFlow(env: Env, st: System, step: Step)
    requires Inv(env, st) && Flow(env, st) && Enabled(env, st, step)
    ensures Flow(env, Apply(env, st, step))
  {
    hide Inv, AcksOk, Apply, Flow;
    match step
    case Work(i, read, sent) => WorkKeepsFlow(env, st, i, read, sent);
    case HandlerMoves(a, b) => HandlerKeepsFlow(env, st, a, b);
    case ReceiverReceives(safe) => ReceivesKeepsFlow(env, st, safe);
    case Dequeue(_) => PoolKeepsFlow(env, st, step);
    case Claim(_) => PoolKeepsFlow(env, st, step);
    case Disconnect => DisconnectKeepsFlow(env, st);
    case _ =>
      if AtSender(step) { SenderKeepsFlow(env, st, step); } else { ReceiverKeepsFlow(env, st, step); }
  }

  lemma PoolKeepsFlow(env: Env, st: System, step: Step)
    requires Inv(env, st) && Flow(env, st) && Enabled(env, st, step) && (step.Dequeue? || step.Claim?)
    ensures Flow(env, Apply(env, st, step))
  {
    PoolOwner(env, st, step);
    hide Apply, Enabled, Inv, AcksOk, InFlight, WindowOk, OnWire, InHand, Taking, Owner;
    var st' := Apply(env, st, step);
    PoolWindow(env, st.s, st'.s, Owner(st.workers), Owner(st'.workers));
    AcksStay(env, st.s, st'.s, st.r, st.toS, st.connected);
  }

  /** The pool steps leave the counters alone; the owner stays, or a worker at the top takes over. */
  lemma PoolOwner(env: Env, st: System, step: Step)
    requires Inv(env, st) && Enabled(env, st, step) && (step.Dequeue? || step.Claim?)
    ensures var st' := Apply(env, st, step);
            && st' == st.(s := st.s.(queue := st'.s.queue, workerActive := st'.s.workerActive), workers := st'.workers)
            && (Owner(st'.workers) == Owner(st.workers) || (Owner(st.workers).Idle? && Owner(st'.workers).Top?))
  {
    PoolApplies(env, st, step);
    UniqueOwner(env, st);
    hide Apply, Enabled, Inv;
    OwnerClaims(st.workers, step.i, Apply(env, st, step).workers[step.i]);
    OwnerIdle(st.workers);
  }

  lemma PoolWindow(env: Env, s: Sender, s': Sender, w: Worker, w': Worker)
    requires WindowOk(env, s, w) && s' == s.(queue := s'.queue, workerActive := s'.workerActive)
    requires w' == w || (w.Idle? && w'.Top?)
    ensures WindowOk(env, s', w') && OnWire(s', w') == OnWire(s, w)
  {
    hide Allowance;
  }

  lemma UniqueOwner(env: Env, st: System)
    requires Inv(env, st)
    ensures OneOwner(st.s.workerActive, st.workers)
  {
    hide ReceiverSide, Channels, InStep, SenderOk, SenderScripts, OutcomeOk;
  }

  lemma DisconnectKeepsFlow(env: Env, st: System)
    requires Flow(env, st) && Enabled(env, st, Disconnect)
    ensures Flow(env, Apply(env, st, Disconnect))
  {
  }

  lemma {:induction false} RunFlow(env: Env, run: seq<System>, n: nat)
    requires Run(env, run) && n < |run|
    ensures Inv(env, run[n]) && Flow(env, run[n])
  {
    hide Inv, Apply, Init, Flow;
    RunInv(env, run, n);
    if n == 0 {
      InitFlow(env, run[0]);
    } else {
      RunFlow(env, run, n - 1);
      assert Next(env, run[n - 1], run[n - 1 + 1]);
      var step :| Enabled(env, run[n - 1], step) && run[n] == Apply(env, run[n - 1], step);
      StepKeepsFlow(env, run[n - 1], step);
    }
  }

  // ----- the promises

  /** Acks never run ahead of the wire, and after r resumes the sender is at most
      window_bytes + (r + 1) * chunk_size ahead of them.  In the backpressure loop the
      unsigned subtraction bytes_done - acked_bytes does not wrap around. */
  lemma UnackedIsBounded(env: Env, run: seq<System>, n: nat)
    requires Run(env, run) && n < |run|
    ensures var s, w := run[n].s, Owner(run[n].workers);
            && s.acked <= OnWire(s, w)
            && OnWire(s, w) - s.acked < env.cfg.windowBytes + (s.resumes + 1) * env.cfg.chunkSize
            && (w.Window? ==> s.acked <= s.bytesDone)
  {
    hide Run, Inv;
    RunFlow(env, run, n);
    var s := run[n].s;
    AllowanceGrows(env, s.resumes);
  }

  /** With both channels drained, the io thread idle and a live receiver, the backpressure
      loop of the sender does not wait: the receiver owes no acknowledgement that could open
      the window. */
  lemma WindowCannotDeadlock(env: Env, run: seq<System>, n: nat)
    requires Run(env, run) && n < |run|
    requires run[n].connected && run[n].toR == [] && run[n].toS == []
    requires run[n].r.handler.HIdle? && (run[n].r.local.status.InProgress? || run[n].r.local.status.Paused?)
    ensures OnWire(run[n].s, Owner(run[n].workers)) - run[n].s.acked < Max(1, AckInterval(env.cfg))
    ensures OnWire(run[n].s, Owner(run[n].workers)) - run[n].s.acked < env.cfg.windowBytes
    ensures !WindowClosed(env, run[n].s)
  {
    hide Inv;
    RunFlow(env, run, n);
    assert env.cfg.windowBytes >= 1;
  }
}
