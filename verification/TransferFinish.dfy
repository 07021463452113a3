/** finish() takes effect exactly once per transfer and its outcome is final, whatever races
    with it: cancel from either side, timeout, disconnect, failure and completion. */
module TransferFinish {
  import opened TransferModel

  /** finished implies a terminal status, and the completed callback has fired exactly as
      often as finish took effect. */
  predicate Settled(l: Local) {
    && (l.finished ==> Terminal(l.status))
    && l.callbacks == (if l.finished then 1 else 0)
  }

  /** Once finished, nothing a user can query about the outcome changes any more. */
  predicate Final(l: Local, l': Local) {
    l.finished ==> l'.finished && l'.status == l.status && l'.error == l.error && l'.callbacks == l.callbacks
  }

  lemma StepSettles(env: Env, st: System, step: Step)
    requires Enabled(env, st, step)
    requires Settled(st.s.local) && Settled(st.r.local)
    ensures Settled(Apply(env, st, step).s.local) && Settled(Apply(env, st, step).r.local)
    ensures Final(st.s.local, Apply(env, st, step).s.local)
    ensures Final(st.r.local, Apply(env, st, step).r.local)
  {
    if AtReceiver(step) {
      ReceiverSettles(env, st, step);
    } else if AtSender(step) {
      SenderSettles(env, st, step);
    } else if step.Work? {
      WorkerSettles(env, st.s, st.workers[step.i], step.read, step.sent);
    }
  }

  lemma ReceiverSettles(env: Env, st: System, step: Step)
    requires Enabled(env, st, step) && AtReceiver(step) && Settled(st.r.local)
    ensures Settled(ReceiverStep(env, st, step).r.local) && Final(st.r.local, ReceiverStep(env, st, step).r.local)
  {
    hide HandlerStep;
    if step.HandlerMoves? {
      HandlerSettles(env, st.r, step.a, step.b);
    } else if step.ReceiverReceives? {
      HandlingSettles(env, st.r, st.toR[0], step.safe);
    }
    hide ReceiverHandle;
  }

  lemma HandlingSettles(env: Env, r: Receiver, m: Msg, safe: bool)
    requires Settled(r.local)
    ensures Settled(ReceiverHandle(env, r, m, safe).local) && Final(r.local, ReceiverHandle(env, r, m, safe).local)
  {
  }

  lemma SenderSettles(env: Env, st: System, step: Step)
    requires Enabled(env, st, step) && AtSender(step) && Settled(st.s.local)
    ensures Settled(SenderStep(env, st, step).local) && Final(st.s.local, SenderStep(env, st, step).local)
  {
  }

  lemma HandlerSettles(env: Env, r: Receiver, a: bool, b: bool)
    requires HandlerReady(r) && Settled(r.local)
    ensures Settled(HandlerStep(env, r, a, b).r.local) && Final(r.local, HandlerStep(env, r, a, b).r.local)
  {
  }

  lemma WorkerSettles(env: Env, s: Sender, w: Worker, read: bool, sent: bool)
    requires Streaming(w) && WorkerReady(env, s, w) && Settled(s.local)
    ensures Settled(WorkerStep(env, s, w, read, sent).s.local)
    ensures Final(s.local, WorkerStep(env, s, w, read, sent).s.local)
  {
  }

  lemma {:induction false} RunSettled(env: Env, run: seq<System>, i: nat)
    requires Run(env, run) && i < |run|
    ensures Settled(run[i].s.local) && Settled(run[i].r.local)
  {
    if i > 0 {
      RunSettled(env, run, i - 1);
      StepBetween(env, run, i - 1);
    }
  }

  lemma StepBetween(env: Env, run: seq<System>, i: nat)
    requires Run(env, run) && i + 1 < |run|
    requires Settled(run[i].s.local) && Settled(run[i].r.local)
    ensures Settled(run[i + 1].s.local) && Settled(run[i + 1].r.local)
    ensures Final(run[i].s.local, run[i + 1].s.local) && Final(run[i].r.local, run[i + 1].r.local)
  {
    assert Next(env, run[i], run[i + 1]);
    var step :| Enabled(env, run[i], step) && run[i + 1] == Apply(env, run[i], step);
    StepSettles(env, run[i], step);
  }

  /** On every run, on both sides: at most one call of finish takes effect, the status is
      terminal from then on, and status, error and callback count never change again. */
  lemma {:induction false} FinishOnceAndForAll(env: Env, run: seq<System>, i: nat, j: nat)
    requires Run(env, run) && i <= j < |run|
    ensures Final(run[i].s.local, run[j].s.local) && Final(run[i].r.local, run[j].r.local)
    ensures run[j].s.local.callbacks <= 1 && run[j].r.local.callbacks <= 1
    ensures run[j].s.local.callbacks == 1 <==> run[j].s.local.finished
    ensures run[j].r.local.callbacks == 1 <==> run[j].r.local.finished
    ensures run[j].s.local.finished ==> Terminal(run[j].s.local.status)
    ensures run[j].r.local.finished ==> Terminal(run[j].r.local.status)
    decreases j
  {
    hide Next, Init;
    RunSettled(env, run, j);
    if i < j {
      FinishOnceAndForAll(env, run, i, j - 1);
      RunSettled(env, run, j - 1);
      StepBetween(env, run, j - 1);
    }
  }
}
