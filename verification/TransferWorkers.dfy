/** At most one worker thread streams the transfer: worker_active is a lock. */
module TransferWorkers {
  import opened TransferModel

  ghost predicate Unique(ws: seq<Worker>) {
    forall i, j :: 0 <= i < |ws| && 0 <= j < |ws| && Streaming(ws[i]) && Streaming(ws[j]) ==> i == j
  }

  /** The worker that owns the transfer, Idle when there is none. */
  function Owner(ws: seq<Worker>): Worker {
    if ws == [] then Idle else if Streaming(ws[0]) then ws[0] else Owner(ws[1..])
  }

  ghost predicate OneOwner(active: bool, ws: seq<Worker>) {
    Unique(ws) && (active <==> Streaming(Owner(ws)))
  }

  lemma {:induction false} OwnerStreams(ws: seq<Worker>, i: nat)
    requires i < |ws| && Streaming(ws[i])
    ensures Streaming(Owner(ws))
    ensures Unique(ws) ==> Owner(ws) == ws[i]
  {
    if !Streaming(ws[0]) {
      OwnerStreams(ws[1..], i - 1);
      if Unique(ws) {
        forall k, j | 0 <= k < |ws[1..]| && 0 <= j < |ws[1..]| && Streaming(ws[1..][k]) && Streaming(ws[1..][j])
          ensures k == j
        {
          assert Streaming(ws[k + 1]) && Streaming(ws[j + 1]);
        }
      }
    }
  }

  lemma {:induction false} OwnerExists(ws: seq<Worker>) returns (i: nat)
    requires Streaming(Owner(ws))
    ensures i < |ws| && Streaming(ws[i]) && ws[i] == Owner(ws)
  {
    if Streaming(ws[0]) {
      i := 0;
    } else {
      i := OwnerExists(ws[1..]);
      i := i + 1;
    }
  }

  lemma {:induction false} OwnerIdle(ws: seq<Worker>)
    ensures !Streaming(Owner(ws)) ==> Owner(ws) == Idle
  {
    if ws != [] && !Streaming(ws[0]) {
      OwnerIdle(ws[1..]);
    }
  }

  /** Replacing the owner's position moves the owner there. */
  lemma OwnerMoves(ws: seq<Worker>, i: nat, w: Worker)
    requires Unique(ws) && i < |ws| && Streaming(ws[i])
    ensures Unique(ws[i := w])
    ensures Owner(ws[i := w]) == if Streaming(w) then w else Idle
  {
    var ws' := ws[i := w];
    assert forall k :: 0 <= k < |ws'| && Streaming(ws'[k]) ==> k == i;
    if Streaming(w) {
      OwnerStreams(ws', i);
    } else {
      OwnerIdle(ws');
      if Streaming(Owner(ws')) {
        var k := OwnerExists(ws');
      }
    }
  }

  /** A worker that claims the transfer becomes its owner; one that does not changes nothing. */
  lemma OwnerClaims(ws: seq<Worker>, i: nat, w: Worker)
    requires Unique(ws) && i < |ws| && !Streaming(ws[i])
    requires Streaming(w) ==> !Streaming(Owner(ws))
    ensures Unique(ws[i := w])
    ensures Owner(ws[i := w]) == if Streaming(w) then w else Owner(ws)
  {
    var ws' := ws[i := w];
    if Streaming(w) {
      forall k | 0 <= k < |ws| && Streaming(ws[k]) ensures false {
        OwnerStreams(ws, k);
      }
      OwnerStreams(ws', i);
    } else {
      forall k, j | 0 <= k < |ws'| && 0 <= j < |ws'| && Streaming(ws'[k]) && Streaming(ws'[j]) ensures k == j {
        assert Streaming(ws[k]) && Streaming(ws[j]);
      }
      OwnerIdle(ws);
      OwnerIdle(ws');
      if Streaming(Owner(ws)) {
        var k := OwnerExists(ws);
        assert ws'[k] == ws[k];
        OwnerStreams(ws', k);
      } else if Streaming(Owner(ws')) {
        var k := OwnerExists(ws');
        OwnerStreams(ws, k);
      }
    }
  }

  lemma StepKeepsOneOwner(env: Env, st: System, step: Step)
    requires Enabled(env, st, step) && OneOwner(st.s.workerActive, st.workers)
    ensures OneOwner(Apply(env, st, step).s.workerActive, Apply(env, st, step).workers)
  {
    hide Enabled, Apply, OneOwner;
    if step.Dequeue? || step.Claim? {
      PoolKeepsOneOwner(env, st, step);
    } else if step.Work? {
      WorkKeepsOneOwner(env, st, step.i, step.read, step.sent);
    } else {
      OthersKeepPool(env, st, step);
    }
  }

  /** What taking a transfer off the queue and claiming it change. */
  lemma PoolApplies(env: Env, st: System, step: Step)
    requires Enabled(env, st, step) && (step.Dequeue? || step.Claim?)
    ensures var st' := Apply(env, st, step);
            && step.i < |st.workers| && |st'.workers| == |st.workers|
            && st'.workers == st.workers[step.i := st'.workers[step.i]]
            && (st.workers[step.i].Idle? || st.workers[step.i].Claiming?)
            && (st'.workers[step.i].Idle? || st'.workers[step.i].Claiming? || st'.workers[step.i].Top?)
            && (st'.workers[step.i].Top? ==> !st.s.workerActive)
            && st'.s.workerActive == (st.s.workerActive || st'.workers[step.i].Top?)
            && (st.workers[step.i].Idle? ==> st.s.queue > 0)
            && st' == st.(s := st.s.(queue := st'.s.queue, workerActive := st'.s.workerActive), workers := st'.workers)
            && st'.s.queue <= st.s.queue
  {
  }

  lemma PoolKeepsOneOwner(env: Env, st: System, step: Step)
    requires Enabled(env, st, step) && OneOwner(st.s.workerActive, st.workers) && (step.Dequeue? || step.Claim?)
    ensures OneOwner(Apply(env, st, step).s.workerActive, Apply(env, st, step).workers)
  {
    hide Enabled, Apply;
    PoolApplies(env, st, step);
    OwnerClaims(st.workers, step.i, Apply(env, st, step).workers[step.i]);
  }

  lemma WorkKeepsOneOwner(env: Env, st: System, i: nat, read: bool, sent: bool)
    requires Enabled(env, st, Work(i, read, sent)) && OneOwner(st.s.workerActive, st.workers)
    ensures OneOwner(Apply(env, st, Work(i, read, sent)).s.workerActive, Apply(env, st, Work(i, read, sent)).workers)
  {
    hide WorkerStep, WorkerReady;
    OwnerStreams(st.workers, i);
    WorkerStaysActive(env, st.s, st.workers[i], read, sent);
    OwnerMoves(st.workers, i, WorkerStep(env, st.s, st.workers[i], read, sent).w);
  }

  /** worker_active is cleared exactly when the worker leaves. */
  lemma WorkerStaysActive(env: Env, s: Sender, w: Worker, read: bool, sent: bool)
    requires Streaming(w) && WorkerReady(env, s, w)
    ensures var res := WorkerStep(env, s, w, read, sent);
            && (res.w.Idle? || Streaming(res.w))
            && res.s.workerActive == (s.workerActive && Streaming(res.w))
  {
  }

  lemma OthersKeepPool(env: Env, st: System, step: Step)
    requires Enabled(env, st, step) && !step.Dequeue? && !step.Claim? && !step.Work?
    ensures Apply(env, st, step).s.workerActive == st.s.workerActive && Apply(env, st, step).workers == st.workers
  {
    hide Enabled, SenderStep, ReceiverStep;
    if AtSender(step) {
      SenderKeepsWorkerActive(env, st, step);
    }
  }

  lemma SenderKeepsWorkerActive(env: Env, st: System, step: Step)
    requires Enabled(env, st, step) && AtSender(step)
    ensures SenderStep(env, st, step).workerActive == st.s.workerActive
  {
  }

  lemma {:induction false} NoneIdle(ws: seq<Worker>)
    requires forall i :: 0 <= i < |ws| ==> ws[i].Idle?
    ensures OneOwner(false, ws) && Owner(ws) == Idle
  {
    OwnerIdle(ws);
    if Streaming(Owner(ws)) {
      var k := OwnerExists(ws);
    }
  }

  /** On every run at most one worker is past its claim of the transfer. */
  lemma {:induction false} AtMostOneWorker(env: Env, run: seq<System>, n: nat)
    requires Run(env, run) && n < |run|
    ensures OneOwner(run[n].s.workerActive, run[n].workers)
  {
    hide Apply, Enabled, OneOwner;
    if n == 0 {
      NoneIdle(run[0].workers);
    } else {
      AtMostOneWorker(env, run, n - 1);
      assert Next(env, run[n - 1], run[n - 1 + 1]);
      var step :| Enabled(env, run[n - 1], step) && run[n] == Apply(env, run[n - 1], step);
      StepKeepsOneOwner(env, run[n - 1], step);
    }
  }
}
