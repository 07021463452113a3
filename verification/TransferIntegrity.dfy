/** The promises of the transfer protocol about data, on every run. */
module TransferIntegrity {
  import opened Wrappers
  import opened Files
  import opened TransferModel
  import opened TransferStream
  import Crc32

  /** The receiver has not met a chunk or end marker that is out of place, too long or corrupt,
      and nobody reports one. */
  predicate NoIntegrityError(st: System) {
    && !Integrity(st.s.local.error) && !Integrity(st.r.local.error)
    && (st.r.handler.HReport? || st.r.handler.HEnd? ==> !Integrity(st.r.handler.error))
  }

  /** Until finish runs, the temp file of the file in progress has the declared length and
      starts with exactly the bytes received so far. */
  predicate TempHoldsPrefix(env: Env, r: Receiver) {
    r.known && !r.local.finished && r.recvFile < |env.files| && !r.handler.HRecord? ==>
      && |r.files| == |env.files| == |r.temp|
      && r.files[r.recvFile].received <= |env.files[r.recvFile]|
      && (r.files[r.recvFile].tempCreated ==>
            r.temp[r.recvFile].Some?
            && |r.temp[r.recvFile].value| == |env.files[r.recvFile]|
            && r.temp[r.recvFile].value[..r.files[r.recvFile].received]
               == env.files[r.recvFile][..r.files[r.recvFile].received])
  }

  predicate DestinationsEqualSources(env: Env, r: Receiver) {
    && |r.dest| == |env.files|
    && forall i :: 0 <= i < |env.files| ==> r.dest[i] == Some(env.files[i])
  }

  /** A file counts as finalized only when its destination equals its source. */
  predicate FinalizedAreCorrect(env: Env, r: Receiver) {
    forall i :: 0 <= i < |r.files| && r.files[i].finalized ==>
      i < |r.dest| && i < |env.files| && r.dest[i] == Some(env.files[i])
  }

  /** For every interleaving of both sides, all controls, failures and disconnects. */
  lemma TransferIsFaithful(env: Env, run: seq<System>, n: nat)
    requires Run(env, run) && n < |run|
    ensures NoIntegrityError(run[n])
    ensures TempHoldsPrefix(env, run[n].r)
    ensures FinalizedAreCorrect(env, run[n].r)
    ensures run[n].r.local.status.Completed? || run[n].s.local.status.Completed? ==>
              DestinationsEqualSources(env, run[n].r)
  {
    hide Run, SenderOk, Walk;
    RunInv(env, run, n);
    var r := run[n].r;
    if r.known && r.recvFile < |env.files| && r.files[r.recvFile].tempCreated && !r.local.finished
      && !r.handler.HRecord? {
      PrefixOfPrefix(r.temp[r.recvFile].value, env.files[r.recvFile], r.files[r.recvFile].received,
        r.files[r.recvFile].received + (if r.handler.HAccount? then |r.handler.data| else 0));
    }
  }

  lemma PrefixOfPrefix(a: seq<Byte>, b: seq<Byte>, m: nat, n: nat)
    requires m <= n <= |a| == |b| && a[..n] == b[..n]
    ensures a[..m] == b[..m]
  {
    assert a[..m] == a[..n][..m];
    assert b[..m] == b[..n][..m];
  }

  /** What a destination path may hold: what was there before the transfer, nothing, the complete
      source file, or the part of it copied so far while the io thread is copying it. */
  predicate CleanDest(env: Env, before: Receiver, r: Receiver) {
    && |before.dest| == |r.dest| == |env.files|
    && forall i :: 0 <= i < |env.files| ==> CleanAt(env, before, r, i)
  }

  predicate CleanAt(env: Env, before: Receiver, r: Receiver, i: nat)
    requires i < |before.dest| && i < |r.dest| && i < |env.files|
  {
    || r.dest[i] == before.dest[i] || r.dest[i] == None || r.dest[i] == Some(env.files[i])
    || (Copying(r, i) && r.handler.n <= |env.files[i]| && r.dest[i] == Some(env.files[i][..r.handler.n]))
  }

  /** The fallback for a rename across volumes is copying file i. */
  predicate Copying(r: Receiver, i: nat) { r.handler.HCopy? && r.handler.fi == i }

  lemma StepKeepsDestClean(env: Env, st: System, step: Step, before: Receiver)
    requires Inv(env, st) && Enabled(env, st, step) && CleanDest(env, before, st.r)
    ensures CleanDest(env, before, Apply(env, st, step).r)
  {
    hide Apply, Enabled, CleanDest, Inv;
    if step.HandlerMoves? {
      HandlerInv(env, st, step.a, step.b);
      HandlerKeepsDestClean(env, st.r, step.a, step.b, before);
    } else {
      OthersKeepDest(env, st, step);
      SameDestClean(env, before, st.r, Apply(env, st, step).r);
    }
  }

  lemma HandlerInv(env: Env, st: System, a: bool, b: bool)
    requires Inv(env, st) && Enabled(env, st, HandlerMoves(a, b))
    ensures HandlerReady(st.r) && st.r.known && ReceiverOk(env, st.r)
    ensures Apply(env, st, HandlerMoves(a, b)).r == HandlerStep(env, st.r, a, b).r
  {
    hide SenderSide, Channels, InStep, HandlerStep, FilesOk, HandlerOk;
  }

  lemma OthersKeepDest(env: Env, st: System, step: Step)
    requires Enabled(env, st, step) && !step.HandlerMoves?
    ensures var r' := Apply(env, st, step).r;
            r'.dest == st.r.dest && (st.r.handler.HCopy? || r'.handler.HCopy? ==> r'.handler == st.r.handler)
  {
    hide Enabled, ReceiverStep, SenderStep, WorkerStep;
    if AtReceiver(step) {
      OnlyMovesTouchDest(env, st, step);
    }
  }

  lemma SameDestClean(env: Env, before: Receiver, r: Receiver, r': Receiver)
    requires CleanDest(env, before, r) && r'.dest == r.dest
    requires r.handler.HCopy? || r'.handler.HCopy? ==> r'.handler == r.handler
    ensures CleanDest(env, before, r')
  {
    forall i | 0 <= i < |env.files| ensures CleanAt(env, before, r', i) {
      assert CleanAt(env, before, r, i);
    }
  }

  lemma HandlerKeepsDestClean(env: Env, r: Receiver, a: bool, b: bool, before: Receiver)
    requires HandlerReady(r) && r.known && ReceiverOk(env, r) && CleanDest(env, before, r)
    ensures CleanDest(env, before, HandlerStep(env, r, a, b).r)
  {
    hide FilesOk;
    var r' := HandlerStep(env, r, a, b).r;
    HandlerTouchesOne(env, r, a, b);
    FilesSizes(env, r);
    forall i | 0 <= i < |env.files| ensures CleanAt(env, before, r', i) {
      assert CleanAt(env, before, r, i);
      if i == Touched(r) {
        TouchedIsClean(env, r, a, b, before);
      }
    }
  }

  lemma FilesSizes(env: Env, r: Receiver)
    requires FilesOk(env, r)
    ensures |r.files| == |env.files| == |r.temp| == |r.dest|
    ensures forall i :: 0 <= i < |env.files| ==> r.files[i].size == |env.files[i]|
  {
  }

  /** The destination that the handler's next step may change. */
  function Touched(r: Receiver): int {
    if r.handler.HMove? || r.handler.HPlace? || r.handler.HCopy? then r.handler.fi else -1
  }

  predicate SameDest(r: Receiver, r': Receiver) { r'.dest == r.dest && !r'.handler.HCopy? }

  lemma DataStepsKeepDest(env: Env, r: Receiver, a: bool, b: bool)
    requires HandlerReady(r) && (r.handler.HWrite? || r.handler.HAccount?)
    ensures SameDest(r, HandlerStep(env, r, a, b).r)
  {
    hide Crc32.Checksum, WriteAt;
  }

  lemma OtherStepsKeepDest(env: Env, r: Receiver, a: bool, b: bool)
    requires HandlerReady(r) && !r.handler.HWrite? && !r.handler.HAccount? && Touched(r) < 0
    ensures SameDest(r, HandlerStep(env, r, a, b).r)
  {
    hide ChunkWrite, ChunkAccount;
  }

  lemma HandlerTouchesOne(env: Env, r: Receiver, a: bool, b: bool)
    requires HandlerReady(r)
    ensures var r' := HandlerStep(env, r, a, b).r;
            && |r'.dest| == |r.dest|
            && (forall i :: 0 <= i < |r.dest| && i != Touched(r) ==> r'.dest[i] == r.dest[i])
            && (r'.handler.HCopy? ==> r'.handler.fi == Touched(r))
  {
    if r.handler.HWrite? || r.handler.HAccount? {
      hide HandlerStep;
      DataStepsKeepDest(env, r, a, b);
    } else if Touched(r) < 0 {
      hide HandlerStep;
      OtherStepsKeepDest(env, r, a, b);
    } else {
      hide ChunkWrite, ChunkAccount, FinalizeCheck, RecordFile, ReceiverAct;
    }
  }

  lemma TouchedIsClean(env: Env, r: Receiver, a: bool, b: bool, before: Receiver)
    requires HandlerReady(r) && FilesOk(env, r) && HandlerOk(env, r) && CleanDest(env, before, r) && Touched(r) >= 0
    ensures Touched(r) < |env.files|
    ensures |HandlerStep(env, r, a, b).r.dest| == |env.files|
            && CleanAt(env, before, HandlerStep(env, r, a, b).r, Touched(r))
  {
    hide CurrentFile, FreshFile, TempPrefix;
    var fi := r.handler.fi;
    assert CleanAt(env, before, r, fi);
    if |env.files[fi]| == 0 { assert env.files[fi] == []; }
    assert env.files[fi][..|env.files[fi]|] == env.files[fi] && env.files[fi][..0] == [];
  }

  lemma OnlyMovesTouchDest(env: Env, st: System, step: Step)
    requires Enabled(env, st, step) && AtReceiver(step) && !step.HandlerMoves?
    ensures ReceiverStep(env, st, step).r.dest == st.r.dest
    ensures st.r.handler.HCopy? ==> ReceiverStep(env, st, step).r.handler == st.r.handler
    ensures !st.r.handler.HCopy? ==> !ReceiverStep(env, st, step).r.handler.HCopy?
  {
  }

  /** A transfer that fails or is cancelled, at whatever moment, never leaves a bad file: a path
      holds part of a file only while that file is being copied. */
  lemma {:induction false} NoBadFile(env: Env, run: seq<System>, n: nat)
    requires Run(env, run) && n < |run|
    ensures CleanDest(env, run[0].r, run[n].r)
  {
    hide Inv, Apply, CleanDest;
    if n == 0 {
      CleanAtStart(env, run[0]);
    } else {
      NoBadFile(env, run, n - 1);
      RunInv(env, run, n - 1);
      assert Next(env, run[n - 1], run[n - 1 + 1]);
      var step :| Enabled(env, run[n - 1], step) && run[n] == Apply(env, run[n - 1], step);
      StepKeepsDestClean(env, run[n - 1], step, run[0].r);
    }
  }

  lemma CleanAtStart(env: Env, st: System)
    requires Init(env, st)
    ensures CleanDest(env, st.r, st.r)
  {
  }
}
