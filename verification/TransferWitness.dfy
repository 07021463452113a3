/** The promises are not empty: a run that carries a file across and completes on both sides. */
module TransferWitness {
  import opened Wrappers
  import opened Files
  import opened TransferModel
  import Crc32

  ghost predicate Reachable(env: Env, st: System) {
    exists run :: Run(env, run) && run[|run| - 1] == st
  }

  lemma Extend(env: Env, st: System, step: Step)
    requires Reachable(env, st) && Enabled(env, st, step)
    ensures Reachable(env, Apply(env, st, step))
  {
    hide Enabled, Apply, Init, ValidEnv;
    var run :| Run(env, run) && run[|run| - 1] == st;
    var longer := run + [Apply(env, st, step)];
    forall i | 0 <= i < |longer| - 1 ensures Next(env, longer[i], longer[i + 1]) {
      if i < |run| - 1 {
        assert Next(env, run[i], run[i + 1]);
      } else {
        assert longer[i] == st && longer[i + 1] == Apply(env, st, step);
      }
    }
    assert Run(env, longer);
  }

  const CONTENT: seq<Byte> := [7]

  function OneFile(sha: seq<Byte> -> Digest): Env {
    Env([CONTENT], Config(1, 1, 1, true), sha)
  }

  function Fresh(): RecvFile { RecvFile(1, 0, false, "", "", false, false) }

  /** A receiver whose local part, handler, file and disk are given. */
  function Recv(l: Local, done: nat, files: seq<RecvFile>, handler: Handler,
                temp: Option<seq<Byte>>, dest: Option<seq<Byte>>): Receiver
  {
    Receiver(l, files != [], done, if dest.Some? && handler != HRecord(0) then 1 else 0,
             if dest.Some? && handler != HRecord(0) then 1 else 0, if done == 0 then [] else CONTENT, done, files,
             handler, [temp], [dest])
  }

  function Live(scripts: seq<Script>): Local { Local(InProgress, false, NoError, 0, scripts) }

  function Offered(): System {
    System(Sender(Local(Starting, false, NoError, 0, []), 0, 0, 0, 0, 0, [], false, 0, 0), [Idle],
           Recv(Local(Pending, false, NoError, 0, []), 0, [], HIdle, None, None), [Offer([1])], [], true)
  }

  lemma StartIsReachable(sha: seq<Byte> -> Digest)
    ensures Reachable(OneFile(sha), Offered())
  {
    var env := OneFile(sha);
    assert Sizes(env.files) == [1];
    assert Init(env, Offered());
    assert Run(env, [Offered()]);
  }

  /** The offer is accepted and the transfer queued. */
  function Queued(): System {
    System(Sender(Live([[]]), 0, 0, 0, 0, 0, [], false, 1, 0), [Idle],
           Recv(Live([[]]), 0, [Fresh()], HIdle, None, None), [], [], true)
  }

  /** The receiver has the offer and has sent its answer. */
  function Answered(): System {
    Offered().(r := Recv(Live([[]]), 0, [Fresh()], HIdle, None, None), toR := [], toS := [Response(true)])
  }

  lemma AnsweredIsReachable(sha: seq<Byte> -> Digest)
    ensures Reachable(OneFile(sha), Answered())
  {
    hide Reachable;
    var env, s0 := OneFile(sha), Offered();
    StartIsReachable(sha);
    Extend(env, s0, ReceiverReceives(true));
    var s1 := s0.(r := Recv(Local(Pending, false, NoError, 0, []), 0, [Fresh()], HIdle, None, None), toR := []);
    assert Apply(env, s0, ReceiverReceives(true)) == s1;
    Extend(env, s1, ReceiverAccepts);
    var s2 := s1.(r := Recv(Live([[Send(Response(true))]]), 0, [Fresh()], HIdle, None, None));
    assert [Send(Response(true))] + [] == [Send(Response(true))];
    assert Apply(env, s1, ReceiverAccepts) == s2;
    Extend(env, s2, ReceiverScript(0));
    assert Apply(env, s2, ReceiverScript(0)) == Answered();
  }

  lemma AcceptedIsReachable(sha: seq<Byte> -> Digest)
    ensures Reachable(OneFile(sha), Queued())
  {
    hide Reachable;
    var env, s3 := OneFile(sha), Answered();
    AnsweredIsReachable(sha);
    Extend(env, s3, SenderReceives);
    var s4 := s3.(s := Sender(Live([[Requeue]]), 0, 0, 0, 0, 0, [], false, 0, 0), toS := []);
    assert Apply(env, s3, SenderReceives) == s4;
    Extend(env, s4, SenderScript(0));
    assert s4.s.local.scripts[0][1..] == [];
    assert s4.s.local.scripts[0 := []] == [[]];
    assert s4.toR + [] == s4.toR;
    assert Apply(env, s4, SenderScript(0)) == Queued();
  }

  function TheChunk(): Msg { Chunk(0, 0, CONTENT, Crc32.Checksum(CONTENT)) }

  function OnTheWire(): System {
    Queued().(s := Sender(Live([[]]), 0, 0, 0, 0, 0, [], true, 0, 0), workers := [Accounting(0, 0, CONTENT)],
              toR := [TheChunk()])
  }

  lemma OnTheWireIsReachable(sha: seq<Byte> -> Digest)
    ensures Reachable(OneFile(sha), OnTheWire())
  {
    hide Crc32.Checksum, Reachable;
    var env, s0 := OneFile(sha), Queued();
    AcceptedIsReachable(sha);
    Extend(env, s0, Dequeue(0));
    var s1 := s0.(s := Sender(Live([[]]), 0, 0, 0, 0, 0, [], false, 0, 0), workers := [Claiming]);
    assert Apply(env, s0, Dequeue(0)) == s1;
    Extend(env, s1, Claim(0));
    var s2 := s1.(s := Sender(Live([[]]), 0, 0, 0, 0, 0, [], true, 0, 0), workers := [Top]);
    assert Apply(env, s1, Claim(0)) == s2;
    Extend(env, s2, Work(0, true, true));
    var s3 := s2.(workers := [Sending(0, 0)]);
    assert Apply(env, s2, Work(0, true, true)) == s3;
    Extend(env, s3, Work(0, true, true));
    assert env.files[0][0..1] == CONTENT;
    assert Apply(env, s3, Work(0, true, true)) == OnTheWire();
  }

  function Streamed(sha: seq<Byte> -> Digest): System {
    System(Sender(Live([[]]), 1, 0, 1, 1, 0, CONTENT, true, 0, 0), [Window],
           Recv(Live([[]]), 0, [Fresh()], HIdle, None, None), [TheChunk(), FileEnd(0, sha(CONTENT))], [], true)
  }

  lemma StreamedIsReachable(sha: seq<Byte> -> Digest)
    ensures Reachable(OneFile(sha), Streamed(sha))
  {
    hide Crc32.Checksum, Reachable;
    var env, s4 := OneFile(sha), OnTheWire();
    OnTheWireIsReachable(sha);
    Extend(env, s4, Work(0, true, true));
    var s5 := s4.(s := Sender(Live([[]]), 1, 0, 1, 1, 0, CONTENT, true, 0, 0), workers := [EndMarker(0, sha(CONTENT))]);
    assert [] + CONTENT == CONTENT;
    assert Apply(env, s4, Work(0, true, true)) == s5;
    Extend(env, s5, Work(0, true, true));
    assert Apply(env, s5, Work(0, true, true)) == Streamed(sha);
  }

  function Written(sha: seq<Byte> -> Digest): System {
    Streamed(sha).(r := Recv(Live([[]]), 0, [Fresh().(tempCreated := true)], HAccount(0, CONTENT), Some(CONTENT), None),
                   toR := [FileEnd(0, sha(CONTENT))])
  }

  lemma WrittenIsReachable(sha: seq<Byte> -> Digest)
    ensures Reachable(OneFile(sha), Written(sha))
  {
    hide Crc32.Checksum, Reachable;
    var env, s0 := OneFile(sha), Streamed(sha);
    StreamedIsReachable(sha);
    var crc := Crc32.Checksum(CONTENT);
    Extend(env, s0, ReceiverReceives(true));
    var s1 := s0.(r := Recv(Live([[]]), 0, [Fresh()], HWrite(0, 0, CONTENT, crc), None, None),
                  toR := [FileEnd(0, sha(CONTENT))]);
    assert Apply(env, s0, ReceiverReceives(true)) == s1;
    Extend(env, s1, HandlerMoves(true, true));
    assert WriteAt(Zeros(1), 0, CONTENT) == CONTENT;
    hide WriteAt;
    assert Apply(env, s1, HandlerMoves(true, true)) == Written(sha);
  }

  function Whole(sha: seq<Byte> -> Digest): RecvFile { RecvFile(1, 1, true, "", sha(CONTENT), false, false) }

  function Received(sha: seq<Byte> -> Digest): System {
    Streamed(sha).(r := Recv(Live([[]]), 1, [Whole(sha)], HIdle, Some(CONTENT), None),
                   toR := [FileEnd(0, sha(CONTENT))],
                   toS := [Progress(1)])
  }

  lemma ReceivedIsReachable(sha: seq<Byte> -> Digest)
    ensures Reachable(OneFile(sha), Received(sha))
  {
    hide Crc32.Checksum, Reachable, WriteAt;
    var env, s2 := OneFile(sha), Written(sha);
    WrittenIsReachable(sha);
    Extend(env, s2, HandlerMoves(true, true));
    var s3 := s2.(r := Recv(Live([[]]), 1, [Whole(sha)], HAck(1, 0, true), Some(CONTENT), None));
    assert [] + CONTENT == CONTENT;
    assert Apply(env, s2, HandlerMoves(true, true)) == s3;
    Extend(env, s3, HandlerMoves(true, true));
    var s4 := s3.(r := Recv(Live([[]]), 1, [Whole(sha)], HFinalize(0), Some(CONTENT), None), toS := [Progress(1)]);
    assert Apply(env, s3, HandlerMoves(true, true)) == s4;
    Extend(env, s4, HandlerMoves(true, true));
    assert Apply(env, s4, HandlerMoves(true, true)) == Received(sha);
  }

  function Verified(sha: seq<Byte> -> Digest): RecvFile {
    RecvFile(1, 1, true, sha(CONTENT), sha(CONTENT), true, false)
  }

  function Moving(sha: seq<Byte> -> Digest): System {
    Streamed(sha).(r := Recv(Live([[]]), 1, [Verified(sha)], HMove(0), Some(CONTENT), None), toR := [],
                   toS := [Progress(1)])
  }

  lemma MovingIsReachable(sha: seq<Byte> -> Digest)
    ensures Reachable(OneFile(sha), Moving(sha))
  {
    hide Crc32.Checksum, Reachable, WriteAt;
    var env, s0 := OneFile(sha), Received(sha);
    ReceivedIsReachable(sha);
    Extend(env, s0, ReceiverReceives(true));
    var s1 := s0.(r := Recv(Live([[]]), 1, [Verified(sha)], HFinalize(0), Some(CONTENT), None), toR := []);
    assert Apply(env, s0, ReceiverReceives(true)) == s1;
    Extend(env, s1, HandlerMoves(true, true));
    assert Apply(env, s1, HandlerMoves(true, true)) == Moving(sha);
  }

  function Placed(sha: seq<Byte> -> Digest): System {
    Streamed(sha).(r := Recv(Live([[]]), 1, [Verified(sha).(finalized := true)], HReport(true, NoError), None,
                             Some(CONTENT)),
                   toR := [], toS := [Progress(1)])
  }

  lemma PlacedIsReachable(sha: seq<Byte> -> Digest)
    ensures Reachable(OneFile(sha), Placed(sha))
  {
    hide Crc32.Checksum, Reachable, WriteAt;
    var env, s2 := OneFile(sha), Moving(sha);
    MovingIsReachable(sha);
    Extend(env, s2, HandlerMoves(true, true));
    var s3 := s2.(r := Recv(Live([[]]), 1, [Verified(sha)], HPlace(0), Some(CONTENT), None));
    assert Apply(env, s2, HandlerMoves(true, true)) == s3;
    Extend(env, s3, HandlerMoves(true, true));
    var s4 := s3.(r := Recv(Live([[]]), 1, [Verified(sha)], HRecord(0), None, Some(CONTENT)));
    assert Apply(env, s3, HandlerMoves(true, true)) == s4;
    Extend(env, s4, HandlerMoves(true, true));
    assert Apply(env, s4, HandlerMoves(true, true)) == Placed(sha);
  }

  function Finished(): Local { Local(Completed, true, NoError, 1, [[]]) }

  function ReceiverDone(sha: seq<Byte> -> Digest): System {
    Placed(sha).(r := Recv(Finished(), 1, [Verified(sha).(finalized := true)], HIdle, None, Some(CONTENT)),
                 toS := [Progress(1), Complete(true, NoError)])
  }

  lemma ReceiverDoneIsReachable(sha: seq<Byte> -> Digest)
    ensures Reachable(OneFile(sha), ReceiverDone(sha))
  {
    hide Crc32.Checksum, Reachable, WriteAt;
    var env, s0 := OneFile(sha), Placed(sha);
    PlacedIsReachable(sha);
    Extend(env, s0, HandlerMoves(true, true));
    var files := [Verified(sha).(finalized := true)];
    var s1 := s0.(r := Recv(Live([[]]), 1, files, HEnd(true, NoError), None, Some(CONTENT)),
                  toS := [Progress(1), Complete(true, NoError)]);
    assert Apply(env, s0, HandlerMoves(true, true)) == s1;
    Extend(env, s1, HandlerMoves(true, true));
    assert Apply(env, s1, HandlerMoves(true, true)) == ReceiverDone(sha);
  }

  function Done(sha: seq<Byte> -> Digest): System {
    ReceiverDone(sha).(s := Sender(Local(Completed, true, NoError, 1, [[], []]), 1, 1, 1, 1, 0, CONTENT, true, 0, 0),
                       toS := [])
  }

  /** Whatever the hash function, both sides can complete, with the file in place. */
  lemma CompletionIsReachable(sha: seq<Byte> -> Digest)
    ensures Reachable(OneFile(sha), Done(sha))
    ensures Done(sha).s.local.status.Completed? && Done(sha).r.local.status.Completed?
    ensures Done(sha).r.dest == [Some(CONTENT)]
  {
    hide Crc32.Checksum, Reachable, WriteAt;
    var env, s2 := OneFile(sha), ReceiverDone(sha);
    ReceiverDoneIsReachable(sha);
    Extend(env, s2, SenderReceives);
    var s3 := s2.(s := Sender(Live([[]]), 1, 1, 1, 1, 0, CONTENT, true, 0, 0), toS := [Complete(true, NoError)]);
    assert Apply(env, s2, SenderReceives) == s3;
    Extend(env, s3, SenderReceives);
    var s4 := s3.(s := Sender(Live([[], [Finish(true, NoError)]]), 1, 1, 1, 1, 0, CONTENT, true, 0, 0), toS := []);
    assert Apply(env, s3, SenderReceives) == s4;
    Extend(env, s4, SenderScript(1));
    assert s4.s.local.scripts[1][1..] == [];
    assert s4.s.local.scripts[1 := []] == [[], []];
    assert s4.toR + [] == s4.toR;
    assert Apply(env, s4, SenderScript(1)) == Done(sha);
  }
}
