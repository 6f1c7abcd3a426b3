// Every call of the queue answers, after few moves of its own, whatever the
// other thread does; and what the answers say.
module SpscProgress {
  import opened Arithmetic
  import opened SpscQueue
  import opened SpscInvariant
  import opened SpscTheorems

  // ----- how far a call still is from its return -----

  function ProducerLeft<T>(p: Producer<T>): nat {
    match p
    case ProducerIdle => 0
    case Enqueuing(_, _, at) =>
      match at
      case LoadTailBlock => 11
      case LoadTail(_) => 10
      case CheckRoom(_, _, _) => 9
      case WriteElement(_, _) => 2
      case StoreTail(_, _) => 1
      case LoadNext(_) => 8
      case CompareFrontBlock(_, _) => 7
      case ReloadNext(_) => 6
      case LoadNextFront(_, _) => 5
      case LoadNextTail(_, _, _) => 4
      case WriteNextElement(_, _) => 3
      case StoreNextTail(_, _) => 2
      case AdvanceTailBlock(_) => 1
      case AllocateBlock(_) => 4
      case LinkNewBlock(_, _) => 3
      case LinkTailBlock(_, _) => 2
      case PublishBlock(_) => 1
      case EnqueueReturn(_) => 0
      case ProducerAbort => 0
  }

  function ConsumerLeft<T>(c: Consumer<T>): nat {
    match c
    case ConsumerIdle => 0
    case Dequeuing(_, at) =>
      match at
      case LoadFrontBlock => 13
      case LoadFront(_) => 12
      case CheckElement(_, _, _) => 11
      case TakeElement(_, _) => 2
      case StoreFront(_, _, _) => 1
      case CompareTailBlock(_) => 10
      case ReloadFrontBlock => 9
      case ReloadTail(_) => 8
      case ReloadFront(_, _) => 7
      case LoadNextBlock(_) => 6
      case LoadFrontOfNext(_, _) => 5
      case LoadTailOfNext(_, _, _) => 4
      case AdvanceFrontBlock(_, _) => 3
      case DequeueReturn(_) => 0
      case ConsumerAbort => 0
  }

  lemma TailBlockNearer<T>(s: State<T>)
    requires s.producer.Enqueuing? && InTailBlock(s.producer.at) && !Aborted(TailBlockStep(s))
    ensures ProducerLeft(TailBlockStep(s).producer) < ProducerLeft(s.producer)
  {
  }

  lemma NextBlockNearer<T>(s: State<T>)
    requires s.producer.Enqueuing? && InNextBlock(s.producer.at) && !Aborted(NextBlockStep(s))
    ensures ProducerLeft(NextBlockStep(s).producer) < ProducerLeft(s.producer)
  {
  }

  lemma NewBlockNearer<T>(cfg: Config, s: State<T>, c: Choice<T>)
    requires s.producer.Enqueuing? && InNewBlock(s.producer.at) && !Aborted(NewBlockStep(cfg, s, c))
    ensures ProducerLeft(NewBlockStep(cfg, s, c).producer) < ProducerLeft(s.producer)
  {
  }

  lemma ProducerNearer<T>(cfg: Config, s: State<T>, c: Choice<T>)
    requires EnqueueView(s).EnqueuePending? && !Aborted(s) && !Aborted(Step(cfg, s, ProducerMove(c)))
    ensures ProducerLeft(Step(cfg, s, ProducerMove(c)).producer) < ProducerLeft(s.producer)
  {
    hide TailBlockStep, NextBlockStep, NewBlockStep, ProducerLeft;
    var at := s.producer.at;
    if InTailBlock(at) { TailBlockNearer(s); }
    else if InNextBlock(at) { NextBlockNearer(s); }
    else { NewBlockNearer(cfg, s, c); }
  }

  lemma DequeueNearer<T>(s: State<T>)
    requires s.consumer.Dequeuing? && !s.consumer.at.DequeueReturn? && !s.consumer.at.ConsumerAbort?
    requires DequeueStep(s).consumer.Dequeuing? && !DequeueStep(s).consumer.at.ConsumerAbort?
    ensures ConsumerLeft(DequeueStep(s).consumer) < ConsumerLeft(s.consumer)
  {
  }

  lemma ConsumerNearer<T>(cfg: Config, s: State<T>, c: Choice<T>)
    requires DequeueView(s).DequeuePending? && !Aborted(s) && !Aborted(Step(cfg, s, ConsumerMove(c)))
    ensures ConsumerLeft(Step(cfg, s, ConsumerMove(c)).consumer) < ConsumerLeft(s.consumer)
  {
    StillCalling(s);
    hide DequeueStep, ConsumerLeft;
    DequeueNearer(s);
  }

  lemma StillCalling<T>(s: State<T>)
    requires s.consumer.Dequeuing? && !s.consumer.at.DequeueReturn?
    ensures DequeueStep(s).consumer.Dequeuing?
  {
  }

  // ----- enqueue -----

  // The moves of the producer, and of the consumer, among some.
  function ProducerMoves<T>(moves: seq<Move<T>>): nat {
    if moves == [] then 0 else ProducerMoves(moves[..|moves| - 1]) + if moves[|moves| - 1].ProducerMove? then 1 else 0
  }

  function ConsumerMoves<T>(moves: seq<Move<T>>): nat {
    if moves == [] then 0 else ConsumerMoves(moves[..|moves| - 1]) + if moves[|moves| - 1].ConsumerMove? then 1 else 0
  }

  // Memory is found whenever a move of the producer asks for it.
  ghost predicate MemoryFound<T>(moves: seq<Move<T>>) {
    forall i :: 0 <= i < |moves| ==> moves[i] != ProducerMove(OutOfMemory)
  }

  // The call that s begins has returned in z: with the element at the end of
  // the queue, or refused, because the queue was full at some moment of the
  // call and the call could not allocate or found no memory.
  ghost predicate Enqueued<T>(s: State<T>, moves: seq<Move<T>>, z: State<T>)
    requires s.producer.Enqueuing?
  {
    && z.producer.Enqueuing? && z.producer.at.EnqueueReturn?
    && z.enqueued == s.enqueued + (if z.producer.at.ok then [s.producer.x] else [])
    && (!z.producer.at.ok ==> z.sawFull)
    && (!z.producer.at.ok && s.producer.mode.CanAlloc? ==> !MemoryFound(moves))
  }

  // The call has not taken effect yet, and is nearer to its return.
  ghost predicate StillEnqueuing<T>(s: State<T>, moves: seq<Move<T>>, z: State<T>)
    requires s.producer.Enqueuing?
  {
    && EnqueueView(z) == EnqueuePending(s.producer.x, s.producer.mode) && z.enqueued == s.enqueued
    && ProducerLeft(z.producer) + ProducerMoves(moves) <= ProducerLeft(s.producer)
  }

  lemma RunMore<T>(cfg: Config, s: State<T>, moves: seq<Move<T>>, m: Move<T>)
    ensures Run(cfg, s, moves + [m]) == Step(cfg, Run(cfg, s, moves), m)
    ensures ProducerMoves(moves + [m]) == ProducerMoves(moves) + if m.ProducerMove? then 1 else 0
    ensures ConsumerMoves(moves + [m]) == ConsumerMoves(moves) + if m.ConsumerMove? then 1 else 0
    ensures MemoryFound(moves + [m]) ==> MemoryFound(moves) && m != ProducerMove(OutOfMemory)
  {
    assert (moves + [m])[..|moves|] == moves;
    assert (moves + [m])[|moves|] == m;
    if MemoryFound(moves + [m]) {
      forall i | 0 <= i < |moves| ensures moves[i] != ProducerMove(OutOfMemory) { assert (moves + [m])[i] == moves[i]; }
    }
  }

  lemma EnqueueMove<T>(cfg: Config, s: State<T>, moves: seq<Move<T>>, m: Move<T>)
    requires Good(cfg, s) && s.producer.Enqueuing? && StillEnqueuing(s, moves, Run(cfg, s, moves))
    ensures var z := Run(cfg, s, moves + [m]); StillEnqueuing(s, moves + [m], z) || Enqueued(s, moves + [m], z)
    ensures ProducerMoves(moves + [m]) <= ProducerLeft(s.producer)
  {
    hide Run, Step, Inv, ProducerLeft, MemoryFound, ProducerMoves, StepOf;
    var a := Run(cfg, s, moves);
    RunMore(cfg, s, moves, m);
    RunKeepsGood(cfg, s, moves);
    var v := SomeView(cfg, a);
    NotAborted(cfg, a, v);
    match m
    case ProducerMove(c) =>
      ProducerMoveOutcome(cfg, a, v, c);
      ProducerMoveDoes(cfg, a, c);
      ProducerMoveRefines(cfg, a, v, c);
      ProducerNearer(cfg, a, c);
      LabelsFit(a, m);
    case ConsumerMove(c) =>
      ConsumerMoveOutcome(cfg, a, v, c);
      ConsumerMoveDoes(cfg, a, c);
  }

  // However the moves of the consumer come between them, after at most eleven
  // moves of its own an enqueue returns: with the element in the queue or
  // refused for good reason.
  lemma {:induction false} EnqueueReturns<T>(cfg: Config, s: State<T>, moves: seq<Move<T>>) returns (k: nat)
    requires Good(cfg, s) && s.producer.Enqueuing? && s.producer.at.LoadTailBlock?
    ensures k <= |moves| && ProducerMoves(moves[..k]) <= 11
    ensures Enqueued(s, moves[..k], Run(cfg, s, moves[..k])) || (k == |moves| && StillEnqueuing(s, moves, Run(cfg, s, moves)))
    ensures ProducerMoves(moves) >= 11 ==> Enqueued(s, moves[..k], Run(cfg, s, moves[..k]))
    decreases |moves|
  {
    hide Inv, Run, Step, Enqueued, StillEnqueuing, Good;
    if moves == [] {
      k := 0;
      NotBegun(cfg, s);
    } else {
      var n := |moves| - 1;
      k := EnqueueReturns(cfg, s, moves[..n]);
      assert moves[..n][..k] == moves[..k];
      if !Enqueued(s, moves[..k], Run(cfg, s, moves[..k])) {
        EnqueueMove(cfg, s, moves[..n], moves[n]);
        assert moves[..n] + [moves[n]] == moves && moves[..|moves|] == moves;
        k := |moves|;
      }
    }
    if StillEnqueuing(s, moves, Run(cfg, s, moves)) { NotYet(cfg, s, moves); }
  }

  lemma NotBegun<T>(cfg: Config, s: State<T>)
    requires s.producer.Enqueuing? && s.producer.at.LoadTailBlock?
    ensures StillEnqueuing(s, [], Run(cfg, s, []))
  {
  }

  // A call that has not taken effect has a move to make.
  lemma NotYet<T>(cfg: Config, s: State<T>, moves: seq<Move<T>>)
    requires Good(cfg, s) && s.producer.Enqueuing? && s.producer.at.LoadTailBlock? && StillEnqueuing(s, moves, Run(cfg, s, moves))
    ensures ProducerMoves(moves) < 11
  {
    hide Inv, Run;
    RunKeepsGood(cfg, s, moves);
    var v := SomeView(cfg, Run(cfg, s, moves));
    NotAborted(cfg, Run(cfg, s, moves), v);
  }

  // ----- try_dequeue, peek and pop -----

  // The call that s begins has returned in z: with the first element, removed
  // unless the call only looks, or with nothing, because the queue was empty at
  // some moment of the call.
  ghost predicate Dequeued<T>(s: State<T>, z: State<T>)
    requires s.consumer.Dequeuing?
  {
    && z.consumer.Dequeuing? && z.consumer.op == s.consumer.op && z.consumer.at.DequeueReturn?
    && match z.consumer.at.res
       case Nothing => z.sawEmpty && z.dequeued == s.dequeued
       case Got(x) => !s.consumer.op.Peek? && z.dequeued == s.dequeued + [x]
       case Address(b, i) =>
         && s.consumer.op.Peek? && z.dequeued == s.dequeued && |z.dequeued| < |z.enqueued|
         && Has(z, b, i) && z.blocks[b].data[i] == Live(z.enqueued[|z.dequeued|])
  }

  ghost predicate StillDequeuing<T>(s: State<T>, moves: seq<Move<T>>, z: State<T>)
    requires s.consumer.Dequeuing?
  {
    && DequeueView(z) == DequeuePending(s.consumer.op) && z.dequeued == s.dequeued
    && ConsumerLeft(z.consumer) + ConsumerMoves(moves) <= ConsumerLeft(s.consumer)
  }

  lemma DequeueMove<T>(cfg: Config, s: State<T>, moves: seq<Move<T>>, m: Move<T>)
    requires Good(cfg, s) && s.consumer.Dequeuing? && StillDequeuing(s, moves, Run(cfg, s, moves))
    ensures var z := Run(cfg, s, moves + [m]); StillDequeuing(s, moves + [m], z) || Dequeued(s, z)
    ensures ConsumerMoves(moves + [m]) <= ConsumerLeft(s.consumer)
  {
    hide Run, Step, Inv, ConsumerLeft, ConsumerMoves, StepOf, Dequeued;
    var a := Run(cfg, s, moves);
    RunMore(cfg, s, moves, m);
    RunKeepsGood(cfg, s, moves);
    var v := SomeView(cfg, a);
    match m
    case ProducerMove(c) =>
      ProducerMoveOutcome(cfg, a, v, c);
      ProducerFrame(cfg, a, c);
      ProducerMoveShows(cfg, a, v, c);
    case ConsumerMove(c) =>
      NotAborted(cfg, a, v);
      ConsumerMoveOutcome(cfg, a, v, c);
      ConsumerMoveDoes(cfg, a, c);
      ConsumerNearer(cfg, a, c);
      OnlyPeekKeeps(cfg, a, v, c);
      MoveKeepsGood(cfg, a, m);
      if !DequeueView(Step(cfg, a, m)).DequeuePending? { DequeueOutcome(cfg, s, a, c); }
  }

  lemma OnlyPeekKeeps<T>(cfg: Config, s: State<T>, v: View, c: Choice<T>)
    requires Inv(cfg, s, v)
    ensures StepOf(s, ConsumerMove(c)).RemoveFirst? ==> !s.consumer.op.Peek?
  {
    ConsumerReasons(s, v, c);
  }

  lemma DequeueOutcome<T>(cfg: Config, s: State<T>, a: State<T>, c: Choice<T>)
    requires s.consumer.Dequeuing? && DequeueView(a) == DequeuePending(s.consumer.op) && a.dequeued == s.dequeued
    requires var z := Step(cfg, a, ConsumerMove(c));
      ConsumerDoes(a, StepOf(a, ConsumerMove(c)), z) && Good(cfg, z) && !DequeueView(z).DequeuePending?
    requires StepOf(a, ConsumerMove(c)).RemoveFirst? ==> !a.consumer.op.Peek?
    ensures Dequeued(s, Step(cfg, a, ConsumerMove(c)))
  {
    hide Step, StepOf, Inv, Good;
    var z, step := Step(cfg, a, ConsumerMove(c)), StepOf(a, ConsumerMove(c));
    assert step.RemoveFirst? || step.ShowFirst? || step.FindEmpty?;
    DequeueAnswer(cfg, Step(cfg, a, ConsumerMove(c)));
  }

  // What the invariant says about an answer.
  lemma DequeueAnswer<T>(cfg: Config, z: State<T>)
    requires Good(cfg, z) && z.consumer.Dequeuing? && z.consumer.at.DequeueReturn?
    ensures match z.consumer.at.res
      case Nothing => z.sawEmpty
      case Got(x) => !z.consumer.op.Peek? && |z.dequeued| > 0 && x == z.dequeued[|z.dequeued| - 1]
      case Address(b, i) =>
        z.consumer.op.Peek? && |z.dequeued| < |z.enqueued| && Has(z, b, i) && z.blocks[b].data[i] == Live(z.enqueued[|z.dequeued|])
  {
  }

  // However the moves of the producer come between them, after at most
  // thirteen moves of its own a dequeue or a peek returns.
  lemma {:induction false} DequeueReturns<T>(cfg: Config, s: State<T>, moves: seq<Move<T>>) returns (k: nat)
    requires Good(cfg, s) && s.consumer.Dequeuing? && s.consumer.at.LoadFrontBlock?
    ensures k <= |moves| && ConsumerMoves(moves[..k]) <= 13
    ensures Dequeued(s, Run(cfg, s, moves[..k])) || (k == |moves| && StillDequeuing(s, moves, Run(cfg, s, moves)))
    ensures ConsumerMoves(moves) >= 13 ==> Dequeued(s, Run(cfg, s, moves[..k]))
    decreases |moves|
  {
    hide Inv, Run, Step, Dequeued, StillDequeuing, Good;
    if moves == [] {
      k := 0;
      NotLooked(cfg, s);
    } else {
      var n := |moves| - 1;
      k := DequeueReturns(cfg, s, moves[..n]);
      assert moves[..n][..k] == moves[..k];
      if !Dequeued(s, Run(cfg, s, moves[..k])) {
        DequeueMove(cfg, s, moves[..n], moves[n]);
        assert moves[..n] + [moves[n]] == moves && moves[..|moves|] == moves;
        k := |moves|;
      }
    }
    if StillDequeuing(s, moves, Run(cfg, s, moves)) { NotYetFound(cfg, s, moves); }
  }

  lemma NotLooked<T>(cfg: Config, s: State<T>)
    requires s.consumer.Dequeuing? && s.consumer.at.LoadFrontBlock?
    ensures StillDequeuing(s, [], Run(cfg, s, []))
  {
  }

  lemma NotYetFound<T>(cfg: Config, s: State<T>, moves: seq<Move<T>>)
    requires Good(cfg, s) && s.consumer.Dequeuing? && s.consumer.at.LoadFrontBlock? && StillDequeuing(s, moves, Run(cfg, s, moves))
    ensures ConsumerMoves(moves) < 13
  {
    hide Inv, Run;
    RunKeepsGood(cfg, s, moves);
    var v := SomeView(cfg, Run(cfg, s, moves));
    NotAborted(cfg, Run(cfg, s, moves), v);
  }

  // ----- growth -----

  ghost predicate SameSizes<T>(s: State<T>, z: State<T>) {
    |s.blocks| <= |z.blocks| && forall j :: 0 <= j < |s.blocks| ==> z.blocks[j].size == s.blocks[j].size
  }

  // A move adds no block, or, for a call that has seen the queue full, one of
  // twice the size of the last one, up to the greatest size.
  lemma StepGrows<T>(cfg: Config, s: State<T>, m: Move<T>)
    requires Good(cfg, s)
    ensures var z := Step(cfg, s, m);
      && SameSizes(s, z)
      && if |z.blocks| == |s.blocks| then z.largest == s.largest
         else
           && |z.blocks| == |s.blocks| + 1 && s.sawFull && s.producer.Enqueuing? && s.producer.mode.CanAlloc?
           && z.largest == z.blocks[|s.blocks|].size == if s.largest >= cfg.maxBlockSize then s.largest else 2 * s.largest
  {
    AllocatesWhenFull(cfg, s);
    hide Good, EnqueueStep, DequeueStep;
    if m.ProducerMove? && s.producer.Enqueuing? { EnqueueGrows(cfg, s, m.choice); } else if m.ConsumerMove? && s.consumer.Dequeuing? { DequeueGrows(s); }
  }

  lemma AllocatesWhenFull<T>(cfg: Config, s: State<T>)
    requires Good(cfg, s)
    ensures s.producer.Enqueuing? && s.producer.at.AllocateBlock? ==> s.sawFull && s.producer.mode.CanAlloc?
  {
  }

  ghost predicate Grown<T>(cfg: Config, s: State<T>, z: State<T>) {
    && SameSizes(s, z)
    && if |z.blocks| == |s.blocks| then z.largest == s.largest
       else
         && |z.blocks| == |s.blocks| + 1 && s.producer.Enqueuing? && s.producer.at.AllocateBlock?
         && z.largest == z.blocks[|s.blocks|].size == if s.largest >= cfg.maxBlockSize then s.largest else 2 * s.largest
  }

  lemma TailBlockGrows<T>(cfg: Config, s: State<T>)
    requires s.producer.Enqueuing? && InTailBlock(s.producer.at)
    ensures Grown(cfg, s, TailBlockStep(s))
  {
  }

  lemma NextBlockGrows<T>(cfg: Config, s: State<T>)
    requires s.producer.Enqueuing? && InNextBlock(s.producer.at)
    ensures Grown(cfg, s, NextBlockStep(s))
  {
  }

  lemma NewBlockGrows<T>(cfg: Config, s: State<T>, c: Choice<T>)
    requires s.producer.Enqueuing? && InNewBlock(s.producer.at)
    ensures Grown(cfg, s, NewBlockStep(cfg, s, c))
  {
  }

  lemma EnqueueGrows<T>(cfg: Config, s: State<T>, c: Choice<T>)
    requires s.producer.Enqueuing?
    ensures Grown(cfg, s, EnqueueStep(cfg, s, c))
  {
    hide TailBlockStep, NextBlockStep, NewBlockStep;
    var at := s.producer.at;
    if InTailBlock(at) { TailBlockGrows(cfg, s); }
    else if InNextBlock(at) { NextBlockGrows(cfg, s); }
    else if InNewBlock(at) { NewBlockGrows(cfg, s, c); }
  }

  lemma DequeueGrows<T>(s: State<T>)
    requires s.consumer.Dequeuing?
    ensures SameSizes(s, DequeueStep(s)) && |DequeueStep(s).blocks| == |s.blocks| && DequeueStep(s).largest == s.largest
  {
  }

  // Blocks grow geometrically: until the greatest size is reached, the n-th new
  // block is 2^n times as large as the largest one before.
  lemma {:induction false} RunGrows<T>(cfg: Config, s: State<T>, moves: seq<Move<T>>)
    requires Good(cfg, s)
    ensures var z := Run(cfg, s, moves);
      && SameSizes(s, z)
      && (z.largest >= cfg.maxBlockSize || z.largest == s.largest * Pow2(|z.blocks| - |s.blocks|))
      && (|z.blocks| > |s.blocks| ==> z.blocks[|z.blocks| - 1].size == z.largest)
    decreases |moves|
  {
    hide Inv, Step, Pow2, Good;
    if moves == [] {
      NoPower();
    } else {
      var n := |moves| - 1;
      var a := Run(cfg, s, moves[..n]);
      RunGrows(cfg, s, moves[..n]);
      RunKeepsGood(cfg, s, moves[..n]);
      StepGrows(cfg, a, moves[n]);
      NextPower2(s.largest, |a.blocks| - |s.blocks|);
    }
  }

  lemma NoPower()
    ensures Pow2(0) == 1
  {
  }

  lemma NextPower2(largest: nat, k: nat)
    ensures 2 * (largest * Pow2(k)) == largest * Pow2(k + 1)
  {
    var p := Pow2(k);
    assert Pow2(k + 1) == 2 * p;
    assert 2 * (largest * p) == largest * (2 * p);
  }
}
