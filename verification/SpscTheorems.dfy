// What the queue promises over every interleaving of the two threads.
module SpscTheorems {
  import opened SpscQueue
  import opened SpscInvariant
  import opened SpscBlocks
  import opened SpscProducer
  import opened SpscConsumer

  ghost predicate Good<T>(cfg: Config, s: State<T>) {
    exists v :: Inv(cfg, s, v)
  }

  lemma SomeView<T>(cfg: Config, s: State<T>) returns (v: View)
    requires Good(cfg, s)
    ensures Inv(cfg, s, v)
  {
    v :| Inv(cfg, s, v);
  }

  lemma MoveKeepsGood<T>(cfg: Config, s: State<T>, m: Move<T>)
    requires Good(cfg, s)
    ensures Good(cfg, Step(cfg, s, m))
  {
    var v :| Inv(cfg, s, v);
    match m
    case ProducerMove(c) => var v' := ProducerKeepsInv(cfg, s, v, c);
    case ConsumerMove(c) => var v' := ConsumerKeepsInv(cfg, s, v, c);
  }

  lemma {:induction false} RunKeepsGood<T>(cfg: Config, s: State<T>, moves: seq<Move<T>>)
    requires Good(cfg, s)
    ensures Good(cfg, Run(cfg, s, moves))
    decreases |moves|
  {
    if moves != [] {
      RunKeepsGood(cfg, s, moves[..|moves| - 1]);
      MoveKeepsGood(cfg, Run(cfg, s, moves[..|moves| - 1]), moves[|moves| - 1]);
    }
  }

  // The elements in the queue, oldest first.
  ghost function Queue<T>(s: State<T>): seq<T>
    requires |s.dequeued| <= |s.enqueued|
  {
    s.enqueued[|s.dequeued|..]
  }

  // ----- the atomic queue the machine implements -----

  datatype EnqueueCall<T> = NoEnqueue | EnqueuePending(x: T, mode: AllocMode) | EnqueueDone(x: T, mode: AllocMode, ok: bool)

  datatype DequeueCall<T> = NoDequeue | DequeuePending(op: ConsumerOp) | DequeueDone(op: ConsumerOp, res: Result<T>)

  datatype Result<T> = Empty | Element(x: T)

  datatype Atomic<T> = Atomic(queue: seq<T>, enq: EnqueueCall<T>, deq: DequeueCall<T>, sawFull: bool, sawEmpty: bool)

  // A call takes effect in one step between its invocation and its response.
  // A call may fail only if it saw, at some moment since its invocation, a
  // full or an empty queue; one that may allocate fails only if, besides, a
  // move of it finds no memory.
  datatype AtomicStep<T> =
    | Stutter
    | InvokeEnqueue(x: T, mode: AllocMode)
    | Append
    | RefuseAppend(noMemory: bool)
    | RespondEnqueue
    | InvokeDequeue(op: ConsumerOp)
    | RemoveFirst
    | ShowFirst
    | FindEmpty
    | RespondDequeue

  ghost predicate Next<T>(cfg: Config, a: Atomic<T>, step: AtomicStep<T>, a': Atomic<T>) {
    && a'.sawFull == ((a.sawFull && !step.InvokeEnqueue?) || |a'.queue| >= cfg.maxSize)
    && a'.sawEmpty == ((a.sawEmpty && !step.InvokeDequeue?) || a'.queue == [])
    && match step
       case Stutter => a'.queue == a.queue && a'.enq == a.enq && a'.deq == a.deq
       case InvokeEnqueue(x, mode) =>
         a.enq == NoEnqueue && a'.enq == EnqueuePending(x, mode) && a'.queue == a.queue && a'.deq == a.deq
       case Append =>
         && a.enq.EnqueuePending? && a'.enq == EnqueueDone(a.enq.x, a.enq.mode, true)
         && a'.queue == a.queue + [a.enq.x] && a'.deq == a.deq
       case RefuseAppend(noMemory) =>
         && a.enq.EnqueuePending? && a.sawFull && (a.enq.mode.CanAlloc? ==> noMemory)
         && a'.enq == EnqueueDone(a.enq.x, a.enq.mode, false) && a'.queue == a.queue && a'.deq == a.deq
       case RespondEnqueue =>
         a.enq.EnqueueDone? && a'.enq == NoEnqueue && a'.queue == a.queue && a'.deq == a.deq
       case InvokeDequeue(op) =>
         a.deq == NoDequeue && a'.deq == DequeuePending(op) && a'.queue == a.queue && a'.enq == a.enq
       case RemoveFirst =>
         && a.deq.DequeuePending? && !a.deq.op.Peek? && a.queue != []
         && a'.deq == DequeueDone(a.deq.op, Element(a.queue[0])) && a'.queue == a.queue[1..] && a'.enq == a.enq
       case ShowFirst =>
         && a.deq.DequeuePending? && a.deq.op.Peek? && a.queue != []
         && a'.deq == DequeueDone(a.deq.op, Element(a.queue[0])) && a'.queue == a.queue && a'.enq == a.enq
       case FindEmpty =>
         && a.deq.DequeuePending? && a.sawEmpty
         && a'.deq == DequeueDone(a.deq.op, Empty) && a'.queue == a.queue && a'.enq == a.enq
       case RespondDequeue =>
         a.deq.DequeueDone? && a'.deq == NoDequeue && a'.queue == a.queue && a'.enq == a.enq
  }

  // The element a consumer call is about to hand back.
  ghost function ResultOf<T>(s: State<T>, res: Taken<T>): Result<T> {
    match res
    case Nothing => Empty
    case Got(x) => Element(x)
    case Address(b, i) =>
      if Has(s, b, i) && s.blocks[b].data[i].Live? then Element(s.blocks[b].data[i].value) else Empty
  }

  ghost function EnqueueView<T>(s: State<T>): EnqueueCall<T> {
    match s.producer
    case ProducerIdle => NoEnqueue
    case Enqueuing(x, mode, at) => if at.EnqueueReturn? then EnqueueDone(x, mode, at.ok) else EnqueuePending(x, mode)
  }

  ghost function DequeueView<T>(s: State<T>): DequeueCall<T> {
    match s.consumer
    case ConsumerIdle => NoDequeue
    case Dequeuing(op, at) => if at.DequeueReturn? then DequeueDone(op, ResultOf(s, at.res)) else DequeuePending(op)
  }

  ghost function View0<T>(s: State<T>): Atomic<T>
    requires |s.dequeued| <= |s.enqueued|
  {
    Atomic(Queue(s), EnqueueView(s), DequeueView(s), s.sawFull, s.sawEmpty)
  }

  // The step of the atomic queue that a move of a thread performs.
  ghost function StepOf<T>(s: State<T>, m: Move<T>): AtomicStep<T> {
    match m
    case ProducerMove(c) =>
      if s.producer.ProducerIdle? then (if c.CallEnqueue? then InvokeEnqueue(c.x, c.mode) else Stutter)
      else (match s.producer.at
            case StoreTail(_, _) => Append
            case AdvanceTailBlock(_) => Append
            case PublishBlock(_) => Append
            case CompareFrontBlock(_, nx) =>
              if nx == To(s.frontBlock) && s.producer.mode.CannotAlloc? then RefuseAppend(false) else Stutter
            case AllocateBlock(_) => if c.OutOfMemory? then RefuseAppend(true) else Stutter
            case EnqueueReturn(_) => RespondEnqueue
            case _ => Stutter)
    case ConsumerMove(c) =>
      if s.consumer.ConsumerIdle? then (if c.CallDequeue? then InvokeDequeue(c.op) else Stutter)
      else (match s.consumer.at
            case StoreFront(_, _, _) => RemoveFirst
            case TakeElement(_, _) => if s.consumer.op.Peek? then ShowFirst else Stutter
            case LoadTailOfNext(_, _, _) => if s.consumer.op.Peek? then ShowFirst else Stutter
            case CompareTailBlock(fb) => if fb == s.tailBlock then FindEmpty else Stutter
            case DequeueReturn(_) => RespondDequeue
            case _ => Stutter)
  }

  // A step belongs to the thread that moves; calls and failures to allocate are
  // those of the move.
  ghost predicate Labels<T>(m: Move<T>, step: AtomicStep<T>) {
    match step
    case Stutter => true
    case InvokeEnqueue(x, mode) => m == ProducerMove(CallEnqueue(x, mode))
    case Append => m.ProducerMove?
    case RefuseAppend(noMemory) => m.ProducerMove? && (noMemory ==> m.choice.OutOfMemory?)
    case RespondEnqueue => m.ProducerMove?
    case InvokeDequeue(op) => m == ConsumerMove(CallDequeue(op))
    case RemoveFirst => m.ConsumerMove?
    case ShowFirst => m.ConsumerMove?
    case FindEmpty => m.ConsumerMove?
    case RespondDequeue => m.ConsumerMove?
  }

  lemma LabelsFit<T>(s: State<T>, m: Move<T>)
    ensures Labels(m, StepOf(s, m))
  {
  }

  lemma PeekedElement<T>(cfg: Config, s: State<T>, v: View)
    requires Inv(cfg, s, v) && s.consumer.Dequeuing? && s.consumer.at.DequeueReturn? && s.consumer.at.res.Address?
    ensures |s.dequeued| < |s.enqueued| && DequeueView(s) == DequeueDone(s.consumer.op, Element(Queue(s)[0]))
  {
  }

  // What a producer step of the atomic queue does to the producer's call and
  // to the log of enqueued elements.
  ghost predicate ProducerDoes<T>(s: State<T>, step: AtomicStep<T>, s': State<T>) {
    && s'.dequeued == s.dequeued
    && (match step
        case Stutter => EnqueueView(s') == EnqueueView(s) && s'.enqueued == s.enqueued
        case InvokeEnqueue(x, mode) =>
          EnqueueView(s) == NoEnqueue && EnqueueView(s') == EnqueuePending(x, mode) && s'.enqueued == s.enqueued
        case Append =>
          && EnqueueView(s).EnqueuePending? && EnqueueView(s') == EnqueueDone(s.producer.x, s.producer.mode, true)
          && s'.enqueued == s.enqueued + [s.producer.x]
        case RefuseAppend(_) =>
          && EnqueueView(s).EnqueuePending? && EnqueueView(s') == EnqueueDone(s.producer.x, s.producer.mode, false)
          && s'.enqueued == s.enqueued
        case RespondEnqueue => EnqueueView(s).EnqueueDone? && EnqueueView(s') == NoEnqueue && s'.enqueued == s.enqueued
        case _ => false)
  }

  lemma ProducerEffect<T>(cfg: Config, s: State<T>, c: Choice<T>)
    requires s.producer.Enqueuing? && !Aborted(EnqueueStep(cfg, s, c))
    ensures ProducerDoes(s, StepOf(s, ProducerMove(c)), EnqueueStep(cfg, s, c))
  {
    if StepOf(s, ProducerMove(c)).Stutter? { ProducerStutters(cfg, s, c); } else { ProducerActs(cfg, s, c); }
  }

  lemma ProducerStutters<T>(cfg: Config, s: State<T>, c: Choice<T>)
    requires s.producer.Enqueuing? && StepOf(s, ProducerMove(c)).Stutter? && !Aborted(EnqueueStep(cfg, s, c))
    ensures EnqueueView(EnqueueStep(cfg, s, c)) == EnqueueView(s) && EnqueueStep(cfg, s, c).enqueued == s.enqueued
  {
    if InTailBlock(s.producer.at) {
      hide NextBlockStep, NewBlockStep;
      TailBlockStutters(s, c);
    } else if InNextBlock(s.producer.at) {
      hide TailBlockStep, NewBlockStep;
      NextBlockStutters(s, c);
    } else {
      hide TailBlockStep, NextBlockStep;
    }
  }

  lemma TailBlockStutters<T>(s: State<T>, c: Choice<T>)
    requires s.producer.Enqueuing? && InTailBlock(s.producer.at) && StepOf(s, ProducerMove(c)).Stutter? && !Aborted(TailBlockStep(s))
    ensures EnqueueView(TailBlockStep(s)) == EnqueueView(s) && TailBlockStep(s).enqueued == s.enqueued
  {
  }

  lemma NextBlockStutters<T>(s: State<T>, c: Choice<T>)
    requires s.producer.Enqueuing? && InNextBlock(s.producer.at) && StepOf(s, ProducerMove(c)).Stutter? && !Aborted(NextBlockStep(s))
    ensures EnqueueView(NextBlockStep(s)) == EnqueueView(s) && NextBlockStep(s).enqueued == s.enqueued
  {
  }

  lemma ProducerActs<T>(cfg: Config, s: State<T>, c: Choice<T>)
    requires s.producer.Enqueuing? && !StepOf(s, ProducerMove(c)).Stutter? && !Aborted(EnqueueStep(cfg, s, c))
    ensures ProducerDoes(s, StepOf(s, ProducerMove(c)), EnqueueStep(cfg, s, c))
  {
  }

  lemma RefusalIsJustified<T>(cfg: Config, s: State<T>, v: View, c: Choice<T>)
    requires RingOk(s, v) && ProducerOk(cfg, s, v) && StepOf(s, ProducerMove(c)).RefuseAppend?
    ensures s.sawFull && (s.producer.mode.CanAlloc? ==> StepOf(s, ProducerMove(c)).noMemory)
  {
    if s.producer.at.CompareFrontBlock? { NextIsFront(s, v); }
  }

  lemma NotAborted<T>(cfg: Config, s: State<T>, v: View)
    requires Inv(cfg, s, v)
    ensures !Aborted(s) && s.dequeued <= s.enqueued
  {
  }

  // A producer move leaves the consumer's side of the atomic queue alone.
  lemma ProducerLeavesConsumer<T>(cfg: Config, s: State<T>, v: View, s': State<T>, v': View)
    requires Inv(cfg, s, v) && Inv(cfg, s', v') && s'.consumer == s.consumer
    requires s'.dequeued == s.dequeued && s.enqueued <= s'.enqueued
    ensures DequeueView(s') == DequeueView(s)
  {
    if s.consumer.Dequeuing? && s.consumer.at.DequeueReturn? && s.consumer.at.res.Address? {
      PeekedElement(cfg, s, v);
      PeekedElement(cfg, s', v');
    }
  }

  lemma ProducerComposes<T>(cfg: Config, s: State<T>, step: AtomicStep<T>, s': State<T>)
    requires s.dequeued <= s.enqueued && s'.dequeued <= s'.enqueued
    requires ProducerDoes(s, step, s') && DequeueView(s') == DequeueView(s)
    requires step.RefuseAppend? ==> s.sawFull && (s.producer.mode.CanAlloc? ==> step.noMemory)
    requires s'.sawFull == ((s.sawFull && !step.InvokeEnqueue?) || |s'.enqueued| >= |s'.dequeued| + cfg.maxSize)
    requires s'.sawEmpty == (s.sawEmpty || |s'.enqueued| <= |s'.dequeued|)
    ensures Next(cfg, View0(s), step, View0(s'))
  {
  }

  lemma ProducerMoveOutcome<T>(cfg: Config, s: State<T>, v: View, c: Choice<T>)
    requires Inv(cfg, s, v)
    ensures var s' := Step(cfg, s, ProducerMove(c)); !Aborted(s') && s'.dequeued <= s'.enqueued
  {
    var v' := ProducerKeepsInv(cfg, s, v, c);
    NotAborted(cfg, Step(cfg, s, ProducerMove(c)), v');
  }

  lemma ProducerMoveDoes<T>(cfg: Config, s: State<T>, c: Choice<T>)
    requires !Aborted(Step(cfg, s, ProducerMove(c)))
    ensures ProducerDoes(s, StepOf(s, ProducerMove(c)), Step(cfg, s, ProducerMove(c)))
  {
    if s.producer.Enqueuing? { ProducerEffect(cfg, s, c); }
  }

  lemma ProducerMoveShows<T>(cfg: Config, s: State<T>, v: View, c: Choice<T>)
    requires Inv(cfg, s, v)
    ensures DequeueView(Step(cfg, s, ProducerMove(c))) == DequeueView(s)
  {
    var s' := Step(cfg, s, ProducerMove(c));
    var v' := ProducerKeepsInv(cfg, s, v, c);
    ProducerFrame(cfg, s, c);
    ProducerLeavesConsumer(cfg, s, v, s', v');
  }

  lemma Observed<T>(cfg: Config, s: State<T>, m: Move<T>)
    ensures var s', step := Step(cfg, s, m), StepOf(s, m);
      && s'.sawFull == ((s.sawFull && !step.InvokeEnqueue?) || |s'.enqueued| >= |s'.dequeued| + cfg.maxSize)
      && s'.sawEmpty == ((s.sawEmpty && !step.InvokeDequeue?) || |s'.enqueued| <= |s'.dequeued|)
  {
  }

  lemma ProducerMoveRefines<T>(cfg: Config, s: State<T>, v: View, c: Choice<T>)
    requires Inv(cfg, s, v)
    ensures s.dequeued <= s.enqueued && Step(cfg, s, ProducerMove(c)).dequeued <= Step(cfg, s, ProducerMove(c)).enqueued
    ensures Next(cfg, View0(s), StepOf(s, ProducerMove(c)), View0(Step(cfg, s, ProducerMove(c))))
  {
    ProducerMoveOutcome(cfg, s, v, c);
    ProducerMoveDoes(cfg, s, c);
    ProducerMoveShows(cfg, s, v, c);
    Observed(cfg, s, ProducerMove(c));
    if StepOf(s, ProducerMove(c)).RefuseAppend? { RefusalIsJustified(cfg, s, v, c); }
    ProducerComposes(cfg, s, StepOf(s, ProducerMove(c)), Step(cfg, s, ProducerMove(c)));
  }

  lemma ProducerFrame<T>(cfg: Config, s: State<T>, c: Choice<T>)
    ensures Step(cfg, s, ProducerMove(c)).consumer == s.consumer
    ensures Step(cfg, s, ProducerMove(c)).dequeued == s.dequeued
    ensures s.enqueued <= Step(cfg, s, ProducerMove(c)).enqueued
  {
  }

  // The same for the consumer.
  ghost predicate ConsumerDoes<T>(s: State<T>, step: AtomicStep<T>, s': State<T>) {
    && s'.enqueued == s.enqueued && s'.producer == s.producer
    && (match step
        case Stutter => DequeueView(s') == DequeueView(s) && s'.dequeued == s.dequeued
        case InvokeDequeue(op) =>
          DequeueView(s) == NoDequeue && DequeueView(s') == DequeuePending(op) && s'.dequeued == s.dequeued
        case RemoveFirst =>
          && DequeueView(s).DequeuePending? && s.consumer.at.StoreFront?
          && DequeueView(s') == DequeueDone(s.consumer.op, Element(s.consumer.at.v))
          && s'.dequeued == s.dequeued + [s.consumer.at.v]
        case ShowFirst =>
          && DequeueView(s).DequeuePending? && s.consumer.op.Peek? && s'.dequeued == s.dequeued
          && s'.consumer.Dequeuing? && s'.consumer.op == s.consumer.op
          && s'.consumer.at.DequeueReturn? && s'.consumer.at.res.Address?
        case FindEmpty =>
          && DequeueView(s).DequeuePending? && s.consumer.at.CompareTailBlock? && s.consumer.at.fb == s.tailBlock
          && DequeueView(s') == DequeueDone(s.consumer.op, Empty) && s'.dequeued == s.dequeued
        case RespondDequeue => DequeueView(s).DequeueDone? && DequeueView(s') == NoDequeue && s'.dequeued == s.dequeued
        case _ => false)
  }

  lemma ConsumerEffect<T>(s: State<T>, c: Choice<T>)
    requires s.consumer.Dequeuing? && !Aborted(DequeueStep(s))
    ensures ConsumerDoes(s, StepOf(s, ConsumerMove(c)), DequeueStep(s))
  {
  }

  lemma ConsumerComposes<T>(cfg: Config, s: State<T>, step: AtomicStep<T>, s': State<T>)
    requires s.dequeued <= s.enqueued && s'.dequeued <= s'.enqueued
    requires ConsumerDoes(s, step, s') && (step.RemoveFirst? ==> !s.consumer.op.Peek?)
    requires step.FindEmpty? ==> s.sawEmpty
    requires step.ShowFirst? ==>
      |s'.dequeued| < |s'.enqueued| && DequeueView(s') == DequeueDone(s'.consumer.op, Element(Queue(s')[0]))
    requires s'.sawFull == (s.sawFull || |s'.enqueued| >= |s'.dequeued| + cfg.maxSize)
    requires s'.sawEmpty == ((s.sawEmpty && !step.InvokeDequeue?) || |s'.enqueued| <= |s'.dequeued|)
    ensures Next(cfg, View0(s), step, View0(s'))
  {
    if step.RemoveFirst? {
      assert s'.dequeued[|s.dequeued|] == s.consumer.at.v;
      assert s.enqueued[|s.dequeued|] == s.consumer.at.v;
      assert Queue(s') == Queue(s)[1..];
    }
  }

  lemma ConsumerReasons<T>(s: State<T>, v: View, c: Choice<T>)
    requires RingOk(s, v) && ConsumerOk(s, v)
    ensures StepOf(s, ConsumerMove(c)).RemoveFirst? ==> !s.consumer.op.Peek?
    ensures StepOf(s, ConsumerMove(c)).FindEmpty? ==> s.sawEmpty
  {
  }

  lemma ConsumerMoveOutcome<T>(cfg: Config, s: State<T>, v: View, c: Choice<T>)
    requires Inv(cfg, s, v)
    ensures var s' := Step(cfg, s, ConsumerMove(c)); !Aborted(s') && s'.dequeued <= s'.enqueued
    ensures var s' := Step(cfg, s, ConsumerMove(c));
      s'.consumer.Dequeuing? && s'.consumer.at.DequeueReturn? && s'.consumer.at.res.Address? ==>
        |s'.dequeued| < |s'.enqueued| && DequeueView(s') == DequeueDone(s'.consumer.op, Element(Queue(s')[0]))
  {
    var s' := Step(cfg, s, ConsumerMove(c));
    var v' := ConsumerKeepsInv(cfg, s, v, c);
    NotAborted(cfg, s', v');
    if s'.consumer.Dequeuing? && s'.consumer.at.DequeueReturn? && s'.consumer.at.res.Address? {
      PeekedElement(cfg, s', v');
    }
  }

  lemma ConsumerMoveDoes<T>(cfg: Config, s: State<T>, c: Choice<T>)
    requires !Aborted(Step(cfg, s, ConsumerMove(c)))
    ensures ConsumerDoes(s, StepOf(s, ConsumerMove(c)), Step(cfg, s, ConsumerMove(c)))
  {
    if s.consumer.Dequeuing? { ConsumerEffect(s, c); }
  }

  lemma ConsumerMoveRefines<T>(cfg: Config, s: State<T>, v: View, c: Choice<T>)
    requires Inv(cfg, s, v)
    ensures s.dequeued <= s.enqueued && Step(cfg, s, ConsumerMove(c)).dequeued <= Step(cfg, s, ConsumerMove(c)).enqueued
    ensures Next(cfg, View0(s), StepOf(s, ConsumerMove(c)), View0(Step(cfg, s, ConsumerMove(c))))
  {
    ConsumerMoveOutcome(cfg, s, v, c);
    ConsumerMoveDoes(cfg, s, c);
    ConsumerReasons(s, v, c);
    Observed(cfg, s, ConsumerMove(c));
    ConsumerComposes(cfg, s, StepOf(s, ConsumerMove(c)), Step(cfg, s, ConsumerMove(c)));
  }

  // Linearizability: every interleaving, seen through View0, is a run of the
  // atomic queue.
  lemma {:induction false} RunRefines<T>(cfg: Config, s: State<T>, moves: seq<Move<T>>, i: nat)
    requires Good(cfg, s) && i < |moves|
    ensures var a, b := Run(cfg, s, moves[..i]), Run(cfg, s, moves[..i + 1]);
      && |a.dequeued| <= |a.enqueued| && |b.dequeued| <= |b.enqueued|
      && Next(cfg, View0(a), StepOf(a, moves[i]), View0(b)) && Labels(moves[i], StepOf(a, moves[i]))
  {
    var a := Run(cfg, s, moves[..i]);
    RunKeepsGood(cfg, s, moves[..i]);
    assert moves[..i + 1][..i] == moves[..i];
    LabelsFit(a, moves[i]);
    var v :| Inv(cfg, a, v);
    match moves[i]
    case ProducerMove(c) => ProducerMoveRefines(cfg, a, v, c);
    case ConsumerMove(c) => ConsumerMoveRefines(cfg, a, v, c);
  }

  // FIFO: what has been dequeued is always a prefix of what has been enqueued,
  // and no assertion fails, no wild pointer is followed, no element is built
  // over a live one and none is read from raw storage.
  lemma FifoAndSafe<T>(cfg: Config, s: State<T>, moves: seq<Move<T>>)
    requires Good(cfg, s)
    ensures Run(cfg, s, moves).dequeued <= Run(cfg, s, moves).enqueued
    ensures !Aborted(Run(cfg, s, moves))
  {
    hide Run, Inv, Aborted;
    RunKeepsGood(cfg, s, moves);
    var v := SomeView(cfg, Run(cfg, s, moves));
    NotAborted(cfg, Run(cfg, s, moves), v);
  }

  // What a finished call tells its caller: refused for lack of room only if
  // the queue held maxSize elements, and empty-handed only if it held none, at
  // some moment of the call.
  lemma Answers<T>(cfg: Config, s: State<T>, moves: seq<Move<T>>)
    requires Good(cfg, s)
    ensures RefusedOnlyIfFull(Run(cfg, s, moves)) && EmptyOnlyIfEmpty(Run(cfg, s, moves))
  {
    RunKeepsGood(cfg, s, moves);
    AnswersAt(cfg, Run(cfg, s, moves));
  }

  ghost predicate RefusedOnlyIfFull<T>(z: State<T>) {
    z.producer.Enqueuing? && z.producer.at == EnqueueReturn(false) ==> z.sawFull
  }

  ghost predicate EmptyOnlyIfEmpty<T>(z: State<T>) {
    z.consumer.Dequeuing? && z.consumer.at == DequeueReturn(Nothing) ==> z.sawEmpty
  }

  lemma AnswersAt<T>(cfg: Config, z: State<T>)
    requires Good(cfg, z)
    ensures RefusedOnlyIfFull(z) && EmptyOnlyIfEmpty(z)
  {
  }

  // From the block after the front block to the tail block no block is empty;
  // beyond the tail block every block is empty but for an element about to be
  // published; and the producer never moves the tail into the front block.
  ghost predicate RingOfBlocks<T>(z: State<T>, v: View) {
    && RingOk(z, v)
    && (forall i :: 0 < i <= v.t ==> CountAt(z, v, i) > 0)
    && (forall i :: v.t + 1 < i < |v.ring| ==> CountAt(z, v, i) == 0)
    && (v.t + 1 < |v.ring| ==> CountAt(z, v, v.t + 1) == Unpublished(z))
    && (z.producer.Enqueuing? && (z.producer.at.AdvanceTailBlock? || z.producer.at.PublishBlock?) ==>
          z.producer.at.nb != z.frontBlock)
  }

  lemma RingAlways<T>(cfg: Config, s: State<T>, moves: seq<Move<T>>)
    requires Good(cfg, s)
    ensures exists v :: RingOfBlocks(Run(cfg, s, moves), v)
  {
    RunKeepsGood(cfg, s, moves);
    RingAt(cfg, Run(cfg, s, moves));
  }

  lemma RingAt<T>(cfg: Config, z: State<T>)
    requires Good(cfg, z)
    ensures exists v :: RingOfBlocks(z, v)
  {
    var v :| Inv(cfg, z, v);
    RingCounts(cfg, z, v);
    assert RingOfBlocks(z, v);
  }

  lemma RingCounts<T>(cfg: Config, z: State<T>, v: View)
    requires Memory(cfg, z, v)
    ensures forall i :: 0 < i <= v.t ==> CountAt(z, v, i) > 0
    ensures forall i :: v.t < i < |v.ring| ==> CountAt(z, v, i) == if i == v.t + 1 then Unpublished(z) else 0
  {
    forall i | 0 < i <= v.t ensures CountAt(z, v, i) > 0 {
      ShapeAt(cfg, z, v, i);
      if i < v.t { assert JoinedAt(z, v, i); }
    }
    forall i | v.t < i < |v.ring| ensures CountAt(z, v, i) == if i == v.t + 1 then Unpublished(z) else 0 {
      assert VacantAt(z, v, i);
    }
  }
}
