// The blocking queue: the inner queue with a lightweight semaphore that counts
// its elements.  The outer calls drive the inner machine of SpscQueue move by
// move, so the interleavings are those of both layers together.
module BlockingQueue {
  import opened SpscQueue
  import opened SpscTheorems

  const SPINS := 10000

  datatype OuterProducer =
    | OuterIdle
    | InnerEnqueue
    | CountSignal             // m_count.fetch_add_release(1)
    | PostKernel              // m_sema.signal(1)
    | OuterEnqueueReturn(ok: bool)
    | SignalAbort

  datatype OuterOp = OuterTryDequeue | OuterWaitDequeue | OuterPop | OuterPeek

  datatype OuterConsumer<T> =
    | OuterConsumerIdle
    | TryLoad(op: OuterOp)              // m_count.load() > 0
    | TryDecrement(op: OuterOp)         // m_count.fetch_add_acquire(-1)
    | SpinLoad(op: OuterOp, left: nat)
    | SpinDecrement(op: OuterOp)
    | BlockingDecrement(op: OuterOp)
    | KernelWait(op: OuterOp)           // m_sema.wait()
    | InnerDequeue(op: OuterOp)
    | OuterDequeueReturn(op: OuterOp, res: Taken<T>)
    | DequeueAbort

  datatype Outer<T> = Outer(inner: State<T>, count: int, kernel: nat, producer: OuterProducer, consumer: OuterConsumer<T>)

  datatype OuterChoice<T> =
    | OuterGo
    | StartEnqueue(x: T, mode: AllocMode)
    | StartDequeue(op: OuterOp)
    | NoMemory

  datatype OuterMove<T> = OuterProducerMove(choice: OuterChoice<T>) | OuterConsumerMove(choice: OuterChoice<T>)

  function InnerOp(op: OuterOp): ConsumerOp {
    match op
    case OuterTryDequeue => TryDequeue
    case OuterWaitDequeue => TryDequeue
    case OuterPop => Pop
    case OuterPeek => Peek
  }

  function StartInner<T>(cfg: Config, o: Outer<T>, op: OuterOp): Outer<T> {
    o.(inner := Step(cfg, o.inner, ConsumerMove(CallDequeue(InnerOp(op)))), consumer := InnerDequeue(op))
  }

  function ProducerStep<T>(cfg: Config, o: Outer<T>, choice: OuterChoice<T>): Outer<T> {
    match o.producer
    case OuterIdle =>
      if choice.StartEnqueue?
      then o.(inner := Step(cfg, o.inner, ProducerMove(CallEnqueue(choice.x, choice.mode))), producer := InnerEnqueue)
      else o
    case InnerEnqueue =>
      var inner' := Step(cfg, o.inner, ProducerMove(if choice.NoMemory? then OutOfMemory else Go));
      if o.inner.producer.Enqueuing? && o.inner.producer.at.EnqueueReturn?
      then o.(inner := inner', producer := if o.inner.producer.at.ok then CountSignal else OuterEnqueueReturn(false))
      else o.(inner := inner')
    case CountSignal =>
      if o.count < -1 then o.(producer := SignalAbort)  // assert(oldCount >= -1)
      else o.(count := o.count + 1, producer := if o.count < 0 then PostKernel else OuterEnqueueReturn(true))
    case PostKernel => o.(kernel := o.kernel + 1, producer := OuterEnqueueReturn(true))
    case OuterEnqueueReturn(_) => o.(producer := OuterIdle)
    case SignalAbort => o
  }

  function ConsumerStep<T>(cfg: Config, o: Outer<T>, choice: OuterChoice<T>): Outer<T> {
    match o.consumer
    case OuterConsumerIdle =>
      if !choice.StartDequeue? then o
      else if choice.op.OuterPeek? then StartInner(cfg, o, choice.op)
      else o.(consumer := TryLoad(choice.op))
    case TryLoad(op) =>
      if o.count > 0 then o.(consumer := TryDecrement(op))
      else if op.OuterWaitDequeue? then o.(consumer := SpinLoad(op, SPINS))
      else o.(consumer := OuterDequeueReturn(op, Nothing))
    case TryDecrement(op) => StartInner(cfg, o.(count := o.count - 1), op)
    case SpinLoad(op, left) =>
      if left == 0 then o.(consumer := BlockingDecrement(op))
      else if o.count > 0 then o.(consumer := SpinDecrement(op))
      else o.(consumer := SpinLoad(op, left - 1))
    case SpinDecrement(op) => StartInner(cfg, o.(count := o.count - 1), op)
    case BlockingDecrement(op) =>
      if o.count <= 0 then o.(count := o.count - 1, consumer := KernelWait(op))
      else StartInner(cfg, o.(count := o.count - 1), op)
    case KernelWait(op) =>
      if o.kernel > 0 then StartInner(cfg, o.(kernel := o.kernel - 1), op) else o
    case InnerDequeue(op) =>
      var inner' := Step(cfg, o.inner, ConsumerMove(Go));
      if o.inner.consumer.Dequeuing? && o.inner.consumer.at.DequeueReturn?
      then (var res := o.inner.consumer.at.res;
            if res.Nothing? && !op.OuterPeek? then o.(inner := inner', consumer := DequeueAbort)  // assert(success)
            else o.(inner := inner', consumer := OuterDequeueReturn(op, res)))
      else o.(inner := inner')
    case OuterDequeueReturn(_, _) => o.(consumer := OuterConsumerIdle)
    case DequeueAbort => o
  }

  function OuterStep<T>(cfg: Config, o: Outer<T>, m: OuterMove<T>): Outer<T> {
    match m
    case OuterProducerMove(choice) => ProducerStep(cfg, o, choice)
    case OuterConsumerMove(choice) => ConsumerStep(cfg, o, choice)
  }

  function OuterRun<T>(cfg: Config, o: Outer<T>, moves: seq<OuterMove<T>>): Outer<T>
    decreases |moves|
  {
    if moves == [] then o else OuterStep(cfg, OuterRun(cfg, o, moves[..|moves| - 1]), moves[|moves| - 1])
  }

  // ----- the accounting -----

  // An element is in the queue but its signal has not been counted.
  ghost function Uncounted<T>(o: Outer<T>): int {
    if o.producer.CountSignal? || (o.producer.InnerEnqueue? && EnqueueView(o.inner).EnqueueDone? && EnqueueView(o.inner).ok)
    then 1 else 0
  }

  // The consumer has been granted an element it has not removed yet.
  ghost predicate Granted<T>(o: Outer<T>) {
    o.consumer.InnerDequeue? && !o.consumer.op.OuterPeek?
    && !(DequeueView(o.inner).DequeueDone? && DequeueView(o.inner).res.Element?)
  }

  ghost predicate Balanced<T>(o: Outer<T>) {
    |o.inner.enqueued| - |o.inner.dequeued| ==
      o.count + Uncounted(o) + (if Granted(o) then 1 else 0) + (if o.consumer.KernelWait? then 1 else 0)
  }

  // Posts to the kernel semaphore, made or about to be made.
  ghost function Posts<T>(o: Outer<T>): nat {
    o.kernel + if o.producer.PostKernel? then 1 else 0
  }

  // A waiting consumer has brought the count to -1; a signal counted since
  // then always comes with a post.
  ghost predicate SemaphoreOk<T>(o: Outer<T>) {
    if o.consumer.KernelWait?
    then o.count >= -1 && Posts(o) == (if o.count == -1 then 0 else 1)
    else o.count >= 0 && Posts(o) == 0
  }

  ghost predicate PointsOk<T>(o: Outer<T>) {
    && (o.producer.InnerEnqueue? <==> o.inner.producer.Enqueuing?)
    && (o.consumer.InnerDequeue? <==> o.inner.consumer.Dequeuing?)
    && (o.consumer.InnerDequeue? ==> o.inner.consumer.op == InnerOp(o.consumer.op))
    && (o.consumer.TryDecrement? || o.consumer.SpinDecrement? ==> o.count > 0)
    && ((o.consumer.TryLoad? || o.consumer.TryDecrement? || o.consumer.SpinLoad? || o.consumer.SpinDecrement?
         || o.consumer.BlockingDecrement? || o.consumer.KernelWait?) ==> !o.consumer.op.OuterPeek?)
    && (Granted(o) ==> !o.inner.sawEmpty)
    && !o.producer.SignalAbort? && !o.consumer.DequeueAbort?
  }

  ghost predicate Accounts<T>(o: Outer<T>) {
    Balanced(o) && SemaphoreOk(o) && PointsOk(o)
  }

  ghost predicate OuterInv<T>(cfg: Config, o: Outer<T>) {
    Good(cfg, o.inner) && Accounts(o)
  }

  // What an inner move of the producer does, in the terms the accounting needs.
  ghost predicate ProducerMoved<T>(s: State<T>, step: AtomicStep<T>, s': State<T>) {
    && ProducerDoes(s, step, s')
    && s'.consumer == s.consumer && DequeueView(s') == DequeueView(s)
    && s'.sawEmpty == (s.sawEmpty || |s'.enqueued| <= |s'.dequeued|)
    && (step.RespondEnqueue? <==> EnqueueView(s).EnqueueDone?)
    && (step.InvokeEnqueue? ==> s.producer.ProducerIdle?)
  }

  lemma InnerProducerMove<T>(cfg: Config, s: State<T>, c: Choice<T>)
    requires Good(cfg, s)
    ensures Good(cfg, Step(cfg, s, ProducerMove(c)))
    ensures ProducerMoved(s, StepOf(s, ProducerMove(c)), Step(cfg, s, ProducerMove(c)))
  {
    MoveKeepsGood(cfg, s, ProducerMove(c));
    var v := SomeView(cfg, s);
    ProducerMoveOutcome(cfg, s, v, c);
    ProducerMoveDoes(cfg, s, c);
    ProducerMoveShows(cfg, s, v, c);
    ProducerFrame(cfg, s, c);
    Observed(cfg, s, ProducerMove(c));
  }

  ghost predicate ConsumerMoved<T>(s: State<T>, step: AtomicStep<T>, s': State<T>) {
    && ConsumerDoes(s, step, s')
    && s'.sawEmpty == ((s.sawEmpty && !step.InvokeDequeue?) || |s'.enqueued| <= |s'.dequeued|)
    && (step.FindEmpty? ==> s.sawEmpty)
    && (step.RemoveFirst? ==> !s.consumer.op.Peek?)
    && (step.RespondDequeue? <==> DequeueView(s).DequeueDone?)
    && (step.InvokeDequeue? ==> s.consumer.ConsumerIdle?)
    && (s.consumer.Dequeuing? && s'.consumer.Dequeuing? ==> s'.consumer.op == s.consumer.op)
  }

  lemma InnerConsumerMove<T>(cfg: Config, s: State<T>, c: Choice<T>)
    requires Good(cfg, s)
    ensures Good(cfg, Step(cfg, s, ConsumerMove(c)))
    ensures ConsumerMoved(s, StepOf(s, ConsumerMove(c)), Step(cfg, s, ConsumerMove(c)))
  {
    MoveKeepsGood(cfg, s, ConsumerMove(c));
    var v := SomeView(cfg, s);
    ConsumerMoveOutcome(cfg, s, v, c);
    ConsumerMoveDoes(cfg, s, c);
    ConsumerReasons(s, v, c);
    Observed(cfg, s, ConsumerMove(c));
    SameOperation(cfg, s, c);
  }

  lemma SameOperation<T>(cfg: Config, s: State<T>, c: Choice<T>)
    ensures var s' := Step(cfg, s, ConsumerMove(c));
      s.consumer.Dequeuing? && s'.consumer.Dequeuing? ==> s'.consumer.op == s.consumer.op
  {
  }

  lemma EnqueueCallAccounts<T>(o: Outer<T>, inner': State<T>, step: AtomicStep<T>)
    requires Accounts(o) && o.producer.OuterIdle? && step.InvokeEnqueue? && ProducerMoved(o.inner, step, inner')
    ensures Accounts(o.(inner := inner', producer := InnerEnqueue))
  {
  }

  lemma EnqueueMoveAccounts<T>(o: Outer<T>, inner': State<T>, step: AtomicStep<T>)
    requires Accounts(o) && o.producer.InnerEnqueue? && ProducerMoved(o.inner, step, inner') && !step.RespondEnqueue?
    ensures Accounts(o.(inner := inner'))
  {
  }

  lemma EnqueueReturnAccounts<T>(o: Outer<T>, inner': State<T>, step: AtomicStep<T>)
    requires Accounts(o) && o.producer.InnerEnqueue? && ProducerMoved(o.inner, step, inner') && step.RespondEnqueue?
    ensures Accounts(o.(inner := inner', producer := if o.inner.producer.at.ok then CountSignal else OuterEnqueueReturn(false)))
  {
  }

  lemma ProducerKeepsOuterInv<T>(cfg: Config, o: Outer<T>, c: OuterChoice<T>)
    requires OuterInv(cfg, o)
    ensures OuterInv(cfg, ProducerStep(cfg, o, c))
  {
    match o.producer
    case OuterIdle =>
      if c.StartEnqueue? {
        var m := ProducerMove(CallEnqueue(c.x, c.mode));
        InnerProducerMove(cfg, o.inner, CallEnqueue(c.x, c.mode));
        EnqueueCallAccounts(o, Step(cfg, o.inner, m), StepOf(o.inner, m));
      }
    case InnerEnqueue =>
      var choice := if c.NoMemory? then OutOfMemory else Go;
      var step := StepOf(o.inner, ProducerMove(choice));
      InnerProducerMove(cfg, o.inner, choice);
      if step.RespondEnqueue? {
        EnqueueReturnAccounts(o, Step(cfg, o.inner, ProducerMove(choice)), step);
      } else {
        EnqueueMoveAccounts(o, Step(cfg, o.inner, ProducerMove(choice)), step);
      }
    case _ => SignalKeepsOuterInv(cfg, o, c);
  }

  lemma SignalKeepsOuterInv<T>(cfg: Config, o: Outer<T>, c: OuterChoice<T>)
    requires OuterInv(cfg, o) && !o.producer.OuterIdle? && !o.producer.InnerEnqueue?
    ensures OuterInv(cfg, ProducerStep(cfg, o, c))
  {
  }

  lemma DequeueCallAccounts<T>(o: Outer<T>, op: OuterOp, inner': State<T>)
    requires PointsOk(o) && !o.consumer.InnerDequeue? && o.count >= 0 && Posts(o) == 0
    requires |o.inner.enqueued| - |o.inner.dequeued| == o.count + Uncounted(o) + if op.OuterPeek? then 0 else 1
    requires ConsumerMoved(o.inner, InvokeDequeue(InnerOp(op)), inner')
    ensures Accounts(o.(inner := inner', consumer := InnerDequeue(op)))
  {
  }

  lemma StartInnerKeepsOuterInv<T>(cfg: Config, o: Outer<T>, op: OuterOp)
    requires Good(cfg, o.inner) && PointsOk(o) && !o.consumer.InnerDequeue?
    requires o.count >= 0 && Posts(o) == 0
    requires |o.inner.enqueued| - |o.inner.dequeued| == o.count + Uncounted(o) + if op.OuterPeek? then 0 else 1
    ensures OuterInv(cfg, StartInner(cfg, o, op))
  {
    var m := ConsumerMove(CallDequeue(InnerOp(op)));
    InnerConsumerMove(cfg, o.inner, CallDequeue(InnerOp(op)));
    assert StepOf(o.inner, m) == InvokeDequeue(InnerOp(op));
    DequeueCallAccounts(o, op, Step(cfg, o.inner, m));
  }

  lemma DequeueMoveAccounts<T>(o: Outer<T>, inner': State<T>, step: AtomicStep<T>)
    requires Accounts(o) && o.consumer.InnerDequeue? && ConsumerMoved(o.inner, step, inner') && !step.RespondDequeue?
    ensures Accounts(o.(inner := inner'))
  {
    assert Granted(o) ==> |o.inner.enqueued| - |o.inner.dequeued| >= 1;
  }

  lemma DequeueReturnAccounts<T>(o: Outer<T>, inner': State<T>, step: AtomicStep<T>)
    requires Accounts(o) && o.consumer.InnerDequeue? && ConsumerMoved(o.inner, step, inner') && step.RespondDequeue?
    requires !Granted(o)
    ensures forall res :: Accounts(o.(inner := inner', consumer := OuterDequeueReturn(o.consumer.op, res)))
  {
  }

  // A granted dequeue does not come back empty-handed.
  lemma GrantedFinds<T>(cfg: Config, o: Outer<T>)
    requires OuterInv(cfg, o) && o.consumer.InnerDequeue? && o.inner.consumer.at.DequeueReturn?
    ensures !Granted(o) && (o.consumer.op.OuterPeek? || !o.inner.consumer.at.res.Nothing?)
  {
    InnerAnswers(cfg, o.inner);
  }

  lemma InnerAnswers<T>(cfg: Config, s: State<T>)
    requires Good(cfg, s)
    ensures s.consumer.Dequeuing? && s.consumer.at == DequeueReturn(Nothing) ==> s.sawEmpty
    ensures s.consumer.Dequeuing? && s.consumer.at.DequeueReturn? && s.consumer.at.res.Address? ==> s.consumer.op.Peek?
  {
  }

  lemma InnerDequeueKeepsOuterInv<T>(cfg: Config, o: Outer<T>, c: OuterChoice<T>)
    requires OuterInv(cfg, o) && o.consumer.InnerDequeue?
    ensures OuterInv(cfg, ConsumerStep(cfg, o, c))
  {
    var step := StepOf(o.inner, ConsumerMove(Go));
    InnerConsumerMove(cfg, o.inner, Go);
    if step.RespondDequeue? {
      GrantedFinds(cfg, o);
      DequeueReturnAccounts(o, Step(cfg, o.inner, ConsumerMove(Go)), step);
    } else {
      DequeueMoveAccounts(o, Step(cfg, o.inner, ConsumerMove(Go)), step);
    }
  }

  lemma WaitKeepsOuterInv<T>(cfg: Config, o: Outer<T>, c: OuterChoice<T>)
    requires OuterInv(cfg, o)
    requires o.consumer.TryLoad? || o.consumer.SpinLoad? || (o.consumer.BlockingDecrement? && o.count <= 0)
             || o.consumer.OuterDequeueReturn?
    ensures OuterInv(cfg, ConsumerStep(cfg, o, c))
  {
    hide StartInner, Step, Good;
  }

  lemma GrantKeepsOuterInv<T>(cfg: Config, o: Outer<T>, c: OuterChoice<T>)
    requires OuterInv(cfg, o)
    requires o.consumer.TryDecrement? || o.consumer.SpinDecrement? || (o.consumer.BlockingDecrement? && o.count > 0)
    ensures OuterInv(cfg, ConsumerStep(cfg, o, c))
  {
    var op := o.consumer.op;
    StartInnerKeepsOuterInv(cfg, o.(count := o.count - 1, consumer := TryLoad(op)), op);
    assert StartInner(cfg, o.(count := o.count - 1, consumer := TryLoad(op)), op) == StartInner(cfg, o.(count := o.count - 1), op);
  }

  lemma WokenKeepsOuterInv<T>(cfg: Config, o: Outer<T>, c: OuterChoice<T>)
    requires OuterInv(cfg, o) && o.consumer.KernelWait?
    ensures OuterInv(cfg, ConsumerStep(cfg, o, c))
  {
    if o.kernel > 0 { StartInnerKeepsOuterInv(cfg, o.(kernel := o.kernel - 1), o.consumer.op); }
  }

  lemma ConsumerKeepsOuterInv<T>(cfg: Config, o: Outer<T>, c: OuterChoice<T>)
    requires OuterInv(cfg, o)
    ensures OuterInv(cfg, ConsumerStep(cfg, o, c))
  {
    match o.consumer
    case OuterConsumerIdle =>
      if c.StartDequeue? && c.op.OuterPeek? { StartInnerKeepsOuterInv(cfg, o, c.op); }
    case TryLoad(_) => WaitKeepsOuterInv(cfg, o, c);
    case TryDecrement(_) => GrantKeepsOuterInv(cfg, o, c);
    case SpinLoad(_, _) => WaitKeepsOuterInv(cfg, o, c);
    case SpinDecrement(_) => GrantKeepsOuterInv(cfg, o, c);
    case BlockingDecrement(_) => if o.count > 0 { GrantKeepsOuterInv(cfg, o, c); } else { WaitKeepsOuterInv(cfg, o, c); }
    case KernelWait(_) => WokenKeepsOuterInv(cfg, o, c);
    case InnerDequeue(_) => InnerDequeueKeepsOuterInv(cfg, o, c);
    case OuterDequeueReturn(_, _) => WaitKeepsOuterInv(cfg, o, c);
  }

  lemma {:induction false} OuterRunKeepsInv<T>(cfg: Config, o: Outer<T>, moves: seq<OuterMove<T>>)
    requires OuterInv(cfg, o)
    ensures OuterInv(cfg, OuterRun(cfg, o, moves))
    decreases |moves|
  {
    if moves != [] {
      var prev := OuterRun(cfg, o, moves[..|moves| - 1]);
      OuterRunKeepsInv(cfg, o, moves[..|moves| - 1]);
      match moves[|moves| - 1]
      case OuterProducerMove(c) => ProducerKeepsOuterInv(cfg, prev, c);
      case OuterConsumerMove(c) => ConsumerKeepsOuterInv(cfg, prev, c);
    }
  }

  ghost predicate Fresh<T>(cfg: Config, o: Outer<T>) {
    && Good(cfg, o.inner) && o.inner.producer.ProducerIdle? && o.inner.consumer.ConsumerIdle?
    && |o.inner.enqueued| == |o.inner.dequeued| && o.count == 0 && o.kernel == 0
    && o.producer.OuterIdle? && o.consumer.OuterConsumerIdle?
  }

  // Over every interleaving: the count never falls below -1; a consumer that
  // waits in the kernel has exactly one post made or on its way as soon as a
  // signal has been counted, and none before; and neither assert(success) nor
  // the assertion in signal fails, so every granted wait is followed by a
  // dequeue that finds an element. No wakeup is lost: with an element in the
  // queue and the producer idle, a waiting consumer has its post.
  lemma BlockingIsSound<T>(cfg: Config, o: Outer<T>, moves: seq<OuterMove<T>>)
    requires Fresh(cfg, o)
    ensures var z := OuterRun(cfg, o, moves);
      && z.count >= -1
      && (z.consumer.KernelWait? ==> (z.count >= 0 <==> Posts(z) == 1) && (z.count == -1 <==> Posts(z) == 0))
      && !z.producer.SignalAbort? && !z.consumer.DequeueAbort? && !Aborted(z.inner)
      && z.inner.dequeued <= z.inner.enqueued
      && (z.consumer.KernelWait? && z.producer.OuterIdle? && |z.inner.dequeued| < |z.inner.enqueued| ==> z.kernel == 1)
  {
    assert OuterInv(cfg, o);
    OuterRunKeepsInv(cfg, o, moves);
    BlockingFacts(cfg, OuterRun(cfg, o, moves));
  }

  lemma BlockingFacts<T>(cfg: Config, z: Outer<T>)
    requires OuterInv(cfg, z)
    ensures !Aborted(z.inner) && z.inner.dequeued <= z.inner.enqueued
  {
    var v := SomeView(cfg, z.inner);
    NotAborted(cfg, z.inner, v);
  }

  // With no call in progress the count is the number of elements, which is
  // what size_approx reports.
  lemma CountIsSize<T>(cfg: Config, o: Outer<T>, moves: seq<OuterMove<T>>)
    requires Fresh(cfg, o)
    ensures var z := OuterRun(cfg, o, moves);
      z.producer.OuterIdle? && z.consumer.OuterConsumerIdle? ==>
        z.count == |z.inner.enqueued| - |z.inner.dequeued| && z.count >= 0 && z.kernel == 0
  {
    assert OuterInv(cfg, o);
    OuterRunKeepsInv(cfg, o, moves);
  }
}
