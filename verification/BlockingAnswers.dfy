// What the calls of the blocking queue answer, and that they do answer.
module BlockingAnswers {
  import opened SpscQueue
  import opened SpscTheorems
  import opened SpscProgress
  import opened BlockingQueue

  ghost function Length<T>(o: Outer<T>): int { |o.inner.enqueued| - |o.inner.dequeued| }

  // NoneReady: nothing is in the queue, but perhaps the element of an enqueue
  // that is still in progress.
  datatype Moment = FullQueue | EmptyQueue | NoneReady

  ghost predicate Holds<T>(cfg: Config, o: Outer<T>, what: Moment) {
    match what
    case FullQueue => Length(o) >= cfg.maxSize
    case EmptyQueue => Length(o) <= 0
    case NoneReady => Length(o) <= if o.producer.InnerEnqueue? || o.producer.CountSignal? then 1 else 0
  }

  // At some moment of a call that the first of the moves begins.
  ghost predicate AtSomeMoment<T>(cfg: Config, o: Outer<T>, moves: seq<OuterMove<T>>, what: Moment) {
    exists j :: 0 < j <= |moves| && Holds(cfg, OuterRun(cfg, o, moves[..j]), what)
  }

  lemma MomentsStay<T>(cfg: Config, o: Outer<T>, moves: seq<OuterMove<T>>, m: OuterMove<T>, what: Moment)
    requires AtSomeMoment(cfg, o, moves, what) || Holds(cfg, OuterRun(cfg, o, moves + [m]), what)
    ensures AtSomeMoment(cfg, o, moves + [m], what)
  {
    hide OuterRun, Holds;
    var more := moves + [m];
    assert more[..|more|] == more;
    if AtSomeMoment(cfg, o, moves, what) {
      var j :| 0 < j <= |moves| && Holds(cfg, OuterRun(cfg, o, moves[..j]), what);
      assert more[..j] == moves[..j];
    }
  }

  lemma OuterRunMore<T>(cfg: Config, o: Outer<T>, moves: seq<OuterMove<T>>, m: OuterMove<T>)
    ensures OuterRun(cfg, o, moves + [m]) == OuterStep(cfg, OuterRun(cfg, o, moves), m)
  {
    hide OuterStep;
    assert (moves + [m])[..|moves|] == moves;
  }

  // ----- dequeue, wait, pop and peek -----

  // A consumer that waits in the kernel for a post that has not been made.
  predicate Stuck<T>(o: Outer<T>) { o.consumer.KernelWait? && o.kernel == 0 }

  // The moves of the consumer while it is not stuck.
  ghost function UsefulMoves<T>(cfg: Config, o: Outer<T>, moves: seq<OuterMove<T>>): nat {
    if moves == [] then 0
    else
      var n := |moves| - 1;
      UsefulMoves(cfg, o, moves[..n]) + if moves[n].OuterConsumerMove? && !Stuck(OuterRun(cfg, o, moves[..n])) then 1 else 0
  }

  const LONGEST := SPINS + 19

  function DequeueLeft<T>(o: Outer<T>): nat {
    match o.consumer
    case OuterConsumerIdle => LONGEST
    case TryLoad(_) => SPINS + 18
    case TryDecrement(_) => 15
    case SpinLoad(_, left) => 17 + left
    case SpinDecrement(_) => 15
    case BlockingDecrement(_) => 16
    case KernelWait(_) => 15
    case InnerDequeue(_) => ConsumerLeft(o.inner.consumer) + 1
    case OuterDequeueReturn(_, _) => 0
    case DequeueAbort => 0
  }

  // The call has returned: with the first element, removed unless the call
  // only looks; or with nothing, and then not from a wait, and because no
  // element was ready, or none there for peek, at some moment of the call.
  ghost predicate CallReturned<T>(cfg: Config, o: Outer<T>, op: OuterOp, moves: seq<OuterMove<T>>, z: Outer<T>) {
    && z.consumer.OuterDequeueReturn? && z.consumer.op == op
    && match z.consumer.res
       case Nothing =>
         && !op.OuterWaitDequeue? && z.inner.dequeued == o.inner.dequeued
         && AtSomeMoment(cfg, o, moves, if op.OuterPeek? then EmptyQueue else NoneReady)
       case Got(x) => !op.OuterPeek? && z.inner.dequeued == o.inner.dequeued + [x]
       case Address(b, i) =>
         && op.OuterPeek? && z.inner.dequeued == o.inner.dequeued && Length(z) > 0
         && Has(z.inner, b, i) && z.inner.blocks[b].data[i] == Live(z.inner.enqueued[|z.inner.dequeued|])
  }

  // What the inner call has done so far.
  ghost predicate InnerSoFar<T>(cfg: Config, o: Outer<T>, op: OuterOp, moves: seq<OuterMove<T>>, z: Outer<T>) {
    && z.inner.consumer.Dequeuing? && z.inner.consumer.op == InnerOp(op)
    && z.inner.dequeued == o.inner.dequeued
         + (if z.inner.consumer.at.DequeueReturn? && z.inner.consumer.at.res.Got? then [z.inner.consumer.at.res.value] else [])
    && (z.inner.sawEmpty ==> AtSomeMoment(cfg, o, moves, EmptyQueue))
  }

  ghost predicate InCall<T>(cfg: Config, o: Outer<T>, op: OuterOp, moves: seq<OuterMove<T>>, z: Outer<T>) {
    && !z.consumer.OuterConsumerIdle? && !z.consumer.OuterDequeueReturn? && !z.consumer.DequeueAbort? && z.consumer.op == op
    && (if z.consumer.InnerDequeue? then InnerSoFar(cfg, o, op, moves, z) else z.inner.dequeued == o.inner.dequeued)
    && DequeueLeft(z) + UsefulMoves(cfg, o, moves) <= LONGEST
  }

  // The producer's side of the machine leaves a call of the consumer alone.
  lemma ProducerLeavesCall<T>(cfg: Config, a: Outer<T>, c: OuterChoice<T>)
    requires OuterInv(cfg, a)
    ensures var z := ProducerStep(cfg, a, c);
      && z.consumer == a.consumer && z.inner.consumer == a.inner.consumer && z.inner.dequeued == a.inner.dequeued
      && (z.inner.sawEmpty ==> a.inner.sawEmpty || Length(z) <= 0)
  {
    hide Step, Good, Accounts;
    match a.producer
    case OuterIdle => if c.StartEnqueue? { InnerProducerMove(cfg, a.inner, CallEnqueue(c.x, c.mode)); }
    case InnerEnqueue => InnerProducerMove(cfg, a.inner, if c.NoMemory? then OutOfMemory else Go);
    case _ =>
  }

  // A call of the inner queue begins.
  lemma InnerBegins<T>(cfg: Config, a: Outer<T>, op: OuterOp)
    requires Good(cfg, a.inner) && a.inner.consumer.ConsumerIdle?
    ensures var z := StartInner(cfg, a, op);
      && z.consumer == InnerDequeue(op) && z.inner.consumer == Dequeuing(InnerOp(op), LoadFrontBlock)
      && z.inner.dequeued == a.inner.dequeued && (z.inner.sawEmpty ==> Length(z) <= 0)
  {
  }

  // A move of the inner call.
  lemma InnerGoes<T>(cfg: Config, a: Outer<T>)
    requires OuterInv(cfg, a) && a.consumer.InnerDequeue? && !a.inner.consumer.at.DequeueReturn?
    ensures var s := Step(cfg, a.inner, ConsumerMove(Go));
      && s.consumer.Dequeuing? && s.consumer.op == a.inner.consumer.op && ConsumerLeft(s.consumer) < ConsumerLeft(a.inner.consumer)
      && s.dequeued == a.inner.dequeued + (if s.consumer.at.DequeueReturn? && s.consumer.at.res.Got? then [s.consumer.at.res.value] else [])
      && (s.sawEmpty ==> a.inner.sawEmpty || |s.enqueued| <= |s.dequeued|)
  {
    hide Step, StepOf, ConsumerLeft;
    var s := Step(cfg, a.inner, ConsumerMove(Go));
    var v := SomeView(cfg, a.inner);
    NotAborted(cfg, a.inner, v);
    ConsumerMoveOutcome(cfg, a.inner, v, Go);
    ConsumerNearer(cfg, a.inner, Go);
    InnerConsumerMove(cfg, a.inner, Go);
    if s.consumer.Dequeuing? && s.consumer.at.DequeueReturn? { DequeueAnswer(cfg, s); }
  }

  // The inner call returns.
  lemma InnerReturns<T>(cfg: Config, a: Outer<T>)
    requires OuterInv(cfg, a) && a.consumer.InnerDequeue? && a.inner.consumer.at.DequeueReturn?
    ensures var z := ConsumerStep(cfg, a, OuterGo);
      && z.consumer == OuterDequeueReturn(a.consumer.op, a.inner.consumer.at.res)
      && z.inner.dequeued == a.inner.dequeued && z.inner.enqueued == a.inner.enqueued && z.inner.blocks == a.inner.blocks
  {
    hide Good;
    GrantedFinds(cfg, a);
  }

  // One more move, of the producer or of the consumer.
  lemma UsefulMore<T>(cfg: Config, o: Outer<T>, moves: seq<OuterMove<T>>, m: OuterMove<T>)
    ensures UsefulMoves(cfg, o, moves + [m])
      == UsefulMoves(cfg, o, moves) + if m.OuterConsumerMove? && !Stuck(OuterRun(cfg, o, moves)) then 1 else 0
  {
    hide OuterRun;
    assert (moves + [m])[..|moves|] == moves;
  }

  lemma CallSeesProducer<T>(cfg: Config, o: Outer<T>, op: OuterOp, moves: seq<OuterMove<T>>, c: OuterChoice<T>)
    requires OuterInv(cfg, OuterRun(cfg, o, moves)) && InCall(cfg, o, op, moves, OuterRun(cfg, o, moves))
    ensures InCall(cfg, o, op, moves + [OuterProducerMove(c)], OuterRun(cfg, o, moves + [OuterProducerMove(c)]))
  {
    hide OuterRun, ProducerStep, OuterInv, AtSomeMoment;
    var m := OuterProducerMove(c);
    OuterRunMore(cfg, o, moves, m);
    UsefulMore(cfg, o, moves, m);
    ProducerLeavesCall(cfg, OuterRun(cfg, o, moves), c);
    var z := OuterRun(cfg, o, moves + [m]);
    if z.inner.sawEmpty && z.consumer.InnerDequeue? { MomentsStay(cfg, o, moves, m, EmptyQueue); }
  }

  // Before the inner call: the count says whether an element is ready.
  lemma CallWaits<T>(cfg: Config, o: Outer<T>, op: OuterOp, moves: seq<OuterMove<T>>, c: OuterChoice<T>)
    requires var a := OuterRun(cfg, o, moves);
      OuterInv(cfg, a) && InCall(cfg, o, op, moves, a) && !a.consumer.InnerDequeue?
    ensures var m := OuterConsumerMove(c);
      var z := OuterRun(cfg, o, moves + [m]);
      && UsefulMoves(cfg, o, moves + [m]) <= LONGEST
      && (InCall(cfg, o, op, moves + [m], z) || CallReturned(cfg, o, op, moves + [m], z))
  {
    hide OuterRun, StartInner, Good, AtSomeMoment, Step;
    var m := OuterConsumerMove(c);
    var a := OuterRun(cfg, o, moves);
    OuterRunMore(cfg, o, moves, m);
    UsefulMore(cfg, o, moves, m);
    InnerBegins(cfg, a.(count := a.count - 1), op);
    InnerBegins(cfg, a.(kernel := if a.kernel > 0 then a.kernel - 1 else 0), op);
    var z := OuterRun(cfg, o, moves + [m]);
    if z.consumer.InnerDequeue? && z.inner.sawEmpty { MomentsStay(cfg, o, moves, m, EmptyQueue); }
    if z.consumer.OuterDequeueReturn? { MomentsStay(cfg, o, moves, m, NoneReady); }
  }

  lemma CallInside<T>(cfg: Config, o: Outer<T>, op: OuterOp, moves: seq<OuterMove<T>>, c: OuterChoice<T>)
    requires var a := OuterRun(cfg, o, moves);
      OuterInv(cfg, a) && InCall(cfg, o, op, moves, a) && a.consumer.InnerDequeue?
    ensures var m := OuterConsumerMove(c);
      var z := OuterRun(cfg, o, moves + [m]);
      && UsefulMoves(cfg, o, moves + [m]) <= LONGEST
      && (InCall(cfg, o, op, moves + [m], z) || CallReturned(cfg, o, op, moves + [m], z))
  {
    hide OuterRun, StartInner, AtSomeMoment, Step, Accounts, Good, ConsumerLeft;
    var m := OuterConsumerMove(c);
    var a := OuterRun(cfg, o, moves);
    OuterRunMore(cfg, o, moves, m);
    UsefulMore(cfg, o, moves, m);
    if a.inner.consumer.at.DequeueReturn? {
      InnerReturns(cfg, a);
      DequeueAnswer(cfg, a.inner);
      GrantedFinds(cfg, a);
      if a.inner.consumer.at.res.Nothing? { MomentsStay(cfg, o, moves, m, EmptyQueue); }
    } else {
      InnerGoes(cfg, a);
      if OuterRun(cfg, o, moves + [m]).inner.sawEmpty { MomentsStay(cfg, o, moves, m, EmptyQueue); }
    }
  }

  // A call of the consumer: it returns, with what it should, as soon as it has
  // made a fixed number of moves other than waiting for a post that is not
  // there, whatever the moves of the producer between them.
  lemma {:induction false} DequeueAnswers<T>(cfg: Config, o: Outer<T>, op: OuterOp, moves: seq<OuterMove<T>>) returns (k: nat)
    requires OuterInv(cfg, o) && o.consumer.OuterConsumerIdle? && moves != [] && moves[0] == OuterConsumerMove(StartDequeue(op))
    ensures 0 < k <= |moves| && UsefulMoves(cfg, o, moves[..k]) <= LONGEST
    ensures var z := OuterRun(cfg, o, moves[..k]);
      CallReturned(cfg, o, op, moves[..k], z) || (k == |moves| && InCall(cfg, o, op, moves, z))
    ensures UsefulMoves(cfg, o, moves) >= LONGEST ==> CallReturned(cfg, o, op, moves[..k], OuterRun(cfg, o, moves[..k]))
    decreases |moves|
  {
    hide OuterRun, OuterInv, CallReturned, InCall, UsefulMoves;
    var n := |moves| - 1;
    var m := moves[n];
    assert moves[..n] + [m] == moves && moves[..|moves|] == moves;
    if n == 0 {
      CallBegins(cfg, o, op);
      assert moves == [m];
      k := 1;
    } else {
      k := DequeueAnswers(cfg, o, op, moves[..n]);
      assert moves[..n][..k] == moves[..k];
      if !CallReturned(cfg, o, op, moves[..k], OuterRun(cfg, o, moves[..k])) {
        OuterRunKeepsInv(cfg, o, moves[..n]);
        CallMoves(cfg, o, op, moves[..n], m);
        k := |moves|;
      }
    }
    if InCall(cfg, o, op, moves, OuterRun(cfg, o, moves)) { NotYetAnswered(cfg, o, op, moves); }
  }

  lemma CallMoves<T>(cfg: Config, o: Outer<T>, op: OuterOp, moves: seq<OuterMove<T>>, m: OuterMove<T>)
    requires OuterInv(cfg, OuterRun(cfg, o, moves)) && InCall(cfg, o, op, moves, OuterRun(cfg, o, moves))
    ensures var z := OuterRun(cfg, o, moves + [m]);
      && UsefulMoves(cfg, o, moves + [m]) <= LONGEST
      && (InCall(cfg, o, op, moves + [m], z) || CallReturned(cfg, o, op, moves + [m], z))
  {
    hide OuterRun, OuterInv, CallReturned, InnerSoFar;
    match m
    case OuterProducerMove(c) => CallSeesProducer(cfg, o, op, moves, c);
    case OuterConsumerMove(c) =>
      if OuterRun(cfg, o, moves).consumer.InnerDequeue? { CallInside(cfg, o, op, moves, c); } else { CallWaits(cfg, o, op, moves, c); }
  }

  lemma CallBegins<T>(cfg: Config, o: Outer<T>, op: OuterOp)
    requires OuterInv(cfg, o) && o.consumer.OuterConsumerIdle?
    ensures var moves := [OuterConsumerMove(StartDequeue(op))];
      InCall(cfg, o, op, moves, OuterRun(cfg, o, moves)) && UsefulMoves(cfg, o, moves) == 1
  {
    hide Good, StartInner, Step, AtSomeMoment;
    var m := OuterConsumerMove(StartDequeue(op));
    assert OuterRun(cfg, o, []) == o && UsefulMoves(cfg, o, []) == 0;
    assert [] + [m] == [m];
    OuterRunMore(cfg, o, [], m);
    UsefulMore(cfg, o, [], m);
    InnerBegins(cfg, o, op);
    if op.OuterPeek? && OuterRun(cfg, o, [m]).inner.sawEmpty { MomentsStay(cfg, o, [], m, EmptyQueue); }
  }

  lemma NotYetAnswered<T>(cfg: Config, o: Outer<T>, op: OuterOp, moves: seq<OuterMove<T>>)
    requires InCall(cfg, o, op, moves, OuterRun(cfg, o, moves))
    ensures UsefulMoves(cfg, o, moves) < LONGEST
  {
  }

  // ----- enqueue -----

  ghost function ProducerCalls<T>(moves: seq<OuterMove<T>>): nat {
    if moves == [] then 0 else ProducerCalls(moves[..|moves| - 1]) + if moves[|moves| - 1].OuterProducerMove? then 1 else 0
  }

  ghost predicate NoMemoryFound<T>(moves: seq<OuterMove<T>>) {
    exists i :: 0 <= i < |moves| && moves[i] == OuterProducerMove(NoMemory)
  }

  function EnqueueLeft<T>(o: Outer<T>): nat {
    match o.producer
    case OuterIdle => 15
    case InnerEnqueue => ProducerLeft(o.inner.producer) + 3
    case CountSignal => 2
    case PostKernel => 1
    case OuterEnqueueReturn(_) => 0
    case SignalAbort => 0
  }

  // Why an element may be refused.
  ghost predicate MayRefuse<T>(cfg: Config, o: Outer<T>, mode: AllocMode, moves: seq<OuterMove<T>>) {
    AtSomeMoment(cfg, o, moves, FullQueue) && (mode.CanAlloc? ==> NoMemoryFound(moves))
  }

  // The call has returned: with its element at the end of the queue, or
  // refused because the queue was full at some moment of the call and it could
  // not allocate, or found no memory.
  ghost predicate EnqueueReturned<T>(cfg: Config, o: Outer<T>, x: T, mode: AllocMode, moves: seq<OuterMove<T>>, z: Outer<T>) {
    && z.producer.OuterEnqueueReturn?
    && z.inner.enqueued == o.inner.enqueued + (if z.producer.ok then [x] else [])
    && (!z.producer.ok ==> MayRefuse(cfg, o, mode, moves))
  }

  ghost predicate InEnqueue<T>(cfg: Config, o: Outer<T>, x: T, mode: AllocMode, moves: seq<OuterMove<T>>, z: Outer<T>) {
    && EnqueueLeft(z) + ProducerCalls(moves) <= 15
    && if z.producer.InnerEnqueue? then
         && z.inner.producer.Enqueuing? && z.inner.producer.x == x && z.inner.producer.mode == mode
         && z.inner.enqueued == o.inner.enqueued + (if z.inner.producer.at == EnqueueReturn(true) then [x] else [])
         && (z.inner.sawFull ==> AtSomeMoment(cfg, o, moves, FullQueue))
         && (z.inner.producer.at == EnqueueReturn(false) && mode.CanAlloc? ==> NoMemoryFound(moves))
       else (z.producer.CountSignal? || z.producer.PostKernel?) && z.inner.enqueued == o.inner.enqueued + [x]
  }

  lemma ConsumerLeavesEnqueue<T>(cfg: Config, a: Outer<T>, c: OuterChoice<T>)
    requires OuterInv(cfg, a)
    ensures var z := ConsumerStep(cfg, a, c);
      && z.producer == a.producer && z.inner.producer == a.inner.producer && z.inner.enqueued == a.inner.enqueued
      && (z.inner.sawFull ==> a.inner.sawFull || Holds(cfg, z, FullQueue))
  {
    hide Step, Good, Accounts;
    InnerConsumerLeaves(cfg, a.inner, Go);
    forall op: OuterOp { InnerConsumerLeaves(cfg, a.inner, CallDequeue(InnerOp(op))); }
  }

  lemma InnerConsumerLeaves<T>(cfg: Config, s: State<T>, c: Choice<T>)
    requires Good(cfg, s)
    ensures var z := Step(cfg, s, ConsumerMove(c));
      && z.producer == s.producer && z.enqueued == s.enqueued
      && (z.sawFull ==> s.sawFull || |z.enqueued| >= |z.dequeued| + cfg.maxSize)
  {
    hide Step, StepOf, Good;
    InnerConsumerMove(cfg, s, c);
    Observed(cfg, s, ConsumerMove(c));
    LabelsFit(s, ConsumerMove(c));
  }

  // A move of the inner call.
  lemma InnerEnqueueGoes<T>(cfg: Config, s: State<T>, c: Choice<T>)
    requires Good(cfg, s) && EnqueueView(s).EnqueuePending?
    ensures var z := Step(cfg, s, ProducerMove(c));
      && z.producer.Enqueuing? && z.producer.x == s.producer.x && z.producer.mode == s.producer.mode
      && ProducerLeft(z.producer) < ProducerLeft(s.producer)
      && z.enqueued == s.enqueued + (if z.producer.at == EnqueueReturn(true) then [s.producer.x] else [])
      && (z.producer.at == EnqueueReturn(false) && s.producer.mode.CanAlloc? ==> c.OutOfMemory?)
      && (z.sawFull ==> s.sawFull || |z.enqueued| >= |z.dequeued| + cfg.maxSize)
  {
    hide Step, StepOf, ProducerLeft;
    var v := SomeView(cfg, s);
    NotAborted(cfg, s, v);
    ProducerMoveOutcome(cfg, s, v, c);
    ProducerMoveDoes(cfg, s, c);
    ProducerMoveRefines(cfg, s, v, c);
    ProducerNearer(cfg, s, c);
    Observed(cfg, s, ProducerMove(c));
    LabelsFit(s, ProducerMove(c));
  }

  lemma CallsMore<T>(moves: seq<OuterMove<T>>, m: OuterMove<T>)
    ensures ProducerCalls(moves + [m]) == ProducerCalls(moves) + if m.OuterProducerMove? then 1 else 0
    ensures NoMemoryFound(moves) || m == OuterProducerMove(NoMemory) ==> NoMemoryFound(moves + [m])
  {
    var more := moves + [m];
    assert more[..|moves|] == moves && more[|moves|] == m;
    if NoMemoryFound(moves) {
      var i :| 0 <= i < |moves| && moves[i] == OuterProducerMove(NoMemory);
      assert more[i] == moves[i];
    }
  }

  lemma EnqueueSeesConsumer<T>(cfg: Config, o: Outer<T>, x: T, mode: AllocMode, moves: seq<OuterMove<T>>, c: OuterChoice<T>)
    requires var a := OuterRun(cfg, o, moves); OuterInv(cfg, a) && InEnqueue(cfg, o, x, mode, moves, a)
    ensures InEnqueue(cfg, o, x, mode, moves + [OuterConsumerMove(c)], OuterRun(cfg, o, moves + [OuterConsumerMove(c)]))
  {
    hide OuterRun, ConsumerStep, OuterInv, AtSomeMoment, ProducerCalls, NoMemoryFound, ProducerLeft, Holds;
    var m := OuterConsumerMove(c);
    OuterRunMore(cfg, o, moves, m);
    CallsMore(moves, m);
    ConsumerLeavesEnqueue(cfg, OuterRun(cfg, o, moves), c);
    var z := OuterRun(cfg, o, moves + [m]);
    if z.producer.InnerEnqueue? && z.inner.sawFull { MomentsStay(cfg, o, moves, m, FullQueue); }
  }

  lemma EnqueueInside<T>(cfg: Config, o: Outer<T>, x: T, mode: AllocMode, moves: seq<OuterMove<T>>, c: OuterChoice<T>)
    requires var a := OuterRun(cfg, o, moves); OuterInv(cfg, a) && InEnqueue(cfg, o, x, mode, moves, a)
    ensures var m := OuterProducerMove(c);
      var z := OuterRun(cfg, o, moves + [m]);
      && ProducerCalls(moves + [m]) <= 15
      && (InEnqueue(cfg, o, x, mode, moves + [m], z) || EnqueueReturned(cfg, o, x, mode, moves + [m], z))
  {
    hide OuterRun, AtSomeMoment, Step, Good, ProducerLeft, ProducerCalls, NoMemoryFound, Holds;
    var m := OuterProducerMove(c);
    var a := OuterRun(cfg, o, moves);
    OuterRunMore(cfg, o, moves, m);
    CallsMore(moves, m);
    if a.producer.InnerEnqueue? {
      var choice := if c.NoMemory? then OutOfMemory else Go;
      if a.inner.producer.at.EnqueueReturn? {
        AnswersAt(cfg, a.inner);
        InnerProducerMove(cfg, a.inner, choice);
        if a.inner.sawFull { MomentsStay(cfg, o, moves, m, FullQueue); }
      } else {
        InnerEnqueueGoes(cfg, a.inner, choice);
        var z := OuterRun(cfg, o, moves + [m]);
        FullHolds(cfg, z);
        if z.inner.sawFull { MomentsStay(cfg, o, moves, m, FullQueue); }
      }
    }
  }

  lemma FullHolds<T>(cfg: Config, z: Outer<T>)
    ensures Holds(cfg, z, FullQueue) <==> |z.inner.enqueued| >= |z.inner.dequeued| + cfg.maxSize
  {
  }

  lemma EnqueueBegins<T>(cfg: Config, o: Outer<T>, x: T, mode: AllocMode)
    requires OuterInv(cfg, o) && o.producer.OuterIdle?
    ensures var moves := [OuterProducerMove(StartEnqueue(x, mode))]; InEnqueue(cfg, o, x, mode, moves, OuterRun(cfg, o, moves))
  {
    hide Good, AtSomeMoment, Holds;
    var m := OuterProducerMove(StartEnqueue(x, mode));
    assert OuterRun(cfg, o, []) == o && ProducerCalls<T>([]) == 0;
    assert [] + [m] == [m];
    OuterRunMore(cfg, o, [], m);
    CallsMore([], m);
    FullHolds(cfg, OuterRun(cfg, o, [m]));
    if OuterRun(cfg, o, [m]).inner.sawFull { MomentsStay(cfg, o, [], m, FullQueue); }
  }

  // An enqueue: it returns after at most fifteen moves of its own, whatever the
  // moves of the consumer between them, with its element in the queue or
  // refused for good reason. With memory it is never refused.
  lemma {:induction false} EnqueueAnswers<T>(cfg: Config, o: Outer<T>, x: T, mode: AllocMode, moves: seq<OuterMove<T>>) returns (k: nat)
    requires OuterInv(cfg, o) && o.producer.OuterIdle? && moves != [] && moves[0] == OuterProducerMove(StartEnqueue(x, mode))
    ensures 0 < k <= |moves| && ProducerCalls(moves[..k]) <= 15
    ensures var z := OuterRun(cfg, o, moves[..k]);
      EnqueueReturned(cfg, o, x, mode, moves[..k], z) || (k == |moves| && InEnqueue(cfg, o, x, mode, moves, z))
    ensures ProducerCalls(moves) >= 15 ==> EnqueueReturned(cfg, o, x, mode, moves[..k], OuterRun(cfg, o, moves[..k]))
    decreases |moves|
  {
    hide OuterRun, OuterInv, EnqueueReturned, InEnqueue, ProducerCalls;
    var n := |moves| - 1;
    var m := moves[n];
    assert moves[..n] + [m] == moves && moves[..|moves|] == moves;
    if n == 0 {
      EnqueueBegins(cfg, o, x, mode);
      assert moves == [m];
      k := 1;
    } else {
      k := EnqueueAnswers(cfg, o, x, mode, moves[..n]);
      assert moves[..n][..k] == moves[..k];
      if !EnqueueReturned(cfg, o, x, mode, moves[..k], OuterRun(cfg, o, moves[..k])) {
        OuterRunKeepsInv(cfg, o, moves[..n]);
        match m {
          case OuterConsumerMove(c) => EnqueueSeesConsumer(cfg, o, x, mode, moves[..n], c);
          case OuterProducerMove(c) => EnqueueInside(cfg, o, x, mode, moves[..n], c);
        }
        k := |moves|;
      }
    }
    if InEnqueue(cfg, o, x, mode, moves, OuterRun(cfg, o, moves)) { StillToGo(cfg, o, x, mode, moves); }
  }

  lemma StillToGo<T>(cfg: Config, o: Outer<T>, x: T, mode: AllocMode, moves: seq<OuterMove<T>>)
    requires InEnqueue(cfg, o, x, mode, moves, OuterRun(cfg, o, moves))
    ensures ProducerCalls(moves) < 15
  {
  }
}
