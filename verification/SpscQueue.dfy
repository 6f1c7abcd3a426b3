// The lock-free single-producer/single-consumer queue of ring blocks, as a
// transition system.
//
// Each move of a thread performs exactly one access to shared memory, so a
// sequence of moves is one interleaving of the two threads under sequential
// consistency.  Every way the program could go wrong (a failed assertion, a
// wild or null pointer, an element built over a live one, or an element read
// from raw storage) takes the offending thread to an `Abort` program point.
module SpscQueue {

  type BlockId = nat

  datatype Ptr = Null | To(id: BlockId)

  // Storage for one element: raw memory, or a constructed element.
  datatype Slot<+T> = Raw | Live(value: T)

  datatype Block<+T> = Block(
    front: nat,       // written by the consumer
    localTail: nat,   // the consumer's shadow of tail
    tail: nat,        // written by the producer
    localFront: nat,  // the producer's shadow of front
    next: Ptr,
    size: nat,        // sizeMask + 1
    data: seq<Slot<T>>)

  datatype AllocMode = CanAlloc | CannotAlloc

  // Program points of inner_enqueue; each names the access about to happen.
  datatype ProducerPoint =
    | LoadTailBlock
    | LoadTail(tb: BlockId)
    | CheckRoom(tb: BlockId, bt: nat, bf: nat)
    | WriteElement(tb: BlockId, bt: nat)
    | StoreTail(tb: BlockId, bt: nat)
    | LoadNext(tb: BlockId)
    | CompareFrontBlock(tb: BlockId, nx: Ptr)
    | ReloadNext(tb: BlockId)
    | LoadNextFront(tb: BlockId, nx: Ptr)
    | LoadNextTail(tb: BlockId, nb: BlockId, nf: nat)
    | WriteNextElement(nb: BlockId, nt: nat)
    | StoreNextTail(nb: BlockId, nt: nat)
    | AdvanceTailBlock(nb: BlockId)
    | AllocateBlock(tb: BlockId)
    | LinkNewBlock(tb: BlockId, nb: BlockId)
    | LinkTailBlock(tb: BlockId, nb: BlockId)
    | PublishBlock(nb: BlockId)
    | EnqueueReturn(ok: bool)
    | ProducerAbort

  datatype Producer<+T> = ProducerIdle | Enqueuing(x: T, mode: AllocMode, at: ProducerPoint)

  datatype ConsumerOp = TryDequeue | Peek | Pop

  // What a consumer call hands back: nothing, the element removed, or (for
  // peek) the address of the front element.
  datatype Taken<+T> = Nothing | Got(value: T) | Address(block: BlockId, index: nat)

  // Program points of try_dequeue, peek and pop.
  datatype ConsumerPoint<+T> =
    | LoadFrontBlock
    | LoadFront(fb: BlockId)
    | CheckElement(fb: BlockId, bf: nat, bt: nat)
    | TakeElement(fb: BlockId, bf: nat)
    | StoreFront(fb: BlockId, bf: nat, v: T)
    | CompareTailBlock(fb: BlockId)
    | ReloadFrontBlock
    | ReloadTail(fb: BlockId)
    | ReloadFront(fb: BlockId, bt: nat)
    | LoadNextBlock(fb: BlockId)
    | LoadFrontOfNext(fb: BlockId, nx: Ptr)
    | LoadTailOfNext(fb: BlockId, nb: BlockId, nf: nat)
    | AdvanceFrontBlock(nb: BlockId, nf: nat)
    | DequeueReturn(res: Taken<T>)
    | ConsumerAbort

  datatype Consumer<+T> = ConsumerIdle | Dequeuing(op: ConsumerOp, at: ConsumerPoint<T>)

  // `enqueued` and `dequeued` record the elements in the order in which the
  // calls take effect; `sawFull` and `sawEmpty` record whether, at some moment
  // of the call in progress, the queue held at least maxSize elements or none.
  datatype State<+T> = State(
    blocks: seq<Block<T>>,
    frontBlock: BlockId,
    tailBlock: BlockId,
    largest: nat,
    producer: Producer<T>,
    consumer: Consumer<T>,
    enqueued: seq<T>,
    dequeued: seq<T>,
    sawFull: bool,
    sawEmpty: bool)

  datatype Config = Config(maxSize: nat, maxBlockSize: nat)

  // A thread either continues, starts a call when idle, or finds that
  // allocation fails.
  datatype Choice<+T> =
    | Go
    | CallEnqueue(x: T, mode: AllocMode)
    | CallDequeue(op: ConsumerOp)
    | OutOfMemory

  datatype Move<+T> = ProducerMove(choice: Choice<T>) | ConsumerMove(choice: Choice<T>)

  function NewBlock<T>(size: nat): Block<T> {
    Block(0, 0, 0, 0, Null, size, seq(size, _ => Raw))
  }

  // (i + 1) & sizeMask, for a size that is a power of two.
  function Succ(i: nat, size: nat): nat {
    if size == 0 then 0 else (i + 1) % size
  }

  predicate Has<T>(s: State<T>, b: BlockId, i: nat) {
    b < |s.blocks| && i < |s.blocks[b].data|
  }

  function SetBlock<T>(s: State<T>, b: BlockId, blk: Block<T>): State<T>
    requires b < |s.blocks|
  {
    s.(blocks := s.blocks[b := blk])
  }

  function WriteSlot<T>(blk: Block<T>, i: nat, v: Slot<T>): Block<T>
    requires i < |blk.data|
  {
    blk.(data := blk.data[i := v])
  }

  function AtP<T>(s: State<T>, at: ProducerPoint): State<T>
    requires s.producer.Enqueuing?
  {
    s.(producer := s.producer.(at := at))
  }

  function AtC<T>(s: State<T>, at: ConsumerPoint<T>): State<T>
    requires s.consumer.Dequeuing?
  {
    s.(consumer := s.consumer.(at := at))
  }

  // Records, after a move, whether the queue is now empty or holds maxSize.
  function Observe<T>(cfg: Config, s: State<T>): State<T> {
    s.(sawFull := s.sawFull || |s.enqueued| >= |s.dequeued| + cfg.maxSize,
       sawEmpty := s.sawEmpty || |s.enqueued| <= |s.dequeued|)
  }

  predicate InTailBlock(at: ProducerPoint) {
    at.LoadTailBlock? || at.LoadTail? || at.CheckRoom? || at.WriteElement? || at.StoreTail?
  }

  predicate InNextBlock(at: ProducerPoint) {
    || at.LoadNext? || at.CompareFrontBlock? || at.ReloadNext? || at.LoadNextFront? || at.LoadNextTail?
    || at.WriteNextElement? || at.StoreNextTail? || at.AdvanceTailBlock?
  }

  predicate InNewBlock(at: ProducerPoint) {
    at.AllocateBlock? || at.LinkNewBlock? || at.LinkTailBlock? || at.PublishBlock?
  }

  // Room in the tail block: add the element there.  None of these steps writes
  // anything that belongs to the consumer.
  function TailBlockStep<T>(s: State<T>): (r: State<T>)
    requires s.producer.Enqueuing? && InTailBlock(s.producer.at)
    ensures r.consumer == s.consumer && r.frontBlock == s.frontBlock && r.dequeued == s.dequeued
    ensures s.enqueued <= r.enqueued && r.sawFull == s.sawFull && r.sawEmpty == s.sawEmpty
  {
    var x := s.producer.x;
    match s.producer.at
    case LoadTailBlock => AtP(s, LoadTail(s.tailBlock))
    case LoadTail(tb) =>
      if tb < |s.blocks|
      then AtP(s, CheckRoom(tb, s.blocks[tb].tail, s.blocks[tb].localFront))
      else AtP(s, ProducerAbort)
    case CheckRoom(tb, bt, bf) =>
      if tb >= |s.blocks| then AtP(s, ProducerAbort) else
      var b := s.blocks[tb];
      if Succ(bt, b.size) != bf then AtP(s, WriteElement(tb, bt)) else
      var s1 := SetBlock(s, tb, b.(localFront := b.front));
      if Succ(bt, b.size) != b.front then AtP(s1, WriteElement(tb, bt)) else AtP(s1, LoadNext(tb))
    case WriteElement(tb, bt) =>
      if Has(s, tb, bt) && s.blocks[tb].data[bt].Raw?
      then AtP(SetBlock(s, tb, WriteSlot(s.blocks[tb], bt, Live(x))), StoreTail(tb, bt))
      else AtP(s, ProducerAbort)
    case StoreTail(tb, bt) =>
      if tb >= |s.blocks| then AtP(s, ProducerAbort) else
      var b := s.blocks[tb];
      AtP(SetBlock(s, tb, b.(tail := Succ(bt, b.size))), EnqueueReturn(true)).(enqueued := s.enqueued + [x])
  }

  // The tail block is full: use the next block, unless it is the front block.
  function NextBlockStep<T>(s: State<T>): (r: State<T>)
    requires s.producer.Enqueuing? && InNextBlock(s.producer.at)
    ensures r.consumer == s.consumer && r.frontBlock == s.frontBlock && r.dequeued == s.dequeued
    ensures s.enqueued <= r.enqueued && r.sawFull == s.sawFull && r.sawEmpty == s.sawEmpty
  {
    var x, mode := s.producer.x, s.producer.mode;
    match s.producer.at
    case LoadNext(tb) =>
      if tb < |s.blocks|
      then AtP(s, CompareFrontBlock(tb, s.blocks[tb].next))
      else AtP(s, ProducerAbort)
    case CompareFrontBlock(tb, nx) =>
      if nx != To(s.frontBlock) then AtP(s, ReloadNext(tb))
      else if mode.CanAlloc? then AtP(s, AllocateBlock(tb))
      else AtP(s, EnqueueReturn(false))
    case ReloadNext(tb) =>
      if tb < |s.blocks|
      then AtP(s, LoadNextFront(tb, s.blocks[tb].next))
      else AtP(s, ProducerAbort)
    case LoadNextFront(tb, nx) =>
      if nx.Null? || nx.id >= |s.blocks| then AtP(s, ProducerAbort) else
      var b := s.blocks[nx.id];
      AtP(SetBlock(s, nx.id, b.(localFront := b.front)), LoadNextTail(tb, nx.id, b.front))
    case LoadNextTail(tb, nb, nf) =>
      if nb >= |s.blocks| || s.blocks[nb].tail != nf then AtP(s, ProducerAbort)  // assert(nextBlockFront == nextBlockTail)
      else AtP(SetBlock(s, nb, s.blocks[nb].(localFront := nf)), WriteNextElement(nb, s.blocks[nb].tail))
    case WriteNextElement(nb, nt) =>
      if Has(s, nb, nt) && s.blocks[nb].data[nt].Raw?
      then AtP(SetBlock(s, nb, WriteSlot(s.blocks[nb], nt, Live(x))), StoreNextTail(nb, nt))
      else AtP(s, ProducerAbort)
    case StoreNextTail(nb, nt) =>
      if nb >= |s.blocks| then AtP(s, ProducerAbort) else
      var b := s.blocks[nb];
      AtP(SetBlock(s, nb, b.(tail := Succ(nt, b.size))), AdvanceTailBlock(nb))
    case AdvanceTailBlock(nb) =>
      AtP(s, EnqueueReturn(true)).(tailBlock := nb, enqueued := s.enqueued + [x])
  }

  // No free block: link a new one in after the tail block.
  function NewBlockStep<T>(cfg: Config, s: State<T>, choice: Choice<T>): (r: State<T>)
    requires s.producer.Enqueuing? && InNewBlock(s.producer.at)
    ensures r.consumer == s.consumer && r.frontBlock == s.frontBlock && r.dequeued == s.dequeued
    ensures s.enqueued <= r.enqueued && r.sawFull == s.sawFull && r.sawEmpty == s.sawEmpty
  {
    var x := s.producer.x;
    match s.producer.at
    case AllocateBlock(tb) =>
      if choice.OutOfMemory? then AtP(s, EnqueueReturn(false)) else
      var size := if s.largest >= cfg.maxBlockSize then s.largest else s.largest * 2;
      if size == 0 then AtP(s, ProducerAbort) else
      var b := WriteSlot(NewBlock(size), 0, Live(x)).(tail := 1, localTail := 1);
      AtP(s.(blocks := s.blocks + [b], largest := size), LinkNewBlock(tb, |s.blocks|))
    case LinkNewBlock(tb, nb) =>
      if tb < |s.blocks| && nb < |s.blocks|
      then AtP(SetBlock(s, nb, s.blocks[nb].(next := s.blocks[tb].next)), LinkTailBlock(tb, nb))
      else AtP(s, ProducerAbort)
    case LinkTailBlock(tb, nb) =>
      if tb < |s.blocks|
      then AtP(SetBlock(s, tb, s.blocks[tb].(next := To(nb))), PublishBlock(nb))
      else AtP(s, ProducerAbort)
    case PublishBlock(nb) =>
      AtP(s, EnqueueReturn(true)).(tailBlock := nb, enqueued := s.enqueued + [x])
  }

  function EnqueueStep<T>(cfg: Config, s: State<T>, choice: Choice<T>): (r: State<T>)
    requires s.producer.Enqueuing?
    ensures r.consumer == s.consumer && r.frontBlock == s.frontBlock && r.dequeued == s.dequeued
    ensures s.enqueued <= r.enqueued && r.sawFull == s.sawFull && r.sawEmpty == s.sawEmpty
  {
    var at := s.producer.at;
    if InTailBlock(at) then TailBlockStep(s)
    else if InNextBlock(at) then NextBlockStep(s)
    else if InNewBlock(at) then NewBlockStep(cfg, s, choice)
    else if at.EnqueueReturn? then s.(producer := ProducerIdle)
    else s
  }

  // The consumer writes nothing that belongs to the producer.
  function DequeueStep<T>(s: State<T>): (r: State<T>)
    requires s.consumer.Dequeuing?
    ensures r.producer == s.producer && r.tailBlock == s.tailBlock && r.largest == s.largest && |r.blocks| == |s.blocks|
    ensures r.enqueued == s.enqueued && r.sawFull == s.sawFull && r.sawEmpty == s.sawEmpty
  {
    var op := s.consumer.op;
    match s.consumer.at
    case LoadFrontBlock => AtC(s, LoadFront(s.frontBlock))
    case LoadFront(fb) =>
      if fb < |s.blocks|
      then AtC(s, CheckElement(fb, s.blocks[fb].front, s.blocks[fb].localTail))
      else AtC(s, ConsumerAbort)
    case CheckElement(fb, bf, bt) =>
      if fb >= |s.blocks| then AtC(s, ConsumerAbort) else
      if bf != bt then AtC(s, TakeElement(fb, bf)) else
      var b := s.blocks[fb];
      var s1 := SetBlock(s, fb, b.(localTail := b.tail));
      if bf != b.tail then AtC(s1, TakeElement(fb, bf)) else AtC(s1, CompareTailBlock(fb))
    case TakeElement(fb, bf) =>
      if !Has(s, fb, bf) || s.blocks[fb].data[bf].Raw? then AtC(s, ConsumerAbort)
      else if op.Peek? then AtC(s, DequeueReturn(Address(fb, bf)))
      else AtC(SetBlock(s, fb, WriteSlot(s.blocks[fb], bf, Raw)), StoreFront(fb, bf, s.blocks[fb].data[bf].value))
    case StoreFront(fb, bf, v) =>
      if fb >= |s.blocks| then AtC(s, ConsumerAbort) else
      var b := s.blocks[fb];
      AtC(SetBlock(s, fb, b.(front := Succ(bf, b.size))), DequeueReturn(Got(v))).(dequeued := s.dequeued + [v])
    case CompareTailBlock(fb) =>
      if fb != s.tailBlock then AtC(s, ReloadFrontBlock) else AtC(s, DequeueReturn(Nothing))
    case ReloadFrontBlock => AtC(s, ReloadTail(s.frontBlock))
    case ReloadTail(fb) =>
      if fb >= |s.blocks| then AtC(s, ConsumerAbort) else
      var b := s.blocks[fb];
      AtC(SetBlock(s, fb, b.(localTail := b.tail)), ReloadFront(fb, b.tail))
    case ReloadFront(fb, bt) =>
      if fb >= |s.blocks| then AtC(s, ConsumerAbort) else
      if s.blocks[fb].front != bt then AtC(s, TakeElement(fb, s.blocks[fb].front)) else AtC(s, LoadNextBlock(fb))
    case LoadNextBlock(fb) =>
      if fb < |s.blocks| then AtC(s, LoadFrontOfNext(fb, s.blocks[fb].next)) else AtC(s, ConsumerAbort)
    case LoadFrontOfNext(fb, nx) =>
      if nx.Null? || nx.id >= |s.blocks| then AtC(s, ConsumerAbort)
      else AtC(s, LoadTailOfNext(fb, nx.id, s.blocks[nx.id].front))
    case LoadTailOfNext(fb, nb, nf) =>
      if nb >= |s.blocks| || s.blocks[nb].tail == nf then AtC(s, ConsumerAbort)  // assert(nextBlockFront != nextBlockTail)
      else if op.Peek? then AtC(s, DequeueReturn(Address(nb, nf)))
      else AtC(SetBlock(s, nb, s.blocks[nb].(localTail := s.blocks[nb].tail)), AdvanceFrontBlock(nb, nf))
    case AdvanceFrontBlock(nb, nf) =>
      AtC(s, TakeElement(nb, nf)).(frontBlock := nb)
    case DequeueReturn(_) => s.(consumer := ConsumerIdle)
    case ConsumerAbort => s
  }

  function Step<T>(cfg: Config, s: State<T>, m: Move<T>): State<T> {
    match m
    case ProducerMove(choice) =>
      if s.producer.Enqueuing? then Observe(cfg, EnqueueStep(cfg, s, choice))
      else if choice.CallEnqueue?
      then Observe(cfg, s.(producer := Enqueuing(choice.x, choice.mode, LoadTailBlock), sawFull := false))
      else Observe(cfg, s)
    case ConsumerMove(choice) =>
      if s.consumer.Dequeuing? then Observe(cfg, DequeueStep(s))
      else if choice.CallDequeue?
      then Observe(cfg, s.(consumer := Dequeuing(choice.op, LoadFrontBlock), sawEmpty := false))
      else Observe(cfg, s)
  }

  // The state after an interleaving of moves.
  function Run<T>(cfg: Config, s: State<T>, moves: seq<Move<T>>): State<T>
    decreases |moves|
  {
    if moves == [] then s else Step(cfg, Run(cfg, s, moves[..|moves| - 1]), moves[|moves| - 1])
  }

  predicate Aborted<T>(s: State<T>) {
    || (s.producer.Enqueuing? && s.producer.at.ProducerAbort?)
    || (s.consumer.Dequeuing? && s.consumer.at.ConsumerAbort?)
  }
}
