// What every interleaving of the producer and the consumer keeps.
module SpscInvariant {
  import opened SpscQueue

  // How far `to` is ahead of `from` in a ring of `size` slots.
  function Ahead(to: nat, from: nat, size: nat): int {
    if to >= from then to - from else to - from + size
  }

  function Count<T>(b: Block<T>): int {
    Ahead(b.tail, b.front, b.size)
  }

  // The proof's view of a state: the blocks in list order from the front
  // block, the place of the tail block in it, and for each block the position
  // in the log of enqueued elements at which its contents begin.
  // `blockCount` and `blockSize` are the capacity promised at construction.
  datatype View = View(ring: seq<BlockId>, t: nat, lo: seq<nat>, blockCount: nat, blockSize: nat)

  // The log, including an element stored in a block not yet published.
  ghost function Log<T>(s: State<T>): seq<T> {
    if s.producer.Enqueuing? && (s.producer.at.AdvanceTailBlock? || s.producer.at.PublishBlock?)
    then s.enqueued + [s.producer.x]
    else s.enqueued
  }

  // The consumer has moved the front element of block b out.
  ghost predicate Holds<T>(s: State<T>, b: BlockId) {
    s.consumer.Dequeuing? && s.consumer.at.StoreFront? && s.consumer.at.fb == b
  }

  // The producer has built an element just past the tail of block b.
  ghost predicate Wrote<T>(s: State<T>, b: BlockId) {
    && s.producer.Enqueuing?
    && ((s.producer.at.StoreTail? && s.producer.at.tb == b)
        || (s.producer.at.StoreNextTail? && s.producer.at.nb == b))
  }

  ghost function WrittenTo<T>(s: State<T>, b: BlockId): Taken<T> {
    if Wrote(s, b) then Got(s.producer.x) else Nothing
  }

  ghost function SlotSpec<T>(b: Block<T>, lo: nat, log: seq<T>, held: bool, written: Taken<T>, j: nat): Slot<T>
    requires lo + Count(b) <= |log|
  {
    var k := Ahead(j, b.front, b.size);
    if 0 <= k < Count(b) then (if k == 0 && held then Raw else Live(log[lo + k]))
    else if k == Count(b) && written.Got? then Live(written.value)
    else Raw
  }

  ghost predicate BlockShape<T>(b: Block<T>) {
    && 2 <= b.size == |b.data|
    && b.front < b.size && b.tail < b.size && b.localTail < b.size && b.localFront < b.size
  }

  // The shadows lag: the producer sees at least as many elements as there are,
  // the consumer at most.
  ghost predicate Shadows<T>(b: Block<T>) {
    Ahead(b.localTail, b.front, b.size) <= Count(b) <= Ahead(b.tail, b.localFront, b.size)
  }

  ghost predicate BlockOk<T>(b: Block<T>, lo: nat, log: seq<T>, held: bool, written: Taken<T>) {
    && BlockShape(b)
    && Shadows(b)
    && lo + Count(b) <= |log|
    && (held ==> Count(b) > 0)
    && (written.Got? ==> Count(b) < b.size - 1)
    && forall j :: 0 <= j < b.size ==> b.data[j] == SlotSpec(b, lo, log, held, written, j)
  }

  function NextIndex(i: nat, n: nat): nat {
    if i + 1 == n then 0 else i + 1
  }

  // Every block of the circular list is an allocated block, met once, and
  // `next` leads around the list from the front block.
  ghost predicate RingOk<T>(s: State<T>, v: View) {
    && 0 <= v.t < |v.ring|
    && |v.lo| == |s.blocks|
    && (forall i :: 0 <= i < |v.ring| ==> v.ring[i] < |s.blocks|)
    && (forall i, j :: 0 <= i < j < |v.ring| ==> v.ring[i] != v.ring[j])
    && v.ring[0] == s.frontBlock
    && v.ring[v.t] == s.tailBlock
    && (forall i :: 0 <= i < |v.ring| ==> LinkedAt(s, v, i))
  }

  ghost predicate LinkedAt<T>(s: State<T>, v: View, i: nat)
    requires i < |v.ring| && v.ring[i] < |s.blocks|
  {
    s.blocks[v.ring[i]].next == To(v.ring[NextIndex(i, |v.ring|)])
  }

  ghost function BlockAt<T>(s: State<T>, v: View, i: nat): Block<T>
    requires i < |v.ring| && v.ring[i] < |s.blocks|
  {
    s.blocks[v.ring[i]]
  }

  ghost function CountAt<T>(s: State<T>, v: View, i: nat): int
    requires i < |v.ring| && v.ring[i] < |s.blocks|
  {
    Count(BlockAt(s, v, i))
  }

  ghost predicate BlockOkAt<T>(s: State<T>, v: View, i: nat)
    requires i < |v.ring| && v.ring[i] < |s.blocks| == |v.lo|
  {
    BlockOk(BlockAt(s, v, i), v.lo[v.ring[i]], Log(s), Holds(s, v.ring[i]), WrittenTo(s, v.ring[i]))
  }

  ghost predicate ContentsOk<T>(s: State<T>, v: View)
    requires RingOk(s, v)
  {
    forall i :: 0 <= i < |v.ring| ==> BlockOkAt(s, v, i)
  }

  // Elements stored in the block after the tail block, not yet published.
  ghost function Unpublished<T>(s: State<T>): int {
    |Log(s)| - |s.enqueued|
  }

  ghost predicate JoinedAt<T>(s: State<T>, v: View, i: nat)
    requires i + 1 < |v.ring| && v.ring[i] < |s.blocks| == |v.lo| && v.ring[i + 1] < |v.lo|
  {
    && v.lo[v.ring[i]] + CountAt(s, v, i) == v.lo[v.ring[i + 1]]
    && (0 < i ==> CountAt(s, v, i) == BlockAt(s, v, i).size - 1)
  }

  ghost predicate VacantAt<T>(s: State<T>, v: View, i: nat)
    requires v.t < i < |v.ring| && v.ring[i] < |s.blocks|
  {
    CountAt(s, v, i) == if i == v.t + 1 then Unpublished(s) else 0
  }

  // From the front block to the tail block the contents follow one another in
  // the log; inner blocks are full, the tail block is not empty unless it is
  // the front block, and all blocks beyond the tail block are empty.
  ghost predicate ChainOk<T>(s: State<T>, v: View)
    requires RingOk(s, v)
  {
    && v.lo[v.ring[0]] == |s.dequeued|
    && v.lo[v.ring[v.t]] + CountAt(s, v, v.t) == |s.enqueued|
    && (forall i :: 0 <= i < v.t ==> JoinedAt(s, v, i))
    && (0 < v.t ==> CountAt(s, v, v.t) > 0)
    && (forall i :: v.t < i < |v.ring| ==> VacantAt(s, v, i))
    && (Unpublished(s) > 0 ==> v.t + 1 < |v.ring| && v.lo[v.ring[v.t + 1]] == |s.enqueued|)
  }

  ghost predicate BigAt<T>(s: State<T>, v: View, i: nat)
    requires i < |v.ring| && v.ring[i] < |s.blocks|
  {
    BlockAt(s, v, i).size >= v.blockSize
  }

  ghost predicate CapacityOk<T>(cfg: Config, s: State<T>, v: View)
    requires RingOk(s, v)
  {
    && 1 <= v.blockCount <= |v.ring|
    && 2 <= v.blockSize <= s.largest
    && (forall i :: 0 <= i < |v.ring| ==> BigAt(s, v, i))
    && Promised(cfg, v.blockCount, v.blockSize)
  }

  // Enough room whichever block the consumer still occupies.
  ghost predicate Promised(cfg: Config, blockCount: nat, blockSize: nat) {
    && 1 <= blockCount && 1 <= blockSize
    && cfg.maxSize <= (if blockCount == 1 then 1 else blockCount - 1) * (blockSize - 1)
  }

  // The tail block was full when the producer looked, and still is if the
  // consumer has not reached it.
  ghost predicate TailWasFull<T>(s: State<T>, v: View)
    requires RingOk(s, v)
  {
    0 < v.t ==> CountAt(s, v, v.t) == BlockAt(s, v, v.t).size - 1
  }

  ghost predicate FreshBlock<T>(s: State<T>, v: View, nb: BlockId)
    requires RingOk(s, v)
  {
    && s.producer.Enqueuing?
    && nb < |s.blocks|
    && nb !in v.ring
    && v.lo[nb] == |s.enqueued|
    && s.blocks[nb].size >= v.blockSize >= 2
    && var b := s.blocks[nb];
       b == WriteSlot(NewBlock(b.size), 0, Live(s.producer.x)).(tail := 1, localTail := 1, next := b.next)
  }

  ghost predicate ProducerOk<T>(cfg: Config, s: State<T>, v: View)
    requires RingOk(s, v)
  {
    s.producer.Enqueuing? ==>
      var tail := BlockAt(s, v, v.t);
      var tb := s.tailBlock;
      var n := |v.ring|;
      match s.producer.at
      case LoadTailBlock => true
      case LoadTail(b) => b == tb
      case CheckRoom(b, bt, bf) => b == tb && bt == tail.tail && bf == tail.localFront
      case WriteElement(b, bt) => b == tb && bt == tail.tail && Ahead(tail.tail, tail.localFront, tail.size) < tail.size - 1
      case StoreTail(b, bt) => b == tb && bt == tail.tail && Ahead(tail.tail, tail.localFront, tail.size) < tail.size - 1
      case LoadNext(b) => b == tb && TailWasFull(s, v) && (v.t == n - 1 ==> s.sawFull)
      case CompareFrontBlock(b, nx) =>
        b == tb && TailWasFull(s, v) && (v.t == n - 1 ==> s.sawFull) && nx == tail.next
      case ReloadNext(b) => b == tb && TailWasFull(s, v) && v.t < n - 1
      case LoadNextFront(b, nx) => b == tb && TailWasFull(s, v) && v.t < n - 1 && nx == To(v.ring[v.t + 1])
      case LoadNextTail(b, nb, nf) =>
        && b == tb && TailWasFull(s, v) && v.t < n - 1 && nb == v.ring[v.t + 1]
        && nf == s.blocks[nb].front == s.blocks[nb].localFront
      case WriteNextElement(nb, nt) =>
        && TailWasFull(s, v) && v.t < n - 1 && nb == v.ring[v.t + 1]
        && nt == s.blocks[nb].tail == s.blocks[nb].front == s.blocks[nb].localFront
      case StoreNextTail(nb, nt) =>
        && TailWasFull(s, v) && v.t < n - 1 && nb == v.ring[v.t + 1]
        && nt == s.blocks[nb].tail == s.blocks[nb].front == s.blocks[nb].localFront
      case AdvanceTailBlock(nb) => TailWasFull(s, v) && v.t < n - 1 && nb == v.ring[v.t + 1]
      case AllocateBlock(b) => b == tb && TailWasFull(s, v) && s.producer.mode.CanAlloc? && s.sawFull
      case LinkNewBlock(b, nb) => b == tb && TailWasFull(s, v) && FreshBlock(s, v, nb)
      case LinkTailBlock(b, nb) => b == tb && TailWasFull(s, v) && FreshBlock(s, v, nb) && s.blocks[nb].next == tail.next
      case PublishBlock(nb) => TailWasFull(s, v) && v.t < n - 1 && nb == v.ring[v.t + 1]
      case EnqueueReturn(ok) => !ok ==> s.sawFull
      case ProducerAbort => false
  }

  ghost predicate ConsumerOk<T>(s: State<T>, v: View)
    requires RingOk(s, v)
  {
    s.consumer.Dequeuing? ==>
      var front := BlockAt(s, v, 0);
      var fb := s.frontBlock;
      match s.consumer.at
      case LoadFrontBlock => true
      case LoadFront(b) => b == fb
      case CheckElement(b, bf, bt) => b == fb && bf == front.front && bt == front.localTail
      case TakeElement(b, bf) => b == fb && bf == front.front && front.localTail != front.front
      case StoreFront(b, bf, x) =>
        && b == fb && bf == front.front && front.localTail != front.front
        && |s.dequeued| < |s.enqueued| && x == s.enqueued[|s.dequeued|]
        && !s.consumer.op.Peek?
      case CompareTailBlock(b) => b == fb && (v.t == 0 ==> s.sawEmpty)
      case ReloadFrontBlock => v.t > 0
      case ReloadTail(b) => b == fb && v.t > 0
      case ReloadFront(b, bt) => b == fb && v.t > 0 && bt == front.tail == front.localTail
      case LoadNextBlock(b) => b == fb && v.t > 0 && front.front == front.tail
      case LoadFrontOfNext(b, nx) => b == fb && v.t > 0 && front.front == front.tail && nx == To(v.ring[1])
      case LoadTailOfNext(b, nb, nf) =>
        b == fb && v.t > 0 && front.front == front.tail && nb == v.ring[1] && nf == s.blocks[nb].front
      case AdvanceFrontBlock(nb, nf) =>
        && v.t > 0 && front.front == front.tail && nb == v.ring[1]
        && nf == s.blocks[nb].front != s.blocks[nb].localTail
        && !s.consumer.op.Peek?
      case DequeueReturn(res) =>
        (match res
         case Nothing => s.sawEmpty
         case Got(x) => !s.consumer.op.Peek? && |s.dequeued| > 0 && x == s.dequeued[|s.dequeued| - 1]
         case Address(b, i) =>
           s.consumer.op.Peek? && |s.dequeued| < |s.enqueued| && Has(s, b, i)
           && s.blocks[b].data[i] == Live(s.enqueued[|s.dequeued|]))
      case ConsumerAbort => false
  }

  ghost predicate HistoryOk<T>(s: State<T>) {
    s.dequeued <= s.enqueued
  }

  ghost predicate Memory<T>(cfg: Config, s: State<T>, v: View) {
    && RingOk(s, v)
    && ContentsOk(s, v)
    && ChainOk(s, v)
    && CapacityOk(cfg, s, v)
    && HistoryOk(s)
  }

  ghost predicate Inv<T>(cfg: Config, s: State<T>, v: View) {
    && Memory(cfg, s, v)
    && ProducerOk(cfg, s, v)
    && ConsumerOk(s, v)
  }
}
