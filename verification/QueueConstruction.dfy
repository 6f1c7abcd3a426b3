// Construction of the queue: the block size is rounded up to a power of two, and
// the blocks are linked into a circle.
module QueueConstruction {
  import opened Arithmetic
  import opened SpscQueue
  import opened SpscInvariant
  import opened SpscTheorems
  import opened PowersOfTwo

  ghost predicate IsPow2(x: nat) {
    exists n: nat :: x == Pow2(n)
  }

  // The first i of the blocks, linked in a circle.
  ghost predicate Circle<T>(blocks: seq<Block<T>>, size: nat) {
    forall j :: 0 <= j < |blocks| ==> CircleBlock(blocks, j, size)
  }

  ghost predicate CircleBlock<T>(blocks: seq<Block<T>>, j: nat, size: nat)
    requires j < |blocks|
  {
    blocks[j] == NewBlock(size).(next := To(NextIndex(j, |blocks|)))
  }

  ghost function InitialView(count: nat, size: nat): View {
    View(seq(count, i => i), 0, seq(count, _ => 0), count, size)
  }

  ghost predicate Constructed<T>(s: State<T>, size: nat) {
    && s.blocks != [] && Circle(s.blocks, size)
    && s.frontBlock == 0 && s.tailBlock == 0 && s.largest == size
    && s.producer == ProducerIdle && s.consumer == ConsumerIdle && s.enqueued == [] && s.dequeued == []
  }

  lemma ConstructedIsGood<T>(cfg: Config, s: State<T>, size: nat)
    requires Constructed(s, size) && size >= 2 && Promised(cfg, |s.blocks|, size)
    ensures Good(cfg, s)
  {
    var v := InitialView(|s.blocks|, size);
    forall i | 0 <= i < |v.ring| ensures v.ring[i] == i { }
    forall i | 0 <= i < |v.ring| ensures LinkedAt(s, v, i) && BigAt(s, v, i) && BlockOkAt(s, v, i) {
      assert CircleBlock(s.blocks, i, size);
    }
    forall i | 0 < i < |v.ring| ensures VacantAt(s, v, i) { assert CircleBlock(s.blocks, i, size); }
    assert CircleBlock(s.blocks, 0, size);
    assert Inv(cfg, s, v);
  }

  lemma EnoughBlocks(maxSize: nat, m: nat)
    requires m >= 2 && maxSize > 0
    ensures var n := (maxSize + m * 2 - 3) / (m - 1); n >= 2 && maxSize <= (n - 1) * (m - 1)
  {
    var a, d := maxSize + m * 2 - 3, m - 1;
    var n := a / d;
    assert a == n * d + a % d;
    assert (n - 1) * d == n * d - d;
  }

  method LinkBlocks<T>(count: nat, size: nat) returns (blocks: seq<Block<T>>)
    ensures |blocks| == count && Circle(blocks, size)
  {
    blocks := [];
    var i := 0;
    while i != count
      invariant 0 <= i <= count && |blocks| == i && Circle(blocks, size)
      decreases count - i
    {
      ghost var before := blocks;
      if i > 0 {
        blocks := blocks[i - 1 := blocks[i - 1].(next := To(i))];
      }
      blocks := blocks + [NewBlock(size).(next := To(0))];
      i := i + 1;
      forall j | 0 <= j < |blocks| ensures CircleBlock(blocks, j, size) {
        if j < i - 1 { assert CircleBlock(before, j, size); }
      }
    }
  }

  // The blocks the constructor allocates, and their size.
  method AllocateBlocks<T>(maxSize: nat, maxBlockSize: nat) returns (blocks: seq<Block<T>>, size: nat)
    requires maxSize > 0 && maxBlockSize >= 2 && IsPow2(maxBlockSize)
    requires maxSize + 1 <= Pow2(WIDTH - 1)
    ensures blocks != [] && Circle(blocks, size) && IsPow2(size) && size >= 2
    ensures Promised(Config(maxSize, maxBlockSize), |blocks|, size)
  {
    size := CeilToPow2(maxSize + 1);
    if size > maxBlockSize * 2 {
      var count := (maxSize + maxBlockSize * 2 - 3) / (maxBlockSize - 1);
      EnoughBlocks(maxSize, maxBlockSize);
      size := maxBlockSize;
      blocks := LinkBlocks(count, size);
    } else {
      blocks := [NewBlock(size).(next := To(0))];
      assert CircleBlock(blocks, 0, size);
    }
  }

  method Construct<T>(maxSize: nat, maxBlockSize: nat) returns (s: State<T>)
    requires maxSize > 0 && maxBlockSize >= 2 && IsPow2(maxBlockSize)
    requires maxSize + 1 <= Pow2(WIDTH - 1)
    ensures Good(Config(maxSize, maxBlockSize), s)
    ensures s.enqueued == s.dequeued == [] && s.producer == ProducerIdle && s.consumer == ConsumerIdle
    ensures exists size :: IsPow2(size) && Constructed(s, size)
  {
    var blocks, size := AllocateBlocks<T>(maxSize, maxBlockSize);
    s := State(blocks, 0, 0, size, ProducerIdle, ConsumerIdle, [], [], false, false);
    assert Constructed(s, size);
    ConstructedIsGood(Config(maxSize, maxBlockSize), s, size);
  }
}
