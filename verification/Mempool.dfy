/** The fixed-size block pool: a free list threaded through the blocks it manages. */
module Mempool {
  import opened Arithmetic

  const OS_ALIGNMENT: nat := 4

  /** OS_ALIGN for a power of two, where n & (a - 1) is n % a. */
  function OsAlign(n: nat, a: nat): nat
    requires a >= 1
  {
    if n % a == 0 then n else n + (a - n % a)
  }

  /** OS_MEMPOOL_BYTES with 4-byte words, and MEMPOOL_ALIGNED, which always adds. */
  function MempoolBytes(n: nat, blockSize: nat): nat { 4 * ((blockSize + 3) / 4 * n) }

  function MempoolAligned(n: nat): nat { n + 4 - n % 4 }

  function Addr(membuf: nat, size: nat, k: nat): nat { membuf + size * k }

  /** The start addresses of n blocks of the given true size. */
  function BlocksOf(membuf: nat, size: nat, n: nat): set<nat>
  {
    set k | 0 <= k < n :: Addr(membuf, size, k)
  }

  function BlockList(membuf: nat, size: nat, n: nat): seq<nat>
  {
    seq(n, k requires k >= 0 => Addr(membuf, size, k))
  }

  function SetOf(s: seq<nat>): set<nat> { set b | b in s }

  /** Entry i of a list, or NULL past its end. */
  function At(s: seq<nat>, i: nat): nat { if i < |s| then s[i] else 0 }

  function Min(s: seq<nat>): nat
    requires s != []
  {
    if |s| == 1 then s[0]
    else if s[|s| - 1] < Min(s[..|s| - 1]) then s[|s| - 1] else Min(s[..|s| - 1])
  }

  /** From head the links visit exactly the blocks of `free`, each once, and end in NULL. */
  ghost predicate ListFrom(head: nat, word: map<nat, nat>, free: seq<nat>)
  {
    && head == At(free, 0)
    && (forall i :: 0 <= i < |free| ==> free[i] in word && word[free[i]] == At(free, i + 1))
    && (forall i, j :: 0 <= i < j < |free| ==> free[i] != free[j])
  }

  datatype OsError = OsOk | OsInvalidParm | OsMemNotAligned

  class OsMempool {
    var blockSize: nat
    var numBlocks: nat
    var numFree: nat
    var minFree: nat
    var membuf: nat
    var head: nat                 // address of the first free block, 0 for NULL
    var word: map<nat, nat>       // the word at the start of each block of the buffer
    ghost var free: seq<nat>      // the free list
    ghost var levels: seq<nat>    // every value of numFree since the last init or clear

    function TrueSize(): nat
      reads `blockSize
    {
      OsAlign(blockSize, OS_ALIGNMENT)
    }

    function Blocks(): set<nat>
      reads `membuf, `blockSize, `numBlocks
    {
      BlocksOf(membuf, TrueSize(), numBlocks)
    }

    /** The blocks in address order. */
    ghost function InOrder(): seq<nat>
      reads `membuf, `blockSize, `numBlocks
    {
      BlockList(membuf, TrueSize(), numBlocks)
    }

    /** The pool as its client keeps it in mind. */
    ghost function BookOf(held: set<nat>): Book
      reads `free, `levels
    {
      Book(free, held, levels)
    }

    ghost function Allocated(): set<nat>
      reads `membuf, `blockSize, `numBlocks, `free
    {
      Blocks() - SetOf(free)
    }

    ghost predicate Valid()
      reads this
    {
      && blockSize >= 1 && numBlocks >= 1 && membuf >= 1 && membuf % OS_ALIGNMENT == 0
      && ListFrom(head, word, free) && SetOf(free) <= Blocks()
      && numFree == |free|
      && levels != [] && levels[|levels| - 1] == numFree && minFree == Min(levels)
    }

    constructor ()
    {
      blockSize, numBlocks, numFree, minFree, membuf, head, word := 0, 0, 0, 0, 0, 0, map[];
      free, levels := [], [];
    }

    /** The chaining loop shared by os_mempool_init and os_mempool_clear. */
    method ChainBlocks()
      requires numBlocks >= 1 && blockSize >= 1 && membuf >= 1
      modifies `head, `word
      ensures ListFrom(head, word, BlockList(membuf, OsAlign(blockSize, OS_ALIGNMENT), numBlocks))
    {
      var size := OsAlign(blockSize, OS_ALIGNMENT);
      var blockAddr, blockPtr, blocks := membuf, membuf, numBlocks;
      ghost var done := 0;
      while blocks > 1
        invariant done + blocks == numBlocks && blocks >= 1
        invariant blockAddr == blockPtr == Addr(membuf, size, done)
        invariant forall k :: 0 <= k < done ==>
          Addr(membuf, size, k) in word && word[Addr(membuf, size, k)] == Addr(membuf, size, k + 1)
      {
        blockAddr := blockAddr + size;
        assert blockAddr == Addr(membuf, size, done + 1);
        AddrsApart(membuf, size, done);
        word := word[blockPtr := blockAddr];
        blockPtr := blockAddr;
        blocks := blocks - 1;
        done := done + 1;
      }
      AddrsApart(membuf, size, done);
      word := word[blockPtr := 0];
      head := membuf;
      ChainIsList(membuf, size, numBlocks, word);
    }

    /** The ghost side of a fresh chain: the free list is all blocks in address order. */
    ghost method ResetFree()
      requires blockSize >= 1 && numBlocks >= 1 && membuf >= 1 && membuf % OS_ALIGNMENT == 0
      requires numFree == minFree == numBlocks
      requires ListFrom(head, word, BlockList(membuf, OsAlign(blockSize, OS_ALIGNMENT), numBlocks))
      modifies `free, `levels
      ensures Valid() && Allocated() == {} && levels == [numBlocks]
      ensures free == BlockList(membuf, OsAlign(blockSize, OS_ALIGNMENT), numBlocks)
    {
      free := BlockList(membuf, OsAlign(blockSize, OS_ALIGNMENT), numBlocks);
      levels := [numBlocks];
      ListIsBlocks(membuf, OsAlign(blockSize, OS_ALIGNMENT), numBlocks);
    }

    /** os_mempool_init. A pool of no blocks gets an empty count, but its list head points at
        the buffer all the same; without a buffer the link would be written through NULL. */
    method Init(blocks: nat, blockSize: nat, membuf: nat) returns (err: OsError)
      requires blocks < 0x1_0000 && (blocks == 0 && membuf == 0 ==> blockSize == 0)
      modifies this
      ensures err == (if blockSize == 0 || membuf == 0 then OsInvalidParm
                      else if membuf % OS_ALIGNMENT != 0 then OsMemNotAligned else OsOk)
      ensures err != OsOk ==> unchanged(this)
      ensures err == OsOk ==> this.blockSize == blockSize && this.membuf == membuf && numBlocks == blocks
      ensures err == OsOk && blocks >= 1 ==>
        && Valid() && Allocated() == {} && levels == [blocks]
        && free == BlockList(membuf, OsAlign(blockSize, OS_ALIGNMENT), blocks)
      ensures err == OsOk && blocks == 0 ==>
        numFree == minFree == 0 && head == membuf && head in word && word[head] == 0
    {
      if blockSize == 0 {
        return OsInvalidParm;
      }
      if membuf == 0 && blocks != 0 {
        return OsInvalidParm;
      }
      if membuf % OS_ALIGNMENT != 0 {
        return OsMemNotAligned;
      }
      this.blockSize, this.membuf := blockSize, membuf;
      numFree, minFree, numBlocks := blocks, blocks, blocks;
      if blocks == 0 {
        head := membuf;
        word := word[membuf := 0];
      } else {
        ChainBlocks();
        ResetFree();
      }
      err := OsOk;
    }

    /** os_mempool_clear: whatever was handed out is taken back. */
    method Clear()
      requires Valid()
      modifies this
      ensures Valid() && Allocated() == {} && levels == [numBlocks] && Blocks() == old(Blocks())
      ensures free == InOrder()
      ensures numBlocks == old(numBlocks) && blockSize == old(blockSize) && membuf == old(membuf)
    {
      numFree, minFree := numBlocks, numBlocks;
      ChainBlocks();
      ResetFree();
    }

    /** os_memblock_get: NULL exactly when every block is out; otherwise a block that
        nobody held. */
    method Get() returns (block: nat)
      requires Valid()
      modifies `head, `numFree, `minFree, `free, `levels
      ensures Valid()
      ensures block == 0 <==> old(Allocated()) == Blocks()
      ensures block == 0 ==> free == old(free) && levels == old(levels) && Allocated() == old(Allocated())
      ensures block != 0 ==>
        && block in Blocks() && block !in old(Allocated())
        && Allocated() == old(Allocated()) + {block}
        && old(free) == [block] + free
        && levels == old(levels) + [numFree]
    {
      block := 0;
      assert free == [] ==> SetOf(free) == {};
      if numFree > 0 {
        NotNull(membuf, TrueSize(), numBlocks, free[0]);
        PopFromPool(Blocks(), free);
        block := TakeHead();
      }
    }

    /** The first block leaves the list. */
    method TakeHead() returns (block: nat)
      requires Valid() && numFree > 0
      modifies `head, `numFree, `minFree, `free, `levels
      ensures Valid() && block == old(free[0]) && free == old(free)[1..] && levels == old(levels) + [numFree]
    {
      PopKeepsList(head, word, free);
      MinAppend(levels, numFree - 1);
      block := head;
      head := word[block];
      numFree := numFree - 1;
      if minFree > numFree {
        minFree := numFree;
      }
      free := free[1..];
      levels := levels + [numFree];
    }

    /** os_memblock_put of a block the caller holds; NULL is refused. */
    method Put(block: nat) returns (err: OsError)
      requires Valid() && (block == 0 || block in Allocated())
      modifies `head, `word, `numFree, `minFree, `free, `levels
      ensures Valid()
      ensures err == if block == 0 then OsInvalidParm else OsOk
      ensures block == 0 ==> unchanged(this)
      ensures block != 0 ==>
        && Allocated() == old(Allocated()) - {block}
        && free == [block] + old(free)
        && levels == old(levels) + [numFree]
    {
      if block == 0 {
        return OsInvalidParm;
      }
      PushKeepsList(head, word, free, block);
      assert SetOf([block] + free) == SetOf(free) + {block};
      word := word[block := head];
      head := block;
      numFree := numFree + 1;
      MinAppend(levels, numFree);
      MinBelow(levels);
      levels := levels + [numFree];
      free := [block] + free;
      err := OsOk;
    }

    /** A holder may write anything into its block: the pool does not read it. */
    method HolderWrites(block: nat, value: nat)
      requires Valid() && block in Allocated()
      modifies `word
      ensures Valid() && word == old(word)[block := value]
    {
      WriteKeepsList(head, word, free, block, value);
      word := word[block := value];
    }

    /** os_memblock_from: 1 exactly for the start address of one of the blocks. */
    method MemblockFrom(addr: nat) returns (from: nat)
      requires blockSize >= 1
      ensures from == if addr in Blocks() then 1 else 0
    {
      var size := TrueSize();
      var end := membuf + numBlocks * size;
      var inRange := membuf <= addr < end;
      from := if !inRange || (addr - membuf) % size != 0 then 0 else 1;
      InBlocks(membuf, size, numBlocks, addr);
    }

    /** os_mempool_is_sane: the walk over the free list ends, and finds only blocks. */
    method IsSane() returns (sane: bool)
      requires Valid()
      ensures sane
    {
      var block := head;
      ghost var i := 0;
      while block != 0
        invariant 0 <= i <= |free| && block == At(free, i)
        decreases |free| - i
      {
        assert block in Blocks();
        var from := MemblockFrom(block);
        if from == 0 {
          return false;
        }
        block := word[block];
        i := i + 1;
      }
      sane := true;
    }

    /** Blocks out and blocks in add up to the pool. */
    lemma PartsAddUp()
      requires Valid()
      ensures |Blocks()| == numBlocks && |Allocated()| + numFree == numBlocks
    {
      CountBlocks(membuf, TrueSize(), numBlocks);
      CountParts(Blocks(), free);
    }
  }

  // ----- a client -----

  /** A client's actions on a pool. */
  datatype Op = GetOp | PutOp(block: nat) | WriteOp(block: nat, value: nat) | ClearOp

  /** The free list, the blocks the client holds, and the free counts since the last clear. */
  datatype Book = Book(free: seq<nat>, held: set<nat>, levels: seq<nat>)

  /** What an action does: blocks are served from the front of the list and given back to
      it; giving back, or writing to, a block that is not held is not attempted. */
  function Apply(all: seq<nat>, b: Book, op: Op): Book
  {
    match op
    case GetOp =>
      if b.free == [] then b
      else Book(b.free[1..], b.held + {b.free[0]}, b.levels + [|b.free| - 1])
    case PutOp(x) =>
      if x !in b.held then b
      else Book([x] + b.free, b.held - {x}, b.levels + [|b.free| + 1])
    case WriteOp(_, _) => b
    case ClearOp => Book(all, {}, [|all|])
  }

  function ApplyAll(all: seq<nat>, b: Book, ops: seq<Op>): Book
  {
    if ops == [] then b else Apply(all, ApplyAll(all, b, ops[..|ops| - 1]), ops[|ops| - 1])
  }

  method ClientStep(pool: OsMempool, op: Op, held: set<nat>) returns (held': set<nat>)
    requires pool.Valid() && held == pool.Allocated()
    modifies pool
    ensures pool.Valid() && held' == pool.Allocated() && pool.InOrder() == old(pool.InOrder())
    ensures pool.BookOf(held') == Apply(pool.InOrder(), old(pool.BookOf(held)), op)
  {
    held' := held;
    match op
    case GetOp =>
      assert pool.free == [] ==> SetOf(pool.free) == {};
      var b := pool.Get();
      if b != 0 {
        assert b !in held;
        held' := held + {b};
      }
    case PutOp(b) =>
      if b in held {
        NotNull(pool.membuf, pool.TrueSize(), pool.numBlocks, b);
        var _ := pool.Put(b);
        held' := held - {b};
      }
    case WriteOp(b, v) =>
      if b in held {
        pool.HolderWrites(b, v);
      }
    case ClearOp =>
      pool.Clear();
      held' := {};
  }

  /** Any run of such a client: list, holdings and history of free counts are exactly what
      the actions make of them, the low-water mark is the least count in that history, and
      the sanity walk succeeds after every action. */
  method Client(pool: OsMempool, ops: seq<Op>, held0: set<nat>) returns (held: set<nat>, checks: seq<bool>)
    requires pool.Valid() && held0 == pool.Allocated()
    modifies pool
    ensures pool.Valid() && held == pool.Allocated() && pool.InOrder() == old(pool.InOrder())
    ensures pool.BookOf(held) == ApplyAll(pool.InOrder(), old(pool.BookOf(held0)), ops)
    ensures pool.numFree == |pool.free| && pool.minFree == Min(pool.levels)
    ensures |checks| == |ops| && forall k :: 0 <= k < |checks| ==> checks[k]
  {
    held, checks := held0, [];
    var i := 0;
    assert ops[..0] == [];
    while i < |ops|
      invariant 0 <= i == |checks| <= |ops| && forall k :: 0 <= k < |checks| ==> checks[k]
      invariant pool.Valid() && held == pool.Allocated() && pool.InOrder() == old(pool.InOrder())
      invariant pool.BookOf(held) == ApplyAll(pool.InOrder(), old(pool.BookOf(held0)), ops[..i])
    {
      held := ClientStep(pool, ops[i], held);
      var sane := pool.IsSane();
      checks := checks + [sane];
      assert ops[..i + 1][..i] == ops[..i];
      i := i + 1;
    }
    assert ops[..i] == ops;
  }

  // ----- what any run of actions keeps -----

  /** Free list and holdings share out the blocks. */
  ghost predicate Shared(all: seq<nat>, b: Book)
  {
    && (forall i, j :: 0 <= i < j < |b.free| ==> b.free[i] != b.free[j])
    && SetOf(b.free) + b.held == SetOf(all) && SetOf(b.free) !! b.held
    && b.levels != [] && b.levels[|b.levels| - 1] == |b.free|
  }

  lemma SharedNext(all: seq<nat>, b: Book, op: Op)
    requires forall i, j :: 0 <= i < j < |all| ==> all[i] != all[j]
    requires Shared(all, b)
    ensures Shared(all, Apply(all, b, op))
  {
    var b' := Apply(all, b, op);
    match op {
      case GetOp =>
        if b.free != [] {
          PopFromSet(b.free);
        }
      case PutOp(x) =>
        if x in b.held {
          assert SetOf([x] + b.free) == SetOf(b.free) + {x};
          assert forall i :: 0 < i < |b'.free| ==> b'.free[i] == b.free[i - 1] && b'.free[i] in SetOf(b.free);
        }
      case _ =>
    }
  }

  /** After any actions the blocks held and the free blocks are disjoint and make up the
      pool, so their numbers add up to it. */
  lemma {:induction false} BlocksShared(all: seq<nat>, b: Book, ops: seq<Op>)
    requires forall i, j :: 0 <= i < j < |all| ==> all[i] != all[j]
    requires Shared(all, b)
    ensures Shared(all, ApplyAll(all, b, ops))
    ensures var b' := ApplyAll(all, b, ops); |b'.held| + |b'.free| == |all|
  {
    if ops == [] {
      CountDistinct(b.free);
      CountDistinct(all);
      assert |SetOf(b.free) + b.held| == |SetOf(b.free)| + |b.held|;
    } else {
      BlocksShared(all, b, ops[..|ops| - 1]);
      var b1 := ApplyAll(all, b, ops[..|ops| - 1]);
      var b' := Apply(all, b1, ops[|ops| - 1]);
      SharedNext(all, b1, ops[|ops| - 1]);
      CountDistinct(b'.free);
      CountDistinct(all);
      assert |SetOf(b'.free) + b'.held| == |SetOf(b'.free)| + |b'.held|;
    }
  }

  /** How many actions there were up to and with the last clear. */
  function LastClear(ops: seq<Op>): nat
  {
    if ops == [] then 0
    else if ops[|ops| - 1].ClearOp? then |ops|
    else LastClear(ops[..|ops| - 1])
  }

  /** The free count after the first k actions. */
  function FreeAt(all: seq<nat>, b: Book, ops: seq<Op>, k: nat): nat
    requires k <= |ops|
  {
    |ApplyAll(all, b, ops[..k]).free|
  }

  ghost predicate LeastFree(all: seq<nat>, b: Book, ops: seq<Op>, x: nat)
  {
    && (forall k :: LastClear(ops) <= k <= |ops| ==> x <= FreeAt(all, b, ops, k))
    && (exists k :: LastClear(ops) <= k <= |ops| && FreeAt(all, b, ops, k) == x)
  }

  /** From a fresh pool, the least recorded level is the least number of free blocks there
      has been since the last clear. */
  lemma {:induction false} LowWaterMark(all: seq<nat>, b: Book, ops: seq<Op>)
    requires b.levels == [|b.free|]
    ensures var b' := ApplyAll(all, b, ops); b'.levels != [] && LeastFree(all, b, ops, Min(b'.levels))
  {
    var b' := ApplyAll(all, b, ops);
    assert ops[..|ops|] == ops;
    if ops == [] || ops[|ops| - 1].ClearOp? {
      assert LastClear(ops) == |ops| && FreeAt(all, b, ops, |ops|) == |b'.free|;
    } else {
      var before := ops[..|ops| - 1];
      var b1 := ApplyAll(all, b, before);
      LowWaterMark(all, b, before);
      LevelsNext(all, b1, ops[|ops| - 1]);
      forall k | 0 <= k <= |before| ensures FreeAt(all, b, ops, k) == FreeAt(all, b, before, k) {
        assert ops[..k] == before[..k];
      }
      LeastNext(all, b, ops, Min(b1.levels), Min(b'.levels));
    }
  }

  lemma LevelsNext(all: seq<nat>, b: Book, op: Op)
    requires b.levels != [] && !op.ClearOp?
    ensures var b' := Apply(all, b, op);
      && b'.levels != []
      && (b' == b || Min(b'.levels) == if |b'.free| < Min(b.levels) then |b'.free| else Min(b.levels))
  {
    var b' := Apply(all, b, op);
    if b' != b {
      MinAppend(b.levels, |b'.free|);
    }
  }

  lemma LeastNext(all: seq<nat>, b: Book, ops: seq<Op>, x: nat, y: nat)
    requires ops != [] && !ops[|ops| - 1].ClearOp?
    requires LeastFree(all, b, ops[..|ops| - 1], x)
    requires forall k :: 0 <= k < |ops| ==> FreeAt(all, b, ops, k) == FreeAt(all, b, ops[..|ops| - 1], k)
    requires var last := FreeAt(all, b, ops, |ops|);
      (y == x && last == FreeAt(all, b, ops, |ops| - 1)) || y == if last < x then last else x
    ensures LeastFree(all, b, ops, y)
  {
    var before := ops[..|ops| - 1];
    var k :| LastClear(before) <= k <= |before| && FreeAt(all, b, before, k) == x;
    assert LastClear(ops) == LastClear(before);
    assert FreeAt(all, b, ops, k) == x;
  }

  lemma NotNull(membuf: nat, size: nat, n: nat, b: nat)
    requires membuf >= 1
    ensures b in BlocksOf(membuf, size, n) ==> b != 0
  {
  }

  lemma AddrsApart(membuf: nat, size: nat, n: nat)
    requires size >= 1
    ensures forall k :: 0 <= k < n ==> Addr(membuf, size, k) != Addr(membuf, size, n)
  {
    forall k | 0 <= k < n ensures Addr(membuf, size, k) != Addr(membuf, size, n) {
      MulGrows(size, k, n);
    }
  }

  lemma ChainIsList(membuf: nat, size: nat, n: nat, word: map<nat, nat>)
    requires size >= 1 && n >= 1
    requires forall k :: 0 <= k < n - 1 ==>
      Addr(membuf, size, k) in word && word[Addr(membuf, size, k)] == Addr(membuf, size, k + 1)
    requires var last := Addr(membuf, size, n - 1); last in word && word[last] == 0
    ensures ListFrom(membuf, word, BlockList(membuf, size, n))
  {
    var all := BlockList(membuf, size, n);
    forall i, j | 0 <= i < j < n ensures all[i] != all[j] {
      AddrsApart(membuf, size, j);
    }
  }

  lemma ListIsBlocks(membuf: nat, size: nat, n: nat)
    ensures SetOf(BlockList(membuf, size, n)) == BlocksOf(membuf, size, n)
  {
    var all := BlockList(membuf, size, n);
    forall b | b in BlocksOf(membuf, size, n) ensures b in all {
      var k :| 0 <= k < n && b == Addr(membuf, size, k);
      assert all[k] == b;
    }
  }

  lemma MinAppend(s: seq<nat>, x: nat)
    requires s != []
    ensures Min(s + [x]) == if x < Min(s) then x else Min(s)
  {
    assert (s + [x])[..|s + [x]| - 1] == s;
  }

  lemma {:induction false} MinBelow(s: seq<nat>)
    requires s != []
    ensures Min(s) <= s[|s| - 1] && Min(s) in s
    ensures forall i :: 0 <= i < |s| ==> Min(s) <= s[i]
  {
    if |s| > 1 {
      MinBelow(s[..|s| - 1]);
    }
  }

  lemma InBlocks(membuf: nat, size: nat, n: nat, addr: nat)
    requires size >= 1
    ensures addr in BlocksOf(membuf, size, n)
      <==> membuf <= addr < membuf + n * size && (addr - membuf) % size == 0
  {
    if membuf <= addr < membuf + n * size && (addr - membuf) % size == 0 {
      var k := (addr - membuf) / size;
      if n <= k {
        MulGrows(size, n, k);
      }
      assert addr == Addr(membuf, size, k);
    } else if addr in BlocksOf(membuf, size, n) {
      var k :| 0 <= k < n && addr == Addr(membuf, size, k);
      MulGrows(size, k, n);
      QuotientIsUnique(size, addr - membuf, k, 0);
    }
  }

  lemma {:induction false} CountBlocks(membuf: nat, size: nat, n: nat)
    requires size >= 1
    ensures |BlocksOf(membuf, size, n)| == n
  {
    if n > 0 {
      CountBlocks(membuf, size, n - 1);
      AddrsApart(membuf, size, n - 1);
      assert BlocksOf(membuf, size, n) == BlocksOf(membuf, size, n - 1) + {Addr(membuf, size, n - 1)};
    }
  }

  lemma {:induction false} CountDistinct(s: seq<nat>)
    requires forall i, j :: 0 <= i < j < |s| ==> s[i] != s[j]
    ensures |SetOf(s)| == |s|
  {
    if s == [] {
      assert SetOf(s) == {};
    } else {
      CountDistinct(s[1..]);
      assert s[0] !in s[1..];
      assert SetOf(s) == SetOf(s[1..]) + {s[0]};
    }
  }

  lemma CountParts(blocks: set<nat>, free: seq<nat>)
    requires forall i, j :: 0 <= i < j < |free| ==> free[i] != free[j]
    requires SetOf(free) <= blocks
    ensures |blocks - SetOf(free)| + |free| == |blocks|
  {
    CountDistinct(free);
    var inFree := SetOf(free);
    assert blocks == (blocks - inFree) + inFree;
    assert |(blocks - inFree) + inFree| == |blocks - inFree| + |inFree|;
  }

  lemma PopFromSet(free: seq<nat>)
    requires free != [] && forall i, j :: 0 <= i < j < |free| ==> free[i] != free[j]
    ensures free == [free[0]] + free[1..]
    ensures free[0] !in free[1..] && SetOf(free) == SetOf(free[1..]) + {free[0]}
  {
  }

  lemma PopFromPool(blocks: set<nat>, free: seq<nat>)
    requires free != [] && forall i, j :: 0 <= i < j < |free| ==> free[i] != free[j]
    requires SetOf(free) <= blocks
    ensures free == [free[0]] + free[1..]
    ensures SetOf(free[1..]) <= blocks && free[0] in blocks && free[0] !in blocks - SetOf(free)
    ensures blocks - SetOf(free[1..]) == (blocks - SetOf(free)) + {free[0]}
    ensures blocks - SetOf(free) != blocks
  {
    PopFromSet(free);
    assert free[0] in SetOf(free);
  }

  lemma PopKeepsList(head: nat, word: map<nat, nat>, free: seq<nat>)
    requires ListFrom(head, word, free) && free != []
    ensures head in word && ListFrom(word[head], word, free[1..])
  {
    assert forall i :: 0 <= i < |free[1..]| ==> free[1..][i] == free[i + 1];
  }

  lemma PushKeepsList(head: nat, word: map<nat, nat>, free: seq<nat>, block: nat)
    requires ListFrom(head, word, free) && block !in free
    ensures ListFrom(block, word[block := head], [block] + free)
  {
    var more := [block] + free;
    assert forall i :: 0 < i < |more| ==> more[i] == free[i - 1] && more[i] in free;
  }

  lemma WriteKeepsList(head: nat, word: map<nat, nat>, free: seq<nat>, block: nat, value: nat)
    requires ListFrom(head, word, free) && block !in free
    ensures ListFrom(head, word[block := value], free)
  {
    assert forall i :: 0 <= i < |free| ==> free[i] in free;
  }

  // ----- geometry -----

  /** OS_MEMPOOL_BYTES is room for n aligned blocks, and the blocks lie inside it, apart. */
  lemma PoolGeometry(membuf: nat, n: nat, blockSize: nat)
    requires blockSize >= 1
    ensures MempoolBytes(n, blockSize) == n * OsAlign(blockSize, OS_ALIGNMENT)
    ensures var size := OsAlign(blockSize, OS_ALIGNMENT);
      && blockSize <= size < blockSize + 4 && size % 4 == 0
      && (forall k :: 0 <= k < n ==>
            Addr(membuf, size, k) + size <= membuf + MempoolAligned(MempoolBytes(n, blockSize)))
      && (forall j, k :: 0 <= j < k < n ==> Addr(membuf, size, j) + size <= Addr(membuf, size, k))
    ensures forall m: nat :: m < MempoolAligned(m) <= m + 4 && MempoolAligned(m) % 4 == 0
  {
    var size := OsAlign(blockSize, OS_ALIGNMENT);
    var q := (blockSize + 3) / 4;
    assert size == 4 * q;
    assert 4 * (q * n) == n * (4 * q);
    forall k | 0 <= k < n ensures Addr(membuf, size, k) + size <= membuf + size * n {
      MulGrows(size, k, n);
    }
    forall j, k | 0 <= j < k < n ensures Addr(membuf, size, j) + size <= Addr(membuf, size, k) {
      MulGrows(size, j, k);
    }
  }

  /** hosted_mempool_create's size test for caller-supplied memory. */
  predicate StaticAccepted(memSize: nat, n: nat, blockSize: nat) { memSize >= n * blockSize }

  /** The test counts unaligned blocks, so it guarantees room for the pool exactly when the
      block size is a multiple of the alignment. */
  lemma StaticMemoryFitsExactly(n: nat, blockSize: nat)
    requires n >= 1 && blockSize >= 1
    ensures (forall memSize: nat :: StaticAccepted(memSize, n, blockSize)
              ==> n * OsAlign(blockSize, OS_ALIGNMENT) <= memSize)
       <==> blockSize % OS_ALIGNMENT == 0
  {
    if blockSize % OS_ALIGNMENT != 0 {
      MulGrows(n, blockSize, OsAlign(blockSize, OS_ALIGNMENT));
      assert StaticAccepted(n * blockSize, n, blockSize);
    }
  }
}
