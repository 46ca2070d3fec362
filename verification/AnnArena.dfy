/** The arena of ann_batch.c: chains of blocks from which the texts of a batch of annotations are
    allocated, and the pool that keeps blocks for the next batch. */
module AnnArena {

  const BLOCK_CAP: nat := 65536
  const POOL_CAP: nat := 256

  /** n rounded up to a multiple of 8. */
  function Aligned(n: nat): (r: nat)
    ensures n <= r < n + 8 && r % 8 == 0
  {
    (n + 7) / 8 * 8
  }

  /** One byte of arena memory; a pointer is kept whole in the first of its eight bytes. */
  datatype Cell = Byte(c: char) | Pointer(to: Address)
  datatype Address = Null | At(block: Block, offset: nat)

  /** The memory follows the header within the same allocation, so it is a field and not an object of
      its own. */
  class Block {
    const cap: nat
    var used: nat
    var next: Block?
    var data: seq<Cell>

    /** Zeroed memory. */
    constructor (cap: nat)
      ensures this.cap == |data| == cap && used == 0 && next == null
    {
      this.cap, data := cap, seq(cap, _ => Byte('\0'));
      used, next := 0, null;
    }
  }

  // ----- What the blocks hold -----

  /** The used bytes of the blocks in flight. */
  type Memory = map<Block, seq<Cell>>

  /** Everything in m is still there in n. */
  ghost predicate Extends(m: Memory, n: Memory) {
    forall b :: b in m ==> b in n && m[b] <= n[b]
  }

  lemma ExtendsOn(a: Memory, b: Memory, c: Memory)
    requires Extends(a, b) && Extends(b, c)
    ensures Extends(a, c)
  {
  }

  /** Cells written over those from offset off of a block on. */
  function Write(s: seq<Cell>, off: nat, cells: seq<Cell>): (r: seq<Cell>)
    requires off + |cells| <= |s|
    ensures |r| == |s|
    ensures forall k :: 0 <= k < |r| ==> r[k] == if off <= k < off + |cells| then cells[k - off] else s[k]
  {
    s[..off] + cells + s[off + |cells|..]
  }

  function TextCells(s: string): (r: seq<Cell>)
    ensures |r| == |s| + 1
  {
    seq(|s|, i requires 0 <= i < |s| => Byte(s[i])) + [Byte('\0')]
  }

  /** The string s and its terminator stand at address at. */
  ghost predicate TextIn(m: Memory, at: Address, s: string) {
    && at.At? && at.block in m && at.offset + |s| + 1 <= |m[at.block]|
    && m[at.block][at.offset..at.offset + |s| + 1] == TextCells(s)
  }

  lemma TextKept(m: Memory, n: Memory, at: Address, s: string)
    requires TextIn(m, at, s) && Extends(m, n)
    ensures TextIn(n, at, s)
  {
    var k := at.offset + |s| + 1;
    assert n[at.block][..k] == m[at.block][..k];
    assert n[at.block][at.offset..k] == n[at.block][..k][at.offset..];
    assert m[at.block][at.offset..k] == m[at.block][..k][at.offset..];
  }

  /** Writing behind what was there keeps it. */
  lemma WriteBeyond(before: Memory, m: Memory, b: Block, off: nat, cells: seq<Cell>)
    requires Extends(before, m) && b in m && off + |cells| <= |m[b]| && (b in before ==> |before[b]| <= off)
    ensures Extends(before, m[b := Write(m[b], off, cells)])
  {
  }

  // ----- Chains -----

  /** The blocks of s, in order, are the chain that starts at head. */
  ghost predicate Chained(head: Block?, s: seq<Block>)
    reads s`next
  {
    if s == [] then head == null else head == s[0] && Chained(s[0].next, s[1..])
  }

  predicate Distinct(s: seq<Block>) {
    s == [] || (s[0] !in s[1..] && Distinct(s[1..]))
  }

  ghost predicate Sound(b: Block)
    reads b
  {
    b.used <= b.cap == |b.data| && b.used % 8 == 0
  }

  ghost predicate AllSound(s: seq<Block>)
    reads s
  {
    forall b :: b in s ==> Sound(b)
  }

  /** Bytes from, ..., to - 1 of a block. */
  datatype Range = Range(block: Block, from: nat, to: nat)

  predicate Apart(a: Range, b: Range) {
    a.block != b.block || a.to <= b.from || b.to <= a.from
  }

  ghost predicate PairwiseApart(r: seq<Range>) {
    forall i, j :: 0 <= i < j < |r| ==> Apart(r[i], r[j])
  }

  class Arena {
    var inflight: Block?
    var pool: Block?
    ghost var chain: seq<Block>
    ghost var pooled: seq<Block>
    ghost var created: nat
    ghost var freed: nat
    /** The ranges handed out since the blocks were last recycled. */
    ghost var handed: seq<Range>

    ghost function Repr(): set<Block>
      reads this
    {
      (set b | b in chain) + (set b | b in pooled)
    }

    ghost predicate Valid()
      reads this, chain, pooled
    {
      && Chained(inflight, chain) && Chained(pool, pooled)
      && Distinct(chain) && Distinct(pooled) && (forall b :: b in chain ==> b !in pooled)
      && AllSound(chain) && AllSound(pooled)
      && |pooled| <= POOL_CAP
      && created == |chain| + |pooled| + freed
      && HandedOut()
    }

    /** Ranges lie in the used part of blocks in flight and do not overlap. */
    ghost predicate HandedOut()
      reads this, chain
    {
      PairwiseApart(handed) && forall i :: 0 <= i < |handed| ==> handed[i].block in chain && handed[i].to <= handed[i].block.used
    }

    constructor ()
      ensures Valid() && chain == [] && pooled == [] && handed == []
    {
      inflight, pool, chain, pooled, created, freed, handed := null, null, [], [], 0, 0, [];
    }

    ghost function Contents(): Memory
      requires AllSound(chain)
      reads this, chain
    {
      map b | b in chain :: b.data[..b.used]
    }

    /** A block to allocate from: from the pool if there is one and it is large enough, otherwise new. */
    method TakeBlock(aligned: nat) returns (blk: Block)
      requires Valid()
      modifies this`pool, this`pooled, this`created, this`freed, pooled
      ensures Chained(inflight, chain) && Chained(pool, pooled) && Distinct(pooled)
      ensures pooled == (if old(pooled) == [] then [] else old(pooled)[1..])
      ensures if old(pooled) != [] && old(pooled)[0].cap >= aligned then blk == old(pooled)[0]
              else fresh(blk) && blk.cap == if aligned > 65536 then aligned else 65536
      ensures freed == old(freed) + if old(pooled) != [] && old(pooled)[0].cap < aligned then 1 else 0
      ensures AllSound(chain) && AllSound(pooled) && HandedOut() && freed >= old(freed) && created >= old(created)
      ensures inflight == old(inflight) && chain == old(chain) && handed == old(handed) && blk !in chain && blk !in pooled
      ensures forall b :: b in pooled ==> b in old(pooled)
      ensures blk.used == 0 && blk.next == null && blk.cap == |blk.data| && blk.cap >= aligned
      ensures created == |chain| + |pooled| + 1 + freed
    {
      var cap := if aligned > BLOCK_CAP then aligned else BLOCK_CAP;
      if pool == null {
        blk := new Block(cap);
        created := created + 1;
        return;
      }
      blk := pool;
      assert blk in pooled && Sound(blk);
      pool, pooled := blk.next, pooled[1..];
      assert blk !in pooled && blk !in chain;
      if blk.cap < aligned {
        freed := freed + 1;
        blk := new Block(cap);
        created := created + 1;
      }
      blk.used, blk.next := 0, null;
    }

    /** Puts a block in front of those in flight. */
    method Insert(blk: Block)
      requires Chained(inflight, chain) && Distinct(chain) && AllSound(chain) && HandedOut()
      requires Chained(pool, pooled) && AllSound(pooled)
      requires blk !in chain && blk !in pooled && Sound(blk)
      modifies this`inflight, this`chain, blk`next
      ensures inflight == blk && chain == [blk] + old(chain)
      ensures Chained(inflight, chain) && Distinct(chain) && AllSound(chain) && HandedOut()
      ensures Chained(pool, pooled) && AllSound(pooled)
    {
      blk.next := inflight;
      inflight, chain := blk, [blk] + chain;
      assert chain[1..] == old(chain);
    }

    /** Makes sure the first block in flight has room. */
    method MakeRoom(aligned: nat)
      requires Valid() && aligned % 8 == 0
      modifies this, pooled
      ensures Valid() && inflight != null && inflight.used + aligned <= inflight.cap
      ensures handed == old(handed) && freed >= old(freed) && created >= old(created)
      ensures chain == old(chain) || (chain == [inflight] + old(chain) && inflight.used == 0 && inflight !in old(chain))
      ensures old(inflight != null && inflight.used + aligned <= inflight.cap) <==> chain == old(chain)
      ensures chain == old(chain) ==> pooled == old(pooled)
      ensures pooled == old(pooled) || (old(pooled) != [] && pooled == old(pooled)[1..])
      ensures inflight in old(pooled) || inflight in old(chain) || fresh(inflight)
      ensures forall c :: c in old(chain) ==> c.data == old(c.data) && c.used == old(c.used)
      ensures Extends(old(Contents()), Contents())
    {
      if inflight == null || inflight.used + aligned > inflight.cap {
        hide Chained, HandedOut;
        var blk := TakeBlock(aligned);
        Insert(blk);
      } else {
        assert inflight == chain[0];
      }
    }

    /** Hands out the next bytes of the first block. */
    method Bump(aligned: nat) returns (b: Block, off: nat)
      requires Valid() && aligned % 8 == 0 && inflight != null && inflight.used + aligned <= inflight.cap
      modifies this`handed, inflight`used
      ensures Valid() && b == inflight && b in chain && off == old(b.used) && off + aligned == b.used <= |b.data|
      ensures handed == old(handed) + [Range(b, off, off + aligned)]
      ensures Extends(old(Contents()), Contents())
    {
      hide Distinct;
      b, off := inflight, inflight.used;
      assert Sound(b);
      b.used := off + aligned;
      handed := handed + [Range(b, off, off + aligned)];
    }

    /** An 8-byte aligned range of n bytes; it overlaps none handed out since the last recycling. */
    method Alloc(n: nat) returns (b: Block, off: nat)
      requires Valid()
      modifies this, Repr()
      ensures Valid() && b in chain && off + Aligned(n) == b.used <= |b.data| && off % 8 == 0
      ensures handed == old(handed) + [Range(b, off, off + Aligned(n))]
      ensures freed >= old(freed) && created >= old(created)
      ensures forall c :: c in old(chain) ==> c in chain
      ensures b in old(chain) ==> off == old(b.used)
      ensures fresh(Repr() - old(Repr()))
      ensures Extends(old(Contents()), Contents())
      ensures forall c :: c in old(chain) ==> c.data == old(c.data) && c.used >= old(c.used)
      ensures pooled == old(pooled) || (old(pooled) != [] && pooled == old(pooled)[1..])
    {
      hide Aligned, Extends, Contents, Chained, Distinct, HandedOut;
      ghost var before := Contents();
      assert inflight != null ==> inflight == chain[0] by { InflightFirst(); }
      MakeRoom(Aligned(n));
      InflightFirst();
      ghost var roomy := Contents();
      b, off := Bump(Aligned(n));
      ExtendsOn(before, roomy, Contents());
    }

    lemma InflightFirst()
      requires Valid()
      ensures inflight != null <==> chain != []
      ensures inflight != null ==> inflight == chain[0] && Sound(inflight)
      ensures forall b :: b in chain ==> b !in pooled
    {
    }

    /** Writes into a range that was handed out. */
    method Store(b: Block, off: nat, cells: seq<Cell>)
      requires Valid() && b in chain && off + |cells| <= b.used
      modifies b`data
      ensures Valid()
      ensures Contents() == old(Contents())[b := Write(old(Contents())[b], off, cells)]
    {
      assert Sound(b);
      ghost var before := b.data;
      b.data := b.data[..off] + cells + b.data[off + |cells|..];
      assert b.data[..b.used] == Write(before[..b.used], off, cells);
    }

    /** A copy of the string s. */
    method Strdup(s: string) returns (b: Block, off: nat)
      requires Valid()
      modifies this, Repr()
      ensures Valid() && b in chain && TextIn(Contents(), At(b, off), s)
      ensures Extends(old(Contents()), Contents())
      ensures b in old(chain) ==> off >= old(b.used)
      ensures forall c :: c in old(chain) ==> c in chain
      ensures fresh(Repr() - old(Repr()))
      ensures handed == old(handed) + [Range(b, off, off + Aligned(|s| + 1))]
      ensures freed >= old(freed) && created >= old(created)
    {
      hide Chained, Distinct, HandedOut;
      b, off := Alloc(|s| + 1);
      ghost var m := Contents();
      Store(b, off, TextCells(s));
      WriteBeyond(old(Contents()), m, b, off, TextCells(s));
      assert Contents()[b][off..off + |s| + 1] == TextCells(s);
    }

    /** The state of recycling: blk is the first of the blocks still to be moved. */
    ghost predicate Recycling(blk: Block?)
      reads this, chain, pooled
    {
      && inflight == null && handed == [] && Chained(blk, chain) && Chained(pool, pooled)
      && Distinct(chain) && Distinct(pooled) && (forall b :: b in chain ==> b !in pooled)
      && AllSound(chain) && AllSound(pooled)
      && |pooled| <= POOL_CAP && created == |chain| + |pooled| + freed
    }

    /** Moves one block to the pool if there is room, or frees it. */
    method Retire(blk: Block, poolCnt: nat) returns (cnt: nat)
      requires Recycling(blk) && poolCnt == |pooled|
      modifies this`pool, this`pooled, this`chain, this`freed, blk`next
      ensures Recycling(old(blk.next)) && cnt == |pooled| && created == old(created)
      ensures chain == old(chain)[1..] && blk == old(chain)[0]
      ensures if old(|pooled|) < POOL_CAP then pooled == [blk] + old(pooled) else pooled == old(pooled)
    {
      assert blk == chain[0] && blk in chain && blk !in pooled;
      cnt := poolCnt;
      ghost var next := blk.next;
      chain := chain[1..];
      assert Chained(next, chain) && blk !in chain;
      if poolCnt < POOL_CAP {
        blk.next := pool;
        pool, pooled := blk, [blk] + pooled;
        assert pooled[1..] == old(pooled);
        cnt := cnt + 1;
      } else {
        freed := freed + 1;
      }
    }

    /** Moves the blocks in flight to the pool, up to its capacity; the rest is freed. */
    method Recycle()
      requires Valid()
      modifies this, Repr()
      ensures Valid() && chain == [] && handed == [] && created == old(created)
      ensures Repr() <= old(Repr())
      ensures |pooled| == if |old(pooled)| + |old(chain)| < 256 then |old(pooled)| + |old(chain)| else 256
    {
      var poolCnt := CountPool();
      var blk := inflight;
      inflight, handed := null, [];
      ghost var total := |chain| + |pooled|;
      assert Recycling(blk);
      while blk != null
        invariant Recycling(blk) && poolCnt == |pooled| && created == old(created)
        invariant |pooled| == POOL_CAP || |chain| + |pooled| == total
        invariant |chain| + |pooled| <= total
        invariant forall b :: b in chain ==> b in old(chain)
        invariant forall b :: b in pooled ==> b in old(chain) || b in old(pooled)
        decreases |chain|
      {
        FirstOfChain(blk, chain);
        var next := blk.next;
        hide Recycling;
        poolCnt := Retire(blk, poolCnt);
        blk := next;
      }
    }

    lemma FirstOfChain(blk: Block, s: seq<Block>)
      requires Chained(blk, s)
      ensures s != [] && blk == s[0] && blk in s
    {
    }

    /** With the heap all blocks go at once, those in flight and those in the pool. */
    method DestroyHeap()
      requires Valid()
      modifies this
      ensures Valid() && chain == [] && pooled == [] && handed == []
      ensures created == old(created) == freed
    {
      freed := freed + |chain| + |pooled|;
      inflight, pool, chain, pooled, handed := null, null, [], [], [];
    }

    method CountPool() returns (n: nat)
      requires Chained(pool, pooled)
      ensures n == |pooled|
    {
      n := 0;
      var blk := pool;
      ghost var rest := pooled;
      while blk != null
        invariant Chained(blk, rest) && n + |rest| == |pooled|
        decreases |rest|
      {
        n := n + 1;
        blk, rest := blk.next, rest[1..];
      }
    }
  }
}
