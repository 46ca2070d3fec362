/** The annotation collector of ann_batch.c: items with texts in the arena, delivered to the host in
    batches. */
module AnnBatch {
  import opened AnnArena

  const BATCH_MAX: nat := 1024

  /** What the caller hands in, and what the host is to get. decoder stands for the identity of the
      decoder that made the annotation. */
  datatype Annotation = Annotation(start: nat, end: nat, annClass: int, annType: int,
                                   texts: seq<string>, hex: string, numeric: int, decoder: nat)

  datatype Item = Item(start: nat, end: nat, annClass: int, annType: int,
                       text: Address, hex: string, numeric: int, decoder: nat)

  // ----- Reading an item's texts -----

  /** The string at an offset: up to the terminator. */
  function ReadText(m: Memory, b: Block, off: nat): string
    requires b in m
    decreases |m[b]| - off
  {
    if off >= |m[b]| || m[b][off].Pointer? || m[b][off].c == '\0' then "" else [m[b][off].c] + ReadText(m, b, off + 1)
  }

  function ReadPointer(m: Memory, c: Cell): string {
    if c.Pointer? && c.to.At? && c.to.block in m then ReadText(m, c.to.block, c.to.offset) else ""
  }

  /** The strings of the vector at an offset: up to the null pointer. */
  function ReadVector(m: Memory, b: Block, off: nat): seq<string>
    requires b in m
    decreases |m[b]| - off
  {
    if off >= |m[b]| || m[b][off] == Pointer(Null) then [] else [ReadPointer(m, m[b][off])] + ReadVector(m, b, off + 8)
  }

  /** An item as the host reads it. */
  function ReadItem(m: Memory, it: Item): Annotation {
    Annotation(it.start, it.end, it.annClass, it.annType,
               if it.text.At? && it.text.block in m then ReadVector(m, it.text.block, it.text.offset) else [],
               it.hex, it.numeric, it.decoder)
  }

  function ReadItems(m: Memory, items: seq<Item>): (r: seq<Annotation>)
    ensures |r| == |items|
  {
    seq(|items|, i requires 0 <= i < |items| => ReadItem(m, items[i]))
  }

  /** A C string holds no terminator of its own. */
  predicate CString(s: string) {
    '\0' !in s
  }

  lemma {:induction false} ReadsText(m: Memory, b: Block, off: nat, s: string)
    requires TextIn(m, At(b, off), s) && CString(s)
    ensures ReadText(m, b, off) == s
    decreases |s|
  {
    var cells := m[b][off..off + |s| + 1];
    assert cells[0] == m[b][off];
    if s != "" {
      assert TextIn(m, At(b, off + 1), s[1..]) by {
        assert m[b][off + 1..off + 1 + |s[1..]| + 1] == cells[1..] == TextCells(s)[1..] == TextCells(s[1..]);
      }
      ReadsText(m, b, off + 1, s[1..]);
    }
  }

  /** Entry i of the vector at (b, off) leads to the string s. */
  ghost predicate Leads(m: Memory, b: Block, off: nat, i: nat, s: string)
    requires b in m
  {
    off + 8 * i < |m[b]| && m[b][off + 8 * i].Pointer? && TextIn(m, m[b][off + 8 * i].to, s)
  }

  ghost predicate VectorIn(m: Memory, b: Block, off: nat, texts: seq<string>) {
    && b in m && off + 8 * |texts| < |m[b]|
    && (forall i :: 0 <= i < |texts| ==> Leads(m, b, off, i, texts[i]))
    && m[b][off + 8 * |texts|] == Pointer(Null)
  }

  lemma {:induction false} ReadsVector(m: Memory, b: Block, off: nat, texts: seq<string>)
    requires VectorIn(m, b, off, texts) && forall s :: s in texts ==> CString(s)
    ensures ReadVector(m, b, off) == texts
    decreases |texts|
  {
    if texts != [] {
      assert Leads(m, b, off, 0, texts[0]);
      var to := m[b][off].to;
      ReadsText(m, to.block, to.offset, texts[0]);
      var rest := texts[1..];
      forall i | 0 <= i < |rest| ensures Leads(m, b, off + 8, i, rest[i]) {
        assert Leads(m, b, off, i + 1, texts[i + 1]);
      }
      ReadsVector(m, b, off + 8, rest);
    }
  }

  lemma {:induction false} VectorKept(m: Memory, n: Memory, b: Block, off: nat, texts: seq<string>)
    requires VectorIn(m, b, off, texts) && Extends(m, n)
    ensures VectorIn(n, b, off, texts)
  {
    forall i | 0 <= i < |texts| ensures Leads(n, b, off, i, texts[i]) {
      assert Leads(m, b, off, i, texts[i]);
      TextKept(m, n, m[b][off + 8 * i].to, texts[i]);
    }
  }

  // ----- Filling a vector -----

  /** The first i entries of the vector lead to the first i texts, each kept behind the vector. */
  ghost predicate Filled(m: Memory, b: Block, off: nat, texts: seq<string>, i: nat) {
    && b in m && i <= |texts| && off + 8 * |texts| + 8 <= |m[b]|
    && forall j :: 0 <= j < i ==> Leads(m, b, off, j, texts[j]) && Behind(m, b, off, texts, j)
  }

  ghost predicate Behind(m: Memory, b: Block, off: nat, texts: seq<string>, j: nat)
    requires b in m && off + 8 * j < |m[b]|
  {
    var c := m[b][off + 8 * j];
    c.Pointer? && c.to.At? && (c.to.block != b || c.to.offset >= off + 8 * |texts| + 8)
  }

  lemma {:induction false} FilledKept(m: Memory, n: Memory, b: Block, off: nat, texts: seq<string>, i: nat)
    requires Filled(m, b, off, texts, i) && Extends(m, n)
    ensures Filled(n, b, off, texts, i)
  {
    forall j | 0 <= j < i ensures Leads(n, b, off, j, texts[j]) && Behind(n, b, off, texts, j) {
      assert Leads(m, b, off, j, texts[j]) && Behind(m, b, off, texts, j);
      TextKept(m, n, m[b][off + 8 * j].to, texts[j]);
    }
  }

  lemma NothingFilled(m: Memory, b: Block, off: nat, texts: seq<string>)
    requires b in m && off + 8 * |texts| + 8 <= |m[b]|
    ensures Filled(m, b, off, texts, 0)
  {
  }

  /** A text behind the vector survives a write to one of the vector's entries. */
  lemma TextBehind(m: Memory, b: Block, x: nat, c: Cell, at: Address, s: string)
    requires b in m && x < |m[b]| && TextIn(m, at, s) && (at.block != b || at.offset > x)
    ensures TextIn(m[b := Write(m[b], x, [c])], at, s)
  {
    var n := m[b := Write(m[b], x, [c])];
    assert n[at.block][at.offset..at.offset + |s| + 1] == m[at.block][at.offset..at.offset + |s| + 1];
  }

  /** Entry i is set to the address of text i. */
  lemma {:induction false} FilledOn(m: Memory, b: Block, off: nat, texts: seq<string>, i: nat, at: Address)
    requires i < |texts| && Filled(m, b, off, texts, i)
    requires TextIn(m, at, texts[i]) && (at.block != b || at.offset >= off + 8 * |texts| + 8)
    ensures Filled(m[b := Write(m[b], off + 8 * i, [Pointer(at)])], b, off, texts, i + 1)
  {
    var n := m[b := Write(m[b], off + 8 * i, [Pointer(at)])];
    forall j | 0 <= j < i + 1 ensures Leads(n, b, off, j, texts[j]) && Behind(n, b, off, texts, j) {
      if j < i {
        assert Leads(m, b, off, j, texts[j]) && Behind(m, b, off, texts, j);
        TextBehind(m, b, off + 8 * i, Pointer(at), m[b][off + 8 * j].to, texts[j]);
      } else {
        TextBehind(m, b, off + 8 * i, Pointer(at), at, texts[i]);
      }
    }
  }

  /** The vector is complete with the null pointer behind its last entry. */
  lemma {:induction false} FilledUp(m: Memory, b: Block, off: nat, texts: seq<string>)
    requires Filled(m, b, off, texts, |texts|)
    ensures VectorIn(m[b := Write(m[b], off + 8 * |texts|, [Pointer(Null)])], b, off, texts)
  {
    var n := m[b := Write(m[b], off + 8 * |texts|, [Pointer(Null)])];
    forall j | 0 <= j < |texts| ensures Leads(n, b, off, j, texts[j]) {
      assert Leads(m, b, off, j, texts[j]) && Behind(m, b, off, texts, j);
      TextBehind(m, b, off + 8 * |texts|, Pointer(Null), m[b][off + 8 * j].to, texts[j]);
    }
  }

  // ----- Items that show annotations -----

  /** The item's texts are in memory and are those of the annotation, as is everything else. */
  ghost predicate Shows(m: Memory, it: Item, a: Annotation) {
    && it == Item(a.start, a.end, a.annClass, a.annType, it.text, a.hex, a.numeric, a.decoder)
    && it.text.At? && VectorIn(m, it.text.block, it.text.offset, a.texts)
    && forall s :: s in a.texts ==> CString(s)
  }

  lemma ReadsItem(m: Memory, it: Item, a: Annotation)
    requires Shows(m, it, a)
    ensures ReadItem(m, it) == a
  {
    ReadsVector(m, it.text.block, it.text.offset, a.texts);
  }

  ghost predicate AllShow(m: Memory, items: seq<Item>, anns: seq<Annotation>) {
    |items| == |anns| && forall i :: 0 <= i < |items| ==> Shows(m, items[i], anns[i])
  }

  lemma ReadsItems(m: Memory, items: seq<Item>, anns: seq<Annotation>)
    requires AllShow(m, items, anns)
    ensures ReadItems(m, items) == anns
  {
    forall i | 0 <= i < |items| ensures ReadItem(m, items[i]) == anns[i] {
      ReadsItem(m, items[i], anns[i]);
    }
  }

  lemma AllShowKept(m: Memory, n: Memory, items: seq<Item>, anns: seq<Annotation>)
    requires AllShow(m, items, anns) && Extends(m, n)
    ensures AllShow(n, items, anns)
  {
    forall i | 0 <= i < |items| ensures Shows(n, items[i], anns[i]) {
      VectorKept(m, n, items[i].text.block, items[i].text.offset, anns[i].texts);
    }
  }

  function Flatten(batches: seq<seq<Annotation>>): seq<Annotation> {
    if batches == [] then [] else Flatten(batches[..|batches| - 1]) + batches[|batches| - 1]
  }

  lemma FlattenOn(batches: seq<seq<Annotation>>, batch: seq<Annotation>)
    ensures Flatten(batches + [batch]) == Flatten(batches) + batch
  {
    assert (batches + [batch])[..|batches|] == batches;
  }

  // ----- The collector -----

  /** The host's side of the batch callback: it reads every item of the batch during the call. */
  class Host {
    ghost var received: seq<seq<Annotation>>

    constructor ()
      ensures received == []
    {
      received := [];
    }

    method Callback(items: array<Item>, n: nat, ghost m: Memory)
      requires n <= items.Length
      modifies this
      ensures received == old(received) + [ReadItems(m, items[..n])]
    {
      received := received + [ReadItems(m, items[..n])];
    }
  }

  class Batch {
    const items: array<Item>
    var n: nat
    const arena: Arena
    /** The callback, NULL until one is added. */
    var cb: Host?
    /** The annotations of the items not yet delivered, and all annotations appended so far. */
    ghost var pending: seq<Annotation>
    ghost var appended: seq<Annotation>

    ghost predicate Collecting()
      reads this`n, this`pending, items, arena, arena.chain, arena.pooled
    {
      && items.Length == BATCH_MAX && n <= BATCH_MAX && arena.Valid()
      && AllShow(arena.Contents(), items[..n], pending)
    }

    /** Between calls there is room for an item, and nothing is lost or repeated. */
    ghost predicate Valid()
      reads this, items, arena, arena.chain, arena.pooled, cb
    {
      && Collecting() && n < BATCH_MAX
      && (cb != null ==> Conserved() && BatchSizes())
    }

    /** Delivered batches and pending items are the appended ones, in order. */
    ghost predicate Conserved()
      requires cb != null
      reads this, cb
    {
      Flatten(cb.received) + pending == appended
    }

    ghost predicate BatchSizes()
      requires cb != null
      reads this, cb
    {
      forall i :: 0 <= i < |cb.received| ==> 1 <= |cb.received[i]| <= 1024
    }

    constructor ()
      ensures Valid() && cb == null && n == 0 && pending == [] && appended == []
      ensures fresh(items) && fresh(arena) && arena.chain == [] && arena.pooled == []
    {
      items := new Item[BATCH_MAX](_ => Item(0, 0, 0, 0, Null, "", 0, 0));
      arena := new Arena();
      n, cb, pending, appended := 0, null, [], [];
    }

    /** Delivers the pending items and recycles the blocks. */
    method FlushState()
      requires Collecting()
      modifies this`n, this`pending, arena, arena.Repr(), if cb == null then {} else {cb}
      ensures Collecting() && n == 0 && pending == []
      ensures cb != null ==> cb.received == old(cb.received) + if old(n) == 0 then [] else [old(pending)]
      ensures arena.Repr() <= old(arena.Repr())
    {
      if n == 0 {
        return;
      }
      if cb != null {
        ReadsItems(arena.Contents(), items[..n], pending);
        cb.Callback(items, n, arena.Contents());
      }
      arena.Recycle();
      n, pending := 0, [];
    }

    method Put(it: Item, ghost a: Annotation)
      requires Collecting() && n < BATCH_MAX && Shows(arena.Contents(), it, a)
      modifies this`n, this`pending, this`appended, items
      ensures Collecting() && n == old(n) + 1 && pending == old(pending) + [a] && appended == old(appended) + [a]
    {
      hide Shows, Arena.Valid;
      assert items[..n] == old(items[..n]);
      items[n] := it;
      n := n + 1;
      pending, appended := pending + [a], appended + [a];
      assert items[..n] == old(items[..n]) + [it];
    }

    /** The item goes into the array; a full array is delivered at once, so the test for a full array
        in front never succeeds. */
    method AppendItem(it: Item, ghost a: Annotation)
      requires Valid() && Shows(arena.Contents(), it, a)
      modifies this`n, this`pending, this`appended, items, arena, arena.Repr()
      modifies if cb == null then {} else {cb}
      ensures Valid() && appended == old(appended) + [a]
      ensures n == if old(n) == 1023 then 0 else old(n) + 1
      ensures arena.Repr() <= old(arena.Repr())
    {
      hide Collecting, Shows, Flatten;
      assert |pending| == n by { PendingCount(); }
      if n >= BATCH_MAX {
        assert false;
      }
      Put(it, a);
      if cb != null {
        assert Flatten(cb.received) + pending == appended by {
          assert Flatten(cb.received) + (old(pending) + [a]) == (Flatten(cb.received) + old(pending)) + [a];
        }
        FlattenOn(cb.received, pending);
      }
      if n >= BATCH_MAX {
        FlushState();
        if cb != null {
          assert Flatten(cb.received) + [] == Flatten(cb.received);
        }
      }
    }

    lemma PendingCount()
      requires Collecting()
      ensures |pending| == n
    {
    }

    /** A null-terminated vector of copies of the texts, allocated from the arena. */
    method CopyTexts(texts: seq<string>) returns (b: Block, off: nat)
      requires arena.Valid()
      modifies arena, arena.Repr()
      ensures arena.Valid() && VectorIn(arena.Contents(), b, off, texts)
      ensures Extends(old(arena.Contents()), arena.Contents())
      ensures fresh(arena.Repr() - old(arena.Repr()))
    {
      hide Chained, Distinct, Arena.HandedOut, Leads, VectorIn, Filled;
      ghost var before := arena.Contents();
      b, off := arena.Alloc((|texts| + 1) * 8);
      FillVector(b, off, texts, before);
      EndVector(b, off, texts, before);
    }

    /** All entries of the vector. */
    method FillVector(b: Block, off: nat, texts: seq<string>, ghost before: Memory)
      requires arena.Valid() && b in arena.chain && off + 8 * |texts| + 8 <= b.used
      requires Extends(before, arena.Contents()) && (b in before ==> |before[b]| <= off)
      modifies arena, arena.Repr()
      ensures arena.Valid() && b in arena.chain && off + 8 * |texts| + 8 <= b.used
      ensures Extends(before, arena.Contents()) && Filled(arena.Contents(), b, off, texts, |texts|)
      ensures fresh(arena.Repr() - old(arena.Repr()))
    {
      hide Chained, Distinct, Arena.HandedOut, Filled, Extends;
      NothingFilled(arena.Contents(), b, off, texts);
      for i := 0 to |texts|
        invariant arena.Valid() && b in arena.chain && off + 8 * |texts| + 8 <= b.used
        invariant Extends(before, arena.Contents())
        invariant Filled(arena.Contents(), b, off, texts, i)
        invariant fresh(arena.Repr() - old(arena.Repr()))
      {
        CopyText(b, off, texts, i, before);
      }
    }

    /** The null pointer behind the last entry. */
    method EndVector(b: Block, off: nat, texts: seq<string>, ghost before: Memory)
      requires arena.Valid() && b in arena.chain && off + 8 * |texts| + 8 <= b.used
      requires Extends(before, arena.Contents()) && (b in before ==> |before[b]| <= off)
      requires Filled(arena.Contents(), b, off, texts, |texts|)
      modifies b`data
      ensures arena.Valid() && VectorIn(arena.Contents(), b, off, texts) && Extends(before, arena.Contents())
    {
      hide Chained, Distinct, Arena.HandedOut, Leads, VectorIn, Filled;
      ghost var m := arena.Contents();
      FilledUp(m, b, off, texts);
      WriteBeyond(before, m, b, off + 8 * |texts|, [Pointer(Null)]);
      arena.Store(b, off + 8 * |texts|, [Pointer(Null)]);
    }

    /** One entry of the vector. */
    method CopyText(b: Block, off: nat, texts: seq<string>, i: nat, ghost before: Memory)
      requires arena.Valid() && b in arena.chain && off + 8 * |texts| + 8 <= b.used && i < |texts|
      requires Extends(before, arena.Contents()) && (b in before ==> |before[b]| <= off)
      requires Filled(arena.Contents(), b, off, texts, i)
      modifies arena, arena.Repr()
      ensures arena.Valid() && b in arena.chain && off + 8 * |texts| + 8 <= b.used
      ensures Extends(before, arena.Contents()) && Filled(arena.Contents(), b, off, texts, i + 1)
      ensures fresh(arena.Repr() - old(arena.Repr()))
    {
      hide Chained, Distinct, Arena.HandedOut, TextIn, Filled;
      ghost var m0 := arena.Contents();
      var sb, soff := arena.Strdup(texts[i]);
      ghost var m := arena.Contents();
      FilledKept(m0, m, b, off, texts, i);
      ExtendsOn(before, m0, m);
      FilledOn(m, b, off, texts, i, At(sb, soff));
      WriteBeyond(before, m, b, off + 8 * i, [Pointer(At(sb, soff))]);
      arena.Store(b, off + 8 * i, [Pointer(At(sb, soff))]);
    }

    /** An annotation is copied and collected. Without a text vector it has no texts, without a hex
        value an empty one. */
    method AppendFields(a: Annotation)
      requires Valid() && forall s :: s in a.texts ==> CString(s)
      modifies this`n, this`pending, this`appended, items, arena, arena.Repr()
      modifies if cb == null then {} else {cb}
      ensures Valid() && appended == old(appended) + [a]
      ensures n == if old(n) == 1023 then 0 else old(n) + 1
      ensures fresh(arena.Repr() - old(arena.Repr()))
    {
      hide VectorIn, Chained, Distinct, Arena.HandedOut, Extends;
      ghost var before := arena.Contents();
      var b, off := CopyTexts(a.texts);
      AllShowKept(before, arena.Contents(), items[..n], pending);
      AppendItem(Item(a.start, a.end, a.annClass, a.annType, At(b, off), a.hex, a.numeric, a.decoder), a);
    }

    /** A callback is added; what counts as appended from then on are the items still pending. */
    method AddCallback(host: Host)
      requires Valid() && host.received == []
      modifies this`cb, this`appended
      ensures Valid() && cb == host && appended == pending == old(pending)
    {
      hide Collecting;
      cb, appended := host, pending;
      assert [] + pending == pending;
    }

    /** srd_ann_batch_flush, which the worker also calls when decode has returned: what is pending goes
        out as one more batch. */
    method Flush()
      requires Valid()
      modifies this`n, this`pending, arena, arena.Repr(), if cb == null then {} else {cb}
      ensures Valid() && n == 0 && pending == [] && appended == old(appended)
      ensures cb != null ==> Flatten(cb.received) == appended
      ensures cb != null ==> cb.received == old(cb.received) + if old(n) == 0 then [] else [old(pending)]
      ensures arena.Repr() <= old(arena.Repr())
    {
      hide Collecting, Shows, Flatten;
      PendingCount();
      if cb != null {
        FlattenOn(cb.received, pending);
        assert Flatten(cb.received) + [] == Flatten(cb.received);
      }
      if n > 0 {
        FlushState();
        assert cb != null ==> Flatten(cb.received) + [] == Flatten(cb.received);
      }
    }

    /** Delivers what is left; then the heap goes, and with it every block. */
    method Destroy()
      requires Valid()
      modifies this`n, this`pending, arena, arena.Repr(), if cb == null then {} else {cb}
      ensures Collecting() && n == 0 && appended == old(appended)
      ensures cb != null ==> Flatten(cb.received) == appended && BatchSizes()
      ensures arena.chain == [] && arena.pooled == [] && arena.created == arena.freed
    {
      Flush();
      hide Arena.Valid;
      assert arena.Valid();
      arena.DestroyHeap();
      assert items[..0] == [];
    }
  }
}
