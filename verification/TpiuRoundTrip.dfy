/** Formatted trace data, and the decoder's way back to the bytes of the selected stream. */
module TpiuRoundTrip {
  import opened BitStrings
  import opened Machines
  import opened Tpiu

  // ----- What a frame can hold -----

  /** Two positions of a frame: two data bytes, or a new stream ID and a data byte that belongs to the
      new stream, or (Delayed) still to the old one. */
  datatype Pair = Two(a: Byte, b: Byte) | NewId(id: nat, b: Byte) | Delayed(id: nat, b: Byte)

  /** Position 14. */
  datatype Last = One(a: Byte) | LastId(id: nat, delayed: bool)

  datatype Program = Program(pairs: seq<Pair>, last: Last) {
    /** IDs have seven bits, and 0x7F is not used. */
    ghost predicate Valid() {
      |pairs| == 7
      && (forall k :: 0 <= k < 7 && !pairs[k].Two? ==> pairs[k].id < 0x7F)
      && (last.LastId? ==> last.id < 0x7F)
    }
  }

  /** A byte and the stream it belongs to. */
  datatype Traced = Traced(stream: nat, byte: Byte)

  /** What a pair means while stream cur is current. */
  function MeaningOf(p: Pair, cur: nat): seq<Traced> {
    match p
    case Two(a, b) => [Traced(cur, a), Traced(cur, b)]
    case NewId(id, b) => [Traced(id, b)]
    case Delayed(id, b) => [Traced(cur, b)]
  }

  function StreamAfter(p: Pair, cur: nat): nat {
    if p.Two? then cur else p.id
  }

  /** What the pair at k means, and the stream that is then current. */
  function PairMeaning(p: Program, stream: nat, k: nat): (seq<Traced>, nat) {
    if k < |p.pairs| then (MeaningOf(p.pairs[k], stream), StreamAfter(p.pairs[k], stream))
    else
      match p.last
      case One(a) => ([Traced(stream, a)], stream)
      case LastId(id, _) => ([], id)
  }

  /** What the pairs from k on mean. */
  function MeaningFrom(p: Program, stream: nat, k: nat): (seq<Traced>, nat)
    decreases 8 - k
  {
    if k >= 8 then ([], stream)
    else
      var (t1, stream1) := PairMeaning(p, stream, k);
      var (t2, stream2) := MeaningFrom(p, stream1, k + 1);
      (t1 + t2, stream2)
  }

  /** The bytes of one stream. */
  function Selected(t: seq<Traced>, stream: int): seq<Byte> {
    if t == [] then [] else (if t[0].stream == stream then [t[0].byte] else []) + Selected(t[1..], stream)
  }

  // ----- The formatter -----

  function Even(a: Byte): Byte {
    a - a % 2
  }

  /** The byte at position 2 k and the bit that goes with it into the last byte. */
  function First(p: Program, k: nat): (Byte, Bit) {
    if k < |p.pairs| then
      match p.pairs[k]
      case Two(a, _) => (Even(a), a % 2)
      case NewId(id, _) => (if id < 128 then 2 * id + 1 else 1, 0)
      case Delayed(id, _) => (if id < 128 then 2 * id + 1 else 1, 1)
    else
      match p.last
      case One(a) => (Even(a), a % 2)
      case LastId(id, delayed) => (if id < 128 then 2 * id + 1 else 1, if delayed then 1 else 0)
  }

  function LowBits(p: Program): (r: seq<Bit>)
    ensures |r| == 8 && forall k :: 0 <= k < 8 ==> r[k] == First(p, k).1
  {
    seq(8, k requires 0 <= k < 8 => First(p, k).1)
  }

  function LowByte(p: Program): Byte {
    FromBits(LowBits(p)) % 256
  }

  /** The frame. */
  function Encode(p: Program): (f: seq<Byte>)
    ensures |f| == 16
  {
    seq(16, i requires 0 <= i < 16 =>
      if i == 15 then LowByte(p)
      else if i % 2 == 0 then First(p, i / 2).0
      else if i / 2 < |p.pairs| then p.pairs[i / 2].b
      else 0)
  }

  // ----- One frame back -----

  /** The data bytes among the events. */
  function DataOf(e: seq<Event>): seq<Byte> {
    if e == [] then [] else (if e[0].Data? then [e[0].byte] else []) + DataOf(e[1..])
  }

  lemma {:induction false} DataOfJoin(a: seq<Event>, b: seq<Event>)
    ensures DataOf(a + b) == DataOf(a) + DataOf(b)
    decreases |a|
  {
    if a == [] {
      assert a + b == b;
    } else {
      DataOfJoin(a[1..], b);
      assert (a + b)[1..] == a[1..] + b;
      var h := if a[0].Data? then [a[0].byte] else [];
      assert h + (DataOf(a[1..]) + DataOf(b)) == (h + DataOf(a[1..])) + DataOf(b);
    }
  }

  lemma {:induction false} SelectedJoin(a: seq<Traced>, b: seq<Traced>, stream: int)
    ensures Selected(a + b, stream) == Selected(a, stream) + Selected(b, stream)
    decreases |a|
  {
    if a == [] {
      assert a + b == b;
    } else {
      SelectedJoin(a[1..], b, stream);
      assert (a + b)[1..] == a[1..] + b;
      var h := if a[0].stream == stream then [a[0].byte] else [];
      assert h + (Selected(a[1..], stream) + Selected(b, stream)) == (h + Selected(a[1..], stream)) + Selected(b, stream);
    }
  }

  lemma EightBits()
    ensures Pow2(8) == 256
  {
    assert Pow2(4) == 16;
    assert Pow2(8) == 16 * Pow2(4);
  }

  lemma LowBitOf(p: Program, k: nat)
    requires k < 8
    ensures BitOf(Encode(p)[15], k) == First(p, k).1
  {
    hide First, BitOf, Pow2;
    EightBits();
    BitOfFromBits(LowBits(p), k);
    LowByteExact(p);
  }

  lemma LowByteExact(p: Program)
    ensures Encode(p)[15] == LowByte(p) == FromBits(LowBits(p))
  {
    hide First, LowBits, FromBits;
    EightBits();
  }

  lemma EmittedData(stream: nat, selected: int, byte: Byte)
    ensures DataOf(Emitted(stream, selected, byte)) == Selected([Traced(stream, byte)], selected)
  {
    assert Selected([], selected) == [];
  }

  lemma ChangedData(stream: nat, to: nat)
    ensures DataOf(Changed(stream, to)) == []
  {
  }

  lemma {:induction false} PairBack(p: Program, stream: nat, selected: int, k: nat)
    requires p.Valid() && k < 8
    ensures var (to, e) := PairAt(stream, selected, Encode(p), k); var (t, to') := PairMeaning(p, stream, k);
            to == to' && DataOf(e) == Selected(t, selected)
  {
    hide Encode, Emitted, Changed, DataOf, Selected, BitOf;
    var f, i := Encode(p), 2 * k;
    LowBitOf(p, k);
    EncodedAt(p, k);
    var (to, e) := PairAt(stream, selected, f, k);
    if f[i] % 2 == 1 {
      ChangedData(stream, to);
      if i < 14 {
        EmittedData(stream, selected, f[i + 1]);
        EmittedData(to, selected, f[i + 1]);
        DataOfJoin(Emitted(stream, selected, f[i + 1]), Changed(stream, to));
        DataOfJoin(Changed(stream, to), Emitted(to, selected, f[i + 1]));
      } else {
        NoData(selected);
        DataOfJoin([], Changed(stream, to));
        DataOfJoin(Changed(stream, to), []);
      }
    } else {
      var a := WithLowBit(f[i], BitOf(f[15], k));
      EmittedData(stream, selected, a);
      if i < 14 {
        EmittedData(stream, selected, f[i + 1]);
        DataOfJoin(Emitted(stream, selected, a), Emitted(stream, selected, f[i + 1]));
        SelectedJoin([Traced(stream, a)], [Traced(stream, f[i + 1])], selected);
        assert [Traced(stream, a)] + [Traced(stream, f[i + 1])] == [Traced(stream, a), Traced(stream, f[i + 1])];
      } else {
        NoData(selected);
        DataOfJoin(Emitted(stream, selected, a), []);
      }
    }
  }

  lemma NoData(selected: int)
    ensures DataOf([]) == [] && Selected([], selected) == []
  {
  }

  lemma EncodedAt(p: Program, k: nat)
    requires p.Valid() && k < 8
    ensures var f := Encode(p); f[2 * k] == First(p, k).0 && (k < 7 ==> f[2 * k + 1] == p.pairs[k].b)
  {
    hide LowByte;
  }

  lemma {:induction false} PairsBack(p: Program, stream: nat, selected: int, k: nat)
    requires p.Valid() && k <= 8
    ensures var (to, e) := PairsFrom(stream, selected, Encode(p), k); var (t, to') := MeaningFrom(p, stream, k);
            to == to' && DataOf(e) == Selected(t, selected)
    decreases 8 - k
  {
    hide Encode, PairAt, PairMeaning;
    if k < 8 {
      PairBack(p, stream, selected, k);
      var (stream1, e1) := PairAt(stream, selected, Encode(p), k);
      var t1 := PairMeaning(p, stream, k).0;
      PairsBack(p, stream1, selected, k + 1);
      DataOfJoin(e1, PairsFrom(stream1, selected, Encode(p), k + 1).1);
      SelectedJoin(t1, MeaningFrom(p, stream1, k + 1).0, selected);
    }
  }

  // ----- The whole story of a frame -----

  /** A stream other than 0 is reported as ended when another one follows, by its own number. */
  function Left(cur: nat, id: nat): seq<Event> {
    if cur == id then [] else if cur > 0 then [StreamEnds(cur)] else []
  }

  function Shown(cur: nat, selected: int, a: Byte): seq<Event> {
    if cur == selected then [Data(a)] else []
  }

  /** What is reported of a pair, in order. */
  function PairStory(p: Program, cur: nat, selected: int, k: nat): seq<Event> {
    if k < |p.pairs| then
      match p.pairs[k]
      case Two(a, b) => Shown(cur, selected, a) + Shown(cur, selected, b)
      case NewId(id, b) => Left(cur, id) + Shown(id, selected, b)
      case Delayed(id, b) => Shown(cur, selected, b) + Left(cur, id)
    else
      match p.last
      case One(a) => Shown(cur, selected, a)
      case LastId(id, _) => Left(cur, id)
  }

  function Story(p: Program, cur: nat, selected: int, k: nat): seq<Event>
    decreases 8 - k
  {
    if k >= 8 then [] else PairStory(p, cur, selected, k) + Story(p, PairMeaning(p, cur, k).1, selected, k + 1)
  }

  lemma EmittedIsShown(cur: nat, selected: int, a: Byte)
    ensures Emitted(cur, selected, a) == Shown(cur, selected, a)
  {
  }

  lemma ChangedIsLeft(cur: nat, id: nat)
    ensures Changed(cur, id) == Left(cur, id)
    ensures [] + Left(cur, id) == Left(cur, id) == Left(cur, id) + []
  {
  }

  lemma {:induction false} PairTold(p: Program, cur: nat, selected: int, k: nat)
    requires p.Valid() && k < 8
    ensures PairAt(cur, selected, Encode(p), k) == (PairMeaning(p, cur, k).1, PairStory(p, cur, selected, k))
  {
    hide Encode, BitOf, Emitted, Changed, Shown, Left;
    var f, i, to := Encode(p), 2 * k, PairMeaning(p, cur, k).1;
    LowBitOf(p, k);
    EncodedAt(p, k);
    if f[i] % 2 == 1 {
      ChangedIsLeft(cur, to);
      if i < 14 {
        EmittedIsShown(cur, selected, f[i + 1]);
        EmittedIsShown(to, selected, f[i + 1]);
      }
    } else {
      var a := WithLowBit(f[i], BitOf(f[15], k));
      EmittedIsShown(cur, selected, a);
      if i < 14 { EmittedIsShown(cur, selected, f[i + 1]); }
      assert Shown(cur, selected, a) + [] == Shown(cur, selected, a);
    }
  }

  /** A frame's data bytes and the streams that end in it, each in its place. */
  lemma {:induction false} FrameTold(p: Program, cur: nat, selected: int, k: nat)
    requires p.Valid() && k <= 8
    ensures PairsFrom(cur, selected, Encode(p), k).1 == Story(p, cur, selected, k)
    decreases 8 - k
  {
    hide Encode, PairAt, PairStory, PairMeaning;
    if k < 8 {
      PairTold(p, cur, selected, k);
      FrameTold(p, PairMeaning(p, cur, k).1, selected, k + 1);
    }
  }

  // ----- The sync detector -----

  /** No byte of the frame at an even position is 0xFF. */
  lemma NoFFAtEven(p: Program, k: nat)
    requires p.Valid() && k < 8
    ensures Encode(p)[2 * k] != 0xFF
  {
    hide LowByte;
    EncodedAt(p, k);
  }

  /** In front of position j of a frame: the byte before the last even position's is not 0xFF. */
  ghost predicate Unsynced(buf: seq<Byte>, j: nat) {
    && |buf| <= 4
    && (j % 2 == 0 && |buf| >= 2 ==> buf[|buf| - 2] != 0xFF)
    && (j % 2 == 1 && |buf| >= 1 ==> buf[|buf| - 1] != 0xFF)
  }

  /** A byte of a frame never completes the sync word. */
  lemma FrameByteUnsynced(buf: seq<Byte>, p: Program, j: nat)
    requires p.Valid() && j < 16 && Unsynced(buf, j)
    ensures PushSync(buf, Encode(p)[j]) != SYNC_WORD && Unsynced(PushSync(buf, Encode(p)[j]), j + 1)
  {
    hide LowByte, First;
    if j % 2 == 0 { NoFFAtEven(p, j / 2); }
    var w := PushSync(buf, Encode(p)[j]);
    assert SYNC_WORD[1] == 0xFF && SYNC_WORD[2] == 0xFF;
    if |w| == 4 {
      assert w[if j % 2 == 0 then 1 else 2] != 0xFF;
    }
  }

  // ----- Frames and sync words -----

  datatype Piece = Sync | Frame(p: Program)

  /** A piece and its bytes as received. */
  datatype Sent = Sent(piece: Piece, rx: seq<Rx>)

  function Values(rx: seq<Rx>): (r: seq<Byte>)
    ensures |r| == |rx|
  {
    seq(|rx|, i requires 0 <= i < |rx| => rx[i].val)
  }

  /** The piece's bytes; within a frame no pause, which would start a new one. */
  ghost predicate Arrives(s: Sent) {
    match s.piece
    case Sync => Values(s.rx) == [0xFF, 0xFF, 0xFF, 0x7F]
    case Frame(p) => p.Valid() && Values(s.rx) == Encode(p) && forall i :: 0 < i < |s.rx| ==> Contiguous(s.rx, i)
  }

  /** Byte i comes after the one before, with a gap of at most its own length. */
  ghost predicate Contiguous(rx: seq<Rx>, i: nat)
    requires 0 < i < |rx|
  {
    0 <= rx[i].start - rx[i - 1].end <= rx[i].end - rx[i].start && rx[i].end < 0x1_0000_0000_0000_0000
  }

  lemma ContiguousNoPause(rx: seq<Rx>, i: nat)
    requires 0 < i < |rx| && Contiguous(rx, i)
    ensures !Pause(rx[i - 1].end, rx[i])
  {
  }

  /** The time from t to u, as the decoders compute it: a byte that starts before the last one has ended
      counts as one after nearly 2^64 samples. */
  function Gap(t: nat, u: nat): int {
    if t <= u then u - t else 0x1_0000_0000_0000_0000 + u - t
  }

  /** A pause is a gap longer than the byte. */
  lemma {:induction false} PauseIff(prev: nat, rx: Rx)
    requires prev < 0x1_0000_0000_0000_0000 && rx.start <= rx.end < 0x1_0000_0000_0000_0000
    ensures Pause(prev, rx) <==> Gap(prev, rx.start) > rx.end - rx.start
  {
  }

  /** After a longer gap the bytes are deformatted as from an empty frame. */
  lemma {:induction false} LongGap(o: Options, s: State, rx: seq<Rx>)
    requires rx != [] && rx[0].start <= rx[0].end < 0x1_0000_0000_0000_0000 && s.prev < 0x1_0000_0000_0000_0000
    requires Gap(s.prev, rx[0].start) > rx[0].end - rx[0].start
    ensures RecvAll(o, s, rx) == RecvAll(o, s.(frame := []), rx)
  {
    hide PairsFrom;
    assert Pause(s.prev, rx[0]);
    assert Recv(o, s, rx[0]) == Recv(o, s.(frame := []), rx[0]);
  }

  function Received(sent: seq<Sent>): seq<Rx> {
    if sent == [] then [] else sent[0].rx + Received(sent[1..])
  }

  /** What the pieces mean, and the stream that is then current. */
  function Meaning(sent: seq<Sent>, stream: nat): (seq<Traced>, nat) {
    if sent == [] then ([], stream)
    else
      match sent[0].piece
      case Sync => Meaning(sent[1..], stream)
      case Frame(p) =>
        var (t1, stream1) := MeaningFrom(p, stream, 0);
        var (t2, stream2) := Meaning(sent[1..], stream1);
        (t1 + t2, stream2)
  }

  /** Between two pieces, with the bytes to be skipped behind. */
  ghost predicate Between(o: Options, s: State) {
    s.frame == [] && Unsynced(s.syncbuf, 0) && s.bytenum + 1 >= o.syncOffset
  }

  /** Before byte j of a frame. */
  ghost predicate InFrame(o: Options, s: State, p: Program, j: nat) {
    j <= 16 && s.frame == Encode(p)[..j] && Unsynced(s.syncbuf, j) && s.bytenum + 1 >= o.syncOffset
  }

  /** Bytes j, ..., 15 of a frame. */
  lemma {:induction false} RestOfFrame(o: Options, s: State, p: Program, rx: seq<Rx>, j: nat)
    requires p.Valid() && j < 16 == |rx| && Values(rx) == Encode(p) && InFrame(o, s, p, j)
    requires j > 0 ==> s.prev == rx[j - 1].end && forall i :: 0 < i < 16 ==> Contiguous(rx, i)
    requires j == 0 ==> forall i :: 0 < i < 16 ==> Contiguous(rx, i)
    ensures var (s1, e) := RecvAll(o, s, rx[j..]);
            Between(o, s1) && (s1.stream, e) == PairsFrom(s.stream, o.stream, Encode(p), 0)
    decreases 16 - j
  {
    hide Encode, PairsFrom, Pause, Unsynced;
    var f := Encode(p);
    assert rx[j].val == f[j];
    assert rx[j..][1..] == rx[j + 1..];
    FrameByteUnsynced(s.syncbuf, p, j);
    if j > 0 { ContiguousNoPause(rx, j); }
    var (s1, e1) := Recv(o, s, rx[j]);
    assert f[..j] + [f[j]] == f[..j + 1];
    if j == 15 {
      assert f[..16] == f;
      EvenAgain(s1.syncbuf);
      assert RecvAll(o, s1, rx[16..]) == (s1, []);
      assert e1 + [] == e1;
    } else {
      RestOfFrame(o, s1, p, rx, j + 1);
      var e2 := RecvAll(o, s1, rx[j + 1..]).1;
      assert [] + e2 == e2;
    }
  }

  lemma EvenAgain(buf: seq<Byte>)
    requires Unsynced(buf, 16)
    ensures Unsynced(buf, 0)
  {
  }

  /** Inside a sync word, with j of its bytes seen. */
  ghost predicate InSync(o: Options, s: State, j: nat) {
    && j <= |s.syncbuf| <= 4 && |s.frame| <= j <= 4 && s.bytenum + 1 >= o.syncOffset
    && forall i :: 0 <= i < j ==> s.syncbuf[|s.syncbuf| - j + i] == SYNC_WORD[i]
  }

  lemma SyncByte(o: Options, s: State, rx: Rx, j: nat)
    requires j < 4 && InSync(o, s, j) && rx.val == SYNC_WORD[j]
    ensures var (s1, e) := Recv(o, s, rx);
            && e == [] && s1.stream == s.stream
            && (if j == 3 then Between(o, s1) else InSync(o, s1, j + 1))
  {
    hide PairsFrom, Pause;
    var buf := PushSync(s.syncbuf, rx.val);
    assert forall i :: 0 <= i < j + 1 ==> buf[|buf| - (j + 1) + i] == SYNC_WORD[i];
    if j == 3 {
      assert |buf| == 4 && forall i :: 0 <= i < 4 ==> buf[i] == SYNC_WORD[i];
      assert buf == SYNC_WORD;
    } else {
      assert buf[|buf| - 1] == 0xFF;
      assert SYNC_WORD[3] == 0x7F;
    }
  }

  lemma {:induction false} RestOfSync(o: Options, s: State, rx: seq<Rx>, j: nat)
    requires j < 4 == |rx| && Values(rx) == SYNC_WORD && InSync(o, s, j)
    ensures var (s1, e) := RecvAll(o, s, rx[j..]); Between(o, s1) && s1.stream == s.stream && e == []
    decreases 4 - j
  {
    hide Recv, InSync;
    assert rx[j].val == Values(rx)[j];
    assert rx[j..][1..] == rx[j + 1..];
    SyncByte(o, s, rx[j], j);
    var s1 := Recv(o, s, rx[j]).0;
    if j == 3 {
      assert RecvAll(o, s1, rx[4..]) == (s1, []);
    } else {
      RestOfSync(o, s1, rx, j + 1);
    }
  }

  lemma {:induction false} PieceBack(o: Options, s: State, sent: Sent)
    requires Between(o, s) && Arrives(sent)
    ensures var (s1, e) := RecvAll(o, s, sent.rx); var (t, stream) := Meaning([sent], s.stream);
            Between(o, s1) && s1.stream == stream && DataOf(e) == Selected(t, o.stream)
  {
    hide RecvAll, Encode, PairsFrom, MeaningFrom;
    assert sent.rx[0..] == sent.rx;
    match sent.piece
    case Sync =>
      RestOfSync(o, s, sent.rx, 0);
    case Frame(p) =>
      assert Encode(p)[..0] == [];
      RestOfFrame(o, s, p, sent.rx, 0);
      PairsBack(p, s.stream, o.stream, 0);
      var t := MeaningFrom(p, s.stream, 0).0;
      assert t + [] == t;
  }

  /** The bytes in front of the offset: as many of them as stay below it leave no trace but their count. */
  lemma {:induction false} SkippedInFront(o: Options, s: State, rx: seq<Rx>)
    requires rx != [] && s.bytenum + |rx| < o.syncOffset
    ensures RecvAll(o, s, rx)
         == (s.(bytenum := s.bytenum + |rx|, prev := rx[|rx| - 1].end, frame := []), [])
    decreases |rx|
  {
    hide Pause, PushFrame;
    var s1 := Recv(o, s, rx[0]).0;
    var none: seq<Event> := [];
    assert none + none == none;
    if |rx| > 1 {
      SkippedInFront(o, s1, rx[1..]);
      assert rx[1..][|rx| - 2] == rx[|rx| - 1];
    } else {
      assert rx[1..] == [] && RecvAll(o, s1, []) == (s1, []);
    }
  }

  /** The frame buffer never fills up between two bytes, whatever comes. */
  lemma {:induction false} FrameBounded(o: Options, s: State, rx: Rx)
    requires |s.frame| < 16
    ensures |Recv(o, s, rx).0.frame| < 16
  {
    hide PairsFrom, Pause;
  }

  /** Deformatting inverts formatting: of any frames and sync words, the selected stream's bytes come
      back, all of them, in order and nothing else. */
  lemma {:induction false} RoundTrip(o: Options, s: State, sent: seq<Sent>)
    requires Between(o, s) && forall i :: 0 <= i < |sent| ==> Arrives(sent[i])
    ensures var (s1, e) := RecvAll(o, s, Received(sent)); var (t, stream) := Meaning(sent, s.stream);
            Between(o, s1) && s1.stream == stream && DataOf(e) == Selected(t, o.stream)
    decreases |sent|
  {
    hide Arrives, Between, MeaningFrom, Recv;
    if sent != [] {
      PieceBack(o, s, sent[0]);
      MeaningSplit(sent, s.stream);
      var (s1, e1) := RecvAll(o, s, sent[0].rx);
      RoundTrip(o, s1, sent[1..]);
      RunJoin(Deformatter(o), s, sent[0].rx, Received(sent[1..]));
      hide Meaning;
      DataOfJoin(e1, RecvAll(o, s1, Received(sent[1..])).1);
      SelectedJoin(Meaning([sent[0]], s.stream).0, Meaning(sent[1..], s1.stream).0, o.stream);
    }
  }

  lemma MeaningSplit(sent: seq<Sent>, stream: nat)
    requires sent != []
    ensures var (t1, stream1) := Meaning([sent[0]], stream); var (t2, stream2) := Meaning(sent[1..], stream1);
            Meaning(sent, stream) == (t1 + t2, stream2)
  {
    hide MeaningFrom;
    assert [sent[0]][1..] == [];
    match sent[0].piece
    case Sync => assert [] + Meaning(sent[1..], stream).0 == Meaning(sent[1..], stream).0;
    case Frame(p) => assert MeaningFrom(p, stream, 0).0 + [] == MeaningFrom(p, stream, 0).0;
  }

  // ----- Any trace can be formatted -----

  /** The next pair for the bytes t while stream cur is current, and how many of them it takes; bytes
      of stream 0 fill up. */
  function NextPair(t: seq<Traced>, cur: nat): (r: (Pair, nat))
    ensures t != [] ==> 0 < r.1 <= |t|
    ensures t == [] ==> r.1 == 0
  {
    if t == [] then (NewId(0, 0), 0)
    else if t[0].stream != cur then (NewId(t[0].stream, t[0].byte), 1)
    else if |t| > 1 && t[1].stream == cur then (Two(t[0].byte, t[1].byte), 2)
    else (Delayed(if |t| > 1 then t[1].stream else 0, t[0].byte), 1)
  }

  function NextPairs(t: seq<Traced>, cur: nat, k: nat): (r: (seq<Pair>, seq<Traced>, nat))
    ensures |r.0| == k && |r.1| <= |t| && (k > 0 && t != [] ==> |r.1| < |t|)
    decreases k
  {
    if k == 0 then ([], t, cur)
    else
      var (p, n) := NextPair(t, cur);
      var (ps, rest, cur1) := NextPairs(t[n..], StreamAfter(p, cur), k - 1);
      ([p] + ps, rest, cur1)
  }

  /** The first frame for the bytes t, the bytes left over and the stream then current. */
  function NextFrame(t: seq<Traced>, cur: nat): (r: (Program, seq<Traced>, nat))
    ensures |r.0.pairs| == 7 && (t != [] ==> |r.1| < |t|)
  {
    var (pairs, rest, cur1) := NextPairs(t, cur, 7);
    if rest != [] && rest[0].stream == cur1 then (Program(pairs, One(rest[0].byte)), rest[1..], cur1)
    else
      var id := if rest == [] then 0 else rest[0].stream;
      (Program(pairs, LastId(id, false)), rest, id)
  }

  function Format(t: seq<Traced>, cur: nat): seq<Program>
    decreases |t|
  {
    if t == [] then []
    else
      var (p, rest, cur1) := NextFrame(t, cur);
      [p] + Format(rest, cur1)
  }

  /** All of it on stream 0. */
  predicate Filler(t: seq<Traced>) {
    forall i :: 0 <= i < |t| ==> t[i] == Traced(0, 0)
  }

  ghost predicate Formattable(t: seq<Traced>) {
    forall i :: 0 <= i < |t| ==> 0 < t[i].stream < 0x7F
  }

  /** Of the bytes t those in taken, then filler (only when nothing is left), then last make up m. */
  ghost predicate Takes(t: seq<Traced>, taken: seq<Traced>, rest: seq<Traced>, fill: seq<Traced>, m: seq<Traced>, last: seq<Traced>) {
    && t == taken + rest && Filler(fill) && (fill != [] ==> rest == [])
    && m == taken + fill + last
  }

  lemma PairTakes(t: seq<Traced>, cur: nat)
    ensures var (pair, n) := NextPair(t, cur);
            MeaningOf(pair, cur) == if t == [] then [Traced(0, 0)] else t[..n]
  {
  }

  lemma FillerOn(fill: seq<Traced>)
    requires Filler(fill)
    ensures Filler([Traced(0, 0)] + fill)
  {
  }

  lemma Regroup(a: seq<Traced>, b: seq<Traced>, c: seq<Traced>, d: seq<Traced>)
    ensures a + (b + c + d) == (a + b) + c + d
  {
  }

  /** One pair in front. */
  lemma {:induction false} TakesOn(t: seq<Traced>, cur: nat, taken: seq<Traced>, rest: seq<Traced>, fill: seq<Traced>, m: seq<Traced>, last: seq<Traced>)
    returns (taken1: seq<Traced>, fill1: seq<Traced>)
    requires Takes(t[NextPair(t, cur).1..], taken, rest, fill, m, last)
    ensures Takes(t, taken1, rest, fill1, MeaningOf(NextPair(t, cur).0, cur) + m, last)
  {
    var n := NextPair(t, cur).1;
    var m0 := MeaningOf(NextPair(t, cur).0, cur);
    PairTakes(t, cur);
    hide NextPair, MeaningOf, Filler;
    if t == [] {
      assert taken == [] && rest == [];
      taken1, fill1 := [], [Traced(0, 0)] + fill;
      FillerOn(fill);
      assert m0 + ([] + fill + last) == [] + fill1 + last;
    } else {
      taken1, fill1 := t[..n] + taken, fill;
      assert t == t[..n] + t[n..];
      assert t[..n] + (taken + rest) == taken1 + rest;
      Regroup(t[..n], taken, fill, last);
    }
  }

  /** IDs of a pair that is not used up by data are in range. */
  lemma {:induction false} PairIds(t: seq<Traced>, cur: nat)
    requires Formattable(t)
    ensures var (pair, n) := NextPair(t, cur); (!pair.Two? ==> pair.id < 0x7F) && Formattable(t[n..])
  {
  }

  /** The pairs mean the bytes they take, followed by filler once all bytes are taken. */
  lemma {:induction false} PairsMean(t: seq<Traced>, cur: nat, p: Program, k: nat) returns (taken: seq<Traced>, fill: seq<Traced>)
    requires Formattable(t) && k <= 7 == |p.pairs|
    requires p.pairs[k..] == NextPairs(t, cur, 7 - k).0
    ensures var (ps, rest, cur1) := NextPairs(t, cur, 7 - k);
            && MeaningFrom(p, cur, k).1 == PairMeaning(p, cur1, 7).1
            && Takes(t, taken, rest, fill, MeaningFrom(p, cur, k).0, PairMeaning(p, cur1, 7).0)
            && Formattable(rest)
    ensures forall i :: k <= i < 7 && !p.pairs[i].Two? ==> p.pairs[i].id < 0x7F
    decreases 7 - k
  {
    hide NextPair, Filler, Formattable, Takes;
    if k == 7 {
      var (last, to) := PairMeaning(p, cur, 7);
      assert MeaningFrom(p, to, 8) == ([], to);
      assert last + [] == last;
      taken, fill := [], [];
      NothingTaken(t, last);
    } else {
      var (pair, n) := NextPair(t, cur);
      PairIds(t, cur);
      assert p.pairs[k] == p.pairs[k..][0] == pair && p.pairs[k + 1..] == p.pairs[k..][1..];
      taken, fill := PairsMean(t[n..], StreamAfter(pair, cur), p, k + 1);
      var (ps, rest, cur1) := NextPairs(t, cur, 7 - k);
      taken, fill := TakesOn(t, cur, taken, rest, fill, MeaningFrom(p, StreamAfter(pair, cur), k + 1).0, PairMeaning(p, cur1, 7).0);
    }
  }

  lemma NothingTaken(t: seq<Traced>, last: seq<Traced>)
    ensures Takes(t, [], t, [], last, last)
  {
    assert [] + t == t && [] + [] + last == last;
  }

  /** What the frames mean. */
  function MeaningAll(ps: seq<Program>, stream: nat): (seq<Traced>, nat) {
    if ps == [] then ([], stream)
    else
      var (t1, stream1) := MeaningFrom(ps[0], stream, 0);
      var (t2, stream2) := MeaningAll(ps[1..], stream1);
      (t1 + t2, stream2)
  }

  /** The first frame means the bytes it takes, and filler when there are no more. */
  lemma {:induction false} FrameMeans(t: seq<Traced>, cur: nat) returns (taken: seq<Traced>, fill: seq<Traced>)
    requires Formattable(t)
    ensures var (p, rest, cur1) := NextFrame(t, cur);
            && p.Valid() && MeaningFrom(p, cur, 0).1 == cur1 && Formattable(rest)
            && Takes(t, taken, rest, fill, MeaningFrom(p, cur, 0).0, [])
  {
    hide MeaningFrom, Filler, NextPairs;
    var (p, rest, cur1) := NextFrame(t, cur);
    var (ps, rest0, cur0) := NextPairs(t, cur, 7);
    assert p.pairs[0..] == ps;
    taken, fill := PairsMean(t, cur, p, 0);
    var m, last := MeaningFrom(p, cur, 0).0, PairMeaning(p, cur0, 7).0;
    if rest0 != [] && rest0[0].stream == cur0 {
      assert last == [rest0[0]] && fill == [];
      assert taken + rest0 == (taken + [rest0[0]]) + rest;
      assert taken + [] + last == (taken + last) + [] + [];
      taken := taken + last;
    } else {
      assert last == [];
    }
  }

  /** Any sequence of bytes of any streams other than 0 and 0x7F has frames that mean it, followed at
      most by filler on stream 0. */
  lemma {:induction false} Formats(t: seq<Traced>, cur: nat) returns (fill: seq<Traced>)
    requires Formattable(t)
    ensures var ps := Format(t, cur);
            && (forall i :: 0 <= i < |ps| ==> ps[i].Valid())
            && Filler(fill) && MeaningAll(ps, cur).0 == t + fill
    decreases |t|
  {
    hide MeaningFrom, NextFrame, Filler, Formattable;
    if t == [] {
      fill := [];
      NoFiller();
    } else {
      var (p, rest, cur1) := NextFrame(t, cur);
      var taken, n := FrameMeans(t, cur);
      var m := MeaningFrom(p, cur, 0).0;
      fill := Formats(rest, cur1);
      var ps := Format(rest, cur1);
      assert Format(t, cur) == [p] + ps;
      assert ([p] + ps)[1..] == ps;
      if rest == [] {
        assert MeaningAll(ps, cur1).0 == [];
        assert m + [] == t + n;
        fill := n;
      } else {
        assert m + (rest + fill) == t + fill;
      }
    }
  }

  lemma NoFiller()
    ensures Filler([])
  {
  }

  lemma {:induction false} MeaningOfFrames(sent: seq<Sent>, ps: seq<Program>, stream: nat)
    requires |sent| == |ps| && forall i :: 0 <= i < |ps| ==> sent[i].piece == Frame(ps[i])
    ensures Meaning(sent, stream) == MeaningAll(ps, stream)
    decreases |ps|
  {
    hide MeaningFrom;
    if ps != [] { MeaningOfFrames(sent[1..], ps[1..], MeaningFrom(ps[0], stream, 0).1); }
  }

  lemma {:induction false} FillerNotSelected(fill: seq<Traced>, stream: int)
    requires Filler(fill) && stream != 0
    ensures Selected(fill, stream) == []
    decreases |fill|
  {
    if fill != [] { FillerNotSelected(fill[1..], stream); }
  }

  /** Any trace: formatted, received and deformatted, the selected stream comes back. */
  lemma {:induction false} TraceBack(o: Options, s: State, t: seq<Traced>, sent: seq<Sent>)
    requires Between(o, s) && o.stream != 0 && Formattable(t)
    requires var ps := Format(t, s.stream);
             |sent| == |ps| && forall i :: 0 <= i < |ps| ==> sent[i].piece == Frame(ps[i]) && Arrives(sent[i])
    ensures DataOf(RecvAll(o, s, Received(sent)).1) == Selected(t, o.stream)
  {
    hide Arrives, Between, RecvAll, Format, MeaningAll, Meaning, Formattable;
    var fill := Formats(t, s.stream);
    MeaningOfFrames(sent, Format(t, s.stream), s.stream);
    RoundTrip(o, s, sent);
    SelectedJoin(t, fill, o.stream);
    FillerNotSelected(fill, o.stream);
    assert Selected(t, o.stream) + [] == Selected(t, o.stream);
  }
}
