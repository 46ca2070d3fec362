/** ADAT frames as they are sent, and the decoder's way back. */
module AdatRoundTrip {
  import opened BitStrings
  import opened Adat

  // ----- The encoder -----

  /** One user nibble and eight 24-bit words. */
  datatype Sent = Sent(user: nat, words: seq<nat>) {
    ghost predicate Valid() {
      user < 16 && |words| == 8 && forall i :: 0 <= i < 8 ==> words[i] < 0x1000000
    }
  }

  function Group(nibble: nat): (r: seq<Bit>)
    ensures |r| == 5 && r[0] == 1
  {
    [1] + Bits(nibble, 4)
  }

  /** The last k nibbles of q, each with a leading 1. */
  function Groups(q: nat, k: nat): (r: seq<Bit>)
    ensures |r| == 5 * k && (k > 0 ==> r[0] == 1)
  {
    if k == 0 then [] else Groups(q / 16, k - 1) + Group(q % 16)
  }

  function WordBits(words: seq<nat>): (r: seq<Bit>)
    ensures |r| == 30 * |words| && (words != [] ==> r[0] == 1)
  {
    if words == [] then [] else Groups(words[0], 6) + WordBits(words[1..])
  }

  /** 256 bits: sync pad, user nibble, words. */
  function FrameBits(f: Sent): (r: seq<Bit>)
    ensures |r| == 16 + 30 * |f.words| && r[0] == 1
  {
    SYNC_PAD + (Group(f.user) + WordBits(f.words))
  }

  function Stream(frames: seq<Sent>): (r: seq<Bit>)
    ensures frames != [] ==> r != [] && r[0] == 1
  {
    if frames == [] then [] else FrameBits(frames[0]) + Stream(frames[1..])
  }

  /** The number of 0 bits in front. */
  function Zeros(bits: seq<Bit>): (n: nat)
    ensures n <= |bits|
  {
    if bits == [] || bits[0] == 1 then 0 else 1 + Zeros(bits[1..])
  }

  /** The distances between the edges of the NRZI signal for the bits, which start with a 1; the last
      run ends with the edge that follows. */
  function Runs(bits: seq<Bit>): seq<nat>
    decreases |bits|
  {
    if bits == [] then []
    else
      var n := 1 + Zeros(bits[1..]);
      [n] + Runs(bits[n..])
  }

  // ----- What is to be reported -----

  function NibbleReports(q: nat, k: nat): seq<Event> {
    if k == 0 then [] else NibbleReports(q / 16, k - 1) + [Nibble(q % 16)]
  }

  function WordReports(words: seq<nat>, no: nat): seq<Event> {
    if words == [] then [] else NibbleReports(words[0], 6) + [Channel(no, words[0])] + WordReports(words[1..], no + 1)
  }

  function FrameReports(f: Sent): seq<Event> {
    [SyncPad, User(f.user), Nibble(f.user)] + WordReports(f.words, 0) + [Frame(Values(f.words), f.user)]
  }

  function StreamReports(frames: seq<Sent>): seq<Event> {
    if frames == [] then [] else FrameReports(frames[0]) + StreamReports(frames[1..])
  }

  // ----- Runs of consecutive pieces -----

  lemma {:induction false} ZerosJoin(a: seq<Bit>, b: seq<Bit>)
    requires b == [] || b[0] == 1
    ensures Zeros(a + b) == Zeros(a)
    decreases |a|
  {
    if a == [] {
      assert a + b == b;
    } else if a[0] == 0 {
      ZerosJoin(a[1..], b);
      assert (a + b)[1..] == a[1..] + b;
    }
  }

  lemma {:induction false} RunsJoin(a: seq<Bit>, b: seq<Bit>)
    requires b == [] || b[0] == 1
    ensures Runs(a + b) == Runs(a) + Runs(b)
    decreases |a|
  {
    hide Zeros;
    if a == [] {
      assert a + b == b;
    } else {
      var n := 1 + Zeros(a[1..]);
      ZerosJoin(a[1..], b);
      assert (a + b)[1..] == a[1..] + b;
      assert (a + b)[n..] == a[n..] + b;
      RunsJoin(a[n..], b);
    }
  }

  /** The first run of bits that start with a 1. */
  lemma {:induction false} FirstRun(bits: seq<Bit>)
    requires bits != [] && bits[0] == 1
    ensures var n := 1 + Zeros(bits[1..]); bits[..n] == RunBits(n) && (n < |bits| ==> bits[n] == 1)
  {
    ZerosAhead(bits[1..]);
  }

  lemma {:induction false} ZerosAhead(bits: seq<Bit>)
    ensures var n := Zeros(bits); (forall i :: 0 <= i < n ==> bits[i] == 0) && (n < |bits| ==> bits[n] == 1)
    decreases |bits|
  {
    if bits != [] && bits[0] == 0 { ZerosAhead(bits[1..]); }
  }

  // ----- Feeding pieces of a frame -----

  /** The buffer never holds more than 11 bits. */
  ghost predicate Small(s: State, runs: seq<nat>)
    decreases |runs|
  {
    runs == [] || (|s.signal| + runs[0] <= 11 && Small(Edge(s, runs[0]).0, runs[1..]))
  }

  /** The runs of the bits take the decoder from s to s1, reporting e. */
  ghost predicate Feeds(s: State, bits: seq<Bit>, s1: State, e: seq<Event>) {
    Edges(s, Runs(bits)) == (s1, e) && Small(s, Runs(bits))
  }

  lemma {:induction false} EdgesJoin(s: State, a: seq<nat>, b: seq<nat>)
    ensures var (s1, e1) := Edges(s, a); var (s2, e2) := Edges(s1, b);
            Edges(s, a + b) == (s2, e1 + e2) && (Small(s, a) && Small(s1, b) ==> Small(s, a + b))
    decreases |a|
  {
    hide Edge;
    if a == [] {
      assert a + b == b;
      assert [] + Edges(s, b).1 == Edges(s, b).1;
    } else {
      assert (a + b)[1..] == a[1..] + b;
      var (s1, e1) := Edge(s, a[0]);
      EdgesJoin(s1, a[1..], b);
      var (s2, e2) := Edges(s1, a[1..]);
      var (s3, e3) := Edges(s2, b);
      assert e1 + (e2 + e3) == (e1 + e2) + e3;
    }
  }

  lemma {:induction false} FeedsThen(s: State, a: seq<Bit>, s1: State, e1: seq<Event>, b: seq<Bit>, s2: State, e2: seq<Event>)
    requires Feeds(s, a, s1, e1) && Feeds(s1, b, s2, e2) && (b == [] || b[0] == 1)
    ensures Feeds(s, a + b, s2, e1 + e2)
  {
    hide Edges, Small, Runs;
    RunsJoin(a, b);
    EdgesJoin(s, Runs(a), Runs(b));
  }

  lemma {:induction false} FeedsNothing(s: State)
    ensures Feeds(s, [], s, [])
  {
  }

  lemma {:induction false} OneRun(s: State, bits: seq<Bit>, s1: State, e: seq<Event>)
    requires bits != [] && Runs(bits) == [|bits|] && Edge(s, |bits|) == (s1, e) && |s.signal| + |bits| <= 11
    ensures Feeds(s, bits, s1, e)
  {
    hide Edge;
    assert Edges(s1, []) == (s1, []);
    assert e + [] == e;
    assert Small(s1, []);
  }

  // ----- The sync pad -----

  lemma {:induction false} AllZeros(bits: seq<Bit>)
    requires forall i :: 0 <= i < |bits| ==> bits[i] == 0
    ensures Zeros(bits) == |bits|
  {
    if bits != [] { AllZeros(bits[1..]); }
  }

  lemma PadIsOneRun()
    ensures Runs(SYNC_PAD) == [11] && RunBits(11) == SYNC_PAD
  {
    AllZeros(SYNC_PAD[1..]);
    assert SYNC_PAD[11..] == [];
  }

  lemma {:induction false} AtPad(s: State)
    requires s.mode.Sync? && s.signal == SYNC_PAD
    ensures SyncLoop(s) == (s.(mode := UserBits, signal := []), [SyncPad])
  {
    assert s.signal[..11] == SYNC_PAD && s.signal[11..] == [];
    var s1 := s.(mode := UserBits, signal := []);
    assert LookForSyncPad(s) == (s1, [SyncPad]);
    assert SyncLoop(s1) == (s1, []);
    assert [SyncPad] + [] == [SyncPad];
  }

  lemma {:induction false} NotAtPad(s: State)
    requires s.mode.Sync? && |s.signal| >= 11 && s.signal[..11] != SYNC_PAD
    ensures SyncLoop(s) == SyncLoop(s.(signal := s.signal[1..]))
  {
    var s1 := s.(signal := s.signal[1..]);
    assert LookForSyncPad(s) == (s1, []);
    assert [] + SyncLoop(s1).1 == SyncLoop(s1).1;
  }

  /** In front of a pad, junk is thrown away bit by bit. */
  lemma {:induction false} PadBehind(s: State, junk: seq<Bit>)
    requires s.mode.Sync? && |junk| <= 10 && s.signal == junk + SYNC_PAD
    ensures SyncLoop(s) == (s.(mode := UserBits, signal := []), [SyncPad])
    decreases |junk|
  {
    hide SyncLoop;
    if junk == [] {
      assert s.signal == SYNC_PAD;
      AtPad(s);
    } else {
      var n := |junk|;
      assert s.signal[n] == 1 && s.signal[..11][n] == s.signal[n] && SYNC_PAD[n] == 0;
      NotAtPad(s);
      assert s.signal[1..] == junk[1..] + SYNC_PAD;
      PadBehind(s.(signal := s.signal[1..]), junk[1..]);
    }
  }

  /** Where the buffer holds fewer than 11 bits in front of a pad, they are thrown away one by one. */
  lemma {:induction false} PadFound(s: State)
    requires s.mode.Sync? && |s.signal| >= 11 && s.signal[|s.signal| - 11..] == SYNC_PAD && |s.signal| <= 21
    ensures SyncLoop(s) == (s.(mode := UserBits, signal := []), [SyncPad])
  {
    hide SyncLoop;
    var n := |s.signal| - 11;
    assert s.signal == s.signal[..n] + s.signal[n..];
    PadBehind(s, s.signal[..n]);
  }

  /** From any buffer of at most 10 bits the next sync pad locks. */
  lemma {:induction false} PadLocks(s: State)
    requires s.mode.Sync? && |s.signal| <= 10
    ensures Edges(s, Runs(SYNC_PAD)) == (s.(mode := UserBits, signal := []), [SyncPad])
  {
    PadIsOneRun();
    var s1 := Fill(s, 11);
    assert s1.signal[|s1.signal| - 11..] == SYNC_PAD;
    PadFound(s1);
    var (s2, e) := Edge(s, 11);
    assert s2 == s.(mode := UserBits, signal := []);
    assert Edges(s2, []) == (s2, []);
    assert [SyncPad] + [] == [SyncPad];
  }

  /** A group that does not start with a 1: the error is reported, one bit goes, the frame is given up, and
      the next sync pad locks. */
  lemma {:induction false} BadGroup(s: State)
    requires !s.mode.Sync? && 5 <= |s.signal| <= 11 && s.signal[0] == 0
    ensures var (s1, e) := Process(s);
            && e == [Error] && s1.mode.Sync? && s1.signal == s.signal[1..] && s1.channels == s.channels && s1.userData == s.userData
            && (s.mode.ChannelData? ==> s1.channelNo == 0 && s1.nibbleNo == 0 && s1.channelData == 0)
            && (s.mode.UserBits? ==> s1.channelNo == s.channelNo && s1.nibbleNo == s.nibbleNo && s1.channelData == s.channelData)
            && Edges(s1, Runs(SYNC_PAD)) == (s1.(mode := UserBits, signal := []), [SyncPad])
  {
    PadLocks(Process(s).0);
  }

  // ----- Groups -----

  /** The rest of a group: nothing happens before its last run. */
  lemma {:induction false} RestFed(s: State, rest: seq<Bit>)
    requires !s.mode.Sync? && rest != [] && rest[0] == 1 && |s.signal| + |rest| == 5
    ensures Feeds(s, rest, Process(s.(signal := s.signal + rest)).0, Process(s.(signal := s.signal + rest)).1)
    decreases |rest|
  {
    hide Pack, PutNibble, EndChannel, EndFrame;
    FirstRun(rest);
    var n := 1 + Zeros(rest[1..]);
    var s1 := Fill(s, n);
    assert s1 == s.(signal := s.signal + rest[..n]);
    if n == |rest| {
      assert rest[..n] == rest && rest[n..] == [];
      OneRun(s, rest, Edge(s, n).0, Edge(s, n).1);
    } else {
      assert Edge(s, n) == (s1, []);
      assert s1.signal + rest[n..] == s.signal + rest;
      RestFed(s1, rest[n..]);
      var r := Process(s.(signal := s.signal + rest));
      assert Feeds(s1, rest[n..], r.0, r.1);
      assert Runs(rest) == [n] + Runs(rest[n..]);
      OneEdgeFirst(s, n, s1, Runs(rest[n..]), r.0, r.1);
    }
  }

  lemma {:induction false} OneEdgeFirst(s: State, n: nat, s1: State, runs: seq<nat>, s2: State, e: seq<Event>)
    requires Edge(s, n) == (s1, []) && Edges(s1, runs) == (s2, e) && Small(s1, runs) && |s.signal| + n <= 11
    ensures Edges(s, [n] + runs) == (s2, e) && Small(s, [n] + runs)
  {
    hide Edge;
    assert ([n] + runs)[1..] == runs;
    assert [] + e == e;
  }

  lemma {:induction false} GroupFed(s: State, nibble: nat)
    requires !s.mode.Sync? && s.signal == []
    ensures Feeds(s, Group(nibble), Process(s.(signal := Group(nibble))).0, Process(s.(signal := Group(nibble))).1)
  {
    hide Process, Feeds, Group;
    RestFed(s, Group(nibble));
    assert s.signal + Group(nibble) == Group(nibble);
  }

  lemma {:induction false} GroupValue(nibble: nat)
    requires nibble < 16
    ensures Pack(Group(nibble)[1..5]) == nibble && Group(nibble)[5..] == []
  {
    assert Group(nibble)[1..5] == Bits(nibble, 4);
    PowerSteps();
    PackBits(nibble, 4);
  }

  /** The user nibble, right after the pad. */
  lemma {:induction false} UserFed(s: State, user: nat)
    requires s.mode.UserBits? && s.signal == [] && user < 16
    ensures Feeds(s, Group(user), s.(mode := ChannelData, userData := user), [User(user), Nibble(user)])
  {
    hide Feeds, Pack, Group;
    GroupValue(user);
    GroupFed(s, user);
  }

  /** One nibble of a channel word. */
  lemma {:induction false} NibbleFed(s: State, q: nat)
    requires s.mode.ChannelData? && s.signal == [] && s.nibbleNo < 6 && IsTop(s.channelData, s.nibbleNo, q / 16)
    ensures var s1 := UnderWay(s, q, s.nibbleNo + 1);
            Feeds(s, Group(q % 16), EndFrame(EndChannel(s1).0).0, [Nibble(q % 16)] + EndChannel(s1).1 + EndFrame(EndChannel(s1).0).1)
  {
    hide Feeds, Pack, Group, PutNibble, EndChannel, EndFrame, Pow2;
    var nibble := q % 16;
    GroupValue(nibble);
    GroupFed(s, nibble);
    TopOn(s.channelData, s.nibbleNo, q / 16, nibble);
  }

  // ----- Words, frames, streams -----

  /** The word q under way after k nibbles. */
  function UnderWay(s: State, q: nat, k: nat): State {
    s.(channelData := if k <= 6 then Pow2(24 - 4 * k) * q else 0, nibbleNo := k)
  }

  /** Up to five nibbles of a word. */
  lemma {:induction false} GroupsFed(s: State, q: nat, k: nat)
    requires s.mode.ChannelData? && s.signal == [] && s.nibbleNo == 0 && s.channelData == 0 && s.channelNo < 8
    requires k < 6 && q < Pow2(4 * k)
    ensures Feeds(s, Groups(q, k), UnderWay(s, q, k), NibbleReports(q, k))
    decreases k
  {
    hide Feeds, Group;
    if k == 0 {
      FeedsNothing(s);
    } else {
      FourMore(4 * (k - 1));
      GroupsFed(s, q / 16, k - 1);
      var s1 := UnderWay(s, q / 16, k - 1);
      NibbleFed(s1, q);
      assert NibbleReports(q, k) == NibbleReports(q / 16, k - 1) + [Nibble(q % 16)];
      assert [Nibble(q % 16)] + [] + [] == [Nibble(q % 16)];
      FeedsThen(s, Groups(q / 16, k - 1), s1, NibbleReports(q / 16, k - 1), Group(q % 16), UnderWay(s, q, k), [Nibble(q % 16)]);
    }
  }

  /** The state after word w of channel no. */
  function WordDone(s: State, w: nat): State {
    if s.channelNo < |s.channels| then s.(channels := s.channels[s.channelNo := w], channelNo := s.channelNo + 1) else s
  }

  lemma {:induction false} WordFed(s: State, w: nat)
    requires s.mode.ChannelData? && s.signal == [] && s.nibbleNo == 0 && s.channelData == 0 && s.channelNo < 8 == |s.channels|
    requires w < 0x1000000
    ensures var (s1, e) := EndFrame(WordDone(s, w));
            Feeds(s, Groups(w, 6), s1, NibbleReports(w, 6) + [Channel(s.channelNo, w)] + e)
  {
    hide Feeds, Group, EndFrame;
    PowerSteps();
    FourMore(20);
    GroupsFed(s, w / 16, 5);
    var s1 := UnderWay(s, w / 16, 5);
    NibbleFed(s1, w);
    var (s2, e) := EndFrame(WordDone(s, w));
    var a, b := NibbleReports(w / 16, 5), [Nibble(w % 16)];
    assert NibbleReports(w, 6) == a + b;
    FeedsThen(s, Groups(w / 16, 5), s1, a, Group(w % 16), s2, b + [Channel(s.channelNo, w)] + e);
    assert a + (b + [Channel(s.channelNo, w)] + e) == a + b + [Channel(s.channelNo, w)] + e;
  }

  /** The state after the words of a frame, the first of which is that of channel no. */
  function WordsDone(s: State, words: seq<nat>): State {
    if s.channelNo + |words| == |s.channels| then
      s.(channels := s.channels[..s.channelNo] + words, channelNo := 0, mode := Sync)
    else s
  }

  lemma {:induction false} WordsFed(s: State, words: seq<nat>)
    requires s.mode.ChannelData? && s.signal == [] && s.nibbleNo == 0 && s.channelData == 0 && |s.channels| == 8
    requires words != [] && s.channelNo + |words| == 8 && forall i :: 0 <= i < |words| ==> words[i] < 0x1000000
    ensures Feeds(s, WordBits(words), WordsDone(s, words), WordReports(words, s.channelNo) + [Frame(Values(WordsDone(s, words).channels), s.userData)])
    decreases |words|
  {
    hide Feeds, Groups, NibbleReports, Values;
    var w, rest := words[0], words[1..];
    WordFed(s, w);
    var s1 := WordDone(s, w);
    var head := NibbleReports(w, 6) + [Channel(s.channelNo, w)];
    if rest == [] {
      assert s.channels[s.channelNo := w] == s.channels[..s.channelNo] + words;
      assert Groups(w, 6) + WordBits(rest) == Groups(w, 6);
      assert head + WordReports(rest, s.channelNo + 1) == head;
    } else {
      WordsFed(s1, rest);
      assert s1.channels[..s1.channelNo] == s.channels[..s.channelNo] + [w];
      assert s1.channels[..s1.channelNo] + rest == s.channels[..s.channelNo] + words;
      assert head + [] == head;
      var tail, frame := WordReports(rest, s1.channelNo), [Frame(Values(WordsDone(s, words).channels), s.userData)];
      FeedsThen(s, Groups(w, 6), s1, head, WordBits(rest), WordsDone(s, words), tail + frame);
      assert head + (tail + frame) == head + tail + frame;
    }
  }

  /** In front of a frame, with nothing left over from the one before. */
  ghost predicate InFront(s: State) {
    && s.mode.Sync? && |s.signal| <= 10
    && s.channelNo == 0 && s.nibbleNo == 0 && s.channelData == 0 && |s.channels| == 8
  }

  /** The state after a frame. */
  function Received(s: State, f: Sent): State {
    s.(signal := [], channels := f.words, userData := f.user)
  }

  /** The part of the frame after the sync pad. */
  lemma {:induction false} BodyFed(s: State, f: Sent)
    requires f.Valid() && InFront(s)
    ensures Feeds(s.(mode := UserBits, signal := []), Group(f.user) + WordBits(f.words), Received(s, f),
                  [User(f.user), Nibble(f.user)] + (WordReports(f.words, 0) + [Frame(Values(f.words), f.user)]))
  {
    hide Feeds, Group, WordBits, WordReports, Values;
    var s1 := s.(mode := UserBits, signal := []);
    var s2 := s1.(mode := ChannelData, userData := f.user);
    UserFed(s1, f.user);
    WordsFed(s2, f.words);
    assert s2.channels[..0] + f.words == f.words;
    FeedsThen(s1, Group(f.user), s2, [User(f.user), Nibble(f.user)], WordBits(f.words), Received(s, f),
              WordReports(f.words, 0) + [Frame(Values(f.words), f.user)]);
  }

  /** A frame is received whatever up to ten bits are left in the buffer; from an empty buffer there
      are never more than 11 bits in it. */
  lemma {:induction false} FrameFed(s: State, f: Sent)
    requires f.Valid() && InFront(s)
    ensures Edges(s, Runs(FrameBits(f))) == (Received(s, f), FrameReports(f))
    ensures s.signal == [] ==> Small(s, Runs(FrameBits(f)))
  {
    hide Edges, Runs, Small, Group, WordBits, WordReports, Values;
    var body := Group(f.user) + WordBits(f.words);
    var s1 := s.(mode := UserBits, signal := []);
    PadLocks(s);
    BodyFed(s, f);
    RunsJoin(SYNC_PAD, body);
    EdgesJoin(s, Runs(SYNC_PAD), Runs(body));
    var e2 := [User(f.user), Nibble(f.user)] + (WordReports(f.words, 0) + [Frame(Values(f.words), f.user)]);
    assert [SyncPad] + e2 == FrameReports(f);
    if s.signal == [] { PadIsSmall(s); }
  }

  lemma PadIsSmall(s: State)
    requires s.signal == []
    ensures Small(s, Runs(SYNC_PAD))
  {
    hide Edge;
    PadIsOneRun();
    assert Small(Edge(s, 11).0, []);
  }

  /** From sync state with up to ten bits in the buffer: any number of frames comes back, user nibble
      and eight words each, in order and with nothing else; from an empty buffer on there are never
      more than 11 bits in it. */
  lemma {:induction false} RoundTrip(s: State, frames: seq<Sent>)
    requires InFront(s) && forall i :: 0 <= i < |frames| ==> frames[i].Valid()
    ensures var (s1, e) := Edges(s, Runs(Stream(frames)));
            && e == StreamReports(frames)
            && InFront(s1) && (frames != [] ==> s1.signal == [])
    ensures s.signal == [] ==> Small(s, Runs(Stream(frames)))
    decreases |frames|
  {
    if frames == [] {
    } else {
      hide Edges, Runs, Small, FrameBits, FrameReports;
      var f, rest := frames[0], frames[1..];
      FrameFed(s, f);
      RoundTrip(Received(s, f), rest);
      RunsJoin(FrameBits(f), Stream(rest));
      EdgesJoin(s, Runs(FrameBits(f)), Runs(Stream(rest)));
    }
  }
}
