/** The ADAT decoder of adat_c.c: runs of NRZI bits between two edges go through a shifting buffer to
    frames of a user nibble and eight 24-bit words. */
module Adat {
  import opened BitStrings

  const CAPACITY: nat := 512
  const SYNC_PAD: seq<Bit> := [1, 0, 0, 0, 0, 0, 0, 0, 0, 0, 0]

  datatype Mode = Sync | UserBits | ChannelData

  /** What is reported, with both kinds of annotations switched on; positions are left out. */
  datatype Event =
    | SyncPad | User(data: nat) | Nibble(data: nat) | Channel(no: nat, data: nat) | Error
    | Frame(values: seq<int>, user: nat)

  datatype State = State(signal: seq<Bit>, mode: Mode, channelNo: nat, nibbleNo: nat, channelData: nat,
                         channels: seq<nat>, userData: nat)

  /** x read as a two's complement number, the way sign_extend_24bit computes it. */
  function SignExtend(x: nat): int {
    if (x / 0x800000) % 2 == 1 then -(0x800000 - x % 0x800000) else x
  }

  /** Bitwise or. */
  function Or(a: nat, b: nat): nat
    decreases a + b
  {
    if a == 0 && b == 0 then 0
    else 2 * Or(a / 2, b / 2) + if a % 2 == 1 || b % 2 == 1 then 1 else 0
  }

  function Drop(s: State, n: nat): State {
    if n <= |s.signal| then s.(signal := s.signal[n..]) else s
  }

  function LookForSyncPad(s: State): (State, seq<Event>) {
    if |s.signal| < 11 then (s, [])
    else if s.signal[..11] == SYNC_PAD then (Drop(s, 11).(mode := UserBits), [SyncPad])
    else (Drop(s, 1), [])
  }

  /** Looks on until the pad is found or the buffer is too short. */
  function SyncLoop(s: State): (State, seq<Event>)
    decreases |s.signal|
  {
    if s.mode.Sync? && |s.signal| >= 11 then
      var (s1, e1) := LookForSyncPad(s);
      var (s2, e2) := SyncLoop(s1);
      (s2, e1 + e2)
    else (s, [])
  }

  function DecodeUserBits(s: State): (State, seq<Event>) {
    if |s.signal| < 5 then (s, [])
    else if s.signal[0] != 1 then (Drop(s, 1).(mode := Sync), [Error])
    else
      var u := Pack(s.signal[1..5]);
      (Drop(s, 5).(mode := ChannelData, userData := u), [User(u), Nibble(u)])
  }

  /** The word d with a nibble or'ed into place k. */
  function PutNibble(d: nat, k: nat, nibble: nat): nat {
    if k < 6 then Or(d, nibble * Pow2(20 - 4 * k)) else d
  }

  /** One nibble into the current channel word. */
  function AddNibble(s: State, nibble: nat): State {
    Drop(s, 5).(channelData := PutNibble(s.channelData, s.nibbleNo, nibble), nibbleNo := s.nibbleNo + 1)
  }

  function EndChannel(s: State): (State, seq<Event>) {
    if s.nibbleNo == 6 && s.channelNo < |s.channels| then
      (s.(channels := s.channels[s.channelNo := s.channelData], channelNo := s.channelNo + 1, channelData := 0, nibbleNo := 0),
       [Channel(s.channelNo, s.channelData)])
    else (s, [])
  }

  function Values(words: seq<nat>): (r: seq<int>)
    ensures |r| == |words|
  {
    seq(|words|, i requires 0 <= i < |words| => SignExtend(words[i]))
  }

  function EndFrame(s: State): (State, seq<Event>) {
    if s.channelNo == 8 then (s.(channelNo := 0, mode := Sync), [Frame(Values(s.channels), s.userData)])
    else (s, [])
  }

  function DecodeChannelData(s: State): (State, seq<Event>) {
    if |s.signal| < 5 then (s, [])
    else if s.signal[0] != 1 then (Drop(s, 1).(channelNo := 0, channelData := 0, nibbleNo := 0, mode := Sync), [Error])
    else
      var nibble := Pack(s.signal[1..5]);
      var (s1, e1) := EndChannel(AddNibble(s, nibble));
      var (s2, e2) := EndFrame(s1);
      (s2, [Nibble(nibble)] + e1 + e2)
  }

  /** The bits of a run: an edge and then none. */
  function RunBits(n: nat): (r: seq<Bit>)
    ensures |r| == n
    ensures forall i :: 0 <= i < n ==> r[i] == if i == 0 then 1 else 0
  {
    seq(n, i => if i == 0 then 1 else 0)
  }

  function Fill(s: State, n: nat): (r: State)
    ensures |r.signal| <= |s.signal| + n
  {
    var room := if |s.signal| < CAPACITY then CAPACITY - |s.signal| else 0;
    s.(signal := s.signal + RunBits(if n < room then n else room))
  }

  function Process(s: State): (State, seq<Event>) {
    match s.mode
    case Sync => SyncLoop(s)
    case UserBits => DecodeUserBits(s)
    case ChannelData => DecodeChannelData(s)
  }

  /** One turn of the decode loop: an edge, n bits after the one before. */
  function Edge(s: State, n: nat): (State, seq<Event>) {
    Process(Fill(s, n))
  }

  function Edges(s: State, runs: seq<nat>): (State, seq<Event>)
    decreases |runs|
  {
    if runs == [] then (s, [])
    else
      var (s1, e1) := Edge(s, runs[0]);
      var (s2, e2) := Edges(s1, runs[1..]);
      (s2, e1 + e2)
  }

  // ----- Sign extension and or -----

  /** Two's complement of 24 bits: the value in [-2^23, 2^23) that agrees with x modulo 2^24. */
  lemma SignExtendIsTwosComplement(x: nat)
    requires x < 0x1000000
    ensures -0x800000 <= SignExtend(x) < 0x800000 && (SignExtend(x) - x) % 0x1000000 == 0
  {
  }

  /** Numbers without common bits: or is their sum. */
  lemma {:induction false} OrIsSum(q: nat, b: nat, n: nat)
    requires b < Pow2(n)
    ensures Or(Pow2(n) * q, b) == Pow2(n) * q + b
    decreases n
  {
    if n == 0 {
      OrZero(q);
    } else {
      var p := Pow2(n - 1);
      assert Pow2(n) * q == 2 * (p * q);
      OrIsSum(q, b / 2, n - 1);
    }
  }

  lemma {:induction false} OrZero(a: nat)
    ensures Or(a, 0) == a
    decreases a
  {
    if a > 0 { OrZero(a / 2); }
  }

  // ----- Any runs -----

  /** d holds the k nibbles that make up q in its upper places, and nothing below. */
  ghost predicate IsTop(d: nat, k: nat, q: nat) {
    k <= 6 && q < Pow2(4 * k) && d == Pow2(24 - 4 * k) * q
  }

  /** Between two edges: the indices are in range, the word under way is clear where its next nibbles
      go, and the words done have 24 bits. */
  ghost predicate Sane(s: State) {
    && |s.signal| <= CAPACITY && |s.channels| == 8 && s.channelNo < 8 && s.nibbleNo < 6
    && (exists q :: IsTop(s.channelData, s.nibbleNo, q))
    && (!s.mode.ChannelData? ==> s.channelNo == 0 && s.nibbleNo == 0 && s.channelData == 0)
    && Words(s.channels)
  }

  predicate Words(channels: seq<nat>) {
    forall i :: 0 <= i < |channels| ==> channels[i] < 0x1000000
  }

  lemma PowerSteps()
    ensures Pow2(4) == 16 && Pow2(0) == 1
    ensures Pow2(8) == 0x100 && Pow2(12) == 0x1000 && Pow2(16) == 0x10000 && Pow2(20) == 0x100000 && Pow2(24) == 0x1000000
  {
    assert Pow2(8) == 16 * Pow2(4);
    assert Pow2(12) == 16 * Pow2(8);
    assert Pow2(16) == 16 * Pow2(12);
    assert Pow2(20) == 16 * Pow2(16);
    assert Pow2(24) == 16 * Pow2(20);
  }

  lemma {:induction false} PackFour(bits: seq<Bit>)
    requires |bits| == 4
    ensures Pack(bits) < 16
  {
    PackBound(bits);
    assert Pow2(4) == 16;
  }

  lemma Regroup(p: nat, q: nat, nibble: nat)
    ensures 16 * p * q + nibble * p == p * (16 * q + nibble)
  {
  }

  /** A nibble or'ed to a word with q above it. */
  lemma {:induction false} OrBelow(d: nat, q: nat, nibble: nat, n: nat)
    requires nibble < 16 && d == Pow2(n + 4) * q
    ensures Or(d, nibble * Pow2(n)) == Pow2(n) * (16 * q + nibble)
  {
    hide Pow2, Or;
    FourMore(n);
    var p := Pow2(n);
    assert nibble * p < 16 * p;
    OrIsSum(q, nibble * p, n + 4);
    Regroup(p, q, nibble);
  }

  /** A nibble goes where the word is clear: it becomes the next one of the upper places. */
  lemma {:induction false} TopOn(d: nat, k: nat, q: nat, nibble: nat)
    requires k < 6 && IsTop(d, k, q) && nibble < 16
    ensures IsTop(PutNibble(d, k, nibble), k + 1, 16 * q + nibble)
  {
    hide Pow2, Or;
    FourMore(4 * k);
    OrBelow(d, q, nibble, 20 - 4 * k);
  }

  lemma FourMore(n: nat)
    ensures Pow2(n + 4) == 16 * Pow2(n)
  {
    assert Pow2(n + 2) == 4 * Pow2(n) && Pow2(n + 4) == 4 * Pow2(n + 2);
  }

  /** A completed channel word is exactly its six nibbles, of which q are the first five. */
  lemma {:induction false} WordIsNibbles(s: State, q: nat, nibble: nat)
    requires s.channelNo < |s.channels| && s.nibbleNo == 5 && IsTop(s.channelData, 5, q) && nibble < 16
    ensures 16 * q + nibble < 0x1000000
    ensures var (s1, e) := EndChannel(AddNibble(s, nibble));
            s1.channels == s.channels[s.channelNo := 16 * q + nibble] && e == [Channel(s.channelNo, 16 * q + nibble)]
  {
    TopOn(s.channelData, 5, q, nibble);
    PowerSteps();
    hide PutNibble;
  }

  lemma NoNibbles()
    ensures IsTop(0, 0, 0)
  {
  }

  lemma {:induction false} LookKeepsSane(s: State)
    requires Sane(s) && s.mode.Sync?
    ensures Sane(SyncLoop(s).0) && |SyncLoop(s).0.signal| <= |s.signal|
    ensures SyncLoop(s).0.mode.Sync? ==> |SyncLoop(s).0.signal| <= 10
    decreases |s.signal|
  {
    var s1 := LookForSyncPad(s).0;
    if |s.signal| >= 11 && s1.mode.Sync? { LookKeepsSane(s1); }
  }

  lemma {:induction false} NibbleKeepsSane(s: State, nibble: nat)
    requires Sane(s) && s.mode.ChannelData? && nibble < 16
    ensures Sane(EndFrame(EndChannel(AddNibble(s, nibble)).0).0)
  {
    hide PutNibble, IsTop, Values;
    var q :| IsTop(s.channelData, s.nibbleNo, q);
    TopOn(s.channelData, s.nibbleNo, q, nibble);
    if s.nibbleNo == 5 { WordIsNibbles(s, q, nibble); }
    NoNibbles();
  }

  /** Whatever the runs, the channel index stays in range, no nibble is or'ed onto another and no word has
      more than 24 bits. */
  lemma {:induction false} EdgeKeepsSane(s: State, n: nat)
    requires Sane(s)
    ensures Sane(Edge(s, n).0)
  {
    hide Pack, Or, Pow2, IsTop, AddNibble, EndChannel, EndFrame;
    var s1 := Fill(s, n);
    NoNibbles();
    match s1.mode
    case Sync => LookKeepsSane(s1);
    case UserBits =>
    case ChannelData =>
      if |s1.signal| >= 5 && s1.signal[0] == 1 {
        PackFour(s1.signal[1..5]);
        NibbleKeepsSane(s1, Pack(s1.signal[1..5]));
      }
  }
}
