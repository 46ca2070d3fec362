/** What the CAN decoder does on any bit stream at all. */
module CanBound {
  import opened BitStrings
  import opened Can

  // ----- What a run annotates -----

  function SampledIndex(e: Event): seq<int> {
    if e.Sampled? then [e.index] else []
  }

  function StuffedIndex(e: Event): seq<int> {
    if e.Stuffed? then [e.rawIndex] else []
  }

  function SampledIndices(e: seq<Event>): seq<int> {
    if e == [] then [] else SampledIndex(e[0]) + SampledIndices(e[1..])
  }

  function StuffedIndices(e: seq<Event>): seq<int> {
    if e == [] then [] else StuffedIndex(e[0]) + StuffedIndices(e[1..])
  }

  lemma {:induction false} IndicesConcat(a: seq<Event>, b: seq<Event>)
    ensures SampledIndices(a + b) == SampledIndices(a) + SampledIndices(b)
    ensures StuffedIndices(a + b) == StuffedIndices(a) + StuffedIndices(b)
    decreases |a|
  {
    hide SampledIndex, StuffedIndex;
    if a == [] {
      assert a + b == b;
    } else {
      IndicesConcat(a[1..], b);
      assert (a + b)[1..] == a[1..] + b;
    }
  }

  /** Neither a sampled nor a stuffed bit is among the events. */
  predicate NoBits(e: seq<Event>) {
    forall i :: 0 <= i < |e| ==> !e[i].Sampled? && !e[i].Stuffed?
  }

  lemma {:induction false} NoIndices(e: seq<Event>)
    requires NoBits(e)
    ensures SampledIndices(e) == [] && StuffedIndices(e) == []
  {
    if e != [] { NoIndices(e[1..]); }
  }

  /** The first index is at least 5 and each later one at least 5 above the one before. */
  ghost predicate Spaced(p: seq<int>) {
    (p != [] ==> p[0] >= 5) && forall i :: 0 < i < |p| ==> Apart(p, i)
  }

  ghost predicate Apart(p: seq<int>, i: nat)
    requires 0 < i < |p|
  {
    p[i] >= p[i - 1] + 5
  }

  lemma {:induction false} SpacedGrows(p: seq<int>, i: nat)
    requires Spaced(p) && i < |p|
    ensures p[i] >= 5 * (i + 1)
  {
    if i > 0 {
      SpacedGrows(p, i - 1);
      assert Apart(p, i);
    }
  }

  function Count(n: nat): (r: seq<int>)
    ensures |r| == n && forall i :: 0 <= i < n ==> r[i] == i
  {
    seq(n, i => i)
  }

  // ----- The invariant of a frame in progress -----

  /** What the decoder knows of the frame by the number of unstuffed bits seen. */
  ghost predicate Knows(s: State) {
    var n := |s.bits|;
    && (n < 14 ==> s.frameType.Unknown?)
    && (n >= 14 ==> !s.frameType.Unknown?)
    && (n < 15 ==> s.dlcStart == 0)
    && (n >= 15 ==> s.dlcStart == if s.frameType.Standard? then 15 else 35)
    && (n < 15 || n < s.dlcStart + 4 ==> s.lastDatabit == 999)
    && (n >= 15 && n >= s.dlcStart + 4 ==> s.dlcStart + 3 <= s.lastDatabit <= s.dlcStart + 67 && n <= s.lastDatabit + 25)
  }

  ghost predicate Progress(s: State, sampled: seq<int>, stuffed: seq<int>) {
    && !s.idle && Knows(s)
    && s.curbit == |s.raw| == |s.bits| + |stuffed|
    && sampled == Count(|s.bits|)
    && Spaced(stuffed)
    && LastStuffBit(s.raw, stuffed)
  }

  /** The last stuff bit differs from the bit before it; at most 119 unstuffed bits precede it. */
  ghost predicate LastStuffBit(raw: seq<Bit>, stuffed: seq<int>) {
    stuffed != [] ==>
      var q := stuffed[|stuffed| - 1];
      5 <= q < |raw| && raw[q] != raw[q - 1] && q - |stuffed| < 118
  }

  lemma ProgressBounds(s: State, sampled: seq<int>, stuffed: seq<int>)
    requires Progress(s, sampled, stuffed)
    ensures |s.bits| <= 127 && |stuffed| <= 29 && |s.raw| <= 156
  {
    if stuffed != [] { SpacedGrows(stuffed, |stuffed| - 1); }
  }

  // ----- One bit -----

  lemma {:induction false} DataBytesNoBits(s: State, i: nat, n: nat)
    requires i <= n
    ensures NoBits(DataBytes(s, i, n))
    decreases n - i
  {
    if i < n { DataBytesNoBits(s, i + 1, n); }
  }

  lemma PartsNoBits(s: State, b: Bit, n: nat)
    requires 13 < n < |s.bits|
    ensures NoBits(DecodeStandard(s, b, n).1) && NoBits(DecodeExtended(s, b, n).1)
  {
    hide Pack, SameBits;
  }

  lemma LengthNoBits(s: State, n: nat)
    ensures NoBits(DecodeLength(s, n).1)
  {
    hide Pack, SameBits;
  }

  lemma DataNoBits(s: State, n: nat)
    ensures NoBits(DecodeData(s, n).1)
  {
    hide Pack, SameBits, ByteAt;
    DataBytesNoBits(s.(dataBits := Can.Count(s.dataBits)), 0, Min(DlcToLen(s.dlc), 8));
  }

  lemma EndNoBits(s: State, b: Bit, n: nat)
    ensures NoBits(DecodeEnd(s, b, n).1)
  {
    hide Pack, SameBits, LastSevenRecessive;
  }

  lemma NoBitsConcat(a: seq<Event>, b: seq<Event>)
    requires NoBits(a) && NoBits(b)
    ensures NoBits(a + b)
  {
  }

  lemma DecodeNoBits(s: State, b: Bit, n: nat)
    requires n < |s.bits|
    ensures NoBits(Decode(s, b, n).1)
  {
    if 14 <= n && !s.frameType.Unknown? {
      hide Pack, SameBits, DecodeLength, DecodeData, DecodeEnd, DecodeStandard, DecodeExtended, NoBits, LastSevenRecessive;
      PartsNoBits(s, b, n);
      var (s1, e1) := if s.frameType.Standard? then DecodeStandard(s, b, n) else DecodeExtended(s, b, n);
      LengthNoBits(s1, n);
      var (s2, e2) := DecodeLength(s1, n);
      DataNoBits(s2, n);
      var (s3, e3) := DecodeData(s2, n);
      NoBitsConcat(e1, e2);
      NoBitsConcat(e1 + e2, e3);
      var e4 := if n > s3.lastDatabit then DecodeEnd(s3, b, n).1 else [];
      assert NoBits(e4) by { EndNoBits(s3, b, n); NothingNoBits(); }
      NoBitsConcat(e1 + e2 + e3, e4);
    }
  }

  lemma NothingNoBits()
    ensures NoBits([])
  {
  }

  /** t lays out the frame as s does. */
  ghost predicate SameLayout(s: State, t: State) {
    && t.frameType == s.frameType && t.dlcStart == s.dlcStart && t.lastDatabit == s.lastDatabit
  }

  lemma PartsLayout(s: State, b: Bit, n: nat)
    requires 14 < n < |s.bits|
    ensures SameLayout(s, DecodeStandard(s, b, n).0) && SameLayout(s, DecodeExtended(s, b, n).0)
  {
    hide Pack, SameBits;
  }

  lemma DataLayout(s: State, n: nat)
    ensures SameLayout(s, DecodeData(s, n).0)
  {
    hide Pack, SameBits, DataBytes, ByteAt;
  }

  lemma EndLayout(s: State, b: Bit, n: nat)
    ensures DecodeEnd(s, b, n).2 <==> n == s.lastDatabit + 25
    ensures !DecodeEnd(s, b, n).2 ==> SameLayout(s, DecodeEnd(s, b, n).0)
  {
    hide Pack, SameBits, LastSevenRecessive;
  }

  lemma LengthLayout(s: State, n: nat)
    ensures var s1 := DecodeLength(s, n).0;
            if n == s.dlcStart + 3 then
              && s1.frameType == s.frameType && s1.dlcStart == s.dlcStart
              && s.dlcStart + 3 <= s1.lastDatabit <= s.dlcStart + 67
            else SameLayout(s, s1)
  {
    hide Pack, SameBits;
  }

  /** Decoding one unstuffed bit keeps what is known, or ends the frame. */
  lemma HeaderKnows(s: State, b: Bit)
    requires Knows(s) && |s.bits| <= 14
    ensures var n := |s.bits|; var (s1, e, done) := Decode(s.(bits := s.bits + [b]), b, n);
            !done && Knows(s1)
  {
    hide Pack, DataBytes, ByteAt, DecodeEnd, DlcToLen;
  }

  lemma BodyKnows(s: State, b: Bit)
    requires Knows(s) && |s.bits| > 14
    ensures var n := |s.bits|; var (s1, e, done) := Decode(s.(bits := s.bits + [b]), b, n);
            !done ==> Knows(s1)
  {
    hide Pack, DecodeStandard, DecodeExtended, DecodeLength, DecodeData, DecodeEnd;
    var n, s0 := |s.bits|, s.(bits := s.bits + [b]);
    PartsLayout(s0, b, n);
    var (s1, e1) := if s0.frameType.Standard? then DecodeStandard(s0, b, n) else DecodeExtended(s0, b, n);
    LengthLayout(s1, n);
    var (s2, e2) := DecodeLength(s1, n);
    DataLayout(s2, n);
    var (s3, e3) := DecodeData(s2, n);
    EndLayout(s3, b, n);
  }

  /** The annotations of a finished or unfinished frame of n raw bits: the unstuffed bits one by one,
      the stuff bits at least five apart, and every raw bit one of the two. */
  ghost predicate Complete(sampled: seq<int>, stuffed: seq<int>, n: nat) {
    sampled == Count(|sampled|) && Spaced(stuffed) && |sampled| + |stuffed| == n <= 157
  }

  /** The decoder after the raw bits of raw, with the events e added to what was annotated before. */
  ghost predicate After(r: (State, seq<Event>), raw: seq<Bit>, sampled: seq<int>, stuffed: seq<int>) {
    var sampled1, stuffed1 := sampled + SampledIndices(r.1), stuffed + StuffedIndices(r.1);
    && Complete(sampled1, stuffed1, |raw|)
    && (if r.0.idle then r.0 == Reset() else Progress(r.0, sampled1, stuffed1) && r.0.raw == raw)
  }

  lemma Tally(s: State, sampled: seq<int>, stuffed: seq<int>)
    requires Progress(s, sampled, stuffed)
    ensures Complete(sampled, stuffed, |s.raw|)
  {
    ProgressBounds(s, sampled, stuffed);
  }

  /** Two stuff bits are at least five raw bits apart: the earlier one differs from the bit before it. */
  lemma StuffSpaced(s: State, b: Bit, sampled: seq<int>, stuffed: seq<int>)
    requires Progress(s, sampled, stuffed) && IsStuffBit(s.(raw := s.raw + [b], bits := s.bits + [b]))
    ensures Spaced(stuffed + [|s.raw|])
  {
    var raw, p := s.raw + [b], |s.raw|;
    assert raw[p - 5] == raw[p - 4] == raw[p - 3] == raw[p - 2] == raw[p - 1];
    if stuffed != [] {
      var q := stuffed[|stuffed| - 1];
      assert raw[q] == s.raw[q] && raw[q - 1] == s.raw[q - 1];
    }
    forall i | 0 < i <= |stuffed| ensures Apart(stuffed + [p], i) {
      assert i < |stuffed| ==> Apart(stuffed, i);
    }
  }

  lemma OneStuffed(i: int)
    ensures SampledIndices([Stuffed(i)]) == [] && StuffedIndices([Stuffed(i)]) == [i]
  {
    assert [Stuffed(i)][1..] == [];
  }

  lemma StuffLast(s: State, b: Bit, sampled: seq<int>, stuffed: seq<int>)
    requires Progress(s, sampled, stuffed) && IsStuffBit(s.(raw := s.raw + [b], bits := s.bits + [b]))
    ensures LastStuffBit(s.raw + [b], stuffed + [|s.raw|])
  {
    hide Spaced;
    assert |s.bits| + 1 <= s.lastDatabit + 17;
    assert |s.bits| + 1 <= 119;
  }

  /** What handling a stuff bit comes to. */
  lemma StuffHandled(s: State, b: Bit)
    requires IsStuffBit(s.(raw := s.raw + [b], bits := s.bits + [b])) && |s.raw| < CAPACITY && |s.bits| < CAPACITY
    ensures HandleBit(s, b) == (s.(raw := s.raw + [b], curbit := s.curbit + 1), [Stuffed(|s.raw|)])
  {
    hide IsStuffBit, Decode;
    assert (s.bits + [b])[..|s.bits|] == s.bits;
  }

  lemma {:induction false} StuffProgress(s: State, b: Bit, sampled: seq<int>, stuffed: seq<int>)
    requires Progress(s, sampled, stuffed) && Spaced(stuffed + [|s.raw|]) && LastStuffBit(s.raw + [b], stuffed + [|s.raw|])
    ensures Progress(s.(raw := s.raw + [b], curbit := s.curbit + 1), sampled, stuffed + [|s.raw|])
  {
    hide Spaced, LastStuffBit, Count;
  }

  lemma {:induction false} StuffStep(s: State, b: Bit, sampled: seq<int>, stuffed: seq<int>)
    requires Progress(s, sampled, stuffed) && IsStuffBit(s.(raw := s.raw + [b], bits := s.bits + [b]))
    ensures After(HandleBit(s, b), s.raw + [b], sampled, stuffed)
  {
    hide HandleBit, IsStuffBit, Spaced, Complete, LastStuffBit, Knows;
    ProgressBounds(s, sampled, stuffed);
    StuffSpaced(s, b, sampled, stuffed);
    StuffLast(s, b, sampled, stuffed);
    StuffProgress(s, b, sampled, stuffed);
    StuffHandled(s, b);
    OneStuffed(|s.raw|);
    assert sampled + [] == sampled;
    Tally(s.(raw := s.raw + [b], curbit := s.curbit + 1), sampled, stuffed + [|s.raw|]);
  }

  lemma {:induction false} SampledOnly(i: nat, e: seq<Event>)
    requires NoBits(e)
    ensures SampledIndices([Sampled(i)] + e) == [i] && StuffedIndices([Sampled(i)] + e) == []
  {
    assert ([Sampled(i)] + e)[1..] == e;
    NoIndices(e);
  }

  lemma DecodedKnows(s: State, b: Bit)
    requires Knows(s)
    ensures var (s1, e, done) := Decode(s.(bits := s.bits + [b]), b, |s.bits|);
            && NoBits(e)
            && (if done then s1 == Reset() else Knows(s1) && SameBits(s.(bits := s.bits + [b]), s1))
  {
    hide Knows;
    DecodeNoBits(s.(bits := s.bits + [b]), b, |s.bits|);
    if |s.bits| <= 14 { HeaderKnows(s, b); } else { BodyKnows(s, b); }
    hide Decode, NoBits, Reset;
  }

  lemma LastStuffBitKept(raw: seq<Bit>, b: Bit, stuffed: seq<int>)
    requires LastStuffBit(raw, stuffed)
    ensures LastStuffBit(raw + [b], stuffed)
  {
  }

  /** Every state that has the bits of s with b added, and knows the frame, is as far as s and b. */
  lemma ProgressOn(s: State, b: Bit, sampled: seq<int>, stuffed: seq<int>, s1: State)
    requires Progress(s, sampled, stuffed) && Knows(s1)
    requires SameBits(s.(raw := s.raw + [b], bits := s.bits + [b]), s1)
    ensures Progress(s1.(curbit := s1.curbit + 1), sampled + [|s.bits|], stuffed)
    ensures s1.raw == s.raw + [b] && !s1.idle
  {
    LastStuffBitKept(s.raw, b, stuffed);
    hide LastStuffBit, Spaced;
    assert Count(|s.bits|) + [|s.bits|] == Count(|s.bits| + 1);
  }

  lemma {:induction false} AfterSampled(r: (State, seq<Event>), i: nat, e: seq<Event>, raw: seq<Bit>, sampled: seq<int>, stuffed: seq<int>)
    requires r.1 == [Sampled(i)] + e && NoBits(e) && Complete(sampled + [i], stuffed, |raw|)
    requires if r.0.idle then r.0 == Reset() else Progress(r.0, sampled + [i], stuffed) && r.0.raw == raw
    ensures After(r, raw, sampled, stuffed)
  {
    hide Complete, Progress;
    SampledOnly(i, e);
    assert stuffed + [] == stuffed;
  }

  lemma KnowsAnyRaw(s: State, raw: seq<Bit>)
    requires Knows(s)
    ensures Knows(s.(raw := raw))
  {
  }

  lemma {:induction false} DataStep(s: State, b: Bit, sampled: seq<int>, stuffed: seq<int>)
    requires Progress(s, sampled, stuffed) && !IsStuffBit(s.(raw := s.raw + [b], bits := s.bits + [b]))
    ensures After(HandleBit(s, b), s.raw + [b], sampled, stuffed)
  {
    hide HandleBit, Decode, IsStuffBit, Knows, NoBits, LastStuffBit, Spaced, Complete, SameBits, After, Push;
    ProgressBounds(s, sampled, stuffed);
    var n, s0 := |s.bits|, s.(raw := s.raw + [b]);
    KnowsAnyRaw(s, s.raw + [b]);
    DecodedKnows(s0, b);
    SampledTally(s, sampled, stuffed);
    KeptBit(s, b);
    hide Progress;
    var (s1, e, done) := Decode(s0.(bits := s0.bits + [b]), b, n);
    if !done { ProgressOn(s, b, sampled, stuffed, s1); }
    AfterSampled(HandleBit(s, b), n, e, s.raw + [b], sampled, stuffed);
  }

  lemma SampledTally(s: State, sampled: seq<int>, stuffed: seq<int>)
    requires Progress(s, sampled, stuffed)
    ensures Complete(sampled + [|s.bits|], stuffed, |s.raw| + 1)
  {
    ProgressBounds(s, sampled, stuffed);
    assert Count(|s.bits|) + [|s.bits|] == Count(|s.bits| + 1);
  }

  // ----- A frame of any bits -----

  /** No bit but the last ends the frame. */
  predicate OneFrame(s: State, bits: seq<Bit>)
    decreases |bits|
  {
    |bits| <= 1 || (!HandleBit(s, bits[0]).0.idle && OneFrame(HandleBit(s, bits[0]).0, bits[1..]))
  }

  lemma {:induction false} Step(s: State, b: Bit, sampled: seq<int>, stuffed: seq<int>)
    requires Progress(s, sampled, stuffed)
    ensures After(HandleBit(s, b), s.raw + [b], sampled, stuffed)
  {
    if IsStuffBit(s.(raw := s.raw + [b], bits := s.bits + [b])) {
      StuffStep(s, b, sampled, stuffed);
    } else {
      DataStep(s, b, sampled, stuffed);
    }
  }

  lemma {:induction false} AfterNone(s: State, sampled: seq<int>, stuffed: seq<int>)
    requires Progress(s, sampled, stuffed)
    ensures After(Feed(s, []), s.raw, sampled, stuffed)
  {
    Tally(s, sampled, stuffed);
    hide Complete, Spaced, Knows;
    assert sampled + [] == sampled && stuffed + [] == stuffed;
  }

  lemma {:induction false} AfterOne(s: State, bits: seq<Bit>)
    requires |bits| == 1
    ensures Feed(s, bits) == HandleBit(s, bits[0])
  {
    hide HandleBit;
    var (s1, e1) := HandleBit(s, bits[0]);
    assert Feed(s1, bits[1..]) == (s1, []);
    assert e1 + [] == e1;
  }

  lemma {:induction false} AfterMore(s: State, bits: seq<Bit>, raw: seq<Bit>, sampled: seq<int>, stuffed: seq<int>)
    requires bits != []
    requires var (s1, e1) := HandleBit(s, bits[0]);
             After(Feed(s1, bits[1..]), raw, sampled + SampledIndices(e1), stuffed + StuffedIndices(e1))
    ensures After(Feed(s, bits), raw, sampled, stuffed)
  {
    hide HandleBit, Complete, Progress, SampledIndices, StuffedIndices;
    var (s1, e1) := HandleBit(s, bits[0]);
    var (s2, e2) := Feed(s1, bits[1..]);
    assert Feed(s, bits) == (s2, e1 + e2);
    hide Feed;
    IndicesConcat(e1, e2);
    assert (sampled + SampledIndices(e1)) + SampledIndices(e2) == sampled + (SampledIndices(e1) + SampledIndices(e2));
    assert (stuffed + StuffedIndices(e1)) + StuffedIndices(e2) == stuffed + (StuffedIndices(e1) + StuffedIndices(e2));
  }

  lemma {:induction false} Onward(s: State, b: Bit, sampled: seq<int>, stuffed: seq<int>)
    requires Progress(s, sampled, stuffed)
    ensures var (s1, e1) := HandleBit(s, b);
            && After((s1, e1), s.raw + [b], sampled, stuffed)
            && (!s1.idle ==> Progress(s1, sampled + SampledIndices(e1), stuffed + StuffedIndices(e1)) && s1.raw == s.raw + [b])
  {
    Step(s, b, sampled, stuffed);
    hide HandleBit, Progress, Complete, SampledIndices, StuffedIndices;
  }

  lemma {:induction false} FeedProgress(s: State, bits: seq<Bit>, sampled: seq<int>, stuffed: seq<int>)
    requires Progress(s, sampled, stuffed) && OneFrame(s, bits)
    ensures After(Feed(s, bits), s.raw + bits, sampled, stuffed)
    decreases |bits|
  {
    hide HandleBit, Feed, After, Progress, SampledIndices, StuffedIndices;
    if bits == [] {
      AfterNone(s, sampled, stuffed);
      assert s.raw + bits == s.raw;
    } else {
      Onward(s, bits[0], sampled, stuffed);
      if |bits| == 1 {
        AfterOne(s, bits);
        assert bits == [bits[0]];
      } else {
        var (s1, e1) := HandleBit(s, bits[0]);
        assert s.raw + bits == s.raw + [bits[0]] + bits[1..];
        FeedProgress(s1, bits[1..], sampled + SampledIndices(e1), stuffed + StuffedIndices(e1));
        AfterMore(s, bits, s.raw + bits, sampled, stuffed);
      }
    }
  }

  /** Whatever the bits, from the start of a frame: the frame is over within 157 raw bits, every raw
      bit is either a stuff bit or the next unstuffed one, stuff bits are at least five apart, and no
      raw bit is lost to a full buffer. */
  lemma {:induction false} AnyStream(bits: seq<Bit>)
    requires OneFrame(Begin(Reset()), bits)
    ensures var (s, e) := Feed(Begin(Reset()), bits);
            && Complete(SampledIndices(e), StuffedIndices(e), |bits|)
            && (s.idle ==> s == Reset())
            && (!s.idle ==> s.raw == bits && s.curbit == |bits| <= 156 && |s.bits| == |SampledIndices(e)| <= 127)
  {
    var s := Begin(Reset());
    assert Progress(s, [], []);
    hide HandleBit, Feed, OneFrame, SampledIndices, StuffedIndices, Complete, Spaced, Knows, LastStuffBit;
    FeedProgress(s, bits, [], []);
    var (s1, e) := Feed(s, bits);
    assert [] + bits == bits && [] + SampledIndices(e) == SampledIndices(e) && [] + StuffedIndices(e) == StuffedIndices(e);
    if !s1.idle { ProgressBounds(s1, SampledIndices(e), StuffedIndices(e)); }
  }
}
