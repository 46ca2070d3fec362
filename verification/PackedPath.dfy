/** What a decoder consumes over the packed path, over any run of the two threads. */
module PackedPath {
  import opened Scanner
  import opened ScannerChunks
  import opened Handshake
  import opened HandshakeOrder

  /** The levels of one channel for the samples from, ..., to - 1. */
  function Levels(c: Chunk, ch: nat, from: nat, to: nat): (r: seq<nat>)
    ensures from <= to ==> |r| == to - from && forall k :: 0 <= k < |r| ==> r[k] == c.Level(from + k, ch)
  {
    if from >= to then [] else seq<nat>(to - from, k requires 0 <= k < to - from => c.Level(from + k, ch))
  }

  function Capture(chunks: seq<Chunk>, ch: nat): seq<nat> {
    if chunks == [] then [] else Levels(chunks[0], ch, chunks[0].start, chunks[0].end) + Capture(chunks[1..], ch)
  }

  // ----- Reading a view -----

  /** Where a channel stands in the request. */
  function Position(channels: seq<int>, ch: int): (i: nat)
    ensures ch in channels ==> i < |channels| && channels[i] == ch
  {
    if channels == [] || channels[0] == ch then 0 else 1 + Position(channels[1..], ch)
  }

  /** What the decoder reads for sample start + k of a view; 0 where there is no such bit. */
  function Read(v: View, ch: int, k: nat): nat {
    var i := Position(v.channels, ch);
    if i >= |v.slots| then 0
    else
      match v.slots[i]
      case Absent => 0xFF
      case Constant(level) => level
      case Bits(bits) => if v.bitOffset + k < |bits| then bits[v.bitOffset + k] else 0
  }

  /** The first n entries of a view. */
  function Entries(v: View, ch: int, n: nat): (r: seq<nat>)
    ensures |r| == n
  {
    seq(n, k requires 0 <= k < n => Read(v, ch, k))
  }

  /** What the view has for a channel are the levels of its samples in the chunk. */
  ghost predicate ViewShows(c: Chunk, v: View, ch: nat) {
    && v.start + v.count <= c.end
    && forall k :: 0 <= k < v.count ==> Read(v, ch, k) == c.Level(v.start + k, ch)
  }

  /** Bit m of a channel's slot, its bytes starting behind the first byte bytes of the chunk. */
  lemma {:induction false} SlotShows(c: Chunk, ch: nat, byte: nat, m: nat)
    requires c.start + 8 * byte + m < c.end
    ensures match SlotOf(c, ch, byte)
            case Absent => false
            case Constant(level) => level == c.Level(c.start + 8 * byte + m, ch)
            case Bits(bits) => m < |bits| && bits[m] == c.Level(c.start + 8 * byte + m, ch)
  {
  }

  /** A fetched view starts at the scan position, has the samples asked for or all that are left, and
      shows the levels of every channel asked for. */
  lemma {:induction false} FetchedShows(c: Chunk, cur: nat, channels: seq<int>, max: nat, ch: nat)
    requires c.start <= cur < c.end && max > 0 && ch in channels
    ensures var v := Fetched(c, cur, channels, max);
            && v.start == cur && 0 < v.count <= max && (v.count == max || cur + v.count == c.end)
            && v.bitOffset < 8 && ViewShows(c, v, ch)
  {
    hide SlotOf, Chunk.Level;
    var v, off := Fetched(c, cur, channels, max), cur - c.start;
    assert 8 * (off / 8) + off % 8 == off;
    assert v.slots[Position(channels, ch)] == SlotOf(c, ch, off / 8);
    forall k | 0 <= k < v.count ensures Read(v, ch, k) == c.Level(v.start + k, ch) {
      assert c.start + 8 * (off / 8) + (off % 8 + k) == cur + k;
      SlotShows(c, ch, off / 8, off % 8 + k);
    }
  }

  lemma {:induction false} RestShows(c: Chunk, v: View, ch: nat, n: nat)
    requires ViewShows(c, v, ch) && n <= v.count
    ensures ViewShows(c, v.Rest(n), ch)
    ensures Entries(v, ch, n) == Levels(c, ch, v.start, v.start + n)
  {
    forall k | 0 <= k < v.count - n ensures Read(v.Rest(n), ch, k) == c.Level(v.start + n + k, ch) {
      assert Read(v.Rest(n), ch, k) == Read(v, ch, n + k);
    }
  }

  // ----- What a run consumes -----

  /** What the decoder has read of a channel when it consumes n samples: the first n entries of what is
      left of its view. */
  function Taken(s: State, a: Action, ch: nat): seq<nat> {
    if a.Consume? && s.worker.Reading? then Entries(s.worker.view, ch, a.n) else []
  }

  /** All that a run consumes of a channel. */
  function Consumed(s: State, actions: seq<Action>, ch: nat): seq<nat>
    requires Legal(s, actions)
    decreases |actions|
  {
    if actions == [] then [] else Taken(s, actions[0], ch) + Consumed(Step(s, actions[0]), actions[1..], ch)
  }

  /** The decoder uses the packed path only, asks for the channel each time, and consumes no more than
      it was handed out; the instance is not reset. */
  predicate Reads(s: State, a: Action, ch: nat) {
    && !a.Join? && FeedsSamples(a)
    && (a.Ask? ==> a.call.FetchUpTo? && ch in a.call.channels)
    && (a.Consume? ==> s.worker.Reading? && a.n <= s.worker.view.count)
  }

  predicate AllRead(s: State, actions: seq<Action>, ch: nat)
    requires Legal(s, actions)
    decreases |actions|
  {
    actions == [] || (Reads(s, actions[0], ch) && AllRead(Step(s, actions[0]), actions[1..], ch))
  }

  /** What was handed back, then the part of the chunk at hand that is already consumed. */
  function Given(s: State, ch: nat): seq<nat> {
    Capture(s.released, ch) + if s.got then Levels(s.chunk, ch, s.chunk.start, s.scan.cur) else []
  }

  /** The scan is in the chunk at hand, and what is left of the view starts there and shows it. */
  ghost predicate Inside(s: State, ch: nat) {
    && (s.got ==> s.chunk.start <= s.scan.cur)
    && (s.worker.Testing? || s.worker.Waiting? ==>
          s.worker.call.FetchUpTo? && ch in s.worker.call.channels && s.worker.call.max > 0)
    && (s.worker.Reading? ==> s.worker.view.start == s.scan.cur && ViewShows(s.chunk, s.worker.view, ch))
  }

  lemma LevelsJoin(c: Chunk, ch: nat, a: nat, b: nat, d: nat)
    requires a <= b <= d
    ensures Levels(c, ch, a, b) + Levels(c, ch, b, d) == Levels(c, ch, a, d)
  {
  }

  lemma {:induction false} CaptureOn(chunks: seq<Chunk>, c: Chunk, ch: nat)
    ensures Capture(chunks + [c], ch) == Capture(chunks, ch) + Levels(c, ch, c.start, c.end)
    decreases |chunks|
  {
    hide Levels;
    if chunks == [] {
      assert (chunks + [c])[1..] == [];
    } else {
      CaptureOn(chunks[1..], c, ch);
      assert (chunks + [c])[1..] == chunks[1..] + [c];
    }
  }

  /** What a consume of n samples of the view leaves. */
  lemma {:induction false} ConsumeLeaves(s: State, n: U64, ch: nat)
    requires Inv(s) && !s.term && Ordered(s) && Inside(s, ch) && Can(s, Consume(n)) && Reads(s, Consume(n), ch)
    ensures var s1, cur := Step(s, Consume(n)), s.scan.cur;
            && s.got && s.worker.view.start == cur && ViewShows(s.chunk, s.worker.view, ch) && n <= s.worker.view.count
            && s.chunk.start <= cur && cur + n <= s.chunk.end
            && (if n > 0 && cur + n == s.chunk.end then !s1.got && s1.released == s.released + [s.chunk] && s1.worker == Running
                else
                  && s1.got && s1.chunk == s.chunk && s1.released == s.released && s1.scan.cur == cur + n
                  && s1.worker == Reading(if n > 0 then s.worker.view.Rest(n) else s.worker.view))
  {
    hide ViewShows, Consecutive;
    ViewWithin(s.chunk, s.worker.view, ch);
  }

  /** The entries taken follow on what was given before. */
  lemma {:induction false} TakenJoins(s: State, n: U64, ch: nat)
    requires s.got && s.worker.Reading? && s.worker.view.start == s.scan.cur && ViewShows(s.chunk, s.worker.view, ch)
    requires n <= s.worker.view.count && s.chunk.start <= s.scan.cur
    ensures Given(s, ch) + Taken(s, Consume(n), ch)
         == Capture(s.released, ch) + Levels(s.chunk, ch, s.chunk.start, s.scan.cur + n)
  {
    hide Levels, Capture, Entries, ViewShows;
    var cur := s.scan.cur;
    RestShows(s.chunk, s.worker.view, ch, n);
    LevelsJoin(s.chunk, ch, s.chunk.start, cur, cur + n);
    var a, b, d := Capture(s.released, ch), Levels(s.chunk, ch, s.chunk.start, cur), Levels(s.chunk, ch, cur, cur + n);
    assert (a + b) + d == a + (b + d);
  }

  /** What was given then. */
  lemma {:induction false} GivenThen(s: State, s1: State, to: nat, ch: nat)
    requires if s1.got then s1.released == s.released && s1.chunk == s.chunk && s1.scan.cur == to
             else s1.released == s.released + [s.chunk] && to == s.chunk.end
    ensures Given(s1, ch) == Capture(s.released, ch) + Levels(s.chunk, ch, s.chunk.start, to)
  {
    hide Levels, Capture;
    if !s1.got {
      CaptureOn(s.released, s.chunk, ch);
      assert Capture(s1.released, ch) + [] == Capture(s1.released, ch);
    }
  }

  lemma {:induction false} ConsumeGives(s: State, n: U64, ch: nat)
    requires Inv(s) && !s.term && Ordered(s) && Inside(s, ch) && Can(s, Consume(n)) && Reads(s, Consume(n), ch)
    ensures var s1 := Step(s, Consume(n)); Inside(s1, ch) && Given(s1, ch) == Given(s, ch) + Taken(s, Consume(n), ch)
  {
    ConsumeLeaves(s, n, ch);
    hide Given, Taken, ViewShows, Step, Inv, Ordered;
    TakenJoins(s, n, ch);
    GivenThen(s, Step(s, Consume(n)), s.scan.cur + n, ch);
    RestShows(s.chunk, s.worker.view, ch, n);
  }

  lemma ViewWithin(c: Chunk, v: View, ch: nat)
    requires ViewShows(c, v, ch)
    ensures v.start + v.count <= c.end
  {
  }

  lemma NothingTaken(s: State, a: Action, ch: nat)
    requires !a.Consume?
    ensures Taken(s, a, ch) == [] && Given(s, ch) + Taken(s, a, ch) == Given(s, ch)
  {
  }

  lemma {:induction false} TestGives(s: State, ch: nat)
    requires Inv(s) && !s.term && Ordered(s) && Inside(s, ch) && Can(s, Test)
    ensures var s1 := Step(s, Test); Inside(s1, ch) && Given(s1, ch) == Given(s, ch)
  {
    hide Levels, Capture, Consecutive, Fetched, ViewShows;
    if s.got {
      FetchedShows(s.chunk, s.scan.cur, s.worker.call.channels, s.worker.call.max, ch);
    }
  }

  lemma {:induction false} FeedGives(s: State, c: Chunk, len: nat, ch: nat)
    requires Inv(s) && !s.term && Ordered(s) && Inside(s, ch) && Can(s, Feed(c, len)) && FeedsSamples(Feed(c, len))
    ensures var s1 := Step(s, Feed(c, len)); Inside(s1, ch) && Given(s1, ch) == Given(s, ch)
  {
    hide Levels, Capture, Consecutive, ViewShows;
    NoLevels(c, ch, c.start);
  }

  lemma {:induction false} OtherGives(s: State, a: Action, ch: nat)
    requires Inv(s) && !s.term && Ordered(s) && Inside(s, ch) && Can(s, a) && Reads(s, a, ch)
    requires !a.Consume? && !a.Test? && !a.Feed?
    ensures var s1 := Step(s, a); (!s1.term ==> Inside(s1, ch)) && Given(s1, ch) == Given(s, ch) + Taken(s, a, ch)
  {
    hide Levels, Capture, Consecutive, ViewShows;
    NothingTaken(s, a, ch);
  }

  lemma NoLevels(c: Chunk, ch: nat, t: nat)
    ensures Levels(c, ch, t, t) == []
  {
  }

  lemma {:induction false} TermStays(s: State, actions: seq<Action>, ch: nat)
    requires Inv(s) && s.term && Legal(s, actions) && AllRead(s, actions, ch)
    ensures After(s, actions).term
    decreases |actions|
  {
    hide FindMatch;
    if actions != [] {
      StepKeepsInv(s, actions[0]);
      TermStays(Step(s, actions[0]), actions[1..], ch);
    }
  }

  lemma {:induction false} StepGives(s: State, a: Action, ch: nat)
    requires Inv(s) && !s.term && Ordered(s) && Inside(s, ch) && Can(s, a) && Reads(s, a, ch)
    ensures var s1 := Step(s, a);
            Inv(s1) && (s1.term || (Ordered(s1) && Inside(s1, ch))) && Given(s1, ch) == Given(s, ch) + Taken(s, a, ch)
  {
    FetchesOnly(s, a, ch);
    hide Step, Inv, Inside, Given, Ordered, MatchesInside, ConsumesSeen;
    StepKeepsInv(s, a);
    StepKeepsOrder(s, a);
    match a
    case Consume(n) => ConsumeGives(s, n, ch);
    case Test => TestGives(s, ch); NothingTaken(s, a, ch);
    case Feed(c, len) => FeedGives(s, c, len, ch); NothingTaken(s, a, ch);
    case _ => OtherGives(s, a, ch);
  }

  lemma FetchesOnly(s: State, a: Action, ch: nat)
    requires Inside(s, ch) && Ordered(s) && Reads(s, a, ch)
    ensures MatchesInside(s, a) && ConsumesSeen(s, a)
  {
    hide FindMatch;
  }

  lemma {:induction false} RunGives(s: State, actions: seq<Action>, ch: nat)
    requires Inv(s) && !s.term && Ordered(s) && Inside(s, ch) && Legal(s, actions) && AllRead(s, actions, ch)
    ensures var r := After(s, actions);
            !r.term ==> Given(r, ch) == Given(s, ch) + Consumed(s, actions, ch) && Inv(r) && Ordered(r)
    decreases |actions|
  {
    hide Step, Inv, Inside, Given, Taken, Ordered, Can, Reads;
    if actions == [] {
      assert Given(s, ch) + [] == Given(s, ch);
    } else {
      var a, rest := actions[0], actions[1..];
      StepGives(s, a, ch);
      var s1 := Step(s, a);
      if s1.term {
        TermStays(s1, rest, ch);
      } else {
        RunGives(s1, rest, ch);
        var x, y, z := Given(s, ch), Taken(s, a, ch), Consumed(s1, rest, ch);
        assert (x + y) + z == x + (y + z);
      }
    }
  }

  /** Whatever the chunks, the request sizes and the interleaving: as long as no termination is
      requested, what a decoder reads of a channel in the views it fetches and consumes are the channel's
      levels, once and in order: all of the chunks handed back and then the chunk at hand up to the scan
      position; and a chunk is handed back as soon as its last sample is consumed. */
  lemma {:induction false} Conserved(begin: Start, actions: seq<Action>, s: State, ch: nat)
    requires Reached(begin, actions, s) && AllRead(Initial(begin), actions, ch) && !s.term
    ensures Consumed(Initial(begin), actions, ch)
         == Capture(s.released, ch) + if s.got then Levels(s.chunk, ch, s.chunk.start, s.scan.cur) else []
    ensures s.got ==> s.scan.cur < s.chunk.end
    ensures !s.got ==> s.released == s.fed
  {
    hide Levels, Capture, Legal, After, Consumed, AllRead, Consecutive;
    StartsInOrder(begin);
    RunGives(Initial(begin), actions, ch);
    var given := Consumed(Initial(begin), actions, ch);
    assert Capture([], ch) == [] by { NoCapture(ch); }
    assert [] + given == given;
  }

  lemma NoCapture(ch: nat)
    ensures Capture([], ch) == []
  {
  }

  lemma {:induction false} CaptureTiles(chunks: seq<Chunk>, w: Chunk, ch: nat)
    requires Tiles(chunks, w)
    ensures Capture(chunks, ch) == Levels(w, ch, chunks[0].start, w.end)
    decreases |chunks|
  {
    var c := chunks[0];
    assert Levels(c, ch, c.start, c.end) == Levels(w, ch, c.start, c.end);
    if |chunks| == 1 {
      assert Capture(chunks[1..], ch) == [];
    } else {
      assert Shows(chunks[1..][0], w);
      CaptureTiles(chunks[1..], w, ch);
      LevelsJoin(w, ch, c.start, c.end, w.end);
    }
  }

  /** A run of fetches that has used up its samples, which are those of the capture w. */
  ghost predicate UsedUp(begin: Start, actions: seq<Action>, s: State, w: Chunk, ch: nat) {
    && Reached(begin, actions, s) && AllRead(Initial(begin), actions, ch)
    && !s.term && !s.got && Tiles(s.fed, w) && s.fed[0].start == w.start
  }

  /** Two runs over the same capture, however cut, requested and interleaved, consume the same. */
  lemma {:induction false} CutsDoNotMatter(w: Chunk, ch: nat,
      begin1: Start, actions1: seq<Action>, s1: State, begin2: Start, actions2: seq<Action>, s2: State)
    requires UsedUp(begin1, actions1, s1, w, ch) && UsedUp(begin2, actions2, s2, w, ch)
    ensures Consumed(Initial(begin1), actions1, ch) == Consumed(Initial(begin2), actions2, ch) == Levels(w, ch, w.start, w.end)
  {
    hide Levels, Capture, Legal, After, Consumed, AllRead, Tiles;
    Conserved(begin1, actions1, s1, ch);
    Conserved(begin2, actions2, s2, ch);
    CaptureTiles(s1.fed, w, ch);
    CaptureTiles(s2.fed, w, ch);
  }
}
