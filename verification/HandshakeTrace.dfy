/** The threads' interleaving does not change what a waiting decoder sees: its events are those of the
    sequential run over the accepted chunks. */
module HandshakeTrace {
  import opened Scanner
  import opened ScannerChunks
  import opened ScannerSpec
  import opened ScannerJump
  import opened ScannerRun
  import opened Handshake
  import opened HandshakeOrder

  // ----- A waiting decoder -----

  /** The decoder only waits, each time for what it asks for after the events it has seen; the
      instance is not reset. */
  predicate Follows(next: Decoder, s: State, a: Action) {
    !a.Join? && !a.Consume? && FeedsSamples(a) && (a.Ask? ==> a.call == WaitFor(next(s.events)))
  }

  predicate AllFollow(next: Decoder, s: State, actions: seq<Action>)
    requires Legal(s, actions)
    decreases |actions|
  {
    actions == [] || (Follows(next, s, actions[0]) && AllFollow(next, Step(s, actions[0]), actions[1..]))
  }

  ghost predicate CalmAfter(next: Decoder, seen: seq<Event>) {
    ZeroSkipAlone(next(seen))
  }

  ghost predicate AlwaysCalm(next: Decoder) {
    forall seen :: CalmAfter(next, seen)
  }

  /** The rest of a run whose next wait has already begun. */
  function Resume(next: Decoder, seen: seq<Event>, n: nat, st: Scan, chunks: seq<Chunk>): seq<Event> {
    if n == 0 then []
    else
      match Wait(true, st, chunks)
      case Blocked => []
      case Hit(st1, rest) =>
        var e := EventOf(st1, rest[0]);
        [e] + Run(true, next, seen + [e], n - 1, st1, rest)
  }

  predicate MidWait(s: State) {
    s.worker.Testing? || s.worker.Waiting?
  }

  /** What the decoder will see in n more waits, were the chunks in more fed after those already
      accepted. */
  function Future(next: Decoder, s: State, n: nat, more: seq<Chunk>): seq<Event> {
    if MidWait(s) then Resume(next, s.events, n, s.scan, Held(s) + more)
    else Run(true, next, s.events, n, s.scan, Held(s) + more)
  }

  /** The scan a run over the chunks starts from. */
  function Begun(init: Scan, chunks: seq<Chunk>): Scan {
    if chunks == [] then init else init.(cur := chunks[0].start)
  }

  /** Past and future together are the run over all chunks, past and future. */
  ghost predicate Traced(next: Decoder, init: Scan, s: State, more: seq<Chunk>, n: nat) {
    n >= |s.events| ==>
      Run(true, next, [], n, Begun(init, s.fed + more), s.fed + more) == s.events + Future(next, s, n - |s.events|, more)
  }

  ghost predicate Past(next: Decoder, init: Scan, s: State, more: seq<Chunk>) {
    Run(true, next, [], |s.events|, Begun(init, s.fed + more), s.fed + more) == s.events
  }

  /** The worker makes no use of packed samples. */
  ghost predicate OnlyWaits(s: State) {
    !s.worker.Reading? && (MidWait(s) ==> s.worker.call.WaitFor?)
  }

  ghost predicate Tracks(next: Decoder, init: Scan, s: State) {
    && OnlyWaits(s)
    && (if s.fed == [] then s.events == [] && s.worker.NoThread? && !s.got && init.first && s.scan == init.(cur := s.scan.cur)
        else if s.term then forall more: seq<Chunk> :: Past(next, init, s, more)
        else forall more: seq<Chunk>, n: nat :: Traced(next, init, s, more, n))
  }

  // ----- One step -----

  lemma {:induction false} FeedTracks(next: Decoder, init: Scan, s: State, c: Chunk, len: nat)
    requires Inv(s) && !s.term && Ordered(s) && Can(s, Feed(c, len)) && Tracks(next, init, s)
    ensures Tracks(next, init, Step(s, Feed(c, len)))
  {
    hide Run, Resume, Consecutive;
    var s1 := Step(s, Feed(c, len));
    if s1.fed != s.fed {
      assert s1.fed == s.fed + [c] && s.producer.Outside? && Held(s) == [] && Held(s1) == [c];
      forall more: seq<Chunk>, n: nat ensures Traced(next, init, s1, more, n) {
        assert s.fed + ([c] + more) == s1.fed + more;
        assert Held(s) + ([c] + more) == Held(s1) + more;
        if s.fed != [] {
          assert Traced(next, init, s, [c] + more, n);
        } else {
          assert s1.scan == init.(cur := c.start) && s1.fed + more == [c] + more;
          assert [] + Future(next, s1, n, more) == Future(next, s1, n, more);
        }
      }
    }
  }

  lemma {:induction false} RunResumes(next: Decoder, seen: seq<Event>, n: nat, st: Scan, chunks: seq<Chunk>)
    ensures Run(true, next, seen, n, st, chunks) == Resume(next, seen, n, Install(st, next(seen)), chunks)
  {
    hide Wait, Install, EventOf;
  }

  lemma {:induction false} AskTracks(next: Decoder, init: Scan, s: State, a: Action)
    requires Inv(s) && Can(s, a) && a.Ask? && Tracks(next, init, s) && Follows(next, s, a)
    ensures Tracks(next, init, Step(s, a))
  {
    hide Run, Resume, Install;
    var s1 := Step(s, a);
    if s.term {
      forall more: seq<Chunk> ensures Past(next, init, s1, more) {
        assert Past(next, init, s, more);
      }
    } else {
      forall more: seq<Chunk>, n: nat ensures Traced(next, init, s1, more, n) {
        assert Traced(next, init, s, more, n);
        if n >= |s.events| {
          RunResumes(next, s.events, n - |s.events|, s.scan, Held(s) + more);
        }
      }
    }
  }

  /** A wait on a held chunk, after its first scan. */
  lemma {:induction false} WaitUnfolds(st: Scan, c: Chunk, more: seq<Chunk>)
    ensures var (st1, found) := FindMatch(true, c, st);
            Wait(true, st, [c] + more) == if found then Hit(st1.(first := false), [c] + more) else Wait(true, st1, more)
  {
    hide FindMatch;
    assert ([c] + more)[1..] == more;
  }

  lemma {:induction false} ScanTraced(next: Decoder, init: Scan, s: State, more: seq<Chunk>, n: nat)
    requires s.got && MidWait(s) && Traced(next, init, s, more, n)
    ensures Traced(next, init, StepScan(s), more, n)
  {
    hide Run, Resume, Begun, FindMatch, Faults, EventOf;
    if Faults(s.chunk, s.scan) {
      assert Future(next, StepScan(s), n, more) == Future(next, s, n, more);
    } else if FindMatch(true, s.chunk, s.scan).1 {
      HitTraced(next, init, s, more, n);
    } else {
      ReleaseTraced(next, init, s, more, n);
    }
  }

  lemma HitStep(s: State)
    requires FindMatch(true, s.chunk, s.scan).1 && !Faults(s.chunk, s.scan)
    ensures var st, s1 := FindMatch(true, s.chunk, s.scan).0, StepScan(s);
            && s1.events == s.events + [EventOf(st, s.chunk)] && s1.scan == st.(first := false)
            && s1.fed == s.fed && s1.got == s.got && s1.chunk == s.chunk && s1.worker == Running
  {
    hide FindMatch, Faults, EventOf;
  }

  /** The match becomes part of the past, and the future goes on behind it. */
  lemma {:induction false} HitFuture(next: Decoder, s: State, more: seq<Chunk>, n: nat)
    requires s.got && MidWait(s) && FindMatch(true, s.chunk, s.scan).1 && !Faults(s.chunk, s.scan) && n > 0
    ensures var st, s1 := FindMatch(true, s.chunk, s.scan).0, StepScan(s);
            Future(next, s, n, more) == [EventOf(st, s.chunk)] + Future(next, s1, n - 1, more)
  {
    HitStep(s);
    hide Run, Wait, FindMatch, EventOf, Faults, StepScan;
    var st := FindMatch(true, s.chunk, s.scan).0;
    WaitUnfolds(s.scan, s.chunk, more);
    EventIgnoresFirst(st, s.chunk);
  }

  lemma HitKeeps(s: State)
    requires FindMatch(true, s.chunk, s.scan).1 && !Faults(s.chunk, s.scan)
    ensures StepScan(s).fed == s.fed && StepScan(s).events == s.events + [EventOf(FindMatch(true, s.chunk, s.scan).0, s.chunk)]
  {
    hide FindMatch, Faults, EventOf;
  }

  lemma {:induction false} HitTraced(next: Decoder, init: Scan, s: State, more: seq<Chunk>, n: nat)
    requires s.got && MidWait(s) && Traced(next, init, s, more, n)
    requires FindMatch(true, s.chunk, s.scan).1 && !Faults(s.chunk, s.scan)
    ensures Traced(next, init, StepScan(s), more, n)
  {
    hide Run, FindMatch, EventOf, Begun, Faults, StepScan, Future, MidWait;
    HitKeeps(s);
    var s1 := StepScan(s);
    if n >= |s1.events| {
      var k := n - |s1.events|;
      HitFuture(next, s, more, k + 1);
      var e := EventOf(FindMatch(true, s.chunk, s.scan).0, s.chunk);
      Regroup(s.events, e, Future(next, s1, k, more));
    }
  }

  lemma Regroup(a: seq<Event>, e: Event, b: seq<Event>)
    ensures a + ([e] + b) == (a + [e]) + b
  {
  }

  lemma {:induction false} ReleaseTraced(next: Decoder, init: Scan, s: State, more: seq<Chunk>, n: nat)
    requires s.got && MidWait(s) && Traced(next, init, s, more, n)
    requires !FindMatch(true, s.chunk, s.scan).1 && !Faults(s.chunk, s.scan)
    ensures Traced(next, init, StepScan(s), more, n)
  {
    hide Run, Wait, FindMatch, EventOf, Begun, Faults;
    WaitUnfolds(s.scan, s.chunk, more);
    assert Held(StepScan(s)) + more == more;
  }

  lemma EventIgnoresFirst(st: Scan, c: Chunk)
    ensures EventOf(st.(first := false), c) == EventOf(st, c)
  {
  }

  lemma {:induction false} TestTracks(next: Decoder, init: Scan, s: State)
    requires Inv(s) && Can(s, Test) && Tracks(next, init, s)
    ensures Tracks(next, init, Step(s, Test))
  {
    hide Run, Resume, Install, FindMatch, EventOf, Begun;
    var s1 := Step(s, Test);
    if s.term {
      forall more: seq<Chunk> ensures Past(next, init, s1, more) {
        assert Past(next, init, s, more);
      }
    } else {
      forall more: seq<Chunk>, n: nat ensures Traced(next, init, s1, more, n) {
        assert Traced(next, init, s, more, n);
        if s.got { ScanTraced(next, init, s, more, n); }
      }
    }
  }

  /** The other steps leave past and future as they are; a request to terminate keeps the past. */
  lemma {:induction false} OtherTracks(next: Decoder, init: Scan, s: State, a: Action)
    requires Inv(s) && Can(s, a) && Tracks(next, init, s) && Follows(next, s, a)
    requires !a.Feed? && !a.Ask? && !a.Test?
    ensures Tracks(next, init, Step(s, a))
  {
    hide Run, Resume, Install, FindMatch, EventOf, Begun;
    var s1 := Step(s, a);
    if s.term {
      forall more: seq<Chunk> ensures Past(next, init, s1, more) {
        assert Past(next, init, s, more);
      }
    } else if s1.term {
      forall more: seq<Chunk> ensures Past(next, init, s1, more) {
        assert Traced(next, init, s, more, |s.events|);
        NothingMore(next, s, more);
      }
    } else if s.fed != [] {
      forall more: seq<Chunk>, n: nat ensures Traced(next, init, s1, more, n) {
        assert Traced(next, init, s, more, n);
      }
    }
  }

  lemma NothingMore(next: Decoder, s: State, more: seq<Chunk>)
    ensures s.events + Future(next, s, 0, more) == s.events
  {
  }

  lemma {:induction false} LateFeedTracks(next: Decoder, init: Scan, s: State, c: Chunk, len: nat)
    requires Inv(s) && s.term && Can(s, Feed(c, len)) && Tracks(next, init, s)
    ensures Tracks(next, init, Step(s, Feed(c, len)))
  {
    hide Run, Resume, FindMatch;
    var s1 := Step(s, Feed(c, len));
    forall more: seq<Chunk> ensures Past(next, init, s1, more) {
      assert s1.fed != s.fed ==> s.fed + ([c] + more) == s1.fed + more;
      assert Past(next, init, s, [c] + more) && Past(next, init, s, more);
    }
  }

  lemma {:induction false} StepTracks(next: Decoder, init: Scan, s: State, a: Action)
    requires Inv(s) && (s.term || Ordered(s)) && Can(s, a) && Tracks(next, init, s) && Follows(next, s, a)
    ensures Tracks(next, init, Step(s, a))
  {
    hide Inv, Ordered, Tracks, Step, Follows;
    match a
    case Feed(c, len) => if s.term { LateFeedTracks(next, init, s, c, len); } else { FeedTracks(next, init, s, c, len); }
    case Ask(call) => AskTracks(next, init, s, a);
    case Test => TestTracks(next, init, s);
    case _ => OtherTracks(next, init, s, a);
  }

  lemma {:induction false} FollowerCalm(next: Decoder, s: State, a: Action)
    requires AlwaysCalm(next) && Follows(next, s, a)
    ensures AsksCalmly(a) && FeedsSamples(a) && ConsumesSeen(s, a)
  {
    hide ZeroSkipAlone;
    assert CalmAfter(next, s.events);
  }

  lemma {:induction false} RunTracks(next: Decoder, init: Scan, s: State, actions: seq<Action>)
    requires Inv(s) && (s.term || (Ordered(s) && Calm(s.scan))) && Tracks(next, init, s) && AlwaysCalm(next)
    requires Legal(s, actions) && AllFollow(next, s, actions)
    ensures var r := After(s, actions); Inv(r) && Tracks(next, init, r)
    decreases |actions|
  {
    hide Inv, Ordered, Calm, Tracks, Step, Follows, AlwaysCalm, Can, MatchesInside, AsksCalmly, FeedsSamples, ConsumesSeen;
    if actions != [] {
      FollowerCalm(next, s, actions[0]);
      CalmMatchesInside(s, actions[0]);
      StepKeepsInv(s, actions[0]);
      StepKeepsOrder(s, actions[0]);
      StepTracks(next, init, s, actions[0]);
      RunTracks(next, init, Step(s, actions[0]), actions[1..]);
    }
  }

  lemma {:induction false} BeginTracks(next: Decoder, begin: Start)
    ensures Inv(Initial(begin)) && Ordered(Initial(begin)) && Calm(Initial(begin).scan) && Tracks(next, Initial(begin).scan, Initial(begin))
  {
  }

  // ----- The trace -----

  /** A state reached by a waiting decoder. */
  ghost predicate Waited(next: Decoder, begin: Start, actions: seq<Action>, s: State) {
    && AlwaysCalm(next) && Reached(begin, actions, s) && AllFollow(next, Initial(begin), actions)
  }

  /** Whatever the interleaving, the matches reported so far are those of the sequential run over the
      chunks accepted so far; and when the worker waits for samples, they are all of them. */
  lemma {:induction false} TraceIsRun(next: Decoder, begin: Start, actions: seq<Action>, s: State, n: nat)
    requires Waited(next, begin, actions, s)
    ensures var st := Begun(Initial(begin).scan, s.fed);
            && s.events == Run(true, next, [], |s.events|, st, s.fed)
            && (s.worker.Waiting? && n >= |s.events| ==> Run(true, next, [], n, st, s.fed) == s.events)
  {
    hide Run, Resume, Step, Ordered, Calm;
    BeginTracks(next, begin);
    RunTracks(next, Initial(begin).scan, Initial(begin), actions);
    assert s.fed + [] == s.fed;
    if s.fed == [] {
      NoWaits(next, Begun(Initial(begin).scan, s.fed), s.fed);
    } else if s.term {
      assert Past(next, Initial(begin).scan, s, []);
    } else {
      assert Traced(next, Initial(begin).scan, s, [], |s.events|);
      assert Traced(next, Initial(begin).scan, s, [], n);
      NothingMore(next, s, []);
      if s.worker.Waiting? && n >= |s.events| { NothingHeld(next, s, n); }
    }
  }

  lemma NoWaits(next: Decoder, st: Scan, chunks: seq<Chunk>)
    ensures Run(true, next, [], 0, st, chunks) == []
  {
  }

  lemma NothingHeld(next: Decoder, s: State, n: nat)
    requires s.worker.Waiting? && !s.got && n >= |s.events|
    ensures s.events + Future(next, s, n - |s.events|, []) == s.events
  {
  }

  /** Two instances fed with the same capture, cut and handed over and interleaved in any two ways:
      when both have used up their samples, their decoders have seen the same. */
  lemma {:induction false} InterleavingIndependence(next: Decoder, begin: Start, w: Chunk, n: nat,
      actions1: seq<Action>, s1: State, actions2: seq<Action>, s2: State)
    requires AsksWell(next) && n >= |s1.events| && n >= |s2.events|
    requires Waited(next, begin, actions1, s1) && s1.worker.Waiting?
    requires Waited(next, begin, actions2, s2) && s2.worker.Waiting?
    requires var st := Initial(begin).scan.(cur := w.start); var trace := Run(false, next, [], n, st, [w]);
             && Tiles(s1.fed, w) && s1.fed[0].start == w.start && OffCuts(trace, n, s1.fed)
             && Tiles(s2.fed, w) && s2.fed[0].start == w.start && OffCuts(trace, n, s2.fed)
    requires AlwaysJumpSafe(next, s1.fed, |begin.pins|) && AlwaysJumpSafe(next, s2.fed, |begin.pins|)
    ensures s1.events == s2.events == Run(false, next, [], n, Initial(begin).scan.(cur := w.start), [w])
  {
    hide Run, Waited, AsksWell, AlwaysJumpSafe, OffCuts;
    var st := Initial(begin).scan.(cur := w.start);
    TraceIsRun(next, begin, actions1, s1, n);
    TraceIsRun(next, begin, actions2, s2, n);
    CodeChunkIndependence(next, n, st, s1.fed, s2.fed, w);
  }

  /** An instance that has used up the samples of the capture w. */
  ghost predicate UsedUp(next: Decoder, begin: Start, w: Chunk, actions: seq<Action>, s: State) {
    && Waited(next, begin, actions, s) && s.worker.Waiting?
    && Tiles(s.fed, w) && s.fed[0].start == w.start && HasChannels(w, |begin.pins|)
    && AlwaysJumpSafe(next, s.fed, |begin.pins|)
  }

  /** The place of its first wait. */
  function FirstPlace(begin: Start, w: Chunk): Place {
    StartPlace(Initial(begin).scan.(cur := w.start))
  }

  /** From the levels of the capture and the cuts alone: an instance that has used up its samples has
      reported, for every wait of its decoder, the least later sample at which a group holds, with all the
      groups that hold there and the levels there, whatever the constant channels and the interleaving;
      behind a match in front of a cut, the samples that LostAt counts are as if they had not been
      captured. */
  lemma {:induction false} ReportsAreIdeal(next: Decoder, begin: Start, w: Chunk, n: nat, actions: seq<Action>, s: State)
    requires AsksSimply(next) && UsedUp(next, begin, w, actions, s) && n >= |s.events|
    ensures s.events == Ideal(next, [], n, w, s.fed, FirstPlace(begin, w))
  {
    hide Run, Waited, AsksSimply, AlwaysJumpSafe, Ideal, HasChannels;
    TraceIsRun(next, begin, actions, s, n);
    CodeIsIdeal(next, n, Initial(begin).scan.(cur := w.start), s.fed, w);
  }

  /** From the levels alone, while no wait that another one follows returns in front of a cut. */
  lemma {:induction false} UncutReports(next: Decoder, begin: Start, w: Chunk, n: nat, actions: seq<Action>, s: State)
    requires AsksSimply(next) && UsedUp(next, begin, w, actions, s) && n >= |s.events|
    requires OffCuts(Ideal(next, [], n, w, [w], FirstPlace(begin, w)), n, s.fed)
    ensures s.events == Ideal(next, [], n, w, [w], FirstPlace(begin, w))
  {
    hide Run, Waited, AsksSimply, AlwaysJumpSafe, OffCuts, Ideal, HasChannels, Tiles;
    ReportsAreIdeal(next, begin, w, n, actions, s);
    CutsUnseen(next, [], n, w, s.fed, FirstPlace(begin, w));
  }
}
