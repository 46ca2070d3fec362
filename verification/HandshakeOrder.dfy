/** Without a request to terminate, chunks are accepted and released consecutively. */
module HandshakeOrder {
  import opened Scanner
  import opened ScannerChunks
  import opened Handshake

  // ----- A scan of a chunk ends in the chunk or at its end -----

  /** The 64-bit steps: behind the last number comes 0, in front of 0 the last, and they undo each other. */
  lemma StepsWrap(x: U64)
    ensures Inc(0xFFFF_FFFF_FFFF_FFFF) == 0 && Dec(0) == 0xFFFF_FFFF_FFFF_FFFF
    ensures Inc(Dec(x)) == x && Dec(Inc(x)) == x
    ensures x < 0xFFFF_FFFF_FFFF_FFFF ==> Inc(x) == x + 1
  {
  }

  lemma {:induction false} TermsKeepZero(c: Chunk, st: Scan, zero: bool, g: Group, k: nat, skip: bool)
    requires k <= |g| && NoZeroSkip(g)
    ensures TermsFrom(c, st, zero, g, k, skip).zero == zero && NoZeroSkip(TermsFrom(c, st, zero, g, k, skip).group)
    decreases |g| - k
  {
    if k < |g| {
      assert !IsZeroSkip(g[k]);
      var r := TermAt(c, st, zero, g[k]);
      assert NoZeroSkip(g[k := r.term]);
      if r.ok { TermsKeepZero(c, st, r.zero, g[k := r.term], k + 1, r.skip); }
    }
  }

  /** No group from j on steps back from sample 0. */
  ghost predicate CanStepBack(st: Scan, j: nat) {
    st.matched && st.cur == 0 ==> forall i :: j <= i < |st.groups| ==> st.groups[i] != ZERO_SKIP
  }

  ghost predicate Calm(st: Scan) {
    !st.zero && ZeroSkipAlone(st.groups)
  }

  lemma {:induction false} GroupBound(c: Chunk, st: Scan, j: nat)
    requires Calm(st) && j < |st.groups| && CanStepBack(st, j)
    ensures var r := GroupAt(c, st, j).0; Calm(r) && r.cur <= st.cur && CanStepBack(r, j + 1)
  {
    if st.groups[j] == ZERO_SKIP {
      ZeroSkipSteps(c, st, j);
    } else {
      TermsKeepZero(c, st, st.zero, st.groups[j], 0, false);
      var g := TermsFrom(c, st, st.zero, st.groups[j], 0, false).group;
      assert g != ZERO_SKIP by {
        assert NoZeroSkip(g) && !NoZeroSkip(ZERO_SKIP) by { assert IsZeroSkip(ZERO_SKIP[0]); }
      }
    }
  }

  lemma {:induction false} GroupsBound(c: Chunk, st: Scan, j: nat, skip: bool)
    requires Calm(st) && j <= |st.groups| && CanStepBack(st, j)
    ensures var r := GroupsFrom(c, st, j, skip).0; Calm(r) && r.cur <= st.cur
    decreases |st.groups| - j
  {
    hide Calm, CanStepBack;
    if j < |st.groups| {
      GroupBound(c, st, j);
      var (st1, skip1) := GroupAt(c, st, j);
      GroupsBound(c, st1, j + 1, skip && skip1);
    }
  }

  lemma {:induction false} LoopBound(jump: bool, c: Chunk, st: Scan, skip: bool)
    requires Calm(st) && (st.matched ==> st.cur > 0) && st.cur <= c.end
    ensures var (r, found) := ScanLoop(jump, c, st, skip); Calm(r) && (found ==> r.cur < c.end)
    decreases if st.cur < c.end then c.end - st.cur else 0
  {
    if st.cur < c.end {
      GroupsBound(c, st, 0, skip);
      var (st1, skip1) := Sample(c, st, skip);
      if !st1.matched {
        LoopBound(jump, c, st1.(cur := if jump && skip1 then c.end else Inc(st1.cur)), skip1);
      }
    }
  }

  lemma {:induction false} FindMatchBound(c: Chunk, st: Scan)
    requires Calm(st) && st.cur < c.end
    ensures var (r, found) := FindMatch(true, c, st);
            Calm(r) && (if found then r.cur < c.end else r.cur == c.end && !r.first)
  {
    if HaveConditions(st.groups) {
      RestartKeepsZeroSkips(st.groups);
      LoopBound(true, c, Enter(c, st), true);
    }
  }

  // ----- The order of the chunks -----

  /** Chunk i is not empty and starts where the one before it ended. */
  ghost predicate Joins(fed: seq<Chunk>, i: nat)
    requires i < |fed|
  {
    fed[i].start < fed[i].end && (i > 0 ==> fed[i].start == fed[i - 1].end)
  }

  ghost predicate Consecutive(fed: seq<Chunk>) {
    forall i :: 0 <= i < |fed| ==> Joins(fed, i)
  }

  lemma {:induction false} ConsecutiveOn(fed: seq<Chunk>, c: Chunk)
    requires Consecutive(fed) && c.start < c.end && (fed != [] ==> fed[|fed| - 1].end == c.start)
    ensures Consecutive(fed + [c])
  {
    forall i | 0 <= i <= |fed| ensures Joins(fed + [c], i) {
      assert i < |fed| ==> Joins(fed, i);
    }
  }

  ghost predicate Ordered(s: State) {
    && Consecutive(s.fed)
    && (s.got ==> s.fed != [] && s.chunk == s.fed[|s.fed| - 1] && s.scan.cur < s.chunk.end)
    && (s.fed != [] && !s.got ==> !s.scan.first && s.scan.cur == s.fed[|s.fed| - 1].end)
    && (s.worker.Reading? ==> !s.scan.first)
  }

  /** No chunk without samples is fed as a buffer that has a length. */
  predicate FeedsSamples(a: Action) {
    a.Feed? && a.len > 0 ==> a.c.start != a.c.end
  }

  /** A match is reported below the end of its chunk. */
  predicate MatchesInside(s: State, a: Action) {
    a.Test? && s.worker.Testing? && s.worker.call.WaitFor? && s.got && !s.term ==>
      var (st, found) := FindMatch(true, s.chunk, s.scan);
      found ==> st.cur < s.chunk.end
  }

  /** Nothing is consumed before the first wait or fetch that has samples. */
  predicate ConsumesSeen(s: State, a: Action) {
    a.Consume? && a.n > 0 && s.got ==> !s.scan.first
  }

  predicate AllInside(s: State, actions: seq<Action>)
    requires Legal(s, actions)
    decreases |actions|
  {
    actions == [] || (&& FeedsSamples(actions[0]) && MatchesInside(s, actions[0]) && ConsumesSeen(s, actions[0])
                      && AllInside(Step(s, actions[0]), actions[1..]))
  }

  lemma {:induction false} FeedKeepsOrder(s: State, c: Chunk, len: nat)
    requires Inv(s) && !s.term && Ordered(s) && Can(s, Feed(c, len)) && FeedsSamples(Feed(c, len))
    ensures Ordered(Step(s, Feed(c, len)))
  {
    hide Consecutive;
    if c.start < c.end && (s.fed != [] ==> s.fed[|s.fed| - 1].end == c.start) {
      ConsecutiveOn(s.fed, c);
    }
  }

  lemma {:induction false} UnmatchedEnds(c: Chunk, st: Scan)
    requires st.cur < c.end
    ensures var (r, found) := FindMatch(true, c, st); !found ==> r.cur == c.end && !r.first
  {
    hide Sample;
  }

  lemma {:induction false} TestKeepsOrder(s: State)
    requires Inv(s) && !s.term && Ordered(s) && Can(s, Test) && MatchesInside(s, Test)
    ensures Ordered(Step(s, Test))
  {
    hide FindMatch, EventOf, Consecutive, Fetched;
    if s.got { UnmatchedEnds(s.chunk, s.scan); }
  }

  lemma {:induction false} StepKeepsOrder(s: State, a: Action)
    requires Inv(s) && (s.term || Ordered(s)) && Can(s, a) && FeedsSamples(a) && MatchesInside(s, a) && ConsumesSeen(s, a)
    ensures Step(s, a).term || Ordered(Step(s, a))
  {
    if a.Feed? && !s.term {
      FeedKeepsOrder(s, a.c, a.len);
    } else if a.Test? && !s.term {
      TestKeepsOrder(s);
    } else {
      hide FindMatch, EventOf, Consecutive, Fetched, MatchesInside;
      StartsInOrder(Start([], false, {}));
    }
  }

  lemma StartsInOrder(begin: Start)
    ensures Ordered(Initial(begin)) && Calm(Initial(begin).scan)
  {
  }

  lemma {:induction false} OrderHolds(s: State, actions: seq<Action>)
    requires Inv(s) && (s.term || Ordered(s)) && Legal(s, actions) && AllInside(s, actions)
    ensures var r := After(s, actions); Inv(r) && (r.term || Ordered(r))
    decreases |actions|
  {
    hide Step, Inv, Can, Ordered, FeedsSamples, MatchesInside, ConsumesSeen;
    if actions != [] {
      StepKeepsInv(s, actions[0]);
      StepKeepsOrder(s, actions[0]);
      OrderHolds(Step(s, actions[0]), actions[1..]);
    }
  }

  /** The chunks accepted since the start, in the order in which they are released, follow each other
      without gap or overlap; and once a chunk is released the next one is accepted exactly when it
      starts where that one ended, has samples, and its buffer has a length. */
  lemma {:induction false} ReleasedInOrder(begin: Start, actions: seq<Action>, s: State, c: Chunk, len: nat)
    requires Reached(begin, actions, s) && AllInside(Initial(begin), actions) && !s.term
    ensures s.fed == s.released + Held(s) && Consecutive(s.fed)
    ensures Can(s, Feed(c, len)) && s.released != [] && FeedsSamples(Feed(c, len)) ==>
              (Step(s, Feed(c, len)).fed == s.fed + [c]
               <==> len > 0 && c.start < c.end && c.start == s.released[|s.released| - 1].end)
  {
    StartsInOrder(begin);
    OrderHolds(Initial(begin), actions);
    hide Legal, After, Consecutive, Calm, FindMatch, AllInside;
  }

  // ----- Lists for which no match leaves the chunk -----

  /** In every list the decoder waits for, a SKIP(0) stands alone and occurs once. */
  ghost predicate AsksCalmly(a: Action) {
    a.Ask? && a.call.WaitFor? ==> ZeroSkipAlone(a.call.groups)
  }

  ghost predicate AllAskCalmly(s: State, actions: seq<Action>)
    requires Legal(s, actions)
    decreases |actions|
  {
    actions == [] || (&& AsksCalmly(actions[0]) && FeedsSamples(actions[0]) && ConsumesSeen(s, actions[0])
                      && AllAskCalmly(Step(s, actions[0]), actions[1..]))
  }

  lemma CalmAt(st: Scan, cur: U64, matched: bool)
    requires Calm(st)
    ensures Calm(st.(cur := cur)) && Calm(st.(cur := cur, matched := matched)) && Calm(st.(first := false))
  {
  }

  /** Such lists keep every match inside its chunk. */
  lemma {:induction false} CalmMatchesInside(s: State, a: Action)
    requires Inv(s) && (s.term || (Ordered(s) && Calm(s.scan))) && Can(s, a) && AsksCalmly(a)
    ensures MatchesInside(s, a) && (Step(s, a).term || Calm(Step(s, a).scan))
  {
    hide FindMatch, EventOf, Consecutive, ZeroSkipAlone, Fetched;
    if a.Test? && s.got && !s.term {
      FindMatchBound(s.chunk, s.scan);
      CalmAt(s.scan, s.scan.cur, s.scan.matched);
      var st := FindMatch(true, s.chunk, s.scan).0;
      CalmAt(st, st.cur, st.matched);
    } else {
      StartsInOrder(Start([], false, {}));
    }
  }

  lemma {:induction false} CalmRunInside(s: State, actions: seq<Action>)
    requires Inv(s) && (s.term || (Ordered(s) && Calm(s.scan))) && Legal(s, actions) && AllAskCalmly(s, actions)
    ensures AllInside(s, actions)
    decreases |actions|
  {
    hide Step, Inv, Can, Ordered, Calm, AsksCalmly, FeedsSamples, MatchesInside, ConsumesSeen;
    if actions != [] {
      var a := actions[0];
      CalmMatchesInside(s, a);
      StepKeepsInv(s, a);
      StepKeepsOrder(s, a);
      CalmRunInside(Step(s, a), actions[1..]);
    }
  }

  /** A run in which a SKIP(0) always stands alone and occurs once never leaves a chunk. */
  lemma {:induction false} CalmlyInside(begin: Start, actions: seq<Action>)
    requires Legal(Initial(begin), actions) && AllAskCalmly(Initial(begin), actions)
    ensures AllInside(Initial(begin), actions)
  {
    StartsInOrder(begin);
    hide AllAskCalmly, AllInside, Legal, Ordered, Calm;
    CalmRunInside(Initial(begin), actions);
  }

  // ----- Exactly when a released chunk leaves the scan at its end -----

  /** Where the scan of a chunk begins: behind the last match, if there is one. */
  function Entry(st: Scan): U64 {
    if st.matched then Inc(st.cur) else st.cur
  }

  /** A wait that releases its chunk leaves the scan at the chunk's end if and only if it did not begin
      behind it; otherwise it leaves it where it began, and no chunk that follows on is accepted. */
  lemma {:induction false} ReleasedAtEndIff(s: State)
    requires Can(s, Test) && s.worker.call.WaitFor? && s.got && !s.term
    requires !FindMatch(true, s.chunk, s.scan).1 && !Faults(s.chunk, s.scan)
    ensures var s1 := Step(s, Test);
            && s1.released == s.released + [s.chunk]
            && (s1.scan.cur == s.chunk.end <==> Entry(s.scan) <= s.chunk.end)
            && (Entry(s.scan) > s.chunk.end ==> s1.scan.cur == Entry(s.scan))
    ensures forall c: Chunk, len: nat :: c.start == s.chunk.end <= c.end && len > 0 ==>
              (StepFeed(Step(s, Test), c, len).fed != s.fed <==> Entry(s.scan) <= s.chunk.end)
  {
    hide Sample, EventOf;
  }

  /** What happens when the decoder consumes the first chunk before its first wait or fetch: the next one
      is accepted wherever it starts. */
  lemma {:induction false} EarlyConsumeLosesOrder(s: State, c: Chunk, len: nat)
    requires s.got && s.scan.first && !s.term && s.scan.cur < s.chunk.end && c.start <= c.end && len > 0
    requires Can(s, Consume(s.chunk.end - s.scan.cur))
    ensures var s1 := Step(s, Consume(s.chunk.end - s.scan.cur));
            s1.released == s.released + [s.chunk] && StepFeed(s1, c, len).fed == s.fed + [c]
  {
  }

  /** After samples are consumed a wait begins at the sample behind them, whether the one before it was a
      match or not. */
  lemma {:induction false} ConsumedThenWait(s: State, n: U64)
    requires s.got && 0 < n <= s.chunk.end - s.scan.cur
    ensures var s1 := StepConsume(s, n);
            && Entry(s1.scan) == s1.scan.cur == s.scan.cur + n
            && s1.scan == s.scan.(cur := s1.scan.cur, matched := false)
            && (s.scan.cur + n < s.chunk.end && !s.term ==> s1.got && s1.chunk == s.chunk && s1.released == s.released)
            && (s.scan.cur + n == s.chunk.end ==> !s1.got && s1.released == s.released + [s.chunk])
  {
  }

  // ----- A run that loses the order -----

  const THREE_ZERO_SKIPS: seq<Group> := [ZERO_SKIP, ZERO_SKIP, ZERO_SKIP]

  lemma {:induction false} OneZeroSkip(c: Chunk, st: Scan)
    requires st.groups == [ZERO_SKIP] && !st.matched && !st.zero && st.cur < c.end
    ensures var (r, found) := FindMatch(true, c, st);
            found && r.cur == st.cur && r.matched && !r.zero && !r.missing && r.groups == st.groups
  {
    var st0 := Enter(c, st);
    assert st.groups[0] != [];
    ZeroSkipSteps(c, st0, 0);
    var (st1, skip) := GroupAt(c, st0, 0);
    assert GroupsFrom(c, st0, 0, true) == GroupsFrom(c, st1, 1, skip);
    assert 0 in st1.mask;
  }

  lemma {:induction false} ThreeZeroSkipsStepBack(c: Chunk, st: Scan)
    requires st.groups == THREE_ZERO_SKIPS && st.matched && !st.zero && st.cur == 0 && c.end > 1
    ensures var (r, found) := FindMatch(true, c, st);
            found && r.cur == U64_MAX - 1 && r.matched && !r.zero && !r.missing && r.groups == st.groups
  {
    assert st.groups[0] != [];
    forall g | g == ZERO_SKIP ensures RestartGroup(g) == g {}
    assert RestartSkips(st.groups) == st.groups;
    var st0 := Enter(c, st);
    ZeroSkipSteps(c, st0, 0);
    var (st1, skip1) := GroupAt(c, st0, 0);
    ZeroSkipSteps(c, st1, 1);
    var (st2, skip2) := GroupAt(c, st1, 1);
    ZeroSkipSteps(c, st2, 2);
    var (st3, skip3) := GroupAt(c, st2, 2);
    assert GroupsFrom(c, st0, 0, true) == GroupsFrom(c, st1, 1, skip1) == GroupsFrom(c, st2, 2, false) == GroupsFrom(c, st3, 3, false);
    assert 0 in st3.mask;
  }

  lemma {:induction false} WrappedNeverMatches(c: Chunk, st: Scan)
    requires st.groups == THREE_ZERO_SKIPS && st.matched && st.cur == U64_MAX - 1 && c.end < U64_MAX
    ensures var (r, found) := FindMatch(true, c, st); !found && r.cur == U64_MAX && !r.first
  {
    assert st.groups[0] != [];
  }

  lemma {:induction false} OneMore(s: State, actions: seq<Action>, a: Action)
    requires Legal(s, actions) && Can(After(s, actions), a)
    ensures Legal(s, actions + [a]) && After(s, actions + [a]) == Step(After(s, actions), a)
    decreases |actions|
  {
    hide Step, Can;
    if actions == [] {
      assert actions + [a] == [a];
    } else {
      OneMore(Step(s, actions[0]), actions[1..], a);
      assert (actions + [a])[1..] == actions[1..] + [a];
    }
  }

  ghost predicate Goes(begin: Start, actions: seq<Action>, s: State) {
    Reached(begin, actions, s) && forall i :: 0 <= i < |actions| ==> FeedsSamples(actions[i])
  }

  lemma {:induction false} GoesOn(begin: Start, actions: seq<Action>, s: State, a: Action)
    requires Goes(begin, actions, s) && Can(s, a) && FeedsSamples(a)
    ensures Goes(begin, actions + [a], Step(s, a))
  {
    hide Step, Can, FeedsSamples;
    OneMore(Initial(begin), actions, a);
  }

  /** A wait for the groups in the chunk at hand: the state behind it. */
  lemma {:induction false} Waits(begin: Start, actions: seq<Action>, s: State, groups: seq<Group>) returns (s1: State)
    requires Goes(begin, actions, s) && (s.worker.Running? || s.worker.Reading?) && s.got && !s.term && !s.crashed
    requires groups != [] && (s.scan.missing ==> s.scan.first)
    ensures Goes(begin, actions + [Ask(WaitFor(groups))] + [Test], s1)
    ensures s1 == StepScan(s.(worker := Testing(WaitFor(groups)), scan := s.scan.(groups := groups))) && !s1.crashed
  {
    hide FindMatch, EventOf, Goes;
    var ask := Ask(WaitFor(groups));
    GoesOn(begin, actions, s, ask);
    s1 := Step(Step(s, ask), Test);
    GoesOn(begin, actions + [ask], Step(s, ask), Test);
  }

  /** What the premise of ReleasedInOrder shuts out: near sample 0, three SKIP(0) in one list step back
      below it, the counter wraps, and once the chunk is released no chunk that follows on is accepted. */
  lemma {:induction false} ManyZeroSkipsLoseOrder(begin: Start, c: Chunk, next: Chunk, len: nat) returns (actions: seq<Action>, s: State)
    requires c.start == 0 && 1 < c.end < U64_MAX && next.start == c.end
    ensures Goes(begin, actions, s) && !s.term && !s.crashed && s.producer.Outside? && s.released == [c]
    ensures Step(s, Feed(next, len)).fed == s.fed
  {
    hide FindMatch, EventOf, Goes;
    actions, s := [], Initial(begin);
    assert Goes(begin, actions, s) by { NotYet(begin); }
    GoesOn(begin, actions, s, Feed(c, 1));
    actions, s := actions + [Feed(c, 1)], Step(s, Feed(c, 1));
    OneZeroSkip(c, s.scan.(groups := [ZERO_SKIP]));
    var s1 := Waits(begin, actions, s, [ZERO_SKIP]);
    actions := actions + [Ask(WaitFor([ZERO_SKIP]))] + [Test];
    ThreeZeroSkipsStepBack(c, s1.scan.(groups := THREE_ZERO_SKIPS));
    var s2 := Waits(begin, actions, s1, THREE_ZERO_SKIPS);
    actions := actions + [Ask(WaitFor(THREE_ZERO_SKIPS))] + [Test];
    WrappedNeverMatches(c, s2.scan.(groups := THREE_ZERO_SKIPS));
    var s3 := Waits(begin, actions, s2, THREE_ZERO_SKIPS);
    actions := actions + [Ask(WaitFor(THREE_ZERO_SKIPS))] + [Test];
    GoesOn(begin, actions, s3, Look);
    actions, s := actions + [Look], Step(s3, Look);
  }

  lemma NotYet(begin: Start)
    ensures Goes(begin, [], Initial(begin))
  {
  }
}
