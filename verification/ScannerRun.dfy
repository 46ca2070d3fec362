/** What a decoder sees over a whole run, from the levels of the capture and the places where it was cut:
    no scanning, no counters, no remembered pins but those before the first match. */
module ScannerRun {
  import opened Scanner
  import opened ScannerChunks
  import opened ScannerSpec
  import opened ScannerJump

  /** The least sample from t on at which some group holds, or the end of the capture. */
  function FirstHold(w: Chunk, o: Origin, groups: seq<Group>, t: nat): (s: nat)
    ensures t <= w.end ==> t <= s <= w.end
    decreases w.end - t
  {
    if t >= w.end then w.end
    else if Holding(w, o, t, groups) != {} then t
    else FirstHold(w, o, groups, t + 1)
  }

  // ----- The run as it should be -----

  /** Between two waits: the sample of the last match and the levels there, or the start of the capture
      and the pins assumed before it; the list in place and the groups last matched. */
  datatype Place = Place(at: U64, matched: bool, first: bool, pins: Pins, list: seq<Group>, mask: set<nat>)

  /** The samples stepped over behind a match at t: those of the one-sample chunks that follow a cut right
      behind it, and that cut's own. */
  function LostAt(chunks: seq<Chunk>, t: nat): nat {
    if chunks == [] then 0
    else if t < chunks[0].end then Lost(chunks, t)
    else LostAt(chunks[1..], t)
  }

  /** Where a wait for conditions starts. */
  function From(w: Chunk, chunks: seq<Chunk>, p: Place): Origin {
    if p.matched then
      var k := LostAt(chunks, p.at);
      Origin(p.at + k + 1, p.at + k, p.pins)
    else Origin(p.at, p.at, if p.first then InitialPins(w, p.at, p.pins) else p.pins)
  }

  /** Asking for nothing leaves the list before in place. */
  function ListAt(p: Place, asked: seq<Group>): seq<Group> {
    if asked == [] then p.list else asked
  }

  /** The events of n waits. A list without conditions matches at once, where the scan stands. Otherwise
      the next match is the least later sample at which a group holds, with all the groups that hold
      there and the levels there. */
  function Ideal(next: Decoder, seen: seq<Event>, n: nat, w: Chunk, chunks: seq<Chunk>, p: Place): (trace: seq<Event>)
    decreases n
  {
    if n == 0 then []
    else
      var list := ListAt(p, next(seen));
      if !HaveConditions(list) then
        var e := Event(p.at, p.mask, PinsAt(w, p.at, |p.pins|));
        [e] + Ideal(next, seen + [e], n - 1, w, chunks, p.(first := false, list := list))
      else
        var o := From(w, chunks, p);
        var t := FirstHold(w, o, list, o.from);
        if t >= w.end then []
        else
          var e := Event(t, Holding(w, o, t, list), PinsAt(w, t, |p.pins|));
          [e] + Ideal(next, seen + [e], n - 1, w, chunks, Place(t, true, false, e.pins, list, e.mask))
  }

  /** In every list asked for, skips are new and alone in their groups. */
  ghost predicate AsksSimply(next: Decoder) {
    forall seen :: SimpleList(next(seen))
  }

  ghost predicate SimpleList(groups: seq<Group>) {
    SkipsAlone(groups) && AreFresh(groups)
  }

  lemma {:induction false} SimplyIsWell(next: Decoder)
    requires AsksSimply(next)
    ensures AsksWell(next)
  {
    forall seen ensures Asks(next, seen) {
      assert SimpleList(next(seen));
      SkipsAloneWellFormed(next(seen));
    }
  }

  // ----- From the promise of a wait to its event -----

  lemma {:induction false} LeastIsFirst(w: Chunk, o: Origin, groups: seq<Group>, s: nat, t: nat)
    requires IsLeast(w, o, groups, s) && o.from <= t <= s
    ensures FirstHold(w, o, groups, t) == s
    decreases s - t
  {
    hide Holding;
    if t < s { LeastIsFirst(w, o, groups, s, t + 1); }
  }

  lemma {:induction false} NeverIsEnd(w: Chunk, o: Origin, groups: seq<Group>, t: nat)
    requires NeverHolds(w, o, groups) && o.from <= t
    ensures FirstHold(w, o, groups, t) == w.end
    decreases w.end - t
  {
    hide Holding;
    if t < w.end { NeverIsEnd(w, o, groups, t + 1); }
  }

  /** A promise kept, as the first sample to hold. */
  lemma {:induction false} PromiseIsFirst(r: WaitResult, o: Origin, w: Chunk, groups: seq<Group>)
    requires Promised(r, o, w, groups)
    ensures var t := FirstHold(w, o, groups, o.from);
            if t >= w.end then r.Blocked?
            else r.Hit? && r.st.cur == t && r.st.mask == Holding(w, o, t, groups) && r.st.prev == PinsAt(w, t, |r.st.prev|)
  {
    hide Holding;
    if r.Hit? { LeastIsFirst(w, o, groups, r.st.cur, o.from); } else { NeverIsEnd(w, o, groups, o.from); }
  }

  /** How far its skips have counted does not matter to when a group holds. */
  lemma {:induction false} SameTermsHold(w: Chunk, o: Origin, a: seq<Group>, b: seq<Group>, t: nat)
    requires SameTerms(a, b)
    ensures Holding(w, o, t, a) == Holding(w, o, t, b)
  {
    forall j | 0 <= j < |a| ensures GroupHolds(w, o, t, a[j]) == GroupHolds(w, o, t, b[j]) {
      forall k | 0 <= k < |a[j]| ensures TermHolds(w, o, t, a[j][k]) == TermHolds(w, o, t, b[j][k]) {
        assert SameTerm(a[j][k], b[j][k]);
      }
    }
  }

  lemma {:induction false} SameTermsSimple(a: seq<Group>, b: seq<Group>)
    requires SameTerms(a, b)
    ensures HaveConditions(a) <==> HaveConditions(b)
    ensures SkipsAlone(a) ==> SkipsAlone(b)
  {
    forall j | 0 <= j < |a|
      ensures IsLoneSkip(a[j]) ==> IsLoneSkip(b[j])
      ensures NoSkip(a[j]) ==> NoSkip(b[j])
    {
      forall k | 0 <= k < |a[j]| ensures SameTerm(a[j][k], b[j][k]) {}
    }
    if j :| 0 <= j < |a| && a[j] != [] { assert b[j] != []; }
    if j :| 0 <= j < |b| && b[j] != [] { assert a[j] != []; }
  }

  lemma {:induction false} PromisedSame(r: WaitResult, o: Origin, w: Chunk, a: seq<Group>, b: seq<Group>)
    requires SameTerms(a, b) && Promised(r, o, w, b)
    ensures Promised(r, o, w, a)
  {
    hide SameTerms, Holding;
    forall t: nat ensures Holding(w, o, t, a) == Holding(w, o, t, b) { SameTermsHold(w, o, a, b, t); }
  }

  // ----- The scan between two waits -----

  /** Where a scan may stand in front of a wait; the last sample of its chunk is no exception. */
  ghost predicate Stands(st: Scan, chunks: seq<Chunk>, w: Chunk) {
    && chunks != [] && Tiles(chunks, w) && chunks[0].Has(st.cur) && HasChannels(w, |st.prev|) && !st.zero
    && (if st.matched then !st.first && st.prev == PinsAt(w, st.cur, |st.prev|) else st.cur == chunks[0].start)
  }

  /** Where a wait for conditions lands, if it does. */
  lemma {:induction false} WaitLands(st: Scan, chunks: seq<Chunk>, w: Chunk)
    requires Stands(st, chunks, w) && HaveConditions(st.groups) && SkipsAlone(st.groups)
    ensures var r := Wait(false, st, chunks); r.Hit? ==> Lands(st, r, w)
    decreases |chunks|
  {
    hide SkipsAlone, HasChannels, FindMatch;
    if st.matched && |chunks| > 1 && st.cur + 1 == chunks[0].end {
      AfterRelease(st, chunks, w);
      ReleasedUnscanned(st, chunks);
      SkipsAloneWellFormed(Released(st).groups);
      RestartSameTerms(st.groups);
      SameTermsSimple(st.groups, Released(st).groups);
      ReleasedLands(Released(st), chunks[1..], w);
    } else {
      SkipsAloneWellFormed(st.groups);
      WaitScansWhole(st, chunks, w);
    }
  }

  /** The same behind a chunk released unscanned, where the pins are those of the match before. */
  lemma {:induction false} ReleasedLands(st: Scan, chunks: seq<Chunk>, w: Chunk)
    requires AfterMatch(st, chunks, w) && HaveConditions(st.groups) && SkipsAlone(st.groups)
    ensures var r := Wait(false, st, chunks); r.Hit? ==> Lands(st, r, w)
    decreases |chunks|
  {
    hide SkipsAlone, HasChannels, FindMatch;
    SkipsAloneWellFormed(st.groups);
    if |chunks| > 1 && st.cur + 1 == chunks[0].end {
      AfterRelease(st, chunks, w);
      ReleasedUnscanned(st, chunks);
      RestartSameTerms(st.groups);
      SameTermsSimple(st.groups, Released(st).groups);
      ReleasedLands(Released(st), chunks[1..], w);
    } else {
      WaitScansWhole(st, chunks, w);
    }
  }

  /** The origin of the wait, seen from the chunks that are left. */
  function Origins(st: Scan, chunks: seq<Chunk>, w: Chunk): Origin {
    if st.matched then ExactOrigin(st, chunks) else OriginOf(w, st)
  }

  /** One wait of the plain scan, from anywhere it may stand. */
  lemma {:induction false} WaitPromised(st: Scan, chunks: seq<Chunk>, w: Chunk)
    requires Stands(st, chunks, w) && HaveConditions(st.groups) && SkipsAlone(st.groups)
    requires !st.matched ==> AreFresh(st.groups)
    ensures Promised(Wait(false, st, chunks), Origins(st, chunks, w), w, st.groups)
  {
    if st.matched { WaitExact(st, chunks, w); } else { WaitMeetsSpec(st, chunks, w); }
  }

  /** What the code's wait and the plain scan's have in common. */
  lemma {:induction false} WaitsSame(jump: bool, st: Scan, chunks: seq<Chunk>, w: Chunk)
    requires Stands(st, chunks, w) && (jump ==> AllJumpSafe(chunks, st.groups, |st.prev|))
    ensures Wait(jump, st, chunks) == Wait(false, st, chunks)
  {
    if jump && HaveConditions(st.groups) { WaitRefines(st, st, chunks); }
  }

  // ----- Runs -----

  /** The scan stands in the rest of the chunks at the given place. */
  ghost predicate AtPlace(st: Scan, rest: seq<Chunk>, chunks: seq<Chunk>, w: Chunk, p: Place) {
    && Stands(st, rest, w) && IsSuffix(rest, chunks) && Tiles(chunks, w)
    && p == Place(st.cur, st.matched, st.first, st.prev, p.list, st.mask)
    && SkipsAlone(p.list) && SameTerms(p.list, st.groups)
    && (!st.matched ==> p.list == st.groups && AreFresh(p.list))
  }

  lemma {:induction false} LostFromHere(rest: seq<Chunk>, chunks: seq<Chunk>, w: Chunk, t: nat)
    requires IsSuffix(rest, chunks) && rest != [] && Tiles(chunks, w) && rest[0].Has(t)
    ensures LostAt(chunks, t) == Lost(rest, t)
    decreases |chunks|
  {
    if rest != chunks {
      SuffixBehind(rest, chunks[1..], w);
      LostFromHere(rest, chunks[1..], w, t);
    }
  }

  lemma {:induction false} SuffixBehind(rest: seq<Chunk>, chunks: seq<Chunk>, w: Chunk)
    requires IsSuffix(rest, chunks) && rest != [] && Tiles(chunks, w)
    ensures rest[0].start >= chunks[0].start
    decreases |chunks|
  {
    if rest != chunks { SuffixBehind(rest, chunks[1..], w); }
  }

  lemma {:induction false} SuffixTransitive(a: seq<Chunk>, b: seq<Chunk>, c: seq<Chunk>)
    requires IsSuffix(a, b) && IsSuffix(b, c)
    ensures IsSuffix(a, c)
    decreases |c|
  {
    if b != c { SuffixTransitive(a, b, c[1..]); }
  }

  /** One wait, from place to place: of the plain scan, and of the code where the list is safe. */
  lemma {:induction false} WaitOn(jump: bool, st: Scan, asked: seq<Group>, rest: seq<Chunk>, chunks: seq<Chunk>, w: Chunk, p: Place)
    requires AtPlace(st, rest, chunks, w, p) && SimpleList(asked)
    requires jump ==> AllJumpSafe(rest, Install(st, asked).groups, |st.prev|)
    ensures var r, list, o := Wait(jump, Install(st, asked), rest), ListAt(p, asked), From(w, chunks, p);
            var t := FirstHold(w, o, list, o.from);
            if !HaveConditions(list) then
              && r.Hit? && EventOf(r.st, r.rest[0]) == Event(p.at, p.mask, PinsAt(w, p.at, |p.pins|))
              && AtPlace(r.st, r.rest, chunks, w, p.(first := false, list := list))
            else if t >= w.end then r.Blocked?
            else
              var e := Event(t, Holding(w, o, t, list), PinsAt(w, t, |p.pins|));
              && r.Hit? && EventOf(r.st, r.rest[0]) == e
              && AtPlace(r.st, r.rest, chunks, w, Place(t, true, false, e.pins, list, e.mask))
  {
    hide Holding, SkipsAlone, AreFresh, HasChannels, SameTerms, HaveConditions, FindMatch, IsLeast, NeverHolds, Tiles, IsSuffix;
    hide AllJumpSafe, FirstHold, Lost;
    var st1, list := Install(st, asked), ListAt(p, asked);
    SameTermsSelf(asked);
    SameTermsSimple(list, st1.groups);
    WaitsSame(jump, st1, rest, w);
    var r := Wait(false, st1, rest);
    if HaveConditions(list) {
      LostFromHere(rest, chunks, w, st.cur);
      WaitPromised(st1, rest, w);
      PromisedSame(r, From(w, chunks, p), w, list, st1.groups);
      PromiseIsFirst(r, From(w, chunks, p), w, list);
      WaitLands(st1, rest, w);
      WaitSameTerms(st1, rest);
      if r.Hit? {
        SameTermsTransitive(list, st1.groups, r.st.groups);
        SuffixTransitive(r.rest, rest, chunks);
        FirstPinsAgree(r.rest, w, r.st.cur, |r.st.prev|);
      }
    } else {
      WaitsNot(st1, rest);
      FirstPinsAgree(rest, w, st.cur, |st.prev|);
    }
  }

  lemma SameTermsSelf(a: seq<Group>)
    ensures SameTerms(a, a)
  {
  }

  lemma WaitsNot(st: Scan, chunks: seq<Chunk>)
    requires !HaveConditions(st.groups) && chunks != []
    ensures Wait(false, st, chunks) == Hit(st.(first := false), chunks)
  {
  }

  /** The run of the plain scan, and that of the code where the lists are safe, over any tiling, with
      matches in front of cuts or not. */
  lemma {:induction false} RunIsIdeal(jump: bool, next: Decoder, seen: seq<Event>, n: nat, st: Scan,
      rest: seq<Chunk>, chunks: seq<Chunk>, w: Chunk, p: Place)
    requires AsksSimply(next) && AtPlace(st, rest, chunks, w, p) && (jump ==> SafeRun(next, st, rest))
    ensures Run(jump, next, seen, n, st, rest) == Ideal(next, seen, n, w, chunks, p)
    decreases n
  {
    hide AtPlace, SimpleList, AllJumpSafe, HaveConditions, SafeRun, Wait, From, FirstHold, Holding;
    if n > 0 {
      assert SimpleList(next(seen));
      if jump { InstallSafe(next, seen, st, rest); }
      WaitOn(jump, st, next(seen), rest, chunks, w, p);
      var r := Wait(jump, Install(st, next(seen)), rest);
      RunUnfolds(jump, next, seen, n, st, rest, r);
      if r.Hit? {
        if jump { StaysSafe(next, seen, st, rest, w, p, chunks); }
        var e := EventOf(r.st, r.rest[0]);
        var list, o := ListAt(p, next(seen)), From(w, chunks, p);
        if !HaveConditions(list) {
          RunIsIdeal(jump, next, seen + [e], n - 1, r.st, r.rest, chunks, w, p.(first := false, list := list));
        } else {
          RunIsIdeal(jump, next, seen + [e], n - 1, r.st, r.rest, chunks, w, Place(e.sample, true, false, e.pins, list, e.mask));
        }
      }
    }
  }

  lemma {:induction false} InstallSafe(next: Decoder, seen: seq<Event>, st: Scan, rest: seq<Chunk>)
    requires SafeRun(next, st, rest)
    ensures AllJumpSafe(rest, Install(st, next(seen)).groups, |st.prev|)
  {
    hide AllJumpSafe;
    assert AsksJumpSafe(next, seen, rest, |st.prev|);
  }

  lemma {:induction false} StaysSafe(next: Decoder, seen: seq<Event>, st: Scan, rest: seq<Chunk>, w: Chunk, p: Place, chunks: seq<Chunk>)
    requires AtPlace(st, rest, chunks, w, p) && SafeRun(next, st, rest)
    ensures var r := Wait(true, Install(st, next(seen)), rest); r.Hit? ==> SafeRun(next, r.st, r.rest)
  {
    hide Wait, AllJumpSafe, SameTerms, Tiles, IsSuffix, AlwaysJumpSafe, SkipsAlone, AreFresh, HasChannels;
    var st1 := Install(st, next(seen));
    InstallSafe(next, seen, st, rest);
    WaitsSame(true, st1, rest, w);
    var r := Wait(true, st1, rest);
    if r.Hit? {
      AlwaysSafeSuffix(next, rest, r.rest, |st.prev|);
      WaitSameTerms(st1, rest);
      SafeSuffix(rest, r.rest, st1.groups, |st.prev|);
      SameTermsAllJumpSafe(r.rest, st1.groups, r.st.groups, |st.prev|);
    }
  }

  /** The place of an instance that was started and fed its first chunk. */
  function StartPlace(st: Scan): Place {
    Place(st.cur, false, st.first, st.prev, [], st.mask)
  }

  /** The code over any tiling of the capture, with any channels constant in any chunk, and wherever its
      matches fall: every decoder sees what the levels of the capture and the cuts say. */
  lemma {:induction false} CodeIsIdeal(next: Decoder, n: nat, st: Scan, chunks: seq<Chunk>, w: Chunk)
    requires AsksSimply(next) && Started(st, w) && HasChannels(w, |st.prev|)
    requires Tiles(chunks, w) && chunks[0].start == w.start && AlwaysJumpSafe(next, chunks, |st.prev|)
    ensures Run(true, next, [], n, st, chunks) == Ideal(next, [], n, w, chunks, StartPlace(st))
  {
    NothingAskedSafe(chunks, w, |st.prev|);
    hide HasChannels, Ideal, Run, AsksSimply, AlwaysJumpSafe, AllJumpSafe;
    RunIsIdeal(true, next, [], n, st, chunks, chunks, w, StartPlace(st));
  }

  // ----- Matches off the cuts -----

  lemma {:induction false} NothingLost(chunks: seq<Chunk>, w: Chunk, t: nat)
    requires Tiles(chunks, w) && !IsCut(chunks, t + 1)
    ensures LostAt(chunks, t) == 0
    decreases |chunks|
  {
    if |chunks| > 1 && t >= chunks[0].end { NothingLost(chunks[1..], w, t); }
  }

  /** No cut shows while no wait that another one follows returns in front of one. */
  lemma {:induction false} CutsUnseen(next: Decoder, seen: seq<Event>, n: nat, w: Chunk, chunks: seq<Chunk>, p: Place)
    requires Tiles(chunks, w) && OffCuts(Ideal(next, seen, n, w, [w], p), n, chunks)
    requires p.matched && n > 0 ==> !IsCut(chunks, p.at + 1)
    ensures Ideal(next, seen, n, w, chunks, p) == Ideal(next, seen, n, w, [w], p)
    decreases n
  {
    hide Holding, FirstHold, Tiles, IsCut, HaveConditions, Lost;
    if n > 0 {
      var list := ListAt(p, next(seen));
      var o := From(w, [w], p);
      UncutLosesNothing(w, p.at);
      if p.matched { NothingLost(chunks, w, p.at); }
      assert From(w, chunks, p) == o;
      var t := FirstHold(w, o, list, o.from);
      if !HaveConditions(list) {
        var e := Event(p.at, p.mask, PinsAt(w, p.at, |p.pins|));
        TailUnseen(next, seen, n, w, chunks, p.(first := false, list := list), e);
      } else if t < w.end {
        var e := Event(t, Holding(w, o, t, list), PinsAt(w, t, |p.pins|));
        TailUnseen(next, seen, n, w, chunks, Place(t, true, false, e.pins, list, e.mask), e);
      }
    }
  }

  lemma UncutLosesNothing(w: Chunk, t: nat)
    ensures LostAt([w], t) == 0
  {
    assert [w][1..] == [];
  }

  lemma {:induction false} TailUnseen(next: Decoder, seen: seq<Event>, n: nat, w: Chunk, chunks: seq<Chunk>, p: Place, e: Event)
    requires n > 0 && Tiles(chunks, w) && p.at == e.sample
    requires OffCuts([e] + Ideal(next, seen + [e], n - 1, w, [w], p), n, chunks)
    ensures Ideal(next, seen + [e], n - 1, w, chunks, p) == Ideal(next, seen + [e], n - 1, w, [w], p)
    decreases n, 0
  {
    hide Tiles, IsCut, Ideal;
    if n > 1 {
      OffCutsTail(e, Ideal(next, seen + [e], n - 1, w, [w], p), n, chunks, chunks);
      CutsUnseen(next, seen + [e], n - 1, w, chunks, p);
    } else {
      NoWaitsIdeal(next, seen + [e], w, chunks, p);
      NoWaitsIdeal(next, seen + [e], w, [w], p);
    }
  }

  lemma NoWaitsIdeal(next: Decoder, seen: seq<Event>, w: Chunk, chunks: seq<Chunk>, p: Place)
    ensures Ideal(next, seen, 0, w, chunks, p) == []
  {
  }

  /** Then every decoder sees what the levels of the capture alone say. */
  lemma {:induction false} OffCutsIdeal(next: Decoder, n: nat, st: Scan, chunks: seq<Chunk>, w: Chunk)
    requires AsksSimply(next) && Started(st, w) && HasChannels(w, |st.prev|)
    requires Tiles(chunks, w) && chunks[0].start == w.start && AlwaysJumpSafe(next, chunks, |st.prev|)
    requires OffCuts(Ideal(next, [], n, w, [w], StartPlace(st)), n, chunks)
    ensures Run(true, next, [], n, st, chunks) == Ideal(next, [], n, w, [w], StartPlace(st))
  {
    hide AsksSimply, HasChannels, OffCuts, Ideal, Run, AlwaysJumpSafe, Tiles;
    CodeIsIdeal(next, n, st, chunks, w);
    CutsUnseen(next, [], n, w, chunks, StartPlace(st));
  }

  // ----- Single waits -----

  /** After a match at t: edges are judged against sample t, skips are counted from it. */
  function Next(w: Chunk, t: nat, n: nat): Origin {
    Origin(t + 1, t, PinsAt(w, t, n))
  }

  /** One wait of the plain scan over the uncut capture. */
  lemma {:induction false} WholeWait(st: Scan, groups: seq<Group>, w: Chunk)
    requires Stands(st, [w], w) && SimpleList(groups) && HaveConditions(groups)
    ensures var r, o := Wait(false, Install(st, groups), [w]), OriginOf(w, st);
            var t := FirstHold(w, o, groups, o.from);
            if t >= w.end then r.Blocked?
            else
              && r.Hit? && r.rest == [w] && Stands(r.st, [w], w) && OriginOf(w, r.st) == Next(w, t, |o.pins|)
              && EventOf(r.st, w) == Event(t, Holding(w, o, t, groups), PinsAt(w, t, |o.pins|))
  {
    hide Holding, NeverHolds, IsLeast, SkipsAlone, AreFresh, HasChannels, ZeroSkipAlone, FirstHold;
    var st1 := Install(st, groups);
    WaitPromised(st1, [w], w);
    assert Origins(st1, [w], w) == OriginOf(w, st);
    PromiseIsFirst(Wait(false, st1, [w]), OriginOf(w, st), w, groups);
    WaitLands(st1, [w], w);
    UncutWait(false, st1, w);
  }

  /** The promise of a single wait of the code, the first one included. */
  lemma {:induction false} CodeWaitMeetsSpec(st: Scan, chunks: seq<Chunk>, w: Chunk)
    requires Tiles(chunks, w) && HaveConditions(st.groups) && Ready(st, chunks) && HasChannels(w, |st.prev|)
    requires SkipsAlone(st.groups) && (!st.matched ==> AreFresh(st.groups))
    requires AllJumpSafe(chunks, st.groups, |st.prev|)
    ensures Promised(Wait(true, st, chunks), OriginOf(w, st), w, st.groups)
  {
    WaitMeetsSpec(st, chunks, w);
    TiledWaitRefines(st, chunks, w);
  }

  /** The code's first wait, for a rising channel: no match on the first sample when the pin is "same as
      sample 0", and with a given low pin exactly when the level there is 1. */
  lemma {:induction false} FirstWaitForRise(st: Scan, chunks: seq<Chunk>, w: Chunk, ch: nat)
    requires Tiles(chunks, w) && Ready(st, chunks) && HasChannels(w, |st.prev|) && AllJumpSafe(chunks, st.groups, |st.prev|)
    requires st.first && !st.matched && ch < |st.prev| && st.groups == [[Rising(ch)]]
    ensures var r := Wait(true, st, chunks); var atFirst := r.Hit? && r.st.cur == st.cur;
            && (st.prev[ch] == SAME_AS_SAMPLE0 ==> !atFirst)
            && (st.prev[ch] == 0 ==> (atFirst <==> w.Level(st.cur, ch) == 1))
  {
    var o := OriginOf(w, st);
    assert st.groups[0] != [] && NoSkip(st.groups[0]);
    CodeWaitMeetsSpec(st, chunks, w);
    FirstSampleHolds(st, w, st.groups[0][0]);
    assert GroupHolds(w, o, st.cur, st.groups[0]) <==> TermHolds(w, o, st.cur, st.groups[0][0]);
    assert Holding(w, o, st.cur, st.groups) == if GroupHolds(w, o, st.cur, st.groups[0]) then {0} else {};
    assert st.cur < w.end;
  }
}
