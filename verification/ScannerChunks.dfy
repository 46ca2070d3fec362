/** Cutting the capture into chunks does not change what the waits report. */
module ScannerChunks {
  import opened Scanner

  // ----- Premises -----

  const ZERO_SKIP: Group := [Skip(0, 0)]

  predicate IsZeroSkip(t: Term) {
    t.Skip? && t.count == 0
  }

  predicate NoZeroSkip(g: Group) {
    forall k :: 0 <= k < |g| ==> !IsZeroSkip(g[k])
  }

  /** A SKIP(0) is the only term of its group and occurs in one group only. */
  ghost predicate ZeroSkipAlone(groups: seq<Group>) {
    && (forall j :: 0 <= j < |groups| ==> groups[j] == ZERO_SKIP || NoZeroSkip(groups[j]))
    && (forall i, j :: 0 <= i < j < |groups| ==> groups[i] != ZERO_SKIP || groups[j] != ZERO_SKIP)
  }

  ghost predicate WellFormed(groups: seq<Group>) {
    HaveConditions(groups) && ZeroSkipAlone(groups)
  }

  /** c is a part of the capture w, which hands over every channel as packed bits. */
  ghost predicate Shows(c: Chunk, w: Chunk) {
    && w.start <= c.start < c.end <= w.end
    && w.fixed == map[]
    && (forall t, ch :: c.Has(t) ==> c.Level(t, ch) == w.Level(t, ch))
  }

  // ----- One sample -----

  /** Within its range a chunk and the capture evaluate terms alike; only a SKIP(0) raises skip_zero. */
  lemma {:induction false} TermsAgree(c: Chunk, w: Chunk, st: Scan, zero: bool, g: Group, k: nat, a: bool, b: bool)
    requires Shows(c, w) && c.Has(st.cur) && k <= |g| && NoZeroSkip(g)
    ensures TermsFrom(c, st, zero, g, k, a) == TermsFrom(w, st, zero, g, k, b).(skip := TermsFrom(c, st, zero, g, k, a).skip)
    ensures TermsFrom(c, st, zero, g, k, a).zero == zero
    ensures NoZeroSkip(TermsFrom(c, st, zero, g, k, a).group)
    decreases |g| - k
  {
    if k < |g| {
      assert !IsZeroSkip(g[k]);
      assert g[k].Skip? || c.Level(st.cur, g[k].ch) == w.Level(st.cur, g[k].ch);
      var r := TermAt(c, st, zero, g[k]);
      assert r == TermAt(w, st, zero, g[k]).(skip := r.skip);
      assert NoZeroSkip(g[k := r.term]);
      if r.ok {
        TermsAgree(c, w, st, r.zero, g[k := r.term], k + 1, r.skip, TermAt(w, st, zero, g[k]).skip);
      }
    }
  }

  /** A lone SKIP(0) matches at once and, right after a match, steps back to it. */
  lemma ZeroSkipSteps(c: Chunk, st: Scan, j: nat)
    requires j < |st.groups| && !st.zero && st.groups[j] == ZERO_SKIP
    ensures GroupAt(c, st, j) == (st.(cur := if st.matched then Dec(st.cur) else st.cur, mask := st.mask + {j}), false)
  {
    var r := TermAt(c, st, st.zero, ZERO_SKIP[0]);
    assert ZERO_SKIP[0 := r.term] == ZERO_SKIP;
    assert TermsFrom(c, st, st.zero, ZERO_SKIP, 0, false) == TermsFrom(c, st, r.zero, ZERO_SKIP, 1, r.skip);
    assert st.groups[j := ZERO_SKIP] == st.groups;
  }

  /** Evaluation from group j on stays in the chunk: either the previous sample is in it too, or no
      SKIP(0) is still to be evaluated with the matched flag set. */
  ghost predicate StaysIn(c: Chunk, st: Scan, j: nat) {
    && c.Has(st.cur)
    && (st.matched && st.cur == c.start ==> forall i :: j <= i < |st.groups| ==> st.groups[i] != ZERO_SKIP)
  }

  lemma GroupAgrees(c: Chunk, w: Chunk, st: Scan, j: nat)
    requires Shows(c, w) && j < |st.groups| && !st.zero && ZeroSkipAlone(st.groups) && StaysIn(c, st, j)
    ensures GroupAt(c, st, j).0 == GroupAt(w, st, j).0
    ensures var r := GroupAt(c, st, j).0;
            !r.zero && ZeroSkipAlone(r.groups) && StaysIn(c, r, j + 1)
  {
    if st.groups[j] == ZERO_SKIP {
      ZeroSkipSteps(c, st, j);
      ZeroSkipSteps(w, st, j);
    } else {
      TermsAgree(c, w, st, st.zero, st.groups[j], 0, false, false);
      var g := TermsFrom(c, st, st.zero, st.groups[j], 0, false).group;
      assert g != ZERO_SKIP by {
        assert NoZeroSkip(g) && !NoZeroSkip(ZERO_SKIP) by { assert IsZeroSkip(ZERO_SKIP[0]); }
      }
    }
  }

  lemma {:induction false} GroupsAgree(c: Chunk, w: Chunk, st: Scan, j: nat, a: bool, b: bool)
    requires Shows(c, w) && j <= |st.groups| && !st.zero && ZeroSkipAlone(st.groups) && StaysIn(c, st, j)
    ensures GroupsFrom(c, st, j, a).0 == GroupsFrom(w, st, j, b).0
    ensures var r := GroupsFrom(c, st, j, a).0;
            c.Has(r.cur) && !r.zero && ZeroSkipAlone(r.groups)
    decreases |st.groups| - j
  {
    if j < |st.groups| {
      GroupAgrees(c, w, st, j);
      var (st1, skip) := GroupAt(c, st, j);
      GroupsAgree(c, w, st1, j + 1, a && skip, b && GroupAt(w, st, j).1);
    }
  }

  lemma PinsAgree(c: Chunk, w: Chunk, t: nat, n: nat)
    requires Shows(c, w) && c.Has(t)
    ensures PinsAt(c, t, n) == PinsAt(w, t, n)
  {
  }

  // ----- Groups keep their lengths, so a list with conditions keeps having some -----

  ghost predicate SameLengths(a: seq<Group>, b: seq<Group>) {
    |a| == |b| && forall j :: 0 <= j < |a| ==> |a[j]| == |b[j]|
  }

  lemma {:induction false} GroupsKeepLengths(c: Chunk, st: Scan, j: nat, skip: bool)
    requires j <= |st.groups|
    ensures SameLengths(st.groups, GroupsFrom(c, st, j, skip).0.groups)
    decreases |st.groups| - j
  {
    if j < |st.groups| {
      var (st1, skip1) := GroupAt(c, st, j);
      GroupsKeepLengths(c, st1, j + 1, skip && skip1);
    }
  }

  lemma {:induction false} LoopKeepsLengths(jump: bool, c: Chunk, st: Scan, skip: bool)
    ensures SameLengths(st.groups, ScanLoop(jump, c, st, skip).0.groups)
    decreases if st.cur < c.end then c.end - st.cur else 0
  {
    if st.cur < c.end {
      GroupsKeepLengths(c, st, 0, skip);
      var (st1, skip1) := Sample(c, st, skip);
      if !st1.matched {
        LoopKeepsLengths(jump, c, st1.(cur := if jump && skip1 then c.end else Inc(st1.cur)), skip1);
      }
    }
  }

  lemma FindMatchKeepsConditions(jump: bool, c: Chunk, st: Scan)
    requires HaveConditions(st.groups)
    ensures HaveConditions(FindMatch(jump, c, st).0.groups)
  {
    var st0 := Enter(c, st);
    LoopKeepsLengths(jump, c, st0, true);
    var j :| 0 <= j < |st.groups| && st.groups[j] != [];
    assert |st0.groups[j]| == |st.groups[j]|;
    assert FindMatch(jump, c, st).0.groups[j] != [];
  }

  // ----- The loop -----

  lemma {:induction false} SkipFlagOnlyPassedOn(c: Chunk, st: Scan, j: nat, a: bool, b: bool)
    requires j <= |st.groups|
    ensures GroupsFrom(c, st, j, a).0 == GroupsFrom(c, st, j, b).0
    decreases |st.groups| - j
  {
    if j < |st.groups| {
      var (st1, skip) := GroupAt(c, st, j);
      SkipFlagOnlyPassedOn(c, st1, j + 1, a && skip, b && skip);
    }
  }

  /** The plain scan does not look at the collected skip_allow flag. */
  lemma {:induction false} SkipFlagIrrelevant(c: Chunk, st: Scan, a: bool, b: bool)
    ensures ScanLoop(false, c, st, a) == ScanLoop(false, c, st, b)
    decreases if st.cur < c.end then c.end - st.cur else 0
  {
    if st.cur < c.end {
      SkipFlagOnlyPassedOn(c, st, 0, a, b);
      var (st1, skip) := Sample(c, st, a);
      if !st1.matched {
        SkipFlagIrrelevant(c, st1.(cur := Inc(st1.cur)), skip, Sample(c, st, b).1);
      }
    }
  }

  /** Scanning the capture from a chunk's sample is scanning the chunk and, when it holds no match,
      carrying on with the capture from the chunk's end. */
  lemma {:induction false} ScanLoopAgrees(c: Chunk, w: Chunk, st: Scan, a: bool, b: bool)
    requires Shows(c, w) && ZeroSkipAlone(st.groups) && !st.zero && st.mask == {}
    requires c.start <= st.cur <= c.end
    requires st.matched && st.cur < c.end ==> c.start < st.cur
    ensures var (st1, found) := ScanLoop(false, c, st, a);
            && !st1.zero && ZeroSkipAlone(st1.groups)
            && (found ==> c.Has(st1.cur) && ScanLoop(false, w, st, b) == (st1, true))
            && (!found ==> st1.cur == c.end && ScanLoop(false, w, st, b) == ScanLoop(false, w, st1, b))
    decreases c.end - st.cur
  {
    if st.cur < c.end {
      GroupsAgree(c, w, st, 0, a, b);
      var (st1, skip) := Sample(c, st, a);
      var (st2, skip2) := Sample(w, st, b);
      PinsAgree(c, w, st1.cur, |st.prev|);
      assert st1 == st2;
      if !st1.matched {
        var st3 := st1.(cur := Inc(st1.cur));
        ScanLoopAgrees(c, w, st3, skip, skip2);
        var (st4, found) := ScanLoop(false, c, st3, skip);
        if !found { SkipFlagIrrelevant(w, st4, skip2, b); }
      }
    }
  }

  // ----- One wait -----

  /** chunks shows w from the first chunk on, consecutively and up to its end. */
  ghost predicate Tiles(chunks: seq<Chunk>, w: Chunk) {
    && chunks != []
    && Shows(chunks[0], w)
    && (if |chunks| == 1 then chunks[0].end == w.end
        else chunks[0].end == chunks[1].start && Tiles(chunks[1..], w))
  }

  /** t is where one of the chunks ends and the next one starts. */
  ghost predicate IsCut(chunks: seq<Chunk>, t: nat) {
    |chunks| > 1 && (chunks[0].end == t || IsCut(chunks[1..], t))
  }

  /** The state between two waits: the last match is in the current chunk and not on its last
      sample, unless no chunk follows; before the first match the scan is at the chunk's start. */
  ghost predicate Ready(st: Scan, chunks: seq<Chunk>)
    requires chunks != []
  {
    && !st.zero
    && (st.matched ==> !st.first && chunks[0].Has(st.cur) && (st.cur + 1 < chunks[0].end || |chunks| == 1))
    && (!st.matched ==> st.cur == chunks[0].start)
  }

  lemma RestartKeepsZeroSkips(groups: seq<Group>)
    requires ZeroSkipAlone(groups)
    ensures ZeroSkipAlone(RestartSkips(groups))
  {
    forall j | 0 <= j < |groups|
      ensures (RestartGroup(groups[j]) == ZERO_SKIP) == (groups[j] == ZERO_SKIP)
      ensures groups[j] == ZERO_SKIP || NoZeroSkip(RestartGroup(groups[j]))
    {
      var r := RestartGroup(groups[j]);
      if r == ZERO_SKIP { assert IsZeroSkip(r[0]) && IsZeroSkip(groups[j][0]); }
      if NoZeroSkip(groups[j]) {
        forall k | 0 <= k < |r| ensures !IsZeroSkip(r[k]) { assert !IsZeroSkip(groups[j][k]); }
      }
    }
  }

  lemma EnterAgrees(c: Chunk, w: Chunk, st: Scan)
    requires Shows(c, w) && WellFormed(st.groups) && c.Has(st.cur)
    ensures Enter(c, st) == Enter(w, st)
    ensures ZeroSkipAlone(Enter(c, st).groups)
  {
    assert InitialPins(c, st.cur, st.prev) == InitialPins(w, st.cur, st.prev);
    RestartKeepsZeroSkips(st.groups);
  }

  /** One call on a chunk: either the call on the whole capture finds the same match, or it is the
      call made from the state at the chunk's end. */
  lemma FindMatchAgrees(c: Chunk, w: Chunk, st: Scan)
    requires Shows(c, w) && WellFormed(st.groups) && c.Has(st.cur) && !st.zero
    requires st.matched ==> !st.first && (st.cur + 1 < c.end || c.end == w.end)
    ensures var (st1, found) := FindMatch(false, c, st);
            && WellFormed(st1.groups) && !st1.zero
            && (found ==> c.Has(st1.cur) && FindMatch(false, w, st) == (st1, true))
            && (!found ==> st1.cur == c.end && !st1.first)
            && (!found && c.end < w.end ==> !st1.matched && FindMatch(false, w, st) == FindMatch(false, w, st1))
            && (!found && c.end == w.end ==> !FindMatch(false, w, st).1)
  {
    EnterAgrees(c, w, st);
    FindMatchKeepsConditions(false, c, st);
    var st0 := Enter(c, st);
    ScanLoopAgrees(c, w, st0, true, true);
    var (st1, found) := FindMatch(false, c, st);
    if !found && c.end < w.end {
      assert !st1.matched && st1.mask == {};
      assert Enter(w, st1) == st1;
    }
  }

  /** A match, or the automatic one of a list without conditions, which leaves the scan where it is. */
  ghost predicate Lands(st: Scan, r: WaitResult, w: Chunk) {
    && r.Hit? && Tiles(r.rest, w) && r.rest[0].Has(r.st.cur)
    && !r.st.zero && !r.st.first && ZeroSkipAlone(r.st.groups)
    && (if HaveConditions(st.groups) then r.st.matched
        else r.st == st.(first := false) && (r.st.matched || r.st.cur == r.rest[0].start))
  }

  /** A wait over any tiling of the capture is one scan of the whole capture. */
  lemma {:induction false} WaitScansWhole(st: Scan, chunks: seq<Chunk>, w: Chunk)
    requires Tiles(chunks, w) && ZeroSkipAlone(st.groups) && Ready(st, chunks)
    ensures var r := Wait(false, st, chunks); var (s, found) := FindMatch(false, w, st);
            && (r.Hit? <==> found)
            && (r.Hit? ==> r.st == s.(first := false) && Lands(st, r, w))
    ensures forall t :: Wait(false, st, chunks).Hit? && IsCut(Wait(false, st, chunks).rest, t) ==> IsCut(chunks, t)
    decreases |chunks|
  {
    var c := chunks[0];
    if !HaveConditions(st.groups) { return; }
    FindMatchAgrees(c, w, st);
    var (st1, found) := FindMatch(false, c, st);
    if !found && |chunks| > 1 {
      assert Shows(chunks[1..][0], w);
      WaitScansWhole(st1, chunks[1..], w);
    } else if !found {
      assert Wait(false, st1, chunks[1..]) == Blocked;
    }
  }

  lemma UncutWait(jump: bool, st: Scan, w: Chunk)
    ensures var (s, found) := FindMatch(jump, w, st);
            Wait(jump, st, [w]) == if found then Hit(s.(first := false), [w]) else Blocked
  {
    var (s, found) := FindMatch(jump, w, st);
    if !found {
      assert Wait(jump, s, [w][1..]) == Blocked;
    }
  }

  // ----- Whole runs -----

  /** In what the decoder asks for after the events in seen a SKIP(0) stands alone. It may ask for nothing,
      which leaves the list before in place, or for no conditions, which matches at once. */
  ghost predicate Asks(next: Decoder, seen: seq<Event>) {
    ZeroSkipAlone(next(seen))
  }

  ghost predicate AsksWell(next: Decoder) {
    forall seen :: Asks(next, seen)
  }

  /** None of the waits that another one follows returned on the last sample before a cut. */
  ghost predicate OffCuts(trace: seq<Event>, n: nat, chunks: seq<Chunk>) {
    forall i :: 0 <= i < |trace| && i + 1 < n ==> !IsCut(chunks, trace[i].sample + 1)
  }

  lemma OffCutsTail(e: Event, tail: seq<Event>, n: nat, chunks: seq<Chunk>, rest: seq<Chunk>)
    requires n > 1 && OffCuts([e] + tail, n, chunks)
    requires forall t :: IsCut(rest, t) ==> IsCut(chunks, t)
    ensures OffCuts(tail, n - 1, rest)
    ensures !IsCut(rest, e.sample + 1)
  {
    assert ([e] + tail)[0] == e;
    forall i | 0 <= i < |tail| && i + 1 < n - 1
      ensures !IsCut(rest, tail[i].sample + 1)
    {
      assert ([e] + tail)[i + 1] == tail[i];
    }
  }

  lemma FirstPinsAgree(chunks: seq<Chunk>, w: Chunk, t: nat, n: nat)
    requires Tiles(chunks, w) && chunks[0].Has(t)
    ensures PinsAt(chunks[0], t, n) == PinsAt(w, t, n)
  {
  }

  /** The two waits hit alike, and what is left of the chunks still tiles the capture. */
  ghost predicate SameHit(st: Scan, r: WaitResult, q: WaitResult, w: Chunk) {
    r.Hit? && q.Hit? && r.st == q.st && q.rest == [w] && Lands(st, r, w) && EventOf(r.st, r.rest[0]) == EventOf(r.st, w)
  }

  lemma {:induction false} WaitsAlike(st: Scan, chunks: seq<Chunk>, w: Chunk)
    requires Tiles(chunks, w) && ZeroSkipAlone(st.groups) && Ready(st, chunks)
    ensures Wait(false, st, chunks).Blocked? <==> Wait(false, st, [w]).Blocked?
    ensures Wait(false, st, chunks).Hit? ==> SameHit(st, Wait(false, st, chunks), Wait(false, st, [w]), w)
  {
    WaitScansWhole(st, chunks, w);
    UncutWait(false, st, w);
    var r := Wait(false, st, chunks);
    if r.Hit? {
      FirstPinsAgree(r.rest, w, r.st.cur, |r.st.prev|);
    }
  }

  /** The premises of a run over a tiling, for its next n waits. */
  ghost predicate OnTrack(next: Decoder, seen: seq<Event>, n: nat, st: Scan, chunks: seq<Chunk>, w: Chunk) {
    && AsksWell(next) && Tiles(chunks, w) && ZeroSkipAlone(st.groups)
    && (n > 0 ==> Ready(st, chunks))
    && OffCuts(Run(false, next, seen, n, st, [w]), n, chunks)
  }

  /** The next wait of a run on track hits alike with and without cuts and leaves the run on track. */
  lemma {:induction false} NextWait(next: Decoder, seen: seq<Event>, n: nat, st: Scan, chunks: seq<Chunk>, w: Chunk)
    requires n > 0 && OnTrack(next, seen, n, st, chunks, w)
    ensures var st1 := Install(st, next(seen)); var r := Wait(false, st1, chunks); var q := Wait(false, st1, [w]);
            && (r.Blocked? <==> q.Blocked?)
            && (r.Hit? ==> SameHit(st1, r, q, w) && OnTrack(next, seen + [EventOf(r.st, w)], n - 1, r.st, r.rest, w))
  {
    hide ZeroSkipAlone, Wait, HaveConditions, Tiles;
    var st1 := Install(st, next(seen));
    assert Asks(next, seen);
    WaitsAlike(st1, chunks, w);
    var r := Wait(false, st1, chunks);
    if r.Hit? {
      var e := EventOf(r.st, w);
      var tail := Run(false, next, seen + [e], n - 1, r.st, [w]);
      assert Run(false, next, seen, n, st, [w]) == [e] + tail by {
        RunUnfolds(false, next, seen, n, st, [w], Wait(false, st1, [w]));
      }
      if n > 1 {
        WaitScansWhole(st1, chunks, w);
        OffCutsTail(e, tail, n, chunks, r.rest);
        NoCutReady(r.st, r.rest, w);
      }
    }
  }

  /** A scan that does not stand on the last sample before a cut is ready for the next wait. */
  lemma NoCutReady(st: Scan, chunks: seq<Chunk>, w: Chunk)
    requires Tiles(chunks, w) && chunks[0].Has(st.cur) && !st.zero && !st.first && (st.matched || st.cur == chunks[0].start)
    requires !IsCut(chunks, st.cur + 1)
    ensures Ready(st, chunks)
  {
  }

  lemma RunUnfolds(jump: bool, next: Decoder, seen: seq<Event>, n: nat, st: Scan, chunks: seq<Chunk>, r: WaitResult)
    requires n > 0 && r == Wait(jump, Install(st, next(seen)), chunks)
    ensures Run(jump, next, seen, n, st, chunks)
         == if r.Blocked? then [] else var e := EventOf(r.st, r.rest[0]); [e] + Run(jump, next, seen + [e], n - 1, r.st, r.rest)
  {
  }

  /** A run over any tiling is the run over the uncut capture. */
  lemma {:induction false} RunScansWhole(next: Decoder, seen: seq<Event>, n: nat, st: Scan, chunks: seq<Chunk>, w: Chunk)
    requires OnTrack(next, seen, n, st, chunks, w)
    ensures Run(false, next, seen, n, st, chunks) == Run(false, next, seen, n, st, [w])
    decreases n
  {
    hide OnTrack, Lands, Wait, Install;
    if n > 0 {
      NextWait(next, seen, n, st, chunks, w);
      var r, q := Wait(false, Install(st, next(seen)), chunks), Wait(false, Install(st, next(seen)), [w]);
      RunUnfolds(false, next, seen, n, st, chunks, r);
      RunUnfolds(false, next, seen, n, st, [w], q);
      if r.Hit? {
        RunScansWhole(next, seen + [EventOf(r.st, w)], n - 1, r.st, r.rest, w);
      }
    }
  }

  /** State after start() and acceptance of the first chunk: no list of conditions is there yet. */
  ghost predicate Started(st: Scan, w: Chunk) {
    !st.matched && !st.zero && st.cur == w.start && st.groups == []
  }

  lemma {:induction false} StartsOnTrack(next: Decoder, n: nat, st: Scan, chunks: seq<Chunk>, w: Chunk)
    requires AsksWell(next) && Started(st, w) && Tiles(chunks, w) && chunks[0].start == w.start
    requires OffCuts(Run(false, next, [], n, st, [w]), n, chunks)
    ensures OnTrack(next, [], n, st, chunks, w)
  {
    hide AsksWell, Tiles, OffCuts, Run;
    assert chunks != [] by { TilesSome(chunks, w); }
  }

  lemma TilesSome(chunks: seq<Chunk>, w: Chunk)
    requires Tiles(chunks, w)
    ensures chunks != []
  {
  }

  /** Chunk independence of the per-sample scan: however the capture is cut, every decoder sees the
      same events, provided no wait of the uncut run returns where one of the cuts was made. */
  lemma {:induction false} ChunkIndependence(next: Decoder, n: nat, st: Scan, a: seq<Chunk>, b: seq<Chunk>, w: Chunk)
    requires AsksWell(next) && Started(st, w)
    requires Tiles(a, w) && a[0].start == w.start && OffCuts(Run(false, next, [], n, st, [w]), n, a)
    requires Tiles(b, w) && b[0].start == w.start && OffCuts(Run(false, next, [], n, st, [w]), n, b)
    ensures Run(false, next, [], n, st, a) == Run(false, next, [], n, st, b)
  {
    StartsOnTrack(next, n, st, a, w);
    StartsOnTrack(next, n, st, b, w);
    hide *;
    RunScansWhole(next, [], n, st, a, w);
    RunScansWhole(next, [], n, st, b, w);
  }
}
