/** What a wait promises, without chunks, counters or remembered pins: the least later sample at
    which a group holds, and exactly the groups that hold there. */
module ScannerSpec {
  import opened Scanner
  import opened ScannerChunks

  // ----- The promise -----

  /** Where a wait starts: the first sample to examine, the sample skips are counted from, and the
      pins before the first examined sample. */
  datatype Origin = Origin(from: nat, base: nat, pins: Pins)

  function LevelBefore(w: Chunk, o: Origin, t: nat, ch: nat): nat {
    if t <= o.from then Pin(o.pins, ch) else w.Level(t - 1, ch)
  }

  /** What a term asks of the levels of its channel at two neighbouring samples: of the later one, or how
      they lie to each other. A level of 2, "same as sample 0" never replaced, takes part in no edge. */
  predicate Fits(before: nat, now: nat, t: Term)
    requires !t.Skip?
  {
    match t
    case High(_) => now == 1
    case Low(_) => now == 0
    case Rising(_) => before < now < 2
    case Falling(_) => now < before < 2
    case EitherEdge(_) => before < 2 && now < 2 && before != now
    case NoEdge(_) => before < 2 && now < 2 && before == now
  }

  predicate TermHolds(w: Chunk, o: Origin, t: nat, term: Term) {
    if term.Skip? then t == o.base + term.count
    else Fits(LevelBefore(w, o, t, term.ch), w.Level(t, term.ch), term)
  }

  predicate GroupHolds(w: Chunk, o: Origin, t: nat, g: Group) {
    g != [] && forall k :: 0 <= k < |g| ==> TermHolds(w, o, t, g[k])
  }

  function Holding(w: Chunk, o: Origin, t: nat, groups: seq<Group>): set<nat> {
    set j | 0 <= j < |groups| && GroupHolds(w, o, t, groups[j])
  }

  /** s is the least sample from o.from on at which some group holds. */
  ghost predicate IsLeast(w: Chunk, o: Origin, groups: seq<Group>, s: nat) {
    && o.from <= s < w.end
    && Holding(w, o, s, groups) != {}
    && forall u :: o.from <= u < s ==> Holding(w, o, u, groups) == {}
  }

  ghost predicate NeverHolds(w: Chunk, o: Origin, groups: seq<Group>) {
    forall u :: o.from <= u < w.end ==> Holding(w, o, u, groups) == {}
  }

  // ----- Skip counters along the scan -----

  predicate IsLoneSkip(g: Group) {
    |g| == 1 && g[0].Skip? && g[0].count > 0
  }

  predicate NoSkip(g: Group) {
    forall k :: 0 <= k < |g| ==> !g[k].Skip?
  }

  /** Every SKIP counts at least one sample and is alone in its group. */
  ghost predicate SkipsAlone(groups: seq<Group>) {
    forall j :: 0 <= j < |groups| ==> IsLoneSkip(groups[j]) || NoSkip(groups[j])
  }

  /** The group after its SKIP has counted age samples. */
  function Aged(g: Group, age: nat): Group {
    if IsLoneSkip(g) then [g[0].(skipped := age)] else g
  }

  ghost predicate AreAged(groups: seq<Group>, now: seq<Group>, age: nat) {
    |now| == |groups| && forall j :: 0 <= j < |groups| ==> now[j] == Aged(groups[j], age)
  }

  lemma SkipsAloneWellFormed(groups: seq<Group>)
    requires SkipsAlone(groups)
    ensures ZeroSkipAlone(groups)
  {
    forall j | 0 <= j < |groups| ensures NoZeroSkip(groups[j]) && groups[j] != ZERO_SKIP {
      assert IsLoneSkip(groups[j]) || NoSkip(groups[j]);
      assert !NoZeroSkip(ZERO_SKIP) by { assert IsZeroSkip(ZERO_SKIP[0]); }
    }
  }

  // ----- One sample -----

  /** The scan is at sample t of the uncut capture, no group has held since o.from. */
  ghost predicate Scanning(w: Chunk, o: Origin, st: Scan) {
    && w.fixed == map[] && w.start <= st.cur < w.end && !st.zero
    && o.base <= o.from <= st.cur
    && forall ch: nat :: Pin(st.prev, ch) == LevelBefore(w, o, st.cur, ch)
  }

  lemma {:induction false} TermsHold(w: Chunk, o: Origin, st: Scan, g: Group, k: nat, skip: bool)
    requires Scanning(w, o, st) && NoSkip(g) && k <= |g|
    ensures TermsFrom(w, st, false, g, k, skip).group == g
    ensures !TermsFrom(w, st, false, g, k, skip).zero
    ensures TermsFrom(w, st, false, g, k, skip).ok <==> forall i :: k <= i < |g| ==> TermHolds(w, o, st.cur, g[i])
    decreases |g| - k
  {
    if k < |g| {
      var r := TermAt(w, st, false, g[k]);
      assert g[k := r.term] == g;
      if r.ok {
        TermsHold(w, o, st, g, k + 1, r.skip);
      }
    }
  }

  lemma GroupMatches(w: Chunk, o: Origin, st: Scan, g: Group, j: nat)
    requires Scanning(w, o, st) && j < |st.groups| && (IsLoneSkip(g) || NoSkip(g))
    requires st.groups[j] == Aged(g, st.cur - o.base)
    requires IsLoneSkip(g) ==> st.cur <= o.base + g[0].count
    ensures var r := GroupAt(w, st, j).0;
            if GroupHolds(w, o, st.cur, g) then r == st.(mask := st.mask + {j})
            else r == st.(groups := st.groups[j := Aged(g, st.cur - o.base + 1)])
  {
    var h := st.groups[j];
    if IsLoneSkip(g) {
      var r := TermAt(w, st, false, h[0]);
      assert TermsFrom(w, st, false, h, 0, false) ==
             if r.ok then TermsFrom(w, st, r.zero, h[0 := r.term], 1, r.skip)
             else GroupOutcome(h[0 := r.term], r.zero, false, r.skip);
      assert GroupHolds(w, o, st.cur, g) <==> TermHolds(w, o, st.cur, g[0]);
      assert r.ok ==> h[0 := r.term] == h;
      assert !r.ok ==> h[0 := r.term] == Aged(g, st.cur - o.base + 1);
    } else {
      TermsHold(w, o, st, g, 0, false);
    }
    assert st.groups[j := h] == st.groups;
  }

  /** Every lone SKIP that has not matched yet still has samples to count. */
  ghost predicate Unexpired(o: Origin, groups: seq<Group>, t: nat) {
    forall j :: 0 <= j < |groups| && IsLoneSkip(groups[j]) ==> t <= o.base + groups[j][0].count
  }

  /** The groups up to j have been evaluated at the given age, holding being those that matched. */
  ghost predicate HalfAged(groups: seq<Group>, now: seq<Group>, j: nat, age: nat, holding: set<nat>) {
    && |now| == |groups|
    && (forall i :: 0 <= i < |groups| ==>
          now[i] == Aged(groups[i], if i < j && i !in holding then age + 1 else age))
  }

  lemma AgesOne(groups: seq<Group>, now: seq<Group>, now1: seq<Group>, j: nat, age: nat, holding: set<nat>)
    requires HalfAged(groups, now, j, age, holding) && j < |groups|
    requires now1 == if j in holding || groups[j] == [] then now else now[j := Aged(groups[j], age + 1)]
    ensures HalfAged(groups, now1, j + 1, age, holding)
  {
  }

  /** The scan at sample t with the groups up to j evaluated and the matching ones in the mask. */
  ghost predicate Midway(w: Chunk, o: Origin, st: Scan, groups: seq<Group>, t: nat, holding: set<nat>, j: nat) {
    && Scanning(w, o, st) && st.cur == t && SkipsAlone(groups) && Unexpired(o, groups, t)
    && holding == Holding(w, o, t, groups)
    && HalfAged(groups, st.groups, j, t - o.base, holding)
    && forall i :: i in st.mask <==> i in holding && i < j
  }

  lemma StaysScanning(w: Chunk, o: Origin, st: Scan, j: nat)
    requires Scanning(w, o, st) && j < |st.groups|
    ensures o.base <= st.cur
    ensures forall st1: Scan :: st1.cur == st.cur && st1.zero == st.zero && st1.prev == st.prev ==> Scanning(w, o, st1)
  {
  }

  lemma GroupStepMatches(w: Chunk, o: Origin, st: Scan, groups: seq<Group>, t: nat, holding: set<nat>, j: nat)
    requires j < |groups| && Midway(w, o, st, groups, t, holding, j)
    ensures Midway(w, o, GroupAt(w, st, j).0, groups, t, holding, j + 1)
  {
    hide GroupAt, GroupHolds, Scanning;
    var st1 := GroupAt(w, st, j).0;
    assert IsLoneSkip(groups[j]) || NoSkip(groups[j]);
    StaysScanning(w, o, st, j);
    GroupMatches(w, o, st, groups[j], j);
    AgesOne(groups, st.groups, st1.groups, j, t - o.base, holding);
  }

  lemma {:induction false} GroupsMatch(w: Chunk, o: Origin, st: Scan, groups: seq<Group>, t: nat, holding: set<nat>, j: nat, allSkip: bool)
    requires j <= |groups| == |st.groups| && Midway(w, o, st, groups, t, holding, j)
    ensures Midway(w, o, GroupsFrom(w, st, j, allSkip).0, groups, t, holding, |groups|)
    decreases |groups| - j
  {
    hide Midway;
    if j < |groups| {
      GroupStepMatches(w, o, st, groups, t, holding, j);
      var (st1, skip) := GroupAt(w, st, j);
      GroupsMatch(w, o, st1, groups, t, holding, j + 1, allSkip && skip);
    }
  }

  // ----- The loop -----

  /** No channel beyond the n known ones is ever read as 1. */
  ghost predicate HasChannels(w: Chunk, n: nat) {
    forall t: nat, ch: nat :: ch >= n ==> w.Level(t, ch) == 0
  }

  /** One sample: the mask is what holds there; otherwise every skip has counted it. */
  lemma SampleMatches(w: Chunk, o: Origin, st: Scan, groups: seq<Group>, allSkip: bool)
    requires Scanning(w, o, st) && HasChannels(w, |st.prev|) && st.mask == {}
    requires SkipsAlone(groups) && Unexpired(o, groups, st.cur)
    requires AreAged(groups, st.groups, st.cur - o.base)
    ensures var st1 := Sample(w, st, allSkip).0;
            && st1.mask == Holding(w, o, st.cur, groups) && st1.cur == st.cur
            && st1.prev == PinsAt(w, st.cur, |st.prev|)
            && (!st1.matched ==> !st1.zero && AreAged(groups, st1.groups, st.cur - o.base + 1)
                                 && Unexpired(o, groups, st.cur + 1))
            && (forall ch: nat :: Pin(st1.prev, ch) == w.Level(st.cur, ch))
  {
    var holding := Holding(w, o, st.cur, groups);
    GroupsMatch(w, o, st, groups, st.cur, holding, 0, allSkip);
    var st1 := Sample(w, st, allSkip).0;
    assert st1.mask == holding;
    if !st1.matched {
      NoneExpires(w, o, groups, st.cur);
    }
  }

  lemma NoneExpires(w: Chunk, o: Origin, groups: seq<Group>, t: nat)
    requires Unexpired(o, groups, t) && Holding(w, o, t, groups) == {}
    ensures Unexpired(o, groups, t + 1)
  {
    forall j | 0 <= j < |groups| && IsLoneSkip(groups[j])
      ensures t + 1 <= o.base + groups[j][0].count
    {
      assert j !in Holding(w, o, t, groups);
      assert !TermHolds(w, o, t, groups[j][0]);
    }
  }

  /** Nothing has held before sample t. */
  ghost predicate NoneYet(w: Chunk, o: Origin, groups: seq<Group>, t: nat) {
    forall u :: o.from <= u < t && u < w.end ==> Holding(w, o, u, groups) == {}
  }

  lemma {:induction false} LoopFindsLeast(w: Chunk, o: Origin, st: Scan, groups: seq<Group>, allSkip: bool)
    requires st.cur < w.end ==> Scanning(w, o, st)
    requires o.base <= o.from <= st.cur && HasChannels(w, |st.prev|)
    requires SkipsAlone(groups) && Unexpired(o, groups, st.cur) && st.mask == {}
    requires AreAged(groups, st.groups, st.cur - o.base)
    requires NoneYet(w, o, groups, st.cur)
    ensures var (r, found) := ScanLoop(false, w, st, allSkip);
            if found then
              IsLeast(w, o, groups, r.cur) && r.mask == Holding(w, o, r.cur, groups) && r.prev == PinsAt(w, r.cur, |st.prev|)
            else NeverHolds(w, o, groups)
    decreases if st.cur < w.end then w.end - st.cur else 0
  {
    if st.cur < w.end {
      SampleMatches(w, o, st, groups, allSkip);
      var (st1, skip) := Sample(w, st, allSkip);
      if !st1.matched {
        var st2 := st1.(cur := Inc(st1.cur));
        assert NoneYet(w, o, groups, st2.cur);
        LoopFindsLeast(w, o, st2, groups, skip);
      }
    }
  }

  // ----- One wait -----

  /** The origin of the next wait: just after the last match, or at the start of the capture. */
  function OriginOf(w: Chunk, st: Scan): Origin {
    if st.matched then Origin(st.cur + 1, st.cur, st.prev)
    else Origin(st.cur, st.cur, if st.first then InitialPins(w, st.cur, st.prev) else st.prev)
  }

  /** The counters of a freshly built condition list. */
  ghost predicate AreFresh(groups: seq<Group>) {
    forall j, k :: 0 <= j < |groups| && 0 <= k < |groups[j]| && groups[j][k].Skip? ==> groups[j][k].skipped == 0
  }

  lemma EnterAges(w: Chunk, st: Scan)
    requires SkipsAlone(st.groups) && (!st.matched ==> AreFresh(st.groups))
    ensures AreAged(st.groups, Enter(w, st).groups, if st.matched then 1 else 0)
  {
    forall j | 0 <= j < |st.groups|
      ensures Enter(w, st).groups[j] == Aged(st.groups[j], if st.matched then 1 else 0)
    {
      assert IsLoneSkip(st.groups[j]) || NoSkip(st.groups[j]);
      assert RestartGroup(st.groups[j]) == Aged(st.groups[j], 1);
      assert !st.matched ==> Aged(st.groups[j], 0) == st.groups[j];
    }
  }

  /** The first sample of all, for a channel whose initial pin is p: "same as sample 0" makes no edge there,
      and a given pin is what edges are judged against. */
  lemma {:induction false} FirstSampleHolds(st: Scan, w: Chunk, term: Term)
    requires st.first && !st.matched && !term.Skip? && term.ch < |st.prev|
    ensures var p, now, holds := st.prev[term.ch], w.Level(st.cur, term.ch), TermHolds(w, OriginOf(w, st), st.cur, term);
            && (p == SAME_AS_SAMPLE0 && (term.Rising? || term.Falling? || term.EitherEdge?) ==> !holds)
            && (p == SAME_AS_SAMPLE0 && term.NoEdge? && now < 2 ==> holds)
            && (p == 0 && term.Rising? ==> (holds <==> now == 1)) && (p == 1 && term.Rising? ==> !holds)
            && (p == 1 && term.Falling? ==> (holds <==> now == 0)) && (p == 0 && term.Falling? ==> !holds)
            && (p < 2 && now < 2 && term.EitherEdge? ==> (holds <==> p != now))
            && (p < 2 && now < 2 && term.NoEdge? ==> (holds <==> p == now))
  {
  }

  lemma WholeScanFindsLeast(st: Scan, w: Chunk)
    requires w.fixed == map[] && w.start <= st.cur < w.end && !st.zero && HasChannels(w, |st.prev|)
    requires HaveConditions(st.groups) && SkipsAlone(st.groups) && (!st.matched ==> AreFresh(st.groups))
    requires st.matched ==> !st.first
    ensures var (r, found) := FindMatch(false, w, st); var o := OriginOf(w, st);
            if found then
              IsLeast(w, o, st.groups, r.cur) && r.mask == Holding(w, o, r.cur, st.groups) && r.prev == PinsAt(w, r.cur, |st.prev|)
            else NeverHolds(w, o, st.groups)
  {
    EnterAges(w, st);
    var o := OriginOf(w, st);
    var st0 := Enter(w, st);
    assert st0.cur == o.from;
    forall ch: nat ensures Pin(st0.prev, ch) == LevelBefore(w, o, st0.cur, ch) {}
    LoopFindsLeast(w, o, st0, st.groups, true);
  }

  /** The outcome of a wait is the one promised for the origin o. */
  ghost predicate Promised(r: WaitResult, o: Origin, w: Chunk, groups: seq<Group>) {
    match r
    case Hit(s, rest) => IsLeast(w, o, groups, s.cur) && s.mask == Holding(w, o, s.cur, groups)
                         && s.prev == PinsAt(w, s.cur, |s.prev|)
    case Blocked => NeverHolds(w, o, groups)
  }

  /** A successful wait after a match at s returns the least sample above s at which some group
      holds, and its mask is the set of all groups that hold there; a wait that stays blocked has
      overlooked none. Edges compare neighbouring samples of the capture (the first examined one
      with the pins remembered from s), a SKIP(n) holds n samples after s, whatever the chunks are. */
  lemma WaitMeetsSpec(st: Scan, chunks: seq<Chunk>, w: Chunk)
    requires Tiles(chunks, w) && HaveConditions(st.groups) && Ready(st, chunks) && HasChannels(w, |st.prev|)
    requires SkipsAlone(st.groups) && (!st.matched ==> AreFresh(st.groups))
    ensures Promised(Wait(false, st, chunks), OriginOf(w, st), w, st.groups)
  {
    SkipsAloneWellFormed(st.groups);
    WaitScansWhole(st, chunks, w);
    WholeScanFindsLeast(st, w);
  }

  // ----- Exactly when the promise is kept -----

  /** The samples stepped over because the last match, at sample s, ends a chunk that another one
      follows: the matched flag is still set when that one is scanned. */
  function Lost(chunks: seq<Chunk>, s: nat): (n: nat) {
    if |chunks| > 1 && s + 1 == chunks[0].end then 1 + Lost(chunks[1..], s + 1) else 0
  }

  /** The origin of the wait after a match at s when k samples are lost. */
  function ExactOrigin(st: Scan, chunks: seq<Chunk>): Origin {
    var k := Lost(chunks, st.cur);
    Origin(st.cur + k + 1, st.cur + k, st.prev)
  }

  lemma RestartedHoldsAlike(w: Chunk, o: Origin, groups: seq<Group>)
    requires SkipsAlone(groups)
    ensures SkipsAlone(RestartSkips(groups))
    ensures forall t :: Holding(w, o, t, RestartSkips(groups)) == Holding(w, o, t, groups)
  {
    forall j | 0 <= j < |groups|
      ensures IsLoneSkip(groups[j]) ==> IsLoneSkip(RestartGroup(groups[j]))
      ensures NoSkip(groups[j]) ==> RestartGroup(groups[j]) == groups[j]
      ensures forall t :: GroupHolds(w, o, t, RestartGroup(groups[j])) == GroupHolds(w, o, t, groups[j])
    {
      var r := RestartGroup(groups[j]);
      forall t: nat ensures GroupHolds(w, o, t, r) == GroupHolds(w, o, t, groups[j]) {
        assert forall k :: 0 <= k < |r| ==> TermHolds(w, o, t, r[k]) == TermHolds(w, o, t, groups[j][k]);
      }
    }
  }

  lemma PromisedAlike(r: WaitResult, o: Origin, w: Chunk, groups: seq<Group>)
    requires SkipsAlone(groups) && Promised(r, o, w, RestartSkips(groups))
    ensures Promised(r, o, w, groups)
  {
    RestartedHoldsAlike(w, o, groups);
  }

  /** The state in which a wait returned a match in the first of the chunks. */
  ghost predicate AfterMatch(st: Scan, chunks: seq<Chunk>, w: Chunk) {
    && Tiles(chunks, w) && HasChannels(w, |st.prev|)
    && st.matched && !st.first && !st.zero && chunks[0].Has(st.cur)
  }

  function Released(st: Scan): Scan
    requires st.cur < U64_MAX
  {
    st.(cur := st.cur + 1, mask := {}, groups := RestartSkips(st.groups))
  }

  lemma AfterRelease(st: Scan, chunks: seq<Chunk>, w: Chunk)
    requires AfterMatch(st, chunks, w) && |chunks| > 1 && st.cur + 1 == chunks[0].end && SkipsAlone(st.groups)
    ensures AfterMatch(Released(st), chunks[1..], w)
    ensures SkipsAlone(Released(st).groups)
    ensures ExactOrigin(Released(st), chunks[1..]) == ExactOrigin(st, chunks)
  {
    assert Tiles(chunks, w) && Tiles(chunks[1..], w);
    RestartedHoldsAlike(w, ExactOrigin(st, chunks), st.groups);
  }

  /** The chunk that ends with the last match is released with the matched flag still set. */
  lemma ReleasedUnscanned(st: Scan, chunks: seq<Chunk>)
    requires chunks != [] && HaveConditions(st.groups) && st.matched && !st.first && st.cur + 1 == chunks[0].end
    ensures Wait(false, st, chunks) == Wait(false, Released(st), chunks[1..])
  {
    var st1 := Enter(chunks[0], st);
    assert st1 == Released(st);
    assert ScanLoop(false, chunks[0], st1, true) == (st1, false);
    assert FindMatch(false, chunks[0], st) == (st1, false);
  }

  /** What a wait after a match at s returns in every case: the k samples after s that Lost counts are
      as if they had never been captured. Skips are counted from s + k, and an edge at the first
      examined sample s + k + 1 is judged against the pins of s. */
  lemma {:induction false} WaitExact(st: Scan, chunks: seq<Chunk>, w: Chunk)
    requires AfterMatch(st, chunks, w) && HaveConditions(st.groups) && SkipsAlone(st.groups)
    ensures Promised(Wait(false, st, chunks), ExactOrigin(st, chunks), w, st.groups)
    decreases |chunks|
  {
    if |chunks| > 1 && st.cur + 1 == chunks[0].end {
      AfterRelease(st, chunks, w);
      ReleasedUnscanned(st, chunks);
      WaitExact(Released(st), chunks[1..], w);
      PromisedAlike(Wait(false, Released(st), chunks[1..]), ExactOrigin(st, chunks), w, st.groups);
    } else {
      WaitMeetsSpec(st, chunks, w);
      assert ExactOrigin(st, chunks) == OriginOf(w, st);
    }
  }

  lemma LoneSkipPromise(r: WaitResult, o: Origin, w: Chunk, n: nat)
    requires Promised(r, o, w, [[Skip(n, 0)]]) && o.from <= o.base + n
    ensures if o.base + n < w.end then r.Hit? && r.st.cur == o.base + n && r.st.mask == {0} else r.Blocked?
  {
    var groups := [[Skip(n, 0)]];
    forall t ensures Holding(w, o, t, groups) == if t == o.base + n then {0} else {} {
      assert GroupHolds(w, o, t, groups[0]) <==> TermHolds(w, o, t, groups[0][0]);
    }
    if o.base + n < w.end {
      assert Holding(w, o, o.base + n, groups) == {0};
    }
  }
}
