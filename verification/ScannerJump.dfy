/** The code jumps to the end of a chunk once every condition has failed on a constant channel: exactly
    when that is what the plain per-sample scan comes to, and lists for which it always is. */
module ScannerJump {
  import opened Scanner
  import opened ScannerChunks
  import opened ScannerSpec

  // ----- Premises -----

  predicate ReadsOnlyPacked(c: Chunk, g: Group) {
    forall k :: 0 <= k < |g| && !g[k].Skip? ==> g[k].ch !in c.fixed
  }

  predicate ReadsOnlyFixed(c: Chunk, g: Group) {
    forall k :: 0 <= k < |g| && !g[k].Skip? ==> g[k].ch in c.fixed
  }

  predicate IsEdge(t: Term) {
    t.Rising? || t.Falling? || t.EitherEdge? || t.NoEdge?
  }

  predicate NoEdgeOnlyPacked(c: Chunk, g: Group) {
    forall k :: 0 <= k < |g| && g[k].NoEdge? ==> g[k].ch !in c.fixed
  }

  predicate EdgesOnlyFixed(c: Chunk, g: Group) {
    forall k :: 0 <= k < |g| && IsEdge(g[k]) ==> g[k].ch in c.fixed
  }

  /** The channels a group reads are among the first n. */
  predicate ReadsKnown(g: Group, n: nat) {
    forall k :: 0 <= k < |g| && !g[k].Skip? ==> g[k].ch < n
  }

  ghost predicate AllKnown(groups: seq<Group>, n: nat) {
    forall j :: 0 <= j < |groups| ==> ReadsKnown(groups[j], n)
  }

  /** Whatever is remembered and counted: some group reads no constant channel, or edges are only asked
      of constant channels, and not that there is none. */
  ghost predicate JumpSafe(c: Chunk, groups: seq<Group>, n: nat) {
    && c.start < c.end && AllKnown(groups, n)
    && ((exists j :: 0 <= j < |groups| && groups[j] != [] && ReadsOnlyPacked(c, groups[j]))
        || (forall j :: 0 <= j < |groups| ==> EdgesOnlyFixed(c, groups[j]) && NoEdgeOnlyPacked(c, groups[j])))
  }

  // ----- States that no condition can tell apart -----

  ghost predicate AlikeOn(a: Scan, b: Scan, g: Group) {
    && a == b.(prev := a.prev) && |a.prev| == |b.prev|
    && forall k :: 0 <= k < |g| && IsEdge(g[k]) ==> Pin(a.prev, g[k].ch) == Pin(b.prev, g[k].ch)
  }

  /** Equal up to remembered pins that no group asks for an edge of. */
  ghost predicate Alike(a: Scan, b: Scan) {
    && a == b.(prev := a.prev) && |a.prev| == |b.prev|
    && forall j :: 0 <= j < |a.groups| ==> AlikeOn(a, b, a.groups[j])
  }

  lemma {:induction false} TermsAlike(c: Chunk, a: Scan, b: Scan, zero: bool, g: Group, k: nat, skip: bool)
    requires AlikeOn(a, b, g) && k <= |g|
    ensures TermsFrom(c, a, zero, g, k, skip) == TermsFrom(c, b, zero, g, k, skip)
    decreases |g| - k
  {
    if k < |g| {
      var r := TermAt(c, a, zero, g[k]);
      assert r == TermAt(c, b, zero, g[k]);
      if r.ok { TermsAlike(c, a, b, r.zero, g[k := r.term], k + 1, r.skip); }
    }
  }

  /** b is a, with its skip perhaps counted on. */
  predicate TermOnward(a: Term, b: Term) {
    a == b || (a.Skip? && b.Skip? && a.count == b.count && a.skipped <= b.skipped)
  }

  ghost predicate Onward(a: Group, b: Group) {
    |a| == |b| && forall k :: 0 <= k < |a| ==> TermOnward(a[k], b[k])
  }

  ghost predicate AllOnward(a: seq<Group>, b: seq<Group>) {
    |a| == |b| && forall j :: 0 <= j < |a| ==> Onward(a[j], b[j])
  }

  lemma {:induction false} TermsOnward(c: Chunk, st: Scan, zero: bool, g: Group, k: nat, skip: bool)
    requires k <= |g|
    ensures Onward(g, TermsFrom(c, st, zero, g, k, skip).group)
    decreases |g| - k
  {
    if k < |g| {
      var r := TermAt(c, st, zero, g[k]);
      if r.ok { TermsOnward(c, st, r.zero, g[k := r.term], k + 1, r.skip); }
    }
  }

  lemma {:induction false} OnwardTransitive(a: seq<Group>, b: seq<Group>, c: seq<Group>)
    requires AllOnward(a, b) && AllOnward(b, c)
    ensures AllOnward(a, c)
  {
    forall j | 0 <= j < |a| ensures Onward(a[j], c[j]) {
      assert Onward(a[j], b[j]) && Onward(b[j], c[j]);
    }
  }

  lemma {:induction false} OnwardBack(a: seq<Group>, b: seq<Group>)
    requires AllOnward(a, b) && AllOnward(b, a)
    ensures a == b
  {
    forall j | 0 <= j < |a| ensures a[j] == b[j] {
      assert Onward(a[j], b[j]) && Onward(b[j], a[j]);
    }
  }

  lemma {:induction false} GroupsOnward(c: Chunk, st: Scan, j: nat, skip: bool)
    requires j <= |st.groups|
    ensures AllOnward(st.groups, GroupsFrom(c, st, j, skip).0.groups)
    decreases |st.groups| - j
  {
    if j < |st.groups| {
      TermsOnward(c, st, st.zero, st.groups[j], 0, false);
      var (st1, skip1) := GroupAt(c, st, j);
      assert AllOnward(st.groups, st1.groups);
      GroupsOnward(c, st1, j + 1, skip && skip1);
      OnwardTransitive(st.groups, st1.groups, GroupsFrom(c, st1, j + 1, skip && skip1).0.groups);
    }
  }

  lemma {:induction false} LoopOnward(c: Chunk, st: Scan, skip: bool)
    ensures AllOnward(st.groups, ScanLoop(false, c, st, skip).0.groups)
    decreases if st.cur < c.end then c.end - st.cur else 0
  {
    if st.cur < c.end {
      GroupsOnward(c, st, 0, skip);
      var (st1, skip1) := Sample(c, st, skip);
      if !st1.matched {
        var st2 := st1.(cur := Inc(st1.cur));
        LoopOnward(c, st2, skip1);
        OnwardTransitive(st.groups, st1.groups, ScanLoop(false, c, st2, skip1).0.groups);
      }
    }
  }

  lemma {:induction false} GroupAlike(c: Chunk, a: Scan, b: Scan, j: nat)
    requires Alike(a, b) && j < |a.groups|
    ensures GroupAt(c, a, j).1 == GroupAt(c, b, j).1
    ensures Alike(GroupAt(c, a, j).0, GroupAt(c, b, j).0)
  {
    assert AlikeOn(a, b, a.groups[j]);
    TermsAlike(c, a, b, a.zero, a.groups[j], 0, false);
    TermsOnward(c, a, a.zero, a.groups[j], 0, false);
  }

  lemma {:induction false} GroupsAlike(c: Chunk, a: Scan, b: Scan, j: nat, skip: bool)
    requires Alike(a, b) && j <= |a.groups|
    ensures GroupsFrom(c, a, j, skip).1 == GroupsFrom(c, b, j, skip).1
    ensures Alike(GroupsFrom(c, a, j, skip).0, GroupsFrom(c, b, j, skip).0)
    decreases |a.groups| - j
  {
    if j < |a.groups| {
      GroupAlike(c, a, b, j);
      var (a1, skip1) := GroupAt(c, a, j);
      GroupsAlike(c, a1, GroupAt(c, b, j).0, j + 1, skip && skip1);
    }
  }

  /** Once a sample has been scanned, no difference is left. */
  lemma {:induction false} LoopsAlike(jump: bool, c: Chunk, a: Scan, b: Scan, skip: bool)
    requires Alike(a, b)
    ensures a.cur < c.end ==> ScanLoop(jump, c, a, skip) == ScanLoop(jump, c, b, skip)
    ensures a.cur >= c.end ==> ScanLoop(jump, c, a, skip) == (a, false) && ScanLoop(jump, c, b, skip) == (b, false)
  {
    if a.cur < c.end {
      GroupsAlike(c, a, b, 0, skip);
      assert Sample(c, a, skip) == Sample(c, b, skip);
    }
  }

  // ----- When the jump is taken -----

  /** From term k on: the first term that fails reads a constant channel, and those before it are not
      still skipping. */
  predicate StopsFrom(c: Chunk, st: Scan, g: Group, k: nat)
    decreases |g| - k
  {
    && k < |g|
    && (if g[k].Skip? then g[k].skipped == g[k].count && StopsFrom(c, st, g, k + 1)
        else if Fits(Pin(st.prev, g[k].ch), c.Level(st.cur, g[k].ch), g[k]) then StopsFrom(c, st, g, k + 1)
        else g[k].ch in c.fixed)
  }

  /** Every condition fails on a constant channel at the first sample. */
  ghost predicate AllStop(c: Chunk, st: Scan, j: nat) {
    forall i :: j <= i < |st.groups| && st.groups[i] != [] ==> StopsFrom(c, st, st.groups[i], 0)
  }

  lemma {:induction false} TermsStop(c: Chunk, st: Scan, zero: bool, g: Group, k: nat, skip: bool)
    requires k <= |g| && c.Has(st.cur)
    ensures var r := TermsFrom(c, st, zero, g, k, skip);
            && (!r.ok && r.skip <==> StopsFrom(c, st, g, k))
            && (StopsFrom(c, st, g, k) ==> r.group == g)
    decreases |g| - k
  {
    if k < |g| {
      var r := TermAt(c, st, zero, g[k]);
      if r.ok || !g[k].Skip? { assert g[k := r.term] == g; }
      if r.ok { TermsStop(c, st, r.zero, g, k + 1, r.skip); }
    }
  }

  /** The collected flag survives the first sample if and only if every condition stops so. */
  lemma {:induction false} FlagSurvives(c: Chunk, st: Scan, j: nat, skip: bool)
    requires c.Has(st.cur) && st.mask == {} && j <= |st.groups|
    ensures var (r, s) := GroupsFrom(c, st, j, skip);
            && (r.mask == {} && s <==> skip && AllStop(c, st, j))
            && (r.mask == {} && s ==> r == st.(zero := r.zero))
    decreases |st.groups| - j
  {
    if j < |st.groups| {
      var g := st.groups[j];
      TermsStop(c, st, st.zero, g, 0, false);
      var (st1, skip1) := GroupAt(c, st, j);
      assert st.groups[j := g] == st.groups;
      if g == [] || StopsFrom(c, st, g, 0) {
        assert st1 == st.(zero := st1.zero) && skip1;
        FlagSurvives(c, st1, j + 1, skip);
        SameStop(c, st, st1, j + 1);
      }
    }
  }

  lemma {:induction false} SameStop(c: Chunk, a: Scan, b: Scan, j: nat)
    requires a.groups == b.groups && a.prev == b.prev && a.cur == b.cur
    ensures AllStop(c, a, j) <==> AllStop(c, b, j)
  {
    forall g: Group ensures StopsFrom(c, a, g, 0) == StopsFrom(c, b, g, 0) {
      SameStopFrom(c, a, b, g, 0);
    }
  }

  lemma {:induction false} SameStopFrom(c: Chunk, a: Scan, b: Scan, g: Group, k: nat)
    requires a.prev == b.prev && a.cur == b.cur
    ensures StopsFrom(c, a, g, k) == StopsFrom(c, b, g, k)
    decreases |g| - k
  {
    if k < |g| { SameStopFrom(c, a, b, g, k + 1); }
  }

  // ----- What the plain scan does then -----

  /** At sample u + 1, judged against sample u: some term from k on fails, and those before it are not
      still skipping. */
  predicate StuckFrom(c: Chunk, u: nat, g: Group, k: nat)
    decreases |g| - k
  {
    && k < |g|
    && (if g[k].Skip? then g[k].skipped == g[k].count && StuckFrom(c, u, g, k + 1)
        else Fits(c.Level(u, g[k].ch), c.Level(u + 1, g[k].ch), g[k]) ==> StuckFrom(c, u, g, k + 1))
  }

  ghost predicate AllStuck(c: Chunk, u: nat, groups: seq<Group>, j: nat) {
    forall i :: j <= i < |groups| && groups[i] != [] ==> StuckFrom(c, u, groups[i], 0)
  }

  /** No condition matches or counts a skip between sample t and the end of the chunk. */
  ghost predicate StuckToEnd(c: Chunk, t: nat, groups: seq<Group>) {
    forall u :: t <= u && u + 1 < c.end ==> AllStuck(c, u, groups, 0)
  }

  /** In front of sample u + 1, with the pins of sample u remembered. */
  ghost predicate Sampled(c: Chunk, st: Scan, u: nat) {
    && c.start <= u && st.cur == u + 1 && !st.matched && st.mask == {} && !st.missing
    && AllKnown(st.groups, |st.prev|) && st.prev == PinsAt(c, u, |st.prev|)
  }

  lemma {:induction false} TermsStuck(c: Chunk, st: Scan, u: nat, zero: bool, g: Group, k: nat, skip: bool)
    requires k <= |g| && Sampled(c, st, u) && st.cur < c.end && ReadsKnown(g, |st.prev|)
    ensures var r := TermsFrom(c, st, zero, g, k, skip);
            if StuckFrom(c, u, g, k) then r.group == g && !r.ok && r.zero == zero else r.ok || r.group != g
    decreases |g| - k
  {
    if k < |g| {
      var r := TermAt(c, st, zero, g[k]);
      assert !g[k].Skip? ==> Pin(st.prev, g[k].ch) == c.Level(u, g[k].ch);
      if r.ok || !g[k].Skip? {
        assert g[k := r.term] == g;
      } else {
        assert g[k := r.term][k] != g[k];
      }
      if r.ok { TermsStuck(c, st, u, r.zero, g, k + 1, r.skip); }
    }
  }

  /** One group at such a sample: stuck, or it matches, or a skip has counted on. */
  lemma {:induction false} GroupStuck(c: Chunk, st: Scan, u: nat, j: nat)
    requires j < |st.groups| && Sampled(c, st, u) && st.cur < c.end
    ensures var g, st1 := st.groups[j], GroupAt(c, st, j).0;
            && AllOnward(st.groups, st1.groups)
            && (if g == [] || StuckFrom(c, u, g, 0) then st1 == st else st1.mask != {} || st1.groups != st.groups)
  {
    hide TermsFrom, StuckFrom;
    var g := st.groups[j];
    TermsStuck(c, st, u, st.zero, g, 0, false);
    TermsOnward(c, st, st.zero, g, 0, false);
    assert st.groups[j := g] == st.groups;
    var h := TermsFrom(c, st, st.zero, g, 0, false).group;
    assert st.groups[j := h][j] == h;
  }

  lemma {:induction false} GroupsStuck(c: Chunk, st: Scan, u: nat, j: nat, skip: bool)
    requires j <= |st.groups| && Sampled(c, st, u) && st.cur < c.end
    ensures var r := GroupsFrom(c, st, j, skip).0;
            if AllStuck(c, u, st.groups, j) then r == st else r.mask != {} || r.groups != st.groups
    decreases |st.groups| - j
  {
    hide GroupAt, StuckFrom, Sampled, AllOnward;
    if j < |st.groups| {
      GroupStuck(c, st, u, j);
      var (st1, skip1) := GroupAt(c, st, j);
      if st.groups[j] == [] || StuckFrom(c, u, st.groups[j], 0) {
        GroupsStuck(c, st, u, j + 1, skip && skip1);
      } else {
        GroupsOnward(c, st1, j + 1, skip && skip1);
        var r := GroupsFrom(c, st1, j + 1, skip && skip1).0;
        if r.groups == st.groups { OnwardBack(st.groups, st1.groups); }
      }
    }
  }

  /** The plain scan of the rest of the chunk finds nothing and counts nothing exactly when every
      condition is stuck at every sample of it. */
  lemma {:induction false} RestStuck(c: Chunk, st: Scan, u: nat, skip: bool)
    requires Sampled(c, st, u) && st.cur <= c.end
    ensures var (r, found) := ScanLoop(false, c, st, skip);
            && (!found && r.groups == st.groups <==> StuckToEnd(c, u, st.groups))
            && (StuckToEnd(c, u, st.groups) ==> r == st.(cur := c.end, prev := PinsAt(c, c.end - 1, |st.prev|)))
    decreases c.end - st.cur
  {
    if st.cur < c.end {
      GroupsStuck(c, st, u, 0, skip);
      var (st1, skip1) := Sample(c, st, skip);
      var st2 := st1.(cur := Inc(st1.cur));
      if AllStuck(c, u, st.groups, 0) {
        RestStuck(c, st2, u + 1, skip1);
        assert StuckToEnd(c, u, st.groups) <==> StuckToEnd(c, u + 1, st.groups) by {
          forall v | u <= v && v + 1 < c.end && StuckToEnd(c, u + 1, st.groups) ensures AllStuck(c, v, st.groups, 0) {}
        }
      } else {
        assert !StuckToEnd(c, u, st.groups);
        if !st1.matched {
          GroupsOnward(c, st, 0, skip);
          LoopOnward(c, st2, skip1);
          if ScanLoop(false, c, st2, skip1).0.groups == st.groups { OnwardBack(st.groups, st1.groups); }
        }
      }
    }
  }

  lemma {:induction false} NoFlagNoJump(c: Chunk, st: Scan)
    ensures ScanLoop(true, c, st, false) == ScanLoop(false, c, st, false)
    decreases if st.cur < c.end then c.end - st.cur else 0
  {
    if st.cur < c.end {
      var (st1, skip) := Sample(c, st, false);
      if !st1.matched { NoFlagNoJump(c, st1.(cur := Inc(st1.cur))); }
    }
  }

  // ----- Exactly when the jump is right -----

  /** The two scans of a chunk find the same match in the same state, or end in states no condition
      can tell apart. */
  ghost predicate SameOutcome(a: (Scan, bool), b: (Scan, bool)) {
    a.1 == b.1 && if a.1 then a.0 == b.0 else Alike(a.0, b.0)
  }

  /** Every channel that a group asks for an edge of has the same level at samples t and u. */
  ghost predicate SameAt(c: Chunk, t: nat, u: nat, groups: seq<Group>) {
    forall j :: 0 <= j < |groups| ==> SameFor(c, t, u, groups[j])
  }

  ghost predicate SameFor(c: Chunk, t: nat, u: nat, g: Group) {
    forall k :: 0 <= k < |g| && IsEdge(g[k]) ==> c.Level(t, g[k].ch) == c.Level(u, g[k].ch)
  }

  /** In front of a sample of the chunk. */
  ghost predicate InChunk(c: Chunk, st: Scan) {
    c.Has(st.cur) && st.mask == {} && AllKnown(st.groups, |st.prev|)
  }

  lemma {:induction false} FirstSample(c: Chunk, st: Scan)
    requires InChunk(c, st)
    ensures var (st1, skip) := Sample(c, st, true);
            && (!st1.matched && skip <==> AllStop(c, st, 0))
            && (AllStop(c, st, 0) ==> Sampled(c, st1.(cur := st.cur + 1), st.cur) && st1.groups == st.groups)
  {
    hide AllStop;
    FlagSurvives(c, st, 0, true);
  }

  /** The code jumps over the rest of the chunk; the plain scan goes on. */
  lemma {:induction false} Jumps(c: Chunk, st: Scan)
    requires InChunk(c, st)
    ensures var (st1, skip) := Sample(c, st, true);
            if AllStop(c, st, 0) then
              && Sampled(c, st1.(cur := st.cur + 1), st.cur) && st1.groups == st.groups
              && ScanLoop(true, c, st, true) == (st1.(cur := c.end), false)
              && ScanLoop(false, c, st, true) == ScanLoop(false, c, st1.(cur := st.cur + 1), true)
            else ScanLoop(true, c, st, true) == ScanLoop(false, c, st, true)
  {
    hide AllStop, Sample, Sampled;
    FirstSample(c, st);
    var (st1, skip) := Sample(c, st, true);
    if AllStop(c, st, 0) {
      assert ScanLoop(true, c, st1.(cur := c.end), true) == (st1.(cur := c.end), false);
    } else if !st1.matched {
      assert !skip;
      NoFlagNoJump(c, st1.(cur := Inc(st1.cur)));
    }
  }

  lemma {:induction false} AlikeIff(c: Chunk, a: Scan, b: Scan, t: nat, u: nat)
    requires a.prev == PinsAt(c, t, |a.prev|) && b == a.(prev := PinsAt(c, u, |a.prev|)) && AllKnown(a.groups, |a.prev|)
    ensures Alike(a, b) <==> SameAt(c, t, u, a.groups)
  {
    forall j | 0 <= j < |a.groups| ensures AlikeOn(a, b, a.groups[j]) <==> SameFor(c, t, u, a.groups[j]) {
      assert ReadsKnown(a.groups[j], |a.prev|);
      forall k | 0 <= k < |a.groups[j]| && IsEdge(a.groups[j][k])
        ensures Pin(a.prev, a.groups[j][k].ch) == c.Level(t, a.groups[j][k].ch)
        ensures Pin(b.prev, a.groups[j][k].ch) == c.Level(u, a.groups[j][k].ch)
      {
      }
    }
  }

  /** The jump is right exactly when it is not taken, or no condition would have matched or counted a
      skip at a sample jumped over and every edge asked for is judged against the level that its
      channel still has at the end of the chunk. */
  lemma {:induction false} JumpExact(c: Chunk, st: Scan)
    requires InChunk(c, st)
    ensures SameOutcome(ScanLoop(true, c, st, true), ScanLoop(false, c, st, true))
       <==> (AllStop(c, st, 0) ==> StuckToEnd(c, st.cur, st.groups) && SameAt(c, st.cur, c.end - 1, st.groups))
  {
    hide AllStop, StuckToEnd, SameAt, AllKnown, Alike;
    Jumps(c, st);
    var a, b := ScanLoop(true, c, st, true), ScanLoop(false, c, st, true);
    if AllStop(c, st, 0) {
      RestStuck(c, Sample(c, st, true).0.(cur := st.cur + 1), st.cur, true);
      if StuckToEnd(c, st.cur, st.groups) {
        AlikeIff(c, a.0, b.0, st.cur, c.end - 1);
      } else {
        assert SameOutcome(a, b) ==> !b.1 && b.0.groups == st.groups by { AlikeGroups(a.0, b.0); }
      }
    } else {
      AlikeSelf(a.0);
    }
  }

  lemma AlikeGroups(a: Scan, b: Scan)
    ensures Alike(a, b) ==> a.groups == b.groups
  {
  }

  lemma AlikeSelf(a: Scan)
    ensures Alike(a, a)
  {
  }

  // ----- Lists without a no-edge term on a constant channel -----

  /** A group that stops on a constant channel is stuck from then on. */
  lemma {:induction false} StaysStuck(c: Chunk, st: Scan, u: nat, g: Group, k: nat)
    requires NoEdgeOnlyPacked(c, g) && StopsFrom(c, st, g, k)
    ensures StuckFrom(c, u, g, k)
    decreases |g| - k
  {
    if g[k].Skip? || Fits(Pin(st.prev, g[k].ch), c.Level(st.cur, g[k].ch), g[k]) {
      StaysStuck(c, st, u, g, k + 1);
    } else {
      assert !g[k].NoEdge?;
    }
  }

  lemma {:induction false} AllStayStuck(c: Chunk, st: Scan)
    requires forall j :: 0 <= j < |st.groups| ==> NoEdgeOnlyPacked(c, st.groups[j])
    requires AllStop(c, st, 0)
    ensures StuckToEnd(c, st.cur, st.groups)
  {
    forall u, j | 0 <= j < |st.groups| && st.groups[j] != [] ensures StuckFrom(c, u, st.groups[j], 0) {
      StaysStuck(c, st, u, st.groups[j], 0);
    }
  }

  /** Groups may read constant and packed channels and count skips: without a no-edge term on a
      constant channel the jump is right exactly when it is not taken or every channel an edge is asked
      of has the same level at the first sample and at the last. */
  lemma {:induction false} MixedExact(c: Chunk, st: Scan)
    requires InChunk(c, st) && forall j :: 0 <= j < |st.groups| ==> NoEdgeOnlyPacked(c, st.groups[j])
    ensures SameOutcome(ScanLoop(true, c, st, true), ScanLoop(false, c, st, true))
       <==> (AllStop(c, st, 0) ==> SameAt(c, st.cur, c.end - 1, st.groups))
  {
    JumpExact(c, st);
    if AllStop(c, st, 0) { AllStayStuck(c, st); }
  }

  // ----- Lists that only read constant channels -----

  predicate MatchesNow(c: Chunk, st: Scan, g: Group) {
    g != [] && forall k :: 0 <= k < |g| && !g[k].Skip? ==> Fits(Pin(st.prev, g[k].ch), c.Level(st.cur, g[k].ch), g[k])
  }

  /** Holds as soon as every remembered pin is the constant level. */
  predicate HoldsSteadily(c: Chunk, g: Group) {
    g != [] && forall k :: 0 <= k < |g| && !g[k].Skip? ==>
      g[k].ch in c.fixed && Fits(c.fixed[g[k].ch], c.fixed[g[k].ch], g[k])
  }

  lemma {:induction false} ConstantStops(c: Chunk, st: Scan, g: Group, k: nat)
    requires ReadsOnlyFixed(c, g) && NoSkip(g) && k <= |g|
    ensures StopsFrom(c, st, g, k)
       <==> exists i :: k <= i < |g| && !Fits(Pin(st.prev, g[i].ch), c.Level(st.cur, g[i].ch), g[i])
    decreases |g| - k
  {
    if k < |g| { ConstantStops(c, st, g, k + 1); }
  }

  lemma {:induction false} ConstantStuck(c: Chunk, u: nat, g: Group, k: nat)
    requires ReadsOnlyFixed(c, g) && NoSkip(g) && k <= |g|
    ensures StuckFrom(c, u, g, k)
       <==> exists i :: k <= i < |g| && !Fits(c.fixed[g[i].ch], c.fixed[g[i].ch], g[i])
    decreases |g| - k
  {
    if k < |g| { ConstantStuck(c, u, g, k + 1); }
  }

  ghost predicate OnlyConstants(c: Chunk, groups: seq<Group>) {
    forall j :: 0 <= j < |groups| ==> ReadsOnlyFixed(c, groups[j]) && NoSkip(groups[j])
  }

  lemma {:induction false} ConstantList(c: Chunk, st: Scan)
    requires InChunk(c, st) && OnlyConstants(c, st.groups)
    ensures AllStop(c, st, 0) <==> !exists j :: 0 <= j < |st.groups| && MatchesNow(c, st, st.groups[j])
    ensures StuckToEnd(c, st.cur, st.groups)
       <==> st.cur + 1 == c.end || !exists j :: 0 <= j < |st.groups| && HoldsSteadily(c, st.groups[j])
    ensures SameAt(c, st.cur, c.end - 1, st.groups)
  {
    forall j | 0 <= j < |st.groups|
      ensures MatchesNow(c, st, st.groups[j]) <==> st.groups[j] != [] && !StopsFrom(c, st, st.groups[j], 0)
    {
      ConstantStops(c, st, st.groups[j], 0);
    }
    forall j, u: nat | 0 <= j < |st.groups|
      ensures HoldsSteadily(c, st.groups[j]) <==> st.groups[j] != [] && !StuckFrom(c, u, st.groups[j], 0)
    {
      ConstantStuck(c, u, st.groups[j], 0);
    }
    if st.cur + 1 < c.end && StuckToEnd(c, st.cur, st.groups) {
      assert AllStuck(c, st.cur, st.groups, 0);
    }
  }

  /** A list without skips that reads constant channels only, no-edge terms included: the jump is right
      exactly when a group matches at once, or none would as soon as the pins have settled, or there is
      no further sample; and then, and only then, it finds a match when the plain scan does. */
  lemma {:induction false} NoEdgeExact(c: Chunk, st: Scan)
    requires InChunk(c, st) && OnlyConstants(c, st.groups)
    ensures var a, b := ScanLoop(true, c, st, true), ScanLoop(false, c, st, true);
            var right := || (exists j :: 0 <= j < |st.groups| && MatchesNow(c, st, st.groups[j]))
                         || (forall j :: 0 <= j < |st.groups| ==> !HoldsSteadily(c, st.groups[j]))
                         || st.cur + 1 == c.end;
            (SameOutcome(a, b) <==> right) && (a.1 == b.1 <==> right)
  {
    JumpExact(c, st);
    ConstantList(c, st);
    Jumps(c, st);
    if AllStop(c, st, 0) {
      var st1 := Sample(c, st, true).0.(cur := st.cur + 1);
      RestStuck(c, st1, st.cur, true);
      LoopOnward(c, st1, true);
      NoSkipsNoCounts(st.groups, ScanLoop(false, c, st1, true).0.groups);
    }
  }

  lemma {:induction false} NoSkipsNoCounts(a: seq<Group>, b: seq<Group>)
    requires AllOnward(a, b) && forall j :: 0 <= j < |a| ==> NoSkip(a[j])
    ensures a == b
  {
    forall j | 0 <= j < |a| ensures a[j] == b[j] {
      assert Onward(a[j], b[j]) && NoSkip(a[j]);
    }
  }

  // ----- Lists for which the jump is always right -----

  lemma {:induction false} PackedNeverStops(c: Chunk, st: Scan, g: Group, k: nat)
    requires ReadsOnlyPacked(c, g)
    ensures !StopsFrom(c, st, g, k)
    decreases |g| - k
  {
    if k < |g| { PackedNeverStops(c, st, g, k + 1); }
  }

  /** One chunk, a list that is safe for it: the jump finds the same match in the same state, or ends
      in a state no condition of the wait can tell from the plain scan's. */
  lemma {:induction false} LoopRefines(c: Chunk, st: Scan)
    requires JumpSafe(c, st.groups, |st.prev|) && st.mask == {} && c.start <= st.cur <= c.end
    ensures SameOutcome(ScanLoop(true, c, st, true), ScanLoop(false, c, st, true))
  {
    if st.cur < c.end {
      JumpExact(c, st);
      if AllStop(c, st, 0) {
        forall j | 0 <= j < |st.groups| && st.groups[j] != [] ensures !ReadsOnlyPacked(c, st.groups[j]) {
          if ReadsOnlyPacked(c, st.groups[j]) { PackedNeverStops(c, st, st.groups[j], 0); }
        }
        AllStayStuck(c, st);
        forall j | 0 <= j < |st.groups| ensures SameFor(c, st.cur, c.end - 1, st.groups[j]) {
          assert EdgesOnlyFixed(c, st.groups[j]);
        }
      }
    } else {
      AlikeSelf(st);
    }
  }

  // ----- Waits and runs -----

  predicate SameTerm(a: Term, b: Term) {
    a == b || (a.Skip? && b.Skip? && a.count == b.count)
  }

  /** b is a with some skip counters moved. */
  ghost predicate SameTerms(a: seq<Group>, b: seq<Group>) {
    && |a| == |b|
    && (forall j :: 0 <= j < |a| ==> |a[j]| == |b[j]|)
    && (forall j, k :: 0 <= j < |a| && 0 <= k < |a[j]| ==> SameTerm(a[j][k], b[j][k]))
  }

  lemma {:induction false} SameTermsJumpSafe(c: Chunk, a: seq<Group>, b: seq<Group>, n: nat)
    requires SameTerms(a, b) && JumpSafe(c, a, n)
    ensures JumpSafe(c, b, n)
  {
    forall j | 0 <= j < |b|
      ensures ReadsKnown(b[j], n) && (a[j] != [] && ReadsOnlyPacked(c, a[j]) ==> b[j] != [] && ReadsOnlyPacked(c, b[j]))
      ensures EdgesOnlyFixed(c, a[j]) && NoEdgeOnlyPacked(c, a[j]) ==> EdgesOnlyFixed(c, b[j]) && NoEdgeOnlyPacked(c, b[j])
    {
      forall k | 0 <= k < |b[j]| ensures SameTerm(a[j][k], b[j][k]) {}
      assert ReadsKnown(a[j], n);
    }
  }

  lemma SameTermsTransitive(a: seq<Group>, b: seq<Group>, c: seq<Group>)
    requires SameTerms(a, b) && SameTerms(b, c)
    ensures SameTerms(a, c)
  {
    forall j, k | 0 <= j < |a| && 0 <= k < |a[j]| ensures SameTerm(a[j][k], c[j][k]) {
      assert SameTerm(a[j][k], b[j][k]) && SameTerm(b[j][k], c[j][k]);
    }
  }

  lemma OnwardSameTerms(a: seq<Group>, b: seq<Group>)
    requires AllOnward(a, b)
    ensures SameTerms(a, b)
  {
    forall j | 0 <= j < |a| ensures |a[j]| == |b[j]| && forall k :: 0 <= k < |a[j]| ==> SameTerm(a[j][k], b[j][k]) {
      assert Onward(a[j], b[j]);
    }
  }

  /** Every chunk is safe for the groups, and each starts where the previous one ends. */
  ghost predicate AllJumpSafe(chunks: seq<Chunk>, groups: seq<Group>, n: nat) {
    chunks != [] ==>
      && JumpSafe(chunks[0], groups, n)
      && (|chunks| > 1 ==> chunks[0].end == chunks[1].start)
      && AllJumpSafe(chunks[1..], groups, n)
  }

  lemma {:induction false} SameTermsAllJumpSafe(chunks: seq<Chunk>, a: seq<Group>, b: seq<Group>, n: nat)
    requires SameTerms(a, b) && AllJumpSafe(chunks, a, n)
    ensures AllJumpSafe(chunks, b, n)
    decreases |chunks|
  {
    if chunks != [] {
      SameTermsJumpSafe(chunks[0], a, b, n);
      SameTermsAllJumpSafe(chunks[1..], a, b, n);
    }
  }

  /** Between two chunks of a wait the two scans cannot be told apart; on its first chunk they agree. */
  ghost predicate InStep(a: Scan, b: Scan) {
    a == b || (Alike(a, b) && !a.first && !a.matched)
  }

  lemma FindMatchRefines(c: Chunk, a: Scan, b: Scan)
    requires InStep(a, b) && HaveConditions(a.groups)
    requires JumpSafe(c, a.groups, |a.prev|) && c.Has(a.cur)
    ensures var (a1, found) := FindMatch(true, c, a); var (b1, found') := FindMatch(false, c, b);
            && found == found' && (if found then a1 == b1 else InStep(a1, b1) && a1.cur == c.end && HaveConditions(a1.groups))
            && SameTerms(a.groups, b1.groups)
  {
    FindMatchKeepsConditions(true, c, a);
    var b0 := Enter(c, b);
    var a0 := Enter(c, a);
    assert a0 == b0 || Alike(a0, b0);
    RestartSameTerms(b.groups);
    assert SameTerms(a.groups, b0.groups);
    SameTermsJumpSafe(c, a.groups, b0.groups, |a.prev|);
    LoopRefines(c, b0);
    if a0 != b0 { LoopsAlike(true, c, a0, b0, true); }
    LoopOnward(c, b0, true);
    OnwardSameTerms(b0.groups, FindMatch(false, c, b).0.groups);
    SameTermsTransitive(a.groups, b0.groups, FindMatch(false, c, b).0.groups);
  }

  /** A wait with the jump reports what the plain per-sample wait reports, in the same state. */
  lemma {:induction false} WaitRefines(a: Scan, b: Scan, chunks: seq<Chunk>)
    requires InStep(a, b) && HaveConditions(a.groups) && AllJumpSafe(chunks, a.groups, |a.prev|)
    requires chunks != [] ==> chunks[0].Has(a.cur)
    ensures Wait(true, a, chunks) == Wait(false, b, chunks)
    decreases |chunks|
  {
    if chunks != [] {
      FindMatchRefines(chunks[0], a, b);
      var (a1, found) := FindMatch(true, chunks[0], a);
      var b1 := FindMatch(false, chunks[0], b).0;
      if !found {
        assert a1.groups == b1.groups;
        SameTermsAllJumpSafe(chunks[1..], a.groups, a1.groups, |a.prev|);
        if |chunks| > 1 { assert JumpSafe(chunks[1..][0], a1.groups, |a.prev|); }
        WaitRefines(a1, b1, chunks[1..]);
      }
    }
  }

  ghost predicate AsksJumpSafe(next: Decoder, seen: seq<Event>, chunks: seq<Chunk>, n: nat) {
    AllJumpSafe(chunks, next(seen), n)
  }

  /** Whatever the decoder asks for, every chunk is safe for it. */
  ghost predicate AlwaysJumpSafe(next: Decoder, chunks: seq<Chunk>, n: nat) {
    forall seen :: AsksJumpSafe(next, seen, chunks, n)
  }

  lemma {:induction false} SafeSuffix(chunks: seq<Chunk>, rest: seq<Chunk>, groups: seq<Group>, n: nat)
    requires AllJumpSafe(chunks, groups, n) && IsSuffix(rest, chunks)
    ensures AllJumpSafe(rest, groups, n)
  {
    if rest != chunks {
      SafeSuffix(chunks[1..], rest, groups, n);
    }
  }

  lemma AlwaysSafeSuffix(next: Decoder, chunks: seq<Chunk>, rest: seq<Chunk>, n: nat)
    requires AlwaysJumpSafe(next, chunks, n) && IsSuffix(rest, chunks)
    ensures AlwaysJumpSafe(next, rest, n)
  {
    forall seen ensures AsksJumpSafe(next, seen, rest, n) {
      assert AsksJumpSafe(next, seen, chunks, n);
      SafeSuffix(chunks, rest, next(seen), n);
    }
  }

  lemma {:induction false} RestartSameTerms(groups: seq<Group>)
    ensures SameTerms(groups, RestartSkips(groups))
  {
    assert forall j, k :: 0 <= j < |groups| && 0 <= k < |groups[j]| ==> SameTerm(groups[j][k], RestartGroup(groups[j])[k]);
  }

  lemma {:induction false} FindMatchSameTerms(c: Chunk, st: Scan)
    ensures SameTerms(st.groups, FindMatch(false, c, st).0.groups)
  {
    if HaveConditions(st.groups) {
      var st0 := Enter(c, st);
      RestartSameTerms(st.groups);
      assert SameTerms(st.groups, st0.groups);
      LoopOnward(c, st0, true);
      OnwardSameTerms(st0.groups, FindMatch(false, c, st).0.groups);
      SameTermsTransitive(st.groups, st0.groups, FindMatch(false, c, st).0.groups);
    }
  }

  /** A wait only moves the counters of its list. */
  lemma {:induction false} WaitSameTerms(st: Scan, chunks: seq<Chunk>)
    ensures var r := Wait(false, st, chunks); r.Hit? ==> SameTerms(st.groups, r.st.groups)
    decreases |chunks|
  {
    hide FindMatch, SameTerms;
    if chunks != [] {
      FindMatchSameTerms(chunks[0], st);
      var (st1, found) := FindMatch(false, chunks[0], st);
      if !found {
        WaitSameTerms(st1, chunks[1..]);
        var r := Wait(false, st1, chunks[1..]);
        if r.Hit? { SameTermsTransitive(st.groups, st1.groups, r.st.groups); }
      }
    }
  }

  lemma {:induction false} TiledWaitRefines(st: Scan, chunks: seq<Chunk>, w: Chunk)
    requires Tiles(chunks, w) && Ready(st, chunks) && AllJumpSafe(chunks, st.groups, |st.prev|)
    ensures Wait(true, st, chunks) == Wait(false, st, chunks)
  {
    assert Shows(chunks[0], w);
    if HaveConditions(st.groups) { WaitRefines(st, st, chunks); }
  }

  /** The list in place and every list asked for are safe. */
  ghost predicate SafeRun(next: Decoder, st: Scan, chunks: seq<Chunk>) {
    AlwaysJumpSafe(next, chunks, |st.prev|) && AllJumpSafe(chunks, st.groups, |st.prev|)
  }

  /** The next wait of a run on track is not changed by the jump. */
  lemma {:induction false} NextWaitRefines(next: Decoder, seen: seq<Event>, n: nat, st: Scan, chunks: seq<Chunk>, w: Chunk)
    requires n > 0 && OnTrack(next, seen, n, st, chunks, w) && SafeRun(next, st, chunks)
    ensures var st1 := Install(st, next(seen)); var r := Wait(false, st1, chunks);
            Wait(true, st1, chunks) == r && (r.Hit? ==> SafeRun(next, r.st, r.rest))
  {
    hide Wait, AllJumpSafe, SameTerms, Tiles, IsSuffix;
    var st1 := Install(st, next(seen));
    assert Asks(next, seen) && AsksJumpSafe(next, seen, chunks, |st.prev|);
    TiledWaitRefines(st1, chunks, w);
    var r := Wait(false, st1, chunks);
    if r.Hit? {
      AlwaysSafeSuffix(next, chunks, r.rest, |st.prev|);
      WaitSameTerms(st1, chunks);
      SafeSuffix(chunks, r.rest, st1.groups, |st.prev|);
      SameTermsAllJumpSafe(r.rest, st1.groups, r.st.groups, |st.prev|);
    }
  }

  /** The code's run, with the jump, is the plain per-sample run. */
  lemma {:induction false} RunRefines(next: Decoder, seen: seq<Event>, n: nat, st: Scan, chunks: seq<Chunk>, w: Chunk)
    requires OnTrack(next, seen, n, st, chunks, w) && SafeRun(next, st, chunks)
    ensures Run(true, next, seen, n, st, chunks) == Run(false, next, seen, n, st, chunks)
    decreases n
  {
    hide OnTrack, SafeRun, Lands, Wait, Install;
    if n > 0 {
      NextWait(next, seen, n, st, chunks, w);
      NextWaitRefines(next, seen, n, st, chunks, w);
      var r := Wait(false, Install(st, next(seen)), chunks);
      RunUnfolds(true, next, seen, n, st, chunks, r);
      RunUnfolds(false, next, seen, n, st, chunks, r);
      if r.Hit? {
        RunRefines(next, seen + [EventOf(r.st, w)], n - 1, r.st, r.rest, w);
      }
    }
  }

  lemma {:induction false} NothingAskedSafe(chunks: seq<Chunk>, w: Chunk, n: nat)
    requires Tiles(chunks, w)
    ensures AllJumpSafe(chunks, [], n)
    decreases |chunks|
  {
    if |chunks| > 1 { NothingAskedSafe(chunks[1..], w, n); }
  }

  /** Chunk independence of the code: however the capture is cut, and whichever channels are handed
      over as constants in which chunk, every decoder sees the events of the uncut per-sample run. */
  lemma {:induction false} CodeChunkIndependence(next: Decoder, n: nat, st: Scan, a: seq<Chunk>, b: seq<Chunk>, w: Chunk)
    requires AsksWell(next) && Started(st, w)
    requires Tiles(a, w) && a[0].start == w.start && OffCuts(Run(false, next, [], n, st, [w]), n, a)
    requires Tiles(b, w) && b[0].start == w.start && OffCuts(Run(false, next, [], n, st, [w]), n, b)
    requires AlwaysJumpSafe(next, a, |st.prev|) && AlwaysJumpSafe(next, b, |st.prev|)
    ensures Run(true, next, [], n, st, a) == Run(true, next, [], n, st, b) == Run(false, next, [], n, st, [w])
  {
    StartsOnTrack(next, n, st, a, w);
    StartsOnTrack(next, n, st, b, w);
    NothingAskedSafe(a, w, |st.prev|);
    NothingAskedSafe(b, w, |st.prev|);
    hide *;
    RunRefines(next, [], n, st, a, w);
    RunRefines(next, [], n, st, b, w);
    RunScansWhole(next, [], n, st, a, w);
    RunScansWhole(next, [], n, st, b, w);
  }

  // ----- The promise of a wait, for the code -----

  /** What the code's wait after a match at s returns in every case; see WaitExact. */
  lemma CodeWaitExact(st: Scan, chunks: seq<Chunk>, w: Chunk)
    requires AfterMatch(st, chunks, w) && HaveConditions(st.groups) && SkipsAlone(st.groups)
    requires AllJumpSafe(chunks, st.groups, |st.prev|)
    ensures Promised(Wait(true, st, chunks), ExactOrigin(st, chunks), w, st.groups)
  {
    WaitRefines(st, st, chunks);
    WaitExact(st, chunks, w);
  }

  lemma {:induction false} SkipsAreJumpSafe(chunks: seq<Chunk>, w: Chunk, m: nat, n: nat)
    requires Tiles(chunks, w)
    ensures AllJumpSafe(chunks, [[Skip(m, 0)]], n)
    decreases |chunks|
  {
    if |chunks| > 1 { SkipsAreJumpSafe(chunks[1..], w, m, n); }
  }

  /** A lone SKIP(n) returns n samples after the last match, plus the samples stepped over. */
  lemma LoneSkipReturns(st: Scan, chunks: seq<Chunk>, w: Chunk, n: nat)
    requires AfterMatch(st, chunks, w) && n > 0 && st.groups == [[Skip(n, 0)]]
    ensures var r := Wait(true, st, chunks); var k := Lost(chunks, st.cur);
            if st.cur + k + n < w.end then r.Hit? && r.st.cur == st.cur + k + n && r.st.mask == {0}
            else r.Blocked?
  {
    assert st.groups[0] != [];
    SkipsAreJumpSafe(chunks, w, n, |st.prev|);
    CodeWaitExact(st, chunks, w);
    LoneSkipPromise(Wait(true, st, chunks), ExactOrigin(st, chunks), w, n);
  }

  /** After a match at s the code keeps the promise for every condition list if and only if s is not
      the last sample of a chunk that another one follows. */
  lemma {:induction false} PromiseKeptIff(st: Scan, chunks: seq<Chunk>, w: Chunk)
    requires AfterMatch(st, chunks, w)
    ensures (forall groups :: HaveConditions(groups) && SkipsAlone(groups) && AllJumpSafe(chunks, groups, |st.prev|) ==>
               Promised(Wait(true, st.(groups := groups), chunks), OriginOf(w, st), w, groups))
       <==> !(|chunks| > 1 && st.cur + 1 == chunks[0].end)
  {
    var o := OriginOf(w, st);
    if |chunks| > 1 && st.cur + 1 == chunks[0].end {
      var groups := [[Skip(1, 0)]];
      assert groups[0] != [];
      assert Tiles(chunks, w) && Tiles(chunks[1..], w);
      SkipsAreJumpSafe(chunks, w, 1, |st.prev|);
      LoneSkipReturns(st.(groups := groups), chunks, w, 1);
      if Promised(Wait(true, st.(groups := groups), chunks), o, w, groups) {
        LoneSkipPromise(Wait(true, st.(groups := groups), chunks), o, w, 1);
      }
    } else {
      forall groups | HaveConditions(groups) && SkipsAlone(groups) && AllJumpSafe(chunks, groups, |st.prev|)
        ensures Promised(Wait(true, st.(groups := groups), chunks), o, w, groups)
      {
        var st1 := st.(groups := groups);
        CodeWaitExact(st1, chunks, w);
        assert ExactOrigin(st1, chunks) == o;
      }
    }
  }

  // ----- In front of the chunk -----

  /** Every condition starts with a term on a packed channel. */
  ghost predicate PackedFirst(c: Chunk, groups: seq<Group>) {
    forall j :: 0 <= j < |groups| && groups[j] != [] ==> !groups[j][0].Skip? && groups[j][0].ch !in c.fixed
  }

  lemma {:induction false} NothingInFront(c: Chunk, st: Scan, j: nat, skip: bool)
    requires st.cur < c.start && PackedFirst(c, st.groups) && j <= |st.groups|
    ensures GroupsFrom(c, st, j, skip) == (st, skip)
    decreases |st.groups| - j
  {
    if j < |st.groups| {
      var g := st.groups[j];
      if g != [] {
        assert g[0 := g[0]] == g && st.groups[j := g] == st.groups;
        assert TermsFrom(c, st, st.zero, g, 0, false) == GroupOutcome(g, st.zero, false, true);
      }
      NothingInFront(c, st, j + 1, skip);
    }
  }

  /** A scan that begins in front of its chunk, where several SKIP(0) in one list can bring it: no term on
      a packed channel holds there, and the whole chunk is jumped over. */
  lemma {:induction false} InFrontJumps(c: Chunk, st: Scan)
    requires st.cur < c.start <= c.end && st.mask == {} && PackedFirst(c, st.groups)
    ensures ScanLoop(true, c, st, true)
         == (st.(cur := c.end, matched := false, prev := PinsAt(c, st.cur, |st.prev|), missing := false), false)
  {
    NothingInFront(c, st, 0, true);
    var st1 := st.(cur := c.end, matched := false, prev := PinsAt(c, st.cur, |st.prev|), missing := false);
    assert ScanLoop(true, c, st1, true) == (st1, false);
  }

  // ----- What a wrong jump does to a wait -----

  /** In front of a sample, in the middle of a wait for one group without skips. */
  ghost predicate Midwait(c: Chunk, st: Scan, g: Group) {
    InChunk(c, st) && !st.first && !st.matched && !st.zero && !st.missing && st.groups == [g] && g != [] && NoSkip(g)
  }

  lemma WaitEnds(jump: bool, st: Scan, c: Chunk)
    requires HaveConditions(st.groups) && Enter(c, st) == st
    ensures Wait(jump, st, [c]).Hit? <==> ScanLoop(jump, c, st, true).1
  {
    UncutWait(jump, st, c);
  }

  lemma WaitMovesOn(jump: bool, st: Scan, a: Chunk, b: Chunk, st1: Scan)
    requires HaveConditions(st.groups) && Enter(a, st) == st && (st1, false) == ScanLoop(jump, a, st, true)
    ensures Wait(jump, st, [a, b]) == Wait(jump, st1, [b])
  {
    assert [a, b][1..] == [b];
  }

  lemma {:induction false} LoneTerms(c: Chunk, st: Scan, g: Group, k: nat, skip: bool)
    requires c.Has(st.cur) && NoSkip(g) && k <= |g|
    ensures var r := TermsFrom(c, st, false, g, k, skip);
            && r.group == g && !r.zero
            && (r.ok <==> forall i :: k <= i < |g| ==> Fits(Pin(st.prev, g[i].ch), c.Level(st.cur, g[i].ch), g[i]))
    decreases |g| - k
  {
    if k < |g| {
      var r := TermAt(c, st, false, g[k]);
      assert g[k := r.term] == g;
      if r.ok { LoneTerms(c, st, g, k + 1, r.skip); }
    }
  }

  lemma {:induction false} LoneSampled(c: Chunk, st: Scan, g: Group, skip: bool)
    requires Midwait(c, st, g)
    ensures Sample(c, st, skip).0.matched <==> MatchesNow(c, st, g)
  {
    LoneTerms(c, st, g, 0, false);
    assert MatchesNow(c, st, g) <==> TermsFrom(c, st, false, g, 0, false).ok;
    var (st1, skip1) := GroupAt(c, st, 0);
    assert GroupsFrom(c, st, 0, skip) == GroupsFrom(c, st1, 1, skip && skip1);
    assert MatchesNow(c, st, g) ==> 0 in st1.mask;
  }

  /** A wait for no edge on a constant channel whose level is not the remembered one: the plain scan
      matches at the second sample of the chunk, the jump has left the chunk by then. */
  lemma {:induction false} NoEdgeNeedsPlainScan(c: Chunk, st: Scan, ch: nat)
    requires Midwait(c, st, [NoEdge(ch)]) && ch in c.fixed && c.fixed[ch] < 2
    ensures Wait(true, st, [c]).Hit? <==> Pin(st.prev, ch) == c.fixed[ch]
    ensures Wait(false, st, [c]).Hit? <==> Pin(st.prev, ch) == c.fixed[ch] || st.cur + 1 < c.end
  {
    var g := [NoEdge(ch)];
    assert st.groups[0] != [];
    WaitEnds(true, st, c);
    WaitEnds(false, st, c);
    LoneSampled(c, st, g, true);
    NoEdgeExact(c, st);
    ConstantList(c, st);
    Jumps(c, st);
    assert MatchesNow(c, st, g) <==> Fits(Pin(st.prev, ch), c.fixed[ch], g[0]);
    assert HoldsSteadily(c, st.groups[0]);
    if MatchesNow(c, st, g) {
      assert MatchesNow(c, st, st.groups[0]);
    }
  }

  /** After a chunk that is jumped over, and with the plain scan. */
  lemma {:induction false} MixedGroupLeaves(a: Chunk, st: Scan, k: nat, p: nat)
    requires Midwait(a, st, [High(k), Rising(p)]) && k in a.fixed && a.fixed[k] != 1
    ensures var n := |st.prev|;
            && ScanLoop(true, a, st, true) == (st.(cur := a.end, prev := PinsAt(a, st.cur, n)), false)
            && ScanLoop(false, a, st, true) == (st.(cur := a.end, prev := PinsAt(a, a.end - 1, n)), false)
  {
    var g := [High(k), Rising(p)];
    assert StopsFrom(a, st, g, 0);
    assert AllStop(a, st, 0);
    LoneSampled(a, st, g, true);
    LoneTerms(a, st, g, 0, false);
    FlagSurvives(a, st, 0, true);
    Jumps(a, st);
    AllStayStuck(a, st);
    var st1 := Sample(a, st, true).0;
    assert !st1.zero by {
      var (st2, skip) := GroupAt(a, st, 0);
      assert GroupsFrom(a, st, 0, true) == GroupsFrom(a, st2, 1, skip);
    }
    RestStuck(a, st1.(cur := st.cur + 1), st.cur, true);
    JumpExact(a, st);
  }

  /** A group of a constant and a packed channel: the jump keeps the packed pin of the first sample, so
      that at the sample after the chunk a rising edge is seen exactly when the level there differs from
      the one at the first sample, where the plain scan compares with the last. */
  lemma {:induction false} MixedGroupNeedsPlainScan(jump: bool, a: Chunk, b: Chunk, st: Scan, k: nat, p: nat)
    requires Midwait(a, st, [High(k), Rising(p)]) && k in a.fixed && a.fixed[k] != 1
    requires b.start == a.end && b.end == b.start + 1 && b.Level(b.start, k) == 1
    ensures Wait(jump, st, [a, b]).Hit?
       <==> a.Level(if jump then st.cur else a.end - 1, p) == 0 && b.Level(b.start, p) == 1
  {
    var g := [High(k), Rising(p)];
    assert st.groups[0] != [];
    MixedGroupLeaves(a, st, k, p);
    var st1 := ScanLoop(jump, a, st, true).0;
    WaitMovesOn(jump, st, a, b, st1);
    WaitEnds(jump, st1, b);
    LoneSampled(b, st1, g, true);
    assert ReadsKnown(g, |st.prev|) && g[1].ch == p;
    assert MatchesNow(b, st1, g) <==> Pin(st1.prev, p) == 0 && b.Level(b.start, p) == 1 by {
      assert MatchesNow(b, st1, g) ==> Fits(Pin(st1.prev, p), b.Level(b.start, p), g[1]);
    }
    var (st2, skip) := Sample(b, st1, true);
    if !st2.matched {
      assert !ScanLoop(jump, b, st2.(cur := b.end), skip).1;
    }
  }
}
