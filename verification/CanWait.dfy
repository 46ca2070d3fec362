/** The CAN decoder's waits, as its decode loop makes them, come out of the sample scanner: what
    CanTiming says of a wake-up is what wait returns over the chunks of the capture. */
module CanWait {
  import opened CanTiming
  import S = Scanner
  import C = ScannerChunks
  import P = ScannerSpec
  import J = ScannerJump
  import R = ScannerRun

  /** The capture has the bus on channel 0. */
  ghost predicate Captures(w: S.Chunk, l: Line)
    requires l.width > 0.0
  {
    w.start == 0 && w.end == l.samples && forall t: nat :: t < l.samples ==> w.Level(t, 0) == l.Level(t)
  }

  /** After a match in the current chunk, not on the last sample before a cut. */
  ghost predicate Stands(st: S.Scan, chunks: seq<S.Chunk>, w: S.Chunk, l: Line)
    requires l.width > 0.0
  {
    && P.AfterMatch(st, chunks, w) && Captures(w, l)
    && st.cur + 1 < l.samples && P.Lost(chunks, st.cur) == 0
    && S.Pin(st.prev, 0) == l.Level(st.cur)
    && J.AllJumpSafe(chunks, st.groups, |st.prev|)
  }

  const EDGE: S.Group := [S.Falling(0)]

  function Due(n: nat): S.Group {
    [S.Skip(n, 0)]
  }

  lemma EdgeHolds(w: S.Chunk, l: Line, o: P.Origin, t: nat)
    requires l.width > 0.0 && Captures(w, l) && o.from <= t < l.samples && 0 < t
    requires t == o.from ==> S.Pin(o.pins, 0) == l.Level(t - 1)
    ensures P.GroupHolds(w, o, t, EDGE) <==> l.Falls(t)
  {
    assert P.GroupHolds(w, o, t, EDGE) <==> P.TermHolds(w, o, t, EDGE[0]);
    assert t > o.from ==> w.Level(t - 1, 0) == l.Level(t - 1);
  }

  /** A recessive sample is no falling edge, whatever is remembered. */
  lemma RecessiveHoldsNot(w: S.Chunk, l: Line, o: P.Origin, t: nat)
    requires l.width > 0.0 && Captures(w, l) && t < l.samples && l.Level(t) == 1
    ensures !P.GroupHolds(w, o, t, EDGE)
  {
    assert P.GroupHolds(w, o, t, EDGE) <==> P.TermHolds(w, o, t, EDGE[0]);
  }

  lemma DueHolds(w: S.Chunk, o: P.Origin, t: nat, n: nat)
    ensures P.GroupHolds(w, o, t, Due(n)) <==> t == o.base + n
  {
    assert P.GroupHolds(w, o, t, Due(n)) <==> P.TermHolds(w, o, t, Due(n)[0]);
  }

  /** Where the two groups of a wait within a frame hold. */
  lemma FrameHolds(w: S.Chunk, l: Line, o: P.Origin, n: nat, t: nat)
    requires l.width > 0.0 && Captures(w, l) && o.from <= t < l.samples && 0 < t
    requires t == o.from ==> S.Pin(o.pins, 0) == l.Level(t - 1)
    ensures var h := P.Holding(w, o, t, [Due(n), EDGE]);
            (0 in h <==> t == o.base + n) && (1 in h <==> l.Falls(t)) && (h != {} <==> t == o.base + n || l.Falls(t))
  {
    hide P.GroupHolds;
    DueHolds(w, o, t, n);
    EdgeHolds(w, l, o, t);
    var h := P.Holding(w, o, t, [Due(n), EDGE]);
    assert h != {} ==> 0 in h || 1 in h;
  }

  /** Within a frame the loop waits for the sample point n samples ahead or a falling edge: wait comes
      back where NextWake says, with the mask of the groups that brought it back. */
  lemma FrameWait(st: S.Scan, chunks: seq<S.Chunk>, w: S.Chunk, l: Line, n: nat)
    requires l.width > 0.0 && Stands(st, chunks, w, l) && n > 0 && st.groups == [Due(n), EDGE]
    ensures var r, t := S.Wait(true, st, chunks), NextWake(l, st.cur, st.cur + n);
            if t >= l.samples then r.Blocked?
            else r.Hit? && r.st.cur == t && (0 in r.st.mask <==> t == st.cur + n) && (1 in r.st.mask <==> l.Falls(t))
  {
    hide P.Holding, P.AfterMatch, Line.Falls;
    var o := P.ExactOrigin(st, chunks);
    assert st.groups[0] != [] && P.SkipsAlone(st.groups);
    J.CodeWaitExact(st, chunks, w);
    forall t: nat | o.from <= t < l.samples
      ensures 0 in P.Holding(w, o, t, st.groups) <==> t == st.cur + n
      ensures 1 in P.Holding(w, o, t, st.groups) <==> l.Falls(t)
      ensures P.Holding(w, o, t, st.groups) != {} <==> t == st.cur + n || l.Falls(t)
    {
      FrameHolds(w, l, o, n, t);
    }
    Agrees(S.Wait(true, st, chunks), w, l, o, st.groups, st.cur, st.cur + n);
  }

  /** The least sample at which a group holds is the one NextWake finds. */
  lemma Agrees(r: S.WaitResult, w: S.Chunk, l: Line, o: P.Origin, groups: seq<S.Group>, cur: nat, pos: int)
    requires l.width > 0.0 && P.Promised(r, o, w, groups) && w.end == l.samples && o.from <= cur + 1 < l.samples
    requires forall t: nat :: o.from <= t < l.samples ==>
               (P.Holding(w, o, t, groups) != {} <==> t > cur && (t == pos || l.Falls(t)))
    ensures var t := NextWake(l, cur, pos);
            if t >= l.samples then r.Blocked? else r.Hit? && r.st.cur == t && r.st.mask == P.Holding(w, o, t, groups)
  {
    hide P.Holding, Line.Falls, Line.Level;
    var t := NextWake(l, cur, pos);
    if t < l.samples {
      assert P.Holding(w, o, t, groups) != {};
    }
    if r.Hit? {
      assert P.Holding(w, o, r.st.cur, groups) != {};
    }
  }

  /** Before the first match, the bus being recessive at sample 0. */
  ghost predicate Begins(st: S.Scan, chunks: seq<S.Chunk>, w: S.Chunk, l: Line)
    requires l.width > 0.0
  {
    && C.Tiles(chunks, w) && P.HasChannels(w, |st.prev|) && Captures(w, l)
    && !st.matched && !st.zero && st.cur == chunks[0].start == 0 && l.samples > 1 && l.Level(0) == 1
    && J.AllJumpSafe(chunks, st.groups, |st.prev|)
  }

  /** In the idle state it waits for a falling edge alone; so it does on the first sample. */
  lemma IdleWait(st: S.Scan, chunks: seq<S.Chunk>, w: S.Chunk, l: Line)
    requires l.width > 0.0 && (Stands(st, chunks, w, l) || Begins(st, chunks, w, l)) && st.groups == [EDGE]
    ensures var r, t := S.Wait(true, st, chunks), NextWake(l, st.cur, st.cur);
            if t >= l.samples then r.Blocked? else r.Hit? && r.st.cur == t && r.st.mask == {0}
  {
    hide P.GroupHolds, P.AfterMatch;
    assert st.groups[0] != [] && P.SkipsAlone(st.groups);
    var o: P.Origin;
    if Stands(st, chunks, w, l) {
      o := P.ExactOrigin(st, chunks);
      J.CodeWaitExact(st, chunks, w);
    } else {
      o := P.OriginOf(w, st);
      R.CodeWaitMeetsSpec(st, chunks, w);
      RecessiveHoldsNot(w, l, o, 0);
    }
    forall t: nat | o.from <= t < l.samples
      ensures P.Holding(w, o, t, st.groups) == if t > st.cur && l.Falls(t) then {0} else {}
    {
      if t > st.cur { EdgeHolds(w, l, o, t); }
    }
    hide P.Holding;
    Agrees(S.Wait(true, st, chunks), w, l, o, st.groups, st.cur, st.cur);
  }
}
