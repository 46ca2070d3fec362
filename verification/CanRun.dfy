/** The CAN decoder from end to end: its decode loop as a decoder that waits through the sample scanner,
    over any chunks of the capture and any interleaving of the two threads. */
module CanRun {
  import opened BitStrings
  import opened Can
  import opened CanFrame
  import opened CanRoundTrip
  import opened CanTiming
  import opened CanWait
  import S = Scanner
  import C = ScannerChunks
  import P = ScannerSpec
  import J = ScannerJump
  import R = ScannerRun
  import H = Handshake
  import T = HandshakeTrace

  // ----- The loop as a decoder -----

  /** The conditions the loop waits for. */
  function Asked(width: real, offset: real, lp: Loop): seq<S.Group> {
    if lp.can.idle then [EDGE]
    else
      var pos := SamplePoint(width, offset, lp.edge, lp.bcount, lp.can.curbit);
      [Due(if pos > lp.now then pos - lp.now else 0), EDGE]
  }

  /** What the loop makes of a match. */
  function Handled(lp: Loop, e: S.Event): (Loop, seq<Event>) {
    WakeUp(lp, Woken(e.sample, 1 in e.mask, 0 in e.mask), if S.Pin(e.pins, 0) == 0 then 0 else 1)
  }

  function Fresh(): Loop {
    Loop(Zeroed(), 0, 0, 0)
  }

  /** The loop and its reports after some matches. */
  function LoopAfter(seen: seq<S.Event>): (Loop, seq<Event>) {
    if seen == [] then (Fresh(), [])
    else
      var (lp, e) := LoopAfter(seen[..|seen| - 1]);
      var (lp1, e1) := Handled(lp, seen[|seen| - 1]);
      (lp1, e + e1)
  }

  function CanLoop(width: real, offset: real): S.Decoder {
    seen => Asked(width, offset, LoopAfter(seen).0)
  }

  lemma LoopAfterOne(seen: seq<S.Event>, e: S.Event)
    ensures var (lp, r) := LoopAfter(seen); var (lp1, r1) := Handled(lp, e); LoopAfter(seen + [e]) == (lp1, r + r1)
  {
    hide Handled;
    assert (seen + [e])[..|seen|] == seen;
  }

  // ----- It always asks for something the scanner handles -----

  lemma {:induction false} AskedWell(width: real, offset: real, lp: Loop)
    ensures C.ZeroSkipAlone(Asked(width, offset, lp))
  {
    var g := Asked(width, offset, lp);
    assert g[|g| - 1] == EDGE && C.NoZeroSkip(EDGE);
    forall n: nat | n > 0 ensures C.NoZeroSkip(Due(n)) {}
    assert EDGE[0] != C.ZERO_SKIP[0];
  }

  lemma {:induction false} AskedSafe(width: real, offset: real, lp: Loop, c: S.Chunk, n: nat)
    requires n > 0 && c.start < c.end
    ensures J.JumpSafe(c, Asked(width, offset, lp), n)
  {
    var g := Asked(width, offset, lp);
    assert g[|g| - 1] == EDGE && EDGE != [];
    if 0 !in c.fixed { assert J.ReadsOnlyPacked(c, EDGE); }
  }

  lemma {:induction false} AllSafe(width: real, offset: real, lp: Loop, chunks: seq<S.Chunk>, w: S.Chunk, n: nat)
    requires n > 0 && C.Tiles(chunks, w)
    ensures J.AllJumpSafe(chunks, Asked(width, offset, lp), n)
    decreases |chunks|
  {
    hide Asked, J.JumpSafe;
    AskedSafe(width, offset, lp, chunks[0], n);
    if |chunks| > 1 { AllSafe(width, offset, lp, chunks[1..], w, n); }
  }

  lemma {:induction false} AlwaysFine(width: real, offset: real, chunks: seq<S.Chunk>, w: S.Chunk, n: nat)
    requires n > 0 && C.Tiles(chunks, w)
    ensures C.AsksWell(CanLoop(width, offset)) && J.AlwaysJumpSafe(CanLoop(width, offset), chunks, n)
  {
    hide Asked, C.Tiles, J.AllJumpSafe, C.ZeroSkipAlone;
    forall seen ensures C.Asks(CanLoop(width, offset), seen) {
      AskedWell(width, offset, LoopAfter(seen).0);
    }
    forall seen ensures J.AsksJumpSafe(CanLoop(width, offset), seen, chunks, n) {
      AllSafe(width, offset, LoopAfter(seen).0, chunks, w, n);
    }
  }

  // ----- The sample point is always ahead -----

  /** In a frame the next sample point is still to come; between frames no bit is counted. */
  ghost predicate Ahead(width: real, offset: real, lp: Loop) {
    if lp.can.idle then lp.can.curbit == 0
    else lp.now < SamplePoint(width, offset, lp.edge, lp.bcount, lp.can.curbit)
  }

  lemma {:induction false} AfterEdge(width: real, offset: real, t: int, bit: int)
    requires offset >= 1.0
    ensures SamplePoint(width, offset, t, bit, bit) > t
  {
    assert (bit - bit) as real * width == 0.0;
  }

  lemma {:induction false} NextPoint(width: real, offset: real, edge: int, bcount: int, bit: int)
    requires width >= 1.0
    ensures SamplePoint(width, offset, edge, bcount, bit + 1) > SamplePoint(width, offset, edge, bcount, bit)
  {
    var d := (bit - bcount) as real;
    assert (bit + 1 - bcount) as real == d + 1.0;
    assert (d + 1.0) * width == d * width + width;
  }

  lemma {:induction false} EndsCounting(s: State, b: Bit)
    requires !s.idle && HandleBit(s, b).0.idle
    ensures HandleBit(s, b).0.curbit == 0
  {
    hide IsStuffBit;
  }

  lemma {:induction false} StaysAhead(l: Line, offset: real, lp: Loop)
    requires 1.0 <= offset <= l.width - 1.0 && Ahead(l.width, offset, lp) && Wait(l, offset, lp).Woken?
    ensures Ahead(l.width, offset, Turn(l, lp, Wait(l, offset, lp)).0)
  {
    hide HandleBit, Line.Level, Line.Falls, SamplePoint;
    var w, k := Wait(l, offset, lp), lp.can.curbit;
    AfterEdge(l.width, offset, w.t, k);
    NextPoint(l.width, offset, w.t, k, k);
    NextPoint(l.width, offset, lp.edge, lp.bcount, k);
    if !lp.can.idle && w.due {
      var b := l.Level(w.t);
      if HandleBit(lp.can, b).0.idle { EndsCounting(lp.can, b); } else { CurbitCounts(lp.can, b); }
    }
  }

  // ----- One wait -----

  /** From sample t on, past sample now, the first group to hold is what wakes the loop. */
  lemma {:induction false} HoldsWhenWakes(w: S.Chunk, l: Line, o: P.Origin, now: nat, pos: int, groups: seq<S.Group>, t: nat)
    requires l.width > 0.0 && Captures(w, l) && now < t <= l.samples
    requires forall u: nat :: now < u < l.samples ==> (P.Holding(w, o, u, groups) != {} <==> u == pos || l.Falls(u))
    ensures R.FirstHold(w, o, groups, t) == NextWake(l, t - 1, pos)
    decreases l.samples - t
  {
    hide P.Holding, Line.Falls, Line.Level;
    if t < l.samples { HoldsWhenWakes(w, l, o, now, pos, groups, t + 1); }
  }

  /** The scanner's state and the loop belong together: at the last match, or in front of the capture. */
  ghost predicate Related(st: S.Scan, lp: Loop, w: S.Chunk, l: Line)
    requires l.width > 0.0
  {
    && R.Stands(st, [w], w) && Captures(w, l) && |st.prev| > 0
    && (if st.matched then lp.now == st.cur else lp.can.idle && lp.now == st.cur == 0 && l.Level(0) == 1)
  }

  lemma {:induction false} AskedSimply(l: Line, offset: real, lp: Loop)
    requires Ahead(l.width, offset, lp)
    ensures R.SimpleList(Asked(l.width, offset, lp)) && S.HaveConditions(Asked(l.width, offset, lp))
  {
    hide SamplePoint;
    var g := Asked(l.width, offset, lp);
    assert g[|g| - 1] != [];
    assert P.NoSkip(EDGE);
  }

  /** Which of the loop's groups hold at a sample: the edge, and in a frame the sample point. */
  lemma {:induction false} AskedHold(st: S.Scan, lp: Loop, w: S.Chunk, l: Line, offset: real, t: nat)
    requires l.width > 0.0 && Related(st, lp, w, l) && Ahead(l.width, offset, lp) && lp.now < t < l.samples
    ensures var holding := P.Holding(w, P.OriginOf(w, st), t, Asked(l.width, offset, lp));
            if lp.can.idle then holding == if l.Falls(t) then {0} else {}
            else
              && (0 in holding <==> t == SamplePoint(l.width, offset, lp.edge, lp.bcount, lp.can.curbit))
              && (1 in holding <==> l.Falls(t)) && (holding != {} ==> 0 in holding || 1 in holding)
  {
    hide SamplePoint, P.GroupHolds, Line.Falls;
    var o := P.OriginOf(w, st);
    assert st.matched ==> S.Pin(o.pins, 0) == l.Level(lp.now) by { hide Line.Level; }
    EdgeHolds(w, l, o, t);
    if !lp.can.idle {
      DueHolds(w, o, t, SamplePoint(l.width, offset, lp.edge, lp.bcount, lp.can.curbit) - lp.now);
    }
  }

  /** The next group to hold is what the loop waits for. */
  lemma {:induction false} WakesAtHold(st: S.Scan, lp: Loop, w: S.Chunk, l: Line, offset: real)
    requires l.width > 0.0 && Related(st, lp, w, l) && Ahead(l.width, offset, lp)
    ensures var pos := if lp.can.idle then lp.now else SamplePoint(l.width, offset, lp.edge, lp.bcount, lp.can.curbit);
            var o := P.OriginOf(w, st);
            R.FirstHold(w, o, Asked(l.width, offset, lp), o.from) == NextWake(l, lp.now, pos)
  {
    hide SamplePoint, P.Holding, Line.Falls, Asked;
    var pos := if lp.can.idle then lp.now else SamplePoint(l.width, offset, lp.edge, lp.bcount, lp.can.curbit);
    var o, groups := P.OriginOf(w, st), Asked(l.width, offset, lp);
    forall u: nat | lp.now < u < l.samples ensures P.Holding(w, o, u, groups) != {} <==> u == pos || l.Falls(u) {
      AskedHold(st, lp, w, l, offset, u);
    }
    HoldsWhenWakes(w, l, o, lp.now, pos, groups, lp.now + 1);
    if !st.matched { NothingAtFirst(lp, w, l, offset, o); }
  }

  lemma {:induction false} NothingAtFirst(lp: Loop, w: S.Chunk, l: Line, offset: real, o: P.Origin)
    requires l.width > 0.0 && lp.can.idle && Captures(w, l) && l.samples > 0 && l.Level(0) == 1
    ensures P.Holding(w, o, 0, Asked(l.width, offset, lp)) == {}
  {
    RecessiveHoldsNot(w, l, o, 0);
  }

  /** A wait of the loop through the scanner is the wait of the timing theorems, the first one included,
      and brings the loop to the same place. */
  lemma {:induction false} WaitRelated(st: S.Scan, lp: Loop, w: S.Chunk, l: Line, offset: real)
    requires 1.0 <= offset <= l.width - 1.0 && Related(st, lp, w, l) && Ahead(l.width, offset, lp)
    ensures var r, wk := S.Wait(false, S.Install(st, Asked(l.width, offset, lp)), [w]), Wait(l, offset, lp);
            && (r.Blocked? <==> wk.Blocked?)
            && (r.Hit? ==>
                  && r.rest == [w] && Handled(lp, S.EventOf(r.st, w)) == Turn(l, lp, wk)
                  && Related(r.st, Turn(l, lp, wk).0, w, l))
  {
    hide SamplePoint, P.Holding, Line.Falls, Asked, HandleBit, R.Stands, R.SimpleList, R.FirstHold;
    var groups := Asked(l.width, offset, lp);
    AskedSimply(l, offset, lp);
    R.WholeWait(st, groups, w);
    WakesAtHold(st, lp, w, l, offset);
    var r, wk := S.Wait(false, S.Install(st, groups), [w]), Wait(l, offset, lp);
    if r.Hit? {
      AskedHold(st, lp, w, l, offset, wk.t);
      EventShows(r.st, w, l, wk.t);
    }
  }

  lemma EventShows(st: S.Scan, w: S.Chunk, l: Line, t: nat)
    requires l.width > 0.0 && Captures(w, l) && st.cur == t < l.samples && |st.prev| > 0
    ensures S.Pin(S.EventOf(st, w).pins, 0) == l.Level(t)
  {
  }

  // ----- Runs -----

  /** The matches of a run make the loop take its turns. */
  lemma {:induction false} RunTakesTurns(l: Line, offset: real, w: S.Chunk, seen: seq<S.Event>, n: nat, st: S.Scan)
    requires 1.0 <= offset <= l.width - 1.0
    requires Related(st, LoopAfter(seen).0, w, l) && Ahead(l.width, offset, LoopAfter(seen).0)
    ensures var (lp, e) := LoopAfter(seen); var (lp1, e1) := Turns(l, offset, lp, n);
            LoopAfter(seen + S.Run(false, CanLoop(l.width, offset), seen, n, st, [w])) == (lp1, e + e1)
    decreases n
  {
    hide Related, Ahead, Wait, Turn, Handled, LoopAfter, Asked;
    var next := CanLoop(l.width, offset);
    var (lp, e) := LoopAfter(seen);
    assert seen + [] == seen && e + [] == e;
    if n > 0 {
      WaitRelated(st, lp, w, l, offset);
      var r := S.Wait(false, S.Install(st, next(seen)), [w]);
      C.RunUnfolds(false, next, seen, n, st, [w], r);
      if r.Hit? {
        var ev := S.EventOf(r.st, w);
        StaysAhead(l, offset, lp);
        LoopAfterOne(seen, ev);
        RunTakesTurns(l, offset, w, seen + [ev], n - 1, r.st);
        var more := S.Run(false, next, seen + [ev], n - 1, r.st, [w]);
        assert seen + ([ev] + more) == (seen + [ev]) + more;
        var (lp1, e1) := Turn(l, lp, Wait(l, offset, lp));
        var (lp2, e2) := Turns(l, offset, lp1, n - 1);
        assert e + (e1 + e2) == (e + e1) + e2;
      }
    }
  }

  /** The capture w of the line l, in front of an instance that has not matched yet. */
  ghost predicate Taken(l: Line, w: S.Chunk, st: S.Scan)
    requires l.width > 0.0
  {
    && Captures(w, l) && w.fixed == map[] && w.start < w.end && P.HasChannels(w, |st.prev|)
    && |st.prev| > 0 && C.Started(st, w) && l.origin > 0.0
  }

  lemma {:induction false} StartsRelated(l: Line, offset: real, w: S.Chunk, st: S.Scan)
    requires l.width > 0.0 && Taken(l, w, st)
    ensures Related(st, Fresh(), w, l) && Ahead(l.width, offset, Fresh())
  {
    CellOf(l, 0);
    if l.Cell(0) >= 0 { StartsApart(l, 0, l.Cell(0)); }
  }

  /** From end to end: any frames with any gaps on an ideal bus, captured and handed over in any chunks,
      constant or packed, no wait returning where a cut was made. The matches the code's scanner reports
      make the loop report the fields of all frames in order, and nothing else. */
  lemma {:induction false} BusRead(l: Line, offset: real, frames: seq<Sent>, w: S.Chunk, st: S.Scan, chunks: seq<S.Chunk>, n: nat)
    requires 1.0 <= offset <= l.width - 1.0 && l.Start(|l.levels|) <= l.samples as real
    requires AllSent(frames) && l.levels == OnBus(frames) && n >= 3 * |l.levels| && Taken(l, w, st)
    requires C.Tiles(chunks, w) && chunks[0].start == w.start
    requires C.OffCuts(S.Run(false, CanLoop(l.width, offset), [], n, st, [w]), n, chunks)
    ensures var (lp, e) := LoopAfter(S.Run(true, CanLoop(l.width, offset), [], n, st, chunks));
            Ready(lp.can) && FieldReports(e) == Heard(frames)
  {
    hide Related, Ahead, Turns, FieldReports, Heard, OnBus, AllSent, S.Run, C.OffCuts, P.HasChannels, Handled, J.AlwaysJumpSafe, C.AsksWell;
    var next := CanLoop(l.width, offset);
    AlwaysFine(l.width, offset, chunks, w, |st.prev|);
    J.NothingAskedSafe(chunks, w, |st.prev|);
    J.RunRefines(next, [], n, st, chunks, w);
    C.RunScansWhole(next, [], n, st, chunks, w);
    StartsRelated(l, offset, w, st);
    RunTakesTurns(l, offset, w, [], n, st);
    var trace := S.Run(false, next, [], n, st, [w]);
    assert [] + trace == trace;
    var e := Turns(l, offset, Fresh(), n).1;
    assert [] + e == e;
    assert Ready(Zeroed());
    BusDecoded(l, offset, Fresh(), frames, n);
  }

  /** The same of the two threads: when the worker has used up its samples, whatever the interleaving. */
  lemma {:induction false} ThreadsReadBus(l: Line, offset: real, frames: seq<Sent>, w: S.Chunk, begin: H.Start,
      actions: seq<H.Action>, s: H.State, n: nat)
    requires 1.0 <= offset <= l.width - 1.0 && l.Start(|l.levels|) <= l.samples as real
    requires AllSent(frames) && l.levels == OnBus(frames) && n >= 3 * |l.levels| && n >= |s.events|
    requires T.Waited(CanLoop(l.width, offset), begin, actions, s) && s.worker.Waiting?
    requires var st := H.Initial(begin).scan.(cur := w.start);
             && Taken(l, w, st) && C.Tiles(s.fed, w) && s.fed[0].start == w.start
             && C.OffCuts(S.Run(false, CanLoop(l.width, offset), [], n, st, [w]), n, s.fed)
    ensures FieldReports(LoopAfter(s.events).1) == Heard(frames)
  {
    hide S.Run, T.Waited, Taken, C.OffCuts, LoopAfter, FieldReports, Heard, OnBus, AllSent;
    T.TraceIsRun(CanLoop(l.width, offset), begin, actions, s, n);
    BusRead(l, offset, frames, w, H.Initial(begin).scan.(cur := w.start), s.fed, n);
  }
}
