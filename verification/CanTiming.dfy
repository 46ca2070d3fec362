/** When the CAN decoder looks at the bus: sample points and resynchronisation on falling edges, in
    exact arithmetic on an ideal waveform. */
module CanTiming {
  import opened BitStrings
  import opened Can
  import opened CanFrame
  import opened CanRoundTrip

  // ----- The bus -----

  /** A capture of the bus: recessive, then bit cells of one width from origin on, then recessive again.
      Times are in samples; the capture has the samples 0, ..., samples - 1. */
  datatype Line = Line(origin: real, width: real, levels: seq<Bit>, samples: nat) {

    /** The time at which bit cell k starts. */
    function Start(k: int): real {
      origin + k as real * width
    }

    /** The levels of the cells k, ..., q - 1. */
    function Between(k: int, q: int): seq<Bit> {
      if 0 <= k <= q <= |levels| then levels[k..q] else []
    }

    predicate InCell(t: int, k: int) {
      Start(k) <= t as real < Start(k + 1)
    }

    /** Sample t is the first one in cell k. */
    predicate Opens(t: int, k: int) {
      t as real - 1.0 < Start(k) <= t as real
    }

    function Cell(t: int): int
      requires width > 0.0
    {
      ((t as real - origin) / width).Floor
    }

    function Level(t: int): Bit
      requires width > 0.0
    {
      if 0 <= Cell(t) < |levels| then levels[Cell(t)] else 1
    }

    predicate Falls(t: int)
      requires width > 0.0
    {
      Level(t - 1) == 1 && Level(t) == 0
    }
  }

  lemma {:induction false} StartsApart(l: Line, j: int, k: int)
    requires l.width > 0.0 && j <= k
    ensures l.Start(k) - l.Start(j) == (k - j) as real * l.width
    ensures l.Start(j) <= l.Start(k) && (j < k ==> l.Start(j) + l.width <= l.Start(k))
  {
    var d := (k - j) as real;
    assert k as real == j as real + d;
    assert (j as real + d) * l.width == j as real * l.width + d * l.width;
    assert d * l.width >= 0.0;
    if j < k {
      assert (d - 1.0) * l.width >= 0.0;
      assert d * l.width == (d - 1.0) * l.width + l.width;
    }
  }

  lemma {:induction false} CellOf(l: Line, t: int)
    requires l.width > 0.0
    ensures l.InCell(t, l.Cell(t))
  {
    var x := (t as real - l.origin) / l.width;
    var k := x.Floor;
    assert x * l.width == t as real - l.origin;
    assert k as real * l.width <= x * l.width;
    assert x * l.width < (k + 1) as real * l.width;
  }

  lemma {:induction false} OneCell(l: Line, t: int, k: int)
    requires l.width > 0.0 && l.InCell(t, k)
    ensures l.Cell(t) == k
  {
    CellOf(l, t);
    var c := l.Cell(t);
    if c < k {
      StartsApart(l, c + 1, k);
    } else if k < c {
      StartsApart(l, k + 1, c);
    }
  }

  /** A falling edge is the first sample of a dominant cell. */
  lemma {:induction false} FallOpensCell(l: Line, t: int)
    requires l.width > 0.0 && l.Falls(t)
    ensures 0 <= l.Cell(t) < |l.levels| && l.levels[l.Cell(t)] == 0 && l.Opens(t, l.Cell(t))
  {
    var k := l.Cell(t);
    CellOf(l, t);
    if l.Start(k) <= t as real - 1.0 {
      assert (t - 1) as real == t as real - 1.0;
      OneCell(l, t - 1, k);
    }
  }

  // ----- The sample points -----

  /** get_sample_point. */
  function SamplePoint(width: real, offset: real, edge: int, bcount: int, bitnum: int): int {
    (edge as real + (bitnum - bcount) as real * width + offset).Floor
  }

  /** In a frame that starts with cell m, the sample point of bit k lies inside the cell of bit k,
      whichever bit j <= k the last falling edge opened. */
  lemma {:induction false} SamplePointInCell(l: Line, offset: real, edge: int, m: nat, j: int, k: int)
    requires 1.0 <= offset <= l.width - 1.0 && j <= k && l.Opens(edge, m + j)
    ensures l.InCell(SamplePoint(l.width, offset, edge, j, k), m + k)
    ensures j == k ==> SamplePoint(l.width, offset, edge, j, k) > edge
  {
    StartsApart(l, m + j, m + k);
    StartsApart(l, m + k, m + k + 1);
    var x := edge as real + (k - j) as real * l.width + offset;
    assert x.Floor as real <= x < x.Floor as real + 1.0;
    if j == k {
      assert (k - j) as real * l.width == 0.0;
    }
  }

  // ----- The decode loop -----

  /** The decoder, the sample it stands at and the last falling edge with its bit number. */
  datatype Loop = Loop(can: State, now: int, edge: int, bcount: nat)

  datatype Wake = Blocked | Woken(t: int, edge: bool, due: bool)

  /** The first sample after t that is pos or a falling edge; the end of the capture if there is none. */
  function NextWake(l: Line, t: int, pos: int): (r: int)
    requires l.width > 0.0
    ensures t + 1 < l.samples ==> t < r <= l.samples
    ensures r < l.samples ==> t < r && (r == pos || l.Falls(r))
    ensures t < pos < l.samples ==> r <= pos
    ensures forall u: int :: t < u < r && u < l.samples ==> u != pos && !l.Falls(u)
    decreases l.samples - t
  {
    if t + 1 >= l.samples then l.samples
    else if t + 1 == pos || l.Falls(t + 1) then t + 1
    else NextWake(l, t + 1, pos)
  }

  /** c_wait as the loop calls it: for a falling edge, within a frame also for the sample point. A skip
      count of 0 comes back at once, for the current sample. */
  function Wait(l: Line, offset: real, lp: Loop): Wake
    requires l.width > 0.0
  {
    var pos := if lp.can.idle then lp.now else SamplePoint(l.width, offset, lp.edge, lp.bcount, lp.can.curbit);
    if !lp.can.idle && pos <= lp.now then Woken(lp.now, false, true)
    else
      var t := NextWake(l, lp.now, pos);
      if t >= l.samples then Blocked else Woken(t, l.Falls(t), t == pos)
  }

  /** The loop's body after a successful wait that found the bus at the given level. */
  function WakeUp(lp: Loop, w: Wake, level: Bit): (Loop, seq<Event>)
    requires w.Woken?
  {
    if lp.can.idle then (Loop(Begin(lp.can), w.t, w.t, lp.can.curbit), [])
    else
      var lp1 := if w.edge then lp.(now := w.t, edge := w.t, bcount := lp.can.curbit) else lp.(now := w.t);
      if w.due then
        var (can, e) := HandleBit(lp.can, level);
        (lp1.(can := can), e)
      else (lp1, [])
  }

  function Turn(l: Line, lp: Loop, w: Wake): (Loop, seq<Event>)
    requires l.width > 0.0 && w.Woken?
  {
    WakeUp(lp, w, l.Level(w.t))
  }

  /** n turns of the loop, fewer when the capture ends. */
  function Turns(l: Line, offset: real, lp: Loop, n: nat): (Loop, seq<Event>)
    requires l.width > 0.0
    decreases n
  {
    if n == 0 then (lp, [])
    else
      match Wait(l, offset, lp)
      case Blocked => (lp, [])
      case Woken(t, edge, due) =>
        var (lp1, e1) := Turn(l, lp, Woken(t, edge, due));
        var (lp2, e2) := Turns(l, offset, lp1, n - 1);
        (lp2, e1 + e2)
  }

  lemma {:induction false} TurnsAdd(l: Line, offset: real, lp: Loop, m: nat, n: nat)
    requires l.width > 0.0
    ensures var (lp1, e1) := Turns(l, offset, lp, m);
            var (lp2, e2) := Turns(l, offset, lp1, n);
            Turns(l, offset, lp, m + n) == (lp2, e1 + e2)
    decreases m
  {
    hide Wait, Turn;
    if m == 0 {
      assert [] + Turns(l, offset, lp, n).1 == Turns(l, offset, lp, n).1;
    } else if !Wait(l, offset, lp).Blocked? {
      var (lp1, e1) := Turn(l, lp, Wait(l, offset, lp));
      TurnsAdd(l, offset, lp1, m - 1, n);
      var (lp2, e2) := Turns(l, offset, lp1, m - 1);
      var (lp3, e3) := Turns(l, offset, lp2, n);
      assert e1 + (e2 + e3) == (e1 + e2) + e3;
    } else {
      var none: seq<Event> := [];
      assert none + none == none;
    }
  }

  // ----- In step with the frame -----

  /** The decoder is in the frame that starts with cell m: before the sample point of bit curbit, and
      its last edge opened the cell it has counted for it. */
  ghost predicate InStep(l: Line, lp: Loop, m: nat) {
    && !lp.can.idle && lp.bcount <= lp.can.curbit
    && l.Opens(lp.edge, m + lp.bcount)
    && (l.InCell(lp.now, m + lp.can.curbit - 1) || AtEdge(lp))
  }

  /** The edge that opens the cell of the next bit has just been seen. */
  ghost predicate AtEdge(lp: Loop) {
    lp.now == lp.edge && lp.bcount == lp.can.curbit
  }

  ghost predicate Captured(l: Line, offset: real, k: int) {
    && 1.0 <= offset <= l.width - 1.0
    && 0 <= k < |l.levels| && l.Start(k + 1) <= l.samples as real
  }

  /** A falling edge between the last sample point and the next one opens the cell in between. */
  lemma {:induction false} EdgeOpens(l: Line, t: int, now: int, k: int)
    requires l.width > 1.0 && l.Falls(t) && now < t && t as real < l.Start(k + 1)
    requires l.InCell(now, k - 1) || l.Opens(now, k)
    ensures l.Opens(t, k) && !l.Opens(now, k)
  {
    FallOpensCell(l, t);
    CellOf(l, t);
    var c := l.Cell(t);
    StartsApart(l, k - 1, k);
    if c < k {
      StartsApart(l, c, k - 1);
    } else if k < c {
      StartsApart(l, k + 1, c);
    }
  }

  /** The next wake-up lies in the cell of the next bit: at its falling edge or at its sample point. */
  lemma {:induction false} WakesInCell(l: Line, offset: real, lp: Loop, m: nat)
    requires InStep(l, lp, m) && Captured(l, offset, m + lp.can.curbit)
    ensures var w, k := Wait(l, offset, lp), m + lp.can.curbit;
            && w.Woken? && l.InCell(w.t, k) && l.Level(w.t) == l.levels[k]
            && (w.edge ==> l.Opens(w.t, k) && !AtEdge(lp))
            && (w.edge || w.due)
  {
    var k := m + lp.can.curbit;
    var pos := SamplePoint(l.width, offset, lp.edge, lp.bcount, lp.can.curbit);
    SamplePointInCell(l, offset, lp.edge, m, lp.bcount, lp.can.curbit);
    StartsApart(l, k - 1, k);
    StartsApart(l, k, k + 1);
    hide SamplePoint, Line.Cell, Line.Falls;
    var t := NextWake(l, lp.now, pos);
    assert t <= pos;
    if l.Falls(t) {
      EdgeOpens(l, t, lp.now, k);
    }
    assert l.InCell(t, k);
    OneCell(l, t, k);
  }

  lemma {:induction false} CurbitCounts(s: State, b: Bit)
    requires !HandleBit(s, b).0.idle
    ensures HandleBit(s, b).0.curbit == s.curbit + 1
  {
    hide Decode, IsStuffBit;
  }

  /** One turn within the frame: either the next bit is handled, with the level of its own cell, or
      the decoder has moved on to the edge that opens the cell. */
  lemma {:induction false} TurnInStep(l: Line, offset: real, lp: Loop, m: nat)
    requires InStep(l, lp, m) && Captured(l, offset, m + lp.can.curbit)
    ensures Wait(l, offset, lp).Woken?
    ensures var w, k := Wait(l, offset, lp), m + lp.can.curbit;
            var (lp1, e) := Turn(l, lp, w);
            if w.due then
              && (lp1.can, e) == HandleBit(lp.can, l.levels[k]) && l.InCell(lp1.now, k)
              && (!lp1.can.idle ==> lp1.can.curbit == lp.can.curbit + 1 && InStep(l, lp1, m))
            else lp1.can == lp.can && e == [] && InStep(l, lp1, m) && AtEdge(lp1) && !AtEdge(lp)
  {
    hide HandleBit, Wait, Line.Level, Line.InCell, Line.Opens;
    WakesInCell(l, offset, lp, m);
    var k := m + lp.can.curbit;
    if !HandleBit(lp.can, l.levels[k]).0.idle {
      CurbitCounts(lp.can, l.levels[k]);
    }
  }

  lemma {:induction false} OneTurn(l: Line, offset: real, lp: Loop, n: nat)
    requires l.width > 0.0 && n > 0 && Wait(l, offset, lp).Woken?
    ensures var (lp1, e1) := Turn(l, lp, Wait(l, offset, lp));
            var (lp2, e2) := Turns(l, offset, lp1, n - 1);
            Turns(l, offset, lp, n) == (lp2, e1 + e2)
  {
    hide Wait, Turn;
  }

  /** In n turns the decoder handles the cells up to q - 1, each once and in order. */
  ghost predicate Samples(l: Line, offset: real, lp: Loop, m: nat, q: nat, n: nat)
    requires l.width > 0.0
  {
    var (lp1, e) := Turns(l, offset, lp, n);
    (lp1.can, e) == Feed(lp.can, l.Between(m + lp.can.curbit, q)) && l.InCell(lp1.now, q - 1)
  }

  /** The bits still to come, after the next one is handled. */
  ghost predicate ToCome(l: Line, lp: Loop, m: nat, q: nat) {
    && m + lp.can.curbit <= q <= |l.levels|
    && EndsExactly(lp.can, l.Between(m + lp.can.curbit, q))
  }

  lemma {:induction false} NextToCome(l: Line, lp: Loop, m: nat, q: nat)
    requires ToCome(l, lp, m, q)
    ensures var k := m + lp.can.curbit;
            && k < q
            && l.Between(k, q) == [l.levels[k]] + l.Between(k + 1, q)
            && (var can1 := HandleBit(lp.can, l.levels[k]).0;
                if k + 1 == q then can1.idle else !can1.idle && EndsExactly(can1, l.Between(k + 1, q)))
  {
    hide HandleBit;
    var k := m + lp.can.curbit;
    assert l.levels[k..q][1..] == l.levels[k + 1..q];
  }

  lemma {:induction false} FeedNext(s: State, b: Bit, rest: seq<Bit>)
    ensures var (s1, e1) := HandleBit(s, b); var (s2, e2) := Feed(s1, rest);
            Feed(s, [b] + rest) == (s2, e1 + e2)
  {
    hide HandleBit;
    assert ([b] + rest)[1..] == rest;
  }

  /** The decoder's turn, the next bit not yet due. */
  lemma {:induction false} EdgeFirst(l: Line, offset: real, lp: Loop, m: nat, q: nat, n: nat)
    requires l.width > 0.0
    requires var w := Wait(l, offset, lp);
             && w.Woken? && Turn(l, lp, w).0.can == lp.can && Turn(l, lp, w).1 == []
             && Samples(l, offset, Turn(l, lp, w).0, m, q, n)
    ensures Samples(l, offset, lp, m, q, n + 1)
  {
    hide Wait, Turn, Turns, HandleBit, Line.InCell, Line.Between, Feed;
    OneTurn(l, offset, lp, n + 1);
    var lp1 := Turn(l, lp, Wait(l, offset, lp)).0;
    var (lp2, e2) := Turns(l, offset, lp1, n);
    assert [] + e2 == e2;
  }

  lemma {:induction false} CapturedBefore(l: Line, offset: real, k: int, q: int)
    requires Captured(l, offset, q) && 0 <= k <= q
    ensures Captured(l, offset, k)
  {
    StartsApart(l, k + 1, q + 1);
  }

  /** The decoder is in a frame that ends with cell q - 1 and is captured to its end. */
  ghost predicate Going(l: Line, offset: real, lp: Loop, m: nat, q: nat) {
    InStep(l, lp, m) && ToCome(l, lp, m, q) && Captured(l, offset, q - 1)
  }

  /** What a turn leaves to come. */
  lemma {:induction false} TurnGoesOn(l: Line, offset: real, lp: Loop, m: nat, q: nat)
    requires Going(l, offset, lp, m, q)
    ensures l.width > 0.0 && Wait(l, offset, lp).Woken? && m + lp.can.curbit < q
    ensures var w := Wait(l, offset, lp); var (lp1, e) := Turn(l, lp, w);
            && (!w.due ==> Going(l, offset, lp1, m, q) && lp1.can == lp.can && e == [] && AtEdge(lp1) && !AtEdge(lp))
            && (w.due && m + lp.can.curbit + 1 < q ==> Going(l, offset, lp1, m, q) && !lp1.can.idle && lp1.can.curbit == lp.can.curbit + 1)
  {
    hide Wait, Turn, HandleBit, InStep, AtEdge, Line.InCell, Line.Opens, Line.Between, EndsExactly, Captured;
    NextToCome(l, lp, m, q);
    CapturedBefore(l, offset, m + lp.can.curbit, q - 1);
    TurnInStep(l, offset, lp, m);
  }

  lemma {:induction false} BitHandled(l: Line, offset: real, lp: Loop, m: nat, q: nat, n: nat)
    requires Going(l, offset, lp, m, q) && m + lp.can.curbit + 1 < q && Wait(l, offset, lp).Woken? && Wait(l, offset, lp).due
    requires Samples(l, offset, Turn(l, lp, Wait(l, offset, lp)).0, m, q, n)
    ensures Samples(l, offset, lp, m, q, n + 1)
  {
    hide Wait, Turn, Turns, HandleBit, InStep, AtEdge, Line.InCell, Line.Opens, Line.Between, Feed, ToCome, Captured, EndsExactly;
    var k := m + lp.can.curbit;
    NextToCome(l, lp, m, q);
    CapturedBefore(l, offset, k, q - 1);
    TurnInStep(l, offset, lp, m);
    OneTurn(l, offset, lp, n + 1);
    FeedNext(lp.can, l.levels[k], l.Between(k + 1, q));
  }

  lemma {:induction false} LastHandled(l: Line, offset: real, lp: Loop, m: nat, q: nat)
    requires Going(l, offset, lp, m, q) && m + lp.can.curbit + 1 == q && Wait(l, offset, lp).Woken? && Wait(l, offset, lp).due
    ensures Samples(l, offset, lp, m, q, 1)
  {
    hide Wait, Turn, HandleBit, InStep, AtEdge, Line.InCell, Line.Opens, ToCome, EndsExactly;
    var k := m + lp.can.curbit;
    NextToCome(l, lp, m, q);
    TurnInStep(l, offset, lp, m);
    OneTurn(l, offset, lp, 1);
    FeedNext(lp.can, l.levels[k], l.Between(k + 1, q));
  }

  /** The rest of a frame that ends with cell q - 1: its bits are handled one by one, in order, each
      once, in at most two turns a bit. */
  lemma {:induction false} FrameSampled(l: Line, offset: real, lp: Loop, m: nat, q: nat) returns (n: nat)
    requires Going(l, offset, lp, m, q)
    ensures n <= 2 * (q - m - lp.can.curbit) - if AtEdge(lp) then 1 else 0
    ensures l.width > 0.0 && Samples(l, offset, lp, m, q, n)
    decreases q - m - lp.can.curbit, if AtEdge(lp) then 0 else 1
  {
    hide Wait, Turn, HandleBit, AtEdge, Samples, Going;
    var k := m + lp.can.curbit;
    TurnGoesOn(l, offset, lp, m, q);
    var w := Wait(l, offset, lp);
    var lp1 := Turn(l, lp, w).0;
    if !w.due {
      n := FrameSampled(l, offset, lp1, m, q);
      EdgeFirst(l, offset, lp, m, q, n);
      n := n + 1;
    } else if k + 1 < q {
      n := FrameSampled(l, offset, lp1, m, q);
      BitHandled(l, offset, lp, m, q, n);
      n := n + 1;
    } else {
      LastHandled(l, offset, lp, m, q);
      n := 1;
    }
  }

  // ----- Frames on the bus -----

  /** A frame sent after some recessive bits. */
  datatype Sent = Sent(gap: nat, frame: WireFrame)

  function Ones(n: nat): (r: seq<Bit>)
    ensures |r| == n && forall i :: 0 <= i < n ==> r[i] == 1
  {
    seq(n, _ => 1)
  }

  function OnBus(frames: seq<Sent>): seq<Bit> {
    if frames == [] then [] else Ones(frames[0].gap) + Wire(frames[0].frame) + OnBus(frames[1..])
  }

  /** The reports due for the frames. */
  function Heard(frames: seq<Sent>): seq<Event> {
    if frames == [] then []
    else ReportsBetween(frames[0].frame, 0, frames[0].frame.Last() + 26) + Heard(frames[1..])
  }

  /** Every frame is one, and leaves the bus recessive, so that the next one starts with an edge. */
  ghost predicate AllSent(frames: seq<Sent>) {
    forall i :: 0 <= i < |frames| ==> frames[i].frame.Valid() && frames[i].frame.TailBit(9) == 1
  }

  /** The bus is recessive from sample now to cell m. */
  ghost predicate Silent(l: Line, now: int, m: int)
    requires l.width > 0.0
  {
    now as real < l.Start(m) && forall u: int :: now <= u && u as real < l.Start(m) ==> l.Level(u) == 1
  }

  lemma {:induction false} SilentOn(l: Line, now: int, m: nat, q: nat)
    requires l.width > 0.0 && Silent(l, now, m) && m <= q <= |l.levels|
    requires forall k :: m <= k < q ==> l.levels[k] == 1
    ensures Silent(l, now, q)
  {
    StartsApart(l, m, q);
    forall u: int | now <= u && u as real < l.Start(q) ensures l.Level(u) == 1 {
      if u as real >= l.Start(m) {
        CellOf(l, u);
        var c := l.Cell(u);
        if c < m {
          StartsApart(l, c + 1, m);
        } else if c >= q {
          StartsApart(l, q, c);
        }
      }
    }
  }

  /** The first sample of a cell. */
  lemma {:induction false} FirstSample(l: Line, k: int) returns (t: int)
    requires l.width >= 1.0
    ensures l.Opens(t, k) && l.InCell(t, k)
  {
    t := -((-l.Start(k)).Floor);
    StartsApart(l, k, k + 1);
  }

  /** In the idle state the decoder wakes up on the first dominant cell. */
  lemma {:induction false} WakesOnStart(l: Line, offset: real, lp: Loop, m: nat)
    requires lp.can.idle && l.width >= 1.0 && m < |l.levels| && l.levels[m] == 0
    requires Silent(l, lp.now, m) && l.Start(m + 1) <= l.samples as real
    ensures var w := Wait(l, offset, lp); w.Woken? && l.Opens(w.t, m)
  {
    var t := FirstSample(l, m);
    OneCell(l, t, m);
    assert l.Level(t) == 0;
    assert (t - 1) as real == t as real - 1.0;
    assert l.Level(t - 1) == 1;
    assert l.Falls(t);
    forall u: int | lp.now < u && u as real < l.Start(m) ensures !l.Falls(u) {
      assert l.Level(u) == 1;
    }
    var r := NextWake(l, lp.now, lp.now);
  }

  /** After the last cell nothing wakes it up again. */
  lemma {:induction false} SleepsOn(l: Line, offset: real, lp: Loop)
    requires lp.can.idle && l.width > 0.0 && Silent(l, lp.now, |l.levels|)
    ensures Wait(l, offset, lp).Blocked?
  {
    var r := NextWake(l, lp.now, lp.now);
    if r < l.samples {
      FallOpensCell(l, r);
      CellOf(l, r);
      StartsApart(l, l.Cell(r) + 1, |l.levels|);
    }
  }

  lemma {:induction false} WireShape(f: WireFrame)
    requires f.Valid() && f.TailBit(9) == 1
    ensures var w := Wire(f); |w| > 1 && w[0] == 0 && w[|w| - 1] == 1
  {
    assert f.Covered()[0] == 0;
  }

  /** Where frame s is sent from cell m on, its own bits are the cells from m + gap on. */
  lemma {:induction false} SentCells(l: Line, m: nat, s: Sent)
    requires var q := m + s.gap + |Wire(s.frame)|; q <= |l.levels| && l.Between(m, q) == Ones(s.gap) + Wire(s.frame)
    ensures var m1 := m + s.gap; l.Between(m1, m1 + |Wire(s.frame)|) == Wire(s.frame)
    ensures forall k :: m <= k < m + s.gap ==> l.levels[k] == 1
    ensures forall i :: 0 <= i < |Wire(s.frame)| ==> l.levels[m + s.gap + i] == Wire(s.frame)[i]
  {
    hide Wire;
    var all, w := Ones(s.gap) + Wire(s.frame), Wire(s.frame);
    var b := l.Between(m, m + s.gap + |w|);
    forall k | m <= k < m + s.gap ensures l.levels[k] == 1 {
      assert b[k - m] == all[k - m];
    }
    forall i | 0 <= i < |w| ensures l.levels[m + s.gap + i] == w[i] {
      assert b[s.gap + i] == all[s.gap + i];
    }
  }

  /** Still silent after the sample point of a recessive cell. */
  lemma {:induction false} SilentInCell(l: Line, now: int, q: int)
    requires l.width > 0.0 && 0 < q <= |l.levels| && l.InCell(now, q - 1) && l.levels[q - 1] == 1
    ensures Silent(l, now, q)
  {
    forall u: int | now <= u && u as real < l.Start(q) ensures l.Level(u) == 1 {
      OneCell(l, u, q - 1);
    }
  }

  /** What n turns bring: the reports of the frames, and the idle state in front of cell q. */
  ghost predicate Hears(l: Line, offset: real, lp: Loop, n: nat, reports: seq<Event>, q: nat)
    requires l.width > 0.0
  {
    var (lp1, e) := Turns(l, offset, lp, n);
    Ready(lp1.can) && FieldReports(e) == reports && Silent(l, lp1.now, q)
  }

  /** The decoder at the start edge of the frame that starts with cell m. */
  lemma {:induction false} Starts(l: Line, offset: real, lp: Loop, m: nat, f: WireFrame)
    requires 1.0 <= offset <= l.width - 1.0
    requires lp.can == Begin(Reset()) && lp.bcount == 0 && lp.now == lp.edge && l.Opens(lp.edge, m)
    requires f.Valid() && l.Between(m, m + |Wire(f)|) == Wire(f) && 0 < m + |Wire(f)| <= |l.levels|
    requires l.Start(m + |Wire(f)|) <= l.samples as real
    ensures Going(l, offset, lp, m, m + |Wire(f)|)
  {
    hide Wire, HandleBit, FieldReports, Feed;
    RoundTrip(f);
  }

  lemma {:induction false} FrameHeard(l: Line, offset: real, lp: Loop, m: nat, s: Sent) returns (n: nat)
    requires 1.0 <= offset <= l.width - 1.0
    requires Ready(lp.can) && Silent(l, lp.now, m) && s.frame.Valid() && s.frame.TailBit(9) == 1
    requires var q := m + s.gap + |Wire(s.frame)|;
             q <= |l.levels| && l.Start(q) <= l.samples as real && l.Between(m, q) == Ones(s.gap) + Wire(s.frame)
    ensures n <= 2 * |Wire(s.frame)| + 1
    ensures Hears(l, offset, lp, n, ReportsBetween(s.frame, 0, s.frame.Last() + 26), m + s.gap + |Wire(s.frame)|)
  {
    hide Wire, Turns, HandleBit, FieldReports, ReportsBetween, EndsExactly, Line.Between, Line.Level, Feed, Going, ToCome, Silent;
    var f, m1 := s.frame, m + s.gap;
    var q := m1 + |Wire(f)|;
    WireShape(f);
    SentCells(l, m, s);
    SilentOn(l, lp.now, m, m1);
    StartsApart(l, m1 + 1, q);
    WakesOnStart(l, offset, lp, m1);
    var (lp1, e1) := Turn(l, lp, Wait(l, offset, lp));
    Starts(l, offset, lp1, m1, f);
    assert Ready(Reset());
    n := FrameSampled(l, offset, lp1, m1, q);
    OneTurn(l, offset, lp, n + 1);
    RoundTrip(f);
    var (lp2, e2) := Turns(l, offset, lp1, n);
    assert [] + e2 == e2;
    SilentInCell(l, lp2.now, q);
    n := n + 1;
  }

  lemma {:induction false} SplitCells(l: Line, m: nat, a: seq<Bit>, b: seq<Bit>)
    requires m + |a| + |b| == |l.levels| && l.Between(m, |l.levels|) == a + b
    ensures l.Between(m, m + |a|) == a && l.Between(m + |a|, |l.levels|) == b
  {
    assert l.levels[m..m + |a|] == (a + b)[..|a|];
    assert l.levels[m + |a|..] == (a + b)[|a|..];
  }

  lemma {:induction false} HearsThen(l: Line, offset: real, lp: Loop, n1: nat, n2: nat, r1: seq<Event>, r2: seq<Event>, q1: nat, q2: nat)
    requires l.width > 0.0 && Hears(l, offset, lp, n1, r1, q1)
    requires Hears(l, offset, Turns(l, offset, lp, n1).0, n2, r2, q2)
    ensures Hears(l, offset, lp, n1 + n2, r1 + r2, q2)
  {
    hide Turns, FieldReports, Silent, Ready;
    TurnsAdd(l, offset, lp, n1, n2);
    FieldReportsConcat(Turns(l, offset, lp, n1).1, Turns(l, offset, Turns(l, offset, lp, n1).0, n2).1);
  }

  lemma {:induction false} FramesHeard(l: Line, offset: real, lp: Loop, m: nat, frames: seq<Sent>) returns (n: nat)
    requires 1.0 <= offset <= l.width - 1.0 && l.Start(|l.levels|) <= l.samples as real
    requires Ready(lp.can) && Silent(l, lp.now, m) && AllSent(frames)
    requires m + |OnBus(frames)| == |l.levels| && l.Between(m, |l.levels|) == OnBus(frames)
    ensures n <= 3 * |OnBus(frames)|
    ensures Hears(l, offset, lp, n, Heard(frames), |l.levels|)
    decreases |frames|
  {
    hide Wire, Turns, FieldReports, ReportsBetween, Silent, Line.Between;
    if frames == [] {
      n := 0;
      NothingHeard(l, offset, lp);
    } else {
      var s, rest := frames[0], frames[1..];
      var a := Ones(s.gap) + Wire(s.frame);
      var q := m + |a|;
      WireShape(s.frame);
      SplitCells(l, m, a, OnBus(rest));
      StartsApart(l, q, |l.levels|);
      var n1 := FrameHeard(l, offset, lp, m, s);
      var lp1 := Turns(l, offset, lp, n1).0;
      var n2 := FramesHeard(l, offset, lp1, q, rest);
      HearsThen(l, offset, lp, n1, n2, ReportsBetween(s.frame, 0, s.frame.Last() + 26), Heard(rest), q, |l.levels|);
      n := n1 + n2;
    }
  }

  lemma {:induction false} NothingHeard(l: Line, offset: real, lp: Loop)
    requires l.width > 0.0 && Ready(lp.can) && Silent(l, lp.now, |l.levels|)
    ensures Hears(l, offset, lp, 0, [], |l.levels|)
  {
  }

  /** From the idle state in front of any number of frames, sent in bit cells of any width with any
      recessive gaps between them: with the sample point at least one sample inside the cell on both
      sides, the loop reports the fields of all frames in order, and nothing else. */
  lemma {:induction false} BusDecoded(l: Line, offset: real, lp: Loop, frames: seq<Sent>, n: nat)
    requires 1.0 <= offset <= l.width - 1.0 && l.Start(|l.levels|) <= l.samples as real
    requires Ready(lp.can) && lp.now as real < l.origin
    requires AllSent(frames) && l.levels == OnBus(frames) && n >= 3 * |l.levels|
    ensures var (lp1, e) := Turns(l, offset, lp, n);
            Ready(lp1.can) && FieldReports(e) == Heard(frames)
  {
    hide Wire, Turns, FieldReports, ReportsBetween, Heard, OnBus, AllSent;
    assert l.Start(0) == l.origin;
    forall u: int | lp.now <= u && u as real < l.Start(0) ensures l.Level(u) == 1 {
      CellOf(l, u);
      if l.Cell(u) >= 0 { StartsApart(l, 0, l.Cell(u)); }
    }
    assert l.levels[0..] == l.levels;
    var m := FramesHeard(l, offset, lp, 0, frames);
    var lp1 := Turns(l, offset, lp, m).0;
    SleepsOn(l, offset, lp1);
    Blocks(l, offset, lp1, n - m);
    TurnsAdd(l, offset, lp, m, n - m);
    var e := Turns(l, offset, lp, m).1;
    assert e + [] == e;
  }

  lemma {:induction false} Blocks(l: Line, offset: real, lp: Loop, n: nat)
    requires l.width > 0.0 && Wait(l, offset, lp).Blocked?
    ensures Turns(l, offset, lp, n) == (lp, [])
  {
    hide Wait;
  }
}
