/** Feeding the stuffed bits of a frame to the decoder recovers the frame. */
module CanRoundTrip {
  import opened BitStrings
  import opened Can
  import opened CanFrame

  // ----- Bit stuffing (section 6 of the Bosch specification) -----

  /** v with the complement inserted after every five equal bits; run bits equal to last came before. */
  function Stuff(v: seq<Bit>, run: nat, last: Bit): seq<Bit> {
    if v == [] then []
    else
      var n := if run > 0 && v[0] == last then run + 1 else 1;
      if n == 5 then [v[0], 1 - v[0]] + Stuff(v[1..], 1, 1 - v[0])
      else [v[0]] + Stuff(v[1..], n, v[0])
  }

  /** The frame on the bus: start of frame to CRC sequence stuffed, the rest as it is. */
  function Wire(f: WireFrame): seq<Bit> {
    Stuff(f.Covered(), 0, 0) + f.tail
  }

  // ----- What the run reports -----

  predicate IsField(e: Event) {
    !e.Stuffed? && !e.Sampled?
  }

  /** The reports without the annotations of single bits. */
  function FieldReports(e: seq<Event>): seq<Event> {
    if e == [] then []
    else (if IsField(e[0]) then [e[0]] else []) + FieldReports(e[1..])
  }

  lemma {:induction false} FieldReportsConcat(a: seq<Event>, b: seq<Event>)
    ensures FieldReports(a + b) == FieldReports(a) + FieldReports(b)
    decreases |a|
  {
    if a == [] {
      assert a + b == b;
    } else {
      FieldReportsConcat(a[1..], b);
      var h := if IsField(a[0]) then [a[0]] else [];
      assert (a + b)[1..] == a[1..] + b;
      hide IsField;
      assert FieldReports(a + b) == h + FieldReports(a[1..] + b);
      assert FieldReports(a) == h + FieldReports(a[1..]);
    }
  }

  lemma {:induction false} AllFields(e: seq<Event>)
    requires forall i :: 0 <= i < |e| ==> IsField(e[i])
    ensures FieldReports(e) == e
  {
    if e != [] { AllFields(e[1..]); }
  }

  lemma {:induction false} PayloadEventsAreFields(payload: seq<nat>, i: nat)
    requires i <= |payload|
    ensures forall k :: 0 <= k < |PayloadEvents(payload, i)| ==> IsField(PayloadEvents(payload, i)[k])
    decreases |payload| - i
  {
    if i < |payload| { PayloadEventsAreFields(payload, i + 1); }
  }

  lemma ReportsAreFields(f: WireFrame, i: nat)
    requires f.Valid()
    ensures FieldReports(Reports(f, i)) == Reports(f, i)
  {
    PayloadEventsAreFields(f.payload, 0);
    AllFields(Reports(f, i));
  }

  /** The reports due at the bits i, ..., n - 1 of the frame. */
  function ReportsBetween(f: WireFrame, i: nat, n: nat): seq<Event>
    decreases n - i
  {
    if i >= n then [] else Reports(f, i) + ReportsBetween(f, i + 1, n)
  }

  lemma {:induction false} ReportsJoin(f: WireFrame, i: nat, m: nat, n: nat)
    requires i <= m <= n
    ensures ReportsBetween(f, i, m) + ReportsBetween(f, m, n) == ReportsBetween(f, i, n)
    decreases m - i
  {
    if i < m { ReportsJoin(f, i + 1, m, n); }
  }

  /** The frame ends with the last of the bits, not before. */
  predicate EndsExactly(s: State, bits: seq<Bit>)
    decreases |bits|
  {
    bits != [] &&
    var s1 := HandleBit(s, bits[0]).0;
    if |bits| == 1 then s1.idle else !s1.idle && EndsExactly(s1, bits[1..])
  }

  // ----- Stuff bits are told from data bits -----

  /** The last run bits of raw are equal to last, the one before them is not. */
  ghost predicate Trailing(raw: seq<Bit>, run: nat, last: Bit) {
    && run <= |raw|
    && (forall k :: |raw| - run <= k < |raw| ==> raw[k] == last)
    && (|raw| > run > 0 ==> raw[|raw| - run - 1] != last)
    && (run == 0 ==> raw == [])
  }

  function Extended(run: nat, last: Bit, b: Bit): nat {
    if run > 0 && b == last then run + 1 else 1
  }

  lemma DataBitKept(s: State, run: nat, last: Bit, b: Bit)
    requires Trailing(s.raw, run, last) && run <= 4
    ensures !IsStuffBit(s.(raw := s.raw + [b], bits := s.bits + [b]))
    ensures Trailing(s.raw + [b], Extended(run, last, b), b)
  {
    var raw := s.raw + [b];
    if |raw| >= 6 {
      var n := |s.raw|;
      assert s.raw[n - 1] == last && s.raw[n - 1 - run] != last;
    }
  }

  lemma StuffBitDropped(s: State, b: Bit)
    requires Trailing(s.raw, 5, b) && |s.bits| < s.lastDatabit + 17
    ensures IsStuffBit(s.(raw := s.raw + [1 - b], bits := s.bits + [1 - b]))
    ensures Trailing(s.raw + [1 - b], 1, 1 - b)
  {
    var n, raw := |s.raw|, s.raw + [1 - b];
    assert raw[n - 1] == raw[n - 2] == raw[n - 3] == raw[n - 4] == raw[n - 5] == b;
    assert raw[n] == 1 - b;
  }

  // ----- One bit of the frame, with the stuff bit it may bring -----

  /** The decoder within the frame with room left in its buffers. */
  ghost predicate Inside(f: WireFrame, u: seq<Bit>, s: State, i: nat) {
    f.Valid() && u == f.Unstuffed() && i <= |u| && InFrame(f, u, s, i) && |s.raw| <= 2 * i
  }

  lemma FrameIsShort(f: WireFrame)
    requires f.Valid()
    ensures f.Last() <= 102
  {
  }

  lemma SampledIsNoField(i: nat, e: seq<Event>)
    requires FieldReports(e) == e
    ensures FieldReports([Sampled(i)] + e) == e
  {
    assert ([Sampled(i)] + e)[1..] == e;
  }

  lemma StepHandled(f: WireFrame, u: seq<Bit>, s: State, i: nat)
    requires f.Valid() && i < |u| && |s.raw| < CAPACITY && i < CAPACITY && s.bits == u[..i]
    requires !IsStuffBit(s.(raw := s.raw + [u[i]], bits := s.bits + [u[i]]))
    requires StepsTo(f, u, s.(raw := s.raw + [u[i]]), i)
    ensures var (s1, e) := HandleBit(s, u[i]);
            && FieldReports(e) == Reports(f, i)
            && (if i + 1 == |u| then s1 == Reset() else InFrame(f, u, s1, i + 1) && s1.raw == s.raw + [u[i]])
  {
    hide Decode, IsStuffBit, Reports;
    assert s.bits + [u[i]] == u[..i + 1];
    KeptBit(s, u[i]);
    hide HandleBit;
    ReportsAreFields(f, i);
    SampledIsNoField(i, Reports(f, i));
  }

  lemma DataBit(f: WireFrame, u: seq<Bit>, s: State, i: nat)
    requires Inside(f, u, s, i) && i < |u| == f.Last() + 26
    requires !IsStuffBit(s.(raw := s.raw + [u[i]], bits := s.bits + [u[i]]))
    requires i + 1 == |u| ==> EndsWith(s.raw + [u[i]], f.tail, 10)
    ensures var (s1, e) := HandleBit(s, u[i]);
            && FieldReports(e) == Reports(f, i)
            && (if i + 1 == |u| then s1 == Reset()
                else Inside(f, u, s1, i + 1) && s1.raw == s.raw + [u[i]] && |s1.raw| < 2 * (i + 1) && !s1.idle)
  {
    hide Fields, IsStuffBit, Reports, WireFrame.Unstuffed, HandleBit, StepsTo;
    FrameIsShort(f);
    FieldsOf(f);
    FrameStep(f, u, s.(raw := s.raw + [u[i]]), i);
    StepHandled(f, u, s, i);
  }

  lemma StuffedBit(f: WireFrame, u: seq<Bit>, s: State, i: nat, b: Bit)
    requires Inside(f, u, s, i) && |s.raw| < 2 * i
    requires i <= f.Last() + 16 < |u| && Trailing(s.raw, 5, b)
    ensures var (s1, e) := HandleBit(s, 1 - b);
            && FieldReports(e) == []
            && Inside(f, u, s1, i) && !s1.idle && Trailing(s1.raw, 1, 1 - b)
  {
    FrameIsShort(f);
    hide WireFrame.Unstuffed;
    StuffBitDropped(s, b);
    assert (s.bits + [1 - b])[..i] == s.bits;
    assert FieldReports([Stuffed(|s.raw|)]) == [];
  }

  // ----- The stuffed part, the tail, the frame -----

  /** The whole way from state s to the end of the frame. */
  ghost predicate Recovers(f: WireFrame, s: State, bits: seq<Bit>, i: nat) {
    var (s1, e) := Feed(s, bits);
    && s1 == Reset() && EndsExactly(s, bits)
    && FieldReports(e) == ReportsBetween(f, i, f.Last() + 26)
  }

  /** One more bit in front of a way to the end. */
  lemma RecoversOn(f: WireFrame, s: State, b: Bit, rest: seq<Bit>, i: nat, j: nat)
    requires i <= j <= f.Last() + 26 && rest != []
    requires !HandleBit(s, b).0.idle && Recovers(f, HandleBit(s, b).0, rest, j)
    requires FieldReports(HandleBit(s, b).1) == ReportsBetween(f, i, j)
    ensures Recovers(f, s, [b] + rest, i)
  {
    hide HandleBit;
    var (s1, e1) := HandleBit(s, b);
    var (s2, e2) := Feed(s1, rest);
    assert ([b] + rest)[1..] == rest;
    FieldReportsConcat(e1, e2);
    ReportsJoin(f, i, j, f.Last() + 26);
  }

  lemma OneReport(f: WireFrame, i: nat)
    ensures ReportsBetween(f, i, i + 1) == Reports(f, i)
  {
    assert ReportsBetween(f, i + 1, i + 1) == [];
  }

  lemma TailGrows(raw: seq<Bit>, tail: seq<Bit>, k: nat)
    requires k < |tail| && EndsWith(raw, tail, k)
    ensures EndsWith(raw + [tail[k]], tail, k + 1)
  {
  }

  /** Bit k of the tail: never taken for a stuff bit. */
  lemma TailBit(f: WireFrame, u: seq<Bit>, s: State, k: nat)
    requires k < 10 && Inside(f, u, s, f.Last() + 16 + k)
    requires !IsStuffBit(s.(raw := s.raw + [f.tail[k]], bits := s.bits + [f.tail[k]]))
    requires EndsWith(s.raw, f.tail, k)
    ensures var (s1, e) := HandleBit(s, f.tail[k]);
            && FieldReports(e) == Reports(f, f.Last() + 16 + k)
            && (if k == 9 then s1 == Reset()
                else Inside(f, u, s1, f.Last() + 17 + k) && !s1.idle && EndsWith(s1.raw, f.tail, k + 1))
  {
    hide WireFrame.Unstuffed, HandleBit, Reports, EndsWith, IsStuffBit;
    TailInPlace(f, k);
    TailGrows(s.raw, f.tail, k);
    DataBit(f, u, s, f.Last() + 16 + k);
  }

  lemma TailInPlace(f: WireFrame, k: nat)
    requires k < |f.tail| == 10
    ensures |f.Unstuffed()| == f.Last() + 26 && f.Unstuffed()[f.Last() + 16 + k] == f.tail[k]
  {
  }

  lemma TailNotStuffed(f: WireFrame, u: seq<Bit>, s: State, k: nat, run: nat, last: Bit)
    requires k < 10 == |f.tail| && Inside(f, u, s, f.Last() + 16 + k)
    requires k == 0 ==> Trailing(s.raw, run, last) && run <= 4
    ensures !IsStuffBit(s.(raw := s.raw + [f.tail[k]], bits := s.bits + [f.tail[k]]))
  {
    hide WireFrame.Unstuffed;
    if k == 0 { DataBitKept(s, run, last, f.tail[k]); }
  }

  lemma TailStep(f: WireFrame, u: seq<Bit>, s: State, k: nat, run: nat, last: Bit)
    requires k < 10 == |f.tail| && Inside(f, u, s, f.Last() + 16 + k)
    requires k == 0 ==> Trailing(s.raw, run, last) && run <= 4
    requires EndsWith(s.raw, f.tail, k)
    ensures var (s1, e) := HandleBit(s, f.tail[k]);
            && FieldReports(e) == Reports(f, f.Last() + 16 + k)
            && (if k == 9 then s1 == Reset()
                else Inside(f, u, s1, f.Last() + 17 + k) && !s1.idle && EndsWith(s1.raw, f.tail, k + 1))
  {
    hide Inside, InFrame, Expected, HandleBit, Reports, EndsWith, WireFrame.Unstuffed, IsStuffBit, Trailing;
    TailNotStuffed(f, u, s, k, run, last);
    TailBit(f, u, s, k);
  }

  lemma SplitFirst(v: seq<Bit>, k: nat)
    requires k < |v|
    ensures v[k..] == [v[k]] + v[k + 1..]
  {
  }

  lemma TailEnds(f: WireFrame, u: seq<Bit>, s: State)
    requires |f.tail| == 10 && Inside(f, u, s, f.Last() + 25) && EndsWith(s.raw, f.tail, 9)
    ensures Recovers(f, s, f.tail[9..], f.Last() + 25)
  {
    hide Inside, InFrame, Expected, HandleBit, Recovers, Reports, EndsWith, WireFrame.Unstuffed, Trailing;
    TailStep(f, u, s, 9, 0, 0);
    SplitFirst(f.tail, 9);
    LastBitRecovers(f, s, f.tail[9], f.tail[10..], f.Last() + 25);
  }

  /** The ten bits after the CRC sequence, k of them already seen. */
  lemma {:induction false} TailRecovers(f: WireFrame, u: seq<Bit>, s: State, k: nat, run: nat, last: Bit)
    requires k < 10 == |f.tail| && Inside(f, u, s, f.Last() + 16 + k)
    requires k == 0 ==> Trailing(s.raw, run, last) && run <= 4
    requires EndsWith(s.raw, f.tail, k)
    ensures Recovers(f, s, f.tail[k..], f.Last() + 16 + k)
    decreases 10 - k
  {
    hide Inside, InFrame, Expected, HandleBit, Recovers, Reports, EndsWith, WireFrame.Unstuffed, Trailing;
    if k == 9 {
      TailEnds(f, u, s);
    } else {
      var i, b, rest := f.Last() + 16 + k, f.tail[k], f.tail[k + 1..];
      TailStep(f, u, s, k, run, last);
      OneReport(f, i);
      SplitFirst(f.tail, k);
      TailRecovers(f, u, HandleBit(s, b).0, k + 1, run, last);
      RecoversOn(f, s, b, rest, i, i + 1);
    }
  }

  lemma LastBitRecovers(f: WireFrame, s: State, b: Bit, rest: seq<Bit>, i: nat)
    requires i + 1 == f.Last() + 26 && rest == []
    requires var (s1, e) := HandleBit(s, b); s1 == Reset() && FieldReports(e) == Reports(f, i)
    ensures Recovers(f, s, [b] + rest, i)
  {
    hide HandleBit;
    var (s1, e) := HandleBit(s, b);
    assert Feed(s1, []) == (s1, []);
    assert e + [] == e;
    OneReport(f, i);
    assert ([b] + rest)[1..] == [];
  }

  /** Bit i of the stuffed part, after run equal bits. */
  lemma CoveredBit(f: WireFrame, u: seq<Bit>, s: State, i: nat, run: nat, last: Bit)
    requires i < f.Last() + 16 < |u| && Inside(f, u, s, i) && Trailing(s.raw, run, last) && run <= 4
    ensures var (s1, e) := HandleBit(s, u[i]); var n := Extended(run, last, u[i]);
            && FieldReports(e) == Reports(f, i) && !s1.idle && Inside(f, u, s1, i + 1)
            && Trailing(s1.raw, n, u[i]) && |s1.raw| < 2 * (i + 1)
  {
    assert |u| == f.Last() + 26;
    hide WireFrame.Unstuffed, HandleBit, Reports;
    DataBitKept(s, run, last, u[i]);
    hide Trailing;
    DataBit(f, u, s, i);
  }

  lemma StuffUnfolds(u: seq<Bit>, i: nat, n: nat, run: nat, last: Bit, tail: seq<Bit>)
    requires i < n <= |u|
    ensures Stuff(u[i..n], run, last) + tail
         == if Extended(run, last, u[i]) == 5 then [u[i]] + ([1 - u[i]] + (Stuff(u[i + 1..n], 1, 1 - u[i]) + tail))
            else [u[i]] + (Stuff(u[i + 1..n], Extended(run, last, u[i]), u[i]) + tail)
  {
    assert u[i..n][1..] == u[i + 1..n];
  }

  lemma {:induction false} CoveredRecovers(f: WireFrame, u: seq<Bit>, s: State, i: nat, run: nat, last: Bit)
    requires i <= f.Last() + 16 < |u| && |f.tail| == 10
    requires Inside(f, u, s, i) && Trailing(s.raw, run, last) && run <= 4
    ensures Recovers(f, s, Stuff(u[i..f.Last() + 16], run, last) + f.tail, i)
    decreases f.Last() + 16 - i
  {
    hide Inside, InFrame, Expected, HandleBit, Recovers, Reports, Trailing, WireFrame.Unstuffed, Stuff;
    var n, tail := f.Last() + 16, f.tail;
    if i == n {
      assert EndsWith(s.raw, tail, 0);
      TailRecovers(f, u, s, 0, run, last);
      StuffNothing(u[i..n], run, last, tail);
    } else {
      var b := u[i];
      CoveredBit(f, u, s, i, run, last);
      OneReport(f, i);
      StuffUnfolds(u, i, n, run, last, tail);
      var s1 := HandleBit(s, b).0;
      var run1 := Extended(run, last, b);
      if run1 == 5 {
        StuffedBit(f, u, s1, i + 1, b);
        var rest := Stuff(u[i + 1..n], 1, 1 - b) + tail;
        CoveredRecovers(f, u, HandleBit(s1, 1 - b).0, i + 1, 1, 1 - b);
        RecoversOn(f, s1, 1 - b, rest, i + 1, i + 1);
        RecoversOn(f, s, b, [1 - b] + rest, i, i + 1);
      } else {
        CoveredRecovers(f, u, s1, i + 1, run1, b);
        RecoversOn(f, s, b, Stuff(u[i + 1..n], run1, b) + tail, i, i + 1);
      }
    }
  }

  lemma StuffNothing(v: seq<Bit>, run: nat, last: Bit, tail: seq<Bit>)
    requires v == []
    ensures Stuff(v, run, last) + tail == tail[0..]
  {
  }

  /** Every standard or extended, data or remote frame is recovered from its stuffed bits: the fields
      are reported in order, each at its own bit, the frame ends exactly on the seventh end-of-frame
      bit, and the decoder is back in its idle state. */
  lemma RoundTrip(f: WireFrame)
    requires f.Valid()
    ensures Recovers(f, Begin(Reset()), Wire(f), 0)
  {
    var u := f.Unstuffed();
    assert u[0..f.Last() + 16] == f.Covered();
    assert u[..0] == [];
    CoveredRecovers(f, u, Begin(Reset()), 0, 0, 0);
  }
}
