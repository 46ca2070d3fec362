/** CAN frames as the Bosch CAN Specification 2.0 Part B lays them out (section 3), and the decoder's
    way through the bits of one frame once stuff bits are gone. */
module CanFrame {
  import opened BitStrings
  import opened Can

  // ----- The layout -----

  /** A frame on the wire. tail holds the ten bits after the CRC sequence: CRC delimiter, ACK slot,
      ACK delimiter and end of frame. */
  datatype WireFrame = WireFrame(
    extended: bool, ident: nat, eid: nat, srr: Bit, remote: bool, r1: Bit, r0: Bit,
    dlc: nat, payload: seq<nat>, crc: nat, tail: seq<Bit>)
  {
    ghost predicate Valid() {
      && ident < 0x800 && eid < 0x40000 && dlc < 16 && crc < 0x8000
      && |payload| == (if remote then 0 else Min(dlc, 8))
      && (forall i :: 0 <= i < |payload| ==> payload[i] < 256)
      && |tail| == 10
    }

    function TailBit(k: nat): Bit { if k < |tail| then tail[k] else 0 }

    /** The seven end-of-frame bits are recessive. */
    predicate EndRecessive() { forall k :: 3 <= k < 10 ==> TailBit(k) == 1 }

    function RtrBit(): Bit { if remote then 1 else 0 }

    /** Up to and including the data length code. */
    function Header(): (h: seq<Bit>)
      ensures |h| == LengthStart() + 4
    {
      if extended then [0] + Bits(ident, 11) + [srr, 1] + Bits(eid, 18) + [RtrBit(), r1, r0] + Bits(dlc, 4)
      else [0] + Bits(ident, 11) + [RtrBit(), 0, r0] + Bits(dlc, 4)
    }

    function LengthStart(): nat { if extended then 35 else 15 }

    /** The index of the last bit before the CRC sequence. */
    function Last(): nat { LengthStart() + 3 + 8 * |payload| }

    function UsedLength(): nat { if remote then 0 else Min(dlc, 8) }

    function FullIdent(): nat { if extended then ident * 0x40000 + eid else ident }

    /** The stuffed part: start of frame to CRC sequence. */
    function Covered(): (u: seq<Bit>)
      ensures |u| == Last() + 16
    {
      Header() + Payload(payload) + Bits(crc, 15)
    }

    function Unstuffed(): (u: seq<Bit>)
      ensures |u| == |Covered()| + |tail|
    {
      Covered() + tail
    }
  }

  function Payload(bytes: seq<nat>): (r: seq<Bit>)
    ensures |r| == 8 * |bytes|
  {
    if bytes == [] then [] else Payload(bytes[..|bytes| - 1]) + Bits(bytes[|bytes| - 1], 8)
  }

  // ----- Where the fields are -----

  ghost predicate At(u: seq<Bit>, x: nat, s: seq<Bit>) {
    x + |s| <= |u| && forall k :: 0 <= k < |s| ==> u[x + k] == s[k]
  }

  lemma AtSlice(u: seq<Bit>, n: nat, x: nat, s: seq<Bit>)
    requires At(u, x, s) && x + |s| <= n <= |u|
    ensures u[..n][x..x + |s|] == s
  {
  }

  lemma {:induction false} PayloadAt(bytes: seq<nat>, i: nat)
    requires i < |bytes|
    ensures At(Payload(bytes), 8 * i, Bits(bytes[i], 8))
    decreases |bytes|
  {
    var init := bytes[..|bytes| - 1];
    if i < |init| {
      PayloadAt(init, i);
      assert init[i] == bytes[i];
    }
  }

  lemma HeaderFields(f: WireFrame)
    ensures var u := f.Header();
            && At(u, 1, Bits(f.ident, 11)) && u[13] == (if f.extended then 1 else 0)
            && At(u, f.LengthStart(), Bits(f.dlc, 4))
            && (!f.extended ==> u[12] == f.RtrBit() && u[14] == f.r0)
            && (f.extended ==> u[12] == f.srr && At(u, 14, Bits(f.eid, 18)) && u[32] == f.RtrBit() && u[33] == f.r1 && u[34] == f.r0)
  {
  }

  /** The fields of the unstuffed frame, by position. */
  ghost predicate Fields(f: WireFrame, u: seq<Bit>) {
    && |u| == f.Last() + 26
    && At(u, 1, Bits(f.ident, 11)) && u[13] == (if f.extended then 1 else 0)
    && At(u, f.LengthStart(), Bits(f.dlc, 4))
    && (!f.extended ==> u[12] == f.RtrBit() && u[14] == f.r0)
    && (f.extended ==> u[12] == f.srr && At(u, 14, Bits(f.eid, 18)) && u[32] == f.RtrBit() && u[33] == f.r1 && u[34] == f.r0)
    && (forall i :: 0 <= i < |f.payload| ==> At(u, f.LengthStart() + 4 + 8 * i, Bits(f.payload[i], 8)))
    && At(u, f.Last() + 1, Bits(f.crc, 15))
    && At(u, f.Last() + 16, f.tail)
  }

  lemma PayloadFields(f: WireFrame, u: seq<Bit>, i: nat)
    requires i < |f.payload| && At(u, f.LengthStart() + 4, Payload(f.payload))
    ensures At(u, f.LengthStart() + 4 + 8 * i, Bits(f.payload[i], 8))
  {
    PayloadAt(f.payload, i);
    hide Bits, Payload;
    var p := Payload(f.payload);
    forall k | 0 <= k < 8 ensures u[f.LengthStart() + 4 + 8 * i + k] == Bits(f.payload[i], 8)[k] {
      assert u[f.LengthStart() + 4 + (8 * i + k)] == p[8 * i + k];
    }
  }

  lemma FieldsOf(f: WireFrame)
    requires f.Valid()
    ensures Fields(f, f.Unstuffed())
  {
    HeaderFields(f);
    var u, h, p := f.Unstuffed(), f.Header(), Payload(f.payload);
    hide Bits, Payload;
    assert At(u, 0, h);
    assert forall k :: 0 <= k < |h| ==> u[0 + k] == h[k];
    assert At(u, |h|, p);
    forall i | 0 <= i < |f.payload|
      ensures At(u, f.LengthStart() + 4 + 8 * i, Bits(f.payload[i], 8))
    {
      PayloadFields(f, u, i);
    }
    assert forall k :: 0 <= k < 15 ==> u[f.Last() + 1 + k] == Bits(f.crc, 15)[k];
  }

  // ----- The decoder's state and reports, bit by bit -----

  /** The decoder's fields after the first i bits u[..i] of the unstuffed frame, apart from the raw bits. */
  function Expected(f: WireFrame, u: seq<Bit>, i: nat): State {
    var start := f.LengthStart();
    State(false, [], u[..Min(i, |u|)], 0,
          if i < 14 then Unknown else if f.extended then Extended else Standard,
          if i < 12 then 0 else f.ident,
          if f.extended && i >= 32 then f.eid else 0,
          if i < 12 then 0 else if f.extended && i >= 32 then f.FullIdent() else f.ident,
          i >= (if f.extended then 33 else 15) && f.remote,
          if i < start + 4 then 0 else f.UsedLength(),
          if i < start + 4 then 999 else f.Last(),
          if i < 15 then 0 else start,
          if i <= f.Last() then [] else f.payload,
          if start + 4 <= i <= f.Last() then i - (start + 4) else 0,
          if i < f.Last() + 16 then 0 else f.crc)
  }

  function PayloadEvents(payload: seq<nat>, i: nat): seq<Event>
    requires i <= |payload|
    decreases |payload| - i
  {
    if i == |payload| then [] else [DataByte(i, payload[i])] + PayloadEvents(payload, i + 1)
  }

  /** What is reported at the unstuffed bit i of the frame. */
  function Reports(f: WireFrame, i: nat): seq<Event> {
    if i == 11 then [Ident(f.ident)]
    else if i == 13 then [Ide(f.extended)]
    else if !f.extended && i == 14 then [Reserved(0, f.r0), Rtr(f.remote)]
    else if f.extended && i == 31 then [FullId(f.eid, f.FullIdent()), Srr(f.srr)]
    else if f.extended && i == 32 then [Rtr(f.remote)]
    else if f.extended && i == 33 then [Reserved(1, f.r1)]
    else if f.extended && i == 34 then [Reserved(0, f.r0)]
    else LateReports(f, i)
  }

  /** The reports from the data length code on. */
  function LateReports(f: WireFrame, i: nat): seq<Event> {
    if i == f.LengthStart() + 3 then [DataLength(f.dlc)]
    else if i == f.Last() then PayloadEvents(f.payload, 0)
    else if i == f.Last() + 15 then [Crc(f.crc)]
    else if i == f.Last() + 16 then [CrcDelimiter(f.TailBit(0))]
    else if i == f.Last() + 17 then [AckSlot(f.TailBit(1))]
    else if i == f.Last() + 18 then [AckDelimiter(f.TailBit(2))]
    else if i == f.Last() + 25 then
      [EndOfFrame(f.EndRecessive()),
       Frame(!f.extended, f.FullIdent(), f.remote, f.UsedLength())]
    else []
  }

  /** The decoder between two bits of the frame: i unstuffed bits seen so far, whatever the raw ones. */
  ghost predicate InFrame(f: WireFrame, u: seq<Bit>, s: State, i: nat) {
    s == Expected(f, u, i).(raw := s.raw, curbit := s.curbit)
  }

  /** Decoding bit i of the frame leads to the expected state with the expected reports. */
  ghost predicate StepsTo(f: WireFrame, u: seq<Bit>, s: State, i: nat)
    requires i < |u|
  {
    var (s1, e, done) := Decode(s.(bits := u[..i + 1]), u[i], i);
    && e == Reports(f, i)
    && (if i + 1 == |u| then done && s1 == Reset() else !done && InFrame(f, u, s1, i + 1))
  }

  lemma Widths()
    ensures Pow2(4) == 16 && Pow2(8) == 256 && Pow2(11) == 0x800 && Pow2(15) == 0x8000 && Pow2(18) == 0x40000
  {
    assert Pow2(8) == 16 * Pow2(4);
    assert Pow2(11) == 8 * Pow2(8);
    assert Pow2(15) == 16 * Pow2(11);
    assert Pow2(18) == 8 * Pow2(15);
  }

  /** Field s of the frame, as the decoder packs it from the first n bits. */
  lemma FieldValue(u: seq<Bit>, n: nat, x: nat, v: nat, len: nat)
    requires At(u, x, Bits(v, len)) && x + len <= n <= |u| && v < Pow2(len)
    ensures Pack(u[..n][x..x + len]) == v
  {
    AtSlice(u, n, x, Bits(v, len));
    PackBits(v, len);
  }

  lemma IdentStep(f: WireFrame, u: seq<Bit>, s: State, i: nat)
    requires f.Valid() && i < 14 <= |u| - 26 && InFrame(f, u, s, i)
    requires Pack(u[..12][1..12]) == f.ident && u[13] == (if f.extended then 1 else 0)
    ensures StepsTo(f, u, s, i)
  {
  }

  lemma StandardStep(f: WireFrame, u: seq<Bit>, s: State, i: nat)
    requires f.Valid() && !f.extended && 14 <= i < 18 <= |u| - 26 && InFrame(f, u, s, i)
    requires u[12] == f.RtrBit() && u[14] == f.r0
    ensures StepsTo(f, u, s, i)
  {
    assert u[..i + 1][12] == u[12];
  }

  lemma ExtendedStep(f: WireFrame, u: seq<Bit>, s: State, i: nat)
    requires f.Valid() && f.extended && 14 <= i < 38 <= |u| - 26 && InFrame(f, u, s, i)
    requires Pack(u[..32][14..]) == f.eid
    requires u[12] == f.srr && u[32] == f.RtrBit() && u[33] == f.r1 && u[34] == f.r0
    ensures StepsTo(f, u, s, i)
  {
    hide Pack, Bits, SameBits;
    assert u[..i + 1][12] == u[12];
    var s0 := s.(bits := u[..i + 1]);
    var (s1, e1) := DecodeExtended(s0, u[i], i);
    assert DecodeLength(s1, i) == (s1, []);
    assert DecodeData(s1, i) == (s1, []);
    assert Decode(s0, u[i], i) == (s1, e1 + [] + [] + [], false);
  }

  lemma LengthStep(f: WireFrame, u: seq<Bit>, s: State, i: nat)
    requires f.Valid() && i == f.LengthStart() + 3 && f.Last() + 26 == |u| && InFrame(f, u, s, i)
    requires Pack(u[..i + 1][i - 3..i + 1]) == f.dlc
    ensures StepsTo(f, u, s, i)
  {
    hide Pack, Bits, SameBits;
    var s0 := s.(bits := u[..i + 1]);
    var s1 := s0.(dlc := f.UsedLength(), lastDatabit := f.Last());
    assert DecodeLength(s0, i) == (s1, [DataLength(f.dlc)]);
    assert DecodeData(s1, i) == (s1, []);
    assert Decode(s0, u[i], i) == (s1, [] + [DataLength(f.dlc)] + [] + [], false);
  }

  lemma {:induction false} DataBytesReported(f: WireFrame, s: State, i: nat)
    requires i <= |f.payload| && s.dataBits == 8 * |f.payload|
    requires forall k :: 0 <= k < |f.payload| ==> ByteAt(s, k) == f.payload[k]
    ensures DataBytes(s, i, |f.payload|) == PayloadEvents(f.payload, i)
    decreases |f.payload| - i
  {
    hide ByteAt;
    if i < |f.payload| {
      DataBytesReported(f, s, i + 1);
    }
  }

  /** Past the data length code only the data field and the end of the frame are decoded. */
  lemma DecodeBody(f: WireFrame, s: State, b: Bit, n: nat)
    requires f.LengthStart() + 4 <= n < |s.bits| && s.dlcStart == f.LengthStart()
    requires s.frameType == if f.extended then Extended else Standard
    ensures var (s3, e3) := DecodeData(s, n);
            Decode(s, b, n) == if n > s.lastDatabit then var (s4, e4, done) := DecodeEnd(s3, b, n); (s4, e3 + e4, done)
                               else (s3, e3, false)
  {
    assert DecodeLength(s, n) == (s, []);
    var (s3, e3) := DecodeData(s, n);
    assert [] + [] + e3 + [] == e3;
    hide DecodeData, DecodeEnd, DecodeLength;
    var (s4, e4, done) := DecodeEnd(s3, b, n);
    assert [] + [] + e3 + e4 == e3 + e4;
  }

  /** u shows the payload of the frame. */
  ghost predicate ShowsPayload(f: WireFrame, u: seq<Bit>) {
    && f.Last() < |u|
    && forall k :: 0 <= k < |f.payload| ==>
         Pack(u[..f.Last() + 1][f.LengthStart() + 4 + 8 * k..f.LengthStart() + 4 + 8 * k + 8]) == f.payload[k]
  }

  lemma PayloadRead(f: WireFrame, u: seq<Bit>, s: State)
    requires ShowsPayload(f, u) && s.bits == u[..f.Last() + 1] && s.dlcStart == f.LengthStart()
    ensures seq(|f.payload|, k requires k >= 0 => ByteAt(s, k)) == f.payload
    ensures forall k :: 0 <= k < |f.payload| ==> ByteAt(s, k) == f.payload[k]
  {
    hide Pack, Bits, SameBits;
  }

  lemma LastDataField(f: WireFrame, u: seq<Bit>, s: State, i: nat)
    requires f.Valid() && f.LengthStart() + 4 <= i == f.Last() && ShowsPayload(f, u)
    requires s.bits == u[..i + 1] && s.dlcStart == f.LengthStart() && s.lastDatabit == i && s.dlc == |f.payload|
    requires s.dataBits == 8 * |f.payload| - 1
    ensures DecodeData(s, i) == (s.(bytes := f.payload, dataBits := 0), PayloadEvents(f.payload, 0))
  {
    hide ByteAt, DataBytes, ShowsPayload, PayloadEvents;
    var s1 := s.(dataBits := 8 * |f.payload|);
    PayloadRead(f, u, s1);
    DataBytesReported(f, s1, 0);
  }

  lemma LateReport(f: WireFrame, i: nat)
    requires i >= f.LengthStart() + 4
    ensures Reports(f, i) == LateReports(f, i)
    ensures i == f.Last() ==> Reports(f, i) == PayloadEvents(f.payload, 0)
    ensures i < f.Last() ==> Reports(f, i) == []
  {
  }

  /** The state within the frame once the data length code is known. */
  lemma BodyState(f: WireFrame, u: seq<Bit>, s: State, i: nat)
    requires f.Valid() && f.LengthStart() + 4 <= i < |u| == f.Last() + 26 && InFrame(f, u, s, i)
    ensures s.frameType == (if f.extended then Extended else Standard) && s.dlcStart == f.LengthStart()
    ensures s.lastDatabit == f.Last() && s.dlc == f.UsedLength() == |f.payload| && s.remote == f.remote && s.fullid == f.FullIdent()
    ensures s.dataBits == if i <= f.Last() then i - (f.LengthStart() + 4) else 0
    ensures InFrame(f, u, s.(bits := u[..i + 1],
                             dataBits := if i < f.Last() then i + 1 - (f.LengthStart() + 4) else 0,
                             bytes := if i == f.Last() then f.payload else s.bytes,
                             crc := if i == f.Last() + 15 then f.crc else s.crc), i + 1)
    ensures |f.payload| > 0 || i > f.Last() - 1 ==> s.bytes == if i <= f.Last() then [] else f.payload
  {
  }

  lemma DataStep(f: WireFrame, u: seq<Bit>, s: State, i: nat)
    requires f.Valid() && f.LengthStart() + 4 <= i < f.Last() && f.Last() + 26 == |u| && InFrame(f, u, s, i)
    ensures StepsTo(f, u, s, i)
  {
    BodyState(f, u, s, i);
    hide InFrame, Expected;
    var s0 := s.(bits := u[..i + 1]);
    DecodeBody(f, s0, u[i], i);
    hide Pack, Bits, DataBytes, ByteAt, Decode, SameBits;
    assert DecodeData(s0, i) == (s0.(dataBits := i + 1 - (f.LengthStart() + 4)), []);
  }

  lemma LastDataDecoded(f: WireFrame, u: seq<Bit>, s: State, b: Bit, i: nat)
    requires f.Valid() && f.LengthStart() + 4 <= i == f.Last() && ShowsPayload(f, u)
    requires s.bits == u[..i + 1] && s.dlcStart == f.LengthStart() && s.lastDatabit == i && s.dlc == |f.payload|
    requires s.frameType == (if f.extended then Extended else Standard)
    requires s.dataBits == 8 * |f.payload| - 1
    ensures Decode(s, b, i) == (s.(bytes := f.payload, dataBits := 0), Reports(f, i), false)
  {
    DecodeBody(f, s, b, i);
    LastDataField(f, u, s, i);
    LateReport(f, i);
    hide Decode, DecodeData, DecodeEnd, Reports, ShowsPayload;
  }

  lemma LastDataStep(f: WireFrame, u: seq<Bit>, s: State, i: nat)
    requires f.Valid() && f.LengthStart() + 4 <= i == f.Last() && f.Last() + 26 == |u| && InFrame(f, u, s, i)
    requires ShowsPayload(f, u)
    ensures StepsTo(f, u, s, i)
  {
    hide InFrame, Expected, Decode, Reports, Pack, Bits, ShowsPayload, SameBits;
    BodyState(f, u, s, i);
    LastDataDecoded(f, u, s.(bits := u[..i + 1]), u[i], i);
  }

  /** The last n raw bits are the first n of tail. */
  ghost predicate EndsWith(raw: seq<Bit>, tail: seq<Bit>, n: nat) {
    n <= |raw| && n <= |tail| && forall k :: 0 <= k < n ==> raw[|raw| - n + k] == tail[k]
  }

  lemma EndSeen(f: WireFrame, raw: seq<Bit>)
    requires |f.tail| == 10 && EndsWith(raw, f.tail, 10)
    ensures LastSevenRecessive(raw) == f.EndRecessive()
  {
    assert forall k :: 3 <= k < 10 ==> raw[|raw| - 10 + k] == f.TailBit(k);
    assert forall m :: |raw| - 7 <= m < |raw| ==> raw[m] == f.TailBit(m - |raw| + 10);
  }

  /** What the end of the frame decodes to. */
  lemma EndDecoded(f: WireFrame, s: State, b: Bit, i: nat)
    requires f.Valid() && f.Last() < i < f.Last() + 26 && s.lastDatabit == f.Last() && |s.bits| == i + 1
    requires s.frameType == (if f.extended then Extended else Standard)
    requires s.dlc == f.UsedLength() && s.remote == f.remote && s.fullid == f.FullIdent()
    requires i == f.Last() + 15 ==> Pack(s.bits[i - 14..i + 1]) == f.crc
    requires i >= f.Last() + 16 ==> b == f.TailBit(i - f.Last() - 16)
    requires i == f.Last() + 25 ==> LastSevenRecessive(s.raw) == f.EndRecessive()
    ensures DecodeEnd(s, b, i)
         == (if i == f.Last() + 25 then Reset() else if i == f.Last() + 15 then s.(crc := f.crc) else s,
             Reports(f, i), i == f.Last() + 25)
  {
    LateReport(f, i);
    hide Reports, Pack, LastSevenRecessive, WireFrame.EndRecessive;
  }

  lemma NoDataLeft(f: WireFrame, s: State, b: Bit, i: nat)
    requires f.LengthStart() + 4 <= i < |s.bits| && s.lastDatabit == f.Last() < i && s.dlcStart == f.LengthStart()
    requires s.frameType == (if f.extended then Extended else Standard)
    ensures Decode(s, b, i) == DecodeEnd(s, b, i)
  {
    DecodeBody(f, s, b, i);
    assert DecodeData(s, i) == (s, []);
    hide Decode, DecodeEnd;
    var (s1, e, done) := DecodeEnd(s, b, i);
    assert [] + e == e;
  }

  lemma EndStep(f: WireFrame, u: seq<Bit>, s: State, i: nat)
    requires f.Valid() && f.Last() < i < |u| == f.Last() + 26 && InFrame(f, u, s, i)
    requires Pack(u[..f.Last() + 16][f.Last() + 1..f.Last() + 16]) == f.crc
    requires i >= f.Last() + 16 ==> u[i] == f.TailBit(i - f.Last() - 16)
    requires i + 1 == |u| ==> EndsWith(s.raw, f.tail, 10)
    ensures StepsTo(f, u, s, i)
  {
    hide InFrame, Expected, Decode, DecodeEnd, Reports, Pack, Bits, LastSevenRecessive, WireFrame.EndRecessive, EndsWith, SameBits;
    BodyState(f, u, s, i);
    if i + 1 == |u| { EndSeen(f, s.raw); }
    var s0 := s.(bits := u[..i + 1]);
    EndDecoded(f, s0, u[i], i);
    NoDataLeft(f, s0, u[i], i);
  }

  lemma HeaderStep(f: WireFrame, u: seq<Bit>, s: State, i: nat)
    requires f.Valid() && Fields(f, u) && i < f.LengthStart() + 4 && InFrame(f, u, s, i)
    ensures StepsTo(f, u, s, i)
  {
    hide StepsTo, InFrame, Expected, Bits, Pack, Pow2;
    Widths();
    if i < 14 {
      FieldValue(u, 12, 1, f.ident, 11);
      IdentStep(f, u, s, i);
    } else if i == f.LengthStart() + 3 {
      FieldValue(u, i + 1, i - 3, f.dlc, 4);
      LengthStep(f, u, s, i);
    } else if f.extended {
      FieldValue(u, 32, 14, f.eid, 18);
      assert u[..32][14..] == u[..32][14..32];
      ExtendedStep(f, u, s, i);
    } else {
      StandardStep(f, u, s, i);
    }
  }

  lemma BodyStep(f: WireFrame, u: seq<Bit>, s: State, i: nat)
    requires f.Valid() && Fields(f, u) && f.LengthStart() + 4 <= i < |u| && InFrame(f, u, s, i)
    requires i + 1 == |u| ==> EndsWith(s.raw, f.tail, 10)
    ensures StepsTo(f, u, s, i)
  {
    hide StepsTo, InFrame, Expected, Bits, Pack, Pow2;
    Widths();
    var x, l := f.LengthStart(), f.Last();
    if i > l {
      FieldValue(u, l + 16, l + 1, f.crc, 15);
      assert i >= l + 16 ==> u[l + 16 + (i - l - 16)] == f.TailBit(i - l - 16);
      EndStep(f, u, s, i);
    } else if i == l {
      forall k | 0 <= k < |f.payload| ensures Pack(u[..i + 1][x + 4 + 8 * k..x + 4 + 8 * k + 8]) == f.payload[k] {
        FieldValue(u, i + 1, x + 4 + 8 * k, f.payload[k], 8);
      }
      LastDataStep(f, u, s, i);
    } else {
      DataStep(f, u, s, i);
    }
  }

  /** Whatever bit of the frame comes next, the decoder takes it as the layout says. */
  lemma FrameStep(f: WireFrame, u: seq<Bit>, s: State, i: nat)
    requires f.Valid() && Fields(f, u) && i < |u| && InFrame(f, u, s, i)
    requires i + 1 == |u| ==> EndsWith(s.raw, f.tail, 10)
    ensures StepsTo(f, u, s, i)
  {
    hide StepsTo, InFrame, Fields;
    if i < f.LengthStart() + 4 { HeaderStep(f, u, s, i); } else { BodyStep(f, u, s, i); }
  }
}
