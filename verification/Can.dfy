/** The CAN decoder of can_c.c: what handling one raw bit does. */
module Can {
  import opened BitStrings

  const CAPACITY: nat := 512
  const CRC_LEN: nat := 15

  datatype FrameType = Unknown | Standard | Extended

  /** What the decoder reports; positions on the time axis are left out. Stuffed and Sampled carry the
      raw and the unstuffed index of the bit they annotate. */
  datatype Event =
    | Stuffed(rawIndex: int) | Sampled(index: int)
    | Ident(id: nat) | Ide(extended: bool) | Reserved(which: nat, bit: Bit)
    | Rtr(remote: bool) | Srr(bit: Bit) | FullId(eid: nat, fullid: nat)
    | DataLength(dlc: nat) | DataByte(position: nat, byte: nat)
    | Crc(crc: nat) | CrcDelimiter(bit: Bit) | AckSlot(bit: Bit) | AckDelimiter(bit: Bit)
    | EndOfFrame(recessive: bool)
    | Frame(standard: bool, id: nat, remote: bool, dlc: nat)

  datatype State = State(
    idle: bool, raw: seq<Bit>, bits: seq<Bit>, curbit: nat, frameType: FrameType,
    ident: nat, eid: nat, fullid: nat, remote: bool, dlc: nat,
    lastDatabit: nat, dlcStart: nat, bytes: seq<nat>, dataBits: nat, crc: nat)

  function DlcToLen(dlc: nat): nat {
    if dlc > 15 then 0
    else [0, 1, 2, 3, 4, 5, 6, 7, 8, 12, 16, 20, 24, 32, 48, 64][dlc]
  }

  function Push(s: seq<Bit>, b: Bit): (r: seq<Bit>)
    ensures r != []
  {
    if |s| < CAPACITY then s + [b] else s
  }

  /** Five equal raw bits and then a different one, within the stuffed part of the frame. */
  predicate IsStuffBit(s: State) {
    && |s.bits| <= s.lastDatabit + 17
    && |s.raw| >= 6
    && (var n, l := |s.raw|, s.raw;
        l[n - 6] == l[n - 5] == l[n - 4] == l[n - 3] == l[n - 2] != l[n - 1])
  }

  /** reset_variables: what is left after a frame. */
  function Reset(): State {
    State(true, [], [], 0, Unknown, 0, 0, 0, false, 0, 999, 0, [], 0, 0)
  }

  /** The zeroed memory a decoder starts with: idle, but with no frame type "unknown". */
  function Zeroed(): State {
    State(true, [], [], 0, Standard, 0, 0, 0, false, 0, 0, 0, [], 0, 0)
  }

  /** The decode loop's step out of the idle state, on a falling edge. */
  function Begin(s: State): State {
    s.(idle := false, raw := [], bits := [], curbit := 0, frameType := Unknown, remote := false, dlc := 0,
       lastDatabit := 999, bytes := [], dataBits := 0)
  }

  /** Idle, and nothing left over that the next frame could see. */
  predicate Ready(s: State) {
    s.idle && s.curbit == 0 && Begin(s) == Begin(Reset())
  }

  function Count(n: nat): nat {
    if n < 64 then n + 1 else n
  }

  /** The payload byte at position i, 0 where bits are missing. */
  function ByteAt(s: State, i: nat): nat {
    var x := s.dlcStart + 4 + 8 * i;
    if x + 8 <= |s.bits| then Pack(s.bits[x..x + 8]) else 0
  }

  /** Bytes and annotations of the data field from position i on. */
  function DataBytes(s: State, i: nat, n: nat): (r: seq<Event>)
    requires i <= n
    decreases n - i
  {
    if i == n then []
    else (if 8 * i + 7 < s.dataBits then [DataByte(i, ByteAt(s, i))] else []) + DataBytes(s, i + 1, n)
  }

  function Min(a: nat, b: nat): nat {
    if a < b then a else b
  }

  /** t has the raw bits, the unstuffed bits and the bit count of s. */
  predicate SameBits(s: State, t: State) {
    t.raw == s.raw && t.bits == s.bits && t.curbit == s.curbit && t.idle == s.idle
  }

  function DecodeData(s: State, n: nat): (r: (State, seq<Event>))
    ensures SameBits(s, r.0) && r.0.lastDatabit == s.lastDatabit
  {
    if n == s.lastDatabit && s.dlc > 0 then
      var s1 := s.(dataBits := Count(s.dataBits));
      var len := Min(DlcToLen(s.dlc), 8);
      (s1.(bytes := seq(len, i requires i >= 0 => ByteAt(s1, i)), dataBits := 0), DataBytes(s1, 0, len))
    else if s.dlcStart + 3 < n < s.lastDatabit then (s.(dataBits := Count(s.dataBits)), [])
    else (s, [])
  }

  predicate LastSevenRecessive(raw: seq<Bit>) {
    |raw| >= 7 ==> forall i :: |raw| - 7 <= i < |raw| ==> raw[i] == 1
  }

  function DecodeEnd(s: State, b: Bit, n: nat): (r: (State, seq<Event>, bool))
    ensures if r.2 then r.0 == Reset() else SameBits(s, r.0)
  {
    if n == s.lastDatabit + CRC_LEN then
      var x := s.lastDatabit + 1;
      var crc := if x + CRC_LEN <= |s.bits| then Pack(s.bits[x..x + CRC_LEN]) else s.crc;
      (s.(crc := crc), [Crc(crc)], false)
    else if n == s.lastDatabit + CRC_LEN + 1 then (s, [CrcDelimiter(b)], false)
    else if n == s.lastDatabit + CRC_LEN + 2 then (s, [AckSlot(b)], false)
    else if n == s.lastDatabit + CRC_LEN + 3 then (s, [AckDelimiter(b)], false)
    else if n == s.lastDatabit + CRC_LEN + 10 then
      (Reset(), [EndOfFrame(LastSevenRecessive(s.raw)), Frame(s.frameType.Standard?, s.fullid, s.remote, s.dlc)], true)
    else (s, [], false)
  }

  /** The data length code, clamped: 0 for a remote frame, at most 8 otherwise. */
  function DecodeLength(s: State, n: nat): (r: (State, seq<Event>))
    ensures SameBits(s, r.0)
  {
    if n == s.dlcStart + 3 then
      var dlc := if s.dlcStart + 4 <= |s.bits| then Pack(s.bits[s.dlcStart..s.dlcStart + 4]) else s.dlc;
      var used := if dlc != 0 && s.remote then 0 else if dlc > 8 then 8 else dlc;
      (s.(dlc := used, lastDatabit := s.dlcStart + 3 + 8 * DlcToLen(used)), [DataLength(dlc)])
    else (s, [])
  }

  function DecodeStandard(s: State, b: Bit, n: nat): (r: (State, seq<Event>))
    requires 13 < n < |s.bits|
    ensures SameBits(s, r.0)
  {
    if n == 14 then
      (s.(remote := s.bits[12] == 1, dlcStart := 15), [Reserved(0, b), Rtr(s.bits[12] == 1)])
    else (s, [])
  }

  function DecodeExtended(s: State, b: Bit, n: nat): (r: (State, seq<Event>))
    requires 13 < n < |s.bits|
    ensures SameBits(s, r.0)
  {
    if n == 14 then (s.(dlcStart := 35), [])
    else if n == 31 then
      var eid := Pack(s.bits[14..]);
      var fullid := s.ident * 0x40000 + eid;
      (s.(eid := eid, fullid := fullid), [FullId(eid, fullid), Srr(s.bits[12])])
    else if n == 32 then (s.(remote := b == 1), [Rtr(b == 1)])
    else if n == 33 then (s, [Reserved(1, b)])
    else if n == 34 then (s, [Reserved(0, b)])
    else (s, [])
  }

  /** Everything done for the unstuffed bit with index n; true when it ended the frame. */
  function Decode(s: State, b: Bit, n: nat): (r: (State, seq<Event>, bool))
    requires n < |s.bits|
    ensures if r.2 then r.0 == Reset() else SameBits(s, r.0)
  {
    if n == 11 then
      var id := Pack(s.bits[1..12]);
      (s.(ident := id, fullid := id), [Ident(id)], false)
    else if n == 13 then
      (s.(frameType := if b == 0 then Standard else Extended), [Ide(b != 0)], false)
    else if n < 14 || s.frameType.Unknown? then (s, [], false)
    else
      var (s1, e1) := if s.frameType.Standard? then DecodeStandard(s, b, n) else DecodeExtended(s, b, n);
      var (s2, e2) := DecodeLength(s1, n);
      var (s3, e3) := DecodeData(s2, n);
      var (s4, e4, done) := if n > s3.lastDatabit then DecodeEnd(s3, b, n) else (s3, [], false);
      (s4, e1 + e2 + e3 + e4, done)
  }

  /** handle_bit. */
  function HandleBit(s: State, b: Bit): (State, seq<Event>) {
    var s1 := s.(raw := Push(s.raw, b), bits := Push(s.bits, b));
    var n := |s1.bits| - 1;
    if IsStuffBit(s1) then
      (s1.(bits := s1.bits[..n], curbit := s.curbit + 1), [Stuffed(|s1.raw| - 1)])
    else
      var (s2, e, done) := Decode(s1, b, n);
      (if done then s2 else s2.(curbit := s2.curbit + 1), [Sampled(n)] + e)
  }

  /** A bit that is no stuff bit is decoded, buffers permitting. */
  lemma KeptBit(s: State, b: Bit)
    requires !IsStuffBit(s.(raw := s.raw + [b], bits := s.bits + [b]))
    requires |s.raw| < CAPACITY && |s.bits| < CAPACITY
    ensures var n := |s.bits|; var (s1, e, done) := Decode(s.(raw := s.raw + [b], bits := s.bits + [b]), b, n);
            HandleBit(s, b) == (if done then s1 else s1.(curbit := s1.curbit + 1), [Sampled(n)] + e)
  {
    hide Decode, IsStuffBit;
  }

  /** A stream of raw bits from one state. */
  function Feed(s: State, bits: seq<Bit>): (State, seq<Event>)
    decreases |bits|
  {
    if bits == [] then (s, [])
    else
      var (s1, e1) := HandleBit(s, bits[0]);
      var (s2, e2) := Feed(s1, bits[1..]);
      (s2, e1 + e2)
  }
}
