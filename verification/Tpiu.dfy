/** The trace formatter of arm_tpiu_c.c: 16-byte frames that interleave the bytes of several trace
    streams, after the formatter of the ARM CoreSight Architecture Specification (chapter D4). */
module Tpiu {
  import opened BitStrings
  import opened Machines

  type Byte = b: nat | b < 256

  const SYNC_WORD: seq<Byte> := [0xFF, 0xFF, 0xFF, 0x7F]
  const U64: nat := 0x1_0000_0000_0000_0000

  /** A stream annotation, or a byte of the selected stream. */
  datatype Event = StreamEnds(stream: nat) | Data(byte: Byte)

  /** A received byte with its time. */
  datatype Rx = Rx(start: nat, end: nat, val: Byte)

  datatype State = State(stream: nat, bytenum: nat, prev: nat, frame: seq<Byte>, syncbuf: seq<Byte>)

  /** Options: the selected stream and the number of bytes to skip. */
  datatype Options = Options(stream: int, syncOffset: int)

  // ----- One frame -----

  /** What arm_tpiu_stream_changed reports. */
  function Changed(stream: nat, to: nat): seq<Event> {
    if stream != to && stream != 0 then [StreamEnds(stream)] else []
  }

  /** What arm_tpiu_emit_byte reports. */
  function Emitted(stream: nat, selected: int, byte: Byte): seq<Event> {
    if stream == selected then [Data(byte)] else []
  }

  /** A data byte with its lowest bit put back; byte is even. */
  function WithLowBit(byte: Byte, low: Bit): Byte
    requires byte % 2 == 0
  {
    byte + low
  }

  /** The two bytes from position 2 k on, the last of which is missing for k = 7. */
  function PairAt(stream: nat, selected: int, f: seq<Byte>, k: nat): (nat, seq<Event>)
    requires |f| == 16 && k < 8
  {
    var i, low := 2 * k, BitOf(f[15], k);
    if f[i] % 2 == 1 then
      var id := f[i] / 2;
      if low == 1 then
        (id, (if i < 14 then Emitted(stream, selected, f[i + 1]) else []) + Changed(stream, id))
      else
        (id, Changed(stream, id) + (if i < 14 then Emitted(id, selected, f[i + 1]) else []))
    else
      (stream, Emitted(stream, selected, WithLowBit(f[i], low)) + (if i < 14 then Emitted(stream, selected, f[i + 1]) else []))
  }

  /** arm_tpiu_process_frame from pair k on. */
  function PairsFrom(stream: nat, selected: int, f: seq<Byte>, k: nat): (nat, seq<Event>)
    requires |f| == 16 && k <= 8
    decreases 8 - k
  {
    if k == 8 then (stream, [])
    else
      var (stream1, e1) := PairAt(stream, selected, f, k);
      var (stream2, e2) := PairsFrom(stream1, selected, f, k + 1);
      (stream2, e1 + e2)
  }

  // ----- One byte -----

  /** A pause of more than a byte's length; the differences are those of unsigned 64-bit numbers. */
  predicate Pause(prev: nat, rx: Rx) {
    (rx.start - prev) % U64 > (rx.end - rx.start) % U64
  }

  function PushFrame(f: seq<Byte>, b: Byte): seq<Byte> {
    if |f| < 16 then f + [b] else f
  }

  function PushSync(buf: seq<Byte>, b: Byte): seq<Byte> {
    if |buf| < 4 then buf + [b] else buf[1..] + [b]
  }

  /** arm_tpiu_recv_proto for a DATA packet. */
  function Recv(o: Options, s: State, rx: Rx): (State, seq<Event>) {
    var frame := PushFrame(if Pause(s.prev, rx) then [] else s.frame, rx.val);
    var s1 := s.(prev := rx.end, frame := frame, bytenum := s.bytenum + 1);
    if s1.bytenum < o.syncOffset then (s1.(frame := []), [])
    else
      var s2 := s1.(syncbuf := PushSync(s.syncbuf, rx.val));
      if s2.syncbuf == SYNC_WORD then (s2.(frame := [], syncbuf := []), [])
      else if |frame| == 16 then
        var (stream, e) := PairsFrom(s2.stream, o.stream, frame, 0);
        (s2.(stream := stream, frame := []), e)
      else (s2, [])
  }

  /** The machine with its options set. */
  function Deformatter(o: Options): (State, Rx) -> (State, seq<Event>) {
    (s, rx) => Recv(o, s, rx)
  }

  function RecvAll(o: Options, s: State, rx: seq<Rx>): (State, seq<Event>) {
    Run(Deformatter(o), s, rx)
  }
}
