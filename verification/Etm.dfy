/** The instruction trace decoder of arm_etmv3_c.c: bytes are collected to packets, and branch
    addresses come compressed against the previous one, after the ARM Embedded Trace Macroblock
    Architecture Specification (chapter 7), in the original branch encoding. */
module Etm {
  import opened Machines

  type Byte = bv8

  const U64: nat := 0x1_0000_0000_0000_0000
  const SYNC: seq<Byte> := [0x00, 0x00, 0x00, 0x00, 0x80]

  datatype Cpu = Arm | Thumb | Jazelle

  /** What is reported: branches with their target, synchronisation with its address, and the packets
      that are only displayed. */
  datatype Event = Branch(addr: bv32, exception: bool) | InstrSync(addr: bv32, cpu: Cpu) | ASync | Other(kind: Byte)

  /** A received byte with its time. */
  datatype Rx = Rx(start: nat, end: nat, val: Byte)

  datatype State = State(buf: seq<Byte>, syncbuf: seq<Byte>, prev: nat, lastBranch: bv32, cpu: Cpu)

  datatype Packet = BranchPacket | ASyncPacket | ISyncPacket | OtherPacket

  /** get_packet_type, as far as packets are told apart here. */
  function PacketType(b: Byte): Packet {
    if b & 0x01 != 0 then BranchPacket
    else if b == 0x00 then ASyncPacket
    else if b == 0x08 || b == 0x70 then ISyncPacket
    else OtherPacket
  }

  // ----- Numbers -----

  /** Seven bits of byte i in their place; a byte past the fifth has none in 32 bits. */
  function Septet(b: Byte, i: nat): bv32 {
    var x := (b & 0x7F) as bv32;
    match i
    case 0 => x
    case 1 => x << 7
    case 2 => x << 14
    case 3 => x << 21
    case 4 => x << 28
    case _ => 0
  }

  /** Another byte of the number follows. */
  predicate GoesOn(b: Byte) {
    b & 0x80 != 0
  }

  function Join(a: bv32, b: bv32): bv32 {
    a | b
  }

  /** parse_varint from byte i on: the value and the number of bytes. */
  function Varint(bytes: seq<Byte>, i: nat, v: bv32): (r: (bv32, nat))
    requires i <= |bytes|
    ensures r.1 <= |bytes|
    decreases |bytes| - i
  {
    if i == |bytes| then (v, |bytes|)
    else
      var v1 := Join(v, Septet(bytes[i], i));
      if GoesOn(bytes[i]) then Varint(bytes, i + 1, v1) else (v1, i + 1)
  }

  /** parse_uint of four bytes, the least significant first. */
  function Word(b: seq<Byte>): bv32
    requires |b| == 4
  {
    (b[0] as bv32) | ((b[1] as bv32) << 8) | ((b[2] as bv32) << 16) | ((b[3] as bv32) << 24)
  }

  // ----- Packets -----

  /** The processor state the fifth address byte announces. */
  function CpuOf(b: Byte, cpu: Cpu): Cpu {
    if b & 0xB8 == 0x08 then Arm
    else if b & 0xB0 == 0x10 then Thumb
    else if b & 0xA0 == 0x20 then Jazelle
    else cpu
  }

  /** Exception information follows the address. */
  predicate HasException(b: Byte) {
    b & 0x40 != 0
  }

  /** The address bits the packet carries, in place. */
  function Shifted(v: bv32, cpu: Cpu): bv32 {
    match cpu
    case Arm => (v & 0xFFFFFFFE) << 1
    case Thumb => v & 0xFFFFFFFE
    case Jazelle => (v & 0xFFFFFFFE) >> 1
  }

  /** The number of low address bits that len bytes cover. */
  function Covered(len: nat, cpu: Cpu): int {
    match cpu
    case Arm => 7 * len + 1
    case Thumb => 7 * len
    case Jazelle => 7 * len - 1
  }

  /** 0xFFFFFFFF << n, for the n that one to four bytes cover. */
  function HighBits(n: int): bv32 {
    if n == 6 then 0xFFFF_FFFF << 6 else if n == 7 then 0xFFFF_FFFF << 7 else if n == 8 then 0xFFFF_FFFF << 8
    else if n == 13 then 0xFFFF_FFFF << 13 else if n == 14 then 0xFFFF_FFFF << 14 else if n == 15 then 0xFFFF_FFFF << 15
    else if n == 20 then 0xFFFF_FFFF << 20 else if n == 21 then 0xFFFF_FFFF << 21 else if n == 22 then 0xFFFF_FFFF << 22
    else if n == 27 then 0xFFFF_FFFF << 27 else if n == 28 then 0xFFFF_FFFF << 28 else if n == 29 then 0xFFFF_FFFF << 29
    else 0
  }

  /** The high bits of the previous address that a packet of len bytes leaves out. */
  function Kept(last: bv32, len: nat, cpu: Cpu): bv32 {
    if len < 5 then last & HighBits(Covered(len, cpu)) else 0
  }

  /** handle_branch. */
  function HandleBranch(s: State): (State, seq<Event>)
    requires s.buf != []
  {
    if GoesOn(s.buf[|s.buf| - 1]) then (s, [])
    else
      var (v, len) := Varint(s.buf, 0, 0);
      var exc := len == 5 && HasException(s.buf[4]);
      var cpu := if len == 5 then CpuOf(s.buf[4], s.cpu) else s.cpu;
      var addr := Join(Shifted(v, cpu), Kept(s.lastBranch, len, cpu));
      (s.(buf := [], lastBranch := addr, cpu := cpu), [Branch(addr, exc)])
  }

  /** The lowest bit of a synchronisation address tells Thumb state. */
  predicate TellsThumb(a: bv32) {
    a & 1 != 0
  }

  function Untagged(a: bv32): bv32 {
    a & 0xFFFFFFFE
  }

  /** The address part of handle_i_sync; a cycle count in front is skipped. */
  function HandleISync(s: State): (State, seq<Event>)
    requires s.buf != []
  {
    if |s.buf| < 6 then (s, [])
    else
      var idx := if s.buf[0] == 0x08 then 1 else 1 + Varint(s.buf[1..], 0, 0).1;
      if |s.buf| <= idx + 4 then (s, [])
      else
        var a := Word(s.buf[idx + 1..idx + 5]);
        var cpu := if TellsThumb(a) then Thumb else Arm;
        (s.(buf := [], lastBranch := Untagged(a), cpu := cpu), [InstrSync(Untagged(a), cpu)])
  }

  /** process_buffer. */
  function ProcessBuffer(s: State): (State, seq<Event>) {
    if s.buf == [] then (s, [])
    else
      match PacketType(s.buf[0])
      case BranchPacket => HandleBranch(s)
      case ASyncPacket => if s.buf[|s.buf| - 1] == 0x80 then (s.(buf := []), [ASync]) else (s, [])
      case ISyncPacket => HandleISync(s)
      case OtherPacket => (s.(buf := []), [Other(s.buf[0])])
  }

  // ----- Bytes -----

  /** A pause of more than sixteen byte lengths; the difference is that of unsigned 64-bit numbers. */
  predicate Pause(prev: nat, rx: Rx) {
    (rx.start - prev) % U64 > (16 * (rx.end - rx.start)) % U64 && prev != 0
  }

  function PushBuf(buf: seq<Byte>, b: Byte): (r: seq<Byte>)
    ensures r != []
  {
    if |buf| < 64 then buf + [b] else buf
  }

  function PushSync(buf: seq<Byte>, b: Byte): seq<Byte> {
    if |buf| < 5 then buf + [b] else buf[1..] + [b]
  }

  /** arm_etmv3_recv_proto for a DATA packet. */
  function Recv(s: State, rx: Rx): (State, seq<Event>) {
    var buf := PushBuf(if Pause(s.prev, rx) then [] else s.buf, rx.val);
    var sync := PushSync(s.syncbuf, rx.val);
    ProcessBuffer(s.(prev := rx.end, syncbuf := sync, buf := if sync == SYNC then SYNC else buf))
  }

  function RecvAll(s: State, rx: seq<Rx>): (State, seq<Event>) {
    Run(Recv, s, rx)
  }
}
