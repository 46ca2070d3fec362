/** Compressed branch addresses, and the decoder's way back to the targets. */
module EtmRoundTrip {
  import opened Machines
  import opened Etm

  // ----- The encoder -----

  /** A branch target, and whether exception information is announced with it. */
  datatype Target = Target(cpu: Cpu, addr: bv32, exc: bool) {
    /** ARM instructions are word aligned, Thumb ones half-word aligned; a Jazelle address has 31 bits. */
    ghost predicate Valid() {
      (cpu.Arm? && addr & 3 == 0) || (cpu.Thumb? && addr & 1 == 0) || (cpu.Jazelle? && addr >> 31 == 0)
    }
  }

  /** The number that is sent: the address without the bits that are always 0, and the branch bit. */
  function Sent(t: Target): bv32 {
    match t.cpu
    case Arm => (t.addr >> 1) | 1
    case Thumb => t.addr | 1
    case Jazelle => (t.addr << 1) | 1
  }

  /** Seven bits of a number, from the group number i on. */
  function SeptetOf(v: bv32, i: nat): Byte
    requires i < 4
  {
    match i
    case 0 => (v & 0x7F) as Byte
    case 1 => ((v >> 7) & 0x7F) as Byte
    case 2 => ((v >> 14) & 0x7F) as Byte
    case 3 => ((v >> 21) & 0x7F) as Byte
  }

  /** The fifth byte carries the state, the announcement and the rest of the address. */
  function Fifth(t: Target): Byte {
    (if t.exc then 0x40 else 0x00) |
    match t.cpu
    case Arm => (((Sent(t) >> 28) & 0x07) as Byte) | 0x08
    case Thumb => (((Sent(t) >> 28) & 0x0F) as Byte) | 0x10
    case Jazelle => (((Sent(t) >> 28) & 0x0F) as Byte) | 0x20
  }

  /** A byte that another one follows. */
  function Marked(b: Byte): Byte {
    b | 0x80
  }

  /** A branch packet of len bytes. */
  function Encode(t: Target, len: nat): (r: seq<Byte>)
    requires 1 <= len <= 5
    ensures |r| == len
  {
    var v := Sent(t);
    match len
    case 1 => [SeptetOf(v, 0)]
    case 2 => [Marked(SeptetOf(v, 0)), SeptetOf(v, 1)]
    case 3 => [Marked(SeptetOf(v, 0)), Marked(SeptetOf(v, 1)), SeptetOf(v, 2)]
    case 4 => [Marked(SeptetOf(v, 0)), Marked(SeptetOf(v, 1)), Marked(SeptetOf(v, 2)), SeptetOf(v, 3)]
    case 5 => [Marked(SeptetOf(v, 0)), Marked(SeptetOf(v, 1)), Marked(SeptetOf(v, 2)), Marked(SeptetOf(v, 3)), Fifth(t)]
  }

  /** The addresses agree in the bits above those that len bytes carry: seven a byte, in ARM state one more
      that is not sent, in Jazelle state one less for the branch bit. */
  predicate SameAbove(a: bv32, b: bv32, len: nat, cpu: Cpu) {
    match cpu
    case Arm =>
      (len == 1 && a >> 8 == b >> 8) || (len == 2 && a >> 15 == b >> 15)
      || (len == 3 && a >> 22 == b >> 22) || (len == 4 && a >> 29 == b >> 29)
    case Thumb =>
      (len == 1 && a >> 7 == b >> 7) || (len == 2 && a >> 14 == b >> 14)
      || (len == 3 && a >> 21 == b >> 21) || (len == 4 && a >> 28 == b >> 28)
    case Jazelle =>
      (len == 1 && a >> 6 == b >> 6) || (len == 2 && a >> 13 == b >> 13)
      || (len == 3 && a >> 20 == b >> 20) || (len == 4 && a >> 27 == b >> 27)
  }

  /** len bytes are enough: all of them, or the state stays and the bits left out are those of the
      previous target. */
  predicate Enough(t: Target, len: nat, cpu: Cpu, last: bv32) {
    len == 5 || (1 <= len < 5 && cpu == t.cpu && SameAbove(t.addr, last, len, cpu))
  }

  /** Only a packet of five bytes announces exception information. */
  predicate Announced(t: Target, len: nat) {
    t.exc && len == 5
  }

  // ----- One packet back -----

  function Part0(v: bv32): bv32 { v & 0x7F }
  function Part1(v: bv32): bv32 { v & 0x3F80 }
  function Part2(v: bv32): bv32 { v & 0x1FC000 }
  function Part3(v: bv32): bv32 { v & 0xFE00000 }
  function Part4(v: bv32, arm: bool): bv32 { if arm then (v & 0x70000000) | 0x80000000 else v & 0xF0000000 }

  lemma Septet0(v: bv32)
    ensures GoesOn(Marked(SeptetOf(v, 0))) && !GoesOn(SeptetOf(v, 0))
    ensures Septet(Marked(SeptetOf(v, 0)), 0) == Part0(v) && Septet(SeptetOf(v, 0), 0) == Part0(v)
  {
  }

  lemma Septet1(v: bv32)
    ensures GoesOn(Marked(SeptetOf(v, 1))) && !GoesOn(SeptetOf(v, 1))
    ensures Septet(Marked(SeptetOf(v, 1)), 1) == Part1(v) && Septet(SeptetOf(v, 1), 1) == Part1(v)
  {
  }

  lemma Septet2(v: bv32)
    ensures GoesOn(Marked(SeptetOf(v, 2))) && !GoesOn(SeptetOf(v, 2))
    ensures Septet(Marked(SeptetOf(v, 2)), 2) == Part2(v) && Septet(SeptetOf(v, 2), 2) == Part2(v)
  {
  }

  lemma Septet3(v: bv32)
    ensures GoesOn(Marked(SeptetOf(v, 3))) && !GoesOn(SeptetOf(v, 3))
    ensures Septet(Marked(SeptetOf(v, 3)), 3) == Part3(v) && Septet(SeptetOf(v, 3), 3) == Part3(v)
  {
  }

  /** Septet i, with or without the mark, carries the bits of part i. */
  lemma Marks(v: bv32, arm: bool, i: nat)
    requires i < 4
    ensures GoesOn(Marked(SeptetOf(v, i))) && !GoesOn(SeptetOf(v, i))
    ensures Septet(Marked(SeptetOf(v, i)), i) == Septet(SeptetOf(v, i), i) == Part(v, arm, i)
  {
    hide GoesOn, Marked, SeptetOf, Septet, Part0, Part1, Part2, Part3, Part4;
    match i
    case 0 => Septet0(v);
    case 1 => Septet1(v);
    case 2 => Septet2(v);
    case 3 => Septet3(v);
  }

  lemma FirstIsHeader(t: Target)
    requires t.Valid()
    ensures PacketType(SeptetOf(Sent(t), 0)).BranchPacket? && PacketType(Marked(SeptetOf(Sent(t), 0))).BranchPacket?
  {
  }

  lemma FifthTells(t: Target, cpu: Cpu)
    requires t.Valid()
    ensures !GoesOn(Fifth(t)) && (HasException(Fifth(t)) <==> t.exc) && CpuOf(Fifth(t), cpu) == t.cpu
  {
  }

  /** The septets of the bytes from i on. */
  function Collected(b: seq<Byte>, i: nat): bv32
    decreases |b| - i
  {
    if i >= |b| then 0 else Join(Septet(b[i], i), Collected(b, i + 1))
  }

  /** All bytes but the last go on. */
  ghost predicate OneNumber(b: seq<Byte>) {
    b != [] && !GoesOn(b[|b| - 1]) && forall i :: 0 <= i < |b| - 1 ==> GoesOn(b[i])
  }

  lemma JoinAssociates(a: bv32, b: bv32, c: bv32)
    ensures Join(Join(a, b), c) == Join(a, Join(b, c)) && Join(a, 0) == a && Join(0, a) == a
  {
  }

  lemma {:induction false} VarintCollects(b: seq<Byte>, i: nat, v: bv32)
    requires OneNumber(b) && i < |b|
    ensures Varint(b, i, v) == (Join(v, Collected(b, i)), |b|)
    decreases |b| - i
  {
    hide Septet, Join, GoesOn;
    JoinAssociates(v, Septet(b[i], i), Collected(b, i + 1));
    if i == |b| - 1 {
      JoinAssociates(Septet(b[i], i), 0, 0);
      assert Collected(b, i + 1) == 0;
    } else {
      VarintCollects(b, i + 1, Join(v, Septet(b[i], i)));
    }
  }

  lemma {:induction false} EncodedNumber(t: Target, len: nat)
    requires t.Valid() && 1 <= len <= 5
    ensures OneNumber(Encode(t, len)) && PacketType(Encode(t, len)[0]).BranchPacket?
  {
    hide SeptetOf, Fifth, Sent, Marked, GoesOn, PacketType;
    var v := Sent(t);
    Marks(v, true, 0);
    Marks(v, true, 1);
    Marks(v, true, 2);
    Marks(v, true, 3);
    FirstIsHeader(t);
    FifthTells(t, Arm);
  }

  /** The low bits of the number that len bytes carry; in ARM state the mark of the state comes to
      stand above them. */
  function LowBits(v: bv32, arm: bool, len: nat): bv32 {
    match len
    case 1 => v & 0x7F
    case 2 => v & 0x3FFF
    case 3 => v & 0x1FFFFF
    case 4 => v & 0xFFFFFFF
    case _ => if arm then (v & 0x7FFFFFFF) | 0x80000000 else v
  }

  /** The bits of septet i. */
  function Part(v: bv32, arm: bool, i: nat): bv32 {
    match i
    case 0 => Part0(v)
    case 1 => Part1(v)
    case 2 => Part2(v)
    case 3 => Part3(v)
    case _ => Part4(v, arm)
  }

  lemma FifthBits(t: Target)
    requires t.Valid()
    ensures Septet(Fifth(t), 4) == Part(Sent(t), t.cpu.Arm?, 4)
  {
  }

  /** The parts from i on of a number of len septets. */
  function Parts(v: bv32, arm: bool, len: nat, i: nat): bv32
    decreases len - i
  {
    if i >= len then 0 else Join(Part(v, arm, i), Parts(v, arm, len, i + 1))
  }

  lemma Join1(v: bv32)
    ensures Join(Part0(v), 0) == v & 0x7F
  {
  }

  lemma Join2(v: bv32)
    ensures Join(Part0(v), Join(Part1(v), 0)) == v & 0x3FFF
  {
  }

  lemma Join3(v: bv32)
    ensures Join(Part0(v), Join(Part1(v), Join(Part2(v), 0))) == v & 0x1FFFFF
  {
  }

  lemma Join4(v: bv32)
    ensures Join(Part0(v), Join(Part1(v), Join(Part2(v), Join(Part3(v), 0)))) == v & 0xFFFFFFF
  {
  }

  lemma JoinArm5(v: bv32)
    ensures Join(Part0(v), Join(Part1(v), Join(Part2(v), Join(Part3(v), Join(Part4(v, true), 0))))) == (v & 0x7FFFFFFF) | 0x80000000
  {
  }

  lemma JoinThumb5(v: bv32)
    ensures Join(Part0(v), Join(Part1(v), Join(Part2(v), Join(Part3(v), Join(Part4(v, false), 0))))) == v
  {
  }

  lemma {:induction false} PartsAre(v: bv32, arm: bool, len: nat)
    requires 1 <= len <= 5
    ensures Parts(v, arm, len, 0) == LowBits(v, arm, len)
  {
    hide Part0, Part1, Part2, Part3, Part4, Join;
    match len {
      case 1 => Join1(v);
      case 2 => Join2(v);
      case 3 => Join3(v);
      case 4 => Join4(v);
      case 5 => if arm { JoinArm5(v); } else { JoinThumb5(v); }
    }
    assert Parts(v, arm, len, len) == 0;
    if len > 4 { assert Parts(v, arm, len, 4) == Join(Part(v, arm, 4), 0); }
    if len > 3 { assert Parts(v, arm, len, 3) == Join(Part(v, arm, 3), Parts(v, arm, len, 4)); }
    if len > 2 { assert Parts(v, arm, len, 2) == Join(Part(v, arm, 2), Parts(v, arm, len, 3)); }
    if len > 1 { assert Parts(v, arm, len, 1) == Join(Part(v, arm, 1), Parts(v, arm, len, 2)); }
  }

  /** Byte i of a packet carries part i. */
  lemma {:induction false} EncodedPart(t: Target, len: nat, i: nat)
    requires t.Valid() && 1 <= len <= 5 && i < len
    ensures Septet(Encode(t, len)[i], i) == Part(Sent(t), t.cpu.Arm?, i)
  {
    hide SeptetOf, Fifth, Sent, Marked, Septet, Part, GoesOn;
    if i == 4 {
      FifthBits(t);
    } else {
      Marks(Sent(t), t.cpu.Arm?, i);
    }
  }

  lemma {:induction false} CollectedParts(t: Target, len: nat, i: nat)
    requires t.Valid() && 1 <= len <= 5 && i <= len
    ensures Collected(Encode(t, len), i) == Parts(Sent(t), t.cpu.Arm?, len, i)
    decreases len - i
  {
    hide Encode, Sent, Septet, Part, Join;
    if i < len {
      EncodedPart(t, len, i);
      CollectedParts(t, len, i + 1);
    }
  }

  lemma Arm1(t: Target, last: bv32)
    requires t.Valid() && t.cpu.Arm? && SameAbove(t.addr, last, 1, Arm)
    ensures Join(Shifted(LowBits(Sent(t), true, 1), Arm), Kept(last, 1, Arm)) == t.addr
  {
  }

  lemma Arm2(t: Target, last: bv32)
    requires t.Valid() && t.cpu.Arm? && SameAbove(t.addr, last, 2, Arm)
    ensures Join(Shifted(LowBits(Sent(t), true, 2), Arm), Kept(last, 2, Arm)) == t.addr
  {
  }

  lemma Arm3(t: Target, last: bv32)
    requires t.Valid() && t.cpu.Arm? && SameAbove(t.addr, last, 3, Arm)
    ensures Join(Shifted(LowBits(Sent(t), true, 3), Arm), Kept(last, 3, Arm)) == t.addr
  {
  }

  lemma Arm4(t: Target, last: bv32)
    requires t.Valid() && t.cpu.Arm? && SameAbove(t.addr, last, 4, Arm)
    ensures Join(Shifted(LowBits(Sent(t), true, 4), Arm), Kept(last, 4, Arm)) == t.addr
  {
  }

  lemma Arm5(t: Target, last: bv32)
    requires t.Valid() && t.cpu.Arm?
    ensures Join(Shifted(LowBits(Sent(t), true, 5), Arm), Kept(last, 5, Arm)) == t.addr
  {
  }

  lemma Thumb1(t: Target, last: bv32)
    requires t.Valid() && t.cpu.Thumb? && SameAbove(t.addr, last, 1, Thumb)
    ensures Join(Shifted(LowBits(Sent(t), false, 1), Thumb), Kept(last, 1, Thumb)) == t.addr
  {
  }

  lemma Thumb2(t: Target, last: bv32)
    requires t.Valid() && t.cpu.Thumb? && SameAbove(t.addr, last, 2, Thumb)
    ensures Join(Shifted(LowBits(Sent(t), false, 2), Thumb), Kept(last, 2, Thumb)) == t.addr
  {
  }

  lemma Thumb3(t: Target, last: bv32)
    requires t.Valid() && t.cpu.Thumb? && SameAbove(t.addr, last, 3, Thumb)
    ensures Join(Shifted(LowBits(Sent(t), false, 3), Thumb), Kept(last, 3, Thumb)) == t.addr
  {
  }

  lemma Thumb4(t: Target, last: bv32)
    requires t.Valid() && t.cpu.Thumb? && SameAbove(t.addr, last, 4, Thumb)
    ensures Join(Shifted(LowBits(Sent(t), false, 4), Thumb), Kept(last, 4, Thumb)) == t.addr
  {
  }

  lemma Thumb5(t: Target, last: bv32)
    requires t.Valid() && t.cpu.Thumb?
    ensures Join(Shifted(LowBits(Sent(t), false, 5), Thumb), Kept(last, 5, Thumb)) == t.addr
  {
  }

  lemma Jazelle1(t: Target, last: bv32)
    requires t.Valid() && t.cpu.Jazelle? && SameAbove(t.addr, last, 1, Jazelle)
    ensures Join(Shifted(LowBits(Sent(t), false, 1), Jazelle), Kept(last, 1, Jazelle)) == t.addr
  {
  }

  lemma Jazelle2(t: Target, last: bv32)
    requires t.Valid() && t.cpu.Jazelle? && SameAbove(t.addr, last, 2, Jazelle)
    ensures Join(Shifted(LowBits(Sent(t), false, 2), Jazelle), Kept(last, 2, Jazelle)) == t.addr
  {
  }

  lemma Jazelle3(t: Target, last: bv32)
    requires t.Valid() && t.cpu.Jazelle? && SameAbove(t.addr, last, 3, Jazelle)
    ensures Join(Shifted(LowBits(Sent(t), false, 3), Jazelle), Kept(last, 3, Jazelle)) == t.addr
  {
  }

  lemma Jazelle4(t: Target, last: bv32)
    requires t.Valid() && t.cpu.Jazelle? && SameAbove(t.addr, last, 4, Jazelle)
    ensures Join(Shifted(LowBits(Sent(t), false, 4), Jazelle), Kept(last, 4, Jazelle)) == t.addr
  {
  }

  lemma Jazelle5(t: Target, last: bv32)
    requires t.Valid() && t.cpu.Jazelle?
    ensures Join(Shifted(LowBits(Sent(t), false, 5), Jazelle), Kept(last, 5, Jazelle)) == t.addr
  {
  }

  /** The address is put together from the bits sent and the bits kept. */
  lemma {:induction false} AddressBack(t: Target, len: nat, cpu: Cpu, last: bv32)
    requires t.Valid() && Enough(t, len, cpu, last)
    ensures Join(Shifted(LowBits(Sent(t), t.cpu.Arm?, len), t.cpu), Kept(last, len, t.cpu)) == t.addr
  {
    hide Join, Shifted, LowBits, Sent, Kept, SameAbove;
    if t.cpu.Arm? {
      match len
      case 1 => Arm1(t, last);
      case 2 => Arm2(t, last);
      case 3 => Arm3(t, last);
      case 4 => Arm4(t, last);
      case 5 => Arm5(t, last);
    } else if t.cpu.Jazelle? {
      match len
      case 1 => Jazelle1(t, last);
      case 2 => Jazelle2(t, last);
      case 3 => Jazelle3(t, last);
      case 4 => Jazelle4(t, last);
      case 5 => Jazelle5(t, last);
    } else {
      match len
      case 1 => Thumb1(t, last);
      case 2 => Thumb2(t, last);
      case 3 => Thumb3(t, last);
      case 4 => Thumb4(t, last);
      case 5 => Thumb5(t, last);
    }
  }

  /** A packet with enough bytes yields the target. */
  lemma {:induction false} PacketBack(s: State, t: Target, len: nat)
    requires t.Valid() && Enough(t, len, s.cpu, s.lastBranch) && s.buf == Encode(t, len)
    ensures ProcessBuffer(s) == (s.(buf := [], lastBranch := t.addr, cpu := t.cpu), [Branch(t.addr, Announced(t, len))])
  {
    hide Encode, Shifted, Kept, LowBits, Collected, CpuOf, Varint, Fifth, GoesOn, Join, HasException, PacketType, Sent, Parts;
    EncodedNumber(t, len);
    VarintCollects(s.buf, 0, 0);
    CollectedParts(t, len, 0);
    PartsAre(Sent(t), t.cpu.Arm?, len);
    JoinAssociates(LowBits(Sent(t), t.cpu.Arm?, len), 0, 0);
    AddressBack(t, len, s.cpu, s.lastBranch);
    if len == 5 {
      FifthTells(t, s.cpu);
      FifthByte(t);
    }
  }

  lemma FifthByte(t: Target)
    ensures Encode(t, 5)[4] == Fifth(t)
  {
    hide SeptetOf, Marked, Fifth;
  }

  // ----- Byte by byte -----

  /** A target as sent: in len bytes, at their times. */
  datatype Coded = Coded(t: Target, len: nat, rx: seq<Rx>)

  /** The packet's bytes, with no long pause between them. */
  ghost predicate Arrives(c: Coded) {
    && c.t.Valid() && 1 <= c.len <= 5 && |c.rx| == c.len
    && (forall i :: 0 <= i < c.len ==> c.rx[i].val == Encode(c.t, c.len)[i])
    && forall i :: 0 < i < c.len ==> Contiguous(c.rx, i)
  }

  /** Byte i comes after the one before, with a gap of at most sixteen times its own length. */
  ghost predicate Contiguous(rx: seq<Rx>, i: nat)
    requires 0 < i < |rx|
  {
    var gap, length := rx[i].start - rx[i - 1].end, rx[i].end - rx[i].start;
    0 <= gap <= 16 * length < 0x1_0000_0000_0000_0000 && rx[i].end < 0x1_0000_0000_0000_0000
  }

  lemma ContiguousNoPause(rx: seq<Rx>, i: nat)
    requires 0 < i < |rx| && Contiguous(rx, i)
    ensures !Pause(rx[i - 1].end, rx[i])
  {
  }

  /** The time from t to u, as the decoder computes it: a byte that starts before the last one has ended
      counts as one after nearly 2^64 samples. */
  function Gap(t: nat, u: nat): int {
    if t <= u then u - t else 0x1_0000_0000_0000_0000 + u - t
  }

  /** A pause is a gap longer than sixteen times the byte, as far as that has 64 bits; there is none in front
      of the first byte. */
  lemma {:induction false} PauseIff(prev: nat, rx: Rx)
    requires prev < 0x1_0000_0000_0000_0000 && rx.start <= rx.end < 0x1_0000_0000_0000_0000
    ensures Pause(prev, rx) <==> prev != 0 && Gap(prev, rx.start) > 16 * (rx.end - rx.start) % 0x1_0000_0000_0000_0000
  {
  }

  /** After a longer gap the bytes are decoded as from an empty buffer. */
  lemma {:induction false} LongGap(s: State, rx: seq<Rx>)
    requires rx != [] && rx[0].start <= rx[0].end < 0x1_0000_0000_0000_0000 && 0 < s.prev < 0x1_0000_0000_0000_0000
    requires Gap(s.prev, rx[0].start) > 16 * (rx[0].end - rx[0].start)
    ensures RecvAll(s, rx) == RecvAll(s.(buf := []), rx)
  {
    hide ProcessBuffer;
    assert Pause(s.prev, rx[0]);
    assert Recv(s, rx[0]) == Recv(s.(buf := []), rx[0]);
  }

  /** The last two bytes are not both 0: another byte cannot complete the synchronisation pattern. */
  ghost predicate Quiet(buf: seq<Byte>) {
    |buf| <= 5 && (|buf| >= 2 ==> buf[|buf| - 1] != 0 || buf[|buf| - 2] != 0)
  }

  /** Before byte i of a packet. */
  ghost predicate InPacket(s: State, c: Coded, i: nat)
    requires 1 <= c.len <= 5 && |c.rx| == c.len
  {
    && i <= c.len && s.buf == Encode(c.t, c.len)[..i] && Quiet(s.syncbuf)
    && (i > 0 ==> s.prev == c.rx[i - 1].end && s.syncbuf != [] && s.syncbuf[|s.syncbuf| - 1] != 0)
  }

  lemma HeaderNotZero(b: Byte)
    ensures PacketType(b).BranchPacket? ==> b != 0
    ensures GoesOn(b) ==> b != 0
  {
  }

  /** No byte of a packet completes the synchronisation pattern. */
  lemma StaysQuiet(buf: seq<Byte>, b: Byte)
    requires Quiet(buf) && (b == 0 ==> buf != [] && buf[|buf| - 1] != 0)
    ensures PushSync(buf, b) != SYNC && Quiet(PushSync(buf, b))
    ensures PushSync(buf, b) != [] && PushSync(buf, b)[|PushSync(buf, b)| - 1] == b
  {
    var w := PushSync(buf, b);
    assert SYNC[2] == 0 && SYNC[3] == 0;
    if |w| == 5 {
      assert w[2] != 0 || w[3] != 0;
    }
  }

  /** One more byte into the buffer, nothing else in the way. */
  lemma Buffered(s: State, c: Coded, i: nat)
    requires Arrives(c) && i < c.len && InPacket(s, c, i)
    ensures var b := c.rx[i].val; var s1 := s.(prev := c.rx[i].end, syncbuf := PushSync(s.syncbuf, b), buf := Encode(c.t, c.len)[..i + 1]);
            Recv(s, c.rx[i]) == ProcessBuffer(s1) && Quiet(s1.syncbuf) && s1.syncbuf != [] && s1.syncbuf[|s1.syncbuf| - 1] == b
  {
    hide Encode, ProcessBuffer, PushSync, GoesOn, PacketType, Pause, Target.Valid;
    var e := Encode(c.t, c.len);
    EncodedNumber(c.t, c.len);
    HeaderNotZero(e[i]);
    assert e[..i] + [e[i]] == e[..i + 1];
    if i > 0 { ContiguousNoPause(c.rx, i); }
    assert e[i] == 0 ==> i > 0;
    StaysQuiet(s.syncbuf, e[i]);
    assert i == 0 ==> s.buf == [];
  }

  lemma {:induction false} RestOfPacket(s: State, c: Coded, i: nat)
    requires Arrives(c) && i < c.len && InPacket(s, c, i) && Enough(c.t, c.len, s.cpu, s.lastBranch)
    ensures var (s1, e) := RecvAll(s, c.rx[i..]);
            && s1.buf == [] && Quiet(s1.syncbuf) && s1.lastBranch == c.t.addr && s1.cpu == c.t.cpu
            && e == [Branch(c.t.addr, Announced(c.t, c.len))]
    decreases c.len - i
  {
    hide Encode, ProcessBuffer, Recv, PushSync, GoesOn, PacketType, Quiet, Kept, Target.Valid;
    var e := Encode(c.t, c.len);
    Buffered(s, c, i);
    assert c.rx[i..][1..] == c.rx[i + 1..];
    var s0 := s.(prev := c.rx[i].end, syncbuf := PushSync(s.syncbuf, c.rx[i].val), buf := e[..i + 1]);
    if i + 1 == c.len {
      assert e[..i + 1] == e;
      PacketBack(s0, c.t, c.len);
      var s1 := ProcessBuffer(s0).0;
      assert RecvAll(s1, c.rx[c.len..]) == (s1, []);
      var b := Branch(c.t.addr, Announced(c.t, c.len));
      assert [b] + [] == [b];
    } else {
      Incomplete(s0, c.t, c.len, i + 1);
      EncodedNumber(c.t, c.len);
      HeaderNotZero(e[i]);
      RestOfPacket(s0, c, i + 1);
      var e2 := RecvAll(s0, c.rx[i + 1..]).1;
      assert [] + e2 == e2;
    }
  }

  /** A packet that goes on is left in the buffer. */
  lemma Incomplete(s: State, t: Target, len: nat, i: nat)
    requires t.Valid() && 1 <= len <= 5 && 0 < i < len && s.buf == Encode(t, len)[..i]
    ensures ProcessBuffer(s) == (s, [])
  {
    hide Encode, GoesOn, PacketType, Target.Valid, Varint, CpuOf, Shifted, Kept;
    EncodedNumber(t, len);
  }

  function Received(c: seq<Coded>): seq<Rx> {
    if c == [] then [] else c[0].rx + Received(c[1..])
  }

  function Branches(c: seq<Coded>): seq<Event> {
    if c == [] then [] else [Branch(c[0].t.addr, Announced(c[0].t, c[0].len))] + Branches(c[1..])
  }

  /** Every target comes in enough bytes after the one before. */
  ghost predicate AllArrive(c: seq<Coded>, cpu: Cpu, last: bv32)
    decreases |c|
  {
    c == [] || (Arrives(c[0]) && Enough(c[0].t, c[0].len, cpu, last) && AllArrive(c[1..], c[0].t.cpu, c[0].t.addr))
  }

  /** Any sequence of branch targets in any state, each sent in all five bytes or in fewer that leave
      out only bits equal to those of the target before: the decoder reports exactly these targets,
      and follows them with its address and state. */
  lemma {:induction false} RoundTrip(s: State, c: seq<Coded>)
    requires s.buf == [] && Quiet(s.syncbuf) && AllArrive(c, s.cpu, s.lastBranch)
    ensures var (s1, e) := RecvAll(s, Received(c));
            && e == Branches(c) && s1.buf == [] && Quiet(s1.syncbuf)
            && (c != [] ==> s1.lastBranch == c[|c| - 1].t.addr && s1.cpu == c[|c| - 1].t.cpu)
    decreases |c|
  {
    hide Arrives, Enough, Quiet, Run, Encode;
    if c == [] {
      NothingReceived(s);
    } else {
      PacketReceived(s, c[0]);
      var s1 := RecvAll(s, c[0].rx).0;
      RoundTrip(s1, c[1..]);
      if |c| == 1 {
        assert Received(c[1..]) == [];
        NothingReceived(s1);
      }
      RunJoin(Recv, s, c[0].rx, Received(c[1..]));
    }
  }

  /** The synchronisation pattern is seen wherever it comes, with whatever gaps: it takes the place of a
      packet under way, and the next byte starts a new one. */
  lemma {:induction false} SyncAnywhere(s: State, rx: seq<Rx>)
    requires |s.syncbuf| <= 5 && |rx| == 5 && forall i :: 0 <= i < 5 ==> rx[i].val == if i < 4 then 0x00 else 0x80
    ensures var (s4, e4) := RecvAll(s, rx[..4]);
            RecvAll(s, rx) == (s4.(buf := [], syncbuf := SYNC, prev := rx[4].end), e4 + [ASync])
  {
    hide ProcessBuffer, PushBuf, Pause;
    FourZeros(s, rx[..4]);
    var s4 := RecvAll(s, rx[..4]).0;
    SyncEnds(s4, rx[4]);
    assert rx == rx[..4] + [rx[4]];
    RunJoin(Recv, s, rx[..4], [rx[4]]);
    OneReceived(s4, rx[4]);
  }

  /** n zeros in a row have been received, or more. */
  ghost predicate EndsInZeros(buf: seq<Byte>, n: nat) {
    n <= |buf| <= 5 && forall i :: |buf| - n <= i < |buf| ==> buf[i] == 0x00
  }

  lemma ZeroPushed(buf: seq<Byte>, n: nat)
    requires EndsInZeros(buf, n) && n < 4
    ensures EndsInZeros(PushSync(buf, 0x00), n + 1)
  {
    var b := PushSync(buf, 0x00);
    assert b[|b| - 1] == 0x00;
    forall i | |b| - (n + 1) <= i < |b| - 1 ensures b[i] == 0x00 {
      assert b[i] == buf[if |buf| < 5 then i else i + 1];
    }
  }

  lemma {:induction false} Zeros(s: State, rx: seq<Rx>, n: nat)
    requires EndsInZeros(s.syncbuf, n) && n + |rx| <= 4 && forall i :: 0 <= i < |rx| ==> rx[i].val == 0x00
    ensures EndsInZeros(RecvAll(s, rx).0.syncbuf, n + |rx|)
    decreases |rx|
  {
    hide ProcessBuffer, PushBuf, Pause;
    if rx != [] {
      var s1 := Recv(s, rx[0]).0;
      KeepsSync(s, rx[0]);
      ZeroPushed(s.syncbuf, n);
      Zeros(s1, rx[1..], n + 1);
    }
  }

  lemma {:induction false} FourZeros(s: State, rx: seq<Rx>)
    requires |s.syncbuf| <= 5 && |rx| == 4 && forall i :: 0 <= i < 4 ==> rx[i].val == 0x00
    ensures EndsInZeros(RecvAll(s, rx).0.syncbuf, 4)
  {
    Zeros(s, rx, 0);
  }

  /** What becomes of the buffer does not touch the detector. */
  lemma KeepsSync(s: State, rx: Rx)
    ensures Recv(s, rx).0.syncbuf == PushSync(s.syncbuf, rx.val)
  {
    hide PacketType, Varint, Word, CpuOf, Shifted, Kept, GoesOn, Pause;
  }

  lemma SyncEnds(s: State, rx: Rx)
    requires EndsInZeros(s.syncbuf, 4) && rx.val == 0x80
    ensures Recv(s, rx) == (s.(buf := [], syncbuf := SYNC, prev := rx.end), [ASync])
  {
    hide Pause, PushBuf;
    var b := PushSync(s.syncbuf, 0x80);
    assert |b| == 5 && b[4] == 0x80;
    forall i | 0 <= i < 4 ensures b[i] == 0x00 {
      assert b[i] == s.syncbuf[if |s.syncbuf| < 5 then i else i + 1];
    }
    assert b == SYNC;
    assert PacketType(0x00).ASyncPacket?;
  }

  lemma OneReceived(s: State, rx: Rx)
    ensures RecvAll(s, [rx]) == Recv(s, rx)
  {
    hide Recv;
    var (s1, e) := Recv(s, rx);
    assert [rx][1..] == [] && e + [] == e;
    NothingReceived(s1);
  }

  /** Whatever is no branch and no synchronisation packet is over with its first byte: it is displayed,
      address and state stay, and the next byte starts a packet of its own. */
  lemma {:induction false} OthersEndAtOnce(s: State, rx: Rx)
    requires s.buf == [] && PacketType(rx.val).OtherPacket? && PushSync(s.syncbuf, rx.val) != SYNC
    ensures Recv(s, rx) == (s.(prev := rx.end, syncbuf := PushSync(s.syncbuf, rx.val)), [Other(rx.val)])
  {
    hide PacketType, PushSync;
    var none: seq<Byte> := [];
    assert PushBuf(none, rx.val) == [rx.val];
  }

  lemma NothingReceived(s: State)
    ensures RecvAll(s, []) == (s, [])
  {
  }

  lemma PacketReceived(s: State, c: Coded)
    requires s.buf == [] && Quiet(s.syncbuf) && Arrives(c) && Enough(c.t, c.len, s.cpu, s.lastBranch)
    ensures var (s1, e) := RecvAll(s, c.rx);
            && s1.buf == [] && Quiet(s1.syncbuf) && s1.lastBranch == c.t.addr && s1.cpu == c.t.cpu
            && e == [Branch(c.t.addr, Announced(c.t, c.len))]
  {
    hide RecvAll, Encode, Enough, Quiet;
    assert c.rx[0..] == c.rx;
    assert Encode(c.t, c.len)[..0] == [];
    RestOfPacket(s, c, 0);
  }

  // ----- Where the sequence starts -----

  function Tagged(t: Target): bv32 {
    if t.cpu.Thumb? then t.addr | 1 else t.addr
  }

  function WordBytes(w: bv32): (r: seq<Byte>)
    ensures |r| == 4
  {
    [(w & 0xFF) as Byte, ((w >> 8) & 0xFF) as Byte, ((w >> 16) & 0xFF) as Byte, ((w >> 24) & 0xFF) as Byte]
  }

  /** A synchronisation packet: header, cycle count if there is one, information byte, address. */
  function EncodeSync(t: Target, info: Byte, cycles: seq<Byte>): seq<Byte> {
    (if cycles == [] then [0x08] else [0x70] + cycles) + [info] + WordBytes(Tagged(t))
  }

  /** No count, or one number. */
  ghost predicate IsCount(cycles: seq<Byte>) {
    cycles == [] || OneNumber(cycles)
  }

  lemma WordBack(w: bv32)
    ensures Word(WordBytes(w)) == w
  {
  }

  lemma TaggedBack(t: Target)
    requires t.Valid() && !t.cpu.Jazelle?
    ensures Untagged(Tagged(t)) == t.addr && (TellsThumb(Tagged(t)) <==> t.cpu.Thumb?)
  {
  }

  lemma SyncHeaders()
    ensures PacketType(0x08).ISyncPacket? && PacketType(0x70).ISyncPacket?
  {
  }

  /** A number is as long as its bytes go on. */
  lemma {:induction false} NumberLength(b: seq<Byte>, i: nat, v: bv32, n: nat)
    requires i < n <= |b| && !GoesOn(b[n - 1]) && forall k :: i <= k < n - 1 ==> GoesOn(b[k])
    ensures Varint(b, i, v).1 == n
    decreases n - i
  {
    hide Septet, Join, GoesOn;
    if i < n - 1 { NumberLength(b, i + 1, Join(v, Septet(b[i], i)), n); }
  }

  lemma {:induction false} OpenNumber(b: seq<Byte>, i: nat, v: bv32)
    requires i <= |b| && forall k :: i <= k < |b| ==> GoesOn(b[k])
    ensures Varint(b, i, v).1 == |b|
    decreases |b| - i
  {
    hide Septet, Join, GoesOn;
    if i < |b| { OpenNumber(b, i + 1, Join(v, Septet(b[i], i))); }
  }

  /** A synchronisation packet sets the address and the state that the next branch is sent against. */
  lemma {:induction false} SyncBack(s: State, t: Target, info: Byte, cycles: seq<Byte>)
    requires t.Valid() && !t.cpu.Jazelle? && IsCount(cycles) && s.buf == EncodeSync(t, info, cycles)
    ensures ProcessBuffer(s) == (s.(buf := [], lastBranch := t.addr, cpu := t.cpu), [InstrSync(t.addr, t.cpu)])
  {
    hide Word, WordBytes, Tagged, Untagged, TellsThumb, PacketType, Target.Valid, Varint, GoesOn;
    WordBack(Tagged(t));
    TaggedBack(t);
    SyncHeaders();
    var n := |cycles|;
    if n > 0 { CountRead(s.buf[1..], cycles); }
    assert s.buf[n + 2..n + 6] == WordBytes(Tagged(t));
  }

  lemma {:induction false} CountRead(b: seq<Byte>, cycles: seq<Byte>)
    requires OneNumber(cycles) && |cycles| <= |b| && b[..|cycles|] == cycles
    ensures Varint(b, 0, 0).1 == |cycles|
  {
    hide GoesOn;
    assert forall k :: 0 <= k < |cycles| ==> b[k] == cycles[k];
    NumberLength(b, 0, 0, |cycles|);
  }

  /** And not before its last byte is there. */
  lemma {:induction false} SyncIncomplete(s: State, t: Target, info: Byte, cycles: seq<Byte>, i: nat)
    requires IsCount(cycles) && 0 < i < |EncodeSync(t, info, cycles)| && s.buf == EncodeSync(t, info, cycles)[..i]
    ensures ProcessBuffer(s) == (s, [])
  {
    hide Word, WordBytes, Tagged, PacketType, Varint, GoesOn;
    SyncHeaders();
    var n, all := |cycles|, EncodeSync(t, info, cycles);
    assert s.buf[0] == all[0];
    if n > 0 {
      assert forall k :: 1 <= k < i && k <= n ==> s.buf[k] == all[k] == cycles[k - 1];
      var b := s.buf[1..];
      if i > n {
        assert b[..n] == cycles;
        CountRead(b, cycles);
      } else {
        assert forall k :: 0 <= k < |b| ==> b[k] == cycles[k];
        OpenNumber(b, 0, 0);
      }
    }
  }

  /** The packet buffer holds at most 64 bytes, whatever comes. */
  lemma {:induction false} BufferBounded(s: State, rx: Rx)
    requires |s.buf| <= 64
    ensures |Recv(s, rx).0.buf| <= 64
  {
    hide PacketType, Varint, Word, CpuOf, Shifted, Kept, GoesOn, Pause;
  }
}
