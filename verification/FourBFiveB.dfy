/** The 4B/5B line code of 4b5b_c.c (section 24.2.2.1 of IEEE 802.3): five-bit symbols to control codes
    and, between J K and the end, to data bytes, low nibble first. */
module FourBFiveB {
  import opened BitStrings
  import opened Machines

  const J: nat := 24
  const K: nat := 17

  /** The nibble of a data symbol, -1 for the others. */
  const DATA_SYM: seq<int> := [
    -1, -1, -1, -1, -1, -1, -1, -1, -1, 0x1, 0x4, 0x5, -1, -1, 0x6, 0x7,
    -1, -1, 0x8, 0x9, 0x2, 0x3, 0xA, 0xB, -1, -1, 0xC, 0xD, 0xE, 0xF, 0x0, -1]

  /** The symbols with a name: quiet, halt, L, reset, terminate, K, J, set, idle. */
  predicate IsControl(symbol: nat) {
    symbol in {0, 4, 6, 7, 13, 17, 24, 25, 31}
  }

  datatype Event = Control(symbol: nat) | DataSymbol(symbol: nat, nibble: nat) | Byte(b: nat)

  datatype Option = None | Some(nibble: nat)

  /** symbol holds the bits of the symbol under way, last the pending low nibble. */
  datatype State = State(seenJ: bool, seenK: bool, symbol: nat, bitCount: nat, last: Option, bitOffset: nat)

  /** A complete symbol. */
  function EndSymbol(s: State): (State, seq<Event>) {
    var s1 := s.(symbol := 0, bitCount := 0);
    if IsControl(s.symbol) then
      (s1.(seenJ := s.symbol == J || s.seenJ, seenK := s.symbol == K || s.seenK), [Control(s.symbol)])
    else if s.symbol < 32 && DATA_SYM[s.symbol] >= 0 && s.seenJ && s.seenK then
      var nibble := DATA_SYM[s.symbol];
      match s.last
      case Some(low) => (s1.(last := None), [DataSymbol(s.symbol, nibble), Byte(16 * nibble + low)])
      case None => (s1.(last := Some(nibble)), [DataSymbol(s.symbol, nibble)])
    else (s1, [])
  }

  /** fourb5b_recv_proto for a BIT packet. */
  function Recv(s: State, b: Bit): (State, seq<Event>) {
    if s.bitOffset > 0 then (s.(bitOffset := s.bitOffset - 1), [])
    else
      var s1 := s.(symbol := 2 * s.symbol + b, bitCount := s.bitCount + 1);
      if s1.bitCount == 5 then EndSymbol(s1) else (s1, [])
  }

  function RecvAll(s: State, bits: seq<Bit>): (State, seq<Event>) {
    Run(Recv, s, bits)
  }

  // ----- The encoder -----

  /** The control codes of the standard. */
  datatype Name = Quiet | Halt | NameL | Reset | Terminate | NameK | NameJ | Set | Idle

  function ControlBits(name: Name): (r: seq<Bit>)
    ensures |r| == 5
  {
    match name
    case Quiet => [0, 0, 0, 0, 0]
    case Halt => [0, 0, 1, 0, 0]
    case NameL => [0, 0, 1, 1, 0]
    case Reset => [0, 0, 1, 1, 1]
    case Terminate => [0, 1, 1, 0, 1]
    case NameK => [1, 0, 0, 0, 1]
    case NameJ => [1, 1, 0, 0, 0]
    case Set => [1, 1, 0, 0, 1]
    case Idle => [1, 1, 1, 1, 1]
  }

  function SymbolOf(name: Name): nat {
    Pack(ControlBits(name))
  }

  /** A symbol to be sent: a control code or a nibble. */
  datatype Sym = Ctrl(name: Name) | Nib(nibble: nat) {
    predicate Valid() {
      Nib? ==> nibble < 16
    }
  }

  /** The code group of a nibble. */
  function CodeGroup(nibble: nat): nat {
    if nibble < 16 then [30, 9, 20, 21, 10, 11, 14, 15, 18, 19, 22, 23, 26, 27, 28, 29][nibble] else 0
  }

  function Code(sym: Sym): nat {
    match sym
    case Ctrl(name) => SymbolOf(name)
    case Nib(nibble) => CodeGroup(nibble)
  }

  function Encode(syms: seq<Sym>): seq<Bit> {
    if syms == [] then [] else Bits(Code(syms[0]), 5) + Encode(syms[1..])
  }

  /** Low nibble first. */
  function Nibbles(bytes: seq<nat>): seq<Sym> {
    if bytes == [] then [] else [Nib(bytes[0] % 16), Nib(bytes[0] / 16)] + Nibbles(bytes[1..])
  }

  // ----- What is to be reported -----

  /** The reports for a symbol once J and K were seen, with a pending nibble or none, and what is then
      pending. */
  function SymReports(sym: Sym, last: Option): (seq<Event>, Option) {
    match sym
    case Ctrl(name) => ([Control(SymbolOf(name))], last)
    case Nib(nibble) =>
      match last
      case None => ([DataSymbol(CodeGroup(nibble), nibble)], Some(nibble))
      case Some(low) => ([DataSymbol(CodeGroup(nibble), nibble), Byte(16 * nibble + low)], None)
  }

  function Reports(syms: seq<Sym>, last: Option): seq<Event> {
    if syms == [] then [] else SymReports(syms[0], last).0 + Reports(syms[1..], SymReports(syms[0], last).1)
  }

  function DataBytes(e: seq<Event>): seq<nat> {
    if e == [] then [] else (if e[0].Byte? then [e[0].b] else []) + DataBytes(e[1..])
  }

  // ----- Back -----

  /** Every nibble has a data symbol of its own, which is no control code. */
  lemma CodeGroupBack(nibble: nat)
    requires nibble < 16
    ensures CodeGroup(nibble) < 32 && DATA_SYM[CodeGroup(nibble)] == nibble && !IsControl(CodeGroup(nibble))
  {
  }

  /** Between two symbols. */
  predicate Aligned(s: State) {
    s.bitCount == 0 && s.symbol == 0 && s.bitOffset == 0
  }

  lemma {:induction false} PartialSymbol(s: State, bits: seq<Bit>, done: seq<Bit>)
    requires s.bitOffset == 0 && s.bitCount == |done| && s.symbol == Pack(done) && |done| + |bits| == 5 && bits != []
    ensures RecvAll(s, bits) == EndSymbol(s.(symbol := Pack(done + bits), bitCount := 5))
    decreases |bits|
  {
    hide EndSymbol;
    var b, rest := bits[0], bits[1..];
    assert (done + [b])[..|done|] == done;
    assert done + bits == (done + [b]) + rest;
    var s1 := s.(symbol := 2 * s.symbol + b, bitCount := s.bitCount + 1);
    if rest == [] {
      var (s2, e) := EndSymbol(s1);
      assert RecvAll(s2, rest) == (s2, []);
      assert e + [] == e;
      assert done + bits == done + [b];
    } else {
      PartialSymbol(s1, rest, done + [b]);
      var e := RecvAll(s1, rest).1;
      assert [] + e == e;
    }
  }

  lemma {:induction false} SymbolBack(s: State, code: nat)
    requires Aligned(s) && code < 32
    ensures RecvAll(s, Bits(code, 5)) == EndSymbol(s.(symbol := code, bitCount := 5))
  {
    hide EndSymbol, Bits;
    assert Pow2(5) == 2 * Pow2(4) && Pow2(4) == 16;
    PackBits(code, 5);
    PartialSymbol(s, Bits(code, 5), []);
    assert [] + Bits(code, 5) == Bits(code, 5);
  }

  lemma {:induction false} OneSymbolBack(s: State, sym: Sym)
    requires Aligned(s) && s.seenJ && s.seenK && sym.Valid()
    ensures RecvAll(s, Bits(Code(sym), 5)) == (s.(last := SymReports(sym, s.last).1), SymReports(sym, s.last).0)
  {
    hide Recv, RecvAll, Bits, CodeGroup, IsControl;
    if sym.Nib? {
      CodeGroupBack(sym.nibble);
    } else {
      ControlCode(sym.name);
    }
    SymbolBack(s, Code(sym));
  }

  /** After J and K every symbol is reported in place: control codes, data symbols, and the bytes that
      pairs of nibbles make. */
  lemma {:induction false} SymbolsBack(s: State, syms: seq<Sym>)
    requires Aligned(s) && s.seenJ && s.seenK && forall i :: 0 <= i < |syms| ==> syms[i].Valid()
    ensures var (s1, e) := RecvAll(s, Encode(syms)); Aligned(s1) && s1.seenJ && s1.seenK && e == Reports(syms, s.last)
    decreases |syms|
  {
    hide Recv, Bits, Code, SymReports, Sym.Valid;
    if syms != [] {
      OneSymbolBack(s, syms[0]);
      SymbolsBack(s.(last := SymReports(syms[0], s.last).1), syms[1..]);
      RunJoin(Recv, s, Bits(Code(syms[0]), 5), Encode(syms[1..]));
    }
  }

  lemma {:induction false} FiveBits(bits: seq<Bit>)
    requires |bits| == 5
    ensures var v: seq<nat> := bits; Pack(bits) == 16 * v[0] + 8 * v[1] + 4 * v[2] + 2 * v[3] + v[4] < 32
  {
    var b4, b3, b2, b1 := bits[..4], bits[..3], bits[..2], bits[..1];
    assert b4[..3] == b3 && b3[..2] == b2 && b2[..1] == b1 && b1[..0] == [];
    var v: seq<nat> := bits;
    assert Pack(b1) == v[0];
    assert Pack(b2) == 2 * v[0] + v[1];
    assert Pack(b3) == 4 * v[0] + 2 * v[1] + v[2];
    assert Pack(b4) == 8 * v[0] + 4 * v[1] + 2 * v[2] + v[3];
  }

  /** The names stand for the symbols the decoder knows as control codes, and for no others. */
  lemma {:induction false} ControlCode(name: Name)
    ensures IsControl(SymbolOf(name)) && SymbolOf(name) < 32 && Bits(SymbolOf(name), 5) == ControlBits(name)
    ensures SymbolOf(name) == J <==> name == NameJ
    ensures SymbolOf(name) == K <==> name == NameK
  {
    hide Pack, Bits;
    FiveBits(ControlBits(name));
    BitsPack(ControlBits(name));
  }

  /** A symbol that is neither named nor data is passed over. */
  lemma {:induction false} OtherIgnored(s: State, code: nat)
    requires Aligned(s) && code in {1, 2, 3, 5, 8, 12, 16}
    ensures RecvAll(s, Bits(code, 5)) == (s, [])
  {
    hide RecvAll, Recv, Bits;
    SymbolBack(s, code);
  }

  lemma {:induction false} NibblesValid(bytes: seq<nat>)
    requires forall i :: 0 <= i < |bytes| ==> bytes[i] < 256
    ensures forall i :: 0 <= i < |Nibbles(bytes)| ==> Nibbles(bytes)[i].Valid()
    decreases |bytes|
  {
    if bytes != [] { NibblesValid(bytes[1..]); }
  }

  lemma {:induction false} TwoNibbles(b: nat, rest: seq<Sym>)
    ensures Reports([Nib(b % 16), Nib(b / 16)] + rest, None)
         == [DataSymbol(CodeGroup(b % 16), b % 16), DataSymbol(CodeGroup(b / 16), b / 16), Byte(b)] + Reports(rest, None)
  {
    hide CodeGroup;
    var low, high := b % 16, b / 16;
    var syms := [Nib(low), Nib(high)] + rest;
    assert syms[1..] == [Nib(high)] + rest && syms[1..][1..] == rest;
    assert Reports(syms[1..], Some(low)) == [DataSymbol(CodeGroup(high), high), Byte(16 * high + low)] + Reports(rest, None);
  }

  lemma {:induction false} OneByte(a: nat, x: nat, c: nat, y: nat, b: nat, tail: seq<Event>)
    ensures DataBytes([DataSymbol(a, x), DataSymbol(c, y), Byte(b)] + tail) == [b] + DataBytes(tail)
  {
    var e := [DataSymbol(a, x), DataSymbol(c, y), Byte(b)] + tail;
    assert e[1..] == [DataSymbol(c, y), Byte(b)] + tail && e[1..][1..] == [Byte(b)] + tail && e[1..][1..][1..] == tail;
    assert DataBytes([Byte(b)] + tail) == [b] + DataBytes(tail);
  }

  lemma {:induction false} NibblesReported(bytes: seq<nat>)
    ensures DataBytes(Reports(Nibbles(bytes), None)) == bytes
    decreases |bytes|
  {
    hide CodeGroup, Reports, DataBytes;
    if bytes == [] {
      NothingReported();
    } else {
      var b := bytes[0];
      NibblesReported(bytes[1..]);
      TwoNibbles(b, Nibbles(bytes[1..]));
      OneByte(CodeGroup(b % 16), b % 16, CodeGroup(b / 16), b / 16, b, Reports(Nibbles(bytes[1..]), None));
    }
  }

  lemma NothingReported()
    ensures DataBytes(Reports([], None)) == []
  {
  }

  /** The first bitOffset bits are skipped, whatever they are. */
  lemma {:induction false} OffsetSkipped(s: State, skip: seq<Bit>, bits: seq<Bit>)
    requires |skip| == s.bitOffset
    ensures RecvAll(s, skip + bits) == RecvAll(s.(bitOffset := 0), bits)
    decreases |skip|
  {
    if skip == [] {
      assert skip + bits == bits;
    } else {
      assert (skip + bits)[1..] == skip[1..] + bits;
      OffsetSkipped(s.(bitOffset := s.bitOffset - 1), skip[1..], bits);
      var e := RecvAll(s.(bitOffset := 0), bits).1;
      assert [] + e == e;
    }
  }

  /** No nibble is kept before both J and K were seen: data symbols in front of them leave nothing. */
  lemma {:induction false} NothingPending(s: State, bits: seq<Bit>)
    requires s.last.None?
    ensures var s1 := RecvAll(s, bits).0; !(s1.seenJ && s1.seenK) ==> s1.last.None?
    decreases |bits|
  {
    if bits != [] {
      var s1 := Recv(s, bits[0]).0;
      if s1.last.None? { NothingPending(s1, bits[1..]); } else { BothStay(s1, bits[1..]); }
    }
  }

  lemma {:induction false} BothStay(s: State, bits: seq<Bit>)
    requires s.seenJ && s.seenK
    ensures RecvAll(s, bits).0.seenJ && RecvAll(s, bits).0.seenK
    decreases |bits|
  {
    if bits != [] { BothStay(Recv(s, bits[0]).0, bits[1..]); }
  }

  lemma {:induction false} OneNibble(n: nat, rest: seq<Sym>, low: nat)
    ensures Reports([Nib(n)] + rest, Some(low)) == [DataSymbol(CodeGroup(n), n), Byte(16 * n + low)] + Reports(rest, None)
  {
    hide CodeGroup;
    assert ([Nib(n)] + rest)[1..] == rest;
  }

  /** With a nibble left over from before, J and K do not clear it: the bytes come out one nibble late. */
  function Late(bytes: seq<nat>, low: nat): seq<nat> {
    if bytes == [] then [] else [16 * (bytes[0] % 16) + low] + Late(bytes[1..], bytes[0] / 16)
  }

  lemma {:induction false} LateReported(bytes: seq<nat>, low: nat)
    ensures DataBytes(Reports(Nibbles(bytes), Some(low))) == Late(bytes, low)
    decreases |bytes|
  {
    hide CodeGroup;
    if bytes != [] {
      var b, rest := bytes[0], Nibbles(bytes[1..]);
      LateReported(bytes[1..], b / 16);
      var syms := [Nib(b % 16), Nib(b / 16)] + rest;
      assert syms == [Nib(b % 16)] + ([Nib(b / 16)] + rest);
      OneNibble(b % 16, [Nib(b / 16)] + rest, low);
      assert ([Nib(b / 16)] + rest)[1..] == rest;
      assert Reports([Nib(b / 16)] + rest, None) == [DataSymbol(CodeGroup(b / 16), b / 16)] + Reports(rest, Some(b / 16));
      var tail := Reports(rest, Some(b / 16));
      SkipSymbol(CodeGroup(b / 16), b / 16, tail);
      var e := [DataSymbol(CodeGroup(b / 16), b / 16)] + tail;
      TwoEvents(CodeGroup(b % 16), b % 16, 16 * (b % 16) + low, e);
    }
  }

  lemma {:induction false} SkipSymbol(a: nat, x: nat, tail: seq<Event>)
    ensures DataBytes([DataSymbol(a, x)] + tail) == DataBytes(tail)
  {
    assert ([DataSymbol(a, x)] + tail)[1..] == tail;
  }

  lemma {:induction false} TwoEvents(a: nat, x: nat, b: nat, tail: seq<Event>)
    ensures DataBytes([DataSymbol(a, x), Byte(b)] + tail) == [b] + DataBytes(tail)
  {
    var e := [DataSymbol(a, x), Byte(b)] + tail;
    assert e[1..] == [Byte(b)] + tail && e[1..][1..] == tail;
  }

  predicate AllAre(bytes: seq<nat>, v: nat) {
    forall i :: 0 <= i < |bytes| ==> bytes[i] == v
  }

  lemma {:induction false} AllAreSplit(bytes: seq<nat>, v: nat)
    requires bytes != []
    ensures AllAre(bytes, v) <==> bytes[0] == v && AllAre(bytes[1..], v)
  {
    if bytes[0] == v && AllAre(bytes[1..], v) {
      forall i | 0 <= i < |bytes| ensures bytes[i] == v {
        assert i > 0 ==> bytes[i] == bytes[1..][i - 1];
      }
    }
  }

  lemma LateByte(b: nat, low: nat)
    requires b < 256 && low < 16
    ensures b == 16 * (b % 16) + low <==> b == 17 * low
    ensures b == 17 * low ==> b / 16 == low
  {
  }

  lemma {:induction false} LateIff(bytes: seq<nat>, low: nat)
    requires low < 16 && forall i :: 0 <= i < |bytes| ==> bytes[i] < 256
    ensures Late(bytes, low) == bytes <==> AllAre(bytes, 17 * low)
    decreases |bytes|
  {
    hide AllAre;
    if bytes == [] {
      NoneAre(17 * low);
    } else {
      var b, rest := bytes[0], bytes[1..];
      LateIff(rest, b / 16);
      AllAreSplit(bytes, 17 * low);
      assert bytes == [b] + rest;
      LateByte(b, low);
    }
  }

  lemma NoneAre(v: nat)
    ensures AllAre([], v)
  {
  }

  /** J and K, wherever they come between two symbols. */
  lemma {:induction false} StartSeen(s: State)
    requires Aligned(s)
    ensures RecvAll(s, ControlBits(NameJ) + ControlBits(NameK))
         == (s.(seenJ := true, seenK := true), [Control(SymbolOf(NameJ)), Control(SymbolOf(NameK))])
  {
    hide Recv, Bits, SymbolOf, ControlBits, Run;
    ControlCode(NameJ);
    ControlCode(NameK);
    SymbolBack(s, J);
    SymbolBack(s.(seenJ := true), K);
    RunJoin(Recv, s, ControlBits(NameJ), ControlBits(NameK));
    assert EndSymbol(s.(symbol := J, bitCount := 5)) == (s.(seenJ := true), [Control(J)]);
    assert [Control(J)] + [Control(K)] == [Control(J), Control(K)];
  }

  lemma {:induction false} StartNoData(r: seq<Event>)
    ensures DataBytes([Control(SymbolOf(NameJ)), Control(SymbolOf(NameK))] + r) == DataBytes(r)
  {
    hide SymbolOf;
    var e := [Control(SymbolOf(NameJ)), Control(SymbolOf(NameK))] + r;
    assert e[1..] == [Control(SymbolOf(NameK))] + r && e[1..][1..] == r;
  }

  /** From anywhere between two symbols, J and K seen before or not, J, K and then any bytes: these bytes
      come back exactly when no nibble was left over, or every nibble is the one left over. */
  lemma {:induction false} BytesBackIff(s: State, bytes: seq<nat>)
    requires Aligned(s) && (s.last.Some? ==> s.last.nibble < 16) && forall i :: 0 <= i < |bytes| ==> bytes[i] < 256
    ensures var e := RecvAll(s, ControlBits(NameJ) + ControlBits(NameK) + Encode(Nibbles(bytes))).1;
            && e == [Control(SymbolOf(NameJ)), Control(SymbolOf(NameK))] + Reports(Nibbles(bytes), s.last)
            && (DataBytes(e) == bytes <==> s.last.None? || AllAre(bytes, 17 * s.last.nibble))
  {
    hide Recv, Bits, Encode, Nibbles, Reports, SymbolOf, ControlBits, DataBytes, Run;
    StartSeen(s);
    NibblesValid(bytes);
    SymbolsBack(s.(seenJ := true, seenK := true), Nibbles(bytes));
    RunJoin(Recv, s, ControlBits(NameJ) + ControlBits(NameK), Encode(Nibbles(bytes)));
    StartNoData(Reports(Nibbles(bytes), s.last));
    if s.last.None? {
      NibblesReported(bytes);
    } else {
      LateReported(bytes, s.last.nibble);
      LateIff(bytes, s.last.nibble);
    }
  }

  /** From the start: J, K and then any bytes. */
  lemma {:induction false} BytesBack(s: State, bytes: seq<nat>)
    requires Aligned(s) && s.last.None? && forall i :: 0 <= i < |bytes| ==> bytes[i] < 256
    ensures var e := RecvAll(s, ControlBits(NameJ) + ControlBits(NameK) + Encode(Nibbles(bytes))).1;
            && DataBytes(e) == bytes
            && e == [Control(SymbolOf(NameJ)), Control(SymbolOf(NameK))] + Reports(Nibbles(bytes), None)
  {
    hide RecvAll, Encode, Nibbles, Reports, SymbolOf, ControlBits, DataBytes;
    BytesBackIff(s, bytes);
  }

  // ----- Any bits -----

  /** Data is reported only behind a J and a K: the events are those of control codes up to some point
      where both have occurred, if there is one. */
  ghost predicate Guarded(s: State, e: seq<Event>, s1: State) {
    && (s1.seenJ <==> s.seenJ || Control(SymbolOf(NameJ)) in e) && (s1.seenK <==> s.seenK || Control(SymbolOf(NameK)) in e)
    && forall i :: 0 <= i < |e| && !e[i].Control? ==> (s.seenJ || Control(SymbolOf(NameJ)) in e[..i]) && (s.seenK || Control(SymbolOf(NameK)) in e[..i])
  }

  lemma {:induction false} NoDataBeforeJK(s: State, bits: seq<Bit>)
    ensures var (s1, e) := RecvAll(s, bits); Guarded(s, e, s1)
    decreases |bits|
  {
    ControlCode(NameJ);
    ControlCode(NameK);
    if bits != [] {
      var (s1, e1) := Recv(s, bits[0]);
      NoDataBeforeJK(s1, bits[1..]);
      var (s2, e2) := RecvAll(s1, bits[1..]);
      assert Guarded(s, e1, s1);
      hide Recv, RecvAll;
      GuardedJoin(s, e1, s1, e2, s2);
    }
  }

  lemma {:induction false} GuardedJoin(s: State, e1: seq<Event>, s1: State, e2: seq<Event>, s2: State)
    requires Guarded(s, e1, s1) && Guarded(s1, e2, s2)
    ensures Guarded(s, e1 + e2, s2)
  {
    var e := e1 + e2;
    forall i | 0 <= i < |e| && !e[i].Control?
      ensures (s.seenJ || Control(SymbolOf(NameJ)) in e[..i]) && (s.seenK || Control(SymbolOf(NameK)) in e[..i])
    {
      if i < |e1| {
        assert e[..i] == e1[..i];
      } else {
        assert e[..i] == e1 + e2[..i - |e1|];
      }
    }
  }

  // ----- The decoder's fields -----

  /** The decoder as it is, bit by bit. */
  class Decoder {
    var jkSeenJ: bool
    var jkSeenK: bool
    var symbol: nat
    var bitCount: nat
    var lastNibble: nat
    var hasLastNibble: bool
    var bitOffset: nat
    var reported: seq<Event>

    ghost function View(): State
      reads this
    {
      State(jkSeenJ, jkSeenK, symbol, bitCount, if hasLastNibble then Some(lastNibble) else None, bitOffset)
    }

    constructor (bitOffset: nat)
      ensures View() == State(false, false, 0, 0, None, bitOffset) && reported == []
    {
      jkSeenJ, jkSeenK, symbol, bitCount, lastNibble, hasLastNibble := false, false, 0, 0, 0, false;
      this.bitOffset, reported := bitOffset, [];
    }

    method SymbolReceived()
      modifies this
      ensures var r := EndSymbol(old(View())); View() == r.0 && reported == old(reported) + r.1
    {
      if IsControl(symbol) {
        jkSeenJ := symbol == J || jkSeenJ;
        jkSeenK := symbol == K || jkSeenK;
        reported := reported + [Control(symbol)];
      } else if symbol < 32 && DATA_SYM[symbol] >= 0 && jkSeenJ && jkSeenK {
        var nibble := DATA_SYM[symbol];
        if hasLastNibble {
          reported := reported + [DataSymbol(symbol, nibble), Byte(16 * nibble + lastNibble)];
          hasLastNibble := false;
        } else {
          reported := reported + [DataSymbol(symbol, nibble)];
          lastNibble, hasLastNibble := nibble, true;
        }
      }
      symbol, bitCount := 0, 0;
    }

    method RecvBit(b: Bit)
      modifies this
      ensures var r := Recv(old(View()), b); View() == r.0 && reported == old(reported) + r.1
    {
      hide EndSymbol;
      if bitOffset > 0 {
        bitOffset := bitOffset - 1;
        return;
      }
      symbol := 2 * symbol + b;
      bitCount := bitCount + 1;
      if bitCount == 5 {
        SymbolReceived();
      }
    }
  }
}
