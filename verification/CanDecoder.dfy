/** The decoder of can_c.c as it is: bit buffers of fixed size and counters, changed bit by bit. Every
    method is proved to do what the functions of module Can say. */
module CanDecoder {
  import opened BitStrings
  import opened Can
  import CanTiming

  function Bytes(s: State, len: nat): seq<nat> {
    seq(len, i requires i >= 0 => ByteAt(s, i))
  }

  function OneByte(s: State, i: nat): seq<Event> {
    if 8 * i + 7 < s.dataBits then [DataByte(i, ByteAt(s, i))] else []
  }

  lemma NextByte(s: State, i: nat, n: nat, before: seq<Event>)
    requires i < n
    ensures var s1 := s.(bytes := Bytes(s, i));
            && s1.bytes + [ByteAt(s1, i)] == Bytes(s, i + 1)
            && before + OneByte(s1, i) + DataBytes(s, i + 1, n) == before + DataBytes(s, i, n)
  {
    var s1 := s.(bytes := Bytes(s, i));
    assert ByteAt(s1, i) == ByteAt(s, i);
    hide ByteAt;
    assert OneByte(s1, i) + DataBytes(s, i + 1, n) == DataBytes(s, i, n);
    assert before + OneByte(s1, i) + DataBytes(s, i + 1, n) == before + (OneByte(s1, i) + DataBytes(s, i + 1, n));
  }

  lemma NoMoreBytes(s: State, n: nat, before: seq<Event>)
    ensures before + DataBytes(s, n, n) == before
  {
  }

  lemma SliceOfPrefix(s: seq<Bit>, n: nat, x: nat, y: nat)
    requires x <= y <= n <= |s|
    ensures s[..n][x..y] == s[x..y]
  {
  }

  class Decoder {
    var idle: bool
    const rawbits: array<Bit>
    var numRawbits: nat
    const bits: array<Bit>
    var numBits: nat
    var curbit: nat
    var frameType: FrameType
    var ident: nat
    var eid: nat
    var fullid: nat
    var remote: bool
    var dlc: nat
    var lastDatabit: nat
    var dlcStart: nat
    const frameBytes: array<nat>
    var numFrameBytes: nat
    var numDatabytebits: nat
    var crc: nat
    var domEdgeSnum: int
    var domEdgeBcount: nat
    var reported: seq<Event>

    ghost predicate Valid()
      reads this
    {
      && rawbits.Length == bits.Length == CAPACITY && frameBytes.Length == 64
      && rawbits != bits
      && numRawbits <= CAPACITY && numBits <= CAPACITY && numFrameBytes <= 64
    }

    ghost function Raw(): (r: seq<Bit>)
      requires numRawbits <= rawbits.Length
      reads this`numRawbits, rawbits
      ensures |r| == numRawbits
    {
      rawbits[..numRawbits]
    }

    ghost function Unstuffed(): (r: seq<Bit>)
      requires numBits <= bits.Length
      reads this`numBits, bits
      ensures |r| == numBits
    {
      bits[..numBits]
    }

    ghost function Payload(): (r: seq<nat>)
      requires numFrameBytes <= frameBytes.Length
      reads this`numFrameBytes, frameBytes
      ensures |r| == numFrameBytes
    {
      frameBytes[..numFrameBytes]
    }

    ghost function View(): (s: State)
      requires Valid()
      reads this, rawbits, bits, frameBytes
      ensures s.lastDatabit == lastDatabit && s.frameType == frameType && |s.bits| == numBits
      ensures s.idle == idle && s.curbit == curbit
    {
      State(idle, Raw(), Unstuffed(), curbit, frameType, ident, eid, fullid, remote, dlc,
            lastDatabit, dlcStart, Payload(), numDatabytebits, crc)
    }

    /** Zeroed memory. */
    constructor ()
      ensures Valid() && View() == Zeroed() && reported == []
      ensures fresh(rawbits) && fresh(bits) && fresh(frameBytes)
    {
      rawbits, bits, frameBytes := new Bit[CAPACITY], new Bit[CAPACITY], new nat[64];
      reported, domEdgeSnum, domEdgeBcount := [], 0, 0;
      idle, numRawbits, numBits, curbit, frameType, ident, eid, fullid := true, 0, 0, 0, Standard, 0, 0, 0;
      remote, dlc, lastDatabit, dlcStart, numFrameBytes, numDatabytebits, crc := false, 0, 0, 0, 0, 0, 0;
    }

    /** Empties the buffers. */
    method ClearBuffers()
      requires Valid()
      modifies this`numRawbits, this`numBits, this`numFrameBytes, this`numDatabytebits, this`curbit
      ensures Valid()
      ensures View() == old(View()).(raw := [], bits := [], bytes := [], dataBits := 0, curbit := 0)
    {
      numRawbits, numBits, numFrameBytes, numDatabytebits, curbit := 0, 0, 0, 0, 0;
      assert rawbits[..0] == [] && bits[..0] == [] && frameBytes[..0] == [];
    }

    method ClearIdentifiers()
      requires Valid()
      modifies this`ident, this`eid, this`fullid, this`crc, this`dlcStart
      ensures Valid()
      ensures View() == old(View()).(ident := 0, eid := 0, fullid := 0, crc := 0, dlcStart := 0)
    {
      hide Raw, Unstuffed, Payload;
      ident, eid, fullid, crc, dlcStart := 0, 0, 0, 0, 0;
    }

    method ClearFormat(toIdle: bool)
      requires Valid()
      modifies this`idle, this`frameType, this`remote, this`dlc, this`lastDatabit
      ensures Valid()
      ensures View() == old(View()).(idle := toIdle, frameType := Unknown, remote := false, dlc := 0, lastDatabit := 999)
    {
      hide Raw, Unstuffed, Payload;
      idle, frameType, remote, dlc, lastDatabit := toIdle, Unknown, false, 0, 999;
    }

    method ResetVariables()
      requires Valid()
      modifies this
      ensures Valid() && domEdgeSnum == old(domEdgeSnum) && domEdgeBcount == old(domEdgeBcount) && View() == Reset() && reported == old(reported)
    {
      hide Raw, Unstuffed, Payload;
      ClearBuffers();
      ClearIdentifiers();
      ClearFormat(true);
    }

    /** The start of a frame, on the falling edge that ends the idle state. */
    method BeginFrame()
      requires Valid()
      modifies this
      ensures Valid() && domEdgeSnum == old(domEdgeSnum) && domEdgeBcount == old(domEdgeBcount) && View() == Begin(old(View())) && reported == old(reported)
    {
      hide Raw, Unstuffed, Payload;
      ClearBuffers();
      ClearFormat(false);
    }

    method BitpackMsb(from: nat, count: nat) returns (val: nat)
      requires Valid() && from + count <= numBits && count <= 32
      ensures val == Pack(bits[from..from + count])
    {
      val := 0;
      for i := 0 to count
        invariant val == Pack(bits[from..from + i])
      {
        assert bits[from..from + i + 1][..i] == bits[from..from + i];
        val := 2 * val + bits[from + i];
      }
    }

    method StuffBitSeen() returns (stuff: bool)
      requires Valid()
      ensures stuff == IsStuffBit(View())
    {
      if numBits > lastDatabit + 17 || numRawbits < 6 {
        return false;
      }
      var x := numRawbits - 6;
      stuff := rawbits[x] == rawbits[x + 1] == rawbits[x + 2] == rawbits[x + 3] == rawbits[x + 4] != rawbits[x + 5];
    }

    method LastSeven() returns (recessive: bool)
      requires Valid()
      ensures recessive == LastSevenRecessive(Raw())
    {
      recessive := true;
      if numRawbits >= 7 {
        for i := numRawbits - 7 to numRawbits
          invariant recessive <==> forall k :: numRawbits - 7 <= k < i ==> rawbits[k] == 1
        {
          recessive := recessive && rawbits[i] == 1;
        }
      }
    }

    method CrcSequence() returns (val: nat)
      requires Valid()
      ensures var x := lastDatabit + 1;
              val == if x + CRC_LEN <= numBits then Pack(View().bits[x..x + CRC_LEN]) else crc
    {
      var x := lastDatabit + 1;
      val := crc;
      if x + CRC_LEN <= numBits {
        val := BitpackMsb(x, CRC_LEN);
        SliceOfPrefix(bits[..], numBits, x, x + CRC_LEN);
        assert Unstuffed() == bits[..][..numBits];
        assert bits[x..x + CRC_LEN] == bits[..][x..x + CRC_LEN];
      }
    }

    method DecodeFrameEnd(b: Bit, bitnum: nat) returns (done: bool)
      requires Valid()
      modifies this
      ensures Valid() && domEdgeSnum == old(domEdgeSnum) && domEdgeBcount == old(domEdgeBcount)
      ensures var r := DecodeEnd(old(View()), b, bitnum);
              View() == r.0 && reported == old(reported) + r.1 && done == r.2
    {
      hide Raw, Unstuffed, Payload, Pack, LastSevenRecessive;
      done := false;
      if bitnum == lastDatabit + CRC_LEN {
        crc := CrcSequence();
        reported := reported + [Crc(crc)];
      } else if bitnum == lastDatabit + CRC_LEN + 1 {
        reported := reported + [CrcDelimiter(b)];
      } else if bitnum == lastDatabit + CRC_LEN + 2 {
        reported := reported + [AckSlot(b)];
      } else if bitnum == lastDatabit + CRC_LEN + 3 {
        reported := reported + [AckDelimiter(b)];
      } else if bitnum == lastDatabit + CRC_LEN + 10 {
        var recessive := LastSeven();
        reported := reported + [EndOfFrame(recessive), Frame(frameType.Standard?, fullid, remote, dlc)];
        ResetVariables();
        done := true;
      }
    }

    /** A payload byte; 0 where bits are missing. */
    method FrameByte(i: nat) returns (b: nat)
      requires Valid()
      ensures b == ByteAt(View(), i)
    {
      var x := dlcStart + 4 + 8 * i;
      b := 0;
      if x + 8 <= numBits {
        b := BitpackMsb(x, 8);
        assert Unstuffed()[x..x + 8] == bits[x..x + 8];
      }
    }

    method CollectByte(i: nat)
      requires Valid() && numFrameBytes == i < 64
      modifies this`numFrameBytes, this`reported, frameBytes
      ensures Valid()
      ensures View() == old(View()).(bytes := old(View()).bytes + [ByteAt(old(View()), i)])
      ensures reported == old(reported) + OneByte(old(View()), i)
    {
      var b := FrameByte(i);
      hide Raw, Unstuffed, ByteAt;
      frameBytes[i] := b;
      numFrameBytes := i + 1;
      if 8 * i + 7 < numDatabytebits {
        reported := reported + [DataByte(i, b)];
      }
    }

    /** The payload bytes and their annotations, once the last data bit is there. */
    method CollectBytes(len: nat)
      requires Valid() && len <= 8
      modifies this`numFrameBytes, this`reported, frameBytes
      ensures Valid()
      ensures View() == old(View()).(bytes := Bytes(old(View()), len))
      ensures reported == old(reported) + DataBytes(old(View()), 0, len)
    {
      ghost var s, before := View(), reported;
      ghost var all := DataBytes(s, 0, len);
      numFrameBytes := 0;
      assert View() == s.(bytes := Bytes(s, 0));
      hide View, DataBytes, ByteAt, Bytes, OneByte;
      for i := 0 to len
        invariant Valid() && numFrameBytes == i
        invariant View() == s.(bytes := Bytes(s, i))
        invariant reported + DataBytes(s, i, len) == before + all
      {
        NextByte(s, i, len, reported);
        CollectByte(i);
      }
      NoMoreBytes(s, len, reported);
    }

    method DecodeDataField(bitnum: nat)
      requires Valid()
      modifies this`numDatabytebits, this`numFrameBytes, this`reported, frameBytes
      ensures Valid()
      ensures var r := DecodeData(old(View()), bitnum);
              View() == r.0 && reported == old(reported) + r.1
    {
      hide Raw, Unstuffed, Payload;
      if dlcStart + 3 < bitnum < lastDatabit {
        numDatabytebits := Count(numDatabytebits);
      }
      if bitnum == lastDatabit && dlc > 0 {
        numDatabytebits := Count(numDatabytebits);
        CollectBytes(Min(DlcToLen(dlc), 8));
        numDatabytebits := 0;
      }
    }

    method LengthCode() returns (code: nat)
      requires Valid()
      ensures code == if dlcStart + 4 <= numBits then Pack(View().bits[dlcStart..dlcStart + 4]) else dlc
    {
      code := dlc;
      if dlcStart + 4 <= numBits {
        code := BitpackMsb(dlcStart, 4);
        assert Unstuffed()[dlcStart..dlcStart + 4] == bits[dlcStart..dlcStart + 4];
      }
    }

    /** The part of both frame formats that reads the data length code. */
    method DecodeLengthCode(bitnum: nat)
      requires Valid()
      modifies this`dlc, this`lastDatabit, this`reported
      ensures Valid()
      ensures var r := DecodeLength(old(View()), bitnum);
              View() == r.0 && reported == old(reported) + r.1
    {
      if bitnum == dlcStart + 3 {
        var code := LengthCode();
        hide Raw, Unstuffed, Payload, Pack, DlcToLen;
        var used := if code != 0 && remote then 0 else if code > 8 then 8 else code;
        dlc, lastDatabit := used, dlcStart + 3 + DlcToLen(used) * 8;
        reported := reported + [DataLength(code)];
      }
    }

    method DecodeStandardFrame(b: Bit, bitnum: nat)
      requires Valid() && 13 < bitnum == numBits - 1
      modifies this`remote, this`dlcStart, this`reported
      ensures Valid()
      ensures var r := DecodeStandard(old(View()), b, bitnum);
              View() == r.0 && reported == old(reported) + r.1
    {
      hide Raw, Payload;
      if bitnum == 14 {
        remote := bits[12] == 1;
        reported := reported + [Reserved(0, b), Rtr(remote)];
        dlcStart := 15;
      }
    }

    method ExtendedIdentifier() returns (id: nat)
      requires Valid() && numBits == 32
      ensures id == Pack(View().bits[14..])
    {
      id := BitpackMsb(14, numBits - 14);
      assert Unstuffed()[14..] == bits[14..numBits];
    }

    method DecodeExtendedFrame(b: Bit, bitnum: nat)
      requires Valid() && 13 < bitnum == numBits - 1
      modifies this`remote, this`dlcStart, this`eid, this`fullid, this`reported
      ensures Valid()
      ensures var r := DecodeExtended(old(View()), b, bitnum);
              View() == r.0 && reported == old(reported) + r.1
    {
      hide Raw, Payload, Pack;
      if bitnum == 14 {
        dlcStart := 35;
      } else if bitnum == 31 {
        var id := ExtendedIdentifier();
        var srr := bits[12];
        hide Unstuffed;
        eid, fullid := id, ident * 0x40000 + id;
        reported := reported + [FullId(eid, fullid), Srr(srr)];
      } else if bitnum == 32 {
        remote := b == 1;
        reported := reported + [Rtr(remote)];
      } else if bitnum > 32 {
        ReservedBit(b, bitnum);
      }
    }

    method ReservedBit(b: Bit, bitnum: nat)
      modifies this`reported
      ensures reported == old(reported) + if bitnum == 33 then [Reserved(1, b)] else if bitnum == 34 then [Reserved(0, b)] else []
    {
      if bitnum == 33 {
        reported := reported + [Reserved(1, b)];
      } else if bitnum == 34 {
        reported := reported + [Reserved(0, b)];
      }
    }

    /** The fields of a frame bit from the fourteenth on, up to the data field. */
    method DecodeFields(b: Bit, bitnum: nat)
      requires Valid() && 13 < bitnum == numBits - 1
      modifies this`remote, this`dlcStart, this`eid, this`fullid, this`reported, this`dlc, this`lastDatabit
      modifies this`numDatabytebits, this`numFrameBytes, frameBytes
      ensures Valid()
      ensures var s := old(View());
              var (s1, e1) := if s.frameType.Standard? then DecodeStandard(s, b, bitnum) else DecodeExtended(s, b, bitnum);
              var (s2, e2) := DecodeLength(s1, bitnum);
              var (s3, e3) := DecodeData(s2, bitnum);
              View() == s3 && reported == old(reported) + (e1 + e2 + e3)
    {
      hide View, Raw, Unstuffed, Payload, DecodeStandard, DecodeExtended, DecodeLength, DecodeData, SameBits;
      if frameType.Standard? {
        DecodeStandardFrame(b, bitnum);
      } else {
        DecodeExtendedFrame(b, bitnum);
      }
      DecodeLengthCode(bitnum);
      DecodeDataField(bitnum);
    }

    /** What is done for every frame bit from the fourteenth on. */
    method DecodeFrameBit(b: Bit, bitnum: nat) returns (done: bool)
      requires Valid() && 13 < bitnum == numBits - 1 && !frameType.Unknown?
      modifies this, frameBytes
      ensures Valid() && domEdgeSnum == old(domEdgeSnum) && domEdgeBcount == old(domEdgeBcount)
      ensures var r := Decode(old(View()), b, bitnum);
              View() == r.0 && reported == old(reported) + r.1 && done == r.2
    {
      hide View, Raw, Unstuffed, Payload, DecodeStandard, DecodeExtended, DecodeLength, DecodeData, DecodeEnd, SameBits;
      DecodeFields(b, bitnum);
      done := false;
      if bitnum > lastDatabit {
        done := DecodeFrameEnd(b, bitnum);
      }
    }

    method PushBit(b: Bit)
      requires Valid()
      modifies this`numRawbits, this`numBits, rawbits, bits
      ensures Valid()
      ensures View() == old(View()).(raw := Push(old(View()).raw, b), bits := Push(old(View()).bits, b))
    {
      hide Payload;
      if numRawbits < CAPACITY {
        rawbits[numRawbits] := b;
        numRawbits := numRawbits + 1;
      }
      if numBits < CAPACITY {
        bits[numBits] := b;
        numBits := numBits + 1;
      }
    }

    method Identifier() returns (id: nat)
      requires Valid() && numBits > 11
      ensures id == Pack(View().bits[1..12])
    {
      id := BitpackMsb(1, 11);
      assert Unstuffed()[1..12] == bits[1..12];
    }

    /** Identifier and identifier extension bit. */
    method DecodeHeaderBit(b: Bit, bitnum: nat)
      requires Valid() && bitnum == numBits - 1 && (bitnum < 14 || frameType.Unknown?)
      modifies this`ident, this`fullid, this`frameType, this`reported
      ensures Valid()
      ensures var r := Decode(old(View()), b, bitnum);
              View() == r.0 && reported == old(reported) + r.1 && !r.2
    {
      hide Raw, Payload, Pack, DecodeStandard, DecodeExtended, DecodeLength, DecodeData, DecodeEnd;
      if bitnum == 11 {
        var id := Identifier();
        hide Unstuffed;
        ident, fullid := id, id;
        reported := reported + [Ident(id)];
      } else if bitnum == 13 {
        hide Unstuffed;
        frameType := if b == 0 then Standard else FrameType.Extended;
        reported := reported + [Ide(b != 0)];
      }
    }

    /** Everything done for an unstuffed bit. */
    method DecodeBit(b: Bit, bitnum: nat) returns (done: bool)
      requires Valid() && bitnum == numBits - 1
      modifies this, frameBytes
      ensures Valid() && domEdgeSnum == old(domEdgeSnum) && domEdgeBcount == old(domEdgeBcount)
      ensures var r := Decode(old(View()), b, bitnum);
              View() == r.0 && reported == old(reported) + r.1 && done == r.2
    {
      hide View, Decode;
      if bitnum < 14 || frameType.Unknown? {
        DecodeHeaderBit(b, bitnum);
        done := false;
      } else {
        done := DecodeFrameBit(b, bitnum);
      }
    }

    method DropBit()
      requires Valid() && numBits > 0
      modifies this`numBits, this`curbit
      ensures Valid()
      ensures View() == old(View()).(bits := old(View()).bits[..old(numBits) - 1], curbit := old(curbit) + 1)
    {
      hide Raw, Payload;
      numBits, curbit := numBits - 1, curbit + 1;
    }

    /** A bit that is no stuff bit. */
    method KeepBit(b: Bit)
      requires Valid() && numBits > 0
      modifies this, frameBytes
      ensures Valid() && domEdgeSnum == old(domEdgeSnum) && domEdgeBcount == old(domEdgeBcount)
      ensures var n := |old(View()).bits| - 1; var r := Decode(old(View()), b, n);
              && View() == (if r.2 then r.0 else r.0.(curbit := r.0.curbit + 1))
              && reported == old(reported) + ([Sampled(n)] + r.1)
    {
      hide Raw, Unstuffed, Payload, Decode, Reset;
      reported := reported + [Sampled(numBits - 1)];
      var done := DecodeBit(b, numBits - 1);
      if !done {
        curbit := curbit + 1;
      }
    }

    method HandleBit(b: Bit)
      requires Valid()
      modifies this, rawbits, bits, frameBytes
      ensures Valid() && domEdgeSnum == old(domEdgeSnum) && domEdgeBcount == old(domEdgeBcount)
      ensures var r := Can.HandleBit(old(View()), b);
              View() == r.0 && reported == old(reported) + r.1
    {
      hide Raw, Unstuffed, Payload, Decode, IsStuffBit, Push, Reset;
      PushBit(b);
      var stuff := StuffBitSeen();
      if stuff {
        reported := reported + [Stuffed(numRawbits - 1)];
        DropBit();
      } else {
        KeepBit(b);
      }
    }

    /** The decoder between two waits, standing at sample now. */
    ghost function LoopView(now: int): CanTiming.Loop
      requires Valid()
      reads this, rawbits, bits, frameBytes
    {
      CanTiming.Loop(View(), now, domEdgeSnum, domEdgeBcount)
    }

    method DomEdgeSeen(samplenum: int)
      requires Valid()
      modifies this`domEdgeSnum, this`domEdgeBcount
      ensures Valid() && View() == old(View()) && domEdgeSnum == samplenum && domEdgeBcount == curbit
    {
      hide Raw, Unstuffed, Payload;
      domEdgeSnum, domEdgeBcount := samplenum, curbit;
    }

    /** The decode loop's body after a successful wait. */
    method WakeUp(w: CanTiming.Wake, level: Bit, ghost now: int)
      requires Valid() && w.Woken?
      modifies this, rawbits, bits, frameBytes
      ensures Valid()
      ensures var r := CanTiming.WakeUp(old(LoopView(now)), w, level);
              LoopView(w.t) == r.0 && reported == old(reported) + r.1
    {
      hide Raw, Unstuffed, Payload, Can.HandleBit, Begin;
      assert reported + [] == reported;
      if idle {
        DomEdgeSeen(w.t);
        BeginFrame();
      } else {
        if w.edge {
          DomEdgeSeen(w.t);
        }
        if w.due {
          HandleBit(level);
        }
      }
    }
  }
}
