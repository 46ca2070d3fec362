/** A decoder instance as instance.c and c_decoder_api.c have it: fields updated in place under the
    mutex. The scanning methods are proved to do what the functions of module Scanner say, and each
    critical section to be a step of module Handshake. */
module ScannerInstance {
  import opened BitStrings
  import opened Scanner
  import Handshake

  type Byte = b: nat | b < 256

  /** A channel's entry in inbuf: NULL, or eight samples a byte, the first in the lowest bit. */
  datatype Buffer = Null | Packed(bytes: seq<Byte>)

  function BitAt(bytes: seq<Byte>, off: nat): nat
    requires off < 8 * |bytes|
  {
    BitOf(bytes[off / 8], off % 8)
  }

  /** The samples a fed buffer stands for. */
  function Unpacked(start: U64, end: U64, inbuf: seq<Buffer>, constants: seq<Byte>): (c: Chunk)
    requires start <= end && Covers(end - start, inbuf, constants)
    ensures forall ch :: ch in c.fixed <==> 0 <= ch < |inbuf| && inbuf[ch].Null?
    ensures forall ch :: ch in c.fixed ==> c.fixed[ch] == if constants[ch] != 0 then 1 else 0
    ensures c.start == start && c.end == end
    ensures forall t: nat, ch :: c.Has(t) && 0 <= ch < |inbuf| && inbuf[ch].Packed? ==>
                              c.Level(t, ch) == BitAt(inbuf[ch].bytes, t - start)
  {
    Chunk(start, end,
          seq(end - start, i requires 0 <= i < end - start =>
            seq(|inbuf|, ch requires 0 <= ch < |inbuf| => if inbuf[ch].Packed? then BitAt(inbuf[ch].bytes, i) else 0)),
          map ch | 0 <= ch < |inbuf| && inbuf[ch].Null? :: if constants[ch] != 0 then 1 else 0)
  }

  /** What a caller of fetch has in hand, sample by sample: for a channel that is connected, bit m of its
      buffer, or its constant, is the level of sample m behind the first one of the byte; for any other
      no buffer and 0xFF. */
  lemma {:induction false} HandedOut(c: Chunk, channelMap: seq<int>, ch: int, byte: nat, slot: Slot, m: nat)
    requires SlotIs(slot, Handshake.SlotOf(c, Connected(channelMap, ch), byte)) && c.start + 8 * byte + m < c.end
    ensures if 0 <= ch < |channelMap| && channelMap[ch] >= 0 then
              match slot.buffer
              case Null => ch in c.fixed && slot.value == c.Level(c.start + 8 * byte + m, ch)
              case Packed(bytes) =>
                ch !in c.fixed && m < 8 * |bytes| && BitAt(bytes, m) == c.Level(c.start + 8 * byte + m, ch)
            else slot.buffer == Null && slot.value == 0xFF
  {
    hide BitAt;
  }

  // ----- Packing samples into bytes -----

  /** The levels of a channel packed as a caller has to: eight a byte, the first in the lowest bit, the rest
      of the last byte filled with zeros. */
  function PackedLevels(levels: seq<Bit>): (bytes: seq<Byte>)
    ensures 8 * |bytes| >= |levels|
  {
    if levels == [] then []
    else if |levels| < 8 then [ByteOf(levels + seq(8 - |levels|, _ => 0))]
    else [ByteOf(levels[..8])] + PackedLevels(levels[8..])
  }

  function ByteOf(levels: seq<Bit>): Byte
    requires |levels| == 8
  {
    assert Pow2(8) == 16 * Pow2(4) && Pow2(4) == 16;
    FromBits(levels)
  }

  /** Every level comes back from its place. */
  lemma {:induction false} PackedBack(levels: seq<Bit>, k: nat)
    requires k < |levels|
    ensures BitAt(PackedLevels(levels), k) == levels[k]
    decreases |levels|
  {
    if |levels| < 8 {
      BitOfFromBits(levels + seq(8 - |levels|, _ => 0), k);
    } else if k < 8 {
      BitOfFromBits(levels[..8], k);
    } else {
      PackedBack(levels[8..], k - 8);
      var rest := PackedLevels(levels[8..]);
      assert PackedLevels(levels)[k / 8] == rest[(k - 8) / 8];
    }
  }

  /** A chunk of channels packed so, or constant, has exactly their levels. */
  lemma {:induction false} LevelsUnpacked(start: U64, end: U64, inbuf: seq<Buffer>, constants: seq<Byte>,
      ch: nat, levels: seq<Bit>, t: nat)
    requires start <= t < end && Covers(end - start, inbuf, constants) && ch < |inbuf| && |levels| == end - start
    ensures inbuf[ch] == Packed(PackedLevels(levels)) ==>
              Unpacked(start, end, inbuf, constants).Level(t, ch) == levels[t - start]
    ensures inbuf[ch] == Null ==>
              Unpacked(start, end, inbuf, constants).Level(t, ch) == if constants[ch] == 0 then 0 else 1
  {
    PackedBack(levels, t - start);
    assert Unpacked(start, end, inbuf, constants).Has(t);
  }

  /** The chunk of a call, which is not accepted when it ends before it starts. */
  function FedChunk(start: U64, end: U64, inbuf: seq<Buffer>, constants: seq<Byte>): Chunk
    requires start <= end ==> Covers(end - start, inbuf, constants)
  {
    if start <= end then Unpacked(start, end, inbuf, constants) else Chunk(start, end, [], map[])
  }

  /** The packed buffers are long enough for n samples. */
  predicate Covers(n: nat, inbuf: seq<Buffer>, constants: seq<Byte>) {
    |constants| == |inbuf| && forall ch :: 0 <= ch < |inbuf| && inbuf[ch].Packed? ==> n <= 8 * |inbuf[ch].bytes|
  }

  /** What fetch hands out for one channel: a buffer from a byte on, or a constant. */
  datatype Slot = Slot(buffer: Buffer, value: Byte)

  /** The entry is that of the two-thread model's view: 0xFF and no buffer for a channel that is not
      connected, a constant's level, or a buffer with the view's bits. */
  ghost predicate SlotIs(slot: Slot, v: Handshake.Slot) {
    match v
    case Absent => slot == Slot(Null, 0xFF)
    case Constant(level) => slot.buffer.Null? && slot.value == level
    case Bits(bits) => slot.buffer.Packed? && slot.value == 0 && HasBits(slot.buffer.bytes, bits)
  }

  ghost predicate HasBits(bytes: seq<Byte>, bits: seq<nat>) {
    |bits| <= 8 * |bytes| && forall m :: 0 <= m < |bits| ==> BitAt(bytes, m) == bits[m]
  }

  ghost predicate SlotsAre(slots: seq<Slot>, v: seq<Handshake.Slot>) {
    |slots| == |v| && forall i :: 0 <= i < |slots| ==> SlotIs(slots[i], v[i])
  }

  /** What fetch hands out is the view v. */
  ghost predicate ViewIs(v: Handshake.View, start: nat, count: nat, bitOffset: nat, slots: seq<Slot>) {
    v.start == start && v.count == count && v.bitOffset == bitOffset && SlotsAre(slots, v.slots)
  }

  /** A requested channel as the model has it: negative when it is not connected. */
  function Connected(channelMap: seq<int>, ch: int): int {
    if ch < 0 || ch >= |channelMap| || channelMap[ch] < 0 then -1 else ch
  }

  function AllConnected(channelMap: seq<int>, channels: seq<int>): seq<int> {
    seq(|channels|, i requires 0 <= i < |channels| => Connected(channelMap, channels[i]))
  }

  /** Reading on from a later byte. */
  lemma BitFromByte(bytes: seq<Byte>, off: nat, k: nat)
    requires off + k < 8 * |bytes|
    ensures off / 8 <= |bytes| && off % 8 + k < 8 * |bytes[off / 8..]|
    ensures BitAt(bytes[off / 8..], off % 8 + k) == BitAt(bytes, off + k)
  {
    assert (off + k) / 8 == off / 8 + (off % 8 + k) / 8;
    assert (off + k) % 8 == (off % 8 + k) % 8;
  }

  /** What a scan of the two-thread model leaves in the fields under the mutex. */
  lemma ScanFields(s: Handshake.State)
    ensures var (st, found) := FindMatch(true, s.chunk, s.scan); var s1 := Handshake.StepScan(s);
            if Faults(s.chunk, s.scan) then s1.crashed
            else if found then
              s1.got == s.got && s1.handled == s.handled && s1.term == s.term && s1.chunk == s.chunk && s1.scan == st.(first := false)
            else !s1.got && s1.handled && s1.term == s.term && s1.scan == st
  {
    hide FindMatch, Faults, EventOf, Handshake.SignalHandled;
  }

  /** What a fetch leaves there, once it is done waiting. */
  lemma FetchFields(s: Handshake.State)
    requires s.worker.Testing? && s.worker.call.FetchUpTo? && (s.got || s.term)
    ensures var s1 := Handshake.StepTest(s);
            && s1.got == s.got && s1.handled == s.handled && s1.term == s.term && s1.chunk == s.chunk
            && (if s.term || s.scan.cur >= s.chunk.end || s.chunk.start >= s.chunk.end then !s1.worker.Reading? && s1.scan == s.scan
                else
                  && s1.scan == s.scan.(first := false)
                  && s1.worker == Handshake.Reading(Handshake.Fetched(s.chunk, s.scan.cur, s.worker.call.channels, s.worker.call.max)))
  {
    hide Handshake.Fetched;
  }

  /** What consuming leaves there. */
  lemma ConsumeFields(s: Handshake.State, n: U64)
    requires n > 0
    ensures var s1, cur := Handshake.StepConsume(s, n), Handshake.Beyond(s.scan.cur, n);
            && s1.term == s.term
            && (if !s.got || n > Handshake.Behind(s.scan.cur, s.chunk.end) then
                  s1.got == s.got && s1.handled == s.handled && s1.chunk == s.chunk && s1.scan == s.scan
                else
                  && s1.scan == s.scan.(cur := cur, matched := false)
                  && (if cur >= s.chunk.end || s.term then !s1.got && s1.handled
                      else s1.got == s.got && s1.handled == s.handled && s1.chunk == s.chunk))
  {
    hide Handshake.Beyond, Handshake.Behind, Handshake.SignalHandled;
  }

  /** The view from a scan position, put together. */
  lemma FetchedIs(c: Chunk, cur: nat, start: nat, channels: seq<int>, max: nat, count: nat, slots: seq<Slot>)
    requires cur < c.end && c.start < c.end && start == (if cur < c.start then c.start else cur)
    requires count == (if c.end - start < max then c.end - start else max) && |slots| == |channels|
    requires forall i :: 0 <= i < |channels| ==> SlotIs(slots[i], Handshake.SlotOf(c, channels[i], (start - c.start) / 8))
    ensures ViewIs(Handshake.Fetched(c, cur, channels, max), start, count, (start - c.start) % 8, slots)
  {
    hide SlotIs, Handshake.SlotOf;
  }

  class Instance {
    var absStart: U64
    var absEnd: U64
    var inbuf: seq<Buffer>
    var inbufConst: seq<Byte>
    var absCur: U64
    var absCurMatched: bool
    var skipZero: bool
    var firstPos: bool
    /** old_pins_array, NULL between a reset and its first use. */
    var oldPins: array?<nat>
    var conditions: seq<Group>
    var matchArray: set<nat>
    var gotNewSamples: bool
    var handledAllSamples: bool
    var wantWaitTerminate: bool
    /** dec_channelmap: negative for a channel that is not connected. */
    const channelMap: seq<int>

    /** A new instance after start(): the initial pins are those of sample 0. */
    constructor (dec_channelmap: seq<int>)
      ensures Valid() && channelMap == dec_channelmap && fresh(Pins())
      ensures Matches(Handshake.Initial(Handshake.NewInstance(|dec_channelmap|)))
    {
      var n := |dec_channelmap|;
      channelMap, oldPins := dec_channelmap, new nat[n](_ => SAME_AS_SAMPLE0);
      absStart, absEnd, absCur, absCurMatched, skipZero, firstPos := 0, 0, 0, false, false, true;
      inbuf, inbufConst, conditions, matchArray := seq(n, _ => Null), seq(n, _ => 0), [], {};
      gotNewSamples, handledAllSamples, wantWaitTerminate := false, false, false;
      new;
      assert oldPins[..] == Handshake.Unset(n);
    }

    ghost predicate Valid()
      reads this
    {
      && absStart <= absEnd
      && |inbuf| == |inbufConst| == |channelMap|
      && (oldPins != null ==> oldPins.Length == |channelMap|)
      && (forall ch :: 0 <= ch < |inbuf| && inbuf[ch].Packed? ==> absEnd - absStart <= 8 * |inbuf[ch].bytes|)
      && (forall j, k :: 0 <= j < |conditions| && 0 <= k < |conditions[j]| && !conditions[j][k].Skip? ==>
            conditions[j][k].ch < |channelMap|)
      && |conditions| <= 31
    }

    /** The array that is there. */
    ghost function Pins(): set<object>
      reads this`oldPins
    {
      if oldPins == null then {} else {oldPins}
    }

    ghost function Remembered(): (p: Scanner.Pins)
      reads this, Pins()
    {
      if oldPins == null then Handshake.Unset(|channelMap|) else oldPins[..]
    }

    ghost function Samples(): (c: Chunk)
      requires Valid()
      reads this
    {
      Unpacked(absStart, absEnd, inbuf, inbufConst)
    }

    ghost function View(): Scan
      reads this, Pins()
    {
      Scan(absCur, absCurMatched, skipZero, firstPos, Remembered(), oldPins == null, conditions, matchArray)
    }

    /** The level of a channel at the current sample; a packed channel reads as 0 out of range. */
    method ReadPin(ch: nat) returns (sample: nat)
      requires Valid() && ch < |channelMap|
      ensures sample == Samples().Level(absCur, ch)
      ensures inbuf[ch].Null? ==> sample == if inbufConst[ch] == 0 then 0 else 1
      ensures inbuf[ch].Packed? && !(absStart <= absCur < absEnd) ==> sample == 0
      ensures forall levels: seq<Bit> ::
                absStart <= absCur < absEnd && |levels| == absEnd - absStart && inbuf[ch] == Packed(PackedLevels(levels)) ==>
                sample == levels[absCur - absStart]
    {
      hide PackedLevels, BitAt, Unpacked;
      if inbuf[ch].Null? {
        sample := if inbufConst[ch] != 0 then 1 else 0;
      } else if absCur < absStart || absCur >= absEnd {
        sample := 0;
      } else {
        sample := BitAt(inbuf[ch].bytes, absCur - absStart);
        assert Samples().Has(absCur);
        forall levels: seq<Bit> | |levels| == absEnd - absStart && inbuf[ch] == Packed(PackedLevels(levels))
          ensures sample == levels[absCur - absStart]
        {
          PackedBack(levels, absCur - absStart);
        }
      }
    }

    /** oldpins_array_seed: an array that is missing is made, the pins being those of sample 0. */
    method SeedOldPins()
      requires Valid()
      modifies this`oldPins
      ensures Valid() && oldPins != null && (oldPins == old(oldPins) || fresh(oldPins))
      ensures oldPins[..] == old(Remembered())
    {
      if oldPins == null {
        oldPins := new nat[|channelMap|](_ => SAME_AS_SAMPLE0);
        assert oldPins[..] == Handshake.Unset(|channelMap|);
      }
    }

    method UpdateOldPins()
      requires Valid()
      modifies this`oldPins, Pins()
      ensures Valid() && oldPins != null && (oldPins == old(oldPins) || fresh(oldPins))
      ensures oldPins[..] == PinsAt(Samples(), absCur, |channelMap|)
    {
      SeedOldPins();
      var a := oldPins;
      for ch := 0 to a.Length
        invariant oldPins == a && Valid()
        invariant forall i :: 0 <= i < ch ==> a[i] == Samples().Level(absCur, i)
      {
        a[ch] := ReadPin(ch);
      }
    }

    method UpdateInitialPins()
      requires Valid()
      modifies this`oldPins, Pins()
      ensures Valid() && oldPins != null && (oldPins == old(oldPins) || fresh(oldPins))
      ensures oldPins[..] == InitialPins(Samples(), absCur, old(Remembered()))
      ensures forall ch :: 0 <= ch < |channelMap| ==>
                oldPins[ch] == if old(Remembered())[ch] == 2 then Samples().Level(absCur, ch) else old(Remembered())[ch]
    {
      ghost var before := Remembered();
      SeedOldPins();
      var a := oldPins;
      assert forall i :: 0 <= i < a.Length ==> a[i] == a[..][i];
      for ch := 0 to a.Length
        invariant oldPins == a && Valid()
        invariant forall i :: 0 <= i < ch ==> a[i] == InitialPins(Samples(), absCur, before)[i]
        invariant forall i :: ch <= i < a.Length ==> a[i] == before[i]
      {
        if a[ch] == SAME_AS_SAMPLE0 {
          a[ch] := ReadPin(ch);
        }
      }
    }

    /** st has the fields that evaluating a term looks at. */
    ghost predicate Sees(st: Scan)
      reads this, Pins()
    {
      absCur == st.cur && absCurMatched == st.matched && Remembered() == st.prev
    }

    /** A fault is a read through old_pins_array while it is missing. */
    method TermMatches(j: nat, k: nat, ghost st: Scan) returns (ok: bool, skipAllow: bool, fault: bool)
      requires Valid() && j < |conditions| && k < |conditions[j]| && Sees(st)
      modifies this`skipZero, this`conditions
      ensures Valid() && (fault ==> conditions == old(conditions))
      ensures var t := old(conditions[j][k]); fault <==> oldPins == null && !t.Skip? && (t.ch in Samples().fixed || Samples().Has(absCur))
      ensures !fault ==>
                var r := TermAt(Samples(), st, old(skipZero), old(conditions[j][k]));
                && ok == r.ok && skipAllow == r.skip && skipZero == r.zero
                && conditions == old(conditions)[j := old(conditions[j])[k := r.term]]
    {
      ghost var before := conditions;
      var t := conditions[j][k];
      assert before[j := before[j][k := t]] == before by {
        assert before[j][k := t] == before[j] && before[j := before[j]] == before;
      }
      skipAllow, fault := false, false;
      if t.Skip? {
        if absCurMatched && t.count == 0 {
          skipZero := true;
        }
        ok := t.skipped == t.count;
        if !ok {
          conditions := conditions[j := conditions[j][k := t.(skipped := t.skipped + 1)]];
        }
        return;
      }
      if inbuf[t.ch].Packed? && (absCur < absStart || absCur >= absEnd) {
        return false, true, false;
      }
      skipAllow := inbuf[t.ch].Null?;
      var sample := ReadPin(t.ch);
      if oldPins == null {
        return false, skipAllow, true;
      }
      ok := PinMatches(oldPins[t.ch], sample, t);
    }

    /** The loop over the terms of a group. */
    method TermsMatch(j: nat, ghost st: Scan) returns (ok: bool, skipAllow: bool, fault: bool)
      requires Valid() && j < |conditions| && Sees(st)
      modifies this`skipZero, this`conditions
      ensures Valid() && |conditions| == |old(conditions)|
      ensures fault <==> oldPins == null && TermsRead(Samples(), st, old(conditions[j]), 0)
      ensures !fault ==>
                var r := TermsFrom(Samples(), st, old(skipZero), old(conditions[j]), 0, false);
                ok == r.ok && skipAllow == r.skip && skipZero == r.zero && conditions == old(conditions)[j := r.group]
    {
      hide Unpacked, PinMatches;
      ghost var c, before := Samples(), conditions;
      ghost var goal := TermsFrom(c, st, skipZero, conditions[j], 0, false);
      ghost var missed := TermsRead(c, st, conditions[j], 0);
      assert before[j := before[j]] == before;
      skipAllow, fault := false, false;
      var k := 0;
      while k < |conditions[j]|
        invariant j < |conditions| && k <= |conditions[j]| && Valid() && Sees(st)
        invariant conditions == before[j := conditions[j]] && !fault
        invariant goal == TermsFrom(c, st, skipZero, conditions[j], k, skipAllow)
        invariant oldPins == null ==> (missed <==> TermsRead(c, st, conditions[j], k))
        decreases |conditions[j]| - k
      {
        ghost var g := conditions[j];
        ok, skipAllow, fault := TermMatches(j, k, st);
        if fault || !ok {
          return;
        }
        assert conditions[j] == g;
        k := k + 1;
      }
      ok := true;
    }

    method AllTermsMatch(j: nat, ghost st: Scan) returns (ok: bool, skipAllow: bool, fault: bool)
      requires Valid() && j < |conditions| && Sees(st)
      modifies this`skipZero, this`conditions, this`absCur
      ensures Valid() && |conditions| == |old(conditions)|
      ensures fault <==> oldPins == null && TermsRead(Samples(), st, old(conditions[j]), 0)
      ensures !fault ==>
                var r := TermsFrom(Samples(), st, old(skipZero), old(conditions[j]), 0, false);
                && ok == r.ok && skipAllow == r.skip
                && conditions == old(conditions)[j := r.group]
                && skipZero == (r.zero && !r.ok)
                && absCur == (if r.ok && r.zero then Dec(st.cur) else st.cur)
    {
      hide Unpacked, TermsFrom, TermsRead;
      ok, skipAllow, fault := TermsMatch(j, st);
      if !fault && ok && skipZero {
        absCur := Dec(absCur);
        skipZero := false;
      }
    }

    /** Evaluates every condition at the current sample; all of them, even after a match. */
    method AllGroupsMatch(allSkip: bool) returns (allSkipAllow: bool, fault: bool)
      requires Valid()
      modifies this`skipZero, this`conditions, this`absCur, this`matchArray
      ensures Valid()
      ensures fault <==> oldPins == null && GroupsRead(Samples(), old(View()), 0)
      ensures !fault ==> (View(), allSkipAllow) == GroupsFrom(Samples(), old(View()), 0, allSkip)
    {
      hide GroupAt, Unpacked, TermsRead;
      ghost var c, goal := Samples(), GroupsFrom(Samples(), View(), 0, allSkip);
      ghost var missed := GroupsRead(c, View(), 0);
      allSkipAllow, fault := allSkip, false;
      for j := 0 to |conditions|
        invariant Valid() && |conditions| == |old(conditions)| && !fault
        invariant goal == GroupsFrom(c, View(), j, allSkipAllow)
        invariant oldPins == null ==> (missed <==> GroupsRead(c, View(), j))
      {
        allSkipAllow, fault := GroupMatches(j, allSkipAllow);
        if fault {
          return;
        }
      }
    }

    /** One round of the loop over the conditions. */
    method GroupMatches(j: nat, allSkip: bool) returns (allSkipAllow: bool, fault: bool)
      requires Valid() && j < |conditions|
      modifies this`skipZero, this`conditions, this`absCur, this`matchArray
      ensures Valid() && |conditions| == |old(conditions)|
      ensures fault <==> oldPins == null && TermsRead(Samples(), old(View()), old(conditions[j]), 0)
      ensures !fault ==>
                var (st, skip) := GroupAt(Samples(), old(View()), j);
                View() == st && allSkipAllow == (allSkip && skip)
    {
      allSkipAllow, fault := allSkip, false;
      if conditions[j] != [] {
        var ok, skipAllow;
        ok, skipAllow, fault := AllTermsMatch(j, View());
        if fault {
          return;
        }
        if ok {
          allSkipAllow := false;
          matchArray := matchArray + {j};
        } else {
          allSkipAllow := allSkipAllow && skipAllow;
        }
      }
    }

    /** Steps over the sample of the last match and restarts the skip counts. */
    method StepOver()
      requires Valid()
      modifies this`absCur, this`conditions
      ensures Valid()
      ensures absCur == Inc(old(absCur)) && conditions == RestartSkips(old(conditions))
    {
      ghost var before := conditions;
      absCur := Inc(absCur);
      ghost var cur := absCur;
      for j := 0 to |conditions|
        invariant Valid() && |conditions| == |before| && absCur == cur
        invariant forall i :: 0 <= i < j ==> conditions[i] == RestartGroup(before[i])
        invariant forall i :: j <= i < |before| ==> conditions[i] == before[i]
      {
        for k := 0 to |conditions[j]|
          invariant Valid() && |conditions| == |before| && |conditions[j]| == |before[j]| && absCur == cur
          invariant forall i :: 0 <= i < |before| && i != j ==> conditions[i] == if i < j then RestartGroup(before[i]) else before[i]
          invariant forall m :: 0 <= m < k ==> conditions[j][m] == RestartGroup(before[j])[m]
          invariant forall m :: k <= m < |before[j]| ==> conditions[j][m] == before[j][m]
        {
          var t := conditions[j][k];
          if t.Skip? && t.count > 0 {
            conditions := conditions[j := conditions[j][k := t.(skipped := 1)]];
          }
        }
      }
    }

    /** Everything find_match does before its loop, when there are conditions. */
    method EnterScan()
      requires Valid()
      modifies this`conditions, this`absCur, this`matchArray, this`firstPos, this`oldPins, Pins()
      ensures Valid() && matchArray == {} && (oldPins == old(oldPins) || fresh(Pins()))
      ensures View() == Enter(Samples(), old(View()))
    {
      matchArray := {};
      if firstPos {
        firstPos := false;
        UpdateInitialPins();
      }
      if absCurMatched {
        StepOver();
      }
    }

    /** The loop body up to the test for a match. */
    method ScanSample(allSkip: bool) returns (allSkipAllow: bool, fault: bool)
      requires Valid()
      modifies this`skipZero, this`conditions, this`absCur, this`matchArray, this`absCurMatched, this`oldPins, Pins()
      ensures Valid() && (oldPins == old(oldPins) || fresh(Pins()))
      ensures fault <==> old(oldPins) == null && GroupsRead(Samples(), old(View()), 0)
      ensures !fault ==> oldPins != null && (View(), allSkipAllow) == Sample(Samples(), old(View()), allSkip)
    {
      hide GroupsRead, Unpacked;
      allSkipAllow, fault := AllGroupsMatch(allSkip);
      if fault {
        return;
      }
      UpdateOldPins();
      absCurMatched := matchArray != {};
    }

    /** The loop over the samples. */
    method ScanOn() returns (found: bool, fault: bool)
      requires Valid() && matchArray == {}
      modifies this`skipZero, this`conditions, this`absCur, this`matchArray, this`absCurMatched, this`oldPins, Pins()
      ensures Valid() && (oldPins == old(oldPins) || fresh(Pins()))
      ensures fault <==> old(oldPins) == null && old(absCur) < absEnd && GroupsRead(Samples(), old(View()), 0)
      ensures !fault ==> (View(), found) == ScanLoop(true, Samples(), old(View()), true)
    {
      hide Unpacked, Sample, GroupsRead, Handshake.Unset;
      found, fault := false, false;
      ghost var c, goal := Samples(), ScanLoop(true, Samples(), View(), true);
      ghost var missed := oldPins == null && absCur < absEnd && GroupsRead(c, View(), 0);
      var allSkipAllow := true;
      while absCur < absEnd
        invariant Valid() && matchArray == {} && (oldPins == old(oldPins) || fresh(Pins())) && !fault
        invariant goal == ScanLoop(true, c, View(), allSkipAllow)
        invariant missed <==> oldPins == null && absCur < absEnd && GroupsRead(c, View(), 0)
        decreases if absCur < absEnd then absEnd - absCur else 0
      {
        allSkipAllow, fault := ScanSample(allSkipAllow);
        if fault {
          return;
        }
        if absCurMatched {
          return true, false;
        }
        absCur := if allSkipAllow then absEnd else Inc(absCur);
      }
    }

    method FindMatch() returns (found: bool, fault: bool)
      requires Valid()
      modifies this`skipZero, this`conditions, this`absCur, this`matchArray, this`firstPos, this`absCurMatched, this`oldPins, Pins()
      ensures Valid() && (oldPins == old(oldPins) || fresh(Pins()))
      ensures fault <==> Faults(Samples(), old(View()))
      ensures !fault ==> (View(), found) == Scanner.FindMatch(true, Samples(), old(View()))
    {
      hide Unpacked, Enter, ScanLoop, GroupsRead;
      if !HaveConditions(conditions) {
        return true, false;
      }
      EnterScan();
      found, fault := ScanOn();
    }

    /** The fields under the mutex are those of the two-thread model. */
    ghost predicate Matches(s: Handshake.State)
      requires Valid()
      reads this, Pins()
    {
      && gotNewSamples == s.got && handledAllSamples == s.handled && wantWaitTerminate == s.term
      && View() == s.scan && (gotNewSamples ==> Samples() == s.chunk)
    }

    /** The chunk is handed back. */
    method ReleaseChunk()
      requires Valid()
      modifies this`gotNewSamples, this`handledAllSamples, this`absStart, this`absEnd, this`inbuf
      ensures Valid() && !gotNewSamples && handledAllSamples && absStart == absEnd == 0
    {
      gotNewSamples, handledAllSamples := false, true;
      absStart, absEnd := 0, 0;
      inbuf := seq(|inbuf|, _ => Null);
    }

    /** What one pass of wait's loop does under the lock once samples are there and no termination is
        requested: scan; on a match report it, otherwise release the chunk. */
    method ScanChunk(ghost s: Handshake.State) returns (found: bool, samplenum: U64, matched: set<nat>, fault: bool)
      requires Valid() && Matches(s) && s.got
      modifies this, Pins()
      ensures fault <==> Faults(s.chunk, s.scan)
      ensures fault ==> Handshake.StepScan(s).crashed
      ensures !fault ==>
                var (st, hit) := Scanner.FindMatch(true, s.chunk, s.scan);
                && Valid() && Matches(Handshake.StepScan(s))
                && found == hit && (hit ==> samplenum == st.cur && matched == st.mask)
    {
      ScanFields(s);
      hide Unpacked, Scanner.FindMatch, Faults, Handshake.StepScan;
      found, fault := FindMatch();
      samplenum, matched := absCur, matchArray;
      if fault {
        return;
      }
      if found {
        firstPos := false;
      } else {
        ReleaseChunk();
      }
    }

    method TakeChunk(start: U64, end: U64, buffers: seq<Buffer>, constants: seq<Byte>)
      requires Valid() && |buffers| == |channelMap| && start <= end && Covers(end - start, buffers, constants)
      modifies this`absStart, this`absEnd, this`inbuf, this`inbufConst, this`gotNewSamples, this`handledAllSamples
      ensures Valid() && View() == old(View()) && gotNewSamples && !handledAllSamples
      ensures Samples() == Unpacked(start, end, buffers, constants)
    {
      absStart, absEnd := start, end;
      inbuf, inbufConst := buffers, constants;
      gotNewSamples, handledAllSamples := true, false;
    }

    /** The first critical section of srd_inst_decode, with the checks before it. The stated length is
        only tested for 0; the buffers have the samples from start to end. */
    method AcceptChunk(start: U64, end: U64, buffers: seq<Buffer>, constants: seq<Byte>, inbuflen: nat,
                       ghost s: Handshake.State) returns (ok: bool)
      requires Valid() && Matches(s) && |buffers| == |channelMap|
      requires start <= end ==> Covers(end - start, buffers, constants)
      modifies this
      ensures Valid() && Matches(Handshake.StepFeed(s, FedChunk(start, end, buffers, constants), inbuflen))
      ensures ok <==> inbuflen > 0 && start <= end && (old(firstPos) || start == old(absCur))
    {
      hide Unpacked;
      if inbuflen == 0 {
        return false;
      }
      if firstPos {
        absCur := start;
      }
      if start != absCur || end < start {
        return false;
      }
      TakeChunk(start, end, buffers, constants);
      ok := true;
    }

    /** One channel's entry of a fetched view. */
    method FetchChannel(ch: int, byte: nat) returns (slot: Slot)
      requires Valid() && 8 * byte <= absEnd - absStart
      ensures SlotIs(slot, Handshake.SlotOf(Samples(), Connected(channelMap, ch), byte))
    {
      hide Unpacked, BitAt;
      slot := Slot(Null, 0xFF);
      if ch < 0 || ch >= |channelMap| || channelMap[ch] < 0 {
        return;
      }
      if inbuf[ch].Null? {
        slot := Slot(Null, if inbufConst[ch] != 0 then 1 else 0);
        return;
      }
      slot := Slot(Packed(inbuf[ch].bytes[byte..]), 0);
      ghost var bits := Handshake.SlotOf(Samples(), ch, byte).bits;
      forall m | 0 <= m < |bits| ensures BitAt(slot.buffer.bytes, m) == bits[m] {
        BitFromByte(inbuf[ch].bytes, 8 * byte, m);
        assert Samples().Has(absStart + 8 * byte + m);
      }
    }

    /** The entries of all requested channels. */
    method FetchSlots(channels: seq<int>, byte: nat) returns (slots: seq<Slot>)
      requires Valid() && 8 * byte <= absEnd - absStart
      ensures var wanted := AllConnected(channelMap, channels);
              |slots| == |wanted| && forall i :: 0 <= i < |wanted| ==> SlotIs(slots[i], Handshake.SlotOf(Samples(), wanted[i], byte))
    {
      hide Unpacked, SlotIs, Handshake.SlotOf, Connected;
      ghost var wanted := AllConnected(channelMap, channels);
      slots := [];
      for i := 0 to |channels|
        invariant |slots| == i
        invariant forall j :: 0 <= j < i ==> SlotIs(slots[j], Handshake.SlotOf(Samples(), wanted[j], byte))
      {
        var slot := FetchChannel(channels[i], byte);
        slots := slots + [slot];
      }
    }

    /** The part of a fetch that finds samples. */
    method TakeView(channels: seq<int>, max: nat) returns (count: nat, start: U64, bitOffset: nat, slots: seq<Slot>)
      requires Valid() && absCur < absEnd && absStart < absEnd && max > 0
      modifies this`firstPos
      ensures Valid() && View() == old(View()).(first := false) && Samples() == old(Samples()) && count > 0
      ensures ViewIs(Handshake.Fetched(Samples(), absCur, AllConnected(channelMap, channels), max), start, count, bitOffset, slots)
    {
      hide Unpacked, SlotIs, ViewIs, Handshake.SlotOf, Handshake.Fetched, AllConnected;
      start := if absCur < absStart then absStart else absCur;
      var off, available := start - absStart, absEnd - start;
      count := if available < max then available else max;
      bitOffset := off % 8;
      slots := FetchSlots(channels, off / 8);
      FetchedIs(Samples(), absCur, start, AllConnected(channelMap, channels), max, count, slots);
      firstPos := false;
    }

    /** c_fetch_packed_multi from the point where it holds the mutex and is done waiting: what it hands
        out is the view of the two-thread model. */
    method FetchPackedMulti(channels: seq<int>, max: nat, ghost s: Handshake.State)
      returns (count: nat, start: U64, bitOffset: nat, slots: seq<Slot>)
      requires Valid() && Matches(s) && (s.got || s.term) && max > 0
      requires s.worker == Handshake.Testing(Handshake.FetchUpTo(AllConnected(channelMap, channels), max))
      modifies this`firstPos
      ensures Valid() && Matches(Handshake.StepTest(s))
      ensures count > 0 <==> Handshake.StepTest(s).worker.Reading?
      ensures count > 0 ==> ViewIs(Handshake.StepTest(s).worker.view, start, count, bitOffset, slots)
    {
      FetchFields(s);
      hide Unpacked, ViewIs, Handshake.Fetched, AllConnected, Handshake.StepTest;
      count, start, bitOffset, slots := 0, 0, 0, [];
      if !wantWaitTerminate && absCur < absEnd && absStart < absEnd {
        count, start, bitOffset, slots := TakeView(channels, max);
      }
    }

    /** c_consume_samples for num > 0; the samples left are counted without sign. */
    method ConsumeSamples(num: U64, ghost s: Handshake.State) returns (ok: bool)
      requires Valid() && Matches(s) && num > 0
      modifies this
      ensures Valid() && Matches(Handshake.StepConsume(s, num))
      ensures ok <==> s.got && !s.term && num <= Handshake.Behind(s.scan.cur, s.chunk.end)
    {
      ConsumeFields(s, num);
      hide Unpacked, Handshake.StepConsume, Handshake.Beyond, Handshake.Behind;
      if !gotNewSamples {
        return false;
      }
      var available := Handshake.Behind(absCur, absEnd);
      if num > available {
        return false;
      }
      absCur := Handshake.Beyond(absCur, num);
      absCurMatched := false;
      if absCur >= absEnd || wantWaitTerminate {
        ReleaseChunk();
      }
      ok := !wantWaitTerminate;
    }

    /** srd_inst_reset_state, once the thread is joined: old_pins_array is released. */
    method ResetState()
      requires Valid()
      modifies this
      ensures Valid() && !gotNewSamples && !handledAllSamples && !wantWaitTerminate
      ensures View() == old(View()).(cur := 0, prev := Handshake.Unset(|channelMap|), missing := true, groups := [])
    {
      ReleaseChunk();
      handledAllSamples, wantWaitTerminate := false, false;
      conditions, absCur := [], 0;
      oldPins := null;
    }

    /** srd_inst_start after it: match_array keeps what it held. */
    method Restart()
      requires Valid()
      modifies this
      ensures Valid() && oldPins == null
      ensures Matches(Handshake.Initial(Handshake.Start(Handshake.Unset(|channelMap|), true, old(matchArray))))
    {
      ResetState();
      firstPos, absCurMatched, skipZero := true, false, false;
    }

    /** srd_inst_initial_pins_set_all: one value of at most 2 a channel, or no change. An array that is
        missing is made. */
    method SetInitialPins(pins: seq<nat>) returns (ok: bool)
      requires Valid()
      modifies this`oldPins, Pins()
      ensures Valid() && (oldPins == old(oldPins) || fresh(Pins()))
      ensures ok <==> |pins| == |channelMap| && forall i :: 0 <= i < |pins| ==> pins[i] <= 2
      ensures View() == if ok then old(View()).(prev := pins, missing := false) else old(View())
    {
      if |pins| != |channelMap| {
        return false;
      }
      for i := 0 to |pins|
        invariant forall j :: 0 <= j < i ==> pins[j] <= 2
      {
        if pins[i] > 2 {
          return false;
        }
      }
      SeedOldPins();
      var a := oldPins;
      for i := 0 to |pins|
        invariant oldPins == a && Valid()
        invariant forall j :: 0 <= j < i ==> a[j] == pins[j]
      {
        a[i] := pins[i];
      }
      assert a[..] == pins;
      ok := true;
    }
  }
}
