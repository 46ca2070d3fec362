/** The decoder of adat_c.c with its buffer shifted in place. Every method is proved to do what the
    functions of module Adat say. */
module AdatDecoder {
  import opened BitStrings
  import opened Adat

  lemma SyncLoopUnfolds(s: State, before: seq<Event>)
    ensures s.mode.Sync? && |s.signal| >= 11 ==>
              var (s1, e1) := Adat.LookForSyncPad(s); var (s2, e2) := SyncLoop(s1);
              SyncLoop(s).0 == s2 && before + SyncLoop(s).1 == (before + e1) + e2
    ensures !(s.mode.Sync? && |s.signal| >= 11) ==> SyncLoop(s) == (s, []) && before + [] == before
  {
    hide Adat.LookForSyncPad;
    var (s1, e1) := Adat.LookForSyncPad(s);
    var e2 := SyncLoop(s1).1;
    assert before + (e1 + e2) == (before + e1) + e2;
  }

  class Decoder {
    const signal: array<Bit>
    var signalLen: nat
    var mode: Mode
    var channelNo: nat
    var nibbleNo: nat
    var channelData: nat
    const allChannelsData: array<nat>
    var frameUserData: nat
    var reported: seq<Event>

    ghost predicate Valid()
      reads this
    {
      signal.Length == CAPACITY && allChannelsData.Length == 8 && signalLen <= CAPACITY
    }

    ghost function View(): (s: State)
      requires Valid()
      reads this, signal, allChannelsData
      ensures s.mode == mode && |s.signal| == signalLen
    {
      State(signal[..signalLen], mode, channelNo, nibbleNo, channelData, allChannelsData[..], frameUserData)
    }

    constructor ()
      ensures Valid() && Sane(View()) && View().signal == [] && reported == []
      ensures fresh(signal) && fresh(allChannelsData)
    {
      signal, allChannelsData := new Bit[CAPACITY], new nat[8](_ => 0);
      signalLen, mode, channelNo, nibbleNo, channelData, frameUserData, reported := 0, Sync, 0, 0, 0, 0, [];
      new;
      NoNibbles();
    }

    /** Removes n bits from the front. */
    method Shift(n: nat)
      requires Valid() && n <= signalLen
      modifies this`signalLen, signal
      ensures Valid() && View() == Drop(old(View()), n)
    {
      ghost var was := signal[..];
      for i := 0 to signalLen - n
        invariant signalLen == old(signalLen)
        invariant forall k :: 0 <= k < i ==> signal[k] == was[k + n]
        invariant forall k :: i <= k < signal.Length ==> signal[k] == was[k]
      {
        signal[i] := signal[i + n];
      }
      signalLen := signalLen - n;
      assert signal[..signalLen] == was[..old(signalLen)][n..];
    }

    method StartsWithPad() returns (found: bool)
      requires Valid() && signalLen >= 11
      ensures found == (View().signal[..11] == SYNC_PAD)
    {
      found := signal[0] == 1 && signal[1] == 0 && signal[2] == 0 && signal[3] == 0 && signal[4] == 0 && signal[5] == 0
               && signal[6] == 0 && signal[7] == 0 && signal[8] == 0 && signal[9] == 0 && signal[10] == 0;
      var s := signal[..signalLen][..11];
      assert forall k :: 0 <= k < 11 ==> s[k] == signal[k];
      if s == SYNC_PAD {
        assert s[0] == 1 && s[1] == 0 && s[2] == 0 && s[3] == 0 && s[4] == 0 && s[5] == 0;
        assert s[6] == 0 && s[7] == 0 && s[8] == 0 && s[9] == 0 && s[10] == 0;
      }
    }

    method LookForSyncPad()
      requires Valid() && signalLen >= 11
      modifies this`signalLen, this`mode, this`reported, signal
      ensures Valid()
      ensures var r := Adat.LookForSyncPad(old(View())); View() == r.0 && reported == old(reported) + r.1
      ensures signalLen < old(signalLen)
    {
      var found := StartsWithPad();
      if found {
        reported := reported + [SyncPad];
        Shift(11);
        mode := UserBits;
      } else {
        Shift(1);
      }
    }

    method BitsToInt(from: nat, count: nat) returns (val: nat)
      requires Valid() && from + count <= signalLen
      ensures val == Pack(View().signal[from..from + count])
    {
      val := 0;
      for i := 0 to count
        invariant val == Pack(signal[from..from + i])
      {
        assert signal[from..from + i + 1][..i] == signal[from..from + i];
        val := 2 * val + signal[from + i];
      }
      assert signal[..signalLen][from..from + count] == signal[from..from + count];
    }

    method DecodeUserBits()
      requires Valid()
      modifies this`signalLen, this`mode, this`frameUserData, this`reported, signal
      ensures Valid()
      ensures var r := Adat.DecodeUserBits(old(View())); View() == r.0 && reported == old(reported) + r.1
    {
      if signalLen < 5 {
        return;
      }
      if signal[0] != 1 {
        reported := reported + [Error];
        Shift(1);
        mode := Sync;
      } else {
        var u := BitsToInt(1, 4);
        reported := reported + [User(u), Nibble(u)];
        Shift(5);
        mode, frameUserData := ChannelData, u;
      }
    }

    method AddNibble(nibble: nat)
      requires Valid() && signalLen >= 5
      modifies this`signalLen, this`channelData, this`nibbleNo, signal
      ensures Valid() && View() == Adat.AddNibble(old(View()), nibble)
    {
      hide PutNibble;
      channelData := PutNibble(channelData, nibbleNo, nibble);
      nibbleNo := nibbleNo + 1;
      Shift(5);
    }

    method EndChannel()
      requires Valid()
      modifies this`channelData, this`nibbleNo, this`channelNo, this`reported, allChannelsData
      ensures Valid()
      ensures var r := Adat.EndChannel(old(View())); View() == r.0 && reported == old(reported) + r.1
    {
      if nibbleNo == 6 && channelNo < 8 {
        reported := reported + [Channel(channelNo, channelData)];
        allChannelsData[channelNo] := channelData;
        channelNo, channelData, nibbleNo := channelNo + 1, 0, 0;
      }
    }

    method EndFrame()
      requires Valid()
      modifies this`channelNo, this`mode, this`reported
      ensures Valid()
      ensures var r := Adat.EndFrame(old(View())); View() == r.0 && reported == old(reported) + r.1
    {
      if channelNo == 8 {
        var values := [];
        for ch := 0 to 8
          invariant |values| == ch && forall k :: 0 <= k < ch ==> values[k] == SignExtend(allChannelsData[k])
        {
          values := values + [SignExtend(allChannelsData[ch])];
        }
        assert values == Values(allChannelsData[..]);
        reported := reported + [Frame(values, frameUserData)];
        channelNo, mode := 0, Sync;
      }
    }

    method DecodeChannelData()
      requires Valid()
      modifies this, signal, allChannelsData
      ensures Valid()
      ensures var r := Adat.DecodeChannelData(old(View())); View() == r.0 && reported == old(reported) + r.1
    {
      hide Pack, Adat.AddNibble, Adat.EndChannel, Adat.EndFrame;
      if signalLen < 5 {
        return;
      }
      if signal[0] != 1 {
        GiveUp();
      } else {
        hide View;
        DecodeNibble();
      }
    }

    method GiveUp()
      requires Valid() && signalLen > 0
      modifies this, signal
      ensures Valid()
      ensures View() == Drop(old(View()), 1).(channelNo := 0, channelData := 0, nibbleNo := 0, mode := Sync)
      ensures reported == old(reported) + [Error]
    {
      reported := reported + [Error];
      Shift(1);
      channelNo, channelData, nibbleNo := 0, 0, 0;
      mode := Sync;
    }

    method DecodeNibble()
      requires Valid() && signalLen >= 5
      modifies this, signal, allChannelsData
      ensures Valid()
      ensures var s := old(View()); var nibble := Pack(s.signal[1..5]);
              var (s1, e1) := Adat.EndChannel(Adat.AddNibble(s, nibble)); var (s2, e2) := Adat.EndFrame(s1);
              View() == s2 && reported == old(reported) + ([Nibble(nibble)] + e1 + e2)
    {
      hide Pack, Adat.AddNibble, Adat.EndChannel, Adat.EndFrame;
      var nibble := BitsToInt(1, 4);
      hide View;
      reported := reported + [Nibble(nibble)];
      AddNibble(nibble);
      EndChannel();
      EndFrame();
    }

    /** The bits of a run into the buffer. */
    method Fill(n: nat)
      requires Valid()
      modifies this`signalLen, signal
      ensures Valid() && View() == Adat.Fill(old(View()), n)
    {
      ghost var was, len := signal[..signalLen], signalLen;
      var i := 0;
      while i < n && signalLen < CAPACITY
        invariant i <= n && signalLen == len + i <= CAPACITY
        invariant signal[..signalLen] == was + RunBits(i)
      {
        signal[signalLen] := if i == 0 then 1 else 0;
        signalLen := signalLen + 1;
        i := i + 1;
        assert signal[..signalLen] == was + RunBits(i);
      }
    }

    /** The loop's body after an edge. */
    method Edge(n: nat)
      requires Valid()
      modifies this, signal, allChannelsData
      ensures Valid()
      ensures var r := Adat.Edge(old(View()), n); View() == r.0 && reported == old(reported) + r.1
    {
      Fill(n);
      hide View, Adat.Fill, Adat.DecodeUserBits, Adat.DecodeChannelData;
      match mode
      case Sync => LookOn();
      case UserBits => DecodeUserBits();
      case ChannelData => DecodeChannelData();
    }

    method LookOn()
      requires Valid()
      modifies this`signalLen, this`mode, this`reported, signal
      ensures Valid()
      ensures var r := SyncLoop(old(View())); View() == r.0 && reported == old(reported) + r.1
    {
      hide View, Adat.LookForSyncPad, SyncLoop;
      ghost var goal, before := SyncLoop(View()), reported;
      while mode.Sync? && signalLen >= 11
        invariant Valid()
        invariant SyncLoop(View()).0 == goal.0 && reported + SyncLoop(View()).1 == before + goal.1
        decreases signalLen
      {
        SyncLoopUnfolds(View(), reported);
        LookForSyncPad();
      }
      SyncLoopUnfolds(View(), reported);
    }
  }
}
