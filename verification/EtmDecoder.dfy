/** The decoder of arm_etmv3_c.c with its packet and synchronisation buffers changed in place. Every
    method is proved to do what the functions of module Etm say. */
module EtmDecoder {
  import opened Etm

  class Decoder {
    const buf: array<Byte>
    var bufLen: nat
    const syncbuf: array<Byte>
    var syncbufLen: nat
    var prevsample: nat
    var lastBranch: bv32
    var cpuState: Cpu
    var reported: seq<Event>

    ghost predicate Valid()
      reads this
    {
      buf.Length == 64 && syncbuf.Length == 8 && buf != syncbuf && bufLen <= 64 && syncbufLen <= 5
    }

    ghost function View(): State
      requires Valid()
      reads this, buf, syncbuf
    {
      State(buf[..bufLen], syncbuf[..syncbufLen], prevsample, lastBranch, cpuState)
    }

    constructor ()
      ensures Valid() && View() == State([], [], 0, 0, Arm) && reported == []
      ensures fresh(buf) && fresh(syncbuf)
    {
      buf, syncbuf := new Byte[64], new Byte[8];
      bufLen, syncbufLen, prevsample, lastBranch, cpuState, reported := 0, 0, 0, 0, Arm, [];
    }

    /** The number that starts at byte from, and its length; the length of the rest if it does not end. */
    method ParseVarint(from: nat) returns (value: bv32, len: nat)
      requires Valid() && from <= bufLen
      ensures (value, len) == Varint(View().buf[from..], 0, 0) && len <= bufLen - from
    {
      hide Septet, Join, GoesOn;
      ghost var bytes := buf[..bufLen][from..];
      value := 0;
      var i := 0;
      while i < bufLen - from
        invariant 0 <= i <= bufLen - from == |bytes|
        invariant Varint(bytes, 0, 0) == Varint(bytes, i, value)
      {
        assert bytes[i] == buf[from + i];
        value := Join(value, Septet(buf[from + i], i));
        if !GoesOn(buf[from + i]) {
          len := i + 1;
          return;
        }
        i := i + 1;
      }
      len := bufLen - from;
    }

    method HandleBranch()
      requires Valid() && bufLen > 0
      modifies this`bufLen, this`lastBranch, this`cpuState, this`reported
      ensures Valid()
      ensures var r := Etm.HandleBranch(old(View())); View() == r.0 && reported == old(reported) + r.1
    {
      hide GoesOn, Varint, HasException, CpuOf, Shifted, Kept, Join;
      if GoesOn(buf[bufLen - 1]) {
        return;
      }
      assert buf[..bufLen][0..] == buf[..bufLen];
      var v, len := ParseVarint(0);
      var exc := len == 5 && HasException(buf[4]);
      if len == 5 {
        cpuState := CpuOf(buf[4], cpuState);
      }
      var addr := Join(Shifted(v, cpuState), Kept(lastBranch, len, cpuState));
      lastBranch, bufLen := addr, 0;
      reported := reported + [Branch(addr, exc)];
    }

    method HandleISync()
      requires Valid() && bufLen > 0
      modifies this`bufLen, this`lastBranch, this`cpuState, this`reported
      ensures Valid()
      ensures var r := Etm.HandleISync(old(View())); View() == r.0 && reported == old(reported) + r.1
    {
      hide Varint, Word, TellsThumb, Untagged;
      if bufLen < 6 {
        return;
      }
      var idx := 1;
      if buf[0] != 0x08 {
        var v, len := ParseVarint(1);
        idx := 1 + len;
      }
      if bufLen <= idx + 4 {
        return;
      }
      assert buf[..bufLen][idx + 1..idx + 5] == buf[idx + 1..idx + 5];
      var a := Word(buf[idx + 1..idx + 5]);
      cpuState := if TellsThumb(a) then Thumb else Arm;
      lastBranch, bufLen := Untagged(a), 0;
      reported := reported + [InstrSync(Untagged(a), cpuState)];
    }

    method ProcessBuffer()
      requires Valid()
      modifies this`bufLen, this`lastBranch, this`cpuState, this`reported
      ensures Valid()
      ensures var r := Etm.ProcessBuffer(old(View())); View() == r.0 && reported == old(reported) + r.1
    {
      hide PacketType, Etm.HandleBranch, Etm.HandleISync;
      assert reported + [] == reported;
      if bufLen == 0 {
        return;
      }
      match PacketType(buf[0])
      case BranchPacket => HandleBranch();
      case ASyncPacket =>
        if buf[bufLen - 1] == 0x80 {
          reported := reported + [ASync];
          bufLen := 0;
        }
      case ISyncPacket => HandleISync();
      case OtherPacket =>
        reported := reported + [Other(buf[0])];
        bufLen := 0;
    }

    method PushByte(b: Byte)
      requires Valid()
      modifies this`bufLen, buf
      ensures Valid() && View() == old(View()).(buf := PushBuf(old(View()).buf, b))
    {
      if bufLen < 64 {
        buf[bufLen] := b;
        bufLen := bufLen + 1;
      }
    }

    method PushSyncByte(b: Byte)
      requires Valid()
      modifies this`syncbufLen, syncbuf
      ensures Valid() && View() == old(View()).(syncbuf := PushSync(old(View()).syncbuf, b))
    {
      if syncbufLen < 5 {
        syncbuf[syncbufLen] := b;
        syncbufLen := syncbufLen + 1;
      } else {
        ghost var was := syncbuf[..5];
        for i := 0 to 4
          invariant syncbufLen == 5
          invariant forall k :: 0 <= k < i ==> syncbuf[k] == was[k + 1]
          invariant forall k :: i <= k < 5 ==> syncbuf[k] == was[k]
        {
          syncbuf[i] := syncbuf[i + 1];
        }
        syncbuf[4] := b;
        assert syncbuf[..5] == was[1..] + [b];
      }
    }

    method SyncSeen() returns (seen: bool)
      requires Valid()
      ensures seen == (View().syncbuf == SYNC)
    {
      seen := syncbufLen >= 5 && syncbuf[0] == 0x00 && syncbuf[1] == 0x00 && syncbuf[2] == 0x00 && syncbuf[3] == 0x00
              && syncbuf[4] == 0x80;
      ghost var s := syncbuf[..syncbufLen];
      if s == SYNC {
        assert s[0] == 0x00 && s[1] == 0x00 && s[2] == 0x00 && s[3] == 0x00 && s[4] == 0x80;
      }
    }

    method Recv(rx: Rx)
      requires Valid()
      modifies this, buf, syncbuf
      ensures Valid()
      ensures var r := Etm.Recv(old(View()), rx); View() == r.0 && reported == old(reported) + r.1
    {
      hide Pause, PushBuf, PushSync, Etm.ProcessBuffer;
      if Pause(prevsample, rx) {
        bufLen := 0;
      }
      prevsample := rx.end;
      PushByte(rx.val);
      PushSyncByte(rx.val);
      var seen := SyncSeen();
      if seen {
        Override();
      }
      ProcessBuffer();
    }

    /** The buffer is made to hold the synchronisation pattern. */
    method Override()
      requires Valid()
      modifies this`bufLen, buf
      ensures Valid() && View() == old(View()).(buf := SYNC)
    {
      buf[0], buf[1], buf[2], buf[3], buf[4] := 0x00, 0x00, 0x00, 0x00, 0x80;
      bufLen := 5;
      assert buf[..5] == SYNC;
    }
  }
}
