/** The decoder of arm_tpiu_c.c with its two buffers filled and shifted in place. Every method is
    proved to do what the functions of module Tpiu say. */
module TpiuDecoder {
  import opened BitStrings
  import opened Tpiu

  class Decoder {
    var stream: nat
    var bytenum: nat
    var prevSample: nat
    const frameData: array<Byte>
    var frameLen: nat
    const syncbuf: array<Byte>
    var syncbufLen: nat
    const options: Options
    var reported: seq<Event>

    ghost predicate Valid()
      reads this
    {
      frameData.Length == 16 && syncbuf.Length == 4 && frameData != syncbuf && frameLen <= 16 && syncbufLen <= 4
    }

    ghost function View(): State
      requires Valid()
      reads this, frameData, syncbuf
    {
      State(stream, bytenum, prevSample, frameData[..frameLen], syncbuf[..syncbufLen])
    }

    constructor (options: Options)
      ensures Valid() && View() == State(0, 0, 0, [], []) && reported == [] && this.options == options
      ensures fresh(frameData) && fresh(syncbuf)
    {
      this.options, frameData, syncbuf := options, new Byte[16], new Byte[4];
      stream, bytenum, prevSample, frameLen, syncbufLen, reported := 0, 0, 0, 0, 0, [];
    }

    method StreamChanged(to: nat)
      modifies this`stream, this`reported
      ensures stream == to && reported == old(reported) + Changed(old(stream), to)
    {
      if stream != to {
        if stream != 0 {
          reported := reported + [StreamEnds(stream)];
        }
        stream := to;
      }
    }

    method EmitByte(byte: Byte)
      modifies this`reported
      ensures reported == old(reported) + Emitted(stream, options.stream, byte)
    {
      if stream == options.stream {
        reported := reported + [Data(byte)];
      }
    }

    /** One turn of the loop over the frame. */
    method ProcessPair(k: nat)
      requires Valid() && frameLen == 16 && k < 8
      modifies this`stream, this`reported
      ensures var (to, e) := PairAt(old(stream), options.stream, frameData[..], k);
              stream == to && reported == old(reported) + e
    {
      var i, low := 2 * k, BitOf(frameData[15], k);
      hide Changed, Emitted, BitOf;
      var delayed, id := false, frameData[i] / 2;
      if frameData[i] % 2 == 1 {
        if low == 1 {
          delayed := true;
        } else {
          StreamChanged(id);
        }
      } else {
        EmitByte(WithLowBit(frameData[i], low));
      }
      if i < 14 {
        EmitByte(frameData[i + 1]);
      }
      if delayed {
        StreamChanged(id);
      }
    }

    method ProcessFrame()
      requires Valid() && frameLen == 16
      modifies this`stream, this`reported
      ensures var (to, e) := PairsFrom(old(stream), options.stream, frameData[..], 0);
              stream == to && reported == old(reported) + e
    {
      hide PairAt;
      ghost var goal, before := PairsFrom(stream, options.stream, frameData[..], 0), reported;
      for k := 0 to 8
        invariant var r := PairsFrom(stream, options.stream, frameData[..], k); r.0 == goal.0 && reported + r.1 == before + goal.1
      {
        ghost var stream0, reported0 := stream, reported;
        ghost var e1 := PairAt(stream, options.stream, frameData[..], k).1;
        ProcessPair(k);
        ghost var e2 := PairsFrom(stream, options.stream, frameData[..], k + 1).1;
        assert (reported0 + e1) + e2 == reported0 + (e1 + e2);
      }
      assert reported + [] == reported;
    }

    /** The byte into the buffer of the sync detector. */
    method PushSyncByte(b: Byte)
      requires Valid()
      modifies this`syncbufLen, syncbuf
      ensures Valid() && View() == old(View()).(syncbuf := PushSync(old(View()).syncbuf, b))
    {
      if syncbufLen < 4 {
        syncbuf[syncbufLen] := b;
        syncbufLen := syncbufLen + 1;
      } else {
        syncbuf[0], syncbuf[1], syncbuf[2] := syncbuf[1], syncbuf[2], syncbuf[3];
        syncbuf[3] := b;
      }
    }

    method SyncSeen() returns (seen: bool)
      requires Valid()
      ensures seen == (View().syncbuf == SYNC_WORD)
    {
      seen := syncbufLen >= 4 && syncbuf[0] == 0xFF && syncbuf[1] == 0xFF && syncbuf[2] == 0xFF && syncbuf[3] == 0x7F;
      ghost var s := syncbuf[..syncbufLen];
      if s == SYNC_WORD {
        assert s[0] == 0xFF && s[1] == 0xFF && s[2] == 0xFF && s[3] == 0x7F;
      }
    }

    method PushFrameByte(b: Byte)
      requires Valid()
      modifies this`frameLen, frameData
      ensures Valid() && View() == old(View()).(frame := PushFrame(old(View()).frame, b))
    {
      if frameLen < 16 {
        frameData[frameLen] := b;
        frameLen := frameLen + 1;
      }
    }

    method Recv(rx: Rx)
      requires Valid()
      modifies this, frameData, syncbuf
      ensures Valid()
      ensures var r := Tpiu.Recv(options, old(View()), rx); View() == r.0 && reported == old(reported) + r.1
    {
      hide PairsFrom, Pause, PushFrame, PushSync;
      assert reported + [] == reported;
      if Pause(prevSample, rx) {
        frameLen := 0;
      }
      prevSample := rx.end;
      PushFrameByte(rx.val);
      bytenum := bytenum + 1;
      if bytenum < options.syncOffset {
        frameLen := 0;
        return;
      }
      PushSyncByte(rx.val);
      var seen := SyncSeen();
      if seen {
        frameLen, syncbufLen := 0, 0;
        return;
      }
      if frameLen == 16 {
        assert frameData[..16] == frameData[..];
        ProcessFrame();
        frameLen := 0;
      }
    }
  }
}
