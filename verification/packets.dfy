/**
 * The decode loop of `open`, as a function of the stream of packet results
 * the format reader produces. Decoding itself is foreign code: each packet
 * carries the outcome its decode will have.
 *
 * `Delivered` is the run of frames the loop hands to `write`; `Warnings`
 * counts the decode failures it reports. Both stop at the first
 * `next_packet` error (the end of the stream is one).
 */
module Packets {
  import opened Audio

  datatype DecodeResult = Decoded(frame: AudioFrame) | DecodeError

  /** One result of `next_packet`. */
  datatype PacketResult = Packet(trackId: nat, decode: DecodeResult) | ReadError

  /** `next_packet` at position `i`: reading past the last packet fails. */
  function NextPacket(packets: seq<PacketResult>, i: nat): PacketResult
  {
    if i < |packets| then packets[i] else ReadError
  }

  predicate NoReadError(packets: seq<PacketResult>)
  {
    forall i :: 0 <= i < |packets| ==> packets[i].Packet?
  }

  /** The frame one packet makes the loop write: its decoded frame when it
      belongs to `track` and decodes, nothing otherwise. */
  function FrameOf(p: PacketResult, track: nat): seq<AudioFrame>
  {
    if p.Packet? && p.trackId == track && p.decode.Decoded? then [p.decode.frame] else []
  }

  /** The warning one packet makes the loop report: one when it belongs to
      `track` and fails to decode. */
  function WarningOf(p: PacketResult, track: nat): nat
  {
    if p.Packet? && p.trackId == track && p.decode.DecodeError? then 1 else 0
  }

  /** The frames the loop passes to `write`, in order. */
  function Delivered(packets: seq<PacketResult>, track: nat): seq<AudioFrame>
  {
    if packets == [] || packets[0].ReadError? then []
    else FrameOf(packets[0], track) + Delivered(packets[1..], track)
  }

  /** The decode failures the loop reports before it stops. */
  function Warnings(packets: seq<PacketResult>, track: nat): nat
  {
    if packets == [] || packets[0].ReadError? then 0
    else WarningOf(packets[0], track) + Warnings(packets[1..], track)
  }

  /** The condition under which no `write_blocking` of the loop waits
      forever: when the run submits anything at all, the ring sized from the
      first decoded frame has room for something. */
  predicate CanDrain(packets: seq<PacketResult>, track: nat)
  {
    var frames := Delivered(packets, track);
    Submitted(frames) != [] ==> RingLen(frames[0].spec) > 0
  }

  /** One step of the loop: the packet at `i` contributes its frame or its
      warning, if any, and the loop goes on at `i + 1`. */
  lemma DeliveredStep(packets: seq<PacketResult>, i: nat, track: nat)
    requires i < |packets| && packets[i].Packet?
    ensures Delivered(packets[i..], track) == FrameOf(packets[i], track) + Delivered(packets[i + 1..], track)
    ensures Warnings(packets[i..], track) == WarningOf(packets[i], track) + Warnings(packets[i + 1..], track)
  {
    assert packets[i..][1..] == packets[i + 1..];
  }

  /** One turn of the loop, from the point of view of its bookkeeping: if
      `written` and `warnings` are what the packets before `i` produced, adding
      the packet at `i` keeps them so; and in a run that can drain, whatever
      that packet submits finds a ring with room, the ring being sized from
      the run's first frame. */
  lemma Advance(packets: seq<PacketResult>, i: nat, track: nat, written: seq<AudioFrame>, warnings: nat)
    requires i < |packets| && packets[i].Packet?
    requires CanDrain(packets, track)
    requires written + Delivered(packets[i..], track) == Delivered(packets, track)
    requires warnings + Warnings(packets[i..], track) == Warnings(packets, track)
    ensures written + FrameOf(packets[i], track) + Delivered(packets[i + 1..], track) == Delivered(packets, track)
    ensures warnings + WarningOf(packets[i], track) + Warnings(packets[i + 1..], track) == Warnings(packets, track)
    ensures Submitted(FrameOf(packets[i], track)) != [] ==> RingLen((written + FrameOf(packets[i], track))[0].spec) > 0
  {
    var next := FrameOf(packets[i], track);
    var rest := Delivered(packets[i + 1..], track);
    DeliveredStep(packets, i, track);
    assert written + next + rest == Delivered(packets, track);
    if Submitted(next) != [] {
      SubmittedAppend(written + next, rest);
      SubmittedAppend(written, next);
      assert next != [];
      assert (written + next + rest)[0] == (written + next)[0];
    }
  }

  /** A prefix without read errors contributes its own frames and warnings,
      and the loop carries on with the rest. */
  lemma {:induction false} DeliveredSplit(p: seq<PacketResult>, q: seq<PacketResult>, track: nat)
    requires NoReadError(p)
    ensures Delivered(p + q, track) == Delivered(p, track) + Delivered(q, track)
    ensures Warnings(p + q, track) == Warnings(p, track) + Warnings(q, track)
  {
    if p == [] {
      assert p + q == q;
    } else {
      assert (p + q)[0] == p[0];
      assert (p + q)[1..] == p[1..] + q;
      DeliveredSplit(p[1..], q, track);
    }
  }

  /** The loop ends at the first `next_packet` error: nothing after it is
      decoded, written or reported. */
  lemma ReadErrorEndsLoop(p: seq<PacketResult>, q: seq<PacketResult>, track: nat)
    requires NoReadError(p)
    ensures Delivered(p + [ReadError] + q, track) == Delivered(p, track)
    ensures Warnings(p + [ReadError] + q, track) == Warnings(p, track)
  {
    DeliveredSplit(p, [ReadError] + q, track);
    assert p + [ReadError] + q == p + ([ReadError] + q);
  }

  /** A packet of another track is skipped without being decoded: removing
      it changes neither the frames written nor the warnings. */
  lemma {:induction false} ForeignPacketSkipped(p: seq<PacketResult>, id: nat, r: DecodeResult, q: seq<PacketResult>, track: nat)
    requires id != track
    ensures Delivered(p + [Packet(id, r)] + q, track) == Delivered(p + q, track)
    ensures Warnings(p + [Packet(id, r)] + q, track) == Warnings(p + q, track)
  {
    if p == [] {
      assert p + [Packet(id, r)] + q == [Packet(id, r)] + q;
      assert ([Packet(id, r)] + q)[1..] == q;
      assert p + q == q;
    } else {
      assert (p + [Packet(id, r)] + q)[0] == p[0] && (p + q)[0] == p[0];
      assert (p + [Packet(id, r)] + q)[1..] == p[1..] + [Packet(id, r)] + q;
      assert (p + q)[1..] == p[1..] + q;
      ForeignPacketSkipped(p[1..], id, r, q, track);
    }
  }

  /** A packet of the default track that fails to decode writes nothing; it
      adds one warning, and the loop continues with the next packet. */
  lemma {:induction false} DecodeErrorSkipped(p: seq<PacketResult>, q: seq<PacketResult>, track: nat)
    ensures Delivered(p + [Packet(track, DecodeError)] + q, track) == Delivered(p + q, track)
    ensures NoReadError(p) ==> Warnings(p + [Packet(track, DecodeError)] + q, track) == Warnings(p + q, track) + 1
  {
    var e := Packet(track, DecodeError);
    if p == [] {
      assert p + [e] + q == [e] + q;
      assert ([e] + q)[1..] == q;
      assert p + q == q;
    } else {
      assert (p + [e] + q)[0] == p[0] && (p + q)[0] == p[0];
      assert (p + [e] + q)[1..] == p[1..] + [e] + q;
      assert (p + q)[1..] == p[1..] + q;
      DecodeErrorSkipped(p[1..], q, track);
    }
  }

  /** Every successful decode of the default track before the first read
      error is written, in stream order. */
  lemma DecodedFrameWritten(p: seq<PacketResult>, f: AudioFrame, q: seq<PacketResult>, track: nat)
    requires NoReadError(p)
    ensures Delivered(p + [Packet(track, Decoded(f))] + q, track) == Delivered(p, track) + [f] + Delivered(q, track)
  {
    var e := Packet(track, Decoded(f));
    DeliveredSplit(p, [e] + q, track);
    assert p + [e] + q == p + ([e] + q);
    assert ([e] + q)[1..] == q;
  }

  /** The loop writes nothing (and `open` in `src/lib.rs` finds no output to
      pause) exactly when no packet of `track` before the first read error
      decodes successfully. */
  lemma {:induction false} NothingDelivered(packets: seq<PacketResult>, track: nat)
    ensures Delivered(packets, track) == [] <==>
      forall i :: 0 <= i < |packets| && NoReadError(packets[..i]) ==> FrameOf(packets[i], track) == []
  {
    if packets == [] {
    } else if packets[0].ReadError? {
      assert forall i :: 0 < i < |packets| ==> packets[..i][0] == packets[0];
    } else {
      var rest := packets[1..];
      NothingDelivered(rest, track);
      forall i | 0 < i < |packets|
        ensures NoReadError(packets[..i]) <==> NoReadError(rest[..i - 1])
        ensures packets[i] == rest[i - 1]
      {
        assert forall k :: 0 < k < i ==> packets[..i][k] == rest[..i - 1][k - 1];
        assert packets[..i][0] == packets[0];
      }
      if Delivered(packets, track) == [] {
        forall i | 0 <= i < |packets| && NoReadError(packets[..i])
          ensures FrameOf(packets[i], track) == []
        {
          if i > 0 {
            assert rest[i - 1] == packets[i];
          }
        }
      } else if FrameOf(packets[0], track) == [] {
        var j :| 0 <= j < |rest| && NoReadError(rest[..j]) && FrameOf(rest[j], track) != [];
        assert packets[j + 1] == rest[j];
      } else {
        assert NoReadError(packets[..0]);
      }
    }
  }

  /** Recovery from a transient decode error: of five packets of the default
      track, the third failing, the other four are written in order and one
      warning is reported. */
  lemma TransientErrorRecovery(track: nat, f1: AudioFrame, f2: AudioFrame, f4: AudioFrame, f5: AudioFrame)
    ensures
      var packets := [Packet(track, Decoded(f1)), Packet(track, Decoded(f2)), Packet(track, DecodeError),
                      Packet(track, Decoded(f4)), Packet(track, Decoded(f5))];
      Delivered(packets, track) == [f1, f2, f4, f5] && Warnings(packets, track) == 1
  {
    var packets := [Packet(track, Decoded(f1)), Packet(track, Decoded(f2)), Packet(track, DecodeError),
                    Packet(track, Decoded(f4)), Packet(track, Decoded(f5))];
    assert packets[4..][1..] == [];
    assert Delivered(packets[4..], track) == [f5] && Warnings(packets[4..], track) == 0;
    assert packets[3..][1..] == packets[4..];
    assert Delivered(packets[3..], track) == [f4, f5] && Warnings(packets[3..], track) == 0;
    assert packets[2..][1..] == packets[3..];
    assert Delivered(packets[2..], track) == [f4, f5] && Warnings(packets[2..], track) == 1;
    assert packets[1..][1..] == packets[2..];
    assert Delivered(packets[1..], track) == [f2, f4, f5];
  }
}
