/**
  * H.264 over RTP: `append_h264_nalu` of bench/whip_publisher.cpp against a depacketiser after sections 5.6 (single
  * NAL unit packets) and 5.8 (FU-A) of RFC 6184.
  */
module H264Packets {
  import opened Arithmetic
  import opened Bytes
  import opened Options
  import opened RtpPacket

  const MaxPayload := 1150

  function NalType(b: Byte): Byte {
    b % 32
  }

  /** F and NRI of the NAL unit with type 28. */
  function Indicator(b: Byte): Byte {
    b / 32 * 32 + 28
  }

  function FuHeader(b: Byte, start: bool, end: bool): Byte {
    b % 32 + (if start then 128 else 0) + (if end then 64 else 0)
  }

  function Fragment(nalu: seq<Byte>, offset: nat): (f: seq<Byte>)
    requires 1 <= offset < |nalu|
    ensures 2 < |f| <= MaxPayload
  {
    var size := Min(MaxPayload - 2, |nalu| - offset);
    [Indicator(nalu[0]), FuHeader(nalu[0], offset == 1, offset + size == |nalu|)] + nalu[offset..offset + size]
  }

  /** The FU-A fragments from byte `offset` on. */
  function Fragments(nalu: seq<Byte>, offset: nat): seq<seq<Byte>>
    requires 1 <= offset <= |nalu|
    decreases |nalu| - offset
  {
    if offset == |nalu| then []
    else [Fragment(nalu, offset)] + Fragments(nalu, offset + Min(MaxPayload - 2, |nalu| - offset))
  }

  function Payloads(nalu: seq<Byte>): seq<seq<Byte>> {
    if |nalu| <= MaxPayload then [nalu] else Fragments(nalu, 1)
  }

  function AllPayloads(nalus: seq<seq<Byte>>): seq<seq<Byte>>
    decreases |nalus|
  {
    if nalus == [] then [] else AllPayloads(nalus[..|nalus| - 1]) + Payloads(nalus[|nalus| - 1])
  }

  /** One access unit under construction: `frame.packets`, and the sequence counter of its track. */
  class AccessUnit {
    var packets: seq<seq<Byte>>
    ghost var nalus: seq<seq<Byte>>

    ghost predicate Valid()
      reads this
    {
      packets == AllPayloads(nalus)
    }

    constructor ()
      ensures Valid() && nalus == []
    {
      packets, nalus := [], [];
    }

    method Append(nalu: seq<Byte>)
      requires Valid()
      modifies this
      ensures Valid() && nalus == old(nalus) + [nalu]
    {
      ghost var before := packets;
      nalus := nalus + [nalu];
      assert nalus[..|nalus| - 1] == old(nalus);
      if |nalu| <= MaxPayload {
        packets := packets + [nalu];
        return;
      }
      var indicator := nalu[0] / 32 * 32 + 28;
      var offset := 1;
      assert before + Fragments(nalu, 1) == packets + Fragments(nalu, offset);
      while offset < |nalu|
        invariant 1 <= offset <= |nalu| && nalus == old(nalus) + [nalu]
        invariant packets + Fragments(nalu, offset) == before + Fragments(nalu, 1)
      {
        var size := Min(MaxPayload - 2, |nalu| - offset);
        var payload: seq<Byte> := [indicator];
        payload := payload + [FuHeader(nalu[0], offset == 1, offset + size == |nalu|)];
        payload := payload + nalu[offset..offset + size];
        assert payload == Fragment(nalu, offset);
        assert packets + Fragments(nalu, offset) == (packets + [payload]) + Fragments(nalu, offset + size);
        packets := packets + [payload];
        offset := offset + size;
      }
      assert packets + [] == packets;
    }

    /** `send_due_media` for this access unit: only the last packet is marked, numbers run on modulo 2^16. */
    method Send(sequence: U16, timestamp: U32, ssrc: U32) returns (sent: seq<seq<Byte>>, next: U16)
      requires Valid()
      ensures |sent| == |packets| && next == (sequence + |packets|) % 0x1_0000
      ensures forall i | 0 <= i < |sent| :: sent[i] == Wire(packets, i, sequence, timestamp, ssrc)
    {
      sent, next := [], sequence;
      for i := 0 to |packets|
        invariant |sent| == i && next == (sequence + i) % 0x1_0000
        invariant forall k | 0 <= k < i :: sent[k] == Wire(packets, k, sequence, timestamp, ssrc)
      {
        var packet := MakePacket(packets[i], 102, i == |packets| - 1, next, timestamp, ssrc, 0x30);
        assert packet == Wire(packets, i, sequence, timestamp, ssrc);
        sent := sent + [packet];
        NextSequence(sequence, i);
        next := (next + 1) % 0x1_0000;
      }
    }
  }

  lemma NextSequence(sequence: U16, i: nat)
    ensures ((sequence + i) % 0x1_0000 + 1) % 0x1_0000 == (sequence + (i + 1)) % 0x1_0000
  {
  }

  /** Packet `i` of an access unit on the wire. */
  function Wire(payloads: seq<seq<Byte>>, i: nat, sequence: U16, timestamp: U32, ssrc: U32): seq<Byte>
    requires i < |payloads|
  {
    Header(102, i == |payloads| - 1, (sequence + i) % 0x1_0000, timestamp, ssrc, 0x30) + payloads[i]
  }

  // ---------------------------------------------------------------------------------------------
  // Depacketisation
  // ---------------------------------------------------------------------------------------------

  /** Complete NAL units and one that is being reassembled. */
  datatype Receiver = Receiver(done: seq<seq<Byte>>, partial: Option<seq<Byte>>) | Broken

  predicate Carried(t: int) {
    1 <= t <= 23
  }

  function Feed(r: Receiver, p: seq<Byte>): Receiver {
    if r.Broken? || p == [] then Broken
    else if Carried(NalType(p[0])) then
      if r.partial.None? then Receiver(r.done + [p], None) else Broken
    else if NalType(p[0]) != 28 || |p| < 2 then Broken
    else
      var start := p[1] / 128 == 1;
      var end := p[1] / 64 % 2 == 1;
      var header: Byte := p[0] / 32 * 32 + p[1] % 32;
      if (start && end) || !Carried(p[1] % 32) || (start <==> r.partial.Some?) then Broken
      else if !start && (r.partial.value == [] || r.partial.value[0] != header) then Broken
      else
        var nalu := (if start then [header] else r.partial.value) + p[2..];
        if end then Receiver(r.done + [nalu], None) else Receiver(r.done, Some(nalu))
  }

  function FeedAll(r: Receiver, ps: seq<seq<Byte>>): Receiver
    decreases |ps|
  {
    if ps == [] then r else FeedAll(Feed(r, ps[0]), ps[1..])
  }

  const Empty := Receiver([], None)

  /** The NAL units in a list of payloads, if it is complete and well-formed. */
  function Depacketize(ps: seq<seq<Byte>>): Option<seq<seq<Byte>>> {
    match FeedAll(Empty, ps)
    case Receiver(done, None) => Some(done)
    case _ => None
  }

  lemma {:induction false} FeedConcat(r: Receiver, a: seq<seq<Byte>>, b: seq<seq<Byte>>)
    ensures FeedAll(r, a + b) == FeedAll(FeedAll(r, a), b)
    decreases |a|
  {
    if a == [] {
      assert a + b == b;
    } else {
      assert (a + b)[1..] == a[1..] + b;
      FeedConcat(Feed(r, a[0]), a[1..], b);
    }
  }

  /** A NAL unit that RFC 6184 can carry in these two packet types. */
  predicate Sendable(nalu: seq<Byte>) {
    nalu != [] && Carried(NalType(nalu[0]))
  }

  /** The fields a receiver reads from a fragment. */
  lemma FragmentFields(nalu: seq<Byte>, offset: nat)
    requires 1 <= offset < |nalu|
    ensures var f := Fragment(nalu, offset); var size := Min(MaxPayload - 2, |nalu| - offset);
            && NalType(f[0]) == 28 && f[0] / 32 == nalu[0] / 32 && f[1] % 32 == NalType(nalu[0])
            && (f[1] / 128 == 1 <==> offset == 1) && (f[1] / 64 % 2 == 1 <==> offset + size == |nalu|)
            && f[2..] == nalu[offset..offset + size]
  {
  }

  lemma FeedFragment(done: seq<seq<Byte>>, nalu: seq<Byte>, offset: nat)
    requires Sendable(nalu) && |nalu| > MaxPayload && 1 <= offset < |nalu|
    ensures var size := Min(MaxPayload - 2, |nalu| - offset);
            Feed(Receiver(done, if offset == 1 then None else Some(nalu[..offset])), Fragment(nalu, offset))
            == if offset + size == |nalu| then Receiver(done + [nalu], None) else Receiver(done, Some(nalu[..offset + size]))
  {
    FragmentFields(nalu, offset);
    var size := Min(MaxPayload - 2, |nalu| - offset);
    assert nalu[..offset] + nalu[offset..offset + size] == nalu[..offset + size];
    assert nalu[..1] == [nalu[0]] && nalu[..offset][..1] == nalu[..1];
    assert nalu[..|nalu|] == nalu;
  }

  lemma {:induction false} FeedFragments(done: seq<seq<Byte>>, nalu: seq<Byte>, offset: nat)
    requires Sendable(nalu) && |nalu| > MaxPayload && 1 <= offset < |nalu|
    ensures FeedAll(Receiver(done, if offset == 1 then None else Some(nalu[..offset])), Fragments(nalu, offset)) == Receiver(done + [nalu], None)
    decreases |nalu| - offset
  {
    var next := offset + Min(MaxPayload - 2, |nalu| - offset);
    FeedFragment(done, nalu, offset);
    assert Fragments(nalu, offset)[1..] == Fragments(nalu, next);
    if next < |nalu| {
      FeedFragments(done, nalu, next);
    }
  }

  lemma FeedNalu(done: seq<seq<Byte>>, nalu: seq<Byte>)
    requires Sendable(nalu)
    ensures FeedAll(Receiver(done, None), Payloads(nalu)) == Receiver(done + [nalu], None)
  {
    if |nalu| <= MaxPayload {
      assert [nalu][1..] == [];
      assert FeedAll(Receiver(done, None), [nalu]) == FeedAll(Feed(Receiver(done, None), nalu), [nalu][1..]);
    } else {
      FeedFragments(done, nalu, 1);
    }
  }

  lemma {:induction false} FeedAccessUnit(nalus: seq<seq<Byte>>)
    requires forall i | 0 <= i < |nalus| :: Sendable(nalus[i])
    ensures FeedAll(Empty, AllPayloads(nalus)) == Receiver(nalus, None)
    decreases |nalus|
  {
    if nalus != [] {
      var front, last := nalus[..|nalus| - 1], nalus[|nalus| - 1];
      FeedAccessUnit(front);
      FeedConcat(Empty, AllPayloads(front), Payloads(last));
      FeedNalu(front, last);
      assert front + [last] == nalus;
    }
  }

  /** Whatever a receiver accepts, it delivers only units of types 1 to 23. */
  predicate OnlySendable(r: Receiver) {
    r.Receiver? ==> && (forall i | 0 <= i < |r.done| :: Sendable(r.done[i]))
                    && (r.partial.Some? ==> Sendable(r.partial.value))
  }

  lemma {:induction false} FeedDeliversSendable(r: Receiver, ps: seq<seq<Byte>>)
    requires OnlySendable(r)
    ensures OnlySendable(FeedAll(r, ps))
    decreases |ps|
  {
    if ps != [] {
      FeedDeliversSendable(Feed(r, ps[0]), ps[1..]);
    }
  }

  /** Packetising and depacketising is the identity exactly on access units whose NAL units are non-empty, of types 1 to 23. */
  lemma AccessUnitRoundTrip(nalus: seq<seq<Byte>>)
    ensures Depacketize(AllPayloads(nalus)) == Some(nalus) <==> forall i | 0 <= i < |nalus| :: Sendable(nalus[i])
  {
    if forall i | 0 <= i < |nalus| :: Sendable(nalus[i]) {
      FeedAccessUnit(nalus);
    } else {
      FeedDeliversSendable(Empty, AllPayloads(nalus));
    }
  }

  // ---------------------------------------------------------------------------------------------
  // Shape of the packets
  // ---------------------------------------------------------------------------------------------

  predicate StartBit(p: seq<Byte>) {
    |p| >= 2 && p[1] / 128 == 1
  }

  predicate EndBit(p: seq<Byte>) {
    |p| >= 2 && p[1] / 64 % 2 == 1
  }

  /** From `offset` on: the start bit on the unit's first fragment only, the end bit on its last only. */
  lemma {:induction false} FragmentBits(nalu: seq<Byte>, offset: nat, i: nat)
    requires 1 <= offset < |nalu| && i < |Fragments(nalu, offset)|
    ensures var fs := Fragments(nalu, offset);
            && |fs[i]| <= MaxPayload
            && (StartBit(fs[i]) <==> offset == 1 && i == 0)
            && (EndBit(fs[i]) <==> i == |fs| - 1)
    decreases |nalu| - offset
  {
    FragmentFields(nalu, offset);
    var next := offset + Min(MaxPayload - 2, |nalu| - offset);
    if i > 0 {
      FragmentBits(nalu, next, i - 1);
    }
  }

  /** Every payload fits; a fragmented unit has one start bit and one end bit, never on the same fragment. */
  lemma PayloadShape(nalu: seq<Byte>, i: nat)
    requires i < |Payloads(nalu)|
    ensures |Payloads(nalu)[i]| <= MaxPayload
    ensures |nalu| > MaxPayload ==> var fs := Payloads(nalu);
              && |fs| >= 2 && (StartBit(fs[i]) <==> i == 0) && (EndBit(fs[i]) <==> i == |fs| - 1) && !(StartBit(fs[i]) && EndBit(fs[i]))
  {
    if |nalu| > MaxPayload {
      FragmentBits(nalu, 1, i);
      assert |Fragments(nalu, MaxPayload - 1)| >= 1;
    }
  }

  /** What one access unit looks like to a receiver: its payloads, with consecutive numbers and one marker at the end. */
  lemma WireRoundTrip(payloads: seq<seq<Byte>>, i: nat, sequence: U16, timestamp: U32, ssrc: U32)
    requires i < |payloads|
    ensures Deserialize(Wire(payloads, i, sequence, timestamp, ssrc))
         == Some(Packet(i == |payloads| - 1, 102, (sequence + i) % 0x1_0000, timestamp, ssrc, payloads[i]))
  {
    PacketRoundTrip(payloads[i], 102, i == |payloads| - 1, (sequence + i) % 0x1_0000, timestamp, ssrc, 0x30);
  }

  /** The payloads a receiver reads from the packets of one access unit. */
  function Received(payloads: seq<seq<Byte>>, sequence: U16, timestamp: U32, ssrc: U32): seq<Option<seq<Byte>>> {
    seq(|payloads|, i requires 0 <= i < |payloads| => Payload(Wire(payloads, i, sequence, timestamp, ssrc)))
  }

  /** Encoder to decoder: sendable NAL units, packetised, sent and read back, are the NAL units again. */
  lemma SentAccessUnitArrives(nalus: seq<seq<Byte>>, sequence: U16, timestamp: U32, ssrc: U32) returns (read: seq<seq<Byte>>)
    requires forall i | 0 <= i < |nalus| :: Sendable(nalus[i])
    ensures var got := Received(AllPayloads(nalus), sequence, timestamp, ssrc);
            |got| == |read| && (forall i | 0 <= i < |got| :: got[i] == Some(read[i])) && Depacketize(read) == Some(nalus)
  {
    read := AllPayloads(nalus);
    forall i: nat | i < |read| ensures Payload(Wire(read, i, sequence, timestamp, ssrc)) == Some(read[i]) {
      WireRoundTrip(read, i, sequence, timestamp, ssrc);
      ReadersAgree(Wire(read, i, sequence, timestamp, ssrc));
    }
    AccessUnitRoundTrip(nalus);
  }
}
