/**
  * RTP packets: the writer of bench/whip_publisher.cpp, the payload reader of bench/whep_dump_av.py and the parser of
  * third/ireader/librtp that bench/gb_ps_demux.cpp uses. Layout after section 5.1 of RFC 3550, with the one-byte
  * header extension of section 4.2 of RFC 8285.
  */
module RtpPacket {
  import opened Arithmetic
  import opened Bytes
  import opened Options

  /** Twelve bytes of header, an eight-byte extension holding the MID, then the payload. */
  function Header(payloadType: Byte, marker: bool, sequence: U16, timestamp: U32, ssrc: U32, mid: Byte): (h: seq<Byte>)
    ensures |h| == 20
  {
    [0x90, if marker && payloadType < 128 then payloadType + 128 else payloadType]
    + U16Bytes(sequence) + U32Bytes(timestamp) + U32Bytes(ssrc) + [0xBE, 0xDE, 0, 1, 0x40, mid, 0, 0]
  }

  /** Copies `bytes` into the buffer at `at`. */
  method Put(buffer: array<Byte>, at: nat, bytes: seq<Byte>)
    requires at + |bytes| <= buffer.Length
    modifies buffer
    ensures buffer[..at] == old(buffer[..at]) && buffer[at..at + |bytes|] == bytes
  {
    for i := 0 to |bytes|
      invariant buffer[..at] == old(buffer[..at]) && buffer[at..at + i] == bytes[..i]
    {
      buffer[at + i] := bytes[i];
      assert buffer[at..at + i + 1] == buffer[at..at + i] + [bytes[i]];
    }
  }

  /** `make_rtp_packet`. */
  method MakePacket(payload: seq<Byte>, payloadType: Byte, marker: bool, sequence: U16, timestamp: U32, ssrc: U32, mid: Byte)
    returns (packet: seq<Byte>)
    ensures packet == Header(payloadType, marker, sequence, timestamp, ssrc, mid) + payload
  {
    var buffer := new Byte[20 + |payload|](_ => 0);
    Put(buffer, 0, Header(payloadType, marker, sequence, timestamp, ssrc, mid));
    Put(buffer, 20, payload);
    packet := buffer[..];
    assert packet == buffer[..20] + buffer[20..20 + |payload|];
  }

  /** Bytes of a packet in front of its payload, or None where Python would run off the end. */
  function PayloadOffset(p: seq<Byte>): (r: Option<nat>)
    ensures r.Some? ==> |p| > 0
  {
    if p == [] then None
    else
      var base := 12 + 4 * (p[0] % 16);
      if p[0] / 16 % 2 == 0 then Some(base)
      else if base + 4 > |p| then None
      else Some(base + 4 + 4 * U16At(p, base + 2))
  }

  /** `rtp_payload`; a negative end of a Python slice counts from the end, and an out-of-order slice is empty. */
  function Payload(p: seq<Byte>): Option<seq<Byte>> {
    match PayloadOffset(p)
    case None => None
    case Some(offset) =>
      var padding: int := if p[0] / 32 % 2 == 1 then p[|p| - 1] else 0;
      var end := if padding <= |p| then |p| - padding else Max(0, 2 * |p| - padding);
      Some(if offset <= end then p[offset..end] else [])
  }

  datatype Packet = Packet(marker: bool, payloadType: int, sequence: U16, timestamp: U32, ssrc: U32, payload: seq<Byte>)

  /** `rtp_packet_deserialize`. */
  function Deserialize(p: seq<Byte>): Option<Packet> {
    if |p| < 12 || p[0] / 64 != 2 then None
    else
      var header := 12 + 4 * (p[0] % 16);
      var extended := p[0] / 16 % 2 == 1;
      var padded := p[0] / 32 % 2 == 1;
      if |p| < header + (if extended then 4 else 0) + (if padded then 1 else 0) then None
      else
        var start := if extended then header + 4 + 4 * U16At(p, header + 2) else header;
        if start > |p| then None
        else
          var padding: int := if padded then p[|p| - 1] else 0;
          if |p| - start < padding then None
          else Some(Packet(p[1] / 128 == 1, p[1] % 128, U16At(p, 2), U32At(p, 4), U32At(p, 8), p[start..|p| - padding]))
  }

  /** The two readers agree on every packet that the stricter one accepts. */
  lemma ReadersAgree(p: seq<Byte>)
    requires Deserialize(p).Some?
    ensures Payload(p) == Some(Deserialize(p).value.payload)
  {
  }

  /** Reading back a written packet gives every field and exactly the payload. */
  lemma PacketRoundTrip(payload: seq<Byte>, payloadType: Byte, marker: bool, sequence: U16, timestamp: U32, ssrc: U32, mid: Byte)
    requires payloadType < 128
    ensures var p := Header(payloadType, marker, sequence, timestamp, ssrc, mid) + payload;
            && Payload(p) == Some(payload)
            && Deserialize(p) == Some(Packet(marker, payloadType, sequence, timestamp, ssrc, payload))
  {
    HeaderFields(payload, payloadType, marker, sequence, timestamp, ssrc, mid);
    ReadersAgree(Header(payloadType, marker, sequence, timestamp, ssrc, mid) + payload);
  }

  lemma HeaderFields(payload: seq<Byte>, payloadType: Byte, marker: bool, sequence: U16, timestamp: U32, ssrc: U32, mid: Byte)
    requires payloadType < 128
    ensures var p := Header(payloadType, marker, sequence, timestamp, ssrc, mid) + payload;
            && |p| == 20 + |payload| && p[0] == 0x90 && p[1] == payloadType + (if marker then 128 else 0)
            && U16At(p, 2) == sequence && U32At(p, 4) == timestamp && U32At(p, 8) == ssrc && U16At(p, 14) == 1
            && p[20..|p|] == payload
  {
    var h := Header(payloadType, marker, sequence, timestamp, ssrc, mid);
    var p := h + payload;
    assert h[2..4] == U16Bytes(sequence) && h[4..8] == U32Bytes(timestamp) && h[8..12] == U32Bytes(ssrc);
    assert p[14] == 0 && p[15] == 1;
    assert p[20..|p|] == payload;
  }
}
