/**
  * The dump reader of bench/gb_ps_demux.cpp: RTP packets framed as in section 2 of RFC 4571, PS packs that start an
  * RTP payload, 33-bit timestamps unwrapped as section 2.4.3.7 of ISO/IEC 13818-1 lets them wrap, and ADTS frames.
  */
module PsDemux {
  import opened Bytes
  import opened Options
  import opened RtpPacket

  // ---------------------------------------------------------------------------------------------
  // Timestamps
  // ---------------------------------------------------------------------------------------------

  const Period := 0x2_0000_0000

  datatype Track = Track(lastRaw: Option<int>, wrapOffset: int)

  function Unwrapped(t: Track, raw: int): (Track, int) {
    var offset := t.wrapOffset + (if t.lastRaw.Some? && raw < t.lastRaw.value && t.lastRaw.value - raw > Period / 2 then Period else 0);
    (Track(Some(raw), offset), raw + offset)
  }

  /** C++ remainder: the sign of the dividend. */
  function Remainder(a: int, n: int): int
    requires n > 0
  {
    if a >= 0 then a % n else -((-a) % n)
  }

  /** The signed distance from DTS to PTS in `on_packet`. */
  function PtsOffset(pts: int, dts: int): int {
    var offset := Remainder(pts - dts, Period);
    offset + (if offset < -(Period / 2) then Period else 0)
  }

  class TrackState {
    var lastRaw: Option<int>
    var wrapOffset: int

    function View(): Track
      reads this
    {
      Track(lastRaw, wrapOffset)
    }

    constructor ()
      ensures View() == Track(None, 0)
    {
      lastRaw, wrapOffset := None, 0;
    }

    /** `unwrap` and the PTS arithmetic of one packet. */
    method Stamp(pts: int, dts: int) returns (truePts: int, trueDts: int)
      modifies this
      ensures (View(), trueDts) == Unwrapped(old(View()), dts) && truePts == trueDts + PtsOffset(pts, dts)
    {
      var offset := Remainder(pts - dts, Period);
      if offset < -(Period / 2) {
        offset := offset + Period;
      }
      if lastRaw.Some? && dts < lastRaw.value && lastRaw.value - dts > Period / 2 {
        wrapOffset := wrapOffset + Period;
      }
      lastRaw := Some(dts);
      trueDts := dts + wrapOffset;
      truePts := trueDts + offset;
    }
  }

  /** The track stands at the unbounded time `d`, ahead of it by `drift`. */
  predicate At(t: Track, d: int, drift: int) {
    t.lastRaw == Some(d % Period) && t.wrapOffset == d - d % Period + drift
  }

  /** `e` lies in the epoch of `d`, at most half a period behind it, or in the next one, less than half a period ahead. */
  predicate Recoverable(d: int, e: int) {
    (e / Period == d / Period && d - e <= Period / 2) || (e / Period == d / Period + 1 && e - d < Period / 2)
  }

  /** A step, forward or back, of any length, is recovered if and only if it is recoverable; a drift stays. */
  lemma UnwrapStepIff(t: Track, d: int, e: int, drift: int)
    requires At(t, d, drift)
    ensures Unwrapped(t, e % Period).1 == e + drift <==> Recoverable(d, e)
    ensures Recoverable(d, e) ==> At(Unwrapped(t, e % Period).0, e, drift)
  {
    assert d == Period * (d / Period) + d % Period && e == Period * (e / Period) + e % Period;
  }

  /** The distance from DTS to PTS is recovered under the same condition. */
  lemma PtsOffsetIff(pts: int, dts: int)
    ensures PtsOffset(pts % Period, dts % Period) == pts - dts <==> Recoverable(dts, pts)
  {
    assert dts == Period * (dts / Period) + dts % Period && pts == Period * (pts / Period) + pts % Period;
    var raw := pts % Period - dts % Period;
    RemainderOfSmall(raw);
  }

  lemma RemainderOfSmall(a: int)
    requires -Period < a < Period
    ensures Remainder(a, Period) == a
  {
  }

  datatype Stamps = Stamps(pts: int, dts: int)

  function TrackAfter(ss: seq<Stamps>): Track
    decreases |ss|
  {
    if ss == [] then Track(None, 0) else Unwrapped(TrackAfter(ss[..|ss| - 1]), ss[|ss| - 1].dts % Period).0
  }

  /** Packet `i` gets its true, unbounded timestamps back. */
  predicate Recovered(ss: seq<Stamps>, i: nat)
    requires i < |ss|
  {
    var dts := Unwrapped(TrackAfter(ss[..i]), ss[i].dts % Period).1;
    dts == ss[i].dts && dts + PtsOffset(ss[i].pts % Period, ss[i].dts % Period) == ss[i].pts
  }

  /** Packet `i` starts in the first epoch or is a recoverable step from the one before, and its PTS is recoverable. */
  predicate Regular(ss: seq<Stamps>, i: nat)
    requires i < |ss|
  {
    && Recoverable(ss[i].dts, ss[i].pts)
    && if i == 0 then 0 <= ss[i].dts < Period else Recoverable(ss[i - 1].dts, ss[i].dts)
  }

  lemma FirstStamp(dts: int)
    ensures Unwrapped(Track(None, 0), dts % Period).1 == dts <==> 0 <= dts < Period
    ensures 0 <= dts < Period ==> At(Unwrapped(Track(None, 0), dts % Period).0, dts, 0)
  {
  }

  /** Packet `k` after regular ones. */
  lemma OnePacket(ss: seq<Stamps>, k: nat)
    requires k < |ss| && (k > 0 ==> At(TrackAfter(ss[..k]), ss[k - 1].dts, 0))
    ensures Recovered(ss, k) <==> Regular(ss, k)
    ensures Regular(ss, k) ==> At(TrackAfter(ss[..k + 1]), ss[k].dts, 0)
  {
    assert ss[..k + 1][..k] == ss[..k] && ss[..k + 1][k] == ss[k];
    PtsOffsetIff(ss[k].pts, ss[k].dts);
    if k == 0 {
      assert ss[..0] == [];
      FirstStamp(ss[k].dts);
    } else {
      UnwrapStepIff(TrackAfter(ss[..k]), ss[k - 1].dts, ss[k].dts, 0);
    }
  }

  /** The packets up to `n` are all recovered if and only if all are regular, and then the track stands at the last. */
  lemma {:induction false} RecoveredUpToIff(ss: seq<Stamps>, n: nat)
    requires n <= |ss|
    ensures (forall i | 0 <= i < n :: Recovered(ss, i)) <==> (forall i | 0 <= i < n :: Regular(ss, i))
    ensures n > 0 && (forall i | 0 <= i < n :: Regular(ss, i)) ==> At(TrackAfter(ss[..n]), ss[n - 1].dts, 0)
  {
    if n > 0 {
      RecoveredUpToIff(ss, n - 1);
      if forall i | 0 <= i < n - 1 :: Regular(ss, i) {
        OnePacket(ss, n - 1);
      }
    }
  }

  /** The demuxer recovers every unbounded DTS and PTS of a track if and only if every packet of it is regular. */
  lemma TimestampsAreRecoveredIff(ss: seq<Stamps>)
    ensures (forall i | 0 <= i < |ss| :: Recovered(ss, i)) <==> (forall i | 0 <= i < |ss| :: Regular(ss, i))
  {
    RecoveredUpToIff(ss, |ss|);
  }

  /** Steps below 2^32, forward, with PTS less than 2^32 ahead, are all regular. */
  lemma ForwardTrackIsRegular(ss: seq<Stamps>, i: nat)
    requires i < |ss| && 0 <= ss[0].dts < Period
    requires forall k | 0 <= k < |ss| :: 0 <= ss[k].pts - ss[k].dts < Period / 2
    requires forall j, k | 0 <= j < k < |ss| && k == j + 1 :: 0 <= ss[k].dts - ss[j].dts < Period / 2
    ensures Regular(ss, i)
  {
    ShortStep(ss[i].dts, ss[i].pts);
    if i > 0 { ShortStep(ss[i - 1].dts, ss[i].dts); }
  }

  lemma ShortStep(d: int, e: int)
    requires 0 <= e - d < Period / 2
    ensures Recoverable(d, e)
  {
  }

  /** The track after more DTS. */
  function Continued(t: Track, ds: seq<int>): Track
    decreases |ds|
  {
    if ds == [] then t else Continued(Unwrapped(t, ds[0] % Period).0, ds[1..])
  }

  predicate RecoverableFrom(d: int, ds: seq<int>)
    decreases |ds|
  {
    ds == [] || (Recoverable(d, ds[0]) && RecoverableFrom(ds[0], ds[1..]))
  }

  /** A drift is never made good by recoverable steps: every later DTS is off by it. */
  lemma {:induction false} DriftStays(t: Track, d: int, drift: int, ds: seq<int>)
    requires At(t, d, drift) && RecoverableFrom(d, ds)
    ensures At(Continued(t, ds), if ds == [] then d else ds[|ds| - 1], drift)
    decreases |ds|
  {
    if ds != [] {
      UnwrapStepIff(t, d, ds[0], drift);
      DriftStays(Unwrapped(t, ds[0] % Period).0, ds[0], drift, ds[1..]);
    }
  }

  /**
    * It happens: half a period forward from the end of the first epoch is not seen as a wrap, and every later DTS is a
    * period behind, whatever recoverable steps follow.
    */
  lemma HalfPeriodStepIsLost(ds: seq<int>)
    requires RecoverableFrom(Period - 1 + Period / 2, ds)
    ensures var d := Period - 1; var e := d + Period / 2;
            var t := Unwrapped(Unwrapped(Track(None, 0), d % Period).0, e % Period);
            t.1 == e - Period && At(Continued(t.0, ds), if ds == [] then e else ds[|ds| - 1], -Period)
  {
    var d, e := Period - 1, Period - 1 + Period / 2;
    FirstStamp(d);
    DriftStays(Unwrapped(Unwrapped(Track(None, 0), d % Period).0, e % Period).0, e, -Period, ds);
  }

  /** And a short step back across a wrap is read as a step forward by nearly a period, so the test for increasing DTS passes it. */
  lemma StepBackIsReadForward(d: int, e: int, t: Track)
    requires At(t, d, 0) && e / Period == d / Period - 1 && d - e < Period / 2
    ensures Unwrapped(t, e % Period).1 == e + Period > d
  {
    assert d == Period * (d / Period) + d % Period && e == Period * (e / Period) + e % Period;
  }

  // ---------------------------------------------------------------------------------------------
  // Records
  // ---------------------------------------------------------------------------------------------

  /** `encode_records`, for records that a 16-bit length can describe. */
  function Encode(records: seq<seq<Byte>>): seq<Byte>
    requires forall i | 0 <= i < |records| :: |records[i]| < 0x1_0000
    decreases |records|
  {
    if records == [] then [] else U16Bytes(|records[0]|) + records[0] + Encode(records[1..])
  }

  /** Whether a whole record starts the data. */
  predicate StartsRecord(data: seq<Byte>) {
    |data| >= 2 && |data| - 2 >= U16At(data, 0)
  }

  /** The whole records of a dump and the truncated rest. */
  function Records(data: seq<Byte>): (r: (seq<seq<Byte>>, seq<Byte>))
    ensures forall i | 0 <= i < |r.0| :: |r.0[i]| < 0x1_0000
    decreases |data|
  {
    if !StartsRecord(data) then ([], data)
    else
      var n := 2 + U16At(data, 0);
      var (rest, left) := Records(data[n..]);
      ([data[2..n]] + rest, left)
  }

  /** Reading what was encoded gives the records and no rest. */
  lemma {:induction false} RecordsOfEncode(records: seq<seq<Byte>>)
    requires forall i | 0 <= i < |records| :: |records[i]| < 0x1_0000
    ensures Records(Encode(records)) == (records, [])
    decreases |records|
  {
    if records != [] {
      var head, tail := U16Bytes(|records[0]|), Encode(records[1..]);
      var data := Encode(records);
      assert data == head + (records[0] + tail);
      assert U16At(data, 0) == |records[0]|;
      assert data[2..2 + |records[0]|] == records[0];
      assert data[2 + |records[0]|..] == tail;
      RecordsOfEncode(records[1..]);
      assert [records[0]] + records[1..] == records;
    }
  }

  /** Every dump is its whole records, encoded, and a rest that starts no record. */
  lemma {:induction false} EncodeOfRecords(data: seq<Byte>)
    ensures data == Encode(Records(data).0) + Records(data).1 && !StartsRecord(Records(data).1)
    decreases |data|
  {
    if StartsRecord(data) {
      var n := 2 + U16At(data, 0);
      EncodeOfRecords(data[n..]);
      var (rest, left) := Records(data[n..]);
      RecordInFront(data, rest, left);
    }
  }

  lemma RecordInFront(data: seq<Byte>, rest: seq<seq<Byte>>, left: seq<Byte>)
    requires StartsRecord(data) && forall i | 0 <= i < |rest| :: |rest[i]| < 0x1_0000
    requires data[2 + U16At(data, 0)..] == Encode(rest) + left
    ensures data == Encode([data[2..2 + U16At(data, 0)]] + rest) + left
  {
    var n := 2 + U16At(data, 0);
    EncodeFirst(data[2..n], rest);
    HeaderBytes(data);
    assert |data[2..n]| == U16At(data, 0);
    Reassociate(data[..2] + data[2..n], Encode(rest), left);
    ThreeParts(data, n);
  }

  lemma ThreeParts<T>(s: seq<T>, n: nat)
    requires 2 <= n <= |s|
    ensures (s[..2] + s[2..n]) + s[n..] == s
  {
  }

  lemma EncodeFirst(record: seq<Byte>, rest: seq<seq<Byte>>)
    requires |record| < 0x1_0000 && forall i | 0 <= i < |rest| :: |rest[i]| < 0x1_0000
    ensures Encode([record] + rest) == U16Bytes(|record|) + record + Encode(rest)
  {
    assert ([record] + rest)[1..] == rest;
  }

  lemma HeaderBytes(data: seq<Byte>)
    requires |data| >= 2
    ensures U16Bytes(U16At(data, 0)) == data[..2]
  {
  }

  // ---------------------------------------------------------------------------------------------
  // Packs
  // ---------------------------------------------------------------------------------------------

  predicate PackStart(p: seq<Byte>) {
    |p| >= 4 && p[..4] == [0, 0, 1, 0xBA]
  }

  /** The payloads of the valid RTP packets among the records. */
  function ValidPayloads(records: seq<seq<Byte>>): seq<seq<Byte>>
    decreases |records|
  {
    if records == [] then []
    else
      var p := Deserialize(records[|records| - 1]);
      ValidPayloads(records[..|records| - 1]) + (if p.Some? && p.value.payload != [] then [p.value.payload] else [])
  }

  /** Packs fed to the demuxer so far, the pack under construction, and whether a pack header has been seen. */
  datatype Packs = Packs(fed: seq<seq<Byte>>, pending: seq<Byte>, started: bool)

  function Add(k: Packs, payload: seq<Byte>): Packs {
    if PackStart(payload) then Packs(if k.started then k.fed + [k.pending] else k.fed, payload, true)
    else k.(pending := k.pending + payload)
  }

  function Packed(payloads: seq<seq<Byte>>): Packs
    decreases |payloads|
  {
    if payloads == [] then Packs([], [], false) else Add(Packed(payloads[..|payloads| - 1]), payloads[|payloads| - 1])
  }

  /** The record and pack loop of `main`. */
  method Demux(dump: seq<Byte>) returns (packs: Packs, truncated: bool, packets: nat)
    ensures packs == Packed(ValidPayloads(Records(dump).0))
    ensures truncated <==> Records(dump).1 != []
    ensures packets == |Records(dump).0|
  {
    packs, truncated, packets := Packs([], [], false), false, 0;
    var offset := 0;
    ghost var seen: seq<seq<Byte>> := [];
    assert dump[0..] == dump;
    while offset < |dump|
      invariant 0 <= offset <= |dump| && packets == |seen| && ReadUpTo(dump, offset, seen)
      invariant Fed(packs, seen)
    {
      if |dump| - offset < 2 || |dump| - offset - 2 < U16At(dump, offset) {
        truncated := true;
        break;
      }
      var length := U16At(dump, offset);
      var record := dump[offset + 2..offset + 2 + length];
      NextRecord(dump, offset, seen);
      packs, packets, offset := Consume(packs, seen, record), packets + 1, offset + 2 + length;
      seen := seen + [record];
    }
    EndOfRecords(dump, offset, seen);
  }

  lemma EndOfRecords(dump: seq<Byte>, offset: nat, seen: seq<seq<Byte>>)
    requires offset <= |dump| && ReadUpTo(dump, offset, seen) && !StartsRecord(dump[offset..])
    ensures Records(dump) == (seen, dump[offset..])
  {
    assert Records(dump[offset..]) == ([], dump[offset..]);
    assert seen + [] == seen;
  }

  ghost predicate Fed(packs: Packs, seen: seq<seq<Byte>>) {
    packs == Packed(ValidPayloads(seen))
  }

  /** `seen` are the records before `offset`. */
  ghost predicate ReadUpTo(dump: seq<Byte>, offset: nat, seen: seq<seq<Byte>>)
    requires offset <= |dump|
  {
    Records(dump).0 == seen + Records(dump[offset..]).0 && Records(dump).1 == Records(dump[offset..]).1
  }

  lemma NextRecord(dump: seq<Byte>, offset: nat, seen: seq<seq<Byte>>)
    requires offset + 2 <= |dump| && offset + 2 + U16At(dump, offset) <= |dump| && ReadUpTo(dump, offset, seen)
    ensures var next := offset + 2 + U16At(dump, offset); ReadUpTo(dump, next, seen + [dump[offset + 2..next]])
  {
    var n := 2 + U16At(dump, offset);
    FirstRecord(dump, offset);
    Reassociate(seen, [dump[offset + 2..offset + n]], Records(dump[offset + n..]).0);
  }

  lemma FirstRecord(dump: seq<Byte>, offset: nat)
    requires offset + 2 <= |dump| && offset + 2 + U16At(dump, offset) <= |dump|
    ensures var next := offset + 2 + U16At(dump, offset); var r := Records(dump[next..]);
            Records(dump[offset..]) == ([dump[offset + 2..next]] + r.0, r.1)
  {
    var rest, n := dump[offset..], 2 + U16At(dump, offset);
    assert U16At(rest, 0) == U16At(dump, offset);
    assert rest[2..n] == dump[offset + 2..offset + n];
    assert rest[n..] == dump[offset + n..];
  }

  /** One record: an invalid packet is counted and skipped. */
  function Consume(k: Packs, ghost seen: seq<seq<Byte>>, record: seq<Byte>): (r: Packs)
    requires Fed(k, seen)
    ensures Fed(r, seen + [record])
  {
    var p := Deserialize(record);
    assert (seen + [record])[..|seen|] == seen;
    assert ValidPayloads(seen) + [] == ValidPayloads(seen);
    if p.None? || p.value.payload == [] then k
    else
      assert (ValidPayloads(seen) + [p.value.payload])[..|ValidPayloads(seen)|] == ValidPayloads(seen);
      Add(k, p.value.payload)
  }

  /** Index of the first payload with a pack header, or the length. */
  function FirstPack(payloads: seq<seq<Byte>>): (k: nat)
    ensures k <= |payloads| && (forall i | 0 <= i < k :: !PackStart(payloads[i])) && (k < |payloads| ==> PackStart(payloads[k]))
    decreases |payloads|
  {
    if payloads == [] then 0
    else
      var k := FirstPack(payloads[..|payloads| - 1]);
      if k < |payloads| - 1 || PackStart(payloads[|payloads| - 1]) then k else |payloads|
  }

  function CountPacks(payloads: seq<seq<Byte>>): nat
    decreases |payloads|
  {
    if payloads == [] then 0 else CountPacks(payloads[..|payloads| - 1]) + (if PackStart(payloads[|payloads| - 1]) then 1 else 0)
  }

  lemma StartSurvives(a: seq<Byte>, b: seq<Byte>)
    requires PackStart(a)
    ensures PackStart(a + b)
  {
    assert (a + b)[..4] == a[..4];
  }

  /**
    * The fed packs followed by the pending bytes are all payload bytes from the first pack header on, and each
    * begins with its header; without any header nothing is fed and all bytes stay pending.
    */
  predicate Partitions(k: Packs, payloads: seq<seq<Byte>>) {
    var first := FirstPack(payloads);
    && (k.started <==> first < |payloads|)
    && Join(k.fed) + k.pending == Join(payloads[if k.started then first else 0..])
    && (forall i | 0 <= i < |k.fed| :: PackStart(k.fed[i]))
    && (k.started ==> PackStart(k.pending))
    && (!k.started ==> k.fed == [])
    && CountPacks(payloads) == |k.fed| + (if k.started then 1 else 0)
  }

  lemma AddWhenStarted(k: Packs, front: seq<seq<Byte>>, last: seq<Byte>)
    requires Partitions(k, front) && k.started
    ensures Partitions(Add(k, last), front + [last])
  {
    var payloads, first := front + [last], FirstPack(front);
    assert payloads[..|front|] == front;
    assert payloads[first..] == front[first..] + [last];
    JoinSnoc(front[first..], last);
    JoinSnoc(k.fed, k.pending);
    StartSurvives(k.pending, last);
  }

  lemma AddBeforeStart(k: Packs, front: seq<seq<Byte>>, last: seq<Byte>)
    requires Partitions(k, front) && !k.started
    ensures Partitions(Add(k, last), front + [last])
  {
    var payloads := front + [last];
    assert payloads[..|front|] == front && front[0..] == front && payloads[0..] == payloads && payloads[|front|..] == [last];
    JoinSnoc(front, last);
    assert Join([last]) == last + Join([last][1..]);
  }

  lemma {:induction false} PacksPartitionPayloads(payloads: seq<seq<Byte>>)
    ensures Partitions(Packed(payloads), payloads)
    decreases |payloads|
  {
    if payloads != [] {
      var front, last := payloads[..|payloads| - 1], payloads[|payloads| - 1];
      PacksPartitionPayloads(front);
      assert payloads == front + [last];
      if Packed(front).started { AddWhenStarted(Packed(front), front, last); } else { AddBeforeStart(Packed(front), front, last); }
    }
  }

  // ---------------------------------------------------------------------------------------------
  // ADTS
  // ---------------------------------------------------------------------------------------------

  function AdtsLength(f: seq<Byte>): nat
    requires |f| >= 7
  {
    var high: int, mid: int, low: int := f[3], f[4], f[5];
    high % 4 * 2048 + mid * 8 + low / 32
  }

  /** Sync word, layer 0, and a length of at least the fixed header that fits the data. */
  predicate StartsFrame(data: seq<Byte>) {
    && |data| >= 7 && data[0] == 0xFF && data[1] / 16 == 15 && data[1] / 2 % 4 == 0
    && 7 <= AdtsLength(data) <= |data|
  }

  predicate IsFrame(f: seq<Byte>) {
    StartsFrame(f) && AdtsLength(f) == |f|
  }

  /** Raw data blocks of a frame. */
  function Blocks(f: seq<Byte>): nat
    requires |f| >= 7
  {
    1 + f[6] % 4
  }

  function CountBlocks(frames: seq<seq<Byte>>): nat
    requires forall i | 0 <= i < |frames| :: IsFrame(frames[i])
    decreases |frames|
  {
    if frames == [] then 0 else assert IsFrame(frames[0]); Blocks(frames[0]) + CountBlocks(frames[1..])
  }

  /** The frames that make up the data, or None. */
  function Frames(data: seq<Byte>): (r: Option<seq<seq<Byte>>>)
    ensures r.Some? ==> Join(r.value) == data && forall i | 0 <= i < |r.value| :: IsFrame(r.value[i])
    decreases |data|
  {
    if data == [] then Some([])
    else if !StartsFrame(data) then None
    else
      var n := AdtsLength(data);
      match Frames(data[n..])
      case None => None
      case Some(rest) =>
        assert ([data[..n]] + rest)[1..] == rest;
        Some([data[..n]] + rest)
  }

  /** `adts_frames`: the number of raw data blocks of a whole number of frames. */
  method AdtsFrames(data: seq<Byte>) returns (r: Option<nat>)
    ensures r.Some? <==> Frames(data).Some?
    ensures r.Some? ==> r.value == CountBlocks(Frames(data).value)
  {
    var frames, offset := 0, 0;
    assert data[0..] == data;
    while offset < |data|
      invariant 0 <= offset <= |data|
      invariant Frames(data).Some? <==> Frames(data[offset..]).Some?
      invariant Frames(data).Some? ==> CountBlocks(Frames(data).value) == frames + CountBlocks(Frames(data[offset..]).value)
    {
      ghost var rest := data[offset..];
      if |data| - offset < 7 || data[offset] != 0xFF || data[offset + 1] / 16 != 15 || data[offset + 1] / 2 % 4 != 0 {
        return None;
      }
      var high: int, mid: int, low: int := data[offset + 3], data[offset + 4], data[offset + 5];
      var length := high % 4 * 2048 + mid * 8 + low / 32;
      assert length == AdtsLength(rest);
      if length < 7 || length > |data| - offset {
        return None;
      }
      assert Frames(rest).Some? ==> Frames(rest).value[1..] == Frames(rest[length..]).value;
      frames := frames + 1 + data[offset + 6] % 4;
      offset := offset + length;
      assert data[offset..] == rest[length..];
    }
    r := Some(frames);
  }

  /** The division into frames is unique, so the data is accepted exactly if it is a sequence of frames. */
  lemma {:induction false} FramesOfJoin(frames: seq<seq<Byte>>)
    requires forall i | 0 <= i < |frames| :: IsFrame(frames[i])
    ensures Frames(Join(frames)) == Some(frames)
    decreases |frames|
  {
    if frames != [] {
      var f, rest := frames[0], Join(frames[1..]);
      var data := f + rest;
      FramesOfJoin(frames[1..]);
      assert data[..|f|] == f && data[|f|..] == rest;
      assert AdtsLength(data) == AdtsLength(f);
      assert [f] + frames[1..] == frames;
    }
  }
}
