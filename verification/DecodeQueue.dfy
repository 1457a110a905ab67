/**
  * The decoder's PCM queue of desktop/decode_thread.cpp: at most 57600 bytes of 48 kHz stereo S16. Finite playback
  * splits blocks and waits for the consumer; realtime playback drops the oldest audio instead.
  */
module DecodeQueue {
  import opened Options
  import opened Bytes

  const Capacity := 57_600
  const BytesPerSecond := 192_000

  datatype Block = Block(pcm: seq<Byte>, pts: Option<int>)

  /** What ends a wait of the decoder: its 50 ms timeout, the consumer taking the queue, or an interruption or passed deadline. */
  datatype Wake = Timeout | Consumed | Interrupted

  /** All queued bytes, oldest first. */
  function Pcm(blocks: seq<Block>): seq<Byte>
    decreases |blocks|
  {
    if blocks == [] then [] else Pcm(blocks[..|blocks| - 1]) + blocks[|blocks| - 1].pcm
  }

  /** The timestamp of byte `offset` of a block. */
  function PtsAt(b: Block, offset: nat): Option<int> {
    if b.pts.None? then None else Some(b.pts.value + offset * 1_000_000 / BytesPerSecond)
  }

  predicate WholeFrames(blocks: seq<Block>) {
    forall i | 0 <= i < |blocks| :: |blocks[i].pcm| > 0 && |blocks[i].pcm| % 4 == 0
  }

  /** `pieces` cut the first `upTo` bytes of `b`, each with the timestamp of its first byte. */
  predicate IsSplit(pieces: seq<Block>, b: Block, upTo: nat)
    decreases |pieces|
  {
    && upTo <= |b.pcm|
    && if pieces == [] then upTo == 0
       else
         var last := pieces[|pieces| - 1];
         && |last.pcm| <= upTo
         && last == Block(b.pcm[upTo - |last.pcm|..upTo], PtsAt(b, upTo - |last.pcm|))
         && IsSplit(pieces[..|pieces| - 1], b, upTo - |last.pcm|)
  }

  lemma {:induction false} PcmConcat(a: seq<Block>, b: seq<Block>)
    ensures Pcm(a + b) == Pcm(a) + Pcm(b)
    decreases |b|
  {
    if b == [] {
      assert a + b == a;
    } else {
      assert (a + b)[..|a + b| - 1] == a + b[..|b| - 1];
      PcmConcat(a, b[..|b| - 1]);
    }
  }

  lemma PcmSnoc(a: seq<Block>, b: Block)
    ensures Pcm(a + [b]) == Pcm(a) + b.pcm
  {
    assert (a + [b])[..|a|] == a;
  }

  lemma PcmCons(blocks: seq<Block>)
    requires blocks != []
    ensures Pcm(blocks) == blocks[0].pcm + Pcm(blocks[1..])
  {
    assert blocks == [blocks[0]] + blocks[1..];
    PcmConcat([blocks[0]], blocks[1..]);
    assert Pcm([blocks[0]]) == Pcm([]) + blocks[0].pcm;
  }

  lemma SplitGrows(pieces: seq<Block>, b: Block, upTo: nat, bytes: nat)
    requires IsSplit(pieces, b, upTo) && upTo + bytes <= |b.pcm|
    ensures IsSplit(pieces + [Block(b.pcm[upTo..upTo + bytes], PtsAt(b, upTo))], b, upTo + bytes)
    ensures b.pcm[..upTo] + b.pcm[upTo..upTo + bytes] == b.pcm[..upTo + bytes]
  {
    var more := pieces + [Block(b.pcm[upTo..upTo + bytes], PtsAt(b, upTo))];
    assert more[..|more| - 1] == pieces;
  }

  /** The pieces carry the block's bytes, in order and without gap. */
  lemma {:induction false} SplitCarriesBytes(pieces: seq<Block>, b: Block, upTo: nat)
    requires IsSplit(pieces, b, upTo)
    ensures Pcm(pieces) == b.pcm[..upTo]
    decreases |pieces|
  {
    if pieces != [] {
      var from := upTo - |pieces[|pieces| - 1].pcm|;
      SplitCarriesBytes(pieces[..|pieces| - 1], b, from);
      assert b.pcm[..from] + b.pcm[from..upTo] == b.pcm[..upTo];
    }
  }

  /** Every piece starts within a microsecond of the exact time of its first byte. */
  lemma {:induction false} SplitTimesAreExact(pieces: seq<Block>, b: Block, upTo: nat, i: nat)
    requires IsSplit(pieces, b, upTo) && i < |pieces| && b.pts.Some?
    ensures var offset := |Pcm(pieces[..i])|;
            && pieces[i].pts.Some?
            && 0 <= b.pts.value * BytesPerSecond + offset * 1_000_000 - pieces[i].pts.value * BytesPerSecond < BytesPerSecond
    decreases |pieces|
  {
    var front := pieces[..|pieces| - 1];
    var from := upTo - |pieces[|pieces| - 1].pcm|;
    if i == |pieces| - 1 {
      SplitCarriesBytes(front, b, from);
    } else {
      SplitTimesAreExact(front, b, from, i);
      assert front[..i] == pieces[..i];
    }
  }

  lemma WholeFramesAdd(a: nat, b: nat)
    requires a % 4 == 0 && b % 4 == 0
    ensures (a + b) % 4 == 0
  {
  }

  class AudioQueue {
    var blocks: seq<Block>
    var pcmBytes: int
    /** Everything the consumer has taken, and everything the decoder has queued. */
    var consumed: seq<Byte>
    ghost var input: seq<Byte>

    /** In finite playback no byte is lost, repeated or moved: taken and queued bytes are the bytes put in. */
    ghost predicate Valid()
      reads this
    {
      && pcmBytes == |Pcm(blocks)| <= Capacity
      && WholeFrames(blocks)
      && pcmBytes % 4 == 0
      && consumed + Pcm(blocks) == input
    }

    constructor ()
      ensures Valid() && blocks == [] && consumed == []
    {
      blocks, pcmBytes, consumed, input := [], 0, [], [];
    }

    /** `take_audio_blocks`. */
    method TakeBlocks() returns (taken: seq<Block>)
      requires Valid()
      modifies this
      ensures Valid() && taken == old(blocks) && blocks == [] && input == old(input)
      ensures consumed == old(consumed) + Pcm(taken)
    {
      taken := blocks;
      consumed := consumed + Pcm(blocks);
      blocks, pcmBytes := [], 0;
    }

    /**
      * `enqueue_audio` in finite mode, under any schedule of wakes; `requested(k)` is the interruption check before
      * piece `k`. `done` is false only if a check or a wait saw an interruption, or the schedule ended in a wait, with
      * bytes left; then the first `queued` bytes are in.
      */
    method EnqueueFinite(output: Block, wakes: seq<Wake>, requested: nat -> bool)
      returns (done: bool, queued: nat, used: nat, ghost pieces: seq<Block>, ghost taken: seq<Block>)
      requires Valid() && |output.pcm| % 4 == 0
      modifies this
      ensures Valid() && queued <= |output.pcm| && input == old(input) + output.pcm[..queued]
      ensures used <= |wakes| && (forall k | 0 <= k < used :: !wakes[k].Interrupted?) && forall k | 0 <= k < |pieces| :: !requested(k)
      ensures if done then queued == |output.pcm|
              else queued < |output.pcm| && (if pcmBytes < Capacity then requested(|pieces|) else used == |wakes| || wakes[used].Interrupted?)
      ensures taken + blocks == old(blocks) + pieces && IsSplit(pieces, output, queued)
    {
      pieces, taken, queued, used := [], [], 0, 0;
      var turn := 0;
      done := true;
      while done && queued < |output.pcm|
        invariant used <= |wakes| && (forall k | 0 <= k < used :: !wakes[k].Interrupted?) && (forall k | 0 <= k < turn :: !requested(k))
        invariant turn == |pieces|
        invariant !done ==> && queued < |output.pcm|
                            && (if pcmBytes < Capacity then requested(turn) else used == |wakes| || wakes[used].Interrupted?)
        invariant Valid() && Queued(old(blocks), old(input), output, queued, pieces, taken)
        decreases done, |output.pcm| - queued
      {
        ghost var got;
        done, used, got := AwaitRoom(wakes, used);
        Reassociate(taken, got, blocks);
        taken := taken + got;
        if done && requested(turn) {
          done := false;
        } else if done {
          queued, pieces := AppendPiece(output, queued, old(blocks), old(input), pieces, taken);
          turn := turn + 1;
        }
      }
    }

    /** The first `queued` bytes of `output` have been put in, as `pieces` behind the blocks that were there before. */
    ghost predicate Queued(before: seq<Block>, inputBefore: seq<Byte>, output: Block, queued: nat, pieces: seq<Block>, taken: seq<Block>)
      reads this
    {
      && queued <= |output.pcm| && queued % 4 == 0
      && input == inputBefore + output.pcm[..queued]
      && taken + blocks == before + pieces
      && IsSplit(pieces, output, queued)
    }

    /** One turn of the splitting loop. */
    method AppendPiece(output: Block, from: nat, ghost before: seq<Block>, ghost inputBefore: seq<Byte>, ghost pieces: seq<Block>, ghost taken: seq<Block>)
      returns (queued: nat, ghost more: seq<Block>)
      requires Valid() && |output.pcm| % 4 == 0 && from < |output.pcm| && pcmBytes < Capacity
      requires Queued(before, inputBefore, output, from, pieces, taken)
      modifies this
      ensures Valid() && consumed == old(consumed) && from < queued && |more| == |pieces| + 1
      ensures Queued(before, inputBefore, output, queued, more, taken)
    {
      var bytes := Room(|output.pcm| - from);
      var block := Block(output.pcm[from..from + bytes], PtsAt(output, from));
      SplitGrows(pieces, output, from, bytes);
      Reassociate(taken, blocks, [block]);
      Reassociate(before, pieces, [block]);
      Reassociate(inputBefore, output.pcm[..from], block.pcm);
      WholeFramesAdd(from, bytes);
      Append(block);
      queued, more := from + bytes, pieces + [block];
    }

    /** How much of `left` bytes fits: std::min of the free room and the rest. */
    function Room(left: nat): nat
      requires pcmBytes <= Capacity
      reads this
    {
      if Capacity - pcmBytes < left then Capacity - pcmBytes else left
    }

    /** The wait loop: room, or false for an interruption or a schedule that has run out. */
    method AwaitRoom(wakes: seq<Wake>, start: nat) returns (room: bool, w: nat, ghost taken: seq<Block>)
      requires Valid() && start <= |wakes|
      modifies this
      ensures Valid() && start <= w <= |wakes| && input == old(input) && taken + blocks == old(blocks)
      ensures room <==> pcmBytes < Capacity
      ensures (!room ==> w == |wakes| || wakes[w].Interrupted?) && forall k | start <= k < w :: !wakes[k].Interrupted?
    {
      w, taken, room := start, [], true;
      while pcmBytes == Capacity
        invariant Valid() && start <= w <= |wakes| && input == old(input) && taken + blocks == old(blocks)
        invariant forall k | start <= k < w :: !wakes[k].Interrupted?
        decreases |wakes| - w
      {
        if w == |wakes| || wakes[w].Interrupted? {
          room := false;
          return;
        }
        if wakes[w].Consumed? {
          var got := TakeBlocks();
          taken := taken + got;
        }
        w := w + 1;
      }
    }

    method Append(block: Block)
      requires Valid() && 0 < |block.pcm| <= Capacity - pcmBytes && |block.pcm| % 4 == 0
      modifies this
      ensures Valid() && blocks == old(blocks) + [block] && consumed == old(consumed) && input == old(input) + block.pcm
    {
      PcmSnoc(blocks, block);
      blocks := blocks + [block];
      pcmBytes := pcmBytes + |block.pcm|;
      input := input + block.pcm;
    }
  }

  // ---------------------------------------------------------------------------------------------
  // Realtime
  // ---------------------------------------------------------------------------------------------

  /** Oldest blocks dropped until `size` more bytes fit or none is left. */
  function DropOldest(blocks: seq<Block>, size: nat): (r: seq<Block>)
    ensures |r| <= |blocks| && (r == [] || |Pcm(r)| + size <= Capacity)
    decreases |blocks|
  {
    if blocks != [] && |Pcm(blocks)| + size > Capacity then DropOldest(blocks[1..], size) else blocks
  }

  /** A block larger than the queue keeps its newest bytes. */
  function TrimFront(b: Block): Block {
    if |b.pcm| > Capacity then Block(b.pcm[|b.pcm| - Capacity..], PtsAt(b, |b.pcm| - Capacity)) else b
  }

  function RealtimeQueue(blocks: seq<Block>, output: Block): seq<Block> {
    DropOldest(blocks, |output.pcm|) + [TrimFront(output)]
  }

  class RealtimeAudio {
    var blocks: seq<Block>
    var pcmBytes: int
    var dropped: nat

    ghost predicate Valid()
      reads this
    {
      pcmBytes == |Pcm(blocks)| <= Capacity && WholeFrames(blocks)
    }

    constructor ()
      ensures Valid() && blocks == []
    {
      blocks, pcmBytes, dropped := [], 0, 0;
    }

    /** `enqueue_audio` in realtime mode; an empty block is ignored. */
    method Enqueue(output: Block)
      requires Valid() && |output.pcm| % 4 == 0
      modifies this
      ensures Valid()
      ensures blocks == if output.pcm == [] then old(blocks) else RealtimeQueue(old(blocks), output)
    {
      if output.pcm == [] {
        return;
      }
      MakeRoom(|output.pcm|);
      var block := Trim(output);
      PcmSnoc(blocks, block);
      pcmBytes := pcmBytes + |block.pcm|;
      blocks := blocks + [block];
    }

    /** Cut the front off a block that is larger than the whole queue. */
    method Trim(output: Block) returns (block: Block)
      requires 0 < |output.pcm| && |output.pcm| % 4 == 0
      modifies this`dropped
      ensures block == TrimFront(output) && 0 < |block.pcm| <= Capacity && |block.pcm| <= |output.pcm| && |block.pcm| % 4 == 0
    {
      block := output;
      if |output.pcm| > Capacity {
        var removed := |output.pcm| - Capacity;
        block := Block(output.pcm[removed..], PtsAt(output, removed));
        dropped := dropped + 1;
      }
    }

    method MakeRoom(size: nat)
      requires Valid()
      modifies this
      ensures Valid() && blocks == DropOldest(old(blocks), size)
    {
      while blocks != [] && pcmBytes + size > Capacity
        invariant Valid() && DropOldest(blocks, size) == DropOldest(old(blocks), size)
        decreases |blocks|
      {
        PcmCons(blocks);
        pcmBytes := pcmBytes - |blocks[0].pcm|;
        blocks := blocks[1..];
        dropped := dropped + 1;
      }
    }
  }

  predicate IsSuffix<T(==)>(s: seq<T>, all: seq<T>) {
    |s| <= |all| && s == all[|all| - |s|..]
  }

  /** Only the oldest audio goes: what stays is a suffix of everything, within capacity and ending with the new bytes. */
  lemma RealtimeKeepsNewest(blocks: seq<Block>, output: Block)
    ensures var kept := Pcm(RealtimeQueue(blocks, output));
            |kept| <= Capacity && IsSuffix(kept, Pcm(blocks) + output.pcm)
  {
    var rest, last := DropOldest(blocks, |output.pcm|), TrimFront(output);
    DropKeepsSuffix(blocks, |output.pcm|);
    TrimKeepsSuffix(output);
    PcmSnoc(rest, last);
    SuffixConcat(Pcm(rest), Pcm(blocks), last.pcm, output.pcm);
  }

  lemma TrimKeepsSuffix(b: Block)
    ensures IsSuffix(TrimFront(b).pcm, b.pcm) && |TrimFront(b).pcm| <= Capacity
    ensures |b.pcm| <= Capacity ==> TrimFront(b).pcm == b.pcm
  {
  }

  /** A suffix followed by everything, or nothing followed by a suffix, is a suffix of both. */
  lemma SuffixConcat<T>(p: seq<T>, a: seq<T>, q: seq<T>, b: seq<T>)
    requires IsSuffix(p, a) && IsSuffix(q, b) && (p == [] || q == b)
    ensures IsSuffix(p + q, a + b)
  {
  }

  lemma {:induction false} DropKeepsSuffix(blocks: seq<Block>, size: nat)
    ensures IsSuffix(Pcm(DropOldest(blocks, size)), Pcm(blocks))
    ensures size > Capacity ==> Pcm(DropOldest(blocks, size)) == []
    decreases |blocks|
  {
    if blocks != [] && |Pcm(blocks)| + size > Capacity {
      DropKeepsSuffix(blocks[1..], size);
      PcmCons(blocks);
    }
  }

  /** And no more than necessary: one dropped block back would overflow the queue. */
  lemma {:induction false} RealtimeDropsLeast(blocks: seq<Block>, size: nat)
    ensures var rest := DropOldest(blocks, size);
            |rest| == |blocks| || (|rest| < |blocks| && |blocks[|blocks| - |rest| - 1].pcm| + |Pcm(rest)| + size > Capacity)
    decreases |blocks|
  {
    if blocks != [] && |Pcm(blocks)| + size > Capacity {
      PcmCons(blocks);
      RealtimeDropsLeast(blocks[1..], size);
    }
  }
}
