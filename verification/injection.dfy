/** The enqueue IOCTL of the miniport from end to end: bounce the client's buffers, build the frame, check
    its other fields, queue it, and free the bounce buffers on every path. */
module Injection {
  import opened Bytes
  import B = Bouncing
  import opened NetBuffers

  const MAX_U32: nat := 0xFFFF_FFFF

  /** What the driver reads of a bounced buffer: its block, and the range that is data. */
  function Segments(input: seq<B.DataBuffer>, contents: seq<seq<byte>>): (r: seq<Segment>)
    requires B.Snapshot(input, contents)
    ensures |r| == |input|
  {
    seq(|input|, i requires 0 <= i < |input| => Segment(contents[i], input[i].dataOffset, input[i].dataLength))
  }

  /** The same from the bounce buffers. */
  ghost predicate Bounces(segments: seq<Segment>, memory: map<nat, B.Content>, buffers: seq<B.DataBuffer>) {
    |segments| == |buffers| && forall i :: 0 <= i < |buffers| ==>
      && buffers[i].address.Block? && buffers[i].address.id in memory
      && memory[buffers[i].address.id] == B.Bytes(segments[i].bytes)
      && segments[i].offset == buffers[i].dataOffset && segments[i].length == buffers[i].dataLength
  }

  /** Reads the bounced buffers. */
  method ReadSegments(pool: B.Pool, buffers: seq<B.DataBuffer>, ghost contents: seq<seq<byte>>) returns (segments: seq<Segment>)
    requires B.Holds(pool.memory, buffers, contents, |buffers|)
    ensures Bounces(segments, pool.memory, buffers)
  {
    segments := [];
    for i := 0 to |buffers|
      invariant |segments| == i
      invariant forall k :: 0 <= k < i ==> segments[k] == Segment(contents[k], buffers[k].dataOffset, buffers[k].dataLength)
    {
      var bytes := pool.memory[buffers[i].address.id].bytes;
      segments := segments + [Segment(bytes, buffers[i].dataOffset, buffers[i].dataLength)];
    }
  }

  /** So the driver's view is the client's memory as it was when it was copied. */
  lemma BouncedView(segments: seq<Segment>, memory: map<nat, B.Content>, buffers: seq<B.DataBuffer>,
                    input: seq<B.DataBuffer>, contents: seq<seq<byte>>)
    requires Bounces(segments, memory, buffers) && B.Holds(memory, buffers, contents, |buffers|)
    requires |buffers| == |input| && B.Snapshot(input, contents) && forall i :: 0 <= i < |input| ==> B.Copies(buffers[i], input[i])
    ensures segments == Segments(input, contents)
  {
    forall i | 0 <= i < |segments|
      ensures segments[i] == Segments(input, contents)[i]
    {
      assert B.Copies(buffers[i], input[i]);
    }
  }

  /** The frame's other fields: the RSS queue, MAX_U32 for none, and the receive segment coalescing word
      with its segment count. */
  datatype Fields = Fields(rssQueue: u32, rsc: u32, coalesced: u32)

  function FieldStatus(fields: Fields, rssQueues: nat, queued: nat): B.Status {
    if fields.rssQueue != MAX_U32 && fields.rssQueue >= rssQueues then B.InvalidParameter
    else if fields.rsc != 0 && fields.coalesced < 1 then B.InvalidParameter
    else if queued < MAX_U32 then B.Success else B.IntegerOverflow
  }

  /** The checks after the frame is built. */
  method CheckFields(fields: Fields, rssQueues: nat, queued: nat) returns (status: B.Status)
    ensures status == FieldStatus(fields, rssQueues, queued)
  {
    if fields.rssQueue != MAX_U32 {
      if fields.rssQueue >= rssQueues {
        return B.InvalidParameter;
      }
    }
    if fields.rsc != 0 {
      if fields.coalesced < 1 {
        return B.InvalidParameter;
      }
    }
    if queued < MAX_U32 {
      return B.Success;
    }
    return B.IntegerOverflow;
  }

  /** What the environment decides along the way. */
  datatype Luck = Luck(first: B.Luck, buffers: seq<B.Luck>, list: bool, mdls: seq<NetBuffers.Luck>)

  predicate LuckFor(luck: Luck, n: nat) {
    |luck.buffers| == n && |luck.mdls| == n
  }

  function OutcomeStatus(o: Outcome): B.Status {
    match o
    case Success => B.Success
    case NoMemory => B.NoMemory
    case InvalidParameter => B.InvalidParameter
  }

  function BuildStatus(segments: seq<Segment>, luck: Luck): B.Status
    requires LuckFor(luck, |segments|)
  {
    if !luck.list then B.NoMemory else OutcomeStatus(FrameStatus(segments, luck.mdls, |segments|))
  }

  /** The status of the whole IOCTL: that of the first step to fail. */
  function InjectStatus(tooSmall: bool, input: seq<B.DataBuffer>, contents: seq<seq<byte>>, luck: Luck,
                        fields: Fields, rssQueues: nat, queued: nat): B.Status
    requires B.Snapshot(input, contents) && LuckFor(luck, |input|)
  {
    var bounced := B.EnqueueStatus(tooSmall, input, luck.first, luck.buffers);
    if bounced != B.Success then bounced
    else if BuildStatus(Segments(input, contents), luck) != B.Success then BuildStatus(Segments(input, contents), luck)
    else FieldStatus(fields, rssQueues, queued)
  }

  /** What bouncing accepted can be built from. */
  lemma AcceptedSegments(input: seq<B.DataBuffer>, contents: seq<seq<byte>>, tooSmall: bool, first: B.Luck, lucks: seq<B.Luck>)
    requires B.Snapshot(input, contents) && |lucks| == |input| && B.EnqueueStatus(tooSmall, input, first, lucks) == B.Success
    ensures input != [] && AllBounced(Segments(input, contents))
  {
    B.EnqueueSucceedsIff(tooSmall, input, first, lucks);
    assert forall i :: 0 <= i < |input| ==> B.Passes(input[i], lucks[i]);
  }

  // ---- Which frames are accepted ----------------------------------------------------------------

  /** The buffers join up: only the first has bytes before its data and only the last has bytes after. */
  predicate Joined(input: seq<B.DataBuffer>) {
    forall i :: 0 <= i < |input| ==>
      && (i > 0 ==> input[i].dataOffset == 0)
      && (i < |input| - 1 ==> input[i].dataOffset + input[i].dataLength == input[i].bufferLength)
  }

  /** The RSS queue exists if one is named, and a coalesced frame has at least one segment. */
  predicate FieldsOk(fields: Fields, rssQueues: nat) {
    && (fields.rssQueue == MAX_U32 || fields.rssQueue < rssQueues)
    && (fields.rsc == 0 || fields.coalesced > 0)
  }

  /** There is memory for every copy, list, MDL and address, and the caller's memory can be read. */
  predicate Fortunate(luck: Luck) {
    && luck.first.memory && luck.first.readable && luck.list
    && (forall i :: 0 <= i < |luck.buffers| ==> luck.buffers[i].memory && luck.buffers[i].readable)
    && (forall i :: 0 <= i < |luck.mdls| ==> luck.mdls[i].memory && luck.mdls[i].mapped)
  }

  predicate Accepts(input: seq<B.DataBuffer>) {
    input != [] && forall i :: 0 <= i < |input| ==> B.AcceptsBuffer(input[i])
  }

  lemma JoinedIff(input: seq<B.DataBuffer>, contents: seq<seq<byte>>)
    requires B.Snapshot(input, contents)
    ensures Joined(input) <==> Contiguous(Segments(input, contents))
  {
    var segments := Segments(input, contents);
    forall i | 0 <= i < |input|
      ensures Fits(segments, i) <==>
        && (i > 0 ==> input[i].dataOffset == 0)
        && (i < |input| - 1 ==> input[i].dataOffset + input[i].dataLength == input[i].bufferLength)
    {
      assert segments[i].length == input[i].dataLength;
    }
  }

  /** A frame is injected exactly if nothing runs out, its parameters are all there, each of its buffers holds
      its data, the buffers join up, its fields are right, and the queue is not full. */
  lemma InjectSucceedsIff(tooSmall: bool, input: seq<B.DataBuffer>, contents: seq<seq<byte>>, luck: Luck,
                          fields: Fields, rssQueues: nat, queued: nat)
    requires B.Snapshot(input, contents) && LuckFor(luck, |input|)
    ensures InjectStatus(tooSmall, input, contents, luck, fields, rssQueues, queued) == B.Success <==>
      !tooSmall && Accepts(input) && Joined(input) && FieldsOk(fields, rssQueues) && queued < MAX_U32 && Fortunate(luck)
  {
    var segments := Segments(input, contents);
    BouncedIff(tooSmall, input, luck);
    FrameSucceedsIff(segments, luck.mdls, |segments|);
    JoinedIff(input, contents);
  }

  lemma BouncedIff(tooSmall: bool, input: seq<B.DataBuffer>, luck: Luck)
    requires LuckFor(luck, |input|)
    ensures B.EnqueueStatus(tooSmall, input, luck.first, luck.buffers) == B.Success <==>
      && !tooSmall && Accepts(input) && luck.first.memory && luck.first.readable
      && forall i :: 0 <= i < |luck.buffers| ==> luck.buffers[i].memory && luck.buffers[i].readable
  {
    B.EnqueueSucceedsIff(tooSmall, input, luck.first, luck.buffers);
    assert forall i :: 0 <= i < |input| ==>
      (B.Passes(input[i], luck.buffers[i]) <==> B.AcceptsBuffer(input[i]) && luck.buffers[i].memory && luck.buffers[i].readable);
  }

  /** When nothing runs out, a refusal says why: the parameters are short; the end of the data of the first
      buffer that is refused does not fit in 32 bits, or the queue is full; or anything else is wrong. */
  lemma RefusalSays(tooSmall: bool, input: seq<B.DataBuffer>, contents: seq<seq<byte>>, luck: Luck,
                    fields: Fields, rssQueues: nat, queued: nat)
    requires B.Snapshot(input, contents) && LuckFor(luck, |input|) && Fortunate(luck)
    ensures InjectStatus(tooSmall, input, contents, luck, fields, rssQueues, queued) ==
      if tooSmall then B.BufferTooSmall
      else if Overflows(input) then B.IntegerOverflow
      else if !Accepts(input) || !Joined(input) || !FieldsOk(fields, rssQueues) then B.InvalidParameter
      else if queued >= MAX_U32 then B.IntegerOverflow else B.Success
  {
    BouncedIff(tooSmall, input, luck);
    JoinedIff(input, contents);
    var segments := Segments(input, contents);
    FrameSucceedsIff(segments, luck.mdls, |segments|);
    if Accepts(input) {
      FrameNeverShort(segments, luck.mdls, |segments|);
    } else if input != [] {
      var k := FirstRefused(input, 0);
      B.FirstRefusalDecides(input, luck.buffers, 0, k);
    }
  }

  lemma {:induction false} FrameNeverShort(segments: seq<Segment>, lucks: seq<NetBuffers.Luck>, n: nat)
    requires n <= |segments| == |lucks| && forall i :: 0 <= i < |lucks| ==> lucks[i].memory && lucks[i].mapped
    ensures FrameStatus(segments, lucks, n) != NoMemory
  {
    if n > 0 {
      FrameNeverShort(segments, lucks, n - 1);
    }
  }

  lemma {:induction false} FirstRefused(input: seq<B.DataBuffer>, from: nat) returns (k: nat)
    requires from <= |input| && exists i :: from <= i < |input| && !B.AcceptsBuffer(input[i])
    ensures from <= k < |input| && !B.AcceptsBuffer(input[k]) && forall i :: from <= i < k ==> B.AcceptsBuffer(input[i])
    decreases |input| - from
  {
    if B.AcceptsBuffer(input[from]) {
      k := FirstRefused(input, from + 1);
    } else {
      k := from;
    }
  }

  /** The first buffer that is refused is not empty and its data ends beyond 32 bits. */
  predicate Overflows(input: seq<B.DataBuffer>) {
    exists k :: 0 <= k < |input| && input[k].bufferLength > 0 && input[k].dataOffset + input[k].dataLength > MAX_U32
      && forall i :: 0 <= i < k ==> B.AcceptsBuffer(input[i])
  }

  /** The queue of a SHARED_RX. */
  class Injector {
    var frames: seq<NetBuffer>

    constructor ()
      ensures frames == []
    {
      frames := [];
    }

    /** SharedIrpRxEnqueue: the status is that of the first step to fail; the bounce buffers are freed
        whatever happens, a refused frame leaves the pools and the queue alone, and an accepted one is at the
        tail of the queue with the client's data. */
    method IrpEnqueue(pool: B.Pool, pools: Pools, tooSmall: bool, input: seq<B.DataBuffer>, contents: seq<seq<byte>>,
                      fields: Fields, rssQueues: nat, luck: Luck) returns (status: B.Status)
      requires pool.Valid() && B.Snapshot(input, contents) && LuckFor(luck, |input|)
      modifies this, pool, pools
      ensures status == InjectStatus(tooSmall, input, contents, luck, fields, rssQueues, old(|frames|))
      ensures pool.Valid() && pool.live == old(pool.live)
      ensures status != B.Success ==> frames == old(frames) && pools.lists == old(pools.lists) && pools.mdls == old(pools.mdls)
      ensures status == B.Success ==> AllBounced(Segments(input, contents)) && Queued(old(frames), Segments(input, contents))
      ensures status == B.Success ==> pools.lists == old(pools.lists) + 1 && pools.mdls == old(pools.mdls) + |input|
    {
      var enqueueIn := new B.EnqueueIn();
      status := enqueueIn.BounceEnqueue(pool, tooSmall, input, contents, luck.first, luck.buffers);
      if status == B.Success {
        AcceptedSegments(input, contents, tooSmall, luck.first, luck.buffers);
        var segments := ReadSegments(pool, enqueueIn.buffers, contents);
        BouncedView(segments, pool.memory, enqueueIn.buffers, input, contents);
        status := Build(pools, segments, fields, rssQueues, luck);
      }
      enqueueIn.CleanupEnqueue(pool);
    }

    /** One more frame at the tail, built from the segments. */
    ghost predicate Queued(before: seq<NetBuffer>, segments: seq<Segment>)
      requires AllBounced(segments)
      reads this, frames
    {
      && |frames| == |before| + 1 && frames[..|before|] == before
      && Built(frames[|before|], segments, 0) && frames[|before|].Data() == Ranges(segments)
    }

    method Build(pools: Pools, segments: seq<Segment>, fields: Fields, rssQueues: nat, luck: Luck) returns (status: B.Status)
      requires segments != [] && AllBounced(segments) && LuckFor(luck, |segments|)
      modifies this, pools
      ensures status == if BuildStatus(segments, luck) != B.Success then BuildStatus(segments, luck)
                        else FieldStatus(fields, rssQueues, old(|frames|))
      ensures status != B.Success ==> frames == old(frames) && pools.lists == old(pools.lists) && pools.mdls == old(pools.mdls)
      ensures status == B.Success ==> Queued(old(frames), segments)
      ensures status == B.Success ==> pools.lists == old(pools.lists) + 1 && pools.mdls == old(pools.mdls) + |segments|
    {
      var built, nbl := FrameBegin(pools, segments, luck.list, luck.mdls);
      status := OutcomeStatus(built);
      if status != B.Success {
        return;
      }
      status := CheckFields(fields, rssQueues, |frames|);
      if status != B.Success {
        assert |nbl.mdls| == |segments| by {
          assert segments[0..] == segments;
        }
        nbl.FrameReturn(pools);
        return;
      }
      frames := frames + [nbl];
    }
  }
}
