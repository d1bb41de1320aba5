/** Frames injected by a client: bounced buffers become the MDL chain of a NET_BUFFER. */
module NetBuffers {
  import opened Bytes

  /** A bounced buffer: all its bytes, and the range of them that is frame data. */
  datatype Segment = Segment(bytes: seq<byte>, offset: nat, length: nat)

  datatype Outcome = Success | NoMemory | InvalidParameter

  /** What bouncing guarantees of every buffer. */
  predicate Bounced(s: Segment) {
    |s.bytes| > 0 && s.offset + s.length <= |s.bytes|
  }

  predicate AllBounced(segments: seq<Segment>) {
    forall i :: 0 <= i < |segments| ==> Bounced(segments[i])
  }

  /** Only the first buffer may have leading bytes and only the last may have trailing bytes. */
  predicate Fits(segments: seq<Segment>, i: nat)
    requires i < |segments|
  {
    && (i > 0 ==> segments[i].offset == 0)
    && (i < |segments| - 1 ==> segments[i].offset + segments[i].length == |segments[i].bytes|)
  }

  predicate Contiguous(segments: seq<Segment>) {
    forall i :: 0 <= i < |segments| ==> Fits(segments, i)
  }

  function Chain(segments: seq<Segment>): (r: seq<seq<byte>>)
    ensures |r| == |segments|
  {
    seq(|segments|, i requires 0 <= i < |segments| => segments[i].bytes)
  }

  /** The frame the client means: the data ranges one after the other. */
  function Ranges(segments: seq<Segment>): seq<byte>
    requires AllBounced(segments)
  {
    if segments == [] then []
    else segments[0].bytes[segments[0].offset..segments[0].offset + segments[0].length] + Ranges(segments[1..])
  }

  function Flat(mdls: seq<seq<byte>>): seq<byte> {
    if mdls == [] then [] else mdls[0] + Flat(mdls[1..])
  }

  function Total(mdls: seq<seq<byte>>): nat {
    if mdls == [] then 0 else |mdls[0]| + Total(mdls[1..])
  }

  lemma {:induction false} FlatLength(mdls: seq<seq<byte>>)
    ensures |Flat(mdls)| == Total(mdls)
  {
    if mdls != [] {
      FlatLength(mdls[1..]);
    }
  }

  lemma {:induction false} TotalConcat(a: seq<seq<byte>>, b: seq<seq<byte>>)
    ensures Total(a + b) == Total(a) + Total(b)
    decreases |a|
  {
    if a == [] {
      assert a + b == b;
    } else {
      TotalConcat(a[1..], b);
      assert (a + b)[1..] == a[1..] + b;
    }
  }

  /** The MDLs that remain after the data start moved forward and freed what it passed. */
  function Unpassed(mdls: seq<seq<byte>>, delta: nat): seq<seq<byte>> {
    if mdls == [] || |mdls[0]| > delta then mdls else Unpassed(mdls[1..], delta - |mdls[0]|)
  }

  /** All MDLs are freed exactly when the data start moves past every byte. */
  lemma {:induction false} AllReleasedIff(mdls: seq<seq<byte>>, delta: nat)
    requires forall i :: 0 <= i < |mdls| ==> |mdls[i]| > 0
    ensures Unpassed(mdls, delta) == [] <==> Total(mdls) <= delta
    decreases |mdls|
  {
    if mdls != [] && |mdls[0]| <= delta {
      AllReleasedIff(mdls[1..], delta - |mdls[0]|);
    }
  }

  /** Counts what the NET_BUFFER_LIST and MDL pools have handed out. */
  class Pools {
    var lists: int
    var mdls: int

    constructor ()
      ensures lists == 0 && mdls == 0
    {
      lists, mdls := 0, 0;
    }
  }

  /** A NET_BUFFER_LIST with one NET_BUFFER. The data starts at dataOffset bytes into the chain, which
      is mdlOffset bytes into MDL current; trailing is TrailingMdlBytes of the list's context. */
  class NetBuffer {
    var mdls: seq<seq<byte>>
    var current: nat
    var mdlOffset: nat
    var dataOffset: nat
    var length: nat
    var trailing: nat

    constructor ()
      ensures Empty()
    {
      mdls, current, mdlOffset, dataOffset, length, trailing := [], 0, 0, 0, 0, 0;
    }

    ghost predicate Empty()
      reads this
    {
      mdls == [] && current == 0 && mdlOffset == 0 && dataOffset == 0 && length == 0 && trailing == 0
    }

    /** The position agrees with the data offset. */
    ghost predicate Placed()
      reads this
    {
      && current <= |mdls|
      && Total(mdls[..current]) + mdlOffset == dataOffset
      && (if current < |mdls| then mdlOffset <= |mdls[current]| else mdlOffset == 0)
    }

    /** The lengths account for every byte of the chain. */
    ghost predicate Accounted()
      reads this
    {
      && length + trailing + dataOffset == Total(mdls)
      && forall i :: 0 <= i < |mdls| ==> |mdls[i]| > 0
    }

    ghost predicate Valid()
      reads this
    {
      Placed() && Accounted()
    }

    ghost function Data(): seq<byte>
      requires dataOffset + length <= Total(mdls)
      reads this
    {
      FlatLength(mdls);
      Flat(mdls)[dataOffset..dataOffset + length]
    }

    /** NdisRetreatNetBufferDataStart with no room before the data: a new MDL goes in front. */
    method Retreat(pools: Pools, delta: nat, memory: bool) returns (ok: bool)
      requires dataOffset == 0 && current == 0 && mdlOffset == 0
      modifies this`mdls, this`length, pools`mdls
      ensures ok == memory
      ensures !ok ==> mdls == old(mdls) && length == old(length) && pools.mdls == old(pools.mdls)
      ensures ok ==> mdls == [Zeros(delta)] + old(mdls) && length == old(length) + delta && pools.mdls == old(pools.mdls) + 1
    {
      ok := memory;
      if ok {
        mdls := [Zeros(delta)] + mdls;
        length := length + delta;
        pools.mdls := pools.mdls + 1;
      }
    }

    /** NdisAdvanceNetBufferDataStart within the first MDL. At the end of an MDL the position may stay
        there or be the start of the next one. */
    method Advance(delta: nat, eager: bool)
      requires dataOffset == 0 && current == 0 && mdlOffset == 0 && mdls != [] && delta <= |mdls[0]| && delta <= length
      modifies this`current, this`mdlOffset, this`dataOffset, this`length
      ensures Placed() && dataOffset == delta && length == old(length) - delta
      ensures !(eager && delta == |mdls[0]|) ==> current == 0 && mdlOffset == delta
    {
      dataOffset, length := delta, length - delta;
      if eager && delta == |mdls[0]| {
        current, mdlOffset := 1, 0;
        assert mdls[..1] == [mdls[0]];
      } else {
        mdlOffset := delta;
      }
    }

    /** FnIoEnqueueFrameReturn: whatever was built, every MDL and the list itself are freed. */
    method FrameReturn(pools: Pools)
      requires Valid()
      modifies this, pools
      ensures mdls == [] && pools.mdls == old(pools.mdls) - old(|mdls|) && pools.lists == old(pools.lists) - 1
    {
      length := length + trailing;
      length, dataOffset, current, mdlOffset := length + dataOffset, 0, 0, 0;
      AllReleasedIff(mdls, length);
      var delta: nat := length;
      while mdls != [] && |mdls[0]| <= delta
        invariant Unpassed(mdls, delta) == []
        invariant pools.mdls + old(|mdls|) - |mdls| == old(pools.mdls)
        invariant pools.lists == old(pools.lists)
        decreases |mdls|
      {
        delta := delta - |mdls[0]|;
        mdls := mdls[1..];
        pools.mdls := pools.mdls - 1;
      }
      pools.lists := pools.lists - 1;
    }
  }

  function Tail(segments: seq<Segment>): int
    requires segments != []
  {
    var last := segments[|segments| - 1];
    |last.bytes| - last.length - last.offset
  }

  /** What the loop has built when buffers n and up are done. */
  ghost predicate Built(nb: NetBuffer, segments: seq<Segment>, n: nat)
    requires n <= |segments|
    reads nb
  {
    && nb.Valid()
    && nb.mdls == Chain(segments[n..])
    && nb.trailing == (if n == |segments| then 0 else Tail(segments))
    && nb.dataOffset == (if n == 0 < |segments| then segments[0].offset else 0)
    && (n > 0 ==> nb.current == 0 && nb.mdlOffset == 0)
    && (forall i :: n <= i < |segments| ==> Fits(segments, i))
  }

  lemma ChainGrows(segments: seq<Segment>, n: nat)
    requires 0 < n <= |segments|
    ensures Chain(segments[n - 1..]) == [segments[n - 1].bytes] + Chain(segments[n..])
    ensures Total(Chain(segments[n - 1..])) == |segments[n - 1].bytes| + Total(Chain(segments[n..]))
  {
    var c := Chain(segments[n - 1..]);
    assert c[1..] == Chain(segments[n..]);
  }

  /** What the environment decides for one buffer: memory for the MDL, an address for it, and where
      an advance that ends at an MDL boundary leaves the position. */
  datatype Luck = Luck(memory: bool, mapped: bool, eager: bool)

  /** One round of the loop in FnIoEnqueueFrameBegin. */
  method AddBuffer(nb: NetBuffer, pools: Pools, segments: seq<Segment>, n: nat, luck: Luck) returns (status: Outcome)
    requires 0 < n <= |segments| && AllBounced(segments) && Built(nb, segments, n)
    modifies nb, pools`mdls
    ensures nb.Valid() && pools.mdls - |nb.mdls| == old(pools.mdls - |nb.mdls|)
    ensures status == if !Fits(segments, n - 1) then InvalidParameter else if luck.memory && luck.mapped then Success else NoMemory
    ensures status == Success ==> Built(nb, segments, n - 1)
  {
    var b := segments[n - 1];
    if b.offset > 0 && n - 1 > 0 {
      return InvalidParameter;
    }
    if b.offset + b.length < |b.bytes| && n < |segments| {
      return InvalidParameter;
    }
    assert Fits(segments, n - 1);
    var ok := nb.Retreat(pools, |b.bytes|, luck.memory);
    if !ok {
      return NoMemory;
    }
    assert Total(nb.mdls) == |b.bytes| + old(Total(nb.mdls)) by {
      assert nb.mdls[1..] == old(nb.mdls);
    }
    if !luck.mapped {
      return NoMemory;
    }
    FillFirst(nb, b.bytes);
    ChainGrows(segments, n);
    if n == |segments| {
      nb.trailing := |b.bytes| - b.length - b.offset;
      nb.length := nb.length - nb.trailing;
    }
    if n - 1 == 0 {
      nb.Advance(b.offset, luck.eager);
    }
    return Success;
  }

  /** Copies a buffer into the first MDL, leading and trailing bytes included. */
  method FillFirst(nb: NetBuffer, bytes: seq<byte>)
    requires nb.mdls != [] && |nb.mdls[0]| == |bytes|
    modifies nb`mdls
    ensures nb.mdls == [bytes] + old(nb.mdls)[1..]
    ensures Total(nb.mdls) == old(Total(nb.mdls))
  {
    nb.mdls := [bytes] + nb.mdls[1..];
    assert nb.mdls[1..] == old(nb.mdls)[1..];
  }

  /** The first buffer, from the last one on, that is out of place or gets no MDL decides. */
  function FrameStatus(segments: seq<Segment>, lucks: seq<Luck>, n: nat): Outcome
    requires n <= |segments| == |lucks|
  {
    if n == 0 then Success
    else if !Fits(segments, n - 1) then InvalidParameter
    else if !(lucks[n - 1].memory && lucks[n - 1].mapped) then NoMemory
    else FrameStatus(segments, lucks, n - 1)
  }

  /** A frame is built exactly from contiguous buffers that all get an MDL and an address for it. */
  lemma {:induction false} FrameSucceedsIff(segments: seq<Segment>, lucks: seq<Luck>, n: nat)
    requires n <= |segments| == |lucks|
    ensures FrameStatus(segments, lucks, n) == Success <==>
      forall i :: 0 <= i < n ==> Fits(segments, i) && lucks[i].memory && lucks[i].mapped
  {
    if n > 0 {
      FrameSucceedsIff(segments, lucks, n - 1);
    }
  }

  /** Otherwise the last buffer that is out of place or gets none decides. */
  lemma {:induction false} LastRefusalDecides(segments: seq<Segment>, lucks: seq<Luck>, n: nat, k: nat)
    requires k < n <= |segments| == |lucks|
    requires forall i :: k < i < n ==> Fits(segments, i) && lucks[i].memory && lucks[i].mapped
    requires !(Fits(segments, k) && lucks[k].memory && lucks[k].mapped)
    ensures FrameStatus(segments, lucks, n) == if Fits(segments, k) then NoMemory else InvalidParameter
  {
    if k < n - 1 {
      LastRefusalDecides(segments, lucks, n - 1, k);
    }
  }

  /** FnIoEnqueueFrameBegin after bouncing: a frame is built for every contiguous list of buffers, and
      every other exit leaves both pools as they were. */
  method FrameBegin(pools: Pools, segments: seq<Segment>, list: bool, lucks: seq<Luck>) returns (status: Outcome, nbl: NetBuffer?)
    requires segments != [] && AllBounced(segments) && |lucks| == |segments|
    modifies pools
    ensures status == if !list then NoMemory else FrameStatus(segments, lucks, |segments|)
    ensures status == Success <==> nbl != null
    ensures nbl != null ==> fresh(nbl) && Built(nbl, segments, 0) && nbl.Data() == Ranges(segments)
    ensures nbl != null ==> pools.lists == old(pools.lists) + 1 && pools.mdls == old(pools.mdls) + |segments|
    ensures nbl == null ==> pools.lists == old(pools.lists) && pools.mdls == old(pools.mdls)
    ensures status == Success ==> Contiguous(segments)
    ensures list && (forall i :: 0 <= i < |lucks| ==> lucks[i].memory && lucks[i].mapped) ==>
              status == if Contiguous(segments) then Success else InvalidParameter
  {
    if !list {
      return NoMemory, null;
    }
    var nb := new NetBuffer();
    pools.lists := pools.lists + 1;
    assert Chain(segments[|segments|..]) == [];
    var n: nat := |segments|;
    while n > 0
      invariant n <= |segments| && Built(nb, segments, n)
      invariant FrameStatus(segments, lucks, |segments|) == FrameStatus(segments, lucks, n)
      invariant pools.mdls == old(pools.mdls) + |segments| - n && pools.lists == old(pools.lists) + 1
    {
      status := AddBuffer(nb, pools, segments, n, lucks[n - 1]);
      if status != Success {
        nb.FrameReturn(pools);
        return status, null;
      }
      n := n - 1;
    }
    assert segments[0..] == segments;
    BuiltData(nb, segments);
    return Success, nb;
  }

  /** The chain of contiguous buffers is the leading bytes, the frame, and the trailing bytes. */
  lemma {:induction false} ChainHoldsFrame(segments: seq<Segment>)
    requires segments != [] && AllBounced(segments) && Contiguous(segments)
    ensures var first, last := segments[0], segments[|segments| - 1];
      Flat(Chain(segments)) == first.bytes[..first.offset] + Ranges(segments) + last.bytes[last.offset + last.length..]
    decreases |segments|
  {
    if |segments| == 1 {
      OneHoldsFrame(segments[0], segments);
    } else {
      ContiguousRest(segments);
      ChainHoldsFrame(segments[1..]);
      var first, last := segments[0], segments[|segments| - 1];
      assert first.offset + first.length == |first.bytes| by {
        assert Fits(segments, 0);
      }
      Unrolled(segments);
      assert segments[1..][0].offset == 0;
      Glue(first.bytes, first.offset, segments[1].bytes[..segments[1].offset], Ranges(segments[1..]),
           last.bytes[last.offset + last.length..]);
    }
  }

  lemma Unrolled(segments: seq<Segment>)
    requires segments != [] && AllBounced(segments)
    ensures Flat(Chain(segments)) == segments[0].bytes + Flat(Chain(segments[1..]))
    ensures Ranges(segments) == segments[0].bytes[segments[0].offset..segments[0].offset + segments[0].length] + Ranges(segments[1..])
  {
    assert Chain(segments)[1..] == Chain(segments[1..]);
  }

  lemma OneHoldsFrame(s: Segment, segments: seq<Segment>)
    requires Bounced(s) && segments == [s]
    ensures Flat(Chain(segments)) == s.bytes[..s.offset] + Ranges(segments) + s.bytes[s.offset + s.length..]
  {
    Unrolled(segments);
    assert segments[1..] == [] && Chain(segments[1..]) == [];
    assert s.bytes + [] == s.bytes;
    var data := s.bytes[s.offset..s.offset + s.length];
    assert data + [] == data;
    assert s.bytes == s.bytes[..s.offset] + data + s.bytes[s.offset + s.length..];
  }

  lemma ContiguousRest(segments: seq<Segment>)
    requires |segments| > 1 && AllBounced(segments) && Contiguous(segments)
    ensures AllBounced(segments[1..]) && Contiguous(segments[1..]) && segments[1].offset == 0
  {
    forall i | 0 <= i < |segments| - 1
      ensures Fits(segments[1..], i)
    {
      assert Fits(segments, i + 1);
    }
    assert Fits(segments, 1);
  }

  lemma Glue(bytes: seq<byte>, at: nat, none: seq<byte>, rest: seq<byte>, tail: seq<byte>)
    requires none == [] && at <= |bytes|
    ensures bytes + (none + rest + tail) == bytes[..at] + (bytes[at..|bytes|] + rest) + tail
  {
  }

  lemma BuiltData(nb: NetBuffer, segments: seq<Segment>)
    requires segments != [] && AllBounced(segments) && Built(nb, segments, 0)
    ensures nb.Data() == Ranges(segments) && Contiguous(segments) && |Ranges(segments)| == nb.length
  {
    assert segments[0..] == segments;
    ChainHoldsFrame(segments);
    FlatLength(nb.mdls);
    var first, last := segments[0], segments[|segments| - 1];
    DropBoth(Flat(nb.mdls), first.bytes[..first.offset], Ranges(segments), last.bytes[last.offset + last.length..]);
  }

  lemma DropBoth(all: seq<byte>, a: seq<byte>, b: seq<byte>, c: seq<byte>)
    requires all == a + b + c
    ensures all[|a|..|a| + |b|] == b
  {
  }
}
