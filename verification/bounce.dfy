/** Bounce buffers: copies of caller memory in pool memory, and who has to free them. */
module Bouncing {
  import opened Bytes

  /** A pointer: NULL, into the caller's memory, or to a pool block. */
  datatype Address = Null | Caller(where: nat) | Block(id: nat)

  datatype Status =
    | Success | NoMemory | InvalidParameter | BufferTooSmall | IntegerOverflow | AccessViolation

  /** A DATA_BUFFER. */
  datatype DataBuffer = DataBuffer(address: Address, dataOffset: u32, dataLength: u32, bufferLength: u32)

  /** What the environment decides for one bounce: whether the pool has memory, and whether the
      caller's memory can be read. */
  datatype Luck = Luck(memory: bool, readable: bool)

  /** What a block holds: bytes, or an array of DATA_BUFFERs. */
  datatype Content = Bytes(bytes: seq<byte>) | Array(buffers: seq<DataBuffer>)

  /** sizeof(DATA_BUFFER) is 24. */
  function Size(c: Content): nat {
    match c
    case Bytes(bytes) => |bytes|
    case Array(buffers) => 24 * |buffers|
  }

  /** Every block of a is in b with the same contents. */
  ghost predicate Keeps(a: map<nat, Content>, b: map<nat, Content>) {
    forall id :: id in a ==> id in b && b[id] == a[id]
  }

  class Pool {
    ghost var live: set<nat>
    var memory: map<nat, Content>
    var next: nat

    ghost predicate Valid()
      reads this
    {
      memory.Keys == live && forall id :: id in live ==> id < next
    }

    constructor ()
      ensures Valid() && live == {}
    {
      live, memory, next := {}, map[], 0;
    }

    method Allocate(available: bool) returns (a: Address)
      requires Valid()
      modifies this
      ensures Valid() && Keeps(old(memory), memory)
      ensures available ==> a.Block? && a.id !in old(live) && live == old(live) + {a.id}
      ensures !available ==> a == Null && live == old(live)
    {
      if !available {
        return Null;
      }
      a := Block(next);
      memory := memory[next := Bytes([])];
      live := live + {next};
      next := next + 1;
    }

    method Write(id: nat, content: Content)
      requires Valid() && id in live
      modifies this`memory
      ensures Valid() && memory == old(memory)[id := content]
    {
      memory := memory[id := content];
    }

    /** Only a live block can be freed: not NULL, not a caller's pointer, not a block already freed. */
    method Free(a: Address)
      requires Valid() && a.Block? && a.id in live
      modifies this`live, this`memory
      ensures Valid() && live == old(live) - {a.id} && Keeps(memory, old(memory))
    {
      live := live - {a.id};
      memory := memory - {a.id};
    }
  }

  /** The block a pointer owns. */
  ghost function Owns(a: Address): set<nat> {
    if a.Block? then {a.id} else {}
  }

  /** A BOUNCE_BUFFER. */
  class Bounce {
    var buffer: Address

    constructor ()
      ensures buffer == Null
    {
      buffer := Null;
    }

    method Cleanup(pool: Pool)
      requires pool.Valid() && !buffer.Caller? && Owns(buffer) <= pool.live
      modifies this, pool`live, pool`memory
      ensures pool.Valid() && buffer == Null && pool.live == old(pool.live) - Owns(old(buffer))
      ensures Keeps(pool.memory, old(pool.memory))
    {
      if buffer != Null {
        pool.Free(buffer);
      }
      buffer := Null;
    }

    /** Hands the block to the caller, who has to free it from now on. */
    method Release() returns (a: Address)
      modifies this
      ensures a == old(buffer) && buffer == Null
    {
      a := buffer;
      buffer := Null;
    }

    /** Copies caller memory into a new block. Every failure leaves no block behind. */
    method Copy(pool: Pool, source: Content, luck: Luck) returns (status: Status)
      requires pool.Valid() && buffer == Null
      modifies this, pool
      ensures pool.Valid() && Keeps(old(pool.memory), pool.memory)
      ensures status == CopyStatus(source, luck)
      ensures pool.live == old(pool.live) + Owns(buffer) && Owns(buffer) !! old(pool.live)
      ensures buffer == Null || buffer.Block?
      ensures buffer.Block? <==> status == Success && Size(source) > 0
      ensures buffer.Block? ==> pool.memory[buffer.id] == source
    {
      if Size(source) == 0 {
        return Success;
      }
      buffer := pool.Allocate(luck.memory);
      if buffer == Null {
        return NoMemory;
      }
      if !luck.readable {
        Cleanup(pool);
        return AccessViolation;
      }
      pool.Write(buffer.id, source);
      return Success;
    }
  }

  function CopyStatus(source: Content, luck: Luck): Status {
    if Size(source) == 0 then Success else if !luck.memory then NoMemory
    else if !luck.readable then AccessViolation else Success
  }

  // ---- The enqueue parameters -----------------------------------------------------------------

  /** The blocks of the first n buffers. */
  ghost function Blocks(buffers: seq<DataBuffer>, n: nat): set<nat>
    requires n <= |buffers|
  {
    if n == 0 then {} else Blocks(buffers, n - 1) + Owns(buffers[n - 1].address)
  }

  /** The first n buffers have a block each, all different. */
  ghost predicate Separate(buffers: seq<DataBuffer>, n: nat)
    requires n <= |buffers|
  {
    n == 0 || (Separate(buffers, n - 1) && buffers[n - 1].address.Block? && buffers[n - 1].address.id !in Blocks(buffers, n - 1))
  }

  lemma {:induction false} BlocksByPrefix(a: seq<DataBuffer>, b: seq<DataBuffer>, n: nat)
    requires n <= |a| && n <= |b| && forall i :: 0 <= i < n ==> a[i] == b[i]
    ensures Blocks(a, n) == Blocks(b, n) && (Separate(a, n) <==> Separate(b, n))
  {
    if n > 0 {
      BlocksByPrefix(a, b, n - 1);
    }
  }

  predicate AcceptsBuffer(b: DataBuffer) {
    b.bufferLength > 0 && b.dataOffset + b.dataLength <= b.bufferLength
  }

  function BufferStatus(b: DataBuffer): Status {
    if b.bufferLength == 0 then InvalidParameter
    else if b.dataOffset + b.dataLength >= 0x1_0000_0000 then IntegerOverflow
    else if b.dataOffset + b.dataLength > b.bufferLength then InvalidParameter
    else Success
  }

  /** Same fields, other memory. */
  predicate Copies(a: DataBuffer, b: DataBuffer) {
    a.dataOffset == b.dataOffset && a.dataLength == b.dataLength && a.bufferLength == b.bufferLength
  }

  /** The caller's memory behind the buffers, as it is when they are copied. */
  predicate Snapshot(input: seq<DataBuffer>, contents: seq<seq<byte>>) {
    |contents| == |input| && forall i :: 0 <= i < |input| ==> |contents[i]| == input[i].bufferLength
  }

  /** The first n buffers point to copies of that memory. */
  ghost predicate Holds(memory: map<nat, Content>, buffers: seq<DataBuffer>, contents: seq<seq<byte>>, n: nat) {
    n <= |buffers| == |contents| && forall i :: 0 <= i < n ==>
      buffers[i].address.Block? && buffers[i].address.id in memory && memory[buffers[i].address.id] == Bytes(contents[i])
  }

  /** The result of bouncing: the first buffer that is refused, or cannot be copied, decides. */
  function BounceStatus(buffers: seq<DataBuffer>, lucks: seq<Luck>, from: nat): Status
    requires |lucks| == |buffers| && from <= |buffers|
    decreases |buffers| - from
  {
    if from == |buffers| then Success
    else if BufferStatus(buffers[from]) != Success then BufferStatus(buffers[from])
    else if !lucks[from].memory then NoMemory
    else if !lucks[from].readable then AccessViolation
    else BounceStatus(buffers, lucks, from + 1)
  }

  /** A buffer is refused for one of two reasons: it is empty or its data ends outside it, or the end of its
      data does not fit in 32 bits. */
  lemma BufferStatusIs(b: DataBuffer)
    ensures BufferStatus(b) == Success <==> AcceptsBuffer(b)
    ensures BufferStatus(b) == IntegerOverflow <==> b.bufferLength > 0 && b.dataOffset + b.dataLength > 0xFFFF_FFFF
    ensures BufferStatus(b) == InvalidParameter <==> b.bufferLength == 0 || b.bufferLength < b.dataOffset + b.dataLength <= 0xFFFF_FFFF
  {
  }

  /** Bouncing gets past a buffer. */
  predicate Passes(b: DataBuffer, luck: Luck) {
    AcceptsBuffer(b) && luck.memory && luck.readable
  }

  /** Bouncing succeeds exactly if it gets past every buffer. */
  lemma {:induction false} BounceSucceedsIff(buffers: seq<DataBuffer>, lucks: seq<Luck>, from: nat)
    requires |lucks| == |buffers| && from <= |buffers|
    ensures BounceStatus(buffers, lucks, from) == Success <==> forall i :: from <= i < |buffers| ==> Passes(buffers[i], lucks[i])
    decreases |buffers| - from
  {
    if from < |buffers| {
      BounceSucceedsIff(buffers, lucks, from + 1);
    }
  }

  /** Otherwise the first buffer that it does not get past decides, by its lengths before its memory. */
  lemma {:induction false} FirstRefusalDecides(buffers: seq<DataBuffer>, lucks: seq<Luck>, from: nat, k: nat)
    requires |lucks| == |buffers| && from <= k < |buffers|
    requires (forall i :: from <= i < k ==> Passes(buffers[i], lucks[i])) && !Passes(buffers[k], lucks[k])
    ensures BounceStatus(buffers, lucks, from) ==
      if buffers[k].bufferLength > 0 && buffers[k].dataOffset + buffers[k].dataLength > 0xFFFF_FFFF then IntegerOverflow
      else if !AcceptsBuffer(buffers[k]) then InvalidParameter
      else if !lucks[k].memory then NoMemory
      else AccessViolation
    decreases k - from
  {
    if from < k {
      FirstRefusalDecides(buffers, lucks, from + 1, k);
    }
  }

  /** The caller's frame is bounced exactly if the parameters are all there, there is a buffer, the array and
      the buffers can be copied, and each buffer is non-empty and holds its data. */
  lemma EnqueueSucceedsIff(tooSmall: bool, input: seq<DataBuffer>, first: Luck, lucks: seq<Luck>)
    requires |lucks| == |input|
    ensures EnqueueStatus(tooSmall, input, first, lucks) == Success <==>
      !tooSmall && input != [] && first.memory && first.readable && forall i :: 0 <= i < |input| ==> Passes(input[i], lucks[i])
  {
    BounceSucceedsIff(input, lucks, 0);
  }

  /** A filter is bounced exactly if the parameters are all there and both copies, if any, can be made. */
  lemma FilterSucceedsIff(tooSmall: bool, pattern: seq<byte>, mask: seq<byte>, luck1: Luck, luck2: Luck)
    requires |pattern| == |mask|
    ensures FilterStatus(tooSmall, pattern, mask, luck1, luck2) == Success <==>
      !tooSmall && (pattern == [] || (luck1.memory && luck1.readable && luck2.memory && luck2.readable))
  {
  }

  /** The checks on one buffer, in 32-bit arithmetic. */
  method CheckBuffer(b: DataBuffer) returns (status: Status)
    ensures status == BufferStatus(b)
  {
    if b.bufferLength == 0 {
      return InvalidParameter;
    }
    var total := (b.dataOffset + b.dataLength) % 0x1_0000_0000;
    if total < b.dataOffset {
      return IntegerOverflow;
    }
    if total > b.bufferLength {
      return InvalidParameter;
    }
    return Success;
  }

  /** DATA_ENQUEUE_IN after bouncing: the array block, its contents, and how many buffers of it are
      bounced. The entries from count on still hold the caller's pointers. */
  class EnqueueIn {
    var array_: Address
    var buffers: seq<DataBuffer>
    var count: nat

    ghost predicate Valid()
      reads this
    {
      && count <= |buffers|
      && (array_ == Null || array_.Block?)
      && Separate(buffers, count)
      && (array_ == Null ==> count == 0)
      && Owns(array_) !! Blocks(buffers, count)
    }

    ghost function Owned(): set<nat>
      requires count <= |buffers|
      reads this
    {
      Owns(array_) + Blocks(buffers, count)
    }

    constructor ()
      ensures Valid() && Owned() == {} && count == 0
    {
      array_, buffers, count := Null, [], 0;
    }

    /** Frees every bounced buffer and the array, each once, and nothing else. */
    method CleanupEnqueue(pool: Pool)
      requires Valid() && pool.Valid() && Owned() <= pool.live
      modifies pool`live, pool`memory
      ensures pool.Valid() && pool.live == old(pool.live) - Owned() && Keeps(pool.memory, old(pool.memory))
    {
      if array_ == Null {
        return;
      }
      for i := 0 to count
        invariant pool.Valid() && pool.live == old(pool.live) - Blocks(buffers, i) && Keeps(pool.memory, old(pool.memory))
      {
        SeparateAt(buffers, i, count);
        if buffers[i].address != Null {
          pool.Free(buffers[i].address);
        }
      }
      pool.Free(array_);
    }

    method Zero()
      modifies this
      ensures Valid() && Owned() == {} && count == 0 && array_ == Null
    {
      array_, buffers, count := Null, [], 0;
    }

    /** Bounces the buffer array and then each buffer. On success exactly the array block and one
        block per buffer were taken, and they hold what the caller's memory held; on every failure none is
        left. */
    method BounceEnqueue(pool: Pool, tooSmall: bool, input: seq<DataBuffer>, contents: seq<seq<byte>>, first: Luck, lucks: seq<Luck>)
      returns (status: Status)
      requires pool.Valid() && |lucks| == |input| && Snapshot(input, contents)
      modifies this, pool
      ensures Valid() && pool.Valid()
      ensures pool.live == old(pool.live) + Owned() && Owned() !! old(pool.live)
      ensures status == EnqueueStatus(tooSmall, input, first, lucks)
      ensures status != Success ==> Owned() == {}
      ensures status == Success ==> count == |buffers| == |input| && forall i :: 0 <= i < |input| ==> Copies(buffers[i], input[i])
      ensures status == Success ==> Holds(pool.memory, buffers, contents, count)
    {
      Zero();
      if tooSmall {
        return BufferTooSmall;
      }
      if |input| == 0 {
        return InvalidParameter;
      }
      var bounce := new Bounce();
      status := bounce.Copy(pool, Array(input), first);
      if status != Success {
        return;
      }
      array_ := bounce.Release();
      buffers := input;
      status := BounceBuffers(pool, input, contents, lucks);
      if status != Success {
        CleanupEnqueue(pool);
        Zero();
      }
    }

    /** Bounces the buffers in order until one fails. */
    method BounceBuffers(pool: Pool, ghost input: seq<DataBuffer>, contents: seq<seq<byte>>, lucks: seq<Luck>) returns (status: Status)
      requires Valid() && pool.Valid() && Owned() <= pool.live && array_.Block?
      requires buffers == input && |lucks| == |input| && Snapshot(input, contents) && count == 0
      modifies this, pool
      ensures Valid() && pool.Valid() && old(Owned()) <= Owned()
      ensures pool.live == old(pool.live) + Owned() && Owned() - old(Owned()) !! old(pool.live)
      ensures status == BounceStatus(input, lucks, 0)
      ensures status == Success ==> count == |buffers| == |input| && forall i :: 0 <= i < |input| ==> Copies(buffers[i], input[i])
      ensures status == Success ==> Holds(pool.memory, buffers, contents, count)
    {
      while count < |buffers|
        invariant Valid() && pool.Valid() && count <= |input| == |buffers| && array_.Block? && old(Owned()) <= Owned()
        invariant pool.live == old(pool.live) + Owned() && Owned() - old(Owned()) !! old(pool.live)
        invariant forall i :: 0 <= i < |input| ==> Copies(buffers[i], input[i])
        invariant Holds(pool.memory, buffers, contents, count)
        invariant BounceStatus(input, lucks, 0) == BounceStatus(input, lucks, count)
      {
        status := CheckBuffer(buffers[count]);
        if status == Success {
          status := BounceOne(pool, contents, lucks[count]);
        }
        if status != Success {
          return;
        }
      }
      return Success;
    }

    /** Bounces the next buffer. */
    method BounceOne(pool: Pool, contents: seq<seq<byte>>, luck: Luck) returns (status: Status)
      requires Valid() && pool.Valid() && count < |buffers| && array_.Block? && buffers[count].bufferLength > 0
      requires Snapshot(buffers, contents) && Holds(pool.memory, buffers, contents, count) && Owned() <= pool.live
      modifies this, pool
      ensures Valid() && pool.Valid() && array_ == old(array_) && |buffers| == old(|buffers|)
      ensures status == if !luck.memory then NoMemory else if !luck.readable then AccessViolation else Success
      ensures count == old(count) + if status == Success then 1 else 0
      ensures forall i :: 0 <= i < |buffers| ==> Copies(buffers[i], old(buffers)[i])
      ensures pool.live == old(pool.live) + Owned() && Owned() - old(Owned()) !! old(pool.live) && old(Owned()) <= Owned()
      ensures Holds(pool.memory, buffers, contents, count)
    {
      var bounce := new Bounce();
      status := bounce.Copy(pool, Bytes(contents[count]), luck);
      if status != Success {
        return;
      }
      ghost var was := buffers;
      var a := bounce.Release();
      buffers := buffers[count := buffers[count].(address := a)];
      BlocksByPrefix(was, buffers, count);
      count := count + 1;
    }
  }

  function EnqueueStatus(tooSmall: bool, input: seq<DataBuffer>, first: Luck, lucks: seq<Luck>): Status
    requires |lucks| == |input|
  {
    if tooSmall then BufferTooSmall else if |input| == 0 then InvalidParameter
    else if CopyStatus(Array(input), first) != Success then CopyStatus(Array(input), first)
    else BounceStatus(input, lucks, 0)
  }

  lemma {:induction false} SeparateAt(buffers: seq<DataBuffer>, i: nat, n: nat)
    requires i < n <= |buffers| && Separate(buffers, n)
    ensures buffers[i].address.Block? && buffers[i].address.id !in Blocks(buffers, i)
    ensures buffers[i].address.id in Blocks(buffers, n)
    decreases n
  {
    if i < n - 1 {
      SeparateAt(buffers, i, n - 1);
    }
  }

  // ---- The filter parameters ------------------------------------------------------------------

  /** The two copies, the mask's only after the pattern's. */
  method CopyBoth(pool: Pool, p: Bounce, m: Bounce, pattern: seq<byte>, mask: seq<byte>, luck1: Luck, luck2: Luck) returns (status: Status)
    requires pool.Valid() && p != m && p.buffer == Null && m.buffer == Null && |pattern| == |mask| > 0
    modifies p, m, pool
    ensures pool.Valid() && !p.buffer.Caller? && !m.buffer.Caller?
    ensures pool.live == old(pool.live) + Owns(p.buffer) + Owns(m.buffer)
    ensures Owns(p.buffer) !! Owns(m.buffer) && Owns(p.buffer) !! old(pool.live) && Owns(m.buffer) !! old(pool.live)
    ensures status == FilterStatus(false, pattern, mask, luck1, luck2)
    ensures status == Success ==>
      && p.buffer.Block? && m.buffer.Block?
      && pool.memory[p.buffer.id] == Bytes(pattern) && pool.memory[m.buffer.id] == Bytes(mask)
  {
    status := p.Copy(pool, Bytes(pattern), luck1);
    if status == Success {
      status := m.Copy(pool, Bytes(mask), luck2);
    }
  }

  /** DATA_FILTER_IN after bouncing. */
  class FilterIn {
    var pattern: Address
    var mask: Address
    var length: u32

    ghost predicate Valid()
      reads this
    {
      !pattern.Caller? && !mask.Caller? && Owns(pattern) !! Owns(mask)
    }

    ghost function Owned(): set<nat>
      reads this
    {
      Owns(pattern) + Owns(mask)
    }

    constructor ()
      ensures Valid() && Owned() == {} && length == 0
    {
      pattern, mask, length := Null, Null, 0;
    }

    method CleanupFilter(pool: Pool)
      requires Valid() && pool.Valid() && Owned() <= pool.live
      modifies this, pool`live, pool`memory
      ensures Valid() && pool.Valid() && Owned() == {} && length == 0 && Keeps(pool.memory, old(pool.memory))
      ensures pool.live == old(pool.live) - old(Owned())
    {
      if mask != Null {
        pool.Free(mask);
      }
      if pattern != Null {
        pool.Free(pattern);
      }
      pattern, mask, length := Null, Null, 0;
    }

    /** Bounces pattern and mask. A failure at the mask frees the pattern's block. */
    method BounceFilter(pool: Pool, tooSmall: bool, patternBytes: seq<byte>, maskBytes: seq<byte>, luck1: Luck, luck2: Luck)
      returns (status: Status)
      requires pool.Valid() && |patternBytes| == |maskBytes| < 0x1_0000_0000
      modifies this, pool
      ensures Valid() && pool.Valid() && pool.live == old(pool.live) + Owned() && Owned() !! old(pool.live)
      ensures status == FilterStatus(tooSmall, patternBytes, maskBytes, luck1, luck2)
      ensures status != Success || |patternBytes| == 0 ==> Owned() == {} && length == 0
      ensures status == Success && |patternBytes| > 0 ==>
        && pattern.Block? && mask.Block? && length == |patternBytes|
        && pool.memory[pattern.id] == Bytes(patternBytes) && pool.memory[mask.id] == Bytes(maskBytes)
    {
      pattern, mask, length := Null, Null, 0;
      if tooSmall {
        return BufferTooSmall;
      }
      if |patternBytes| == 0 {
        return Success;
      }
      var p := new Bounce();
      var m := new Bounce();
      status := CopyBoth(pool, p, m, patternBytes, maskBytes, luck1, luck2);
      Keep(pool, p, m, |patternBytes|, status == Success);
    }

    /** The exit: both blocks are kept, or neither is. */
    method Keep(pool: Pool, p: Bounce, m: Bounce, size: u32, kept: bool)
      requires pool.Valid() && p != m && pattern == Null && mask == Null && length == 0
      requires !p.buffer.Caller? && !m.buffer.Caller? && Owns(p.buffer) !! Owns(m.buffer) && Owns(p.buffer) + Owns(m.buffer) <= pool.live
      modifies this, p, m, pool`live, pool`memory
      ensures pool.Valid() && Keeps(pool.memory, old(pool.memory))
      ensures pattern == (if kept then old(p.buffer) else Null) && mask == (if kept then old(m.buffer) else Null)
      ensures length == if kept then size else 0
      ensures pool.live == if kept then old(pool.live) else old(pool.live) - Owns(old(p.buffer)) - Owns(old(m.buffer))
    {
      if kept {
        pattern := p.Release();
        mask := m.Release();
        length := size;
      } else {
        CleanupFilter(pool);
      }
      m.Cleanup(pool);
      p.Cleanup(pool);
    }
  }

  function FilterStatus(tooSmall: bool, pattern: seq<byte>, mask: seq<byte>, luck1: Luck, luck2: Luck): Status {
    if tooSmall then BufferTooSmall
    else if CopyStatus(Bytes(pattern), luck1) != Success then CopyStatus(Bytes(pattern), luck1)
    else CopyStatus(Bytes(mask), luck2)
  }
}
