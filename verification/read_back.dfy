/** Reading a captured frame back: FnIoGetFilteredFrame lays a frame header, one descriptor per MDL
    and the data bytes into one output buffer, with pointers relative to its start. */
module ReadBack {
  import opened Bytes
  import opened NetBuffers

  /** sizeof(DATA_FRAME) and sizeof(DATA_BUFFER) with 64-bit pointers. */
  const HEADER: nat := 56
  const DESCRIPTOR: nat := 24
  const RANGE_32: nat := 0x1_0000_0000
  const MAX_BUFFERS: nat := 255

  /** Overrun is not a status of the code: it says that the copy, carried through, would leave the output. */
  datatype Status = Done | IntegerOverflow | BufferOverflow | BufferTooSmall | InsufficientResources | Overrun

  /** A DATA_BUFFER in the output; address is relative to the output. */
  datatype Descriptor = Descriptor(address: nat, dataOffset: nat, dataLength: nat, bufferLength: nat)

  function Min(a: nat, b: nat): nat {
    if a < b then a else b
  }

  /** The position lies in the chain and the data ends in it. */
  predicate InChain(chain: seq<seq<byte>>, offset: nat, length: nat) {
    && offset + length <= Total(chain)
    && (if chain == [] then offset == 0 else offset <= |chain[0]|)
  }

  // ---- The size -------------------------------------------------------------------------------

  /** Header, descriptors and every byte of every MDL. */
  function TrueSize(chain: seq<seq<byte>>): nat {
    HEADER + DESCRIPTOR * |chain| + Total(chain)
  }

  lemma TotalExtends(chain: seq<seq<byte>>, i: nat)
    requires i < |chain|
    ensures Total(chain[..i + 1]) == Total(chain[..i]) + |chain[i]|
  {
    assert chain[..i + 1] == chain[..i] + [chain[i]];
    var one := [chain[i]];
    TotalConcat(chain[..i], one);
    assert one[1..] == [];
  }

  /** The first loop: the size in 32-bit arithmetic, and the count in 8 bits. */
  method Measure(chain: seq<seq<byte>>) returns (ok: bool, size: nat)
    ensures ok <==> |chain| <= MAX_BUFFERS
    ensures ok ==> size == TrueSize(chain) % RANGE_32
    ensures ok ==> (size == TrueSize(chain) <==> TrueSize(chain) < RANGE_32)
  {
    size := HEADER;
    var count: nat := 0;
    for i := 0 to |chain|
      invariant count == i <= MAX_BUFFERS
      invariant size == TrueSize(chain[..i]) % RANGE_32
    {
      TotalExtends(chain, i);
      size := (size + DESCRIPTOR) % RANGE_32;
      size := (size + |chain[i]|) % RANGE_32;
      WrapTwice(TrueSize(chain[..i]), DESCRIPTOR, |chain[i]|);
      if count == MAX_BUFFERS {
        return false, size;
      }
      count := count + 1;
    }
    assert chain[..|chain|] == chain;
    return true, size;
  }

  lemma WrapTwice(a: nat, b: nat, c: nat)
    ensures ((a % RANGE_32 + b) % RANGE_32 + c) % RANGE_32 == (a + b + c) % RANGE_32
  {
  }

  /** Where the copy of a frame at a position ends: behind the header, the descriptors and the data. */
  function Extent(chain: seq<seq<byte>>, offset: nat, length: nat): nat {
    HEADER + DESCRIPTOR * |chain| + offset + length
  }

  predicate PassesCheck(chain: seq<seq<byte>>, outputLength: nat) {
    outputLength >= TrueSize(chain) % RANGE_32
  }

  /** Every output that passes the size check has room for the copy if and only if the copy ends within the
      size modulo 2 to the 32; a true size that fits 32 bits is enough for that. */
  lemma SizeIsExactIff(chain: seq<seq<byte>>, offset: nat, length: nat)
    requires InChain(chain, offset, length)
    ensures (forall room :: PassesCheck(chain, room) ==> Extent(chain, offset, length) <= room)
       <==> Extent(chain, offset, length) <= TrueSize(chain) % RANGE_32
    ensures TrueSize(chain) < RANGE_32 ==> Extent(chain, offset, length) <= TrueSize(chain) % RANGE_32
  {
    assert PassesCheck(chain, TrueSize(chain) % RANGE_32);
  }

  lemma RoomSuffices(chain: seq<seq<byte>>, offset: nat, length: nat, room: nat)
    requires InChain(chain, offset, length) && TrueSize(chain) <= room
    ensures PassesCheck(chain, room) && Extent(chain, offset, length) <= room
  {
  }

  /** One MDL of a size that a 32-bit byte count can hold, and a reported size of zero, which any output
      satisfies. */
  lemma SizeWraps() returns (chain: seq<seq<byte>>)
    ensures |chain| == 1 && |chain[0]| < RANGE_32 && TrueSize(chain) % RANGE_32 == 0
    ensures InChain(chain, 0, 0) && PassesCheck(chain, 1) && Extent(chain, 0, 0) > 1
  {
    chain := [Zeros(RANGE_32 - HEADER - DESCRIPTOR)];
    assert chain[1..] == [];
    assert Total(chain) == RANGE_32 - HEADER - DESCRIPTOR;
  }

  // ---- The layout -----------------------------------------------------------------------------

  /** The descriptors: each buffer starts where the one before ended. */
  function Layout(chain: seq<seq<byte>>, offset: nat, length: nat, at: nat): (r: seq<Descriptor>)
    requires InChain(chain, offset, length)
    ensures |r| == |chain|
    decreases |chain|
  {
    if chain == [] then []
    else
      var n := Min(|chain[0]| - offset, length);
      [Descriptor(at, offset, n, offset + n)] + Layout(chain[1..], 0, length - n, at + offset + n)
  }

  /** The bytes copied, MDL by MDL. */
  function Pieces(chain: seq<seq<byte>>, offset: nat, length: nat): seq<byte>
    requires InChain(chain, offset, length)
    decreases |chain|
  {
    if chain == [] then []
    else
      var n := Min(|chain[0]| - offset, length);
      chain[0][offset..offset + n] + Pieces(chain[1..], 0, length - n)
  }

  function DataStart(d: Descriptor): nat {
    d.address + d.dataOffset
  }

  function DataEnd(d: Descriptor): nat {
    d.address + d.dataOffset + d.dataLength
  }

  /** Every data range ends at or before a point. */
  predicate EndBy(ds: seq<Descriptor>, limit: nat) {
    forall i :: 0 <= i < |ds| ==> DataEnd(ds[i]) <= limit
  }

  /** What a client reads: the data range of each descriptor, after adding the output's address. */
  function Payload(ds: seq<Descriptor>, output: seq<byte>): seq<byte>
    requires EndBy(ds, |output|)
  {
    if ds == [] then []
    else
      var last := ds[|ds| - 1];
      Payload(ds[..|ds| - 1], output) + output[DataStart(last)..DataEnd(last)]
  }

  /** The copied bytes are the frame. */
  lemma {:induction false} PiecesAreData(chain: seq<seq<byte>>, offset: nat, length: nat)
    requires InChain(chain, offset, length)
    ensures offset + length <= |Flat(chain)| && Pieces(chain, offset, length) == Flat(chain)[offset..offset + length]
    decreases |chain|
  {
    FlatLength(chain);
    if chain != [] {
      var n := Min(|chain[0]| - offset, length);
      PiecesAreData(chain[1..], 0, length - n);
      SplitRange(chain[0], Flat(chain[1..]), offset, length, n);
    }
  }

  lemma SplitRange(a: seq<byte>, b: seq<byte>, offset: nat, length: nat, n: nat)
    requires offset <= |a| && n == Min(|a| - offset, length) && offset + length <= |a| + |b|
    ensures (a + b)[offset..offset + length] == a[offset..offset + n] + b[0..length - n]
  {
  }

  /** Buffers lie behind the descriptors, in order, without overlap, inside the output. */
  predicate Ordered(ds: seq<Descriptor>, from: nat, to: nat) {
    && (forall i :: 0 <= i < |ds| ==> from <= ds[i].address && ds[i].address + ds[i].bufferLength <= to)
    && (forall i :: 0 <= i < |ds| ==> ds[i].bufferLength == ds[i].dataOffset + ds[i].dataLength)
    && (forall i, j :: 0 <= i < j < |ds| ==> ds[i].address + ds[i].bufferLength <= ds[j].address)
  }

  lemma {:induction false} LayoutOrdered(chain: seq<seq<byte>>, offset: nat, length: nat, at: nat)
    requires InChain(chain, offset, length)
    ensures Ordered(Layout(chain, offset, length, at), at, at + offset + length)
    decreases |chain|
  {
    if chain != [] {
      var n := Min(|chain[0]| - offset, length);
      LayoutOrdered(chain[1..], 0, length - n, at + offset + n);
    }
  }

  lemma {:induction false} PayloadKept(ds: seq<Descriptor>, a: seq<byte>, b: seq<byte>, limit: nat)
    requires limit <= |a| == |b| && a[..limit] == b[..limit] && EndBy(ds, limit)
    ensures Payload(ds, a) == Payload(ds, b)
    decreases |ds|
  {
    if ds != [] {
      var last := ds[|ds| - 1];
      PayloadKept(ds[..|ds| - 1], a, b, limit);
      SameRange(a, b, limit, DataStart(last), DataEnd(last));
    }
  }

  lemma SameRange(a: seq<byte>, b: seq<byte>, limit: nat, from: nat, to: nat)
    requires from <= to <= limit <= |a| == |b| && a[..limit] == b[..limit]
    ensures a[from..to] == b[from..to]
  {
    assert a[from..to] == a[..limit][from..to] && b[from..to] == b[..limit][from..to];
  }

  // ---- The copy loop --------------------------------------------------------------------------

  /** The variables of the second loop: MDLs done, offset in the next one, data bytes left, next free
      byte of the output, descriptors written. */
  datatype Cursor = Cursor(i: nat, off: nat, left: nat, at: nat, ds: seq<Descriptor>)

  /** The loop is on its way to the layout and the data of the whole chain. */
  ghost predicate Copying(chain: seq<seq<byte>>, offset: nat, length: nat, start: nat, c: Cursor, payload: seq<byte>) {
    && InChain(chain, offset, length) && c.i <= |chain| && InChain(chain[c.i..], c.off, c.left)
    && start <= c.at && EndBy(c.ds, c.at) && c.at + c.off + c.left == start + offset + length
    && c.ds + Layout(chain[c.i..], c.off, c.left, c.at) == Layout(chain, offset, length, start)
    && payload + Pieces(chain[c.i..], c.off, c.left) == Pieces(chain, offset, length)
  }

  lemma CopyingStarts(chain: seq<seq<byte>>, offset: nat, length: nat, start: nat)
    requires InChain(chain, offset, length)
    ensures Copying(chain, offset, length, start, Cursor(0, offset, length, start, []), [])
  {
    assert chain[0..] == chain;
  }

  lemma CopyingEnds(chain: seq<seq<byte>>, offset: nat, length: nat, start: nat, c: Cursor, payload: seq<byte>)
    requires Copying(chain, offset, length, start, c, payload) && c.i == |chain|
    ensures |c.ds| == |chain| && Ordered(c.ds, start, start + offset + length)
    ensures offset + length <= |Flat(chain)| && payload == Flat(chain)[offset..offset + length]
  {
    assert chain[|chain|..] == [];
    assert c.ds == Layout(chain, offset, length, start) && payload == Pieces(chain, offset, length);
    LayoutOrdered(chain, offset, length, start);
    PiecesAreData(chain, offset, length);
  }

  function Next(c: Cursor, n: nat): Cursor
    requires n <= c.left
  {
    Cursor(c.i + 1, 0, c.left - n, c.at + c.off + n, c.ds + [Descriptor(c.at, c.off, n, c.off + n)])
  }

  lemma CopyingStep(chain: seq<seq<byte>>, offset: nat, length: nat, start: nat, c: Cursor, payload: seq<byte>, n: nat, longer: seq<byte>)
    requires Copying(chain, offset, length, start, c, payload) && c.i < |chain|
    requires c.off <= |chain[c.i]| && n == Min(|chain[c.i]| - c.off, c.left)
    requires EndBy(Next(c, n).ds, c.at + c.off + n) && longer == payload + chain[c.i][c.off..c.off + n]
    ensures Copying(chain, offset, length, start, Next(c, n), longer)
  {
    var rest := chain[c.i..];
    assert rest[0] == chain[c.i] && rest[1..] == chain[c.i + 1..];
    assert InChain(rest[1..], 0, c.left - n);
    Associate(c.ds, Descriptor(c.at, c.off, n, c.off + n), Layout(rest[1..], 0, c.left - n, c.at + c.off + n));
    AssociateBytes(payload, chain[c.i][c.off..c.off + n], Pieces(rest[1..], 0, c.left - n));
  }

  lemma CopyingRoom(chain: seq<seq<byte>>, offset: nat, length: nat, start: nat, c: Cursor, payload: seq<byte>)
    requires Copying(chain, offset, length, start, c, payload) && c.i < |chain|
    ensures c.off <= |chain[c.i]| && start <= c.at && c.at + c.off + c.left == start + offset + length && EndBy(c.ds, c.at)
  {
    assert chain[c.i..][0] == chain[c.i];
  }

  lemma Associate(a: seq<Descriptor>, b: Descriptor, c: seq<Descriptor>)
    ensures (a + [b]) + c == a + ([b] + c)
  {
  }

  lemma AssociateBytes(a: seq<byte>, b: seq<byte>, c: seq<byte>)
    ensures (a + b) + c == a + (b + c)
  {
  }

  lemma PayloadGrows(ds: seq<Descriptor>, d: Descriptor, old_: seq<byte>, new_: seq<byte>, data: seq<byte>)
    requires |old_| == |new_| && EndBy(ds, d.address) && DataEnd(d) <= |new_|
    requires old_[..d.address] == new_[..d.address] && new_[DataStart(d)..DataEnd(d)] == data
    ensures EndBy(ds + [d], |new_|) && EndBy(ds + [d], DataEnd(d)) && EndBy(ds, |old_|)
    ensures Payload(ds + [d], new_) == Payload(ds, old_) + data
  {
    PayloadKept(ds, old_, new_, d.address);
    var all := ds + [d];
    assert all[..|all| - 1] == ds && all[|all| - 1] == d;
  }

  /** The bytes at a position were written, and those before it were not. */
  predicate Wrote(before: seq<byte>, after: seq<byte>, at: nat, data: seq<byte>) {
    && at + |data| <= |before| == |after|
    && after[..at] == before[..at] && after[at..at + |data|] == data
  }

  /** Copies one MDL's share of the data. */
  method CopyMdl(output: array<byte>, at: nat, data: seq<byte>)
    requires at + |data| <= output.Length
    modifies output
    ensures Wrote(old(output[..]), output[..], at, data)
  {
    ghost var before := output[..];
    Copy(output, at, data);
    ghost var after := output[..];
    assert after[..at] == before[..at] && after[at..at + |data|] == data;
  }

  lemma Shorter(a: seq<byte>, b: seq<byte>, n: nat, m: nat)
    requires m <= n <= |a| == |b| && a[..n] == b[..n]
    ensures a[..m] == b[..m]
  {
    assert a[..m] == a[..n][..m] && b[..m] == b[..n][..m];
  }

  /** The descriptors, which end by a limit, lead to these bytes. */
  predicate Reads(ds: seq<Descriptor>, limit: nat, output: seq<byte>, payload: seq<byte>) {
    limit <= |output| && EndBy(ds, limit) && Payload(ds, output) == payload
  }

  lemma ReadsOn(before: seq<byte>, after: seq<byte>, ds: seq<Descriptor>, d: Descriptor, payload: seq<byte>, data: seq<byte>, start: nat)
    requires Reads(ds, d.address, before, payload) && start <= d.address
    requires Wrote(before, after, DataStart(d), data) && |data| == d.dataLength
    ensures after[..start] == before[..start]
    ensures Reads(ds + [d], DataEnd(d), after, payload + data)
  {
    Shorter(before, after, DataStart(d), start);
    Shorter(before, after, DataStart(d), d.address);
    PayloadGrows(ds, d, before, after, data);
  }

  lemma ReadsNext(before: seq<byte>, after: seq<byte>, c: Cursor, n: nat, d: Cursor, payload: seq<byte>, data: seq<byte>, start: nat)
    requires n <= c.left && d == Next(c, n) && start <= c.at && |data| == n
    requires Reads(c.ds, c.at, before, payload) && Wrote(before, after, c.at + c.off, data)
    ensures after[..start] == before[..start] && Reads(d.ds, d.at, after, payload + data)
  {
    ReadsOn(before, after, c.ds, Descriptor(c.at, c.off, n, c.off + n), payload, data, start);
  }

  /** One round of the second loop copies the next MDL's share. */
  method CopyNext(chain: seq<seq<byte>>, ghost offset: nat, ghost length: nat, ghost start: nat, output: array<byte>, c: Cursor,
                  ghost payload: seq<byte>) returns (d: Cursor, n: nat, ghost data: seq<byte>)
    requires c.i < |chain| && start + offset + length <= output.Length
    requires Copying(chain, offset, length, start, c, payload)
    modifies output
    ensures n <= c.left && d == Next(c, n) && start <= c.at && |data| == n && Wrote(old(output[..]), output[..], c.at + c.off, data)
    ensures Copying(chain, offset, length, start, d, payload + data)
  {
    CopyingRoom(chain, offset, length, start, c, payload);
    n := Min(|chain[c.i]| - c.off, c.left);
    data := chain[c.i][c.off..c.off + n];
    CopyMdl(output, c.at + c.off, chain[c.i][c.off..c.off + n]);
    CopyingStep(chain, offset, length, start, c, payload, n, payload + data);
    d := Next(c, n);
  }

  /** The round, with what the descriptors lead to. */
  method CopyRound(chain: seq<seq<byte>>, ghost offset: nat, ghost length: nat, ghost start: nat, output: array<byte>, c: Cursor,
                   ghost payload: seq<byte>) returns (d: Cursor, ghost longer: seq<byte>)
    requires c.i < |chain| && start + offset + length <= output.Length
    requires Copying(chain, offset, length, start, c, payload) && Reads(c.ds, c.at, output[..], payload)
    modifies output
    ensures output[..start] == old(output[..start])
    ensures d.i == c.i + 1 && Copying(chain, offset, length, start, d, longer) && Reads(d.ds, d.at, output[..], longer)
  {
    ghost var before := output[..];
    var n;
    ghost var data;
    d, n, data := CopyNext(chain, offset, length, start, output, c, payload);
    longer := payload + data;
    ghost var after := output[..];
    ReadsNext(before, after, c, n, d, payload, data, start);
    assert output[..start] == after[..start];
  }

  /** The second loop. `unmapped` is the MDL, if any, that has no system address. The header and the
      descriptors are not overwritten by data. */
  method CopyOut(chain: seq<seq<byte>>, offset: nat, length: nat, output: array<byte>, unmapped: Option<nat>)
    returns (ok: bool, ds: seq<Descriptor>)
    requires InChain(chain, offset, length) && Extent(chain, offset, length) <= output.Length
    modifies output
    ensures ok <==> unmapped.None? || unmapped.value >= |chain|
    ensures output[..HEADER + DESCRIPTOR * |chain|] == old(output[..HEADER + DESCRIPTOR * |chain|])
    ensures ok ==> Delivered(chain, offset, length, output[..], ds)
  {
    var start := HEADER + DESCRIPTOR * |chain|;
    var c := Cursor(0, offset, length, start, []);
    ghost var payload: seq<byte> := [];
    CopyingStarts(chain, offset, length, start);
    while c.i < |chain|
      invariant c.i <= |chain| && Reads(c.ds, c.at, output[..], payload)
      invariant Copying(chain, offset, length, start, c, payload)
      invariant output[..start] == old(output[..start])
      invariant unmapped.Some? ==> unmapped.value >= c.i
    {
      if unmapped == Some(c.i) {
        return false, c.ds;
      }
      c, payload := CopyRound(chain, offset, length, start, output, c, payload);
    }
    CopyingEnds(chain, offset, length, start, c, payload);
    Delivers(chain, offset, length, start, c, output[..], payload);
    return true, c.ds;
  }

  /** The buffers lie in order behind the descriptors, without overlap, and hold the frame. */
  ghost predicate Delivered(chain: seq<seq<byte>>, offset: nat, length: nat, output: seq<byte>, ds: seq<Descriptor>) {
    && |ds| == |chain| && Ordered(ds, HEADER + DESCRIPTOR * |chain|, Extent(chain, offset, length))
    && EndBy(ds, |output|) && offset + length <= |Flat(chain)|
    && Payload(ds, output) == Flat(chain)[offset..offset + length]
  }

  lemma Delivers(chain: seq<seq<byte>>, offset: nat, length: nat, start: nat, c: Cursor, output: seq<byte>, payload: seq<byte>)
    requires start == HEADER + DESCRIPTOR * |chain| && Reads(c.ds, c.at, output, payload)
    requires |c.ds| == |chain| && Ordered(c.ds, start, start + offset + length)
    requires offset + length <= |Flat(chain)| && payload == Flat(chain)[offset..offset + length]
    ensures Delivered(chain, offset, length, output, c.ds)
  {
  }

  // ---- FnIoGetFilteredFrame -------------------------------------------------------------------

  /** After the lookup: the frame at a position in an MDL chain is written to the output. */
  method GetFilteredFrame(chain: seq<seq<byte>>, offset: nat, length: nat, output: array<byte>, input: bool, unmapped: Option<nat>)
    returns (status: Status, returned: nat, ds: seq<Descriptor>)
    requires InChain(chain, offset, length)
    modifies output
    ensures status ==
      if |chain| > MAX_BUFFERS then IntegerOverflow
      else if output.Length == 0 && !input then BufferOverflow
      else if !PassesCheck(chain, output.Length) then BufferTooSmall
      else if output.Length < Extent(chain, offset, length) then Overrun
      else if unmapped.Some? && unmapped.value < |chain| then InsufficientResources
      else Done
    ensures TrueSize(chain) < RANGE_32 ==> status != Overrun
    ensures returned == if status == Done || status == BufferOverflow then TrueSize(chain) % RANGE_32 else 0
    ensures status == Done ==> Delivered(chain, offset, length, output[..], ds)
  {
    returned, ds := 0, [];
    var ok, size := Measure(chain);
    if !ok {
      return IntegerOverflow, returned, ds;
    }
    if output.Length == 0 && !input {
      return BufferOverflow, size, ds;
    }
    if output.Length < size {
      return BufferTooSmall, returned, ds;
    }
    SizeIsExactIff(chain, offset, length);
    if output.Length < Extent(chain, offset, length) {
      return Overrun, returned, ds;
    }
    ok, ds := CopyOut(chain, offset, length, output, unmapped);
    if !ok {
      return InsufficientResources, returned, ds;
    }
    return Done, size, ds;
  }

  // ---- The client's side ----------------------------------------------------------------------

  /** With the output at an address of the client's, every data range lies in it. */
  predicate Inside(ds: seq<Descriptor>, base: nat, size: nat) {
    forall i :: 0 <= i < |ds| ==> base <= ds[i].address && DataEnd(ds[i]) <= base + size
  }

  /** What the client reads through pointers of its own. */
  function ClientPayload(ds: seq<Descriptor>, base: nat, output: seq<byte>): seq<byte>
    requires Inside(ds, base, |output|)
  {
    if ds == [] then []
    else
      var last := ds[|ds| - 1];
      ClientPayload(ds[..|ds| - 1], base, output) + output[DataStart(last) - base..DataEnd(last) - base]
  }

  /** The client adds the address of its buffer to every relative pointer. */
  method Relocate(ds: seq<Descriptor>, base: nat, ghost output: seq<byte>) returns (rs: seq<Descriptor>)
    requires EndBy(ds, |output|)
    ensures Inside(rs, base, |output|) && ClientPayload(rs, base, output) == Payload(ds, output)
  {
    rs := [];
    for i := 0 to |ds|
      invariant Relocated(ds[..i], rs, base, output)
    {
      RelocatedOn(ds[..i], rs, ds[i], Shift(ds[i], base), base, output);
      rs := rs + [Shift(ds[i], base)];
      assert ds[..i + 1] == ds[..i] + [ds[i]];
    }
    assert ds[..|ds|] == ds;
  }

  function Shift(d: Descriptor, base: nat): Descriptor {
    d.(address := base + d.address)
  }

  /** The client's pointers lead to the same bytes. */
  predicate Relocated(ds: seq<Descriptor>, rs: seq<Descriptor>, base: nat, output: seq<byte>) {
    EndBy(ds, |output|) && Inside(rs, base, |output|) && ClientPayload(rs, base, output) == Payload(ds, output)
  }

  lemma PayloadSnoc(ds: seq<Descriptor>, d: Descriptor, output: seq<byte>)
    requires EndBy(ds, |output|) && DataEnd(d) <= |output|
    ensures EndBy(ds + [d], |output|) && Payload(ds + [d], output) == Payload(ds, output) + output[DataStart(d)..DataEnd(d)]
  {
    assert (ds + [d])[..|ds|] == ds;
  }

  lemma ClientSnoc(rs: seq<Descriptor>, r: Descriptor, base: nat, output: seq<byte>)
    requires Inside(rs, base, |output|) && base <= r.address && DataEnd(r) <= base + |output|
    ensures Inside(rs + [r], base, |output|)
    ensures ClientPayload(rs + [r], base, output) == ClientPayload(rs, base, output) + output[DataStart(r) - base..DataEnd(r) - base]
  {
    assert (rs + [r])[..|rs|] == rs;
  }

  lemma RelocatedOn(ds: seq<Descriptor>, rs: seq<Descriptor>, d: Descriptor, r: Descriptor, base: nat, output: seq<byte>)
    requires Relocated(ds, rs, base, output) && r == Shift(d, base) && DataEnd(d) <= |output|
    ensures Relocated(ds + [d], rs + [r], base, output)
  {
    PayloadSnoc(ds, d, output);
    ClientSnoc(rs, r, base, output);
  }

  // ---- The round trip -------------------------------------------------------------------------

  lemma {:induction false} FlatConcat(a: seq<seq<byte>>, b: seq<seq<byte>>)
    ensures Flat(a + b) == Flat(a) + Flat(b)
    decreases |a|
  {
    if a == [] {
      assert a + b == b;
    } else {
      FlatConcat(a[1..], b);
      assert (a + b)[1..] == a[1..] + b;
      AssociateBytes(a[0], Flat(a[1..]), Flat(b));
    }
  }

  lemma FlatSplit(mdls: seq<seq<byte>>, current: nat)
    requires current <= |mdls|
    ensures Flat(mdls) == Flat(mdls[..current]) + Flat(mdls[current..])
    ensures |Flat(mdls[..current])| == Total(mdls[..current]) && |Flat(mdls[current..])| == Total(mdls[current..])
    ensures Total(mdls) == Total(mdls[..current]) + Total(mdls[current..])
  {
    var a, b := mdls[..current], mdls[current..];
    assert mdls == a + b;
    FlatConcat(a, b);
    TotalConcat(a, b);
    FlatLength(a);
    FlatLength(b);
  }

  lemma TailRange(all: seq<byte>, a: seq<byte>, b: seq<byte>, offset: nat, length: nat)
    requires all == a + b && |a| + offset + length <= |all|
    ensures offset + length <= |b| && b[offset..offset + length] == all[|a| + offset..|a| + offset + length]
  {
  }

  /** The rest of a chain holds the frame at a position. */
  predicate Seen(rest: seq<seq<byte>>, offset: nat, length: nat, mdls: seq<seq<byte>>, frame: seq<byte>) {
    && InChain(rest, offset, length) && |rest| <= |mdls| && TrueSize(rest) <= TrueSize(mdls)
    && offset + length <= |Flat(rest)| && Flat(rest)[offset..offset + length] == frame
  }

  /** Seen from its current MDL, a NET_BUFFER has the same data. */
  lemma SeenFrom(mdls: seq<seq<byte>>, current: nat, offset: nat, at: nat, length: nat, frame: seq<byte>, rest: seq<seq<byte>>)
    requires current <= |mdls| && rest == mdls[current..] && Total(mdls[..current]) + offset == at && at + length <= Total(mdls)
    requires if current < |mdls| then offset <= |mdls[current]| else offset == 0
    requires |Flat(mdls)| == Total(mdls) && Flat(mdls)[at..at + length] == frame
    ensures Seen(rest, offset, length, mdls, frame)
  {
    FlatSplit(mdls, current);
    TailRange(Flat(mdls), Flat(mdls[..current]), Flat(rest), offset, length);
  }

  lemma BuiltChain(nb: NetBuffer, segments: seq<Segment>)
    requires segments != [] && Built(nb, segments, 0)
    ensures nb.mdls == Chain(segments) && nb.current <= |nb.mdls| && nb.dataOffset + nb.length <= Total(nb.mdls)
    ensures Total(nb.mdls[..nb.current]) + nb.mdlOffset == nb.dataOffset
    ensures if nb.current < |nb.mdls| then nb.mdlOffset <= |nb.mdls[nb.current]| else nb.mdlOffset == 0
  {
    assert segments[0..] == segments;
  }

  lemma BuiltBytes(nb: NetBuffer, segments: seq<Segment>)
    requires segments != [] && AllBounced(segments) && Built(nb, segments, 0)
    ensures nb.dataOffset + nb.length <= |Flat(nb.mdls)| == Total(nb.mdls)
    ensures Flat(nb.mdls)[nb.dataOffset..nb.dataOffset + nb.length] == Ranges(segments)
  {
    BuiltData(nb, segments);
    FlatLength(nb.mdls);
  }

  /** What a reader sees of a frame that was built. */
  lemma BuiltFromCurrent(nb: NetBuffer, segments: seq<Segment>, rest: seq<seq<byte>>)
    requires segments != [] && AllBounced(segments) && Built(nb, segments, 0) && nb.current <= |nb.mdls| && rest == nb.mdls[nb.current..]
    ensures Seen(rest, nb.mdlOffset, nb.length, Chain(segments), Ranges(segments))
  {
    BuiltChain(nb, segments);
    BuiltBytes(nb, segments);
    SeenFrom(Chain(segments), nb.current, nb.mdlOffset, nb.dataOffset, nb.length, Ranges(segments), rest);
  }

  /** A client reads a frame into a buffer of its own. */
  method ReadAndRelocate(chain: seq<seq<byte>>, offset: nat, length: nat, output: array<byte>, unmapped: Option<nat>, base: nat)
    returns (status: Status, rs: seq<Descriptor>)
    requires InChain(chain, offset, length)
    modifies output
    ensures |chain| <= MAX_BUFFERS && output.Length >= TrueSize(chain) && unmapped.None? ==> status == Done
    ensures status == Done ==> Inside(rs, base, output.Length) && offset + length <= |Flat(chain)|
    ensures status == Done ==> ClientPayload(rs, base, output[..]) == Flat(chain)[offset..offset + length]
  {
    if output.Length >= TrueSize(chain) {
      RoomSuffices(chain, offset, length, output.Length);
    }
    var returned, ds;
    status, returned, ds := GetFilteredFrame(chain, offset, length, output, true, unmapped);
    rs := [];
    if status == Done {
      rs := Relocate(ds, base, output[..]);
    }
  }

  /** A frame that was built from client buffers, read back and relocated is the data ranges of those
      buffers. */
  method RoundTrip(pools: Pools, segments: seq<Segment>, lucks: seq<Luck>, output: array<byte>, unmapped: Option<nat>, base: nat)
    returns (status: Status, rs: seq<Descriptor>)
    requires segments != [] && AllBounced(segments) && Contiguous(segments) && |lucks| == |segments|
    requires forall i :: 0 <= i < |lucks| ==> lucks[i].memory && lucks[i].mapped
    modifies pools, output
    ensures |segments| <= MAX_BUFFERS && output.Length >= TrueSize(Chain(segments)) && unmapped.None? ==> status == Done
    ensures status == Done ==> Inside(rs, base, output.Length) && ClientPayload(rs, base, output[..]) == Ranges(segments)
    ensures pools.mdls == old(pools.mdls) && pools.lists == old(pools.lists)
  {
    var built, nbl := FrameBegin(pools, segments, true, lucks);
    var rest := nbl.mdls[nbl.current..];
    BuiltFromCurrent(nbl, segments, rest);
    status, rs := ReadAndRelocate(rest, nbl.mdlOffset, nbl.length, output, unmapped, base);
    assert |nbl.mdls| == |segments|;
    nbl.FrameReturn(pools);
  }
}
