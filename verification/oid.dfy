/** The OID filter of the miniport: filter keys, and the requests pended because they match a key, one
    list per request interface. */
module Oids {
  import opened Bytes

  /** Values of NDIS_REQUEST_TYPE. */
  const QUERY: nat := 0
  const SET: nat := 1
  const STATISTICS: nat := 2
  const METHOD: nat := 12

  /** OID_REQUEST_INTERFACE_REGULAR is 0 and OID_REQUEST_INTERFACE_DIRECT is 1. */
  const INTERFACES: nat := 2

  const GRACE_PERIOD: nat := 5 * 10_000_000

  /** An OID_KEY. */
  datatype Key = Key(oid: nat, kind: nat, interface: nat, port: nat)

  /** An NDIS_OID_REQUEST. length is the InformationBufferLength of a query or set and the InputBufferLength
      of a method, whose OutputBufferLength is outputLength. */
  datatype Request = Request(
    id: nat, oid: nat, kind: nat, port: nat,
    buffer: seq<byte>, length: nat, outputLength: nat, bytesWritten: nat, bytesRead: nat)

  datatype Entry = Entry(request: Request, timestamp: nat)

  /** An NDIS status: pending, or a final code. */
  datatype Status = Pending | Final(code: nat)

  datatype Outcome =
    | Success | InvalidParameter | NoMemory | InvalidDeviceRequest | NotFound | NotSupported
    | BufferOverflow | BufferTooSmall | BounceFailed

  predicate Matches(k: Key, interface: nat, r: Request) {
    r.oid == k.oid && r.kind == k.kind && interface == k.interface && r.port == k.port
  }

  predicate MatchesAny(keys: seq<Key>, interface: nat, r: Request) {
    exists i :: 0 <= i < |keys| && Matches(keys[i], interface, r)
  }

  /** What the filter IOCTL admits. */
  predicate Admissible(k: Key) {
    (k.kind == QUERY || k.kind == SET || k.kind == METHOD) && k.interface < INTERFACES
  }

  predicate AllAdmissible(keys: seq<Key>) {
    forall i :: 0 <= i < |keys| ==> Admissible(keys[i])
  }

  // ---- Decoding the keys ----------------------------------------------------------------------

  /** Input of the filter IOCTL: 32-bit words, and up to three bytes after them. */
  datatype Input = Input(words: seq<u32>, extra: nat)

  function InputLength(input: Input): nat {
    4 * |input.words| + input.extra
  }

  /** sizeof(OID_KEY) from API version 2 on, sizeof(OID_KEY_V0) before. */
  function KeySize(version: nat): nat {
    if version >= 2 then 16 else 12
  }

  /** Keys of the old version have no port; they mean port 0. */
  function KeyAt(version: nat, words: seq<u32>, i: nat): Key
    requires if version >= 2 then 4 * i + 4 <= |words| else 3 * i + 3 <= |words|
  {
    if version >= 2 then Key(words[4 * i], words[4 * i + 1], words[4 * i + 2], words[4 * i + 3])
    else Key(words[3 * i], words[3 * i + 1], words[3 * i + 2], 0)
  }

  predicate HasKeys(version: nat, input: Input, n: nat) {
    input.extra == 0 && n > 0 && |input.words| == if version >= 2 then 4 * n else 3 * n
  }

  function Keys(version: nat, input: Input, n: nat): (r: seq<Key>)
    requires HasKeys(version, input, n)
    ensures |r| == n
  {
    seq(n, i requires 0 <= i < n => KeyAt(version, input.words, i))
  }

  /** The words of a key as the client lays it out. */
  function KeyWords(version: nat, k: Key): seq<nat> {
    if version >= 2 then [k.oid, k.kind, k.interface, k.port] else [k.oid, k.kind, k.interface]
  }

  function AllWords(version: nat, keys: seq<Key>): seq<nat> {
    if keys == [] then [] else AllWords(version, keys[..|keys| - 1]) + KeyWords(version, keys[|keys| - 1])
  }

  lemma {:induction false} NewWords(version: nat, keys: seq<Key>, i: nat)
    requires version >= 2 && i < |keys|
    ensures var w := AllWords(version, keys);
      |w| == 4 * |keys| && w[4 * i] == keys[i].oid && w[4 * i + 1] == keys[i].kind && w[4 * i + 2] == keys[i].interface && w[4 * i + 3] == keys[i].port
    decreases |keys|
  {
    var before := keys[..|keys| - 1];
    if before != [] {
      NewWords(version, before, if i < |before| then i else 0);
    }
  }

  lemma {:induction false} OldWords(version: nat, keys: seq<Key>, i: nat)
    requires version < 2 && i < |keys|
    ensures var w := AllWords(version, keys);
      |w| == 3 * |keys| && w[3 * i] == keys[i].oid && w[3 * i + 1] == keys[i].kind && w[3 * i + 2] == keys[i].interface
    decreases |keys|
  {
    var before := keys[..|keys| - 1];
    if before != [] {
      OldWords(version, before, if i < |before| then i else 0);
    }
  }

  /** Decoding undoes the client's layout; a key of the old version keeps all but its port. */
  lemma KeysDecoded(version: nat, keys: seq<Key>, input: Input)
    requires keys != [] && input.words == AllWords(version, keys) && input.extra == 0
    ensures HasKeys(version, input, |keys|)
    ensures forall i :: 0 <= i < |keys| ==>
      Keys(version, input, |keys|)[i] == if version >= 2 then keys[i] else keys[i].(port := 0)
  {
    forall i | 0 <= i < |keys|
      ensures HasKeys(version, input, |keys|)
      ensures Keys(version, input, |keys|)[i] == if version >= 2 then keys[i] else keys[i].(port := 0)
    {
      if version >= 2 {
        NewWords(version, keys, i);
      } else {
        OldWords(version, keys, i);
      }
    }
    assert HasKeys(version, input, |keys|) by {
      if version >= 2 {
        NewWords(version, keys, 0);
      } else {
        OldWords(version, keys, 0);
      }
    }
  }

  /** The input is a whole, positive number of keys. */
  lemma SizeChecks(version: nat, input: Input, n: nat)
    requires input.extra < 4 && n == InputLength(input) / KeySize(version)
    ensures HasKeys(version, input, n) <==> InputLength(input) >= KeySize(version) && InputLength(input) % KeySize(version) == 0
  {
    if version >= 2 {
      assert InputLength(input) == 16 * n + InputLength(input) % 16;
    } else {
      assert InputLength(input) == 12 * n + InputLength(input) % 12;
    }
  }

  /** The first half of MpIrpOidSetFilter: the keys are accepted when the size fits and every key is
      admissible. */
  method ParseKeys(version: nat, input: Input, memory: bool) returns (outcome: Outcome, keys: seq<Key>)
    requires input.extra < 4
    ensures forall n :: HasKeys(version, input, n) ==>
      outcome == (if !memory then NoMemory else if AllAdmissible(Keys(version, input, n)) then Success else InvalidParameter)
    ensures outcome == Success ==> HasKeys(version, input, |keys|) && keys == Keys(version, input, |keys|) && AllAdmissible(keys)
    ensures (forall n :: !HasKeys(version, input, n)) ==> outcome == InvalidParameter
  {
    keys := [];
    var length, size := InputLength(input), KeySize(version);
    var count := length / size;
    SizeChecks(version, input, count);
    CountIsUnique(version, input, count);
    if length < size {
      return InvalidParameter, keys;
    }
    if length % size != 0 {
      return InvalidParameter, keys;
    }
    if !memory {
      return NoMemory, keys;
    }
    for i := 0 to count
      invariant |keys| == i && AllAdmissible(keys)
      invariant forall k :: 0 <= k < i ==> keys[k] == KeyAt(version, input.words, k)
    {
      var key := KeyAt(version, input.words, i);
      assert key == Keys(version, input, count)[i];
      if key.kind != QUERY && key.kind != SET && key.kind != METHOD {
        return InvalidParameter, keys;
      }
      if key.interface >= INTERFACES {
        return InvalidParameter, keys;
      }
      keys := keys + [key];
    }
    assert keys == Keys(version, input, count);
    return Success, keys;
  }

  lemma CountIsUnique(version: nat, input: Input, count: nat)
    requires count == InputLength(input) / KeySize(version)
    ensures forall n :: HasKeys(version, input, n) ==> n == count
  {
  }

  // ---- Operations under the lock --------------------------------------------------------------

  datatype Filter = Filter(keys: Option<seq<Key>>, lists: seq<seq<Entry>>)

  predicate ShapeOk(f: Filter) {
    |f.lists| == INTERFACES
  }

  predicate Filtered(f: Filter, interface: nat, r: Request) {
    f.keys.Some? && MatchesAny(f.keys.value, interface, r)
  }

  function Pend(f: Filter, interface: nat, e: Entry): Filter
    requires ShapeOk(f) && interface < INTERFACES
  {
    f.(lists := f.lists[interface := f.lists[interface] + [e]])
  }

  /** The head of the list of the key's interface, if it is what the key names. */
  predicate HeadIs(f: Filter, k: Key)
    requires ShapeOk(f) && k.interface < INTERFACES
  {
    f.lists[k.interface] != [] && Matches(k, k.interface, f.lists[k.interface][0].request)
  }

  function Remove(f: Filter, interface: nat): Filter
    requires ShapeOk(f) && interface < INTERFACES && f.lists[interface] != []
  {
    f.(lists := f.lists[interface := f.lists[interface][1..]])
  }

  function Emptied(f: Filter): Filter {
    Filter(None, [[], []])
  }

  predicate Expired(list: seq<Entry>, now: nat) {
    exists i :: 0 <= i < |list| && now > list[i].timestamp + GRACE_PERIOD
  }

  /** The OID part of an ADAPTER_CONTEXT. */
  class OidAdapter {
    var keys: Option<seq<Key>>
    var lists: seq<seq<Entry>>

    ghost function View(): Filter
      reads this
    {
      Filter(keys, lists)
    }

    constructor ()
      ensures View() == Filter(None, [[], []])
    {
      keys, lists := None, [[], []];
    }

    /** MpFilterOid: a request is pended exactly when it matches a key and an entry can be allocated,
        and then it is at the tail of its interface's list. */
    method FilterOid(interface: nat, r: Request, now: nat, memory: bool) returns (status: Option<Status>)
      requires ShapeOk(View()) && interface < INTERFACES
      modifies this`lists
      ensures View() == if Filtered(old(View()), interface, r) && memory then Pend(old(View()), interface, Entry(r, now)) else old(View())
      ensures status == if !Filtered(old(View()), interface, r) then None
                        else if memory then Some(Pending) else Some(Final(RESOURCES))
    {
      if keys.Some? {
        for i := 0 to |keys.value|
          invariant View() == old(View())
          invariant forall k :: 0 <= k < i ==> !Matches(keys.value[k], interface, r)
        {
          var key := keys.value[i];
          if r.oid == key.oid && r.kind == key.kind && interface == key.interface && r.port == key.port {
            if !memory {
              return Some(Final(RESOURCES));
            }
            lists := lists[interface := lists[interface] + [Entry(r, now)]];
            return Some(Pending);
          }
        }
      }
      return None;
    }

    /** The second half of MpIrpOidSetFilter: a filter can be set only when there is none. */
    method InstallKeys(newKeys: seq<Key>) returns (outcome: Outcome)
      modifies this`keys
      ensures outcome == if old(keys).Some? then InvalidDeviceRequest else Success
      ensures keys == if outcome == Success then Some(newKeys) else old(keys)
    {
      if keys.Some? {
        return InvalidDeviceRequest;
      }
      keys := Some(newKeys);
      return Success;
    }

    /** MpIrpOidGetRequest after decoding: the oldest request of the interface, when it is the one the key
        names, is copied out; an output length of zero asks for its length alone. */
    method GetRequest(k: Key, outputLength: nat, inputOperation: bool) returns (outcome: Outcome, returned: nat, data: seq<byte>)
      requires ShapeOk(View()) && AllPendable(lists)
      ensures outcome == if k.interface >= INTERFACES then InvalidParameter
                         else if !HeadIs(View(), k) then NotFound
                         else if outputLength == 0 && !inputOperation then BufferOverflow
                         else if outputLength < lists[k.interface][0].request.length then BufferTooSmall else Success
      ensures returned == if outcome == Success || outcome == BufferOverflow then lists[k.interface][0].request.length else 0
      ensures data == if outcome == Success then lists[k.interface][0].request.buffer[..returned] else []
    {
      returned, data := 0, [];
      if k.interface >= INTERFACES {
        return InvalidParameter, returned, data;
      }
      if lists[k.interface] == [] {
        return NotFound, returned, data;
      }
      var r := lists[k.interface][0].request;
      assert Pendable(r);
      if r.oid != k.oid || r.kind != k.kind || r.port != k.port {
        return NotFound, returned, data;
      }
      if !(r.kind == QUERY || r.kind == SET || r.kind == METHOD) {
        // Only query, set and method requests are ever pended.
        assert false;
      }
      if outputLength == 0 && !inputOperation {
        return BufferOverflow, r.length, data;
      }
      if outputLength < r.length {
        return BufferTooSmall, returned, data;
      }
      return Success, r.length, r.buffer[..r.length];
    }

    /** MpIrpOidCompleteRequest up to the end of its locked part: removes the oldest request of the interface
        when it is the one the key names and its buffer has room. The information of a set request is not
        read from the caller. */
    method TakeRequest(k: Key, status: Status, infoLength: nat, readable: bool) returns (outcome: Outcome, taken: Option<Request>)
      requires ShapeOk(View()) && AllPendable(lists)
      modifies this`lists
      ensures outcome == TakeOutcome(old(View()), k, status, infoLength, readable)
      ensures View() == if outcome == Success then Remove(old(View()), k.interface) else old(View())
      ensures taken == if outcome == Success then Some(old(lists)[k.interface][0].request) else None
    {
      taken := None;
      if k.interface >= INTERFACES {
        return InvalidParameter, taken;
      }
      if status == Pending && infoLength > 0 {
        return InvalidParameter, taken;
      }
      if k.kind != SET && !readable {
        return BounceFailed, taken;
      }
      if lists[k.interface] == [] {
        return NotFound, taken;
      }
      var r := lists[k.interface][0].request;
      assert Pendable(r);
      if r.oid != k.oid || r.kind != k.kind || r.port != k.port {
        return NotFound, taken;
      }
      var room := 0;
      if r.kind == QUERY || r.kind == SET {
        room := r.length;
      } else if r.kind == METHOD {
        room := r.outputLength;
      } else {
        // Only query, set and method requests are ever pended.
        assert false;
      }
      if room < infoLength {
        return BufferTooSmall, taken;
      }
      lists := lists[k.interface := lists[k.interface][1..]];
      return Success, Some(r);
    }

    /** MpIrpOidCompleteRequest: the request that is taken carries the caller's information, in its buffer
        and its written count, or for a set in its read count alone. */
    method CompleteRequest(k: Key, status: Status, info: Option<seq<byte>>, infoLength: nat)
      returns (outcome: Outcome, completed: Option<Request>)
      requires ShapeOk(View()) && AllPendable(lists) && (info.Some? ==> |info.value| == infoLength)
      modifies this`lists
      ensures outcome == TakeOutcome(old(View()), k, status, infoLength, info.Some?)
      ensures View() == if outcome == Success then Remove(old(View()), k.interface) else old(View())
      ensures completed.Some? <==> outcome == Success
      ensures outcome == Success ==> Carries(old(lists)[k.interface][0].request, completed.value, info, infoLength)
      ensures outcome == Success && infoLength > 0 ==> status != Pending
    {
      var taken;
      outcome, taken := TakeRequest(k, status, infoLength, info.Some?);
      completed := taken;
      if outcome == Success && infoLength > 0 {
        assert Pendable(taken.value) by {
          assert Pendable(old(lists)[k.interface][0].request);
        }
        if k.kind == QUERY || k.kind == METHOD {
          var buffer := info.value + taken.value.buffer[infoLength..];
          completed := Some(taken.value.(buffer := buffer, bytesWritten := infoLength));
        } else {
          completed := Some(taken.value.(bytesRead := infoLength));
        }
      }
    }

    /** The locked part of MpOidClearFilterAndFlush. */
    method ClearFilter() returns (flushed: seq<seq<Entry>>)
      requires ShapeOk(View())
      modifies this
      ensures View() == Emptied(old(View())) && flushed == old(lists)
    {
      keys := None;
      flushed := [[], []];
      for interface := 0 to INTERFACES
        invariant |flushed| == |lists| == INTERFACES && keys == None
        invariant forall i :: 0 <= i < interface ==> flushed[i] == old(lists)[i] && lists[i] == []
        invariant forall i :: interface <= i < INTERFACES ==> lists[i] == old(lists)[i]
      {
        flushed := flushed[interface := lists[interface]];
        lists := lists[interface := []];
      }
      assert lists == [[], []];
    }

    method WatchdogIsExpired(now: nat) returns (expired: bool)
      requires ShapeOk(View())
      ensures expired <==> exists i :: 0 <= i < INTERFACES && Expired(lists[i], now)
    {
      expired := false;
      for interface := 0 to INTERFACES
        invariant expired <==> exists i :: 0 <= i < interface && Expired(lists[i], now)
      {
        var found := AnyExpired(lists[interface], now);
        if found {
          expired := true;
        }
      }
    }
  }

  method AnyExpired(list: seq<Entry>, now: nat) returns (r: bool)
    ensures r <==> Expired(list, now)
  {
    for n := 0 to |list|
      invariant forall k :: 0 <= k < n ==> now <= list[k].timestamp + GRACE_PERIOD
    {
      if now > list[n].timestamp + GRACE_PERIOD {
        return true;
      }
    }
    return false;
  }

  /** NDIS_STATUS_RESOURCES. */
  const RESOURCES: nat := 0xC000_009A

  predicate KindAllowed(r: Request) {
    r.kind == QUERY || r.kind == SET || r.kind == METHOD
  }

  /** A request of a kind that is ever pended, whose buffer is as long as NDIS says. */
  predicate Pendable(r: Request) {
    KindAllowed(r) && r.length <= |r.buffer| && (r.kind == METHOD ==> r.outputLength <= |r.buffer|)
  }

  predicate AllPendable(lists: seq<seq<Entry>>) {
    forall i, k :: 0 <= i < |lists| && 0 <= k < |lists[i]| ==> Pendable(lists[i][k].request)
  }

  /** How much information can be returned for a request. */
  function Room(r: Request): nat {
    if r.kind == METHOD then r.outputLength else r.length
  }

  function TakeOutcome(f: Filter, k: Key, status: Status, infoLength: nat, readable: bool): Outcome
    requires ShapeOk(f)
  {
    if k.interface >= INTERFACES || (status == Pending && infoLength > 0) then InvalidParameter
    else if k.kind != SET && !readable then BounceFailed
    else if !HeadIs(f, k) then NotFound
    else if Room(f.lists[k.interface][0].request) < infoLength then BufferTooSmall
    else Success
  }

  /** r completed with the caller's information is c. */
  predicate Carries(r: Request, c: Request, info: Option<seq<byte>>, infoLength: nat) {
    if infoLength == 0 then c == r
    else if r.kind == SET then c == r.(bytesRead := infoLength)
    else
      && info.Some? && |info.value| == infoLength <= |r.buffer| == |c.buffer|
      && c == r.(buffer := c.buffer, bytesWritten := infoLength)
      && c.buffer[..infoLength] == info.value && c.buffer[infoLength..] == r.buffer[infoLength..]
  }
}
