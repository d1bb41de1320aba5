/** RSS: which receive queue stands for which processor, and the hash that leads there. */
module Rss {
  import opened Arithmetic

  const MAX_QUEUES: nat := 64
  const HIGH_BIT: nat := 0x8000_0000

  /** An ADAPTER_QUEUE. */
  datatype Queue = Queue(hash: nat, processor: nat)

  /** The first n entries of the indirection table name these processors for the first time. */
  function Firsts(table: seq<nat>, n: nat): (r: seq<nat>)
    requires n <= |table|
    ensures |r| <= n
  {
    if n == 0 then []
    else Firsts(table, n - 1) + if table[n - 1] in table[..n - 1] then [] else [n - 1]
  }

  /** Every position is the first of its processor. */
  lemma {:induction false} FirstsAreFirst(table: seq<nat>, n: nat, k: nat)
    requires n <= |table| && k < |Firsts(table, n)|
    ensures Firsts(table, n)[k] < n && table[Firsts(table, n)[k]] !in table[..Firsts(table, n)[k]]
    decreases n
  {
    if k < |Firsts(table, n - 1)| {
      FirstsAreFirst(table, n - 1, k);
    }
  }

  /** Positions come in increasing order. */
  lemma {:induction false} FirstsIncrease(table: seq<nat>, n: nat, j: nat, k: nat)
    requires n <= |table| && j < k < |Firsts(table, n)|
    ensures Firsts(table, n)[j] < Firsts(table, n)[k]
    decreases n
  {
    var before := Firsts(table, n - 1);
    if k < |before| {
      FirstsIncrease(table, n - 1, j, k);
    } else {
      FirstsAreFirst(table, n - 1, j);
    }
  }

  /** Every processor in the table has a position. */
  lemma {:induction false} FirstsCover(table: seq<nat>, n: nat, i: nat) returns (k: nat)
    requires i < n <= |table|
    ensures k < |Firsts(table, n)| && Firsts(table, n)[k] < n && table[Firsts(table, n)[k]] == table[i]
    decreases n, i
  {
    if i < n - 1 {
      k := FirstsCover(table, n - 1, i);
    } else if table[n - 1] in table[..n - 1] {
      var j :| 0 <= j < n - 1 && table[j] == table[n - 1];
      k := FirstsCover(table, n - 1, j);
    } else {
      k := |Firsts(table, n - 1)|;
    }
  }

  /** Different queues stand for different processors. */
  lemma ProcessorsDistinct(table: seq<nat>, n: nat, j: nat, k: nat)
    requires n <= |table| && j < k < |Firsts(table, n)|
    ensures Firsts(table, n)[j] < n && Firsts(table, n)[k] < n && table[Firsts(table, n)[j]] != table[Firsts(table, n)[k]]
  {
    FirstsAreFirst(table, n, j);
    FirstsAreFirst(table, n, k);
    FirstsIncrease(table, n, j, k);
    var f := Firsts(table, n);
    assert table[f[j]] in table[..f[k]];
  }

  function Hash(position: nat): nat {
    HIGH_BIT + position
  }

  /** Masking the hash to a power-of-two table size gives the position back. */
  lemma MaskGivesPosition(x: bv32, size: bv32)
    requires size != 0 && size & (size - 1) == 0 && size <= 0x8000_0000 && x < size
    ensures (0x8000_0000 | x) & (size - 1) == x
  {
  }

  function Power(k: nat): nat {
    if k == 0 then 1 else 2 * Power(k - 1)
  }

  lemma {:induction false} PowerSum(j: nat, k: nat)
    ensures Power(j + k) == Power(j) * Power(k)
    decreases k
  {
    if k > 0 {
      PowerSum(j, k - 1);
    }
  }

  /** Reducing the hash modulo the table size, which is what the mask does for a power of two, selects
      the position that the hash was made from. */
  lemma HashSelects(position: nat, k: nat)
    requires k <= 31 && position < Power(k)
    ensures Hash(position) % Power(k) == position
  {
    PowerSum(31 - k, k);
    HighBit();
    Reduced(Hash(position), Power(31 - k), Power(k), position);
  }

  lemma Reduced(x: nat, m: nat, n: nat, r: nat)
    requires r < n && x == m * n + r
    ensures x % n == r
  {
    QuotientUnique(x, n, m, r);
  }

  lemma HighBit()
    ensures Power(31) == HIGH_BIT
  {
    assert Power(8) == 256;
    PowerSum(8, 8);
    PowerSum(16, 8);
    assert Power(7) == 128;
    PowerSum(24, 7);
  }

  /** What queue k becomes. */
  function Assigned(table: seq<nat>, k: nat): Queue {
    var f := Firsts(table, |table|);
    if k < |f| && f[k] < |table| then Queue(Hash(f[k]), table[f[k]]) else Queue(0, 0)
  }

  /** The hash stamped on a queue selects, in the indirection table, an entry that names the processor on
      which a flush on that queue runs. */
  lemma HashLeadsToProcessor(table: seq<nat>, bits: nat, k: nat)
    requires bits <= 31 && |table| == Power(bits) && k < |Firsts(table, |table|)|
    ensures Assigned(table, k).hash % |table| < |table|
    ensures table[Assigned(table, k).hash % |table|] == Assigned(table, k).processor
  {
    FirstsAreFirst(table, |table|, k);
    HashSelects(Firsts(table, |table|)[k], bits);
  }

  function Processors(table: seq<nat>): set<nat> {
    set p | p in table
  }

  /** There is one position for each processor. */
  lemma {:induction false} OnePerProcessor(table: seq<nat>, n: nat)
    requires n <= |table|
    ensures |Firsts(table, n)| == |Processors(table[..n])|
  {
    if n > 0 {
      OnePerProcessor(table, n - 1);
      assert table[..n] == table[..n - 1] + [table[n - 1]];
      if table[n - 1] in table[..n - 1] {
        assert Processors(table[..n]) == Processors(table[..n - 1]);
      } else {
        assert Processors(table[..n]) == Processors(table[..n - 1]) + {table[n - 1]};
      }
    }
  }

  /** As many queues are assigned as there are processors in the table, the others are cleared. */
  lemma QueuesAssigned(table: seq<nat>)
    ensures forall k :: |Processors(table)| <= k ==> Assigned(table, k) == Queue(0, 0)
    ensures forall k :: 0 <= k < |Processors(table)| ==> Assigned(table, k).hash >= HIGH_BIT
  {
    OnePerProcessor(table, |table|);
    assert table[..|table|] == table;
    forall k | 0 <= k < |Processors(table)| ensures Assigned(table, k).hash >= HIGH_BIT {
      FirstsAreFirst(table, |table|, k);
    }
  }

  /** Queue k stands for the processor that appears k-th in the table: its hash is made from the place where
      that processor appears first, and queues before it have earlier places and other processors. */
  lemma FirstAppearance(table: seq<nat>, k: nat) returns (i: nat)
    requires k < |Processors(table)|
    ensures i < |table| && Assigned(table, k) == Queue(HIGH_BIT + i, table[i]) && table[i] !in table[..i]
    ensures forall j :: 0 <= j < k ==> Assigned(table, j).hash < HIGH_BIT + i && Assigned(table, j).processor != table[i]
  {
    OnePerProcessor(table, |table|);
    assert table[..|table|] == table;
    FirstsAreFirst(table, |table|, k);
    i := Firsts(table, |table|)[k];
    forall j | 0 <= j < k ensures Assigned(table, j).hash < HIGH_BIT + i && Assigned(table, j).processor != table[i] {
      FirstsAreFirst(table, |table|, j);
      FirstsIncrease(table, |table|, j, k);
      ProcessorsDistinct(table, |table|, j, k);
    }
  }

  /** Every processor in the table has a queue. */
  lemma ProcessorHasQueue(table: seq<nat>, i: nat) returns (k: nat)
    requires i < |table|
    ensures k < |Processors(table)| && Assigned(table, k).processor == table[i]
  {
    OnePerProcessor(table, |table|);
    assert table[..|table|] == table;
    k := FirstsCover(table, |table|, i);
  }

  class RssAdapter {
    const queues: array<Queue>

    constructor (count: nat)
      requires 0 < count <= MAX_QUEUES
      ensures fresh(queues) && queues.Length == count
    {
      queues := new Queue[count](_ => Queue(0, 0));
    }

    /** MpSetRss: with at most 64 different processors every queue is assigned in
        first-appearance order; with more, or when RSS is being disabled, no queue changes. */
    method SetRss(enabled: bool, table: seq<nat>)
      requires |table| < HIGH_BIT
      modifies queues
      ensures enabled && |Processors(table)| <= MAX_QUEUES ==> forall k :: 0 <= k < queues.Length ==> queues[k] == Assigned(table, k)
      ensures !enabled || |Processors(table)| > MAX_QUEUES ==> queues[..] == old(queues[..])
    {
      OnePerProcessor(table, |table|);
      assert table[..|table|] == table;
      if !enabled {
        return;
      }
      var taken := new nat[MAX_QUEUES](_ => 0);
      var hashes := new nat[MAX_QUEUES](_ => 0);
      var ok, count := Collect(table, taken, hashes);
      if !ok {
        return;
      }
      for index := 0 to queues.Length
        invariant Collected(table, |table|, count, taken[..], hashes[..])
        invariant forall k :: 0 <= k < index ==> queues[k] == Assigned(table, k)
      {
        queues[index] := if index < count then Queue(hashes[index], taken[index]) else Queue(0, 0);
      }
    }
  }

  /** The first n entries of the table are collected. */
  ghost predicate Collected(table: seq<nat>, n: nat, count: nat, taken: seq<nat>, hashes: seq<nat>) {
    && n <= |table| && |taken| == |hashes| == MAX_QUEUES && count == |Firsts(table, n)| <= MAX_QUEUES
    && (forall k :: 0 <= k < count ==> Firsts(table, n)[k] < n)
    && (forall k :: 0 <= k < count ==> taken[k] == table[Firsts(table, n)[k]] && hashes[k] == Hash(Firsts(table, n)[k]))
  }

  /** The loop over the table; it stops at a 65th processor. */
  method Collect(table: seq<nat>, taken: array<nat>, hashes: array<nat>) returns (ok: bool, count: nat)
    requires taken.Length == hashes.Length == MAX_QUEUES && taken != hashes
    modifies taken, hashes
    ensures ok <==> |Firsts(table, |table|)| <= MAX_QUEUES
    ensures ok ==> Collected(table, |table|, count, taken[..], hashes[..])
  {
    count := 0;
    for index := 0 to |table|
      invariant Collected(table, index, count, taken[..], hashes[..])
    {
      var at := FindProcessor(taken, count, table[index]);
      SeenIffFound(table, index, taken[..count]);
      if at == count {
        if count == MAX_QUEUES {
          FirstsGrow(table, index + 1, |table|);
          return false, count;
        }
        taken[count] := table[index];
        hashes[count] := Hash(index);
        count := count + 1;
      }
    }
    return true, count;
  }

  method FindProcessor(taken: array<nat>, count: nat, processor: nat) returns (at: nat)
    requires count <= taken.Length
    ensures at <= count && (at == count <==> processor !in taken[..count])
  {
    at := 0;
    while at < count
      invariant at <= count && processor !in taken[..at]
    {
      if taken[at] == processor {
        return;
      }
      at := at + 1;
    }
  }

  lemma SeenIffFound(table: seq<nat>, n: nat, taken: seq<nat>)
    requires n < |table| && |taken| == |Firsts(table, n)|
    requires forall k :: 0 <= k < |taken| ==> Firsts(table, n)[k] < n && taken[k] == table[Firsts(table, n)[k]]
    ensures table[n] in taken <==> table[n] in table[..n]
  {
    if table[n] in table[..n] {
      var i :| 0 <= i < n && table[i] == table[n];
      var k := FirstsCover(table, n, i);
      assert taken[k] == table[n];
    }
  }

  lemma {:induction false} FirstsGrow(table: seq<nat>, m: nat, n: nat)
    requires m <= n <= |table|
    ensures |Firsts(table, m)| <= |Firsts(table, n)|
    decreases n - m
  {
    if m < n {
      FirstsGrow(table, m, n - 1);
    }
  }
}
