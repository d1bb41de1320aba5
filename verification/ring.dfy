/** Circular doubly linked lists with a head, on a heap of entries: the LIST_ENTRY operations that move
    the pended OID requests to a local list. */
module Rings {
  class Entry {
    var flink: Entry
    var blink: Entry

    constructor ()
      ensures flink == this && blink == this
    {
      flink := this;
      blink := this;
    }
  }

  /** Position i of the ring with a head and entries s, from the head at 0 round to the head again. */
  ghost function At(head: Entry, s: seq<Entry>, i: nat): Entry
    requires i <= |s| + 1
  {
    if 0 < i <= |s| then s[i - 1] else head
  }

  ghost predicate Distinct(head: Entry, s: seq<Entry>) {
    head !in s && forall i, j :: 0 <= i < j < |s| ==> s[i] != s[j]
  }

  /** The entries of a ring, as a set to name in frames. */
  ghost function Nodes(head: Entry, s: seq<Entry>): set<Entry> {
    {head} + set x | x in s
  }

  /** A well-formed ring: following flink from the head visits exactly s, and blink goes back. */
  ghost predicate Ring(head: Entry, s: seq<Entry>)
    reads Nodes(head, s)
  {
    && Distinct(head, s)
    && (forall i :: 0 <= i <= |s| ==> At(head, s, i).flink == At(head, s, i + 1))
    && (forall i :: 0 <= i <= |s| ==> At(head, s, i + 1).blink == At(head, s, i))
  }

  method InitializeListHead(head: Entry)
    modifies head
    ensures Ring(head, [])
  {
    head.flink := head;
    head.blink := head;
  }

  method IsListEmpty(head: Entry, ghost s: seq<Entry>) returns (r: bool)
    requires Ring(head, s)
    ensures r <==> s == []
  {
    assert At(head, s, 0).flink == At(head, s, 1);
    r := head.flink == head;
  }

  /** Unlinks an entry: the rest stay a ring in their order. */
  method RemoveEntryList(entry: Entry, ghost head: Entry, ghost s: seq<Entry>, ghost k: nat)
    requires Ring(head, s) && k < |s| && entry == s[k]
    modifies Nodes(head, s)
    ensures Ring(head, s[..k] + s[k + 1..])
    ensures entry.flink == old(entry.flink) && entry.blink == old(entry.blink)
  {
    assert entry == At(head, s, k + 1);
    assert At(head, s, k + 1).flink == At(head, s, k + 2) && At(head, s, k + 1).blink == At(head, s, k);
    var next, previous := entry.flink, entry.blink;
    previous.flink := next;
    next.blink := previous;
    ghost var rest := s[..k] + s[k + 1..];
    forall i | 0 <= i <= |rest|
      ensures At(head, rest, i).flink == At(head, rest, i + 1) && At(head, rest, i + 1).blink == At(head, rest, i)
    {
      Shrunk(head, s, k, i);
      Shrunk(head, s, k, i + 1);
    }
  }

  lemma Shrunk(head: Entry, s: seq<Entry>, k: nat, i: nat)
    requires k < |s| && i <= |s|
    ensures At(head, s[..k] + s[k + 1..], i) == At(head, s, if i <= k then i else i + 1)
  {
  }

  /** Appends the ring of `other`, head included, to the tail of another ring. */
  method AppendTailList(head: Entry, other: Entry, ghost s: seq<Entry>, ghost t: seq<Entry>)
    requires Ring(head, s) && Ring(other, t) && Nodes(head, s) !! Nodes(other, t)
    modifies Nodes(head, s), Nodes(other, t)
    ensures Ring(head, s + [other] + t)
  {
    assert At(head, s, |s| + 1).blink == At(head, s, |s|);
    assert At(other, t, |t| + 1).blink == At(other, t, |t|);
    var end := head.blink;
    head.blink.flink := other;
    head.blink := other.blink;
    other.blink.flink := head;
    other.blink := end;
    Joined(head, other, s, t);
    ghost var all := s + [other] + t;
    forall i | 0 <= i <= |all|
      ensures At(head, all, i).flink == At(head, all, i + 1) && At(head, all, i + 1).blink == At(head, all, i)
    {
      if i < |s| {
        assert At(head, all, i) == At(head, s, i) && At(head, all, i + 1) == At(head, s, i + 1);
      } else if i > |s| {
        var k := i - |s| - 1;
        assert At(head, all, i) == At(other, t, k) && (k < |t| ==> At(head, all, i + 1) == At(other, t, k + 1));
      }
    }
  }

  lemma Apart(head: Entry, other: Entry, s: seq<Entry>, t: seq<Entry>)
    requires Nodes(head, s) !! Nodes(other, t)
    ensures head != other && head !in t && other !in s
    ensures forall i, j :: 0 <= i < |s| && 0 <= j < |t| ==> s[i] != t[j]
  {
    assert head in Nodes(head, s) && other in Nodes(other, t);
    forall i, j | 0 <= i < |s| && 0 <= j < |t|
      ensures s[i] != t[j]
    {
      assert s[i] in Nodes(head, s) && t[j] in Nodes(other, t);
    }
    assert forall x :: x in t ==> x in Nodes(other, t);
    assert forall x :: x in s ==> x in Nodes(head, s);
  }

  lemma Joined(head: Entry, other: Entry, s: seq<Entry>, t: seq<Entry>)
    requires Distinct(head, s) && Distinct(other, t) && Nodes(head, s) !! Nodes(other, t)
    ensures Distinct(head, s + [other] + t)
    ensures forall i :: 0 <= i <= |s| ==> At(head, s + [other] + t, i) == At(head, s, i)
    ensures forall k :: 0 <= k <= |t| ==> At(head, s + [other] + t, |s| + 1 + k) == At(other, t, k)
    ensures At(head, s + [other] + t, |s| + |t| + 2) == head
  {
    Apart(head, other, s, t);
  }

  /** The splice: the entries of the source ring move, in order, to the local list, and the source is
      left an empty ring; an empty source is no exception. */
  method Splice(local: Entry, source: Entry, ghost t: seq<Entry>)
    requires Ring(source, t) && local !in Nodes(source, t)
    modifies local, Nodes(source, t)
    ensures Ring(local, t) && Ring(source, [])
  {
    InitializeListHead(local);
    AppendTailList(local, source, [], t);
    ghost var all := [] + [source] + t;
    assert all[0] == source && all[..0] + all[1..] == t;
    RemoveEntryList(source, local, all, 0);
    InitializeListHead(source);
  }

  method RemoveHeadList(head: Entry, ghost s: seq<Entry>) returns (entry: Entry)
    requires Ring(head, s) && s != []
    modifies Nodes(head, s)
    ensures entry == s[0] && Ring(head, s[1..]) && Nodes(head, s[1..]) <= Nodes(head, s)
  {
    assert At(head, s, 0).flink == At(head, s, 1);
    entry := head.flink;
    assert s[..0] + s[1..] == s[1..];
    RemoveEntryList(entry, head, s, 0);
  }

  /** Draining a list from its head visits exactly its entries in order. */
  method Drain(head: Entry, ghost s: seq<Entry>) returns (visited: seq<Entry>)
    requires Ring(head, s)
    modifies Nodes(head, s)
    ensures visited == s && Ring(head, [])
  {
    visited := [];
    ghost var left := s;
    var empty := IsListEmpty(head, left);
    while !empty
      invariant Ring(head, left) && visited + left == s && Nodes(head, left) <= Nodes(head, s)
      invariant empty <==> left == []
      decreases |left|
    {
      var entry := RemoveHeadList(head, left);
      assert visited + left == (visited + [entry]) + left[1..];
      visited := visited + [entry];
      left := left[1..];
      empty := IsListEmpty(head, left);
    }
  }
}
