/** Counting identities in logs and queues. */
module Tallies {
  import opened Bytes

  /** How often an identity occurs; for None, how many entries there are. */
  function Tally(ids: seq<nat>, key: Option<nat>): nat {
    if ids == [] then 0
    else Tally(ids[..|ids| - 1], key) + if key.None? || ids[|ids| - 1] == key.value then 1 else 0
  }

  function One(id: nat, key: Option<nat>): nat {
    if key.None? || id == key.value then 1 else 0
  }

  lemma {:induction false} TallyAll(ids: seq<nat>)
    ensures Tally(ids, None) == |ids|
  {
    if ids != [] {
      TallyAll(ids[..|ids| - 1]);
    }
  }

  lemma {:induction false} TallyConcat(a: seq<nat>, b: seq<nat>, key: Option<nat>)
    ensures Tally(a + b, key) == Tally(a, key) + Tally(b, key)
    decreases |b|
  {
    if b == [] {
      assert a + b == a;
    } else {
      TallyConcat(a, b[..|b| - 1], key);
      assert (a + b)[..|a| + |b| - 1] == a + b[..|b| - 1];
    }
  }

  lemma TallyOne(id: nat, key: Option<nat>)
    ensures Tally([id], key) == One(id, key)
  {
    assert [id][..0] == [];
  }
}
