/** The OID handlers and IOCTLs as they run when nothing interleaves, up to what NDIS is told. */
module OidHandlers {
  import opened Bytes
  import opened Oids
  import opened OidProtocol

  /** An ADAPTER_CONTEXT with its exclusive user; done logs the completions towards NDIS. */
  class Miniport {
    const oids: OidAdapter
    var user: Option<User>
    var done: seq<Completion>

    constructor ()
      ensures fresh(oids) && oids.View() == INITIAL.filter && user == INITIAL.user && done == INITIAL.done
    {
      oids := new OidAdapter();
      user, done := None, [];
    }

    /** MiniportRequestHandler, and MiniportDirectRequestHandler for the direct interface; code is what the
        rest of the process routine returns. */
    method RequestHandler(interface: nat, r: Request, now: nat, memory: bool, code: nat) returns (status: Status)
      requires ShapeOk(oids.View()) && interface < INTERFACES
      modifies oids`lists
      ensures status == Process(r, Filtered(old(oids.View()), interface, r), memory, code)
      ensures oids.View() == FilterAfter(old(oids.View()), interface, r, now, memory)
    {
      if r.kind == QUERY || r.kind == STATISTICS || r.kind == SET || r.kind == METHOD {
        var filtered := oids.FilterOid(interface, r, now, memory);
        if filtered.Some? {
          return filtered.value;
        }
        return Final(code);
      }
      return Final(NOT_SUPPORTED);
    }

    /** MpIrpOidSetFilter: n is the number of keys that the input is long enough for. */
    method IrpSetFilter(version: nat, input: Input, memory: bool) returns (outcome: Outcome, n: nat)
      requires ShapeOk(oids.View()) && input.extra < 4 && user.Some? && !user.value.closing
      modifies this`user, oids`keys
      ensures n == InputLength(input) / KeySize(version)
      ensures outcome == Success <==> memory && HasKeys(version, input, n) && AllAdmissible(Keys(version, input, n)) && old(oids.keys).None?
      ensures oids.View() == if outcome == Success then old(oids.View()).(keys := Some(Keys(version, input, n))) else old(oids.View())
      ensures user == if outcome == Success then Some(User(true, false)) else old(user)
    {
      n := InputLength(input) / KeySize(version);
      CountIsUnique(version, input, n);
      var keys;
      outcome, keys := ParseKeys(version, input, memory);
      if outcome == Success {
        outcome := oids.InstallKeys(keys);
        if outcome == Success {
          user := Some(user.value.(setFilter := true));
        }
      }
    }

    /** MpOidCompleteRequest; code is what the process routine returns. */
    method CompleteOid(r: Request, status: Status, code: nat)
      modifies this`done
      ensures done == old(done) + [Completion(r.id, Settled(r, status, code))]
    {
      var final := status;
      if status == Pending {
        if r.kind == QUERY || r.kind == STATISTICS || r.kind == SET || r.kind == METHOD {
          final := Final(code);
        } else {
          final := Final(NOT_SUPPORTED);
        }
      }
      done := done + [Completion(r.id, final)];
    }

    /** MpIrpOidCompleteRequest: the request that it takes is completed, with the status that it names unless
        that is PENDING. */
    method IrpCompleteRequest(k: Key, status: Status, info: Option<seq<byte>>, infoLength: nat, regular: Regular) returns (outcome: Outcome)
      requires ShapeOk(oids.View()) && AllPendable(oids.lists) && (info.Some? ==> |info.value| == infoLength)
      modifies this`done, oids`lists
      ensures outcome == TakeOutcome(old(oids.View()), k, status, infoLength, info.Some?)
      ensures oids.View() == FilterTaken(old(oids.View()), k, status, infoLength, info.Some?)
      ensures done == old(done) + Finished(old(oids.View()), k, status, infoLength, info.Some?, regular)
    {
      var completed;
      outcome, completed := oids.CompleteRequest(k, status, info, infoLength);
      if outcome == Success {
        CompleteOid(completed.value, status, regular(completed.value));
      }
    }

    /** The loop of MpOidClearFilterAndFlush over one interface. */
    method CompleteAll(list: seq<Entry>, regular: Regular)
      modifies this`done
      ensures done == old(done) + Drained(list, regular)
    {
      var rest := list;
      while rest != []
        invariant done + Drained(rest, regular) == old(done) + Drained(list, regular)
      {
        DrainedHead(rest, regular);
        var r := rest[0].request;
        rest := rest[1..];
        CompleteOid(r, Pending, regular(r));
      }
    }

    /** MpOidClearFilterAndFlush. */
    method ClearFilterAndFlush(regular: Regular)
      requires ShapeOk(oids.View())
      modifies this`done, oids
      ensures oids.View() == Filter(None, [[], []]) && done == old(done) + FlushedAll(old(oids.lists), regular)
    {
      var lists := oids.ClearFilter();
      CompleteAll(lists[0], regular);
      CompleteAll(lists[1], regular);
    }

    /** ExclusiveWatchdogTimeout. */
    method WatchdogTimeout(now: nat, regular: Regular)
      requires ShapeOk(oids.View())
      modifies this`done, oids
      ensures if Expired(old(oids.lists)[0], now) || Expired(old(oids.lists)[1], now)
              then oids.View() == Filter(None, [[], []]) && done == old(done) + FlushedAll(old(oids.lists), regular)
              else oids.View() == old(oids.View()) && done == old(done)
    {
      var expired := oids.WatchdogIsExpired(now);
      if expired {
        ClearFilterAndFlush(regular);
      }
    }

    /** The OID part of ExclusiveCleanup. */
    method Cleanup(regular: Regular)
      requires ShapeOk(oids.View()) && user.Some?
      modifies this`done, this`user, oids
      ensures user == None
      ensures if old(user).value.setFilter
              then oids.View() == Filter(None, [[], []]) && done == old(done) + FlushedAll(old(oids.lists), regular)
              else oids.View() == old(oids.View()) && done == old(done)
    {
      if user.value.setFilter {
        ClearFilterAndFlush(regular);
      }
      user := None;
    }
  }
}
