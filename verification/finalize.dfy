/**
 The end of a session: clients are stopped, the changes are sealed for review,
 and one decision is applied. What is reviewed is what a COMMIT commits.
 */
module Finalizing {
  import opened Wrappers
  import opened Accounting
  import opened Postgres
  import opened SharedSession
  import opened Proxying
  import opened Interleaving

  datatype Decision = Commit | Rollback | Other(name: string)

  datatype Changes = Changes(rows: Ledger, schema: seq<string>, complete: bool)

  datatype Verdict =
    | Committed
    | RolledBack
    | RefusedIncomplete
    | AlreadyFinalized
    | InvalidDecision

  /** The work left when every client has gone. */
  function Remaining(s: Shared): Work {
    if s.block.Some? then s.block.value.base
    else if s.cycle.Some? then s.cycle.value.mark
    else s.work
  }

  /** Clients carry the numbers 1, 2, ... and nobody else has a block or a cycle open. */
  predicate Numbered(s: Shared, clients: seq<ClientState>) {
    && (forall i :: 0 <= i < |clients| ==> clients[i].id == i + 1)
    && (s.block.Some? ==> 0 < s.block.value.client <= |clients|)
    && (s.cycle.Some? ==> 0 < s.cycle.value.client <= |clients|)
  }

  /** A sealed list of changes is complete only when it is the truth about `work`. */
  ghost predicate Truthful(changes: Changes, work: Work) {
    changes.complete ==>
      && Risks(work.writes) == {}
      && forall cell :: At(changes.rows, cell) == Credited(work.writes, cell)
  }

  class Session {
    const proxy: Proxy
    var finished: bool
    var sealedSummary: bool
    var changes: Changes

    constructor (proxy: Proxy)
      ensures this.proxy == proxy && !finished && !sealedSummary
    {
      this.proxy := proxy;
      finished, sealedSummary := false, false;
      changes := Changes(map[], [], false);
    }

    /** Once sealed, no client is left and the sealed changes stay true. */
    ghost predicate Valid()
      reads this, proxy, proxy.backend
    {
      && proxy.backend.Valid()
      && (sealedSummary && !finished ==>
            proxy.Idle() && proxy.shared.block.None? && Truthful(changes, proxy.shared.work))
    }

    /** Disconnects every client; one inside a cycle holds the lock and goes first. */
    method StopClients(clients: seq<ClientState>)
      requires Steady(proxy, clients) && Numbered(proxy.shared, clients)
      modifies proxy, proxy.backend, set i | 0 <= i < |clients| :: clients[i]
      ensures proxy.Idle() && proxy.shared.block.None?
      ensures proxy.shared.work == old(Remaining(proxy.shared))
    {
      hide Handle, Steady;
      ghost var start := proxy.shared;
      for index := 0 to |clients|
        invariant Steady(proxy, clients) && Numbered(proxy.shared, clients)
        invariant Remaining(proxy.shared) == Remaining(start)
        invariant proxy.shared.cycle.Some? ==> proxy.shared.cycle.value.client > index
      {
        ExtendedHolds(clients, index);
        if clients[index].extended {
          Stop(clients, index);
        }
      }
      for index := 0 to |clients|
        invariant Steady(proxy, clients) && Numbered(proxy.shared, clients)
        invariant proxy.shared.cycle.None? && Remaining(proxy.shared) == Remaining(start)
        invariant proxy.shared.block.Some? ==> proxy.shared.block.value.client > index
      {
        Stop(clients, index);
      }
      Stopped(clients);
    }

    lemma ExtendedHolds(clients: seq<ClientState>, index: nat)
      requires Steady(proxy, clients) && Numbered(proxy.shared, clients) && index < |clients|
      ensures clients[index].extended <==> proxy.shared.cycle.Some? && proxy.shared.cycle.value.client == index + 1
    {
    }

    lemma Stopped(clients: seq<ClientState>)
      requires Steady(proxy, clients) && proxy.shared.cycle.None?
      ensures proxy.Idle()
    {
    }

    method Stop(clients: seq<ClientState>, index: nat)
      requires Steady(proxy, clients) && Numbered(proxy.shared, clients) && index < |clients|
      requires proxy.shared.cycle.Some? ==> proxy.shared.cycle.value.client == index + 1
      modifies proxy, proxy.backend, clients[index]
      ensures Steady(proxy, clients) && Numbered(proxy.shared, clients)
      ensures proxy.shared == Disconnect(old(proxy.shared), index + 1)
      ensures proxy.shared.cycle.None? && Remaining(proxy.shared) == Remaining(old(proxy.shared))
    {
      hide Steady;
      Dispatch(proxy, clients, index, Terminate);
    }

    /** Stops the clients and freezes the list of changes, once. */
    method Seal(clients: seq<ClientState>, catalog: Option<seq<string>>)
      requires Valid() && !finished
      requires !sealedSummary ==> Steady(proxy, clients) && Numbered(proxy.shared, clients)
      modifies this`sealedSummary, this`changes, proxy, proxy.backend, set i | 0 <= i < |clients| :: clients[i]
      ensures Valid() && sealedSummary
      ensures old(sealedSummary) ==> changes == old(changes) && proxy.shared == old(proxy.shared)
      ensures !old(sealedSummary) ==>
        && proxy.shared.work == old(Remaining(proxy.shared))
        && (changes.complete <==> catalog.Some? && proxy.rowLedgerErr.None? && Risks(proxy.shared.work.writes) == {})
      ensures proxy.Readable()
    {
      if sealedSummary {
        return;
      }
      StopClients(clients);
      FreezeChangeSummary(catalog);
    }

    /** A summary is complete exactly when nothing about the staged work is unknown. */
    method FreezeChangeSummary(catalog: Option<seq<string>>)
      requires proxy.Idle() && proxy.shared.block.None?
      modifies this`sealedSummary, this`changes, proxy, proxy.backend`unread
      ensures proxy.Idle() && proxy.shared == old(proxy.shared)
      ensures sealedSummary && Truthful(changes, proxy.shared.work)
      ensures changes.complete <==>
        catalog.Some? && proxy.rowLedgerErr.None? && Risks(proxy.shared.work.writes) == {}
    {
      Sample();
      ghost var work := proxy.shared.work;
      assert proxy.uncertainEffects == [] <==> Risks(work.writes) == {} by {
        assert Elements(proxy.uncertainEffects) == Risks(work.writes);
        if proxy.uncertainEffects != [] {
          assert proxy.uncertainEffects[0] in Elements(proxy.uncertainEffects);
        }
      }
      sealedSummary := true;
      if catalog.None? || proxy.rowLedgerErr.Some? || proxy.uncertainEffects != [] {
        changes := Changes(map[], [], false);
        return;
      }
      changes := Changes(proxy.rowLedger, catalog.value, true);
    }

    /** The last sample of the counters. */
    method Sample()
      requires proxy.Idle() && proxy.shared.block.None?
      modifies proxy, proxy.backend`unread
      ensures proxy.Idle() && proxy.shared == old(proxy.shared)
    {
      ghost var ledger, sampled := proxy.rowLedger, proxy.rowStats;
      ghost var writes := proxy.shared.work.writes;
      proxy.ReconcileRowChanges(true);
      if proxy.rowLedgerErr.None? {
        Settles(proxy.rowLedger, ledger, proxy.backend.counters, sampled, writes);
        Resampled(proxy.rowLedger, proxy.backend.counters, writes);
      }
    }

    /** Applies the one decision of the session. COMMIT is only ever sent for a complete
        summary, and it commits exactly the work whose rows the summary lists. */
    method Finalize(decision: Decision, clients: seq<ClientState>, catalog: Option<seq<string>>)
      returns (verdict: Verdict)
      requires Valid()
      requires !finished && !sealedSummary ==> Steady(proxy, clients) && Numbered(proxy.shared, clients)
      modifies this, proxy, proxy.backend, set i | 0 <= i < |clients| :: clients[i]
      ensures Valid()
      ensures verdict.InvalidDecision? <==> decision.Other?
      ensures verdict.AlreadyFinalized? <==> !decision.Other? && old(finished)
      ensures verdict.InvalidDecision? || verdict.AlreadyFinalized? ==>
        && finished == old(finished) && changes == old(changes) && proxy.shared == old(proxy.shared)
        && proxy.backend.committed == old(proxy.backend.committed)
        && proxy.backend.durable == old(proxy.backend.durable)
      ensures !verdict.InvalidDecision? && !verdict.AlreadyFinalized? ==>
        && finished && sealedSummary && Truthful(changes, proxy.shared.work) && proxy.Readable()
        && (!old(sealedSummary) ==>
              (changes.complete <==>
                 catalog.Some? && proxy.rowLedgerErr.None? && Risks(proxy.shared.work.writes) == {}))
        && proxy.shared.work == (if old(sealedSummary) then old(proxy.shared).work else old(Remaining(proxy.shared)))
        && (verdict.Committed? <==> decision.Commit? && changes.complete)
        && (verdict.RefusedIncomplete? <==> decision.Commit? && !changes.complete)
        && proxy.backend.committed == (if verdict.Committed? then Some(proxy.shared.work) else None)
        && proxy.backend.durable == (if verdict.Committed? then Some(proxy.shared.work.data) else None)
    {
      if decision.Other? {
        return InvalidDecision;
      }
      if finished {
        return AlreadyFinalized;
      }
      Seal(clients, catalog);
      finished := true;
      var commit := decision.Commit? && changes.complete;
      proxy.backend.End(commit);
      verdict := if commit then Committed else if decision.Commit? then RefusedIncomplete else RolledBack;
    }

    /** Rolls an undecided session back; a decided one is left alone. */
    method Close(clients: seq<ClientState>, catalog: Option<seq<string>>)
      requires Valid()
      requires !finished && !sealedSummary ==> Steady(proxy, clients) && Numbered(proxy.shared, clients)
      modifies this, proxy, proxy.backend, set i | 0 <= i < |clients| :: clients[i]
      ensures Valid() && finished
      ensures old(finished) ==>
        changes == old(changes) && proxy.backend.committed == old(proxy.backend.committed)
      ensures !old(finished) ==> proxy.backend.committed == None && proxy.backend.durable == None
    {
      if finished {
        return;
      }
      var verdict := Finalize(Decision.Rollback, clients, catalog);
    }
  }
}
