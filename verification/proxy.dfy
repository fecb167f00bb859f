/**
 The proxy and its clients: the fields the Go records update in place, and the
 message handlers that run while the session lock is held.

 Every handler promises that the ghost `shared` view moves exactly as
 `SharedSession` says, that the private savepoints on the backend are again
 those of the open block, and that the row ledger still credits the surviving
 effects.
 */
module Proxying {
  import opened Wrappers
  import opened Accounting
  import opened Postgres
  import opened SharedSession

  datatype ClientSavepoint = ClientSavepoint(
    clientName: string, backendName: ObjectName, rows: Ledger, uncertain: nat)

  /** The transaction fields of a client. */
  datatype Transaction = Transaction(
    savepoint: Option<ObjectName>, failed: bool, rows: Ledger, uncertain: nat,
    saves: seq<ClientSavepoint>)

  const NO_TRANSACTION := Transaction(None, false, map[], 0, [])

  class ClientState {
    const id: nat
    var transaction: Transaction
    var extended: bool
    var extendedFailed: bool
    var rollbackCycle: bool
    var cycleSavepoint: Option<ObjectName>
    var cycleRows: Ledger
    var cycleUncertainBase: nat
    var cycleUncertain: seq<string>
    var objectID: nat
    var sent: seq<Reply>

    constructor (id: nat)
      ensures this.id == id && transaction == NO_TRANSACTION && !extended && sent == [] && objectID == 0
    {
      this.id := id;
      transaction := NO_TRANSACTION;
      extended, extendedFailed, rollbackCycle := false, false, false;
      cycleSavepoint, cycleRows, cycleUncertainBase, cycleUncertain := None, map[], 0, [];
      objectID := 0;
      sent := [];
    }

    function TransactionStatus(): char
      reads this
    {
      if transaction.savepoint.None? then 'I' else if transaction.failed then 'E' else 'T'
    }

    method NextObjectName(kind: char) returns (name: ObjectName)
      modifies this`objectID
      ensures objectID == old(objectID) + 1
      ensures name == ObjectName(id, kind, objectID)
    {
      objectID := objectID + 1;
      name := ObjectName(id, kind, objectID);
    }

    method Send(replies: seq<Reply>)
      modifies this`sent
      ensures sent == old(sent) + replies
    {
      sent := sent + replies;
    }

    /** An error inside a block fails the block. */
    method MarkFailed()
      modifies this`transaction
      ensures transaction ==
        if old(transaction).savepoint.None? then old(transaction) else old(transaction).(failed := true)
    {
      if transaction.savepoint.Some? {
        transaction := transaction.(failed := true);
      }
    }

    method SendStatementError(code: string)
      modifies this`sent
      ensures sent == old(sent) + [Error(code)]
    {
      Send([Error(code)]);
    }
  }

  /** No name this client used is numbered beyond its counter. */
  ghost predicate Fresh(stack: seq<Frame>, id: nat, objectID: nat) {
    forall i :: 0 <= i < |stack| && stack[i].name.client == id ==> stack[i].name.number <= objectID
  }

  /** `frames` are the backend savepoints of the open block, outermost first. */
  ghost predicate Matches(frames: seq<Frame>, block: Option<Block>) {
    match block
    case None => frames == []
    case Some(block) =>
      && block.client > 0
      && |frames| == 1 + |block.saves|
      && frames[0].saved == block.base
      && (forall i :: 0 <= i < |block.saves| ==> frames[i + 1].saved == block.saves[i].saved)
      && (forall i :: 0 <= i < |frames| ==> frames[i].name.client == block.client)
  }

  /** The first `length` uncertain effects are exactly those surviving in `work`. */
  ghost predicate Noted(uncertain: seq<string>, length: nat, work: Work) {
    length <= |uncertain| && Elements(uncertain[..length]) == Risks(work.writes)
  }

  ghost predicate SaveFollows(
    save: ClientSavepoint, mark: Mark, frame: Frame, uncertain: seq<string>, intact: bool)
  {
    && save.clientName == mark.name
    && save.backendName == frame.name
    && Noted(uncertain, save.uncertain, mark.saved)
    && (intact ==> Agrees(save.rows, mark.saved.writes))
  }

  ghost predicate Ascending(transaction: Transaction) {
    && (forall i :: 0 <= i < |transaction.saves| ==> transaction.uncertain <= transaction.saves[i].uncertain)
    && (forall i, j :: 0 <= i < j < |transaction.saves| ==>
          transaction.saves[i].uncertain <= transaction.saves[j].uncertain)
  }

  /** A client's fields mirror the open block if it owns it and are idle otherwise. */
  ghost predicate Follows(
    transaction: Transaction, id: nat, frames: seq<Frame>, block: Option<Block>,
    uncertain: seq<string>, intact: bool)
    requires Matches(frames, block)
  {
    if block.Some? && block.value.client == id then
      && transaction.savepoint == Some(frames[0].name)
      && transaction.failed == block.value.failed
      && Noted(uncertain, transaction.uncertain, block.value.base)
      && (intact ==> Agrees(transaction.rows, block.value.base.writes))
      && Ascending(transaction)
      && |transaction.saves| == |block.value.saves|
      && forall i :: 0 <= i < |transaction.saves| ==>
           SaveFollows(transaction.saves[i], block.value.saves[i], frames[i + 1], uncertain, intact)
    else transaction == NO_TRANSACTION
  }

  lemma FollowsExtended(
    transaction: Transaction, id: nat, frames: seq<Frame>, block: Option<Block>,
    uncertain: seq<string>, intact: bool, longer: seq<string>, still: bool)
    requires Matches(frames, block) && Follows(transaction, id, frames, block, uncertain, intact)
    requires uncertain <= longer && (still ==> intact)
    ensures Follows(transaction, id, frames, block, longer, still)
  {
  }

  lemma FollowsSavepoint(
    transaction: Transaction, id: nat, frames: seq<Frame>, block: Block,
    uncertain: seq<string>, intact: bool, work: Work, frame: Frame, name: string, rows: Ledger)
    requires Matches(frames, Some(block)) && Follows(transaction, id, frames, Some(block), uncertain, intact)
    requires block.client == id && frame.saved == work && frame.name.client == id
    requires Noted(uncertain, |uncertain|, work) && (intact ==> Agrees(rows, work.writes))
    ensures
      var save := ClientSavepoint(name, frame.name, rows, |uncertain|);
      var wider := Some(block.(saves := block.saves + [Mark(name, work)]));
      && Matches(frames + [frame], wider)
      && Follows(transaction.(saves := transaction.saves + [save]), id, frames + [frame], wider, uncertain, intact)
  {
  }

  /** What a client remembers of one of its savepoints. */
  lemma SaveFrame(
    transaction: Transaction, id: nat, frames: seq<Frame>, block: Block,
    uncertain: seq<string>, intact: bool, index: nat)
    requires Matches(frames, Some(block)) && Follows(transaction, id, frames, Some(block), uncertain, intact)
    requires Distinct(frames) && block.client == id && index < |block.saves|
    ensures |frames| == 1 + |block.saves| && |transaction.saves| == |block.saves|
    ensures
      var save := transaction.saves[index];
      && save.backendName == frames[index + 1].name && LastIndex(frames, save.backendName) == index + 1
      && frames[index + 1].saved == block.saves[index].saved
      && Noted(uncertain, save.uncertain, block.saves[index].saved)
      && (intact ==> Agrees(save.rows, block.saves[index].saved.writes))
  {
  }

  lemma PrefixNames(frames: seq<Frame>, length: nat, id: nat, objectID: nat)
    requires length <= |frames| && Distinct(frames) && Fresh(frames, id, objectID)
    ensures Distinct(frames[..length]) && Fresh(frames[..length], id, objectID)
  {
  }

  lemma FollowsRollbackTo(
    transaction: Transaction, id: nat, frames: seq<Frame>, block: Block,
    uncertain: seq<string>, intact: bool, index: nat, still: bool)
    requires Matches(frames, Some(block)) && Follows(transaction, id, frames, Some(block), uncertain, intact)
    requires block.client == id && index < |block.saves| && (still ==> intact)
    ensures
      var kept := block.(failed := false, saves := block.saves[..index + 1]);
      && Matches(frames[..index + 2], Some(kept))
      && Follows(transaction.(failed := false, saves := transaction.saves[..index + 1]), id, frames[..index + 2],
                 Some(kept), uncertain[..transaction.saves[index].uncertain], still)
  {
    var shorter := uncertain[..transaction.saves[index].uncertain];
    assert forall k :: 0 <= k <= |shorter| ==> shorter[..k] == uncertain[..k];
  }

  lemma FollowsRelease(
    transaction: Transaction, id: nat, frames: seq<Frame>, block: Block,
    uncertain: seq<string>, intact: bool, index: nat)
    requires Matches(frames, Some(block)) && Follows(transaction, id, frames, Some(block), uncertain, intact)
    requires block.client == id && index < |block.saves|
    ensures
      var kept := block.(saves := block.saves[..index]);
      && Matches(frames[..index + 1], Some(kept))
      && Follows(transaction.(saves := transaction.saves[..index]), id, frames[..index + 1], Some(kept), uncertain, intact)
  {
  }

  /** The same block; only its failed mark may differ. */
  ghost predicate SameBlock(before: Transaction, after: Transaction) {
    after == before.(failed := after.failed)
  }

  class Proxy {
    const backend: Backend
    var activeTransaction: nat
    var escapeClient: nat
    var rowStats: Ledger
    var rowLedger: Ledger
    var rowLedgerErr: Option<string>
    var uncertainEffects: seq<string>
    ghost var shared: Shared
    ghost var frames: seq<Frame>

    constructor (backend: Backend)
      requires backend.Valid() && !backend.aborted && backend.stack == [] && backend.work.writes == []
      ensures this.backend == backend
      ensures shared == Shared(backend.work, None, None, 0)
      ensures Idle()
    {
      this.backend := backend;
      activeTransaction, escapeClient := 0, 0;
      rowStats, rowLedger, rowLedgerErr := backend.counters, map[], None;
      uncertainEffects := [];
      shared := Shared(backend.work, None, None, 0);
      frames := [];
    }

    /** The shared view is what the backend holds, with `top` above the block's savepoints. */
    ghost predicate Linked(top: seq<Frame>)
      reads this, backend
    {
      && backend.Valid()
      && backend.stack == frames + top
      && backend.work == shared.work
      && Distinct(frames)
      && Matches(frames, shared.block)
      && activeTransaction == (if shared.block.Some? then shared.block.value.client else 0)
      && escapeClient == shared.escape
    }

    /** The books are right up to the counter movement since `settled` and the
        details in `noted`, which are not yet in the uncertain list. */
    ghost predicate Books(settled: Work, noted: set<string>)
      reads this, backend
    {
      BooksOn(settled.writes, shared.work.writes, noted)
    }

    ghost predicate BooksOn(settled: seq<Effect>, writes: seq<Effect>, noted: set<string>)
      reads this`uncertainEffects, this`rowLedgerErr, this`rowLedger, this`rowStats, backend`counters
    {
      Balanced(uncertainEffects, rowLedgerErr.None?, rowLedger, backend.counters, rowStats, settled, writes, noted)
    }

    /** The ledger gives up only when the counters could not be read. */
    ghost predicate Readable()
      reads this`rowLedgerErr, backend`unread
    {
      rowLedgerErr.Some? ==> backend.unread
    }

    /** The counters have not moved since they were sampled. */
    ghost predicate Sampled()
      reads this`rowLedgerErr, this`rowStats, backend`counters
    {
      rowLedgerErr.None? ==> rowStats == backend.counters
    }

    /** No private savepoint but the open block's is live and the books are settled. */
    ghost predicate Quiet()
      reads this, backend
    {
      Linked([]) && !backend.aborted && Books(shared.work, {}) && Readable() && Sampled()
    }

    /** Every state in which the session lock is free. */
    ghost predicate Idle()
      reads this, backend
    {
      Quiet() && shared.cycle.None?
    }

    ghost predicate Serves(client: ClientState)
      reads this, client`transaction, client`objectID
    {
      && client.id > 0
      && Matches(frames, shared.block)
      && Follows(client.transaction, client.id, frames, shared.block, uncertainEffects, rowLedgerErr.None?)
      && Fresh(frames, client.id, client.objectID)
    }

    /* The ledger. */

    method SetRowLedgerError(error: string)
      modifies this`rowLedgerErr
      ensures rowLedgerErr == if old(rowLedgerErr).None? then Some(error) else old(rowLedgerErr)
    {
      if rowLedgerErr.None? {
        rowLedgerErr := Some(error);
      }
    }

    /** Adds what the counters moved since the last sample, unless one of them went back. */
    method ApplyRowStats(current: Ledger, keep: bool)
      requires keep && rowLedgerErr.None? ==> NonNegative(rowLedger)
      modifies this`rowStats, this`rowLedger, this`rowLedgerErr
      ensures rowStats == current
      ensures !keep || old(rowLedgerErr).Some? ==>
        rowLedger == old(rowLedger) && rowLedgerErr == old(rowLedgerErr)
      ensures keep && old(rowLedgerErr).None? ==>
        (rowLedgerErr.None? <==>
          forall cell :: cell in current ==> At(current, cell) >= At(old(rowStats), cell))
      ensures current == old(rowStats) && rowLedgerErr.None? ==> rowLedger == old(rowLedger)
      ensures keep && rowLedgerErr.None? ==>
        Accrues(rowLedger, old(rowLedger), current, old(rowStats), current.Keys)
    {
      var sampled := rowStats;
      if keep && rowLedgerErr.None? {
        var pending := current.Keys;
        ghost var done: set<Cell> := {};
        while pending != {}
          invariant done + pending == current.Keys && done !! pending
          invariant rowLedgerErr.None?
          invariant forall cell :: cell in done ==> At(current, cell) >= At(sampled, cell)
          invariant Accrues(rowLedger, old(rowLedger), current, sampled, done)
          invariant current == sampled ==> rowLedger == old(rowLedger)
          decreases pending
        {
          var cell :| cell in pending;
          if current[cell] < At(sampled, cell) {
            rowLedgerErr := Some("PostgreSQL reset row counters");
            assert At(current, cell) < At(sampled, cell);
            break;
          }
          AccrueStep(rowLedger, old(rowLedger), current, sampled, done, cell);
          rowLedger := Accrue(rowLedger, cell, current[cell] - At(sampled, cell));
          pending, done := pending - {cell}, done + {cell};
        }
      }
      rowStats := current;
    }

    method ReconcileRowChanges(keep: bool)
      requires rowLedgerErr.None? && keep ==> Ahead(backend.counters, rowStats) && NonNegative(rowLedger)
      requires Readable()
      modifies this`rowStats, this`rowLedger, this`rowLedgerErr, backend`unread
      ensures Readable()
      ensures rowLedgerErr.None? ==>
        && old(rowLedgerErr).None?
        && rowStats == backend.counters
        && (backend.counters == old(rowStats) ==> rowLedger == old(rowLedger))
        && (if keep then
              Accrues(rowLedger, old(rowLedger), backend.counters, old(rowStats), backend.counters.Keys)
            else rowLedger == old(rowLedger))
    {
      var current := backend.Sample();
      if current.None? {
        SetRowLedgerError("row counters could not be read");
        return;
      }
      ApplyRowStats(current.value, keep);
    }

    method AddUncertainEffect(detail: string)
      modifies this`uncertainEffects
      ensures uncertainEffects ==
        if detail == "" || detail in old(uncertainEffects) then old(uncertainEffects)
        else old(uncertainEffects) + [detail]
    {
      if detail == "" {
        return;
      }
      for index := 0 to |uncertainEffects|
        invariant uncertainEffects == old(uncertainEffects)
        invariant detail !in uncertainEffects[..index]
      {
        if uncertainEffects[index] == detail {
          return;
        }
      }
      uncertainEffects := uncertainEffects + [detail];
    }

    method RestoreUncertainEffects(length: nat)
      modifies this`uncertainEffects
      ensures uncertainEffects ==
        if length < |old(uncertainEffects)| then old(uncertainEffects)[..length] else old(uncertainEffects)
    {
      if length < |uncertainEffects| {
        uncertainEffects := uncertainEffects[..length];
      }
    }

    /** TRUNCATE resets its tables' counters: ordinary movement is added on the
        other tables and the rows counted beforehand on the truncated ones. */
    method ReconcileTruncate(rows: Ledger, truncates: set<int>)
      requires rowLedgerErr.None? ==>
        && NonNegative(rowLedger) && NonNegative(rows)
        && (forall cell :: cell in rows ==> cell.table in truncates)
        && rowStats.Keys <= backend.counters.Keys
        && (forall cell: Cell :: cell.table !in truncates ==> At(backend.counters, cell) >= At(rowStats, cell))
      requires Readable()
      modifies this`rowStats, this`rowLedger, this`rowLedgerErr, backend`unread
      ensures Readable()
      ensures rowLedgerErr.None? ==>
        && old(rowLedgerErr).None?
        && rowStats == backend.counters
        && NonNegative(rowLedger)
        && CreditsTruncate(rowLedger, old(rowLedger), rows, backend.counters, old(rowStats), truncates)
    {
      var current := backend.Sample();
      if current.None? {
        SetRowLedgerError("row counters could not be read");
        return;
      }
      ghost var sampled, before := rowStats, rowLedger;
      rowStats := Without(rowStats, truncates);
      WithoutAt(current.value, truncates);
      WithoutAt(sampled, truncates);
      ApplyRowStats(Without(current.value, truncates), true);
      rowStats := current.value;
      if rowLedgerErr.Some? {
        return;
      }
      ghost var middle := rowLedger;
      assert NonNegative(middle) by {
        assert Accrues(middle, before, Without(current.value, truncates), Without(sampled, truncates),
                       Without(current.value, truncates).Keys);
      }
      AddExact(rows);
      Combines(rowLedger, middle, before, rows, current.value, sampled, truncates);
    }

    method AddExact(rows: Ledger)
      requires NonNegative(rowLedger) && NonNegative(rows)
      modifies this`rowLedger
      ensures NonNegative(rowLedger)
      ensures Accrues(rowLedger, old(rowLedger), rows, map[], rows.Keys)
    {
      var pending := rows.Keys;
      ghost var done: set<Cell> := {};
      assert Accrues(rowLedger, rowLedger, rows, map[], done);
      while pending != {}
        invariant done + pending == rows.Keys && done !! pending
        invariant Accrues(rowLedger, old(rowLedger), rows, map[], done)
        decreases pending
      {
        var cell :| cell in pending;
        AccrueStep(rowLedger, old(rowLedger), rows, map[], done, cell);
        rowLedger := Accrue(rowLedger, cell, rows[cell]);
        pending, done := pending - {cell}, done + {cell};
      }
    }

    /* Statements. */

    method SummaryRiskApplies(risk: string, requiresRows: bool, tags: seq<Tag>) returns (applies: bool)
      ensures applies <==>
        risk != "" &&
        (!requiresRows || exists i :: 0 <= i < |tags| && tags[i].rows.Some? && tags[i].rows.value > 0)
    {
      if risk == "" {
        return false;
      }
      if !requiresRows {
        return true;
      }
      for index := 0 to |tags|
        invariant forall i :: 0 <= i < index ==> !(tags[i].rows.Some? && tags[i].rows.value > 0)
      {
        if tags[index].rows.Some? && tags[index].rows.value > 0 {
          return true;
        }
      }
      return false;
    }

    /** Creates a private savepoint above everything that is open. */
    method PushSavepoint(client: ClientState, kind: char, ghost top: seq<Frame>) returns (name: ObjectName)
      requires Linked(top) && !backend.aborted
      modifies backend`names, backend`saved, backend`stack, client`objectID
      ensures Linked(top + [Frame(name, shared.work)])
      ensures name == ObjectName(client.id, kind, client.objectID) && client.objectID == old(client.objectID) + 1
    {
      name := client.NextObjectName(kind);
      var ok := backend.Savepoint(name);
      assert ok;
      assert backend.stack == frames + (top + [Frame(name, shared.work)]);
    }

    method ReleaseSavepoint(client: ClientState, name: ObjectName, ghost top: seq<Frame>, ghost saved: Work)
      requires Linked(top + [Frame(name, saved)]) && !backend.aborted
      modifies backend`names, backend`saved, backend`stack, backend`aborted
      ensures Linked(top) && !backend.aborted
    {
      ghost var stack := frames + top;
      assert backend.stack == stack + [Frame(name, saved)];
      InnermostLast(stack, Frame(name, saved));
      var ok := backend.Release(name);
      assert ok && backend.stack == stack;
    }

    method UndoSavepoint(client: ClientState, name: ObjectName, ghost top: seq<Frame>, ghost saved: Work)
      requires Linked(top + [Frame(name, saved)])
      modifies this`shared, backend`data, backend`names, backend`saved, backend`counters, backend`aborted,
        backend`work, backend`stack
      ensures Linked(top) && !backend.aborted
      ensures shared == old(shared).(work := saved)
    {
      ghost var stack := frames + top;
      assert backend.stack == stack + [Frame(name, saved)];
      InnermostLast(stack, Frame(name, saved));
      var ok := backend.Undo(name);
      assert ok && backend.stack == stack;
      shared := shared.(work := saved);
    }

    method RunOnBackend(client: ClientState, query: Query, ghost lost: Ledger, ghost top: seq<Frame>)
      returns (outcome: Outcome)
      requires Linked(top) && !backend.aborted
      modifies backend`data, backend`counters, backend`aborted, backend`work, client`sent, this`shared
      ensures Linked(top) && backend.aborted == !outcome.ok
      ensures outcome == query.run(old(shared).work.data)
      ensures client.sent == old(client.sent) + outcome.Replies()
      ensures backend.counters ==
        Counted(old(backend.counters), outcome.moved, if outcome.ok then query.truncates else {})
      ensures shared ==
        if outcome.ok then old(shared).(work := Advanced(old(shared).work, query, lost)) else old(shared)
    {
      outcome := backend.Execute(query, lost);
      var replies := outcome.Replies();
      client.Send(replies);
      shared := shared.(work := backend.work);
    }

    /** Counts the rows of a TRUNCATE before it runs. */
    method PrepareTruncate(client: ClientState, query: Query) returns (rows: Option<Ledger>)
      requires backend.Valid()
      modifies client`sent
      ensures client.sent == old(client.sent) + Announcement(query)
      ensures rows.Some? <==> query.truncates != {} && query.countable(backend.work.data)
      ensures rows.Some? ==> rows.value == TruncatedRows(backend.work.data, query.truncates)
    {
      rows := None;
      if query.truncates != {} {
        client.Send([Notice("00000")]);
        rows := backend.CountTruncate(query);
      }
    }

    /** Runs a statement under its own savepoint and leaves only that savepoint's
        outcome: on an error, or when asked to undo, nothing staged changes. */
    method RunProtected(client: ClientState, query: Query, undo: bool, ghost top: seq<Frame>, ghost lost: Ledger)
      returns (outcome: Outcome, rows: Option<Ledger>)
      requires Linked(top) && !backend.aborted
      modifies client`objectID, client`sent, this`shared, backend`data, backend`names, backend`saved,
        backend`counters, backend`aborted, backend`work, backend`stack
      ensures Linked(top) && !backend.aborted
      ensures client.objectID >= old(client.objectID)
      ensures outcome == query.run(old(shared).work.data)
      ensures client.sent == old(client.sent) + (Announcement(query) + outcome.Replies())
      ensures rows.Some? <==> query.truncates != {} && query.countable(old(shared).work.data)
      ensures rows.Some? ==> rows.value == TruncatedRows(old(shared).work.data, query.truncates)
      ensures shared ==
        if outcome.ok && !undo then old(shared).(work := Advanced(old(shared).work, query, lost)) else old(shared)
      ensures outcome.ok && !undo ==>
        backend.counters == Counted(old(backend.counters), outcome.moved, query.truncates)
    {
      hide Matches, Distinct, Balanced;
      var savepoint := PushSavepoint(client, 'q', top);
      ghost var work := shared.work;
      rows := PrepareTruncate(client, query);
      outcome := RunOnBackend(client, query, lost, top + [Frame(savepoint, work)]);
      if !outcome.ok || undo {
        UndoSavepoint(client, savepoint, top, work);
      } else {
        ReleaseSavepoint(client, savepoint, top, work);
      }
    }

    method ExecuteRegular(
      client: ClientState, query: Query, rollbackAfter: bool,
      ghost top: seq<Frame>, ghost settled: Work, ghost noted: set<string>)
      returns (failed: bool)
      requires Linked(top) && !backend.aborted
      requires Books(settled, noted) && Readable()
      requires client.transaction.savepoint.Some? <==> shared.Owned(client.id)
      modifies this, backend, client`objectID, client`sent, client`transaction
      ensures Linked(top) && !backend.aborted && client.objectID >= old(client.objectID)
      ensures Readable() && (rowLedgerErr.None? ==> old(rowLedgerErr).None?)
      ensures
        var turn := Run(old(shared), client.id, query, rollbackAfter, settled);
        && shared == turn.next && failed == turn.failed
        && client.sent == old(client.sent) + turn.replies
      ensures frames == old(frames)
      ensures client.transaction ==
        if failed && old(client.transaction).savepoint.Some? then old(client.transaction).(failed := true)
        else old(client.transaction)
      ensures !failed && !rollbackAfter ==> Books(shared.work, noted) && old(uncertainEffects) <= uncertainEffects
      ensures failed || rollbackAfter ==> uncertainEffects == old(uncertainEffects)
      ensures (failed || rollbackAfter) && settled == old(shared).work ==> Books(settled, noted)
      ensures Sampled() && (failed || rollbackAfter ==> rowLedgerErr.None? ==> rowLedger == old(rowLedger))
      ensures
        !failed && !rollbackAfter && query.truncates != {} && Certain(old(shared).work.writes) &&
        Risks(shared.work.writes) == {} && rowLedgerErr.None? ==>
          (Exactly(rowLedger, shared.work.writes) <==> Still(old(backend.counters), old(rowStats), query.truncates))
    {
      ghost var work := shared.work;
      ghost var counters := backend.counters;
      var outcome, rows := RunProtected(client, query, rollbackAfter, top, Missed(query, work, settled));
      failed := !outcome.ok;
      Account(query, rows, outcome.ok && !rollbackAfter, outcome.tags, work, settled, noted, counters);
      if failed {
        client.MarkFailed();
        shared := shared.Fail(client.id);
      }
    }

    /** A TRUNCATE whose rows were not counted is uncertain whatever its tags say. */
    method StatementRisk(query: Query, counted: bool, tags: seq<Tag>, ghost data: Database)
      returns (risk: string, applies: bool)
      requires counted <==> query.truncates != {} && query.countable(data)
      ensures risk == query.Risk(data) && applies == query.RiskApplies(data, tags)
    {
      var uncounted := query.truncates != {} && !counted;
      risk := if uncounted then UNKNOWN_TRUNCATE else query.risk;
      applies := SummaryRiskApplies(risk, query.riskRequiresRows && !uncounted, tags);
    }

    /** Brings the books up to date after a statement that was kept or undone. */
    method Account(
      query: Query, rows: Option<Ledger>, keep: bool, tags: seq<Tag>,
      ghost work: Work, ghost settled: Work, ghost noted: set<string>, ghost counters: Ledger)
      requires Readable()
      requires Elements(uncertainEffects) + noted == Risks(work.writes) && Risks(settled.writes) <= Risks(work.writes)
      requires rowLedgerErr.None? ==>
        && Agrees(rowLedger, settled.writes)
        && Ahead(counters, rowStats)
        && AgreesPending(rowLedger, counters, rowStats, work.writes)
      requires
        var outcome := query.run(work.data);
        && (keep ==> outcome.ok)
        && tags == outcome.tags
        && (rows.Some? <==> query.truncates != {} && query.countable(work.data))
        && (rows.Some? ==> rows.value == TruncatedRows(work.data, query.truncates))
        && (keep ==> backend.counters == Counted(counters, outcome.moved, query.truncates))
      modifies this`uncertainEffects, this`rowStats, this`rowLedger, this`rowLedgerErr, backend`unread
      ensures Readable() && (rowLedgerErr.None? ==> old(rowLedgerErr).None?)
      ensures
        var writes := Advanced(work, query, Missed(query, work, settled)).writes;
        keep ==> BooksOn(writes, writes, noted) && old(uncertainEffects) <= uncertainEffects
      ensures
        var writes := Advanced(work, query, Missed(query, work, settled)).writes;
        keep && query.truncates != {} && Certain(work.writes) && Risks(writes) == {} && rowLedgerErr.None? ==>
          (Exactly(rowLedger, writes) <==> Still(counters, old(rowStats), query.truncates))
      ensures Sampled() && (!keep ==> rowLedgerErr.None? ==> rowLedger == old(rowLedger))
      ensures !keep ==> uncertainEffects == old(uncertainEffects)
      ensures !keep && settled == work ==> BooksOn(work.writes, work.writes, noted)
    {
      if !keep {
        AccountUndone(work.writes, settled.writes, noted);
        return;
      }
      var risk, applies := StatementRisk(query, rows.Some?, tags, work.data);
      if applies {
        AccountUncertain(risk, Recorded(query, work, Missed(query, work, settled)), work.writes, noted);
      } else {
        AccountKept(query, rows, work, settled, noted, counters);
      }
    }

    method AccountUndone(ghost writes: seq<Effect>, ghost settled: seq<Effect>, ghost noted: set<string>)
      requires Readable()
      requires Elements(uncertainEffects) + noted == Risks(writes)
      requires rowLedgerErr.None? ==> Agrees(rowLedger, settled)
      modifies this`rowStats, this`rowLedger, this`rowLedgerErr, backend`unread
      ensures Readable() && (rowLedgerErr.None? ==> old(rowLedgerErr).None?)
      ensures Sampled() && (rowLedgerErr.None? ==> rowLedger == old(rowLedger))
      ensures settled == writes ==> BooksOn(writes, writes, noted)
    {
      ReconcileRowChanges(false);
      if rowLedgerErr.None? && settled == writes {
        Resampled(rowLedger, backend.counters, writes);
      }
    }

    /** A kept statement whose rows cannot be counted: its detail is listed instead. */
    method AccountUncertain(risk: string, ghost effect: Effect, ghost writes: seq<Effect>, ghost noted: set<string>)
      requires Readable()
      requires Elements(uncertainEffects) + noted == Risks(writes)
      requires rowLedgerErr.None? ==> NonNegative(rowLedger)
      requires effect.risk == risk != ""
      modifies this`uncertainEffects, this`rowStats, this`rowLedger, this`rowLedgerErr, backend`unread
      ensures Sampled() && Readable() && (rowLedgerErr.None? ==> old(rowLedgerErr).None?)
      ensures old(uncertainEffects) <= uncertainEffects
      ensures BooksOn(writes + [effect], writes + [effect], noted)
    {
      ElementsAppend(uncertainEffects, risk);
      AddUncertainEffect(risk);
      ReconcileRowChanges(false);
      Append(writes, effect);
      if rowLedgerErr.None? {
        Resampled(rowLedger, backend.counters, writes + [effect]);
      }
    }

    /** A kept statement without an applicable risk: its rows go into the ledger. */
    method AccountKept(
      query: Query, rows: Option<Ledger>,
      ghost work: Work, ghost settled: Work, ghost noted: set<string>, ghost counters: Ledger)
      requires Readable()
      requires Elements(uncertainEffects) + noted == Risks(work.writes) && Risks(settled.writes) <= Risks(work.writes)
      requires rowLedgerErr.None? ==>
        && Agrees(rowLedger, settled.writes)
        && Ahead(counters, rowStats)
        && AgreesPending(rowLedger, counters, rowStats, work.writes)
      requires
        var outcome := query.run(work.data);
        && outcome.ok && !query.RiskApplies(work.data, outcome.tags)
        && (rows.Some? <==> query.truncates != {})
        && (rows.Some? ==> rows.value == TruncatedRows(work.data, query.truncates))
        && backend.counters == Counted(counters, outcome.moved, query.truncates)
      modifies this`rowStats, this`rowLedger, this`rowLedgerErr, backend`unread
      ensures Sampled() && Readable() && (rowLedgerErr.None? ==> old(rowLedgerErr).None?)
      ensures
        var writes := Advanced(work, query, Missed(query, work, settled)).writes;
        BooksOn(writes, writes, noted)
      ensures query.truncates != {} && Certain(work.writes) && rowLedgerErr.None? ==>
        var writes := Advanced(work, query, Missed(query, work, settled)).writes;
        (Exactly(rowLedger, writes) <==> Still(counters, old(rowStats), query.truncates))
    {
      ghost var ledger, sampled := rowLedger, rowStats;
      ghost var lost := Missed(query, work, settled);
      ghost var writes := Advanced(work, query, lost).writes;
      assert query.HonestOn(work.data);
      CountedAt(counters, query.run(work.data).moved, query.truncates);
      Append(work.writes, Recorded(query, work, lost));
      if rows.Some? {
        ReconcileTruncate(rows.value, query.truncates);
        if rowLedgerErr.None? {
          TruncateSettles(query, work, settled, rowLedger, ledger, counters, sampled);
          if Certain(work.writes) {
            TruncateExactly(query, work, settled, rowLedger, ledger, counters, sampled);
          }
          Resampled(rowLedger, backend.counters, writes);
        }
      } else {
        if rowLedgerErr.None? {
          OrdinaryPending(query, work, lost, ledger, counters, sampled);
        }
        ReconcileRowChanges(true);
        if rowLedgerErr.None? {
          Settles(rowLedger, ledger, backend.counters, sampled, writes);
          Resampled(rowLedger, backend.counters, writes);
        }
      }
    }

    /* Transaction control. */

    /** Puts back the books saved with a savepoint that was rolled back to. */
    method RestoreBooks(rows: Ledger, length: nat, ghost work: Work)
      requires Readable()
      requires Noted(uncertainEffects, length, work)
      requires rowLedgerErr.None? ==> Agrees(rows, work.writes)
      modifies this`rowStats, this`rowLedger, this`rowLedgerErr, backend`unread, this`uncertainEffects
      ensures Sampled() && Readable() && (rowLedgerErr.None? ==> old(rowLedgerErr).None? && rowLedger == rows)
      ensures uncertainEffects == old(uncertainEffects)[..length]
      ensures BooksOn(work.writes, work.writes, {})
    {
      rowLedger := rows;
      RestoreUncertainEffects(length);
      assert uncertainEffects == old(uncertainEffects)[..length];
      ReconcileRowChanges(false);
      if rowLedgerErr.None? {
        Resampled(rowLedger, backend.counters, work.writes);
      }
    }

    method BeginClientTransaction(client: ClientState)
      requires Quiet() && Serves(client) && shared.block.None?
      modifies this, backend`names, backend`saved, backend`stack, client`objectID, client`transaction
      ensures Quiet() && Serves(client)
      ensures shared == old(shared).Open(client.id)
      ensures uncertainEffects == old(uncertainEffects) && rowLedgerErr == old(rowLedgerErr)
    {
      var name := PushSavepoint(client, 't', []);
      client.transaction := Transaction(Some(name), false, rowLedger, |uncertainEffects|, []);
      activeTransaction := client.id;
      frames := [Frame(name, shared.work)];
      shared := shared.Open(client.id);
      assert uncertainEffects[..|uncertainEffects|] == uncertainEffects;
      assert backend.stack == frames + [];
    }

    method ClearClientTransaction(client: ClientState)
      modifies this`activeTransaction, client`transaction
      ensures activeTransaction == if old(activeTransaction) == client.id then 0 else old(activeTransaction)
      ensures client.transaction == NO_TRANSACTION
    {
      if activeTransaction == client.id {
        activeTransaction := 0;
      }
      client.transaction := NO_TRANSACTION;
    }

    /** Drops the open block's savepoints and keeps its work. */
    method ReleaseTransaction(client: ClientState)
      requires Quiet() && Serves(client) && shared.Owned(client.id)
      modifies this, backend, client`transaction
      ensures Quiet() && Serves(client)
      ensures shared == old(shared).(block := None) && uncertainEffects == old(uncertainEffects)
    {
      OnlyIndex(frames, 0);
      assert backend.stack == frames;
      var ok := backend.Release(client.transaction.savepoint.value);
      assert ok;
      ClearClientTransaction(client);
      frames, shared := [], shared.(block := None);
    }

    /** Rolls the open block back to where it began. */
    method UndoTransaction(client: ClientState)
      requires Quiet() && Serves(client) && shared.Owned(client.id)
      modifies this, backend, client`transaction
      ensures Quiet() && Serves(client)
      ensures shared == old(shared).(work := old(shared).block.value.base, block := None)
      ensures uncertainEffects <= old(uncertainEffects)
    {
      ghost var block := shared.block.value;
      OnlyIndex(frames, 0);
      assert backend.stack == frames;
      var ok := backend.Undo(client.transaction.savepoint.value);
      assert ok;
      RestoreBooks(client.transaction.rows, client.transaction.uncertain, block.base);
      ClearClientTransaction(client);
      frames, shared := [], shared.(work := block.base, block := None);
    }

    /** COMMIT and ROLLBACK of an open block. */
    method EndTransaction(client: ClientState, undo: bool, chain: bool)
      requires Quiet() && Serves(client) && shared.Owned(client.id)
      modifies this, backend, client`transaction, client`objectID
      ensures Quiet() && Serves(client)
      ensures shared == old(shared).Close(if undo then old(shared).block.value.base else old(shared).work, chain)
    {
      if undo {
        UndoTransaction(client);
      } else {
        ReleaseTransaction(client);
      }
      if chain {
        BeginClientTransaction(client);
      }
    }

    method DefineSavepoint(client: ClientState, name: string)
      requires Quiet() && Serves(client) && shared.Owned(client.id)
      modifies this, backend, client`transaction, client`objectID
      ensures Quiet() && Serves(client) && uncertainEffects == old(uncertainEffects)
      ensures
        var block := old(shared).block.value;
        shared == old(shared).(block := Some(block.(saves := block.saves + [Mark(name, old(shared).work)])))
    {
      var backendName := PushSavepoint(client, 'u', []);
      ghost var frame := Frame(backendName, shared.work);
      ghost var block := shared.block.value;
      assert uncertainEffects[..|uncertainEffects|] == uncertainEffects;
      FollowsSavepoint(client.transaction, client.id, frames, block, uncertainEffects, rowLedgerErr.None?,
                       shared.work, frame, name, rowLedger);
      var longer := client.transaction.(
        saves := client.transaction.saves + [ClientSavepoint(name, backendName, rowLedger, |uncertainEffects|)]);
      assert Distinct(frames + [frame]) && Fresh(frames + [frame], client.id, client.objectID);
      Adopt(client, longer, frames + [frame],
            shared.(block := Some(block.(saves := block.saves + [Mark(name, shared.work)]))));
    }

    /** The innermost savepoint with this name; a reused name hides the older one. */
    method ClientSavepointIndex(client: ClientState, name: string) returns (index: int)
      requires Serves(client) && shared.Owned(client.id)
      ensures index == LastMark(shared.block.value.saves, name)
    {
      index := |client.transaction.saves| - 1;
      while index >= 0
        invariant -1 <= index < |client.transaction.saves|
        invariant forall i :: index < i < |client.transaction.saves| ==> shared.block.value.saves[i].name != name
      {
        if client.transaction.saves[index].clientName == name {
          break;
        }
        index := index - 1;
      }
      LastMarkIs(shared.block.value.saves, name, index);
    }

    method RollbackToSavepoint(client: ClientState, index: nat)
      requires Quiet() && Serves(client) && shared.Owned(client.id)
      requires index < |shared.block.value.saves|
      modifies this, backend, client`transaction
      ensures Quiet() && Serves(client)
      ensures shared == Rewound(old(shared), index)
    {
      ghost var block := shared.block.value;
      SaveFrame(client.transaction, client.id, frames, block, uncertainEffects, rowLedgerErr.None?, index);
      PrefixNames(frames, index + 2, client.id, client.objectID);
      hide Follows, Matches, Distinct, Fresh, Balanced, Noted, Agrees;
      var save := client.transaction.saves[index];
      assert backend.stack == frames;
      var ok := backend.RollbackTo(save.backendName);
      assert ok;
      ghost var uncertain, intact := uncertainEffects, rowLedgerErr.None?;
      RestoreBooks(save.rows, save.uncertain, block.saves[index].saved);
      FollowsRollbackTo(client.transaction, client.id, frames, block, uncertain, intact, index, rowLedgerErr.None?);
      var kept := client.transaction.(failed := false, saves := client.transaction.saves[..index + 1]);
      Adopt(client, kept, frames[..index + 2], Rewound(shared, index));
    }

    /** Takes over a client's new view of its block once the backend agrees with it. */
    method Adopt(client: ClientState, transaction: Transaction, ghost kept: seq<Frame>, ghost next: Shared)
      requires backend.Valid() && !backend.aborted && backend.stack == kept && backend.work == next.work
      requires Distinct(kept) && Matches(kept, next.block) && next.block.Some?
      requires activeTransaction == next.block.value.client && escapeClient == next.escape
      requires BooksOn(next.work.writes, next.work.writes, {}) && Readable() && Sampled()
      requires Follows(transaction, client.id, kept, next.block, uncertainEffects, rowLedgerErr.None?)
      requires client.id > 0 && Fresh(kept, client.id, client.objectID)
      modifies this`frames, this`shared, client`transaction
      ensures Quiet() && Serves(client)
      ensures shared == next && frames == kept && client.transaction == transaction
    {
      hide Distinct, Follows, Fresh, Balanced;
      client.transaction := transaction;
      frames, shared := kept, next;
      assert kept == kept + [];
    }

    method ReleaseClientSavepoint(client: ClientState, index: nat)
      requires Quiet() && Serves(client) && shared.Owned(client.id)
      requires index < |shared.block.value.saves|
      modifies this, backend, client`transaction
      ensures Quiet() && Serves(client) && uncertainEffects == old(uncertainEffects)
      ensures shared == Released(old(shared), index)
    {
      ghost var block := shared.block.value;
      SaveFrame(client.transaction, client.id, frames, block, uncertainEffects, rowLedgerErr.None?, index);
      PrefixNames(frames, index + 1, client.id, client.objectID);
      hide Follows, Matches, Distinct, Fresh, Balanced;
      var save := client.transaction.saves[index];
      assert backend.stack == frames;
      var ok := backend.Release(save.backendName);
      assert ok;
      FollowsRelease(client.transaction, client.id, frames, block, uncertainEffects, rowLedgerErr.None?, index);
      var kept := client.transaction.(saves := client.transaction.saves[..index]);
      Adopt(client, kept, frames[..index + 1], Released(shared, index));
    }

    /** Another client has an open block. */
    ghost predicate Foreign(id: nat)
      reads this
    {
      shared.block.Some? && shared.block.value.client != id
    }

    /** A step of a client leaves the books of another client's open block alone. */
    twostate predicate Spared(id: nat)
      reads this
    {
      old(Foreign(id)) ==>
        && frames == old(frames) && uncertainEffects == old(uncertainEffects)
        && (rowLedgerErr.None? ==> old(rowLedgerErr).None? && rowLedger == old(rowLedger))
    }

    /** Sends an error and, when it fails the open block, marks the block failed. */
    method RejectIn(
      client: ClientState, code: string, fails: bool,
      ghost top: seq<Frame>, ghost settled: Work, ghost noted: set<string>)
      returns (failed: bool)
      requires Serves(client) && Linked(top) && Books(settled, noted)
      modifies client`sent, client`transaction, this`shared
      ensures Serves(client) && Linked(top) && Books(settled, noted)
      ensures failed
      ensures shared == if fails then old(shared).Fail(client.id) else old(shared)
      ensures client.sent == old(client.sent) + [Error(code)]
      ensures SameBlock(old(client.transaction), client.transaction)
    {
      client.SendStatementError(code);
      if fails {
        FailBlock(client, top);
      }
      failed := true;
    }

    /** An error inside the client's own block leaves that block failed. */
    method FailBlock(client: ClientState, ghost top: seq<Frame>)
      requires Serves(client) && Linked(top)
      modifies client`transaction, this`shared
      ensures Serves(client) && Linked(top)
      ensures shared == old(shared).Fail(client.id)
      ensures SameBlock(old(client.transaction), client.transaction)
    {
      client.MarkFailed();
      shared := shared.Fail(client.id);
    }

    method Reject(client: ClientState, code: string, fails: bool) returns (failed: bool)
      requires Quiet() && Serves(client)
      modifies client`sent, client`transaction, this`shared
      ensures Quiet() && Serves(client) && failed
      ensures shared == if fails then old(shared).Fail(client.id) else old(shared)
      ensures client.sent == old(client.sent) + [Error(code)]
    {
      failed := RejectIn(client, code, fails, [], shared.work, {});
    }

    method Begin(client: ClientState, options: bool) returns (failed: bool)
      requires Quiet() && Serves(client)
      modifies this, backend, client`transaction, client`objectID, client`sent
      ensures Quiet() && Serves(client)
      ensures
        var turn := BeginTurn(old(shared), client.id, options);
        shared == turn.next && failed == turn.failed && client.sent == old(client.sent) + turn.replies
      ensures Spared(client.id)
    {
      failed := false;
      if options {
        failed := Reject(client, "0A000", true);
      } else if client.transaction.savepoint.Some? {
        client.Send([Notice("25001"), Plain("BEGIN")]);
      } else if SharedLeaseHeldByOther(client) {
        failed := Reject(client, "55P03", false);
      } else {
        BeginClientTransaction(client);
        client.Send([Plain("BEGIN")]);
      }
    }

    function EscapeLeaseHeldByOther(client: ClientState): bool
      reads this, client
    {
      escapeClient != 0 && escapeClient != client.id
    }

    function SharedLeaseHeldByOther(client: ClientState): bool
      reads this, client
    {
      (activeTransaction != 0 && activeTransaction != client.id) || EscapeLeaseHeldByOther(client)
    }

    method Finish(client: ClientState, commit: bool, chain: bool)
      requires Quiet() && Serves(client)
      modifies this, backend, client`transaction, client`objectID, client`sent
      ensures Quiet() && Serves(client)
      ensures
        var turn := EndTurn(old(shared), client.id, commit, chain);
        shared == turn.next && !turn.failed && client.sent == old(client.sent) + turn.replies
      ensures Spared(client.id)
    {
      if client.transaction.savepoint.None? {
        client.Send([Notice("25P01"), Plain(if commit then "COMMIT" else "ROLLBACK")]);
        return;
      }
      var undo := !commit || client.transaction.failed;
      EndTransaction(client, undo, chain);
      client.Send([Plain(if undo then "ROLLBACK" else "COMMIT")]);
    }

    method RequireClientTransaction(client: ClientState) returns (allowed: bool)
      requires Serves(client)
      modifies client`sent
      ensures allowed <==> shared.Owned(client.id) && !shared.block.value.failed
      ensures client.sent == old(client.sent) +
        if !shared.Owned(client.id) then [Error("25P01")]
        else if shared.block.value.failed then [Error("25P02")]
        else []
    {
      allowed := false;
      if client.transaction.savepoint.None? {
        client.SendStatementError("25P01");
      } else if client.transaction.failed {
        client.SendStatementError("25P02");
      } else {
        allowed := true;
      }
    }

    method SavepointStatement(client: ClientState, name: string) returns (failed: bool)
      requires Quiet() && Serves(client)
      modifies this, backend, client`transaction, client`objectID, client`sent
      ensures Quiet() && Serves(client)
      ensures
        var turn := SavepointTurn(old(shared), client.id, name);
        shared == turn.next && failed == turn.failed && client.sent == old(client.sent) + turn.replies
      ensures Spared(client.id)
    {
      var allowed := RequireClientTransaction(client);
      if !allowed {
        return true;
      }
      DefineSavepoint(client, name);
      client.Send([Plain("SAVEPOINT")]);
      failed := false;
    }

    method RollbackToStatement(client: ClientState, name: string) returns (failed: bool)
      requires Quiet() && Serves(client)
      modifies this, backend, client`transaction, client`objectID, client`sent
      ensures Quiet() && Serves(client)
      ensures
        var turn := RollbackToTurn(old(shared), client.id, name);
        shared == turn.next && failed == turn.failed && client.sent == old(client.sent) + turn.replies
      ensures Spared(client.id)
    {
      if client.transaction.savepoint.None? {
        failed := Reject(client, "25P01", false);
        return;
      }
      var index := ClientSavepointIndex(client, name);
      if index < 0 {
        failed := Reject(client, "3B001", true);
        return;
      }
      RollbackToSavepoint(client, index);
      client.Send([Plain("ROLLBACK")]);
      failed := false;
    }

    method ReleaseStatement(client: ClientState, name: string) returns (failed: bool)
      requires Quiet() && Serves(client)
      modifies this, backend, client`transaction, client`objectID, client`sent
      ensures Quiet() && Serves(client)
      ensures
        var turn := ReleaseTurn(old(shared), client.id, name);
        shared == turn.next && failed == turn.failed && client.sent == old(client.sent) + turn.replies
      ensures Spared(client.id)
    {
      hide Balanced, Distinct;
      var allowed := RequireClientTransaction(client);
      if !allowed {
        return true;
      }
      var index := ClientSavepointIndex(client, name);
      if index < 0 {
        failed := Reject(client, "3B001", true);
        return;
      }
      ReleaseClientSavepoint(client, index);
      client.Send([Plain("RELEASE")]);
      failed := false;
    }

    method ExecuteTransactionControl(client: ClientState, kind: Kind) returns (failed: bool)
      requires Quiet() && Serves(client)
      requires !kind.Regular? && !kind.Forbidden?
      modifies this, backend, client`transaction, client`objectID, client`sent
      ensures Quiet() && Serves(client)
      ensures
        var turn := Control(old(shared), client.id, kind);
        shared == turn.next && failed == turn.failed && client.sent == old(client.sent) + turn.replies
      ensures Spared(client.id)
    {
      failed := false;
      if kind.Begin? {
        failed := Begin(client, kind.options);
      } else if kind.Commit? {
        Finish(client, true, kind.chain);
      } else if kind.Rollback? {
        Finish(client, false, kind.chain);
      } else if kind.Savepoint? {
        failed := SavepointStatement(client, kind.name);
      } else if kind.RollbackTo? {
        failed := RollbackToStatement(client, kind.name);
      } else {
        failed := ReleaseStatement(client, kind.name);
      }
    }

    /** One statement of a simple query, or one the proxy runs itself inside a cycle. */
    method ExecuteStatement(
      client: ClientState, statement: Statement,
      ghost top: seq<Frame>, ghost settled: Work, ghost noted: set<string>)
      returns (failed: bool)
      requires Linked(top) && !backend.aborted && Books(settled, noted) && Readable() && Serves(client)
      requires !statement.kind.Regular? ==> top == [] && settled == shared.work && noted == {} && Sampled()
      modifies this, backend, client`transaction, client`objectID, client`sent
      ensures Linked(top) && !backend.aborted && Readable() && Serves(client)
      ensures
        var turn := Step(old(shared), client.id, statement, settled);
        shared == turn.next && failed == turn.failed && client.sent == old(client.sent) + turn.replies
      ensures settled == old(shared).work ==> Books(shared.work, noted)
      ensures !failed && !old(shared).Leased(client.id) ==> Books(shared.work, noted)
      ensures Spared(client.id) && (old(Sampled()) ==> Sampled())
      ensures statement.kind.Regular? ==>
        && frames == old(frames) && old(uncertainEffects) <= uncertainEffects
        && (rowLedgerErr.None? ==> old(rowLedgerErr).None?)
        && SameBlock(old(client.transaction), client.transaction)
    {
      hide Balanced, Matches, Distinct, Fresh;
      ServesStatus(client);
      if statement.refusal != "" || statement.kind.Forbidden? {
        failed := RejectIn(client, "0A000", true, top, settled, noted);
      } else if client.transaction.failed && !statement.EndsBlock() {
        failed := RejectIn(client, "25P02", false, top, settled, noted);
      } else if !statement.kind.Regular? {
        failed := ExecuteTransactionControl(client, statement.kind);
      } else {
        failed := ExecuteLeased(client, statement.kind.query, top, settled, noted);
      }
    }

    lemma ServesStatus(client: ClientState)
      requires Serves(client)
      ensures client.transaction.savepoint.Some? <==> shared.Owned(client.id)
      ensures client.transaction.failed <==> shared.OwnedFailed(client.id)
    {
    }

    lemma LeaseStatus(client: ClientState)
      requires Quiet() && Serves(client)
      ensures SharedLeaseHeldByOther(client) <==> shared.Leased(client.id)
    {
    }

    /** While another client holds a block, reads are undone and writes refused. */
    method ExecuteLeased(
      client: ClientState, query: Query, ghost top: seq<Frame>, ghost settled: Work, ghost noted: set<string>)
      returns (failed: bool)
      requires Linked(top) && !backend.aborted && Books(settled, noted) && Readable() && Serves(client)
      modifies this, backend, client`transaction, client`objectID, client`sent
      ensures Linked(top) && !backend.aborted && Readable() && Serves(client)
      ensures
        var s := old(shared);
        var turn :=
          if s.Escaping(client.id) then Rejected(s, "55P03")
          else if s.Leased(client.id) && !query.readOnly then Rejected(s, "55P03")
          else Run(s, client.id, query, s.Leased(client.id), settled);
        shared == turn.next && failed == turn.failed && client.sent == old(client.sent) + turn.replies
      ensures settled == old(shared).work ==> Books(shared.work, noted)
      ensures !failed && !old(shared).Leased(client.id) ==> Books(shared.work, noted)
      ensures Spared(client.id) && (old(Sampled()) ==> Sampled())
      ensures frames == old(frames) && old(uncertainEffects) <= uncertainEffects
      ensures rowLedgerErr.None? ==> old(rowLedgerErr).None?
      ensures SameBlock(old(client.transaction), client.transaction)
    {
      hide Balanced, Distinct;
      if EscapeLeaseHeldByOther(client) {
        failed := RejectIn(client, "55P03", false, top, settled, noted);
        return;
      }
      var leased := SharedLeaseHeldByOther(client);
      if leased && !query.readOnly {
        failed := RejectIn(client, "55P03", false, top, settled, noted);
        return;
      }
      ServesStatus(client);
      ghost var before, block := client.transaction, shared.block;
      ghost var uncertain, intact := uncertainEffects, rowLedgerErr.None?;
      failed := ExecuteRegular(client, query, leased, top, settled, noted);
      FollowsExtended(before, client.id, frames, block, uncertain, intact, uncertainEffects, rowLedgerErr.None?);
    }

    /* Simple queries. */

    /** The statements of one query, up to the first that fails. */
    method RunStatements(client: ClientState, statements: seq<Statement>, ghost top: seq<Frame>)
      returns (failed: bool)
      requires Linked(top) && !backend.aborted && Books(shared.work, {}) && Readable() && Serves(client) && Sampled()
      requires top != [] ==> AllRegular(statements)
      modifies this, backend, client`transaction, client`objectID, client`sent
      ensures Linked(top) && !backend.aborted && Books(shared.work, {}) && Readable() && Serves(client) && Sampled()
      ensures
        var turn := Steps(old(shared), client.id, statements);
        shared == turn.next && failed == turn.failed && client.sent == old(client.sent) + turn.replies
      ensures Spared(client.id)
      ensures AllRegular(statements) ==>
        frames == old(frames) && old(uncertainEffects) <= uncertainEffects &&
        (rowLedgerErr.None? ==> old(rowLedgerErr).None?)
    {
      hide SharedSession.Step, SharedSession.Steps, Ran;
      failed := false;
      ghost var start, sent := shared, client.sent;
      ghost var replies: seq<Reply> := [];
      var index := 0;
      RanStart(start, client.id, statements);
      while index < |statements| && !failed
        invariant 0 <= index <= |statements|
        invariant Linked(top) && !backend.aborted && Books(shared.work, {}) && Readable() && Serves(client) && Sampled()
        invariant client.sent == sent + replies
        invariant Ran(start, client.id, statements, index, Turn(shared, replies, failed))
        invariant Spared(client.id) && (old(Foreign(client.id)) ==> Foreign(client.id))
        invariant AllRegular(statements) ==>
          frames == old(frames) && old(uncertainEffects) <= uncertainEffects &&
          (rowLedgerErr.None? ==> old(rowLedgerErr).None?)
        decreases |statements| - index, if failed then 0 else 1
      {
        ghost var before := shared;
        ForeignKept(before, client.id, statements[index], before.work);
        RanStep(start, client.id, statements, index, before, replies);
        failed := ExecuteStatement(client, statements[index], top, shared.work, {});
        replies := replies + Step(before, client.id, statements[index], before.work).replies;
        index := index + 1;
      }
      RanEnd(start, client.id, statements, index, Turn(shared, replies, failed));
    }

    method AllRegularStatements(statements: seq<Statement>) returns (all: bool)
      ensures all <==> AllRegular(statements)
    {
      for index := 0 to |statements|
        invariant forall i :: 0 <= i < index ==> statements[i].kind.Regular?
      {
        if !statements[index].kind.Regular? {
          return false;
        }
      }
      return true;
    }

    /** Several ordinary statements outside a block run under one more savepoint. */
    method RunBatch(client: ClientState, statements: seq<Statement>) returns (failed: bool)
      requires Quiet() && Serves(client) && !shared.Owned(client.id) && AllRegular(statements)
      modifies this, backend, client`transaction, client`objectID, client`sent
      ensures Quiet() && Serves(client)
      ensures
        var turn := Steps(old(shared), client.id, statements);
        && shared == (if turn.failed then turn.next.(work := old(shared).work) else turn.next)
        && failed == turn.failed && client.sent == old(client.sent) + turn.replies
      ensures Spared(client.id)
    {
      hide SharedSession.Step, SharedSession.Steps, Distinct, Agrees;
      var batch := PushSavepoint(client, 'b', []);
      var rows, length := rowLedger, |uncertainEffects|;
      ghost var work, uncertain := shared.work, uncertainEffects;
      StepsUnowned(shared, client.id, statements);
      failed := RunStatements(client, statements, [] + [Frame(batch, work)]);
      FinishBatch(client, batch, failed, rows, length, work, uncertain);
    }

    method FinishBatch(
      client: ClientState, batch: ObjectName, failed: bool, rows: Ledger, length: nat,
      ghost work: Work, ghost uncertain: seq<string>)
      requires Linked([] + [Frame(batch, work)]) && !backend.aborted && Books(shared.work, {}) && Readable()
      requires Serves(client) && !shared.Owned(client.id) && Sampled()
      requires uncertain <= uncertainEffects && length == |uncertain| && Elements(uncertain) == Risks(work.writes)
      requires rowLedgerErr.None? ==> Agrees(rows, work.writes)
      modifies this, backend
      ensures Quiet() && Serves(client)
      ensures shared == if failed then old(shared).(work := work) else old(shared)
      ensures frames == old(frames) && uncertainEffects == if failed then uncertain else old(uncertainEffects)
      ensures rowLedgerErr.None? ==>
        old(rowLedgerErr).None? && rowLedger == if failed then rows else old(rowLedger)
    {
      hide Distinct, Fresh, Balanced, Agrees;
      if failed {
        assert uncertainEffects[..length] == uncertain;
        UndoSavepoint(client, batch, [], work);
        RestoreBooks(rows, length, work);
      } else {
        ReleaseSavepoint(client, batch, [], work);
      }
    }

    method FinishSimpleQuery(client: ClientState)
      requires Serves(client)
      modifies client`sent
      ensures client.sent == old(client.sent) + [Ready(shared.Status(client.id))]
    {
      ServesStatus(client);
      client.Send([Ready(client.TransactionStatus())]);
    }

    method RunSimpleQuery(client: ClientState, parsed: seq<Statement>)
      requires Idle() && Serves(client)
      modifies this, backend, client`transaction, client`objectID, client`sent
      ensures Idle() && Serves(client)
      ensures
        var turn := Simple(old(shared), client.id, parsed);
        shared == turn.next && client.sent == old(client.sent) + turn.replies
      ensures Spared(client.id)
    {
      hide SharedSession.Step, SharedSession.Steps, Follows, Fresh, Distinct, BooksOn, Ran;
      var statements := if parsed == [] then [EMPTY_STATEMENT] else parsed;
      StepsKeepCycle(shared, client.id, statements);
      ServesStatus(client);
      var regular := AllRegularStatements(statements);
      var failed;
      if client.transaction.savepoint.None? && |statements| > 1 && regular {
        failed := RunBatch(client, statements);
      } else {
        failed := RunStatements(client, statements, []);
      }
      FinishSimpleQuery(client);
    }

    /* Extended-query cycles. */

    /** A client between its first extended message and its Sync. Below its cycle
        savepoint nothing has changed; once the cycle failed only that matters. */
    ghost predicate Cycling(client: ClientState)
      reads this, backend, client
    {
      && shared.cycle.Some?
      && client.extendedFailed == shared.cycle.value.failed
      && client.rollbackCycle == shared.cycle.value.doomed
      && Sheltered(client, shared.cycle.value)
    }

    ghost predicate Sheltered(client: ClientState, cycle: Cycle)
      reads this, backend, client
    {
      && Serves(client) && Readable()
      && cycle.client == client.id && client.extended
      && client.cycleSavepoint.Some?
      && Linked([Frame(client.cycleSavepoint.value, cycle.mark)])
      && CycleBooks(client, cycle)
    }

    ghost predicate CycleBooks(client: ClientState, cycle: Cycle)
      reads this, backend, client`transaction, client`cycleUncertainBase, client`cycleRows, client`cycleUncertain
    {
      && Noted(uncertainEffects, client.cycleUncertainBase, cycle.mark)
      && Within(client.transaction, client.cycleUncertainBase)
      && (rowLedgerErr.None? ==> Agrees(client.cycleRows, cycle.mark.writes))
      && (!cycle.failed ==> !backend.aborted && Books(cycle.settled, Elements(client.cycleUncertain)))
      && (Foreign(client.id) ==>
            && |uncertainEffects| == client.cycleUncertainBase && (cycle.Keeps() ==> client.cycleUncertain == [])
            && (rowLedgerErr.None? ==> rowLedger == client.cycleRows) && (cycle.Keeps() ==> Sampled()))
    }

    /** Opens a cycle savepoint and remembers the books. */
    method OpenCycle(client: ClientState)
      requires Quiet() && Serves(client)
      modifies this`shared, backend`names, backend`saved, backend`stack, client`objectID, client`extended,
        client`cycleSavepoint, client`cycleRows, client`cycleUncertainBase, client`cycleUncertain
      ensures
        var s := old(shared);
        shared == s.(
          cycle := Some(Cycle(client.id, s.work, s.work, client.extendedFailed, client.rollbackCycle)))
      ensures Cycling(client)
    {
      var name := PushSavepoint(client, 'x', []);
      client.cycleSavepoint := Some(name);
      client.cycleRows := rowLedger;
      client.cycleUncertainBase := |uncertainEffects|;
      client.cycleUncertain := [];
      client.extended := true;
      assert uncertainEffects[..|uncertainEffects|] == uncertainEffects;
      assert [] + [Frame(name, shared.work)] == [Frame(name, shared.work)];
      assert Elements([]) == {};
      shared := shared.(
        cycle := Some(Cycle(client.id, shared.work, shared.work, client.extendedFailed, client.rollbackCycle)));
    }

    method StartExtended(client: ClientState)
      requires Idle() && Serves(client)
      modifies this`shared, backend`names, backend`saved, backend`stack, client
      ensures shared == StartCycle(old(shared), client.id)
      ensures Cycling(client) && client.sent == old(client.sent)
    {
      client.extendedFailed, client.rollbackCycle := false, false;
      OpenCycle(client);
    }

    method AddDetails(details: seq<string>)
      requires "" !in details
      modifies this`uncertainEffects
      ensures Elements(uncertainEffects) == Elements(old(uncertainEffects)) + Elements(details)
      ensures old(uncertainEffects) <= uncertainEffects
      ensures details == [] ==> uncertainEffects == old(uncertainEffects)
    {
      for index := 0 to |details|
        invariant Elements(uncertainEffects) == Elements(old(uncertainEffects)) + Elements(details[..index])
        invariant old(uncertainEffects) <= uncertainEffects
        invariant details == [] ==> uncertainEffects == old(uncertainEffects)
      {
        assert details[..index + 1] == details[..index] + [details[index]];
        ElementsAppend(uncertainEffects, details[index]);
        AddUncertainEffect(details[index]);
      }
      assert details[..|details|] == details;
    }

    /** Settles the books of a cycle that is kept. */
    method SettleCycle(details: seq<string>, ghost settled: Work)
      requires Readable() && Books(settled, Elements(details))
      modifies this`uncertainEffects, this`rowStats, this`rowLedger, this`rowLedgerErr, backend`unread
      ensures Readable() && Books(shared.work, {}) && Sampled()
      ensures old(Sampled()) && rowLedgerErr.None? ==> rowLedger == old(rowLedger)
      ensures rowLedgerErr.None? ==> old(rowLedgerErr).None?
      ensures old(uncertainEffects) <= uncertainEffects
      ensures details == [] ==> uncertainEffects == old(uncertainEffects)
    {
      ghost var ledger, sampled := rowLedger, rowStats;
      RisksNamed(shared.work.writes);
      assert "" !in details by {
        assert "" in details ==> "" in Elements(details);
      }
      AddDetails(details);
      if details != [] {
        assert details[0] in Elements(details);
        assert Risks(shared.work.writes) != {};
      }
      ReconcileRowChanges(details == []);
      if rowLedgerErr.None? {
        if details == [] {
          Settles(rowLedger, ledger, backend.counters, sampled, shared.work.writes);
        }
        Resampled(rowLedger, backend.counters, shared.work.writes);
      }
    }

    /** Ends a cycle savepoint: what it protects is kept, or undone with the books. */
    method CloseCycle(client: ClientState)
      requires Cycling(client)
      modifies this, backend, client`cycleSavepoint, client`cycleRows, client`cycleUncertainBase, client`cycleUncertain
      ensures Quiet() && Serves(client)
      ensures shared == old(shared).(work := Kept(old(shared)))
      ensures frames == old(frames)
      ensures Spared(client.id)
    {
      var keep := !client.extendedFailed && !client.rollbackCycle;
      if keep {
        KeepCycle(client);
      } else {
        UndoCycle(client);
      }
      client.cycleSavepoint := None;
      client.cycleRows := map[];
      client.cycleUncertainBase := 0;
      client.cycleUncertain := [];
    }

    method KeepCycle(client: ClientState)
      requires Cycling(client) && shared.cycle.value.Keeps()
      modifies this, backend`names, backend`saved, backend`stack, backend`aborted, backend`unread
      ensures Quiet() && Serves(client)
      ensures shared == old(shared) && frames == old(frames)
      ensures Spared(client.id)
    {
      ghost var cycle := shared.cycle.value;
      ghost var uncertain, intact := uncertainEffects, rowLedgerErr.None?;
      assert [] + [Frame(client.cycleSavepoint.value, cycle.mark)] == [Frame(client.cycleSavepoint.value, cycle.mark)];
      ReleaseSavepoint(client, client.cycleSavepoint.value, [], cycle.mark);
      SettleCycle(client.cycleUncertain, cycle.settled);
      FollowsExtended(client.transaction, client.id, frames, shared.block, uncertain, intact,
                      uncertainEffects, rowLedgerErr.None?);
    }

    method UndoCycle(client: ClientState)
      requires Cycling(client)
      modifies this, backend
      ensures Quiet() && Serves(client)
      ensures shared == old(shared).(work := old(shared).cycle.value.mark) && frames == old(frames)
      ensures Spared(client.id)
    {
      ghost var cycle := shared.cycle.value;
      ghost var uncertain, intact := uncertainEffects, rowLedgerErr.None?;
      assert [] + [Frame(client.cycleSavepoint.value, cycle.mark)] == [Frame(client.cycleSavepoint.value, cycle.mark)];
      UndoSavepoint(client, client.cycleSavepoint.value, [], cycle.mark);
      RestoreBooks(client.cycleRows, client.cycleUncertainBase, cycle.mark);
      FollowsWithin(client.transaction, client.id, frames, shared.block, uncertain, intact,
                    client.cycleUncertainBase, rowLedgerErr.None?);
    }

    method FinishExtendedCycle(client: ClientState)
      requires Cycling(client)
      modifies this, backend, client`cycleSavepoint, client`cycleRows, client`cycleUncertainBase, client`cycleUncertain,
        client`extended, client`extendedFailed, client`rollbackCycle, client`transaction
      ensures Idle() && Serves(client) && !client.extended
      ensures shared == FinishCycle(old(shared)) && frames == old(frames)
      ensures Spared(client.id)
    {
      CloseCycle(client);
      EndCycle(client);
    }

    method EndCycle(client: ClientState)
      requires Quiet() && Serves(client) && shared.cycle.Some?
      modifies this`shared, client`extended, client`extendedFailed, client`rollbackCycle, client`transaction
      ensures Idle() && Serves(client) && !client.extended
      ensures
        var ended := old(shared).(cycle := None);
        shared == if old(client.extendedFailed) then ended.Fail(client.id) else ended
    {
      hide BooksOn, Follows, Fresh, Matches;
      shared := shared.(cycle := None);
      if client.extendedFailed {
        FailBlock(client, []);
      }
      client.extended, client.extendedFailed, client.rollbackCycle := false, false, false;
    }

    /** An error of the proxy's own inside a cycle fails the cycle. */
    method ExtendedLocalError(client: ClientState, code: string)
      requires Cycling(client)
      modifies this`shared, client`sent, client`extendedFailed
      ensures Cycling(client)
      ensures
        var turn := CycleError(old(shared), code);
        shared == turn.next && client.sent == old(client.sent) + turn.replies
    {
      client.SendStatementError(code);
      FailCycle(client);
    }

    method FailCycle(client: ClientState)
      requires Cycling(client)
      modifies this`shared, client`extendedFailed
      ensures Cycling(client)
      ensures shared == old(shared).(cycle := Some(old(shared).cycle.value.(failed := true)))
    {
      client.extendedFailed := true;
      shared := shared.(cycle := Some(shared.cycle.value.(failed := true)));
    }

    /** A read while another client has a block: the cycle will be rolled back. */
    method DoomCycle(client: ClientState)
      requires Cycling(client)
      modifies this`shared, client`rollbackCycle
      ensures Cycling(client)
      ensures shared == old(shared).(cycle := Some(old(shared).cycle.value.(doomed := true)))
    {
      client.rollbackCycle := true;
      shared := shared.(cycle := Some(shared.cycle.value.(doomed := true)));
    }

    /** Transaction control inside a cycle runs between two cycle savepoints. */
    method RotateAround(client: ClientState, statement: Statement)
      requires Cycling(client) && !client.extendedFailed && !statement.kind.Regular?
      modifies this, backend, client
      ensures Cycling(client)
      ensures
        var turn := ExecuteControl(old(shared), statement);
        shared == turn.next && client.sent == old(client.sent) + turn.replies
      ensures Spared(client.id)
    {
      hide Agrees, AgreesPending, Ahead, BooksOn, SaveFollows, Ascending, Distinct, Fresh;
      hide SharedSession.Step;
      CloseCycle(client);
      ghost var work := shared.work;
      var failed := ExecuteStatement(client, statement, [], work, {});
      OpenCycle(client);
      if failed {
        FailCycle(client);
      }
    }

    /** A refusal or a TRUNCATE runs as in a simple query, above the cycle savepoint. */
    method RunLocally(client: ClientState, statement: Statement)
      requires Cycling(client) && !client.extendedFailed && statement.kind.Regular?
      requires statement.refusal == "" ==> statement.kind.query.truncates != {}
      modifies this, backend, client
      ensures Cycling(client)
      ensures
        var turn := ExecuteLocal(old(shared), statement);
        shared == turn.next && client.sent == old(client.sent) + turn.replies
      ensures Spared(client.id)
    {
      hide SharedSession.Step, BooksOn, Noted, Within, Agrees, Follows, Fresh, Matches, Distinct;
      ghost var cycle := shared.cycle.value;
      var failed := RunSheltered(client, statement);
      if failed {
        client.extendedFailed := true;
      }
      shared := shared.(
        cycle := Some(cycle.(settled := if failed then cycle.settled else shared.work, failed := failed)));
    }

    method RunSheltered(client: ClientState, statement: Statement) returns (failed: bool)
      requires Cycling(client) && !client.extendedFailed && statement.kind.Regular?
      requires statement.refusal == "" ==> statement.kind.query.truncates != {}
      modifies this, backend, client`transaction, client`objectID, client`sent
      ensures
        var cycle := old(shared).cycle.value;
        Sheltered(client, cycle.(settled := if failed then cycle.settled else shared.work, failed := failed))
      ensures
        var turn := Step(old(shared), client.id, statement, old(shared).cycle.value.settled);
        shared == turn.next && failed == turn.failed && client.sent == old(client.sent) + turn.replies
      ensures Spared(client.id)
    {
      ghost var cycle := shared.cycle.value;
      LocalUnleased(shared, client.id, statement, cycle.settled);
      hide SharedSession.Step, BooksOn, Follows, Fresh, Matches, Distinct, Noted, Within, Agrees;
      ghost var before, uncertain := client.transaction, uncertainEffects;
      ghost var top := [Frame(client.cycleSavepoint.value, cycle.mark)];
      failed := ExecuteStatement(client, statement, top, cycle.settled, Elements(client.cycleUncertain));
      MarkKept(uncertain, uncertainEffects, client.cycleUncertainBase, cycle.mark, before, client.transaction);
    }

    /** An ordinary statement runs on the backend without a savepoint of its own. */
    method RunUnprotected(
      client: ClientState, query: Query, ghost top: seq<Frame>, ghost settled: Work, ghost noted: set<string>)
      returns (failed: bool, applies: bool)
      requires Linked(top) && !backend.aborted && Books(settled, noted) && query.truncates == {}
      modifies this`shared, client`sent, backend`data, backend`counters, backend`aborted, backend`work
      ensures Linked(top) && (!failed ==> !backend.aborted)
      ensures
        var outcome := query.run(old(shared).work.data);
        && failed == !outcome.ok
        && client.sent == old(client.sent) + outcome.Replies()
        && shared == if failed then old(shared) else old(shared).(work := Advanced(old(shared).work, query, map[]))
      ensures !failed ==> Books(settled, noted + if applies then {query.risk} else {})
      ensures applies ==> query.risk != ""
    {
      hide Balanced;
      ghost var work, counters := shared.work, backend.counters;
      var outcome := RunOnBackend(client, query, map[], top);
      failed := !outcome.ok;
      applies := SummaryRiskApplies(query.risk, query.riskRequiresRows, outcome.tags);
      if !failed {
        BalancedPlain(query, work, uncertainEffects, rowLedgerErr.None?, rowLedger, counters, rowStats,
                      settled.writes, noted);
      }
    }

    method RunInCycle(client: ClientState, query: Query)
      requires Cycling(client) && !client.extendedFailed && query.truncates == {}
      requires Foreign(client.id) ==> client.rollbackCycle
      modifies this`shared, client`sent, client`extendedFailed, client`cycleUncertain,
        backend`data, backend`counters, backend`aborted, backend`work
      ensures Cycling(client)
      ensures
        var turn := ExecutePlain(old(shared), query);
        shared == turn.next && client.sent == old(client.sent) + turn.replies
    {
      hide BooksOn, Follows, Fresh, Distinct, Noted, Within;
      ghost var cycle := shared.cycle.value;
      ghost var top, noted := [Frame(client.cycleSavepoint.value, cycle.mark)], Elements(client.cycleUncertain);
      var failed, applies := RunUnprotected(client, query, top, cycle.settled, noted);
      if failed {
        client.extendedFailed := true;
        shared := shared.(cycle := Some(cycle.(failed := true)));
      } else if applies {
        ElementsAppend(client.cycleUncertain, query.risk);
        client.cycleUncertain := client.cycleUncertain + [query.risk];
      } else {
        assert noted + {} == noted;
      }
    }

    /** What the client's own fields say of the shared view inside its cycle. */
    lemma CyclingStatus(client: ClientState)
      requires Cycling(client)
      ensures shared.cycle.value.client == client.id
      ensures EscapeLeaseHeldByOther(client) <==> shared.Escaping(client.id)
      ensures SharedLeaseHeldByOther(client) <==> shared.Leased(client.id)
      ensures client.transaction.failed <==> shared.OwnedFailed(client.id)
    {
      ServesStatus(client);
      hide CycleBooks, Distinct, Fresh, Follows;
    }

    method ExtendedExecute(client: ClientState, statement: Statement)
      requires Cycling(client)
      modifies this, backend, client
      ensures Cycling(client)
      ensures
        var turn := Execute(old(shared), statement);
        shared == turn.next && client.sent == old(client.sent) + turn.replies
      ensures Spared(client.id)
    {
      CyclingStatus(client);
      hide SharedSession.Step, Sheltered, ExecuteControl, ExecuteLocal, ExecutePlain;
      if client.extendedFailed {
        return;
      }
      if statement.kind.Regular? && EscapeLeaseHeldByOther(client) {
        ExtendedLocalError(client, "55P03");
        return;
      }
      if statement.kind.Regular? && SharedLeaseHeldByOther(client) {
        if !statement.kind.query.readOnly {
          ExtendedLocalError(client, "55P03");
          return;
        }
        DoomCycle(client);
      }
      CyclingStatus(client);
      if client.transaction.failed && !statement.EndsBlock() {
        ExtendedLocalError(client, "25P02");
      } else if !statement.kind.Regular? {
        RotateAround(client, statement);
      } else if statement.refusal != "" || statement.kind.query.truncates != {} {
        RunLocally(client, statement);
      } else {
        RunInCycle(client, statement.kind.query);
      }
    }

    /* Messages. */

    /** A client may send when the session lock is free or its own cycle holds it. */
    ghost predicate Attends(client: ClientState)
      reads this, backend, client
    {
      && (shared.cycle.None? ==> Idle() && Serves(client) && !client.extended)
      && (shared.cycle.Some? ==> Cycling(client))
    }

    method EndOpenCycle(client: ClientState)
      requires Attends(client)
      modifies this, backend, client`cycleSavepoint, client`cycleRows, client`cycleUncertainBase, client`cycleUncertain,
        client`extended, client`extendedFailed, client`rollbackCycle, client`transaction
      ensures Idle() && Serves(client) && !client.extended
      ensures shared == Synced(old(shared)) && frames == old(frames)
      ensures Spared(client.id)
    {
      if client.extended {
        FinishExtendedCycle(client);
      }
    }

    method RelayQuery(client: ClientState, parsed: Option<seq<Statement>>)
      requires Attends(client)
      modifies this, backend, client
      ensures Attends(client)
      ensures
        var idle := Synced(old(shared));
        var turn := if parsed.Some? then Simple(idle, client.id, parsed.value) else Unparsed(idle, client.id);
        shared == turn.next && client.sent == old(client.sent) + turn.replies
      ensures Spared(client.id)
    {
      hide Simple, Quiet, Cycling, Follows, Fresh;
      EndOpenCycle(client);
      if parsed.Some? {
        RunSimpleQuery(client, parsed.value);
      } else {
        var failed := Reject(client, "42601", true);
        FinishSimpleQuery(client);
      }
    }

    /** Every extended message but Sync opens a cycle if none is open. */
    method EnterCycle(client: ClientState)
      requires Attends(client)
      modifies this`shared, backend`names, backend`saved, backend`stack, client
      ensures Cycling(client) && client.sent == old(client.sent)
      ensures shared == InCycle(old(shared), client.id)
    {
      if !client.extended {
        StartExtended(client);
      }
    }

    method RelayExecute(client: ClientState, statement: Statement)
      requires Attends(client)
      modifies this, backend, client
      ensures Attends(client)
      ensures
        var turn := Execute(InCycle(old(shared), client.id), statement);
        shared == turn.next && client.sent == old(client.sent) + turn.replies
      ensures Spared(client.id)
    {
      hide Execute;
      EnterCycle(client);
      ExtendedExecute(client, statement);
    }

    /** An extended message the proxy answers with an error of its own. */
    method RelayBadExtended(client: ClientState, code: string)
      requires Attends(client)
      modifies this`shared, backend`names, backend`saved, backend`stack, client
      ensures Attends(client)
      ensures
        var cycling := InCycle(old(shared), client.id);
        var turn := if cycling.cycle.value.failed then Turn(cycling, [], true) else CycleError(cycling, code);
        shared == turn.next && client.sent == old(client.sent) + turn.replies
    {
      EnterCycle(client);
      if !client.extendedFailed {
        ExtendedLocalError(client, code);
      }
    }

    method RelaySync(client: ClientState)
      requires Attends(client)
      modifies this, backend, client
      ensures Attends(client)
      ensures
        var next := Synced(old(shared));
        shared == next && client.sent == old(client.sent) + [Ready(next.Status(client.id))]
      ensures Spared(client.id)
    {
      EndOpenCycle(client);
      FinishSimpleQuery(client);
    }

    /* Statements approved to run outside the transaction. */

    method EscapeRejected(client: ClientState, code: string, fails: bool)
      requires Idle() && Serves(client) && !client.extended
      modifies client`sent, client`transaction, this`shared
      ensures Attends(client)
      ensures
        var next := if fails then old(shared).Fail(client.id) else old(shared);
        shared == next && client.sent == old(client.sent) + [Error(code), Ready(next.Status(client.id))]
    {
      var failed := Reject(client, code, fails);
      FinishSimpleQuery(client);
    }

    method RequestEscape(client: ClientState, refusal: string)
      requires Attends(client)
      modifies this, backend, client
      ensures Attends(client)
      ensures
        var turn := Request(Synced(old(shared)), client.id, refusal);
        shared == turn.next && client.sent == old(client.sent) + turn.replies
      ensures Spared(client.id)
    {
      hide Quiet, Cycling, Follows, Fresh;
      EndOpenCycle(client);
      ServesStatus(client);
      LeaseStatus(client);
      if refusal != "" {
        EscapeRejected(client, "0A000", true);
      } else if client.transaction.failed {
        EscapeRejected(client, "25P02", false);
      } else if SharedLeaseHeldByOther(client) {
        EscapeRejected(client, "55P03", false);
      }
    }

    /** Takes the right to run outside the transaction, unless it was declined, the session
        state could not be read or a lock conflicts. Who holds the right is not looked at;
        whether changes are uncommitted is looked at afterwards, when it ends. */
    method GrantEscape(client: ClientState, error: string)
      requires Attends(client)
      modifies this, backend, client
      ensures Attends(client)
      ensures
        var idle := Synced(old(shared));
        var turn :=
          if error == "" then Turn(idle.(escape := client.id), [], false) else EscapeError(idle, client.id, error);
        shared == turn.next && client.sent == old(client.sent) + turn.replies
      ensures Spared(client.id)
    {
      hide Quiet, Cycling, Follows, Fresh;
      EndOpenCycle(client);
      if error != "" {
        ReturnEscape(client);
        EscapeRejected(client, error, true);
        return;
      }
      TakeEscape(client);
    }

    method TakeEscape(client: ClientState)
      requires Idle() && Serves(client)
      modifies this`escapeClient, this`shared
      ensures Idle() && Serves(client) && shared == old(shared).(escape := client.id)
    {
      escapeClient := client.id;
      shared := shared.(escape := client.id);
    }

    method ReturnEscape(client: ClientState)
      requires Idle() && Serves(client)
      modifies this`escapeClient, this`shared
      ensures Idle() && Serves(client) && shared == old(shared).Returned(client.id)
    {
      if escapeClient == client.id {
        escapeClient := 0;
      }
      shared := shared.Returned(client.id);
    }

    method EndEscape(client: ClientState, error: string, replies: seq<Reply>)
      requires Attends(client)
      modifies this, backend, client
      ensures Attends(client)
      ensures
        var idle := Synced(old(shared));
        var turn :=
          if error == "" then Turn(idle.Returned(client.id), replies + [Ready(idle.Status(client.id))], false)
          else EscapeError(idle, client.id, error);
        shared == turn.next && client.sent == old(client.sent) + turn.replies
      ensures Spared(client.id)
    {
      hide Quiet, Cycling, Follows, Fresh;
      EndOpenCycle(client);
      ReturnEscape(client);
      if error != "" {
        EscapeRejected(client, error, true);
        return;
      }
      client.Send(replies);
      FinishSimpleQuery(client);
    }

    /** A client that goes away loses its unfinished cycle and its open block. */
    method CleanupClient(client: ClientState)
      requires Attends(client)
      modifies this, backend, client
      ensures Attends(client) && shared.cycle.None? && client.transaction == NO_TRANSACTION
      ensures shared == Disconnect(old(shared), client.id) && client.sent == old(client.sent)
      ensures Spared(client.id)
    {
      hide Quiet, Fresh, CycleBooks;
      if client.extended {
        AbandonCycle(client);
      }
      ServesStatus(client);
      if client.transaction.savepoint.Some? {
        EndTransaction(client, true, false);
      }
    }

    method AbandonCycle(client: ClientState)
      requires Cycling(client)
      modifies this, backend, client
      ensures Idle() && Serves(client) && !client.extended && client.sent == old(client.sent)
      ensures shared == old(shared).(work := old(shared).cycle.value.mark, cycle := None)
      ensures Spared(client.id)
    {
      UndoCycle(client);
      shared := shared.(cycle := None);
      client.extended := false;
      client.cycleSavepoint, client.cycleRows := None, map[];
      client.cycleUncertainBase, client.cycleUncertain := 0, [];
    }

    /** Handles one message while the session lock is held. */
    method HandleMessage(client: ClientState, message: Message)
      requires Attends(client)
      modifies this, backend, client
      ensures Attends(client)
      ensures
        var turn := Handle(old(shared), Event(client.id, message));
        shared == turn.next && client.sent == old(client.sent) + turn.replies
      ensures Spared(client.id)
    {
      hide Simple, Execute, CycleError, EscapeError, Request, Synced, InCycle, Disconnect;
      match message {
        case SimpleQuery(statements) => RelayQuery(client, Some(statements));
        case BadQuery => RelayQuery(client, None);
        case ExecuteMessage(statement) => RelayExecute(client, statement);
        case BadExtended(code) => RelayBadExtended(client, code);
        case SyncMessage => RelaySync(client);
        case EscapeRequest(refusal) => RequestEscape(client, refusal);
        case EscapeGrant(error) => GrantEscape(client, error);
        case EscapeEnd(error, replies) => EndEscape(client, error, replies);
        case Terminate => CleanupClient(client);
      }
    }
  }

  /** No savepoint of the block remembers more uncertain effects than this. */
  ghost predicate Within(transaction: Transaction, length: nat) {
    && transaction.uncertain <= length
    && forall i :: 0 <= i < |transaction.saves| ==> transaction.saves[i].uncertain <= length
  }

  lemma MarkKept(
    uncertain: seq<string>, longer: seq<string>, length: nat, mark: Work, before: Transaction, after: Transaction)
    requires Noted(uncertain, length, mark) && uncertain <= longer
    requires Within(before, length) && SameBlock(before, after)
    ensures Noted(longer, length, mark) && Within(after, length)
  {
  }

  lemma FollowsWithin(
    transaction: Transaction, id: nat, frames: seq<Frame>, block: Option<Block>,
    uncertain: seq<string>, intact: bool, length: nat, still: bool)
    requires Matches(frames, block) && Follows(transaction, id, frames, block, uncertain, intact)
    requires Within(transaction, length) && length <= |uncertain| && (still ==> intact)
    ensures Follows(transaction, id, frames, block, uncertain[..length], still)
  {
    assert forall k :: 0 <= k <= length ==> uncertain[..length][..k] == uncertain[..k];
  }

  /** How far a query has come: what is left to do from here completes it. */
  ghost predicate Ran(start: Shared, client: nat, statements: seq<Statement>, index: nat, turn: Turn)
    requires index <= |statements|
  {
    Steps(start, client, statements) ==
    if turn.failed then turn
    else
      var rest := Steps(turn.next, client, statements[index..]);
      Turn(rest.next, turn.replies + rest.replies, rest.failed)
  }

  lemma RanStart(start: Shared, client: nat, statements: seq<Statement>)
    ensures Ran(start, client, statements, 0, Turn(start, [], false))
  {
    hide SharedSession.Steps;
    assert statements[0..] == statements;
    var rest := Steps(start, client, statements);
    assert [] + rest.replies == rest.replies;
  }

  lemma RanEnd(start: Shared, client: nat, statements: seq<Statement>, index: nat, turn: Turn)
    requires index <= |statements| && Ran(start, client, statements, index, turn)
    requires turn.failed || index == |statements|
    ensures Steps(start, client, statements) == turn
  {
    hide SharedSession.Step;
    assert statements[|statements|..] == [];
    assert turn.replies + [] == turn.replies;
  }

  lemma RanStep(
    start: Shared, client: nat, statements: seq<Statement>, index: nat, s: Shared, replies: seq<Reply>)
    requires index < |statements| && Ran(start, client, statements, index, Turn(s, replies, false))
    ensures
      var turn := Step(s, client, statements[index], s.work);
      Ran(start, client, statements, index + 1, Turn(turn.next, replies + turn.replies, turn.failed))
  {
    hide SharedSession.Step;
    var left := statements[index..];
    assert left[0] == statements[index] && left[1..] == statements[index + 1..];
    var turn := Step(s, client, statements[index], s.work);
    if !turn.failed {
      var rest := Steps(turn.next, client, left[1..]);
      assert replies + (turn.replies + rest.replies) == (replies + turn.replies) + rest.replies;
    }
  }

  /** A statement of one client leaves another client's open block and the staged work alone. */
  lemma ForeignKept(s: Shared, client: nat, statement: Statement, settled: Work)
    ensures s.block.Some? && s.block.value.client != client ==>
      Step(s, client, statement, settled).next == s
  {
  }

  lemma {:induction false} StepsKeepCycle(s: Shared, client: nat, statements: seq<Statement>)
    ensures Steps(s, client, statements).next.cycle == s.cycle
    decreases |statements|
  {
    if statements != [] {
      StepKeepsCycle(s, client, statements[0]);
      StepsKeepCycle(Step(s, client, statements[0], s.work).next, client, statements[1..]);
    }
  }

  lemma StepKeepsCycle(s: Shared, client: nat, statement: Statement)
    ensures Step(s, client, statement, s.work).next.cycle == s.cycle
  {
  }

  lemma {:induction false} StepsUnowned(s: Shared, client: nat, statements: seq<Statement>)
    requires !s.Owned(client) && AllRegular(statements)
    ensures Steps(s, client, statements).next.block == s.block
    decreases |statements|
  {
    if statements != [] {
      StepUnowned(s, client, statements[0]);
      StepsUnowned(Step(s, client, statements[0], s.work).next, client, statements[1..]);
    }
  }

  lemma StepUnowned(s: Shared, client: nat, statement: Statement)
    requires !s.Owned(client) && statement.kind.Regular?
    ensures Step(s, client, statement, s.work).next.block == s.block
  {
  }

  /** Another client's lease refuses every TRUNCATE. */
  lemma LocalUnleased(s: Shared, client: nat, statement: Statement, settled: Work)
    requires statement.kind.Regular?
    requires statement.refusal == "" ==> statement.kind.query.truncates != {}
    ensures !Step(s, client, statement, settled).failed ==> !s.Leased(client)
  {
  }
}
