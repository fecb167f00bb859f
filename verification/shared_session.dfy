/**
 The shared transaction as its clients see it: one staged state, at most one
 client with an open block, at most one client inside an extended-query cycle
 (which holds the session lock until Sync), and the client that last took the right
 to run a statement outside the transaction. The functions say what each client message does to that
 view and what is replied; backend savepoints, counters and the ledger are
 deliberately absent.
 */
module SharedSession {
  import opened Wrappers
  import opened Accounting
  import opened Postgres

  datatype Kind =
    | Regular(query: Query)
    | Forbidden
    | Begin(options: bool)
    | Commit(chain: bool)
    | Rollback(chain: bool)
    | Savepoint(name: string)
    | RollbackTo(name: string)
    | Release(name: string)

  /** A classified statement; a non-empty `refusal` is one the proxy never runs. */
  datatype Statement = Statement(kind: Kind, refusal: string) {
    predicate EndsBlock() {
      kind.Rollback? || kind.RollbackTo? || kind.Commit?
    }
  }

  datatype Mark = Mark(name: string, saved: Work)

  datatype Block = Block(client: nat, failed: bool, base: Work, saves: seq<Mark>)

  /** `mark` is what a failed cycle falls back to, `settled` the last state whose
      counters were sampled; a `doomed` cycle read under another client's block. */
  datatype Cycle = Cycle(client: nat, mark: Work, settled: Work, failed: bool, doomed: bool) {
    predicate Keeps() {
      !failed && !doomed
    }
  }

  datatype Shared = Shared(work: Work, block: Option<Block>, cycle: Option<Cycle>, escape: nat) {
    predicate Owned(client: nat) {
      block.Some? && block.value.client == client
    }

    predicate OwnedFailed(client: nat) {
      Owned(client) && block.value.failed
    }

    /** Another client runs an approved statement outside the transaction. */
    predicate Escaping(client: nat) {
      escape != 0 && escape != client
    }

    /** Another client has an open block or such a statement in flight. */
    predicate Leased(client: nat) {
      (block.Some? && block.value.client != client) || Escaping(client)
    }

    function Status(client: nat): char {
      if !Owned(client) then 'I' else if block.value.failed then 'E' else 'T'
    }

    /** An error inside a block leaves it failed; outside it changes nothing. */
    function Fail(client: nat): Shared {
      if Owned(client) then this.(block := Some(block.value.(failed := true))) else this
    }

    /** The client gives back the right to run outside the transaction, if it is still the
        one on record. */
    function Returned(client: nat): Shared {
      if escape == client then this.(escape := 0) else this
    }

    function Open(client: nat): Shared {
      this.(block := Some(Block(client, false, work, [])))
    }

    function Close(kept: Work, chain: bool): Shared
      requires block.Some?
    {
      var closed := this.(work := kept, block := None);
      if chain then closed.Open(block.value.client) else closed
    }
  }

  /** The innermost savepoint a client gave this name, or -1. */
  function LastMark(saves: seq<Mark>, name: string): (index: int)
    ensures -1 <= index < |saves|
    ensures index >= 0 ==> saves[index].name == name
  {
    if saves == [] then -1
    else if saves[|saves| - 1].name == name then |saves| - 1
    else LastMark(saves[..|saves| - 1], name)
  }

  lemma {:induction false} LastMarkIs(saves: seq<Mark>, name: string, index: int)
    requires -1 <= index < |saves|
    requires index >= 0 ==> saves[index].name == name
    requires forall i :: index < i < |saves| ==> saves[i].name != name
    ensures LastMark(saves, name) == index
  {
    if saves != [] && index < |saves| - 1 {
      LastMarkIs(saves[..|saves| - 1], name, index);
    }
  }

  /** The result of one statement: the new state, what is sent, and whether it failed. */
  datatype Turn = Turn(next: Shared, replies: seq<Reply>, failed: bool)

  function Rejected(s: Shared, code: string): Turn {
    Turn(s, [Error(code)], true)
  }

  function BeginTurn(s: Shared, client: nat, options: bool): Turn {
    if options then Rejected(s.Fail(client), "0A000")
    else if s.Owned(client) then Turn(s, [Notice("25001"), Plain("BEGIN")], false)
    else if s.Leased(client) then Rejected(s, "55P03")
    else Turn(s.Open(client), [Plain("BEGIN")], false)
  }

  /** COMMIT and ROLLBACK; a failed block can only roll back. */
  function EndTurn(s: Shared, client: nat, commit: bool, chain: bool): Turn {
    if !s.Owned(client) then
      Turn(s, [Notice("25P01"), Plain(if commit then "COMMIT" else "ROLLBACK")], false)
    else if !commit || s.block.value.failed then
      Turn(s.Close(s.block.value.base, chain), [Plain("ROLLBACK")], false)
    else Turn(s.Close(s.work, chain), [Plain("COMMIT")], false)
  }

  function SavepointTurn(s: Shared, client: nat, name: string): Turn {
    if !s.Owned(client) then Rejected(s, "25P01")
    else if s.block.value.failed then Rejected(s, "25P02")
    else
      var block := s.block.value;
      Turn(s.(block := Some(block.(saves := block.saves + [Mark(name, s.work)]))), [Plain("SAVEPOINT")], false)
  }

  function RollbackToTurn(s: Shared, client: nat, name: string): Turn {
    if !s.Owned(client) then Rejected(s, "25P01")
    else
      var index := LastMark(s.block.value.saves, name);
      if index < 0 then Rejected(s.Fail(client), "3B001")
      else Turn(Rewound(s, index), [Plain("ROLLBACK")], false)
  }

  function ReleaseTurn(s: Shared, client: nat, name: string): Turn {
    if !s.Owned(client) then Rejected(s, "25P01")
    else if s.block.value.failed then Rejected(s, "25P02")
    else
      var index := LastMark(s.block.value.saves, name);
      if index < 0 then Rejected(s.Fail(client), "3B001")
      else Turn(Released(s, index), [Plain("RELEASE")], false)
  }

  /** Back to a savepoint, which stays; the block is usable again. */
  function Rewound(s: Shared, index: nat): Shared
    requires s.block.Some? && index < |s.block.value.saves|
  {
    var block := s.block.value;
    s.(work := block.saves[index].saved,
       block := Some(block.(failed := false, saves := block.saves[..index + 1])))
  }

  /** Forgets a savepoint and those after it, keeping their work. */
  function Released(s: Shared, index: nat): Shared
    requires s.block.Some? && index < |s.block.value.saves|
  {
    s.(block := Some(s.block.value.(saves := s.block.value.saves[..index])))
  }

  /** Transaction control. */
  function Control(s: Shared, client: nat, kind: Kind): Turn
    requires !kind.Regular?
  {
    match kind
    case Forbidden => Rejected(s.Fail(client), "0A000")
    case Begin(options) => BeginTurn(s, client, options)
    case Commit(chain) => EndTurn(s, client, true, chain)
    case Rollback(chain) => EndTurn(s, client, false, chain)
    case Savepoint(name) => SavepointTurn(s, client, name)
    case RollbackTo(name) => RollbackToTurn(s, client, name)
    case Release(name) => ReleaseTurn(s, client, name)
  }

  /** What a TRUNCATE makes unreadable: counter movement since the last sample. */
  ghost function Missed(query: RawQuery, work: Work, settled: Work): Ledger {
    map table, operation: Operation | table in query.truncates ::
      Cell(table, operation) :=
        Credited(work.writes, Cell(table, operation)) - Credited(settled.writes, Cell(table, operation))
  }

  /** Counting the rows of a TRUNCATE is announced before it starts. */
  function Announcement(query: RawQuery): seq<Reply> {
    if query.truncates != {} then [Notice("00000")] else []
  }

  ghost function Advanced(work: Work, query: RawQuery, lost: Ledger): Work {
    Work(query.run(work.data).data, work.writes + [Recorded(query, work, lost)])
  }

  /** Runs a statement on the staged state; with `undo` nothing of it is kept. */
  ghost function Run(s: Shared, client: nat, query: Query, undo: bool, settled: Work): Turn {
    var outcome := query.run(s.work.data);
    var replies := Announcement(query) + outcome.Replies();
    if !outcome.ok then Turn(s.Fail(client), replies, true)
    else if undo then Turn(s, replies, false)
    else Turn(s.(work := Advanced(s.work, query, Missed(query, s.work, settled))), replies, false)
  }

  /** One statement of a simple query. `settled` is the last sampled state. */
  ghost function Step(s: Shared, client: nat, statement: Statement, settled: Work): Turn {
    if statement.refusal != "" || statement.kind.Forbidden? then Rejected(s.Fail(client), "0A000")
    else if s.OwnedFailed(client) && !statement.EndsBlock() then Rejected(s, "25P02")
    else if !statement.kind.Regular? then Control(s, client, statement.kind)
    else if s.Escaping(client) then Rejected(s, "55P03")
    else if s.Leased(client) && !statement.kind.query.readOnly then Rejected(s, "55P03")
    else Run(s, client, statement.kind.query, s.Leased(client), settled)
  }

  /** The statements of one simple query, up to the first that fails. */
  ghost function Steps(s: Shared, client: nat, statements: seq<Statement>): Turn
    decreases |statements|
  {
    if statements == [] then Turn(s, [], false)
    else
      var first := Step(s, client, statements[0], s.work);
      if first.failed then first
      else
        var rest := Steps(first.next, client, statements[1..]);
        Turn(rest.next, first.replies + rest.replies, rest.failed)
  }

  predicate AllRegular(statements: seq<Statement>) {
    forall i :: 0 <= i < |statements| ==> statements[i].kind.Regular?
  }

  /** An empty simple query still takes its turn as an ordinary statement. */
  const EMPTY_STATEMENT := Statement(Regular(EMPTY_QUERY), "")

  /** A simple query: several ordinary statements outside a block stand or fall together. */
  ghost function Simple(s: Shared, client: nat, parsed: seq<Statement>): Turn {
    var statements := if parsed == [] then [EMPTY_STATEMENT] else parsed;
    var turn := Steps(s, client, statements);
    var batched := !s.Owned(client) && |statements| > 1 && AllRegular(statements);
    var next := if batched && turn.failed then turn.next.(work := s.work) else turn.next;
    Turn(next, turn.replies + [Ready(next.Status(client))], turn.failed)
  }

  /** A simple query that could not be parsed. */
  function Unparsed(s: Shared, client: nat): Turn {
    var next := s.Fail(client);
    Turn(next, [Error("42601"), Ready(next.Status(client))], true)
  }

  /* The extended-query protocol. */

  function StartCycle(s: Shared, client: nat): Shared {
    s.(cycle := Some(Cycle(client, s.work, s.work, false, false)))
  }

  /** What a cycle keeps when it ends or is interrupted by transaction control. */
  function Kept(s: Shared): Work
    requires s.cycle.Some?
  {
    if s.cycle.value.Keeps() then s.work else s.cycle.value.mark
  }

  function FinishCycle(s: Shared): Shared
    requires s.cycle.Some?
  {
    var ended := s.(work := Kept(s), cycle := None);
    if s.cycle.value.failed then ended.Fail(s.cycle.value.client) else ended
  }

  function CycleError(s: Shared, code: string): Turn
    requires s.cycle.Some?
  {
    Turn(s.(cycle := Some(s.cycle.value.(failed := true))), [Error(code)], true)
  }

  /** Transaction control inside a cycle: what came before it is kept or dropped first. */
  ghost function ExecuteControl(s: Shared, statement: Statement): Turn
    requires s.cycle.Some?
  {
    var cycle := s.cycle.value;
    var turn := Step(s.(work := Kept(s)), cycle.client, statement, Kept(s));
    Turn(turn.next.(cycle := Some(cycle.(mark := turn.next.work, settled := turn.next.work,
                                         failed := cycle.failed || turn.failed))),
         turn.replies, turn.failed)
  }

  /** A refused statement or a TRUNCATE inside a cycle. */
  ghost function ExecuteLocal(s: Shared, statement: Statement): Turn
    requires s.cycle.Some?
  {
    var cycle := s.cycle.value;
    var turn := Step(s, cycle.client, statement, cycle.settled);
    Turn(turn.next.(cycle := Some(cycle.(settled := if turn.failed then cycle.settled else turn.next.work,
                                         failed := cycle.failed || turn.failed))),
         turn.replies, turn.failed)
  }

  /** An ordinary statement inside a cycle runs unprotected; an error fails the cycle. */
  ghost function ExecutePlain(s: Shared, query: Query): Turn
    requires s.cycle.Some?
  {
    var outcome := query.run(s.work.data);
    if !outcome.ok then
      Turn(s.(cycle := Some(s.cycle.value.(failed := true))), outcome.Replies(), true)
    else Turn(s.(work := Advanced(s.work, query, map[])), outcome.Replies(), false)
  }

  ghost function Execute(s: Shared, statement: Statement): Turn
    requires s.cycle.Some?
  {
    var client := s.cycle.value.client;
    if s.cycle.value.failed then Turn(s, [], true)
    else if statement.kind.Regular? && s.Escaping(client) then CycleError(s, "55P03")
    else if statement.kind.Regular? && s.Leased(client) && !statement.kind.query.readOnly then
      CycleError(s, "55P03")
    else
      var entered :=
        if statement.kind.Regular? && s.Leased(client) then s.(cycle := Some(s.cycle.value.(doomed := true)))
        else s;
      if s.OwnedFailed(client) && !statement.EndsBlock() then CycleError(entered, "25P02")
      else if !statement.kind.Regular? then ExecuteControl(entered, statement)
      else if statement.refusal != "" || statement.kind.query.truncates != {} then ExecuteLocal(entered, statement)
      else ExecutePlain(entered, statement.kind.query)
  }

  /** A client that disconnects loses its unfinished cycle and its open block. */
  function Disconnect(s: Shared, client: nat): Shared {
    var idle :=
      if s.cycle.Some? && s.cycle.value.client == client then s.(work := s.cycle.value.mark, cycle := None)
      else s;
    if idle.Owned(client) then idle.Close(idle.block.value.base, false) else idle
  }

  datatype Message =
    | SimpleQuery(statements: seq<Statement>)
    | BadQuery
    | ExecuteMessage(statement: Statement)
    | BadExtended(code: string)
    | SyncMessage
    | EscapeRequest(refusal: string)
    | EscapeGrant(error: string)
    | EscapeEnd(error: string, replies: seq<Reply>)
    | Terminate

  datatype Event = Event(client: nat, message: Message)

  /** The session lock is free, or held by this client's own cycle. */
  predicate Enabled(s: Shared, event: Event) {
    event.client > 0 && (s.cycle.None? || s.cycle.value.client == event.client)
  }

  /** A simple query or a Sync first ends the sender's cycle. */
  function Synced(s: Shared): Shared {
    if s.cycle.Some? then FinishCycle(s) else s
  }

  function InCycle(s: Shared, client: nat): (cycling: Shared)
    ensures cycling.cycle.Some?
  {
    if s.cycle.Some? then s else StartCycle(s, client)
  }

  /** A statement that cannot run inside a transaction asks for approval to run on
      a connection of its own. */
  function Request(s: Shared, client: nat, refusal: string): Turn {
    if refusal != "" then Answered(Rejected(s.Fail(client), "0A000"), client)
    else if s.OwnedFailed(client) then Answered(Rejected(s, "25P02"), client)
    else if s.Leased(client) then Answered(Rejected(s, "55P03"), client)
    else Turn(s, [], false)
  }

  function Answered(turn: Turn, client: nat): Turn {
    turn.(replies := turn.replies + [Ready(turn.next.Status(client))])
  }

  function EscapeError(s: Shared, client: nat, error: string): Turn {
    Answered(Rejected(s.Returned(client).Fail(client), error), client)
  }

  /** The whole behaviour: the state after a message and what its sender is sent. */
  ghost function Handle(s: Shared, event: Event): Turn
    requires Enabled(s, event)
  {
    var client := event.client;
    match event.message
    case SimpleQuery(statements) => Simple(Synced(s), client, statements)
    case BadQuery => Unparsed(Synced(s), client)
    case ExecuteMessage(statement) => Execute(InCycle(s, client), statement)
    case BadExtended(code) =>
      var cycling := InCycle(s, client);
      if cycling.cycle.value.failed then Turn(cycling, [], true) else CycleError(cycling, code)
    case SyncMessage =>
      var next := Synced(s);
      Turn(next, [Ready(next.Status(client))], false)
    case EscapeRequest(refusal) => Request(Synced(s), client, refusal)
    case EscapeGrant(error) =>
      var idle := Synced(s);
      if error == "" then Turn(idle.(escape := client), [], false) else EscapeError(idle, client, error)
    case EscapeEnd(error, replies) =>
      var idle := Synced(s);
      if error == "" then Turn(idle.Returned(client), replies + [Ready(idle.Status(client))], false)
      else EscapeError(idle, client, error)
    case Terminate => Turn(Disconnect(s, client), [], false)
  }

  lemma MissedAt(query: RawQuery, work: Work, settled: Work)
    ensures forall cell: Cell ::
      At(Missed(query, work, settled), cell) ==
      (if cell.table in query.truncates then Credited(work.writes, cell) - Credited(settled.writes, cell) else 0)
  {
  }

  /** Exact TRUNCATE accounting: the ledger loses nothing but the movement that
      was not sampled before the counters were reset. */
  lemma TruncateSettles(
    query: Query, work: Work, settled: Work,
    after: Ledger, before: Ledger, counters: Ledger, sampled: Ledger)
    requires
      var outcome := query.run(work.data);
      outcome.ok && !query.RiskApplies(work.data, outcome.tags)
    requires Agrees(before, settled.writes) && Risks(settled.writes) <= Risks(work.writes)
    requires AgreesPending(before, counters, sampled, work.writes)
    requires NonNegative(after)
    requires
      var rows := TruncatedRows(work.data, query.truncates);
      var moved := Counted(counters, query.run(work.data).moved, query.truncates);
      CreditsTruncate(after, before, rows, moved, sampled, query.truncates)
    ensures Agrees(after, Advanced(work, query, Missed(query, work, settled)).writes)
  {
    var outcome := query.run(work.data);
    var effect := Recorded(query, work, Missed(query, work, settled));
    assert query.HonestOn(work.data);
    CountedAt(counters, outcome.moved, query.truncates);
    MissedAt(query, work, settled);
    Append(work.writes, effect);
    if Risks(work.writes + [effect]) == {} {
      forall cell: Cell
        ensures At(after, cell) == Credited(work.writes + [effect], cell)
      {
        assert At(before, cell) == Credited(settled.writes, cell);
        assert At(before, cell) + At(counters, cell) - At(sampled, cell) == Credited(work.writes, cell);
      }
    }
  }

  /** On the tables of a counted TRUNCATE the ledger misses what was never sampled. */
  lemma TruncateGap(
    query: Query, work: Work, settled: Work,
    after: Ledger, before: Ledger, counters: Ledger, sampled: Ledger, cell: Cell)
    requires
      var outcome := query.run(work.data);
      outcome.ok && !query.RiskApplies(work.data, outcome.tags)
    requires Agrees(before, settled.writes) && Risks(settled.writes) <= Risks(work.writes)
    requires AgreesPending(before, counters, sampled, work.writes) && Certain(work.writes)
    requires
      var rows := TruncatedRows(work.data, query.truncates);
      var moved := Counted(counters, query.run(work.data).moved, query.truncates);
      CreditsTruncate(after, before, rows, moved, sampled, query.truncates)
    ensures
      At(after, cell) - Total(Advanced(work, query, Missed(query, work, settled)).writes, cell)
      == if cell.table in query.truncates then At(sampled, cell) - At(counters, cell) else 0
  {
    var outcome := query.run(work.data);
    assert query.HonestOn(work.data);
    CountedAt(counters, outcome.moved, query.truncates);
    Append(work.writes, Recorded(query, work, Missed(query, work, settled)));
    assert At(before, cell) + At(counters, cell) - At(sampled, cell) == Credited(work.writes, cell);
    hide TruncatedRows, Counted, Missed;
  }

  /** After a TRUNCATE the ledger is the truth if and only if the counters of its tables
      had not moved since they were last sampled. */
  lemma TruncateExactly(
    query: Query, work: Work, settled: Work,
    after: Ledger, before: Ledger, counters: Ledger, sampled: Ledger)
    requires
      var outcome := query.run(work.data);
      outcome.ok && !query.RiskApplies(work.data, outcome.tags)
    requires Agrees(before, settled.writes) && Risks(settled.writes) <= Risks(work.writes)
    requires AgreesPending(before, counters, sampled, work.writes) && Certain(work.writes)
    requires
      var rows := TruncatedRows(work.data, query.truncates);
      var moved := Counted(counters, query.run(work.data).moved, query.truncates);
      CreditsTruncate(after, before, rows, moved, sampled, query.truncates)
    ensures
      Exactly(after, Advanced(work, query, Missed(query, work, settled)).writes) <==>
      Still(counters, sampled, query.truncates)
  {
    var longer := Advanced(work, query, Missed(query, work, settled)).writes;
    hide Advanced, CreditsTruncate, Agrees, AgreesPending, Total, Certain;
    forall cell: Cell
      ensures At(after, cell) - Total(longer, cell)
           == if cell.table in query.truncates then At(sampled, cell) - At(counters, cell) else 0
    {
      TruncateGap(query, work, settled, after, before, counters, sampled, cell);
    }
  }
}
