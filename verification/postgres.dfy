/**
 The one real PostgreSQL backend every client shares.

 `Backend` models what SAVEPOINT, RELEASE SAVEPOINT and ROLLBACK TO SAVEPOINT do
 to a transaction, and the per-table counters, which an abort does not take back.
 */
module Postgres {
  import opened Wrappers
  import opened Accounting

  /** A table is its rows; a row's content is never inspected. */
  datatype Database = Database(tables: map<int, seq<string>>)

  function RowCount(database: Database, table: int): nat {
    if table in database.tables then |database.tables[table]| else 0
  }

  /** The staged data together with the effects that produced it. */
  datatype Work = Work(data: Database, writes: seq<Effect>)

  /** A command tag; `rows` is its trailing count when it has one. */
  datatype Tag = Tag(command: string, rows: Option<int>)

  /** A message sent to a client. */
  datatype Reply =
    | Complete(tag: Tag)
    | Error(code: string)
    | Notice(code: string)
    | Output(rows: seq<string>)
    | Ready(status: char)

  function Plain(command: string): Reply {
    Complete(Tag(command, None))
  }

  function Completions(tags: seq<Tag>): seq<Reply> {
    if tags == [] then [] else [Complete(tags[0])] + Completions(tags[1..])
  }

  /** What one statement does to a database: `counts` are the rows it really
      changes, `moved` is what it adds to the per-table counters even if it fails. */
  datatype Outcome = Outcome(
    ok: bool, code: string, tags: seq<Tag>, output: seq<string>,
    data: Database, counts: Ledger, moved: Ledger)
  {
    function Replies(): seq<Reply> {
      [Output(output)] + Completions(tags) + (if ok then [] else [Error(code)])
    }
  }

  /** A statement that is not transaction control, as classified before it runs.
      `countable` says on which databases the rows of a TRUNCATE can be counted first. */
  datatype RawQuery = RawQuery(
    run: Database -> Outcome, readOnly: bool, risk: string, riskRequiresRows: bool,
    truncates: set<int>, countable: Database -> bool)
  {
    /** The classified risk; a TRUNCATE that could not be counted is always a risk. */
    function Risk(data: Database): string {
      if truncates != {} && !countable(data) then UNKNOWN_TRUNCATE else risk
    }

    predicate RiskApplies(data: Database, tags: seq<Tag>) {
      Risk(data) != "" &&
      ((truncates != {} && !countable(data)) || !riskRequiresRows ||
       exists i :: 0 <= i < |tags| && tags[i].rows.Some? && tags[i].rows.value > 0)
    }

    /** The assumption on classification: a statement without an applicable risk
        changes exactly the rows its counters show, a TRUNCATE every row of its
        tables, and a TRUNCATE is not a read. */
    ghost predicate Honest() {
      && (readOnly ==> truncates == {})
      && forall data: Database :: HonestOn(data)
    }

    ghost predicate HonestOn(data: Database) {
      var outcome := run(data);
      && NonNegative(outcome.moved)
      && (outcome.ok && !RiskApplies(data, outcome.tags) ==>
            forall cell ::
              At(outcome.counts, cell) ==
                if cell.table in truncates then At(TruncatedRows(data, truncates), cell)
                else At(outcome.moved, cell))
    }
  }

  /** The rows a TRUNCATE of these tables deletes. */
  function TruncatedRows(data: Database, tables: set<int>): Ledger {
    map table | table in tables :: Cell(table, Deleted) := RowCount(data, table)
  }

  const UNKNOWN_TRUNCATE := "TRUNCATE row count is UNKNOWN"

  /** The query string without a statement. */
  const EMPTY_QUERY := RawQuery(
    (data: Database) => Outcome(true, "", [], [], data, map[], map[]),
    false, "", false, {}, (data: Database) => true)

  type Query = q: RawQuery | q.Honest() ghost witness EMPTY_QUERY

  /** A private savepoint name: the client's id, what it is for, and a number the client never reuses. */
  datatype ObjectName = ObjectName(client: nat, kind: char, number: nat)

  datatype Frame = Frame(name: ObjectName, saved: Work)

  /** The position of the innermost savepoint called `name`, or -1. */
  function LastIndex(stack: seq<Frame>, name: ObjectName): (index: int)
    ensures -1 <= index < |stack|
    ensures index >= 0 ==> stack[index].name == name
    ensures forall i :: index < i < |stack| ==> stack[i].name != name
  {
    if stack == [] then -1
    else if stack[|stack| - 1].name == name then |stack| - 1
    else LastIndex(stack[..|stack| - 1], name)
  }

  ghost predicate Distinct(stack: seq<Frame>) {
    forall i, j :: 0 <= i < j < |stack| ==> stack[i].name != stack[j].name
  }

  /** Counters after a statement added `moved` and reset those of the tables in `wiped`. */
  function Counted(counters: Ledger, moved: Ledger, wiped: set<int>): Ledger {
    map cell | cell in counters.Keys + moved.Keys ::
      if cell.table in wiped then 0 else At(counters, cell) + At(moved, cell)
  }

  lemma CountedAt(counters: Ledger, moved: Ledger, wiped: set<int>)
    ensures forall cell ::
      At(Counted(counters, moved, wiped), cell) ==
      (if cell.table in wiped then 0 else At(counters, cell) + At(moved, cell))
    ensures Counted(counters, moved, wiped).Keys == counters.Keys + moved.Keys
  {
  }

  /** The innermost position of a name, or -1. */
  function LastOf<T(==)>(names: seq<T>, name: T): (index: int)
    ensures -1 <= index < |names|
  {
    if names == [] then -1
    else if names[|names| - 1] == name then |names| - 1
    else LastOf(names[..|names| - 1], name)
  }

  lemma {:induction false} SameIndex(names: seq<ObjectName>, stack: seq<Frame>, name: ObjectName)
    requires |names| == |stack|
    requires forall i :: 0 <= i < |stack| ==> names[i] == stack[i].name
    ensures LastOf(names, name) == LastIndex(stack, name)
  {
    if stack != [] && stack[|stack| - 1].name != name {
      SameIndex(names[..|names| - 1], stack[..|stack| - 1], name);
    }
  }

  /** The live data and savepoints are `data`, `names` and `saved`; `work` and
      `stack` add the history of effects, which only specifications read. */
  class Backend {
    var data: Database
    var names: seq<ObjectName>
    var saved: seq<Database>
    var counters: Ledger
    var aborted: bool
    var durable: Option<Database>
    ghost var work: Work
    ghost var stack: seq<Frame>
    ghost var committed: Option<Work>
    ghost var unread: bool

    ghost predicate Valid()
      reads this
    {
      && work.data == data
      && |names| == |saved| == |stack|
      && (forall i :: 0 <= i < |stack| ==> stack[i].name == names[i] && stack[i].saved.data == saved[i])
    }

    constructor (data: Database, counters: Ledger)
      ensures Valid()
      ensures work == Work(data, []) && stack == [] && this.counters == counters
      ensures !aborted && durable == None && committed == None && !unread
    {
      this.data := data;
      names, saved := [], [];
      this.counters := counters;
      aborted := false;
      durable, committed := None, None;
      work, stack := Work(data, []), [];
      unread := false;
    }

    method Savepoint(name: ObjectName) returns (ok: bool)
      requires Valid()
      modifies this`names, this`saved, this`stack
      ensures Valid()
      ensures ok == !aborted
      ensures stack == if ok then old(stack) + [Frame(name, work)] else old(stack)
    {
      ok := !aborted;
      if ok {
        names, saved := names + [name], saved + [data];
        stack := stack + [Frame(name, work)];
      }
    }

    method Release(name: ObjectName) returns (ok: bool)
      requires Valid()
      modifies this`names, this`saved, this`stack, this`aborted
      ensures Valid()
      ensures ok == (!old(aborted) && LastIndex(old(stack), name) >= 0)
      ensures aborted == !ok
      ensures stack == if ok then old(stack)[..LastIndex(old(stack), name)] else old(stack)
    {
      var index := LastOf(names, name);
      SameIndex(names, stack, name);
      ok := !aborted && index >= 0;
      aborted := !ok;
      if ok {
        names, saved := names[..index], saved[..index];
        stack := stack[..index];
      }
    }

    /** Nothing is promised about the counters: PostgreSQL keeps attempted
        writes counted and restores counters a TRUNCATE had reset. */
    method RollbackTo(name: ObjectName) returns (ok: bool)
      requires Valid()
      modifies this`data, this`names, this`saved, this`counters, this`aborted, this`work, this`stack
      ensures Valid()
      ensures ok == (LastIndex(old(stack), name) >= 0)
      ensures aborted == !ok
      ensures ok ==>
        var index := LastIndex(old(stack), name);
        stack == old(stack)[..index + 1] && work == old(stack)[index].saved
      ensures !ok ==> stack == old(stack) && work == old(work)
    {
      var index := LastOf(names, name);
      SameIndex(names, stack, name);
      ok := index >= 0;
      aborted := !ok;
      counters := *;
      if ok {
        data := saved[index];
        work := stack[index].saved;
        names, saved := names[..index + 1], saved[..index + 1];
        stack := stack[..index + 1];
      }
    }

    /** The proxy's usual recovery: undo to a savepoint and drop it. */
    method Undo(name: ObjectName) returns (ok: bool)
      requires Valid()
      modifies this`data, this`names, this`saved, this`counters, this`aborted, this`work, this`stack
      ensures Valid()
      ensures ok == (LastIndex(old(stack), name) >= 0)
      ensures aborted == !ok
      ensures ok ==>
        var index := LastIndex(old(stack), name);
        stack == old(stack)[..index] && work == old(stack)[index].saved
      ensures !ok ==> stack == old(stack) && work == old(work)
    {
      ok := RollbackTo(name);
      if ok {
        ghost var index := LastIndex(old(stack), name);
        assert stack == old(stack)[..index + 1];
        assert LastIndex(stack, name) == index;
        ok := Release(name);
        assert stack == old(stack)[..index];
      }
    }

    /** Runs a statement. `lost` is what the ledger will miss if it truncates.
        A TRUNCATE resets the counters of its tables. */
    method Execute(query: Query, ghost lost: Ledger) returns (outcome: Outcome)
      requires Valid() && !aborted
      modifies this`data, this`counters, this`aborted, this`work
      ensures Valid()
      ensures outcome == query.run(old(work).data)
      ensures aborted == !outcome.ok
      ensures outcome.ok ==> work == Work(outcome.data, old(work).writes + [Recorded(query, old(work), lost)])
      ensures !outcome.ok ==> work == old(work)
      ensures counters ==
        Counted(old(counters), outcome.moved, if outcome.ok then query.truncates else {})
    {
      outcome := query.run(data);
      aborted := !outcome.ok;
      counters := Counted(counters, outcome.moved, if outcome.ok then query.truncates else {});
      if outcome.ok {
        data := outcome.data;
        work := Work(outcome.data, work.writes + [Recorded(query, work, lost)]);
      }
    }

    /** Samples the counters; a failed sample is reported as None and remembered. */
    method Sample() returns (sample: Option<Ledger>)
      modifies this`unread
      ensures sample.Some? ==> sample.value == counters && unread == old(unread)
      ensures sample.None? ==> unread
    {
      if * {
        sample, unread := None, true;
      } else {
        sample := Some(counters);
      }
    }

    /** The rows a TRUNCATE would remove, counted while its tables are locked. */
    method CountTruncate(query: Query) returns (effect: Option<Ledger>)
      requires Valid() && query.truncates != {}
      ensures effect.Some? <==> query.countable(work.data)
      ensures effect.Some? ==>
        effect.value == TruncatedRows(work.data, query.truncates)
    {
      if query.countable(data) {
        effect := Some(TruncatedRows(data, query.truncates));
      } else {
        effect := None;
      }
    }

    /** COMMIT of an aborted transaction rolls back. */
    method End(commit: bool)
      requires Valid()
      modifies this`names, this`saved, this`stack, this`durable, this`committed
      ensures Valid() && stack == []
      ensures committed == if commit && !aborted then Some(work) else None
      ensures durable == if commit && !aborted then Some(work.data) else None
    {
      names, saved, stack := [], [], [];
      durable := if commit && !aborted then Some(data) else None;
      committed := if commit && !aborted then Some(work) else None;
    }
  }

  /** The history entry of a statement that ran successfully. */
  function Recorded(query: RawQuery, before: Work, lost: Ledger): Effect {
    var outcome := query.run(before.data);
    Effect(outcome.counts, lost,
           if query.RiskApplies(before.data, outcome.tags) then query.Risk(before.data) else "")
  }

  lemma InnermostLast(stack: seq<Frame>, frame: Frame)
    ensures LastIndex(stack + [frame], frame.name) == |stack|
    ensures (stack + [frame])[..|stack|] == stack
  {
  }

  lemma {:induction false} OnlyIndex(stack: seq<Frame>, index: nat)
    requires index < |stack| && Distinct(stack)
    ensures LastIndex(stack, stack[index].name) == index
  {
  }

  /** A statement whose rows need no caveat moves the counters by exactly its rows. */
  lemma OrdinaryPending(
    query: Query, work: Work, lost: Ledger, ledger: Ledger, counters: Ledger, sampled: Ledger)
    requires query.truncates == {} && query.run(work.data).ok
    requires forall cell :: At(lost, cell) == 0
    requires Ahead(counters, sampled) && AgreesPending(ledger, counters, sampled, work.writes)
    ensures
      var moved := Counted(counters, query.run(work.data).moved, {});
      && Ahead(moved, sampled)
      && AgreesPending(ledger, moved, sampled, work.writes + [Recorded(query, work, lost)])
  {
    var outcome := query.run(work.data);
    var effect := Recorded(query, work, lost);
    assert query.HonestOn(work.data);
    CountedAt(counters, outcome.moved, {});
    Append(work.writes, effect);
  }

  /** So running one without settling the books needs only its risk noted, if it applies. */
  lemma BalancedPlain(
    query: Query, work: Work, uncertain: seq<string>, intact: bool, ledger: Ledger,
    counters: Ledger, sampled: Ledger, settled: seq<Effect>, noted: set<string>)
    requires query.truncates == {} && query.run(work.data).ok
    requires Balanced(uncertain, intact, ledger, counters, sampled, settled, work.writes, noted)
    ensures
      var outcome := query.run(work.data);
      Balanced(uncertain, intact, ledger, Counted(counters, outcome.moved, {}), sampled, settled,
               work.writes + [Recorded(query, work, map[])],
               noted + if query.RiskApplies(work.data, outcome.tags) then {query.risk} else {})
  {
    Append(work.writes, Recorded(query, work, map[]));
    if intact {
      OrdinaryPending(query, work, map[], ledger, counters, sampled);
    }
  }
}
