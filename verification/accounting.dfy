/**
 Per-table row accounting of the shared PostgreSQL transaction.

 A `Ledger` counts tuples by table and operation. An `Effect` is what one
 statement that survived did: the rows it really changed, the part of earlier
 rows the proxy's ledger can no longer learn about, and the reason (if any) why
 the proxy could not count it exactly. The history of surviving effects is the
 truth the proxy's own ledger is measured against.
 */
module Accounting {

  datatype Operation = Inserted | Updated | Deleted

  /** One counter: a table's object identifier and what was done to its rows. */
  datatype Cell = Cell(table: int, operation: Operation)

  type Ledger = map<Cell, int>

  /** A cell without an entry counts nothing. */
  function At(ledger: Ledger, cell: Cell): int {
    if cell in ledger then ledger[cell] else 0
  }

  ghost predicate NonNegative(ledger: Ledger) {
    forall cell :: At(ledger, cell) >= 0
  }

  /** `lost` is the part of earlier counts a TRUNCATE made unreadable. */
  datatype Effect = Effect(counts: Ledger, lost: Ledger, risk: string)

  /** The rows counted by `cell` that the surviving effects changed. */
  function Total(writes: seq<Effect>, cell: Cell): int {
    if writes == [] then 0
    else Total(writes[..|writes| - 1], cell) + At(writes[|writes| - 1].counts, cell)
  }

  function Lost(writes: seq<Effect>, cell: Cell): int {
    if writes == [] then 0
    else Lost(writes[..|writes| - 1], cell) + At(writes[|writes| - 1].lost, cell)
  }

  /** What a ledger that saw every counter movement would hold. */
  function Credited(writes: seq<Effect>, cell: Cell): int {
    Total(writes, cell) - Lost(writes, cell)
  }

  /** The distinct reasons why surviving effects could not be counted. */
  function Risks(writes: seq<Effect>): set<string> {
    if writes == [] then {}
    else
      var last := writes[|writes| - 1];
      Risks(writes[..|writes| - 1]) + (if last.risk == "" then {} else {last.risk})
  }

  function Elements(details: seq<string>): set<string> {
    set detail | detail in details
  }

  /** When nothing uncountable survives, the ledger credits exactly the surviving effects. */
  ghost predicate Agrees(ledger: Ledger, writes: seq<Effect>) {
    && NonNegative(ledger)
    && (Risks(writes) == {} ==> forall cell :: At(ledger, cell) == Credited(writes, cell))
  }

  /** The ledger plus the counter movement since the last sample credits the surviving effects. */
  ghost predicate AgreesPending(ledger: Ledger, counters: Ledger, sampled: Ledger, writes: seq<Effect>) {
    Risks(writes) == {} ==>
      forall cell :: At(ledger, cell) + At(counters, cell) - At(sampled, cell) == Credited(writes, cell)
  }

  /** No counter went down since it was sampled. */
  ghost predicate Ahead(counters: Ledger, sampled: Ledger) {
    && sampled.Keys <= counters.Keys
    && forall cell :: At(counters, cell) >= At(sampled, cell)
  }

  /** The proxy's books: the uncertain list and the details in `noted` name exactly the
      surviving risks, and while the ledger is `intact` it is right up to the counter
      movement since `settled`. */
  ghost predicate Balanced(
    uncertain: seq<string>, intact: bool, ledger: Ledger, counters: Ledger, sampled: Ledger,
    settled: seq<Effect>, writes: seq<Effect>, noted: set<string>)
  {
    && Elements(uncertain) + noted == Risks(writes)
    && Risks(settled) <= Risks(writes)
    && (intact ==>
          && Agrees(ledger, settled)
          && Ahead(counters, sampled)
          && AgreesPending(ledger, counters, sampled, writes))
  }

  /** The ledger is the truth about the rows the surviving effects changed. */
  ghost predicate Exactly(ledger: Ledger, writes: seq<Effect>) {
    forall cell :: At(ledger, cell) == Total(writes, cell)
  }

  /** The counters of these tables have not moved since they were sampled. */
  ghost predicate Still(counters: Ledger, sampled: Ledger, tables: set<int>) {
    forall cell: Cell :: cell.table in tables ==> At(counters, cell) == At(sampled, cell)
  }

  /** Nothing uncountable survives, and no movement was lost so far. */
  ghost predicate Certain(writes: seq<Effect>) {
    Risks(writes) == {} && NoLoss(writes)
  }

  ghost predicate NoLoss(writes: seq<Effect>) {
    forall cell :: Lost(writes, cell) == 0
  }

  lemma Append(writes: seq<Effect>, effect: Effect)
    ensures Risks(writes + [effect]) == Risks(writes) + (if effect.risk == "" then {} else {effect.risk})
    ensures forall cell :: Total(writes + [effect], cell) == Total(writes, cell) + At(effect.counts, cell)
    ensures forall cell :: Lost(writes + [effect], cell) == Lost(writes, cell) + At(effect.lost, cell)
  {
  }

  lemma ElementsAppend(details: seq<string>, detail: string)
    ensures Elements(details + [detail]) == Elements(details) + {detail}
  {
  }

  /** `after` is `before` plus, on the cells in `done`, the counter movement since the sample. */
  ghost predicate Accrues(after: Ledger, before: Ledger, current: Ledger, sampled: Ledger, done: set<Cell>) {
    forall cell ::
      At(after, cell) == At(before, cell) + (if cell in done then At(current, cell) - At(sampled, cell) else 0)
  }

  /** Adds to one cell; an entry that would be zero is not stored. */
  function Accrue(ledger: Ledger, cell: Cell, moved: int): Ledger {
    var change := At(ledger, cell) + moved;
    if change != 0 then ledger[cell := change] else ledger
  }

  lemma AccrueStep(after: Ledger, before: Ledger, current: Ledger, sampled: Ledger, done: set<Cell>, cell: Cell)
    requires NonNegative(before)
    requires Accrues(after, before, current, sampled, done) && cell !in done
    requires At(current, cell) >= At(sampled, cell)
    ensures Accrues(Accrue(after, cell, At(current, cell) - At(sampled, cell)), before, current, sampled, done + {cell})
  {
  }

  lemma Resampled(ledger: Ledger, counters: Ledger, writes: seq<Effect>)
    requires Agrees(ledger, writes)
    ensures Ahead(counters, counters) && AgreesPending(ledger, counters, counters, writes)
  {
  }

  /** Crediting the movement since the last sample settles the ledger. */
  lemma Settles(after: Ledger, before: Ledger, counters: Ledger, sampled: Ledger, writes: seq<Effect>)
    requires NonNegative(before) && Ahead(counters, sampled)
    requires AgreesPending(before, counters, sampled, writes)
    requires Accrues(after, before, counters, sampled, counters.Keys)
    ensures Agrees(after, writes)
  {
  }

  /** The ledger restricted to the tables that were not truncated. */
  function Without(ledger: Ledger, tables: set<int>): Ledger {
    map cell | cell in ledger && cell.table !in tables :: ledger[cell]
  }

  lemma WithoutAt(ledger: Ledger, tables: set<int>)
    ensures forall cell: Cell ::
      At(Without(ledger, tables), cell) == (if cell.table in tables then 0 else At(ledger, cell))
  {
  }

  /** Ordinary movement on the other tables and exact rows on the truncated ones. */
  ghost predicate CreditsTruncate(
    after: Ledger, before: Ledger, rows: Ledger, current: Ledger, sampled: Ledger, tables: set<int>)
  {
    forall cell: Cell ::
      At(after, cell) ==
      At(before, cell) + (if cell.table in tables then At(rows, cell) else At(current, cell) - At(sampled, cell))
  }

  lemma Combines(
    after: Ledger, middle: Ledger, before: Ledger, rows: Ledger, current: Ledger, sampled: Ledger, tables: set<int>)
    requires Accrues(middle, before, Without(current, tables), Without(sampled, tables), Without(current, tables).Keys)
    requires Accrues(after, middle, rows, map[], rows.Keys)
    requires forall cell :: cell in rows ==> cell.table in tables
    requires sampled.Keys <= current.Keys
    ensures CreditsTruncate(after, before, rows, current, sampled, tables)
  {
  }

  lemma {:induction false} RisksNamed(writes: seq<Effect>)
    ensures "" !in Risks(writes)
  {
    if writes != [] {
      RisksNamed(writes[..|writes| - 1]);
    }
  }
}
