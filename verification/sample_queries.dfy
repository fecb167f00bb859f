/**
 Three small queries with known effects, from which concrete runs are built.
 */
module SampleQueries {
  import opened Wrappers
  import opened Accounting
  import opened Postgres

  const TABLE := 1
  const ROW := Cell(TABLE, Inserted)

  function Rows(data: Database): seq<string> {
    if TABLE in data.tables then data.tables[TABLE] else []
  }

  /** Adds a row. */
  function Insert(data: Database): Outcome {
    Outcome(true, "", [Tag("INSERT", Some(1))], [], Database(data.tables[TABLE := Rows(data) + ["row"]]),
            map[ROW := 1], map[ROW := 1])
  }

  /** Empties the table. */
  function Truncate(data: Database): Outcome {
    Outcome(true, "", [Tag("TRUNCATE TABLE", None)], [], Database(data.tables[TABLE := []]),
            TruncatedRows(data, {TABLE}), map[])
  }

  /** Fails. */
  function Fail(data: Database): Outcome {
    Outcome(false, "XX000", [], [], data, map[], map[])
  }

  const INSERT := RawQuery(Insert, false, "", false, {}, (data: Database) => true)
  const TRUNCATE := RawQuery(Truncate, false, "", false, {TABLE}, (data: Database) => true)
  const FAILING := RawQuery(Fail, false, "", false, {}, (data: Database) => true)

  lemma AllHonest()
    ensures INSERT.Honest() && TRUNCATE.Honest() && FAILING.Honest()
  {
    forall data: Database
      ensures INSERT.HonestOn(data) && FAILING.HonestOn(data)
    {
    }
    forall data: Database
      ensures TRUNCATE.HonestOn(data)
    {
    }
  }

  function Inserting(): (query: Query)
    ensures query == INSERT
  {
    AllHonest();
    INSERT
  }

  function Truncating(): (query: Query)
    ensures query == TRUNCATE
  {
    AllHonest();
    TRUNCATE
  }

  function Failing(): (query: Query)
    ensures query == FAILING
  {
    AllHonest();
    FAILING
  }

  lemma InsertChanges(data: Database)
    ensures Insert(data).data != data
  {
    assert |Rows(Insert(data).data)| == |Rows(data)| + 1;
  }
}
