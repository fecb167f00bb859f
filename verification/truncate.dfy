/**
 Counting the rows of a TRUNCATE before it runs, while other sessions are active.

 The relation set of TRUNCATE ... CASCADE is the least set that contains the
 targets and every table with a foreign key into it. The proxy locks what it
 finds, looks again, and counts only when a look finds everything locked already.
 A locked table keeps its rows and the foreign keys that touch it, so the set and
 the counts are still right when the TRUNCATE runs.
 */
module TruncateCounting {
  import opened Wrappers

  /** A foreign key of `referencing` into `referenced`. */
  datatype Edge = Edge(referenced: int, referencing: int)

  datatype Table = Table(kind: char, trigger: bool, rowSecurity: bool, rows: nat)

  ghost predicate Closed(edges: set<Edge>, relations: set<int>) {
    forall edge :: edge in edges && edge.referenced in relations ==> edge.referencing in relations
  }

  /** `relations` is the least closed set that contains `initial`. */
  ghost predicate IsClosure(edges: set<Edge>, initial: set<int>, relations: set<int>) {
    && initial <= relations && Closed(edges, relations)
    && forall others: set<int> :: initial <= others && Closed(edges, others) ==> relations <= others
  }

  /** The edges used: without CASCADE only the targets themselves count. */
  function Followed(edges: set<Edge>, cascade: bool): set<Edge> {
    if cascade then edges else {}
  }

  predicate Touches(edge: Edge, tables: set<int>) {
    edge.referenced in tables || edge.referencing in tables
  }

  /** What other sessions cannot do to locked tables. */
  ghost predicate Respects(
    before: set<Edge>, after: set<Edge>, earlier: map<int, Table>, later: map<int, Table>, locked: set<int>)
  {
    && (forall edge :: Touches(edge, locked) ==> (edge in before <==> edge in after))
    && (forall table :: table in locked ==> (table in earlier <==> table in later))
    && (forall table :: table in locked && table in earlier ==> later[table] == earlier[table])
  }

  /** A locked closure stays the closure whatever other sessions do. */
  lemma ClosureStable(
    before: set<Edge>, after: set<Edge>, cascade: bool, initial: set<int>, relations: set<int>, locked: set<int>)
    requires IsClosure(Followed(before, cascade), initial, relations) && relations <= locked
    requires forall edge :: Touches(edge, locked) ==> (edge in before <==> edge in after)
    ensures IsClosure(Followed(after, cascade), initial, relations)
  {
    var kept := Followed(after, cascade);
    assert Closed(kept, relations) by {
      forall edge | edge in kept && edge.referenced in relations
        ensures edge.referencing in relations
      {
        assert Touches(edge, locked);
        assert edge in Followed(before, cascade);
      }
    }
    forall others: set<int> | initial <= others && Closed(kept, others)
      ensures relations <= others
    {
      var both := others * relations;
      assert Closed(Followed(before, cascade), both) by {
        forall edge | edge in Followed(before, cascade) && edge.referenced in both
          ensures edge.referencing in both
        {
          assert Touches(edge, locked);
          assert edge in kept;
        }
      }
    }
  }

  /** The rows each counted table holds; partitioned tables hold none themselves. */
  function Counts(tables: map<int, Table>, relations: set<int>): map<int, nat> {
    map table | table in relations && table in tables && tables[table].kind == 'r' :: tables[table].rows
  }

  lemma CountsStable(
    before: set<Edge>, after: set<Edge>, earlier: map<int, Table>, later: map<int, Table>,
    relations: set<int>, locked: set<int>)
    requires Respects(before, after, earlier, later, locked) && relations <= locked
    ensures Counts(later, relations) == Counts(earlier, relations)
  {
    var left, right := Counts(later, relations), Counts(earlier, relations);
    forall table
      ensures table in left <==> table in right
      ensures table in left ==> left[table] == right[table]
    {
      if table in relations {
        assert table in locked;
      }
    }
  }

  /** Every relation is one whose rows can be counted before the TRUNCATE. */
  predicate Countable(tables: map<int, Table>, relations: set<int>) {
    forall table :: table in relations && table in tables ==> CountableTable(tables[table])
  }

  predicate CountableTable(table: Table) {
    && (table.kind == 'r' || table.kind == 'p')
    && !table.trigger
    && !(table.kind == 'r' && table.rowSecurity)
  }

  lemma CardGrows(smaller: set<int>, larger: set<int>)
    requires smaller <= larger
    ensures |smaller| <= |larger|
  {
    assert larger == smaller + (larger - smaller);
  }

  class Catalog {
    var edges: set<Edge>
    var tables: map<int, Table>
    var locked: set<int>
    ghost var denials: nat

    /** Other sessions run, as far as our locks let them. */
    method Interfere()
      modifies this`edges, this`tables
      ensures Respects(old(edges), edges, old(tables), tables, locked)
    {
      var anyEdges: set<Edge>, anyTables: map<int, Table> := *, *;
      edges := (set edge | edge in edges && Touches(edge, locked)) + (set edge | edge in anyEdges && !Touches(edge, locked));
      tables := map table | table in tables.Keys + anyTables.Keys && (table in locked ==> table in tables)
                          && (table !in locked ==> table in anyTables) ::
        if table in locked then tables[table] else anyTables[table];
    }

    /** LOCK TABLE: others run until the locks are granted. */
    method Lock(relations: set<int>) returns (granted: bool)
      modifies this
      ensures granted ==> locked == old(locked) + relations && denials == old(denials)
      ensures !granted ==> locked == old(locked) && denials == old(denials) + 1
      ensures Respects(old(edges), edges, old(tables), tables, old(locked))
    {
      Interfere();
      granted := *;
      if granted {
        locked := locked + relations;
      } else {
        denials := denials + 1;
      }
    }

    /** The relations the TRUNCATE would empty, by repeatedly following foreign keys. */
    method TruncateClosure(initial: set<int>, cascade: bool) returns (relations: set<int>)
      ensures IsClosure(Followed(edges, cascade), initial, relations)
    {
      relations := initial;
      if !cascade {
        return;
      }
      var pending := edges;
      while exists edge :: edge in pending && edge.referenced in relations
        invariant initial <= relations && pending <= edges
        invariant forall edge :: edge in edges && edge !in pending ==> edge.referencing in relations
        invariant forall others: set<int> :: initial <= others && Closed(edges, others) ==> relations <= others
        decreases pending
      {
        var edge :| edge in pending && edge.referenced in relations;
        relations := relations + {edge.referencing};
        pending := pending - {edge};
      }
    }

    /** Locks and looks again until a look finds every relation locked already. */
    method LockClosure(initial: set<int>, cascade: bool) returns (stable: bool, relations: set<int>)
      modifies this
      ensures stable ==>
        IsClosure(Followed(edges, cascade), initial, relations) && relations <= locked
      ensures old(locked) <= locked
      ensures !stable ==> denials > old(denials) || |locked| >= |old(locked)| + 64
      ensures Respects(old(edges), edges, old(tables), tables, old(locked))
    {
      stable := false;
      relations := {};
      for attempt := 0 to 64
        invariant !stable && denials == old(denials) && old(locked) <= locked && |locked| >= |old(locked)| + attempt
        invariant Respects(old(edges), edges, old(tables), tables, old(locked))
      {
        relations := TruncateClosure(initial, cascade);
        var unlocked := relations - locked;
        if unlocked == {} {
          assert forall table :: table in relations && table !in locked ==> table in unlocked;
          stable := true;
          return;
        }
        ghost var before, held := |locked|, locked;
        var granted := Lock(unlocked);
        if !granted {
          return;
        }
        assert |held + unlocked| == |held| + |unlocked|;
      }
    }

    /** The rows a TRUNCATE will remove, or None when they cannot be known. */
    method CaptureTruncateEffect(targets: set<int>, cascade: bool)
      returns (effect: Option<map<int, nat>>, relations: set<int>)
      modifies this
      ensures old(locked) <= locked
      ensures effect.Some? ==>
        && relations <= locked && IsClosure(Followed(edges, cascade), targets, relations)
        && Countable(tables, relations) && effect.value == Counts(tables, relations)
      ensures effect.None? ==>
        targets == {} || denials > old(denials) || |locked| >= |old(locked)| + 64 || !Countable(tables, relations)
    {
      effect, relations := None, {};
      var granted := Lock(targets);
      if !granted || targets == {} {
        return;
      }
      CardGrows(old(locked), locked);
      var stable;
      stable, relations := LockClosure(targets, cascade);
      if !stable {
        return;
      }
      if forall table :: table in relations && table in tables ==> CountableTable(tables[table]) {
        effect := Some(Counts(tables, relations));
      }
    }

    /** PostgreSQL's own TRUNCATE: it finds its relations and empties them. */
    method Truncate(targets: set<int>, cascade: bool) returns (removed: map<int, nat>)
      modifies this`tables
      ensures exists relations: set<int> ::
        IsClosure(Followed(edges, cascade), targets, relations) && removed == Counts(old(tables), relations)
    {
      var relations := TruncateClosure(targets, cascade);
      removed := Counts(tables, relations);
      tables := map table | table in tables ::
        if table in relations then tables[table].(rows := 0) else tables[table];
    }

    /** Whatever other sessions do in between, a TRUNCATE removes exactly the rows
        that were counted before it. */
    method CountThenTruncate(targets: set<int>, cascade: bool)
      returns (effect: Option<map<int, nat>>, removed: map<int, nat>)
      modifies this
      ensures effect.Some? ==> removed == effect.value
    {
      var relations;
      effect, relations := CaptureTruncateEffect(targets, cascade);
      ghost var before, counted := edges, tables;
      Interfere();
      if effect.Some? {
        ClosureStable(before, edges, cascade, targets, relations, locked);
        CountsStable(before, edges, counted, tables, relations, locked);
      }
      removed := Truncate(targets, cascade);
    }
  }
}
