/**
 When a complete summary is the truth. The ledger always credits `Total - Lost`; over
 whole runs a complete summary lists the true rows if and only if no TRUNCATE among
 the surviving effects reset a counter that had moved since it was sampled. Only a
 cycle that writes a table and then truncates it can do that; one such run is taken
 through to its COMMIT.
 */
module Exactness {
  import opened Wrappers
  import opened Accounting
  import opened Postgres
  import opened SharedSession
  import opened Proxying
  import opened Interleaving
  import opened Finalizing
  import opened SampleQueries

  /** No TRUNCATE reset a counter whose movement had not been sampled. */
  ghost predicate Lossless(writes: seq<Effect>) {
    forall i :: 0 <= i < |writes| ==> Harmless(writes[i])
  }

  ghost predicate Harmless(effect: Effect) {
    forall cell :: At(effect.lost, cell) == 0
  }

  ghost predicate Exact(s: Shared) {
    && Lossless(s.work.writes)
    && (s.block.Some? ==>
          && Lossless(s.block.value.base.writes)
          && forall i :: 0 <= i < |s.block.value.saves| ==> Lossless(s.block.value.saves[i].saved.writes))
    && (s.cycle.Some? ==> Lossless(s.cycle.value.mark.writes) && Lossless(s.cycle.value.settled.writes))
  }

  /** The tables this statement truncates were not written since the last sample. */
  ghost predicate Unmoved(statement: Statement, work: Work, settled: Work) {
    statement.kind.Regular? ==>
      forall cell: Cell :: cell.table in statement.kind.query.truncates ==>
        Credited(work.writes, cell) == Credited(settled.writes, cell)
  }

  /** Only a TRUNCATE inside a cycle can meet counters that moved. */
  ghost predicate Calm(s: Shared, event: Event) {
    event.message.ExecuteMessage? && s.cycle.Some? ==>
      Unmoved(event.message.statement, s.work, s.cycle.value.settled)
  }

  ghost predicate AllCalm(s: Shared, events: seq<Event>)
    requires Admitted(s, events)
    decreases |events|
  {
    events == [] || (Calm(s, events[0]) && AllCalm(Handle(s, events[0]).next, events[1..]))
  }

  lemma {:induction false} NothingLost(writes: seq<Effect>)
    requires Lossless(writes)
    ensures forall cell :: Lost(writes, cell) == 0 && Credited(writes, cell) == Total(writes, cell)
  {
    if writes != [] {
      var earlier := writes[..|writes| - 1];
      assert forall i :: 0 <= i < |earlier| ==> earlier[i] == writes[i];
      NothingLost(earlier);
      assert Harmless(writes[|writes| - 1]);
      forall cell
        ensures Lost(writes, cell) == 0
      {
        assert Lost(earlier, cell) == 0;
      }
    }
  }

  /** What the last effect lost is what had not been sampled. */
  lemma LosslessNext(query: Query, work: Work, settled: Work)
    requires Lossless(work.writes)
    ensures
      Lossless(Advanced(work, query, Missed(query, work, settled)).writes) <==>
      Unmoved(Statement(Regular(query), ""), work, settled)
  {
    var lost := Missed(query, work, settled);
    var next := Advanced(work, query, lost).writes;
    MissedAt(query, work, settled);
    assert next[..|work.writes|] == work.writes;
    assert next[|work.writes|].lost == lost;
    if Lossless(next) {
      assert Harmless(next[|work.writes|]);
      forall cell: Cell | cell.table in query.truncates
        ensures Credited(work.writes, cell) == Credited(settled.writes, cell)
      {
        assert At(lost, cell) == 0;
      }
    }
  }

  lemma PlainExact(query: Query, work: Work)
    requires Lossless(work.writes)
    ensures Lossless(Advanced(work, query, map[]).writes)
  {
  }

  lemma StepExact(s: Shared, client: nat, statement: Statement, settled: Work)
    requires Exact(s) && Unmoved(statement, s.work, settled)
    ensures Exact(Step(s, client, statement, settled).next)
  {
    hide Lossless, Control, Run;
    if statement.kind.Regular? {
      RunExact(s, client, statement.kind.query, settled);
    } else if !statement.kind.Forbidden? {
      ControlExact(s, client, statement.kind);
    }
  }

  lemma RunExact(s: Shared, client: nat, query: Query, settled: Work)
    requires Exact(s) && Unmoved(Statement(Regular(query), ""), s.work, settled)
    ensures Exact(Run(s, client, query, true, settled).next) && Exact(Run(s, client, query, false, settled).next)
  {
    LosslessNext(query, s.work, settled);
    hide Lossless;
  }

  lemma ControlExact(s: Shared, client: nat, kind: Kind)
    requires Exact(s) && !kind.Regular?
    ensures Exact(Control(s, client, kind).next)
  {
    hide Lossless;
  }

  lemma {:induction false} StepsExact(s: Shared, client: nat, statements: seq<Statement>)
    requires Exact(s)
    ensures Exact(Steps(s, client, statements).next)
    decreases |statements|
  {
    hide Exact, Step;
    if statements != [] {
      StepExact(s, client, statements[0], s.work);
      StepsExact(Step(s, client, statements[0], s.work).next, client, statements[1..]);
    }
  }

  lemma ExecuteExact(s: Shared, statement: Statement)
    requires s.cycle.Some? && Exact(s) && Unmoved(statement, s.work, s.cycle.value.settled)
    ensures Exact(Execute(s, statement).next)
  {
    hide Step, Lossless;
    var cycle := s.cycle.value;
    var doomed := s.(cycle := Some(cycle.(doomed := true)));
    if statement.kind.Regular? {
      StepExact(s, cycle.client, statement, cycle.settled);
      StepExact(doomed, cycle.client, statement, cycle.settled);
      PlainExact(statement.kind.query, s.work);
    } else {
      StepExact(s.(work := Kept(s)), cycle.client, statement, Kept(s));
      StepExact(doomed.(work := Kept(doomed)), cycle.client, statement, Kept(doomed));
    }
  }

  lemma HandleExact(s: Shared, event: Event)
    requires Exact(s) && Enabled(s, event) && Calm(s, event)
    ensures Exact(Handle(s, event).next)
  {
    hide Step, Steps, Execute, Lossless;
    match event.message
    case SimpleQuery(parsed) =>
      StepsExact(Synced(s), event.client, if parsed == [] then [EMPTY_STATEMENT] else parsed);
    case ExecuteMessage(statement) =>
      ExecuteExact(InCycle(s, event.client), statement);
    case _ =>
  }

  /** Over whole runs: unless some cycle truncates a table it wrote, the ledger's
      credit is the exact number of surviving row changes. */
  lemma {:induction false} CalmRunsAreExact(s: Shared, events: seq<Event>)
    requires Exact(s) && Admitted(s, events) && AllCalm(s, events)
    ensures Exact(Play(s, events))
    ensures
      var writes := Play(s, events).work.writes;
      forall cell :: Credited(writes, cell) == Total(writes, cell)
    decreases |events|
  {
    hide Handle;
    if events != [] {
      HandleExact(s, events[0]);
      CalmRunsAreExact(Handle(s, events[0]).next, events[1..]);
    } else {
      NothingLost(s.work.writes);
    }
  }

  /** Reviewed is committed: when no cycle truncated what it had written, a complete
      summary lists exactly the row changes of the work that COMMIT keeps. */
  lemma ReviewedIsCommitted(s: Shared, events: seq<Event>, changes: Changes)
    requires Exact(s) && Admitted(s, events) && AllCalm(s, events)
    requires changes.complete && Truthful(changes, Remaining(Play(s, events)))
    ensures
      var writes := Remaining(Play(s, events)).writes;
      Risks(writes) == {} && forall cell :: At(changes.rows, cell) == Total(writes, cell)
  {
    CalmRunsAreExact(s, events);
    NothingLost(Remaining(Play(s, events)).writes);
  }

  /* Exactly when. */

  /** Counts and losses are never negative while nothing uncountable survives. */
  ghost predicate Sound(writes: seq<Effect>) {
    forall i :: 0 <= i < |writes| ==> SoundAt(writes, i)
  }

  ghost predicate SoundAt(writes: seq<Effect>, i: nat)
    requires i < |writes|
  {
    && (writes[i].risk == "" ==> NonNegative(writes[i].counts))
    && (Risks(writes[..i]) == {} && writes[i].risk == "" ==> NonNegative(writes[i].lost))
  }

  /** Since `settled` only effects that lose nothing were added. */
  ghost predicate Since(work: Work, settled: Work) {
    settled.writes <= work.writes &&
    forall i :: |settled.writes| <= i < |work.writes| ==> work.writes[i].lost == map[]
  }

  ghost predicate AllSound(s: Shared) {
    && Sound(s.work.writes)
    && (s.block.Some? ==>
          && Sound(s.block.value.base.writes)
          && forall i :: 0 <= i < |s.block.value.saves| ==> Sound(s.block.value.saves[i].saved.writes))
    && (s.cycle.Some? ==> Sound(s.cycle.value.mark.writes))
  }

  ghost predicate Grounded(s: Shared) {
    AllSound(s) && (s.cycle.Some? ==> Since(s.work, s.cycle.value.settled))
  }

  lemma {:induction false} CreditGrows(writes: seq<Effect>, count: nat)
    requires count <= |writes| && Sound(writes) && Risks(writes) == {}
    requires forall i :: count <= i < |writes| ==> writes[i].lost == map[]
    ensures forall cell :: Credited(writes, cell) >= Credited(writes[..count], cell)
    decreases |writes|
  {
    var last := |writes| - 1;
    if count == |writes| {
      assert writes[..count] == writes;
    } else {
      var earlier := writes[..last];
      SoundPrefix(writes, last);
      CreditGrows(earlier, count);
      assert earlier[..count] == writes[..count];
      assert SoundAt(writes, last);
      forall cell
        ensures Credited(writes, cell) >= Credited(earlier, cell)
      {
        assert At(writes[last].counts, cell) >= 0 && At(writes[last].lost, cell) == 0;
      }
    }
  }

  lemma SoundPrefix(writes: seq<Effect>, count: nat)
    requires Sound(writes) && count <= |writes|
    ensures Sound(writes[..count])
  {
    forall i | 0 <= i < count
      ensures SoundAt(writes[..count], i)
    {
      assert SoundAt(writes, i) && writes[..count][..i] == writes[..i];
    }
  }

  lemma SoundAppend(writes: seq<Effect>, effect: Effect)
    requires Sound(writes)
    requires effect.risk == "" ==> NonNegative(effect.counts)
    requires effect.risk == "" && Risks(writes) == {} ==> NonNegative(effect.lost)
    ensures Sound(writes + [effect])
  {
    var longer := writes + [effect];
    forall i | 0 <= i < |longer|
      ensures SoundAt(longer, i)
    {
      if i < |writes| {
        assert SoundAt(writes, i) && longer[..i] == writes[..i];
      } else {
        assert longer[..i] == writes;
      }
    }
  }

  /** A run's next effect is sound when the last sample is no older than the work says. */
  lemma AdvancedSound(query: Query, work: Work, settled: Work)
    requires Sound(work.writes) && Since(work, settled) && query.run(work.data).ok
    ensures Sound(Advanced(work, query, Missed(query, work, settled)).writes)
  {
    var effect := Recorded(query, work, Missed(query, work, settled));
    var outcome := query.run(work.data);
    assert query.HonestOn(work.data);
    if effect.risk == "" {
      CountsSound(query, work);
      if Risks(work.writes) == {} {
        CreditGrows(work.writes, |settled.writes|);
        assert work.writes[..|settled.writes|] == settled.writes;
        MissedAt(query, work, settled);
      }
    }
    SoundAppend(work.writes, effect);
  }

  lemma CountsSound(query: Query, work: Work)
    requires query.run(work.data).ok && Recorded(query, work, map[]).risk == ""
    ensures NonNegative(query.run(work.data).counts)
  {
    assert query.HonestOn(work.data);
    var outcome := query.run(work.data);
    forall cell: Cell
      ensures At(outcome.counts, cell) >= 0
    {
      assert At(outcome.moved, cell) >= 0 && At(TruncatedRows(work.data, query.truncates), cell) >= 0;
    }
  }

  lemma PlainSound(query: Query, work: Work)
    requires Sound(work.writes) && query.run(work.data).ok
    ensures Sound(Advanced(work, query, map[]).writes)
  {
    if Recorded(query, work, map[]).risk == "" {
      CountsSound(query, work);
    }
    SoundAppend(work.writes, Recorded(query, work, map[]));
  }

  lemma SoundStep(s: Shared, client: nat, statement: Statement, settled: Work)
    requires AllSound(s) && Since(s.work, settled)
    ensures AllSound(Step(s, client, statement, settled).next)
  {
    hide Sound, Since, Control, Run;
    if statement.kind.Regular? {
      SoundRun(s, client, statement.kind.query, settled);
    } else if !statement.kind.Forbidden? {
      SoundControl(s, client, statement.kind);
    }
  }

  lemma SoundRun(s: Shared, client: nat, query: Query, settled: Work)
    requires AllSound(s) && Since(s.work, settled)
    ensures AllSound(Run(s, client, query, true, settled).next) && AllSound(Run(s, client, query, false, settled).next)
  {
    if query.run(s.work.data).ok {
      AdvancedSound(query, s.work, settled);
    }
    hide Sound, Since;
  }

  lemma SoundControl(s: Shared, client: nat, kind: Kind)
    requires AllSound(s) && !kind.Regular?
    ensures AllSound(Control(s, client, kind).next)
  {
    hide Sound, LastMark;
  }

  lemma {:induction false} SoundSteps(s: Shared, client: nat, statements: seq<Statement>)
    requires AllSound(s)
    ensures AllSound(Steps(s, client, statements).next)
    decreases |statements|
  {
    hide AllSound, Step;
    if statements != [] {
      SoundStep(s, client, statements[0], s.work);
      SoundSteps(Step(s, client, statements[0], s.work).next, client, statements[1..]);
    }
  }

  lemma SoundExecute(s: Shared, statement: Statement)
    requires s.cycle.Some? && Grounded(s)
    ensures Grounded(Execute(s, statement).next)
  {
    var cycle := s.cycle.value;
    var doomed := s.(cycle := Some(cycle.(doomed := true)));
    if statement.kind.Regular? {
      SoundLocal(s, statement);
      SoundLocal(doomed, statement);
      SoundPlain(s, statement.kind.query);
    } else {
      SoundControlled(s, statement);
      SoundControlled(doomed, statement);
    }
    hide Step, Sound, Advanced, Missed, ExecuteLocal, ExecuteControl;
  }

  lemma SoundLocal(s: Shared, statement: Statement)
    requires s.cycle.Some? && Grounded(s) && statement.kind.Regular?
    ensures Grounded(ExecuteLocal(s, statement).next)
  {
    var cycle := s.cycle.value;
    SoundStep(s, cycle.client, statement, cycle.settled);
    FailedStepKeeps(s, cycle.client, statement, cycle.settled);
    hide Step, Sound;
  }

  lemma SoundControlled(s: Shared, statement: Statement)
    requires s.cycle.Some? && Grounded(s) && !statement.kind.Regular?
    ensures Grounded(ExecuteControl(s, statement).next)
  {
    assert Since(Kept(s), Kept(s));
    SoundStep(s.(work := Kept(s)), s.cycle.value.client, statement, Kept(s));
    hide Step, Sound;
  }

  lemma FailedStepKeeps(s: Shared, client: nat, statement: Statement, settled: Work)
    requires statement.kind.Regular?
    ensures Step(s, client, statement, settled).failed ==> Step(s, client, statement, settled).next.work == s.work
  {
  }

  lemma SoundPlain(s: Shared, query: Query)
    requires s.cycle.Some? && Grounded(s)
    ensures
      query.run(s.work.data).ok ==>
        var work := Advanced(s.work, query, map[]);
        Sound(work.writes) && Since(work, s.cycle.value.settled)
  {
    if query.run(s.work.data).ok {
      PlainSound(query, s.work);
    }
  }

  lemma SoundHandle(s: Shared, event: Event)
    requires Grounded(s) && Enabled(s, event)
    ensures Grounded(Handle(s, event).next)
  {
    hide Step, Steps, Execute, Sound, Since;
    assert Since(s.work, s.work) by { SinceSelf(s.work); }
    match event.message
    case SimpleQuery(parsed) =>
      var statements := if parsed == [] then [EMPTY_STATEMENT] else parsed;
      SoundSteps(Synced(s), event.client, statements);
      StepsKeepCycle(Synced(s), event.client, statements);
    case ExecuteMessage(statement) =>
      SoundExecute(InCycle(s, event.client), statement);
    case _ =>
  }

  lemma SinceSelf(work: Work)
    ensures Since(work, work)
  {
  }

  lemma {:induction false} SoundRuns(s: Shared, events: seq<Event>)
    requires Grounded(s) && Admitted(s, events)
    ensures Grounded(Play(s, events))
    decreases |events|
  {
    hide Handle, Grounded;
    if events != [] {
      SoundHandle(s, events[0]);
      SoundRuns(Handle(s, events[0]).next, events[1..]);
    }
  }

  lemma {:induction false} LossesPositive(writes: seq<Effect>)
    requires Sound(writes) && Risks(writes) == {}
    ensures forall cell :: Lost(writes, cell) >= 0
  {
    if writes != [] {
      var last := |writes| - 1;
      SoundPrefix(writes, last);
      LossesPositive(writes[..last]);
      assert SoundAt(writes, last);
      forall cell
        ensures Lost(writes, cell) >= 0
      {
        assert Lost(writes[..last], cell) >= 0 && At(writes[last].lost, cell) >= 0;
      }
    }
  }

  /** Losses add up to nothing only if there is none. */
  lemma {:induction false} LossesAdd(writes: seq<Effect>)
    requires Sound(writes) && Risks(writes) == {} && NoLoss(writes)
    ensures Lossless(writes)
  {
    if writes != [] {
      var last := |writes| - 1;
      var earlier := writes[..last];
      SoundPrefix(writes, last);
      LossesPositive(earlier);
      assert SoundAt(writes, last);
      forall cell
        ensures Lost(earlier, cell) == 0 && At(writes[last].lost, cell) == 0
      {
        assert Lost(writes, cell) == 0 && Lost(earlier, cell) >= 0 && At(writes[last].lost, cell) >= 0;
      }
      LossesAdd(earlier);
      forall i | 0 <= i < |writes|
        ensures Harmless(writes[i])
      {
        assert i < last ==> Harmless(earlier[i]);
      }
    }
  }

  /** A TRUNCATE met unsampled movement exactly when its tables' counters differed from
      their last sample. */
  lemma HarmlessExactly(
    query: Query, work: Work, settled: Work, uncertain: seq<string>, ledger: Ledger,
    counters: Ledger, sampled: Ledger, noted: set<string>)
    requires Balanced(uncertain, true, ledger, counters, sampled, settled.writes, work.writes, noted)
    requires Risks(work.writes) == {}
    ensures
      Harmless(Recorded(query, work, Missed(query, work, settled))) <==> Still(counters, sampled, query.truncates)
  {
    var lost := Missed(query, work, settled);
    MissedAt(query, work, settled);
    forall cell: Cell
      ensures At(lost, cell) == if cell.table in query.truncates then At(counters, cell) - At(sampled, cell) else 0
    {
      assert At(ledger, cell) + At(counters, cell) - At(sampled, cell) == Credited(work.writes, cell);
      assert At(ledger, cell) == Credited(settled.writes, cell);
    }
  }

  /** In every run a complete summary lists the true rows of the work COMMIT keeps if and
      only if no surviving TRUNCATE met movement that had not been sampled. */
  lemma ReviewedExactlyWhen(s: Shared, events: seq<Event>, changes: Changes)
    requires Grounded(s) && Admitted(s, events)
    requires changes.complete && Truthful(changes, Remaining(Play(s, events)))
    ensures
      var writes := Remaining(Play(s, events)).writes;
      Exactly(changes.rows, writes) <==> Lossless(writes)
  {
    var writes := Remaining(Play(s, events)).writes;
    SoundRuns(s, events);
    if Lossless(writes) {
      NothingLost(writes);
    }
    if Exactly(changes.rows, writes) {
      assert NoLoss(writes) by { ExactNoLoss(changes.rows, writes); }
      LossesAdd(writes);
    }
  }

  lemma ExactNoLoss(rows: Ledger, writes: seq<Effect>)
    requires Exactly(rows, writes) && forall cell :: At(rows, cell) == Credited(writes, cell)
    ensures NoLoss(writes)
  {
    forall cell
      ensures Lost(writes, cell) == 0
    {
      assert At(rows, cell) == Credited(writes, cell) && At(rows, cell) == Total(writes, cell);
    }
  }

  /* The run in which a complete summary would be wrong. */

  const START := Shared(Work(Database(map[]), []), None, None, 0)

  function Executing(query: Query): Event {
    Event(1, ExecuteMessage(Statement(Regular(query), "")))
  }

  lemma InsertCounts(query: Query)
    requires query == INSERT
    ensures
      var s := Handle(START, Executing(query)).next;
      && s == START.(work := Advanced(START.work, query, map[]), cycle := StartCycle(START, 1).cycle)
      && Total(s.work.writes, ROW) == 1 && Credited(s.work.writes, ROW) == 1 && Risks(s.work.writes) == {}
  {
    var effect := Recorded(query, START.work, map[]);
    Append([], effect);
    assert [] + [effect] == Advanced(START.work, query, map[]).writes;
  }

  lemma TruncateForgets(s: Shared, query: Query)
    requires query == TRUNCATE
    requires s.block.None? && s.cycle == StartCycle(START, 1).cycle && s.escape == 0
    requires Total(s.work.writes, ROW) == 1 && Credited(s.work.writes, ROW) == 1 && Risks(s.work.writes) == {}
    ensures
      var next := Handle(s, Executing(query)).next;
      && next.cycle.Some? && next.cycle.value.client == 1 && next.cycle.value.Keeps() && next.block.None?
      && Total(next.work.writes, ROW) == 1 && Credited(next.work.writes, ROW) == 0
      && Risks(next.work.writes) == {}
  {
  }

  /** One cycle inserts a row and truncates the table: nothing is uncertain, yet the
      inserted row is missing from what the ledger can credit. */
  lemma WriteThenTruncateLoses()
    ensures
      var events := [Executing(Inserting()), Executing(Truncating()), Event(1, SyncMessage)];
      && Admitted(START, events)
      && var end := Play(START, events);
         && end.cycle.None? && end.block.None?
         && Risks(end.work.writes) == {}
         && Total(end.work.writes, ROW) == 1
         && Credited(end.work.writes, ROW) == 0
  {
    var insert, truncate, sync := Inserting(), Truncating(), Event(1, SyncMessage);
    var events := [Executing(insert), Executing(truncate), sync];
    InsertCounts(insert);
    var inserted := Handle(START, events[0]).next;
    TruncateForgets(inserted, truncate);
    var truncated := Handle(inserted, events[1]).next;
    Synchronized(truncated);
    hide Handle;
    assert events[1..] == [Executing(truncate), sync] && events[1..][1..] == [sync];
    var synced := Handle(truncated, sync).next;
    assert Admitted(synced, []) && Play(synced, []) == synced;
    assert [sync][1..] == [];
    assert Admitted(truncated, [sync]) && Play(truncated, [sync]) == synced;
    assert Admitted(inserted, events[1..]) && Play(inserted, events[1..]) == synced;
    assert Admitted(START, events) && Play(START, events) == synced;
  }

  method LosingRun() returns (proxy: Proxy, client: ClientState)
    ensures fresh(proxy) && fresh(proxy.backend) && fresh(client)
    ensures Steady(proxy, [client]) && Numbered(proxy.shared, [client])
    ensures
      var s := proxy.shared;
      s.cycle.None? && s.block.None? && Risks(s.work.writes) == {} &&
      Total(s.work.writes, ROW) == 1 && Credited(s.work.writes, ROW) == 0
  {
    hide Handle, Steady, Play, Admitted, Heard;
    proxy, client := NewProxy();
    var events := [Executing(Inserting()), Executing(Truncating()), Event(1, SyncMessage)];
    WriteThenTruncateLoses();
    Serve(proxy, [client], events);
  }

  /** The run taken to its end: whenever the counters can be read, the session commits
      and its complete summary does not list the row that was inserted. */
  method CommitLosesRow(catalog: seq<string>) returns (session: Session, verdict: Verdict)
    ensures !session.proxy.backend.unread ==> verdict.Committed?
    ensures verdict.Committed? ==>
      && session.changes.complete && At(session.changes.rows, ROW) == 0
      && session.proxy.backend.committed.Some?
      && Total(session.proxy.backend.committed.value.writes, ROW) == 1
  {
    hide Steady;
    var proxy, client := LosingRun();
    session := new Session(proxy);
    session.Stopped([client]);
    verdict := session.Finalize(Decision.Commit, [client], Some(catalog));
  }

  /** A new proxy with one client. */
  method NewProxy() returns (proxy: Proxy, client: ClientState)
    ensures fresh(proxy) && fresh(proxy.backend) && fresh(client)
    ensures proxy.shared == START && client.id == 1 && Steady(proxy, [client])
  {
    var backend := new Backend(Database(map[]), map[]);
    proxy := new Proxy(backend);
    client := new ClientState(1);
    assert Waits(proxy, client);
  }

  lemma Synchronized(s: Shared)
    requires s.cycle.Some? && s.cycle.value.client == 1 && s.cycle.value.Keeps()
    ensures Handle(s, Event(1, SyncMessage)).next == s.(cycle := None)
  {
  }
}
