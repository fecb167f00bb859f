/**
 What clients are answered beside another client's block, and that what they are told was
 done is there in the end: from any point of a cycle and in a query string, a statement of
 theirs that does not only read is refused, a read is answered and undone; and without
 another client's block every statement answered as done is part of the staged work.
 */
module Leases {
  import opened Wrappers
  import opened Accounting
  import opened Postgres
  import opened SharedSession
  import opened Interleaving

  const LEASED := Error("55P03")

  /** The cycle the message stands in, or would open, has not failed. */
  predicate Going(s: Shared, client: nat) {
    s.cycle.Some? ==> s.cycle.value.client == client && !s.cycle.value.failed
  }

  /** What the work goes back to if the client's cycle fails. */
  function Fallback(s: Shared): Work {
    if s.cycle.Some? then s.cycle.value.mark else s.work
  }

  /** Another client has the block, or runs a statement outside the transaction: then not
      even reads run beside it. */
  predicate Barred(s: Shared, client: nat, statement: Statement) {
    statement.kind.Regular? && s.Leased(client) && (s.Escaping(client) || !statement.kind.query.readOnly)
  }

  /* Single messages. */

  /** From any point of a cycle that has not failed: refused, and the cycle has failed.
      Nothing it did will stay. */
  lemma RefusedInCycle(s: Shared, client: nat, statement: Statement)
    requires Enabled(s, Event(client, ExecuteMessage(statement))) && Going(s, client)
    requires Barred(s, client, statement)
    ensures
      var turn := Handle(s, Event(client, ExecuteMessage(statement)));
      && turn.replies == [LEASED] && turn.failed
      && turn.next.cycle.Some? && turn.next.cycle.value.failed
      && turn.next.block == s.block && turn.next.work == s.work && Fallback(turn.next) == Fallback(s)
  {
  }

  /** A read beside another client's block sees the staged work and is answered from it,
      unless the proxy refuses it; answered or not, nothing of its cycle will stay. */
  lemma ReadInCycle(s: Shared, client: nat, query: Query, refusal: string)
    requires Enabled(s, Event(client, ExecuteMessage(Statement(Regular(query), refusal)))) && Going(s, client)
    requires s.Leased(client) && !s.Escaping(client) && query.readOnly
    ensures
      var turn := Handle(s, Event(client, ExecuteMessage(Statement(Regular(query), refusal))));
      var outcome := query.run(s.work.data);
      && turn.replies == (if refusal != "" then [Error("0A000")] else outcome.Replies())
      && turn.failed == (refusal != "" || !outcome.ok)
      && turn.next.cycle.Some? && turn.next.cycle.value.doomed && turn.next.cycle.value.failed == turn.failed
      && turn.next.block == s.block && Fallback(turn.next) == Fallback(s)
      && turn.next.work.data == (if turn.failed then s.work.data else outcome.data)
  {
    assert query.Honest();
  }

  /** Transaction control of a client without a block of its own, beside another's. */
  lemma ControlInCycle(s: Shared, client: nat, statement: Statement)
    requires Enabled(s, Event(client, ExecuteMessage(statement))) && Going(s, client)
    requires s.Leased(client) && !s.Owned(client) && !statement.kind.Regular?
    ensures
      var turn := Handle(s, Event(client, ExecuteMessage(statement)));
      && turn.replies == ControlAnswer(statement) && (turn.failed <==> Fails(turn.replies))
      && turn.next.cycle.Some? && turn.next.block == s.block
      && turn.next.cycle.value.failed == turn.failed
  {
    var replies := ControlAnswer(statement);
    assert Fails(replies) <==> replies[0].Error?;
  }

  /** Nothing can begin and there is nothing to end. */
  function ControlAnswer(statement: Statement): seq<Reply>
    requires !statement.kind.Regular?
  {
    if statement.refusal != "" then [Error("0A000")]
    else
      match statement.kind
      case Forbidden => [Error("0A000")]
      case Begin(options) => [if options then Error("0A000") else LEASED]
      case Commit(_) => [Notice("25P01"), Plain("COMMIT")]
      case Rollback(_) => [Notice("25P01"), Plain("ROLLBACK")]
      case _ => [Error("25P01")]
  }

  predicate Fails(replies: seq<Reply>) {
    exists i :: 0 <= i < |replies| && replies[i].Error?
  }

  /** A failed cycle hears nothing until Sync, and its client's block, if it has one, is
      failed then. */
  lemma {:induction false} SilentUntilSync(s: Shared, client: nat, events: seq<Event>)
    requires s.cycle.Some? && s.cycle.value.client == client && s.cycle.value.failed && client > 0
    requires forall i :: 0 <= i < |events| ==>
      events[i].client == client && (events[i].message.ExecuteMessage? || events[i].message.BadExtended?)
    ensures Admitted(s, events + [Event(client, SyncMessage)])
    ensures
      var end := Play(s, events + [Event(client, SyncMessage)]);
      end.work == Fallback(s) && end.cycle.None?
    ensures
      Heard(s, events + [Event(client, SyncMessage)], client) == [Ready(if s.Owned(client) then 'E' else 'I')]
    decreases |events|
  {
    var all := events + [Event(client, SyncMessage)];
    if events == [] {
      assert all[1..] == [];
    } else {
      assert all[1..] == events[1..] + [Event(client, SyncMessage)];
      assert Handle(s, all[0]) == Turn(s, [], true);
      SilentUntilSync(s, client, events[1..]);
    }
  }

  /** A whole rest of a cycle in which a barred statement comes: refused once, silence until
      Sync, and the staged work is what it was before the cycle. */
  lemma RefusedUntilSync(s: Shared, client: nat, statement: Statement, events: seq<Event>)
    requires client > 0 && Going(s, client) && Barred(s, client, statement)
    requires forall i :: 0 <= i < |events| ==>
      events[i].client == client && (events[i].message.ExecuteMessage? || events[i].message.BadExtended?)
    ensures
      var all := [Event(client, ExecuteMessage(statement))] + events + [Event(client, SyncMessage)];
      && Admitted(s, all) && Play(s, all).work == Fallback(s)
      && Heard(s, all, client) == [LEASED, Ready(if s.Owned(client) then 'E' else 'I')]
  {
    RefusedInCycle(s, client, statement);
    var all := [Event(client, ExecuteMessage(statement))] + events + [Event(client, SyncMessage)];
    assert all[1..] == events + [Event(client, SyncMessage)];
    SilentUntilSync(Handle(s, all[0]).next, client, events);
    hide Handle;
  }

  /* Query strings. */

  lemma {:induction false} StepsBefore(s: Shared, client: nat, first: seq<Statement>, second: seq<Statement>)
    ensures
      var start := Steps(s, client, first);
      Steps(s, client, first + second)
      == if start.failed then start
         else
           var rest := Steps(start.next, client, second);
           Turn(rest.next, start.replies + rest.replies, rest.failed)
    decreases |first|
  {
    hide Step;
    if first == [] {
      assert first + second == second;
    } else {
      assert (first + second)[0] == first[0] && (first + second)[1..] == first[1..] + second;
      StepsBefore(Step(s, client, first[0], s.work).next, client, first[1..], second);
    }
  }

  /** Beside another client's block or statement outside the transaction, a string is
      answered up to its first barred statement, which is refused, and nothing of the rest
      is run; `done` is what the statements before that one came to. */
  lemma RefusedInQuery(
    s: Shared, client: nat, first: seq<Statement>, statement: Statement, second: seq<Statement>, done: Turn)
    requires Enabled(s, Event(client, SimpleQuery(first + [statement] + second)))
    requires done == Steps(Synced(s), client, first) && !done.failed
    requires statement.refusal == "" && Barred(done.next, client, statement) && !done.next.OwnedFailed(client)
    ensures
      var turn := Handle(s, Event(client, SimpleQuery(first + [statement] + second)));
      && turn.failed && turn.next.block == done.next.block
      && turn.replies == done.replies + [LEASED, Ready(done.next.Status(client))]
      && (Synced(s).block.Some? && !Synced(s).Owned(client) ==> turn.next.work == Synced(s).work)
  {
    var idle := Synced(s);
    StepsBefore(idle, client, first, [statement] + second);
    assert first + ([statement] + second) == first + [statement] + second;
    assert ([statement] + second)[0] == statement;
    if idle.block.Some? && !idle.Owned(client) {
      StepsSpare(idle, client, first);
    }
    hide Steps;
  }

  /** What a client without a block is answered beside another's block, or, if not even
      reads run, beside its statement outside the transaction. */
  ghost function LeasedAnswer(data: Database, statement: Statement, mayRead: bool): seq<Reply> {
    if statement.refusal != "" then [Error("0A000")]
    else if !statement.kind.Regular? then ControlAnswer(statement)
    else if !mayRead || !statement.kind.query.readOnly then [LEASED]
    else statement.kind.query.run(data).Replies()
  }

  /** All see the same work: each is undone before the next. */
  ghost function LeasedAnswers(data: Database, statements: seq<Statement>, mayRead: bool): seq<Reply> {
    if statements == [] then []
    else
      var answer := LeasedAnswer(data, statements[0], mayRead);
      answer + if Fails(answer) then [] else LeasedAnswers(data, statements[1..], mayRead)
  }

  lemma {:induction false} CompletionsFine(tags: seq<Tag>)
    ensures !Fails(Completions(tags))
  {
    if tags != [] {
      CompletionsFine(tags[1..]);
      assert forall i :: 1 <= i < |Completions(tags)| ==> Completions(tags)[i] == Completions(tags[1..])[i - 1];
    }
  }

  lemma OutcomeFails(outcome: Outcome)
    ensures Fails(outcome.Replies()) <==> !outcome.ok
  {
    CompletionsFine(outcome.tags);
    var replies, middle := outcome.Replies(), Completions(outcome.tags);
    assert forall i :: 0 <= i < |middle| ==> replies[i + 1] == middle[i];
    if !outcome.ok {
      assert replies[|replies| - 1] == Error(outcome.code);
    }
  }

  lemma LeasedStep(s: Shared, client: nat, statement: Statement)
    requires s.Leased(client) && !s.Owned(client)
    ensures
      var answer := LeasedAnswer(s.work.data, statement, !s.Escaping(client));
      Step(s, client, statement, s.work) == Turn(s, answer, Fails(answer))
  {
    var answer := LeasedAnswer(s.work.data, statement, !s.Escaping(client));
    if statement.kind.Regular? && statement.refusal == "" && !s.Escaping(client) && statement.kind.query.readOnly {
      OutcomeFails(statement.kind.query.run(s.work.data));
      assert statement.kind.query.Honest();
      hide Fails;
    } else {
      assert Fails(answer) <==> answer[0].Error?;
    }
  }

  lemma {:induction false} LeasedSteps(s: Shared, client: nat, statements: seq<Statement>)
    requires s.Leased(client) && !s.Owned(client)
    ensures
      var turn := Steps(s, client, statements);
      turn.next == s && turn.replies == LeasedAnswers(s.work.data, statements, !s.Escaping(client))
    decreases |statements|
  {
    hide Step, LeasedAnswer, Fails, Shared.Leased, Shared.Owned, Shared.Escaping;
    if statements != [] {
      LeasedStep(s, client, statements[0]);
      var answer := LeasedAnswer(s.work.data, statements[0], !s.Escaping(client));
      assert answer + [] == answer;
      LeasedSteps(s, client, statements[1..]);
    }
  }

  /** Any query string beside another client's block leaves everything as it was. */
  lemma LeasedQuery(s: Shared, client: nat, statements: seq<Statement>)
    requires Enabled(s, Event(client, SimpleQuery(statements))) && statements != []
    requires s.Leased(client) && !s.Owned(client)
    ensures
      var idle, turn := Synced(s), Handle(s, Event(client, SimpleQuery(statements)));
      && turn.next == idle && turn.next.block == s.block && turn.next.work == (if s.cycle.Some? then Kept(s) else s.work)
      && turn.replies == LeasedAnswers(idle.work.data, statements, !s.Escaping(client)) + [Ready('I')]
  {
    hide Handle, Steps, LeasedAnswers, AllRegular;
    SyncedOwner(s, client);
    QueryIs(s, client, statements);
    LeasedSteps(Synced(s), client, statements);
  }

  lemma SyncedOwner(s: Shared, client: nat)
    requires s.cycle.Some? ==> s.cycle.value.client == client
    requires s.Leased(client) && !s.Owned(client)
    ensures Synced(s).Leased(client) && !Synced(s).Owned(client) && Synced(s).Status(client) == 'I'
    ensures Synced(s).block == s.block && Synced(s).escape == s.escape
  {
  }

  function Plainly(queries: seq<Query>): (statements: seq<Statement>)
    ensures |statements| == |queries|
    ensures forall i :: 0 <= i < |queries| ==> statements[i] == Statement(Regular(queries[i]), "")
  {
    seq(|queries|, i requires 0 <= i < |queries| => Statement(Regular(queries[i]), ""))
  }

  lemma QueryIs(s: Shared, client: nat, statements: seq<Statement>)
    requires Enabled(s, Event(client, SimpleQuery(statements))) && statements != []
    ensures
      var idle := Synced(s);
      var turn := Steps(idle, client, statements);
      var batched := turn.failed && !idle.Owned(client) && |statements| > 1 && AllRegular(statements);
      var next := if batched then turn.next.(work := idle.work) else turn.next;
      Handle(s, Event(client, SimpleQuery(statements)))
      == Turn(next, turn.replies + [Ready(next.Status(client))], turn.failed)
  {
    hide Steps, Synced, AllRegular;
  }

  /* What is answered as done is there. */

  /** All succeed, one after the other; `barred` is whether only reads are run. */
  ghost predicate Fine(data: Database, queries: seq<Query>, barred: bool)
    decreases |queries|
  {
    queries == [] ||
    ((barred ==> queries[0].readOnly) && queries[0].run(data).ok && Fine(queries[0].run(data).data, queries[1..], barred))
  }

  /** A TRUNCATE is announced first. */
  ghost function Answers(data: Database, queries: seq<Query>, barred: bool): seq<Reply>
    decreases |queries|
  {
    if queries == [] then []
    else if barred && !queries[0].readOnly then [LEASED]
    else
      var outcome := queries[0].run(data);
      (if queries[0].truncates != {} then [Notice("00000")] else []) + outcome.Replies()
      + if outcome.ok then Answers(outcome.data, queries[1..], barred) else []
  }

  /** One statement on top of the work: its data, and an effect of the rows it changed. */
  predicate Adds(next: Work, work: Work, query: Query) {
    && next.data == query.run(work.data).data
    && |next.writes| == |work.writes| + 1 && work.writes <= next.writes
    && next.writes[|work.writes|].counts == query.run(work.data).counts
  }

  ghost predicate Holding(work: Work, start: Work, queries: seq<Query>)
    decreases |queries|
  {
    if queries == [] then work == start
    else exists next: Work :: Adds(next, start, queries[0]) && Holding(work, next, queries[1..])
  }

  function Executes(client: nat, queries: seq<Query>): (events: seq<Event>)
    ensures |events| == |queries|
    ensures forall i :: 0 <= i < |queries| ==>
      events[i] == Event(client, ExecuteMessage(Statement(Regular(queries[i]), "")))
  {
    seq(|queries|, i requires 0 <= i < |queries| => Event(client, ExecuteMessage(Statement(Regular(queries[i]), ""))))
  }

  /** Inside a cycle that has not failed, with a block of its own that has not failed or
      none, and nobody outside the transaction. */
  predicate Ordinary(s: Shared, client: nat) {
    && s.cycle.Some? && s.cycle.value.client == client && !s.cycle.value.failed
    && client > 0 && !s.Escaping(client) && !s.OwnedFailed(client)
    && (s.cycle.value.doomed ==> s.Leased(client))
    && (s.Leased(client) && !s.cycle.value.doomed ==> s.work == s.cycle.value.mark)
  }

  lemma OrdinaryNext(s: Shared, client: nat, query: Query)
    requires Ordinary(s, client)
    ensures Enabled(s, Event(client, ExecuteMessage(Statement(Regular(query), ""))))
    ensures
      var barred, outcome := s.Leased(client), query.run(s.work.data);
      var turn := Handle(s, Event(client, ExecuteMessage(Statement(Regular(query), ""))));
      var next := turn.next;
      && s.cycle.Some? && next.cycle.Some? && next.cycle.value.client == client && client > 0
      && next.cycle.value.mark == s.cycle.value.mark && next.block.Some? == s.block.Some?
      && (next.Owned(client) <==> s.Owned(client)) && next.Leased(client) == s.Leased(client)
      && if barred && !query.readOnly then turn.replies == [LEASED] && next.cycle.value.failed
         else
           && turn.replies == Announcement(query) + outcome.Replies() && next.cycle.value.failed == !outcome.ok
           && (outcome.ok ==>
                 Ordinary(next, client) && Adds(next.work, s.work, query) && next.Status(client) == s.Status(client))
  {
    assert query.Honest();
  }

  /** What a cycle keeps of what it still runs. */
  ghost predicate CycleEnding(s: Shared, client: nat, queries: seq<Query>, end: Shared, heard: seq<Reply>) {
    var barred := s.Leased(client);
    var fine := Fine(s.work.data, queries, barred);
    && heard == Answers(s.work.data, queries, barred)
                + [Ready(if fine then s.Status(client) else if s.Owned(client) then 'E' else 'I')]
    && (if fine && !barred then Holding(end.work, s.work, queries) else end.work == Fallback(s))
    && end.cycle.None?
  }

  lemma CycleEnds(s: Shared, client: nat)
    requires Ordinary(s, client)
    ensures
      var all := [Event(client, SyncMessage)];
      Admitted(s, all) && CycleEnding(s, client, [], Play(s, all), Heard(s, all, client))
  {
    assert [Event(client, SyncMessage)][1..] == [];
  }

  /** The rest of a cycle, from any point of it: every statement is answered as on what
      those before it left, up to the first that fails or is barred. If none does, what was
      answered as done is part of the work; if one does, or another client has the block,
      the work is what it was before the cycle. */
  lemma {:induction false} CycleKeeps(s: Shared, client: nat, queries: seq<Query>)
    requires Ordinary(s, client)
    ensures
      var all := Executes(client, queries) + [Event(client, SyncMessage)];
      Admitted(s, all) && CycleEnding(s, client, queries, Play(s, all), Heard(s, all, client))
    decreases |queries|
  {
    hide Handle, Ordinary, Adds, FinishCycle, Shared.Leased, Shared.Status;
    var all := Executes(client, queries) + [Event(client, SyncMessage)];
    if queries == [] {
      CycleEnds(s, client);
      assert all == [Event(client, SyncMessage)];
    } else {
      OrdinaryNext(s, client, queries[0]);
      var turn := Handle(s, all[0]);
      assert all[1..] == Executes(client, queries[1..]) + [Event(client, SyncMessage)];
      assert turn.replies + [] == turn.replies;
      if turn.next.cycle.value.failed {
        SilentUntilSync(turn.next, client, Executes(client, queries[1..]));
      } else {
        CycleKeeps(turn.next, client, queries[1..]);
      }
    }
  }

  /** A whole cycle, from its first message to its Sync. */
  lemma WholeCycle(s: Shared, client: nat, queries: seq<Query>)
    requires s.cycle.None? && client > 0 && !s.Escaping(client) && !s.OwnedFailed(client)
    ensures
      var all := Executes(client, queries) + [Event(client, SyncMessage)];
      Admitted(s, all) && CycleEnding(s, client, queries, Play(s, all), Heard(s, all, client))
  {
    var all := Executes(client, queries) + [Event(client, SyncMessage)];
    CycleKeeps(InCycle(s, client), client, queries);
    if queries == [] {
      assert all[1..] == [];
    } else {
      hide Execute, Fine, Answers, Holding;
      assert Handle(s, all[0]) == Handle(InCycle(s, client), all[0]);
    }
  }

  /* Any statements of a cycle beside another client's block. */

  /** A read sees what those before it did, until transaction control undoes that. */
  ghost function LeasedCycleAnswers(
    mark: Database, data: Database, statements: seq<Statement>, mayRead: bool): seq<Reply>
    decreases |statements|
  {
    if statements == [] then []
    else
      var statement := statements[0];
      if statement.kind.Regular? && (!mayRead || !statement.kind.query.readOnly) then [LEASED]
      else
        var answer := LeasedAnswer(data, statement, mayRead);
        var next := if statement.kind.Regular? then statement.kind.query.run(data).data else mark;
        answer + if Fails(answer) then [] else LeasedCycleAnswers(mark, next, statements[1..], mayRead)
  }

  function Executing(client: nat, statements: seq<Statement>): (events: seq<Event>)
    ensures |events| == |statements|
    ensures forall i :: 0 <= i < |statements| ==> events[i] == Event(client, ExecuteMessage(statements[i]))
  {
    seq(|statements|, i requires 0 <= i < |statements| => Event(client, ExecuteMessage(statements[i])))
  }

  /** In a cycle beside another client's block or statement outside the transaction. */
  predicate Beside(s: Shared, client: nat) {
    && s.cycle.Some? && s.cycle.value.client == client && !s.cycle.value.failed
    && client > 0 && s.Leased(client) && !s.Owned(client)
    && (!s.cycle.value.doomed ==> s.work == s.cycle.value.mark)
  }

  lemma BesideNext(s: Shared, client: nat, statement: Statement)
    requires Beside(s, client)
    ensures Enabled(s, Event(client, ExecuteMessage(statement)))
    ensures
      var mayRead, turn := !s.Escaping(client), Handle(s, Event(client, ExecuteMessage(statement)));
      var next := turn.next;
      var answer :=
        if statement.kind.Regular? && (!mayRead || !statement.kind.query.readOnly) then [LEASED]
        else LeasedAnswer(s.work.data, statement, mayRead);
      && s.cycle.Some? && next.cycle.Some? && next.cycle.value.client == client
      && turn.replies == answer && next.cycle.value.failed == Fails(answer)
      && (statement.kind.Regular? && (!mayRead || !statement.kind.query.readOnly) ==> next.cycle.value.failed)
      && next.cycle.value.mark == s.cycle.value.mark && next.Escaping(client) == s.Escaping(client)
      && next.Owned(client) == s.Owned(client)
      && (!Fails(answer) ==>
            && Beside(next, client)
            && next.work.data == if statement.kind.Regular? then statement.kind.query.run(s.work.data).data
                                 else s.cycle.value.mark.data)
  {
    if Barred(s, client, statement) {
      RefusedInCycle(s, client, statement);
      assert [LEASED][0].Error?;
    } else if statement.kind.Regular? {
      ReadInCycle(s, client, statement.kind.query, statement.refusal);
      if statement.refusal == "" {
        OutcomeFails(statement.kind.query.run(s.work.data));
      } else {
        assert [Error("0A000")][0].Error?;
      }
      hide Fails;
      assert Statement(Regular(statement.kind.query), statement.refusal) == statement;
    } else {
      ControlInCycle(s, client, statement);
    }
  }

  /** Any cycle beside another client's block is answered statement by statement up to the
      first error, and leaves the work as it was before it. */
  lemma {:induction false} LeasedCycle(s: Shared, client: nat, statements: seq<Statement>)
    requires Beside(s, client)
    ensures
      var all := Executing(client, statements) + [Event(client, SyncMessage)];
      && Admitted(s, all) && Play(s, all).work == Fallback(s) && Play(s, all).cycle.None?
      && Heard(s, all, client)
         == LeasedCycleAnswers(Fallback(s).data, s.work.data, statements, !s.Escaping(client)) + [Ready('I')]
    decreases |statements|
  {
    hide Handle, Beside, LeasedAnswer, Fails, FinishCycle, Shared.Leased;
    var all := Executing(client, statements) + [Event(client, SyncMessage)];
    if statements == [] {
      BesideEnds(s, client);
      assert all == [Event(client, SyncMessage)];
    } else {
      BesideNext(s, client, statements[0]);
      var turn := Handle(s, all[0]);
      assert all[1..] == Executing(client, statements[1..]) + [Event(client, SyncMessage)];
      assert turn.replies + [] == turn.replies;
      if turn.next.cycle.value.failed {
        NotOwned(s, client);
        SilentUntilSync(turn.next, client, Executing(client, statements[1..]));
      } else {
        LeasedCycle(turn.next, client, statements[1..]);
      }
    }
  }

  lemma NotOwned(s: Shared, client: nat)
    requires Beside(s, client)
    ensures !s.Owned(client) && client > 0
  {
  }

  lemma BesideEnds(s: Shared, client: nat)
    requires Beside(s, client)
    ensures
      var all := [Event(client, SyncMessage)];
      && Admitted(s, all) && Play(s, all).work == Fallback(s) && Play(s, all).cycle.None?
      && Heard(s, all, client) == [Ready('I')]
  {
    assert [Event(client, SyncMessage)][1..] == [];
  }

  lemma WholeLeasedCycle(s: Shared, client: nat, statements: seq<Statement>)
    requires s.cycle.None? && client > 0 && s.Leased(client) && !s.Owned(client)
    ensures
      var all := Executing(client, statements) + [Event(client, SyncMessage)];
      && Admitted(s, all) && Play(s, all).work == s.work && Play(s, all).cycle.None?
      && Heard(s, all, client)
         == LeasedCycleAnswers(s.work.data, s.work.data, statements, !s.Escaping(client)) + [Ready('I')]
  {
    var all := Executing(client, statements) + [Event(client, SyncMessage)];
    LeasedCycle(InCycle(s, client), client, statements);
    if statements == [] {
      assert all[1..] == [];
    } else {
      hide Execute, LeasedCycleAnswers;
      assert Handle(s, all[0]) == Handle(InCycle(s, client), all[0]);
    }
  }

  /** In a block of its own a client can end it, go back and do whatever is no ordinary
      statement as if no other client ran one outside the transaction. */
  lemma FlightIrrelevant(s: Shared, event: Event)
    requires Enabled(s, event) && s.Owned(event.client)
    requires
      match event.message
      case SimpleQuery(statements) => |statements| == 1 && !statements[0].kind.Regular?
      case ExecuteMessage(statement) => !statement.kind.Regular?
      case BadQuery => true
      case BadExtended(_) => true
      case SyncMessage => true
      case _ => false
    ensures
      var alone := s.(escape := 0);
      var turn, other := Handle(s, event), Handle(alone, event);
      turn == other.(next := other.next.(escape := s.escape))
  {
    match event.message
    case SimpleQuery(statements) =>
      var idle, other := Synced(s), Synced(s.(escape := 0));
      assert other == idle.(escape := 0) && idle.Owned(event.client) && idle.escape == s.escape;
      FlightStep(idle, event.client, statements[0], idle.work);
      OneStep(idle, event.client, statements[0]);
      OneStep(other, event.client, statements[0]);
      QueryIs(s, event.client, statements);
      QueryIs(s.(escape := 0), event.client, statements);
      assert statements == [statements[0]] && !AllRegular(statements);
      hide Step, Steps, AllRegular, Handle, Synced;
    case ExecuteMessage(statement) =>
      var cycling := InCycle(s, event.client);
      FlightStep(cycling.(work := Kept(cycling)), event.client, statement, Kept(cycling));
      hide Step;
    case _ =>
  }

  lemma OneStep(s: Shared, client: nat, statement: Statement)
    ensures Steps(s, client, [statement]) == Step(s, client, statement, s.work)
  {
    hide Step;
    var turn := Step(s, client, statement, s.work);
    assert turn.replies + [] == turn.replies;
  }

  lemma FlightStep(s: Shared, client: nat, statement: Statement, settled: Work)
    requires s.Owned(client) && !statement.kind.Regular?
    ensures
      var other := Step(s.(escape := 0), client, statement, settled);
      Step(s, client, statement, settled) == other.(next := other.next.(escape := s.escape))
  {
  }

  /* The same in a query string. */

  lemma StepDone(s: Shared, client: nat, query: Query)
    requires !s.Leased(client) && !s.OwnedFailed(client)
    ensures
      var outcome, turn := query.run(s.work.data), Step(s, client, Statement(Regular(query), ""), s.work);
      && turn.replies == Announcement(query) + outcome.Replies() && turn.failed == !outcome.ok
      && turn.next == (if outcome.ok then s.(work := turn.next.work) else s.Fail(client))
      && (outcome.ok ==> Adds(turn.next.work, s.work, query))
  {
  }

  /** Inside a block what came before a failing statement stays until the block ends. */
  lemma {:induction false} StepsDone(s: Shared, client: nat, queries: seq<Query>)
    requires !s.Leased(client) && !s.OwnedFailed(client)
    ensures
      var turn, fine := Steps(s, client, Plainly(queries)), Fine(s.work.data, queries, false);
      && turn.replies == Answers(s.work.data, queries, false) && turn.failed == !fine
      && turn.next == (if fine then s else s.Fail(client)).(work := turn.next.work)
      && (fine ==> Holding(turn.next.work, s.work, queries))
      && (!fine && |queries| == 1 ==> turn.next == s.Fail(client))
    decreases |queries|
  {
    hide Step, Adds;
    if queries != [] {
      var turn := Step(s, client, Statement(Regular(queries[0]), ""), s.work);
      StepDone(s, client, queries[0]);
      assert turn.replies + [] == turn.replies;
      assert Plainly(queries)[1..] == Plainly(queries[1..]);
      if !turn.failed {
        StepsDone(turn.next, client, queries[1..]);
      }
    }
  }

  /** A query string of ordinary statements, with nobody else's block or statement beside
      it: if all succeed what was answered as done is part of the work, with everything the
      cycle before it kept; if one fails outside a block nothing of the string is. */
  lemma QueryKeeps(s: Shared, client: nat, queries: seq<Query>)
    requires Enabled(s, Event(client, SimpleQuery(Plainly(queries)))) && queries != []
    requires !Synced(s).Leased(client) && !Synced(s).OwnedFailed(client)
    ensures
      var idle := Synced(s);
      var turn := Handle(s, Event(client, SimpleQuery(Plainly(queries))));
      var fine := Fine(idle.work.data, queries, false);
      && turn.replies == Answers(idle.work.data, queries, false)
                         + [Ready(if fine then idle.Status(client) else if idle.Owned(client) then 'E' else 'I')]
      && (fine ==> Holding(turn.next.work, idle.work, queries))
      && (!fine ==> if idle.Owned(client) then turn.next.OwnedFailed(client) else turn.next == idle)
  {
    hide Handle, Steps, Synced, Fine, Answers, Holding;
    QueryIs(s, client, Plainly(queries));
    StepsDone(Synced(s), client, queries);
    assert AllRegular(Plainly(queries));
  }

  /* Statements outside the transaction, and what cannot be parsed. */

  /** After a message other than one of a cycle, a client is told whether its block is open
      or failed; an error in it fails the block. */
  function Told(s: Shared, client: nat, code: string): seq<Reply> {
    (if code == "" then [] else [Error(code)])
    + [Ready(if !s.Owned(client) then 'I' else if code != "" || s.block.value.failed then 'E' else 'T')]
  }

  /** A request to run outside the transaction is accepted, silently, if and only if nothing
      is wrong with it, the client's block has not failed, and nobody else has a block or
      such a statement; the error tells which came first. */
  lemma RequestExactly(s: Shared, client: nat, refusal: string)
    requires Enabled(s, Event(client, EscapeRequest(refusal)))
    ensures
      var idle, turn := Synced(s), Handle(s, Event(client, EscapeRequest(refusal)));
      var accepted := refusal == "" && !idle.OwnedFailed(client) && !idle.Leased(client);
      && turn.failed == !accepted && turn.next.work == idle.work && turn.next.escape == idle.escape
      && turn.replies ==
           (if accepted then []
            else if refusal != "" then Told(idle, client, "0A000")
            else if idle.OwnedFailed(client) then [Error("25P02"), Ready('E')]
            else [LEASED, Ready(idle.Status(client))])
  {
    hide FinishCycle;
  }

  /** However it ends, the right is given back and the staged work is as it was. */
  lemma EndExactly(s: Shared, client: nat, error: string, replies: seq<Reply>)
    requires Enabled(s, Event(client, EscapeEnd(error, replies)))
    ensures
      var idle, turn := Synced(s), Handle(s, Event(client, EscapeEnd(error, replies)));
      && turn.next.work == idle.work && turn.next.escape == (if idle.escape == client then 0 else idle.escape)
      && turn.replies == (if error != "" then Told(idle, client, error) else replies + Told(idle, client, ""))
  {
    hide FinishCycle;
  }

  /** What cannot be parsed fails the sender's block and changes nothing else. */
  lemma UnparsedExactly(s: Shared, client: nat)
    requires Enabled(s, Event(client, BadQuery))
    ensures
      var idle, turn := Synced(s), Handle(s, Event(client, BadQuery));
      && turn.failed && turn.next == idle.Fail(client) && turn.next.work == idle.work
      && turn.replies == Told(idle, client, "42601")
  {
    hide FinishCycle;
  }

  /** A message of a cycle that cannot be carried out fails the cycle, and only that. */
  lemma BadExactly(s: Shared, client: nat, code: string)
    requires Enabled(s, Event(client, BadExtended(code))) && Going(s, client)
    ensures
      var turn := Handle(s, Event(client, BadExtended(code)));
      && turn.replies == [Error(code)] && turn.failed && turn.next.cycle.Some? && turn.next.cycle.value.failed
      && turn.next.block == s.block && turn.next.work == s.work && Fallback(turn.next) == Fallback(s)
  {
  }

  /** A client that leaves takes its cycle's work with it, and the work of its block. */
  lemma LeavesNothing(s: Shared, client: nat)
    requires Enabled(s, Event(client, Terminate))
    ensures
      var turn := Handle(s, Event(client, Terminate));
      && turn.replies == [] && turn.next.cycle.None? && !turn.next.Owned(client)
      && (s.block.Some? && !s.Owned(client) ==> turn.next.block == s.block)
      && turn.next.work == (if s.Owned(client) then s.block.value.base else Fallback(s))
  {
  }
}
