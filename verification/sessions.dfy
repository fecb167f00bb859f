/**
 Whole runs of one client among others: simple queries and cycles of the extended
 protocol. The client hears what a session of its own would answer.
 */
module Sessions {
  import opened Wrappers
  import opened Postgres
  import opened SharedSession
  import opened Interleaving
  import opened Dedicated
  import opened QueryStrings
  import Proxying

  /** A session and, after an error in a cycle, that it skips everything until Sync. */
  datatype Wire = Wire(session: Session, skipping: bool)

  datatype Response = Response(next: Wire, replies: seq<Reply>)

  /** PostgreSQL's side of the protocol. What a cycle does outside a block belongs
      together and is kept at Sync, or at the end of a query string sent before that. */
  function Respond(w: Wire, message: Message): Response {
    match message
    case SimpleQuery(statements) =>
      if w.skipping then Response(w, [])
      else
        var reaction := Answer(w.session, statements);
        Response(Wire(reaction.next, false), reaction.replies)
    case BadQuery =>
      if w.skipping then Response(w, [])
      else
        var reaction := AnswerBad(w.session);
        Response(Wire(reaction.next, false), reaction.replies)
    case ExecuteMessage(statement) =>
      if w.skipping then Response(w, [])
      else
        var reaction := React(Entered(w.session, true), statement);
        Response(Wire(reaction.next, reaction.failed), reaction.replies)
    case BadExtended(code) =>
      if w.skipping then Response(w, []) else Response(Wire(w.session.Aborted(), true), [Error(code)])
    case SyncMessage =>
      var p := w.session;
      var next := if p.implicit then p.Ended(p.Data(), false) else p;
      Response(Wire(next, false), [Ready(next.Status())])
    case _ => Response(w, [])
  }

  /** What a client sends to be answered alike: `Uniform` query strings, in a cycle that
      has not failed too; in a cycle, anything inside a block, and outside one what does
      not end or build upon what the cycle has done there before. */
  predicate Fits(w: Wire, message: Message) {
    match message
    case SimpleQuery(statements) => FitsQuery(w, statements)
    case BadQuery => !w.skipping && !w.session.implicit
    case ExecuteMessage(statement) => FitsCycle(w, statement)
    case BadExtended(_) => true
    case SyncMessage => true
    case _ => false
  }

  /** After an error PostgreSQL skips a query string like everything else; with something
      pending outside a block the string goes on from there. */
  predicate FitsQuery(w: Wire, statements: seq<Statement>) {
    !w.skipping && if w.session.implicit then Flows(Dirty, statements) else Uniform(w.session, statements)
  }

  /** Outside a block only COMMIT may follow what the cycle has done there: PostgreSQL
      would let a block adopt it, and undo it at an error or ROLLBACK. */
  predicate FitsCycle(w: Wire, statement: Statement) {
    || w.skipping || w.session.InBlock()
    || (if w.session.levels == [] then !Chained(statement)
        else statement.kind.Regular? || (statement.kind.Commit? && !statement.kind.chain && !Refused(statement)))
  }

  /* Cycles. */

  /** In a client's own cycle. What a failed cycle did is about to be undone. */
  ghost predicate Cycles(s: Shared, client: nat, w: Wire) {
    && s.cycle.Some? && s.cycle.value.client == client && !s.cycle.value.doomed
    && w.skipping == s.cycle.value.failed
    && if s.Owned(client) then InOwnBlock(s, s.block.value, s.cycle.value, w.session)
       else OutsideBlock(s, s.cycle.value, w.session)
  }

  ghost predicate InOwnBlock(s: Shared, block: Block, cycle: Cycle, p: Session) {
    && !p.implicit && p.committed == block.base.data && LevelsMatch(p.levels, block.saves)
    && if cycle.failed then p.failed
       else p.failed == block.failed && (!p.failed ==> p.Data() == s.work.data)
  }

  predicate OutsideBlock(s: Shared, cycle: Cycle, p: Session) {
    && !p.failed && p.committed == cycle.mark.data
    && if cycle.failed then p.levels == [] && !p.implicit
       else if p.levels == [] then !p.implicit && s.work.data == p.committed
       else p == Session(p.committed, [Level(None, p.committed, s.work.data)], true, false)
  }

  lemma StartCycles(s: Shared, client: nat, p: Session)
    requires Mirrors(s, client, p) && s.cycle.None?
    ensures Cycles(StartCycle(s, client), client, Wire(p, false))
  {
  }

  lemma FinishMirrors(s: Shared, client: nat, w: Wire)
    requires Cycles(s, client, w)
    ensures Mirrors(FinishCycle(s), client, Respond(w, SyncMessage).next.session)
  {
    hide LevelsMatch;
  }

  lemma ErrorCycles(s: Shared, client: nat, w: Wire, code: string)
    requires Cycles(s, client, w) && !w.skipping
    ensures
      var response := Respond(w, BadExtended(code));
      Cycles(CycleError(s, code).next, client, response.next) && Seen(CycleError(s, code).replies) == response.replies
  {
    SeenAll([Error(code)]);
    hide LevelsMatch, Seen;
  }

  /** Transaction control inside a cycle. */
  lemma ControlCycles(s: Shared, client: nat, w: Wire, statement: Statement)
    requires Cycles(s, client, w) && !w.skipping && client > 0 && !s.Leased(client)
    requires !statement.kind.Regular? && !(s.OwnedFailed(client) && !statement.EndsBlock())
    requires FitsCycle(w, statement)
    ensures
      var turn, response := ExecuteControl(s, statement), Respond(w, ExecuteMessage(statement));
      Cycles(turn.next, client, response.next) && Seen(turn.replies) == response.replies
  {
    var p := w.session;
    assert Kept(s) == s.work && s.(work := s.work) == s;
    Proxying.StepKeepsCycle(s, client, statement);
    if p.implicit {
      DirtyStep(s, client, statement, p);
    } else {
      assert Mirrors(s, client, p);
      OwnedInBlock(s, client, p);
      if p.InBlock() {
        StepSimulates(s, client, statement, p);
        FailedThen(s, client, statement, p);
      } else {
        CleanStep(s, client, statement, p);
        CleanControl(s, client, statement, p);
      }
    }
    hide Step, React, LevelsMatch, Seen;
  }

  /** A statement that fails in a block leaves it failed. */
  lemma FailedThen(s: Shared, client: nat, statement: Statement, p: Session)
    requires p.InBlock() && !(p.failed && !statement.EndsBlock())
    ensures React(p, statement).failed ==> React(p, statement).next.failed
  {
  }

  /** Control outside a block leads into one, or leaves nothing pending. */
  lemma CleanControl(s: Shared, client: nat, statement: Statement, p: Session)
    requires At(Clean, s, client, p) && !statement.kind.Regular? && !Chained(statement) && client > 0
    ensures
      var turn, reaction := Step(s, client, statement, s.work), React(p.Opened(true), statement);
      Mirrors(turn.next, client, reaction.next) && (turn.failed ==> !turn.next.Owned(client))
  {
  }

  /** An ordinary statement inside a cycle, protected or not. */
  lemma RegularCycles(s: Shared, client: nat, w: Wire, statement: Statement)
    requires Cycles(s, client, w) && !w.skipping && client > 0 && !s.Leased(client)
    requires statement.kind.Regular? && !s.OwnedFailed(client)
    ensures
      var turn, response := Execute(s, statement), Respond(w, ExecuteMessage(statement));
      Cycles(turn.next, client, response.next) && Seen(turn.replies) == response.replies
  {
    var query := statement.kind.query;
    if statement.refusal != "" {
      RefusedCycles(s, client, w, statement);
    } else {
      SeenOutcome(query, query.run(s.work.data));
      if query.truncates != {} {
        ProtectedCycles(s, client, w, statement);
      } else {
        PlainCycles(s, client, w, statement);
      }
    }
  }

  lemma RefusedCycles(s: Shared, client: nat, w: Wire, statement: Statement)
    requires Cycles(s, client, w) && !w.skipping && client > 0 && !s.Leased(client)
    requires statement.kind.Regular? && !s.OwnedFailed(client) && statement.refusal != ""
    ensures
      var turn, response := ExecuteLocal(s, statement), Respond(w, ExecuteMessage(statement));
      Cycles(turn.next, client, response.next) && Seen(turn.replies) == response.replies
  {
    SeenAll([Error("0A000")]);
    hide LevelsMatch, Seen;
  }

  lemma WrittenLevels(p: Session, saves: seq<Mark>, data: Database)
    requires LevelsMatch(p.levels, saves)
    ensures LevelsMatch(p.Writing(data).levels, saves)
  {
  }

  lemma ProtectedCycles(s: Shared, client: nat, w: Wire, statement: Statement)
    requires Cycles(s, client, w) && !w.skipping && client > 0 && !s.Leased(client)
    requires statement.kind.Regular? && !s.OwnedFailed(client) && statement.refusal == ""
    requires
      var outcome := statement.kind.query.run(s.work.data);
      Seen(Announcement(statement.kind.query) + outcome.Replies()) == outcome.Replies()
    ensures
      var turn, response := ExecuteLocal(s, statement), Respond(w, ExecuteMessage(statement));
      Cycles(turn.next, client, response.next) && Seen(turn.replies) == response.replies
  {
    if s.Owned(client) {
      WrittenLevels(w.session, s.block.value.saves, statement.kind.query.run(s.work.data).data);
    }
    hide Seen, LevelsMatch;
  }

  lemma PlainCycles(s: Shared, client: nat, w: Wire, statement: Statement)
    requires Cycles(s, client, w) && !w.skipping && client > 0 && !s.Leased(client)
    requires statement.kind.Regular? && !s.OwnedFailed(client) && statement.refusal == ""
    requires statement.kind.query.truncates == {}
    requires
      var outcome := statement.kind.query.run(s.work.data);
      Seen(Announcement(statement.kind.query) + outcome.Replies()) == outcome.Replies()
    ensures
      var turn, response := ExecutePlain(s, statement.kind.query), Respond(w, ExecuteMessage(statement));
      Cycles(turn.next, client, response.next) && Seen(turn.replies) == response.replies
  {
    var outcome := statement.kind.query.run(s.work.data);
    assert [] + outcome.Replies() == outcome.Replies();
    if s.Owned(client) {
      WrittenLevels(w.session, s.block.value.saves, outcome.data);
    }
    hide Seen, LevelsMatch;
  }

  lemma ExecuteCycles(s: Shared, client: nat, w: Wire, statement: Statement)
    requires Cycles(s, client, w) && client > 0 && !s.Leased(client)
    requires FitsCycle(w, statement)
    ensures
      var turn, response := Execute(s, statement), Respond(w, ExecuteMessage(statement));
      Cycles(turn.next, client, response.next) && Seen(turn.replies) == response.replies
  {
    if !w.skipping {
      if s.OwnedFailed(client) && !statement.EndsBlock() {
        SeenAll([Error("25P02")]);
        hide LevelsMatch, Seen;
      } else if statement.kind.Regular? {
        RegularCycles(s, client, w, statement);
      } else {
        ControlCycles(s, client, w, statement);
        hide ExecuteControl;
      }
    }
  }

  /** No other statement of a cycle is treated alike, if what is pending matters. */
  lemma CycleExactly(s: Shared, client: nat, w: Wire, statement: Statement)
    requires Cycles(s, client, w) && client > 0 && !s.Leased(client)
    requires w.session.implicit ==> w.session.committed != s.work.data
    ensures
      var turn, response := Execute(s, statement), Respond(w, ExecuteMessage(statement));
      Cycles(turn.next, client, response.next) && Seen(turn.replies) == response.replies <==> FitsCycle(w, statement)
  {
    if FitsCycle(w, statement) {
      ExecuteCycles(s, client, w, statement);
    } else if w.session.levels == [] {
      SeenAll([Error("25P01")]);
      assert Step(s, client, statement, s.work).replies[0] == Notice("25P01");
      assert s.(work := s.work) == s;
    } else {
      PendingLost(s, client, w, statement);
    }
  }

  lemma PendingLost(s: Shared, client: nat, w: Wire, statement: Statement)
    requires Cycles(s, client, w) && client > 0 && !s.Leased(client) && !FitsCycle(w, statement)
    requires w.session.implicit && w.session.committed != s.work.data
    ensures !Cycles(Execute(s, statement).next, client, Respond(w, ExecuteMessage(statement)).next)
  {
    assert s.(work := s.work) == s;
    hide LevelsMatch;
  }

  /* Query strings sent before the cycle has ended. */

  lemma QueryInCycle(s: Shared, client: nat, w: Wire, statements: seq<Statement>)
    requires Cycles(s, client, w) && client > 0 && !s.Leased(client) && FitsQuery(w, statements)
    ensures Alike(Simple(Synced(s), client, statements), client, Answer(w.session, statements))
  {
    FinishMirrors(s, client, w);
    hide Simple, Answer, Flows, Uniform, LevelsMatch;
    if w.session.implicit {
      PendingSimulates(Synced(s), client, statements, w.session);
    } else {
      QuerySimulates(Synced(s), client, statements, w.session);
    }
  }

  lemma SeenReady(replies: seq<Reply>, status: char)
    ensures Seen(replies + [Ready(status)]) != []
  {
    SeenAppend(replies, [Ready(status)]);
    SeenAll([Ready(status)]);
  }

  /** The string is answered by the proxy as PostgreSQL responds to it. */
  ghost predicate AnsweredAlike(s: Shared, client: nat, w: Wire, statements: seq<Statement>)
    requires s.cycle.Some?
  {
    var turn, response := Simple(Synced(s), client, statements), Respond(w, SimpleQuery(statements));
    && Seen(turn.replies) == response.replies && !response.next.skipping
    && Alike(turn, client, Answer(w.session, statements))
  }

  /** From any point of a cycle, if what is pending matters, a query string is answered
      alike whatever its queries do if and only if it fits. */
  lemma QueryExactly(s: Shared, client: nat, w: Wire, statements: seq<Statement>)
    requires Cycles(s, client, w) && client > 0 && !s.Leased(client)
    requires w.session.implicit ==> w.session.committed != s.work.data
    ensures
      FitsQuery(w, statements) <==>
      forall others :: SameShape(statements, others) ==> AnsweredAlike(s, client, w, others)
  {
    hide Simple, Answer, Flows, Uniform, LevelsMatch;
    if w.skipping {
      SkippedDiffers(s, client, w, statements);
    } else {
      forall others
        ensures AnsweredAlike(s, client, w, others) <==>
          Alike(Simple(Synced(s), client, others), client, Answer(w.session, others))
      {
      }
      FinishMirrors(s, client, w);
      if w.session.implicit {
        PendingExactly(Synced(s), client, statements, w.session);
      } else {
        UniformExactly(Synced(s), client, statements, w.session);
      }
    }
  }

  lemma SkippedDiffers(s: Shared, client: nat, w: Wire, statements: seq<Statement>)
    requires s.cycle.Some? && w.skipping
    ensures SameShape(statements, statements) && !AnsweredAlike(s, client, w, statements)
  {
    var parsed := if statements == [] then [EMPTY_STATEMENT] else statements;
    var turn := Simple(Synced(s), client, statements);
    SeenReady(Steps(Synced(s), client, parsed).replies, turn.next.Status(client));
    hide Steps, Alike;
  }

  /** A query that cannot be parsed is answered alike, if what is pending matters, if and
      only if nothing is pending and nothing is skipped. */
  lemma BadQueryExactly(s: Shared, client: nat, w: Wire)
    requires Cycles(s, client, w) && client > 0 && !s.Leased(client)
    requires w.session.implicit ==> w.session.committed != s.work.data
    ensures
      var turn, response := Unparsed(Synced(s), client), Respond(w, BadQuery);
      Fits(w, BadQuery) <==>
      Seen(turn.replies) == response.replies && Mirrors(turn.next, client, response.next.session)
  {
    var turn := Unparsed(Synced(s), client);
    if w.skipping {
      SeenReady([Error("42601")], turn.next.Status(client));
      assert [Error("42601")] + [Ready(turn.next.Status(client))] == turn.replies;
    } else if !w.session.implicit {
      FinishMirrors(s, client, w);
      BadQuerySimulates(Synced(s), client, w.session);
    }
    hide LevelsMatch;
  }

  /* Runs. */

  /** `w` mirrors the client's view, in its own cycle or between others' messages. */
  ghost predicate Tracks(s: Shared, client: nat, w: Wire) {
    if s.cycle.Some? && s.cycle.value.client == client then Cycles(s, client, w)
    else
      !w.skipping &&
      if s.Owned(client) then Holds(s, Settled(s), client) && Mirrors(Settled(s), client, w.session)
      else
        var p := w.session;
        p.levels == [] && !p.failed && !p.implicit && (s.cycle.None? ==> p.committed == s.work.data)
  }

  function Settled(s: Shared): Shared {
    s.(work := if s.cycle.Some? then s.cycle.value.mark else s.work, cycle := None)
  }

  /** Outside a block a session sees what others have committed. */
  function Refreshed(w: Wire, s: Shared): Wire {
    if w.session.levels == [] then w.(session := w.session.(committed := s.work.data)) else w
  }

  /** What a session of the client's own would answer during the same run. */
  ghost function Expected(s: Shared, events: seq<Event>, client: nat, w: Wire): seq<Reply>
    requires Admitted(s, events)
    decreases |events|
  {
    if events == [] then []
    else
      var next := Handle(s, events[0]).next;
      if events[0].client == client then
        var response := Respond(w, events[0].message);
        response.replies + Expected(next, events[1..], client, response.next)
      else Expected(next, events[1..], client, Refreshed(w, next))
  }

  /** Every message of the client fits, and comes when no other client has a block open
      and no statement runs outside the transaction. */
  ghost predicate Undisturbed(s: Shared, events: seq<Event>, client: nat, w: Wire)
    requires Admitted(s, events)
    decreases |events|
  {
    events == [] ||
    var next := Handle(s, events[0]).next;
    if events[0].client == client then
      && !s.Leased(client) && Fits(w, events[0].message)
      && Undisturbed(next, events[1..], client, Respond(w, events[0].message).next)
    else Undisturbed(next, events[1..], client, Refreshed(w, next))
  }

  lemma OwnMessage(s: Shared, event: Event, w: Wire)
    requires Tracks(s, event.client, w) && Enabled(s, event) && !s.Leased(event.client)
    requires Fits(w, event.message)
    ensures
      var turn, response := Handle(s, event), Respond(w, event.message);
      Tracks(turn.next, event.client, response.next) && Seen(turn.replies) == response.replies
  {
    if event.message.SimpleQuery? || event.message.BadQuery? {
      OwnQuery(s, event, w);
    } else if event.message.SyncMessage? {
      OwnSync(s, event, w);
    } else {
      OwnCycle(s, event, w);
    }
  }

  lemma OwnQuery(s: Shared, event: Event, w: Wire)
    requires Tracks(s, event.client, w) && Enabled(s, event) && !s.Leased(event.client)
    requires event.message.SimpleQuery? || event.message.BadQuery?
    requires Fits(w, event.message)
    ensures
      var turn, response := Handle(s, event), Respond(w, event.message);
      Tracks(turn.next, event.client, response.next) && Seen(turn.replies) == response.replies
  {
    hide LevelsMatch, Steps, Answer, AnswerBad, Uniform, Flows;
    var idle := Synced(s);
    if s.cycle.None? {
      assert Settled(s) == s;
    } else {
      FinishMirrors(s, event.client, w);
    }
    if event.message.SimpleQuery? {
      var parsed := event.message.statements;
      if s.cycle.Some? {
        QueryInCycle(s, event.client, w, parsed);
      } else {
        QuerySimulates(s, event.client, parsed, w.session);
      }
      Proxying.StepsKeepCycle(idle, event.client, if parsed == [] then [EMPTY_STATEMENT] else parsed);
    } else {
      BadQuerySimulates(idle, event.client, w.session);
    }
    var next := Handle(s, event).next;
    assert next.cycle.None? && Settled(next) == next;
  }

  lemma OwnSync(s: Shared, event: Event, w: Wire)
    requires Tracks(s, event.client, w) && Enabled(s, event) && event.message.SyncMessage?
    requires !s.Leased(event.client)
    ensures
      var turn, response := Handle(s, event), Respond(w, event.message);
      Tracks(turn.next, event.client, response.next) && Seen(turn.replies) == response.replies
  {
    hide LevelsMatch;
    var next := Synced(s);
    if s.cycle.Some? {
      FinishMirrors(s, event.client, w);
    } else {
      assert Settled(s) == s;
    }
    OwnedInBlock(next, event.client, Respond(w, SyncMessage).next.session);
    SeenAll([Ready(next.Status(event.client))]);
    assert Settled(next) == next;
    hide Mirrors, Seen;
  }

  lemma OwnCycle(s: Shared, event: Event, w: Wire)
    requires Tracks(s, event.client, w) && Enabled(s, event) && !s.Leased(event.client)
    requires event.message.ExecuteMessage? || event.message.BadExtended?
    requires Fits(w, event.message)
    ensures
      var turn, response := Handle(s, event), Respond(w, event.message);
      Tracks(turn.next, event.client, response.next) && Seen(turn.replies) == response.replies
  {
    var cycling := InCycle(s, event.client);
    if s.cycle.None? {
      assert Settled(s) == s;
      StartCycles(s, event.client, w.session);
    }
    hide LevelsMatch, Execute, React, Mirrors;
    match event.message
    case ExecuteMessage(statement) => ExecuteCycles(cycling, event.client, w, statement);
    case BadExtended(code) =>
      if !w.skipping {
        ErrorCycles(cycling, event.client, w, code);
      }
  }

  lemma OthersMessage(s: Shared, event: Event, client: nat, w: Wire)
    requires Tracks(s, client, w) && Enabled(s, event) && client != event.client
    ensures
      var next := Handle(s, event).next;
      Tracks(next, client, Refreshed(w, next))
  {
    hide Handle, LevelsMatch;
    HandleMine(s, event);
    if s.Owned(client) {
      HandleSpares(s, event, Settled(s), client);
      OwnedInBlock(Settled(s), client, w.session);
    }
  }

  /** A client of the shared transaction hears exactly what a session of its own would
      answer, in any run and whatever the other clients do, except that TRUNCATE is
      announced. */
  lemma {:induction false} Indistinguishable(s: Shared, events: seq<Event>, client: nat, w: Wire)
    requires Admitted(s, events) && Tracks(s, client, w) && Undisturbed(s, events, client, w)
    ensures Seen(Heard(s, events, client)) == Expected(s, events, client, w)
    decreases |events|
  {
    hide Handle, Tracks, Respond, Fits;
    if events != [] {
      var turn := Handle(s, events[0]);
      var rest := Heard(turn.next, events[1..], client);
      if events[0].client == client {
        var response := Respond(w, events[0].message);
        OwnMessage(s, events[0], w);
        Indistinguishable(turn.next, events[1..], client, response.next);
        SeenAppend(turn.replies, rest);
      } else {
        OthersMessage(s, events[0], client, w);
        Indistinguishable(turn.next, events[1..], client, Refreshed(w, turn.next));
        assert [] + rest == rest;
      }
    }
  }
}
