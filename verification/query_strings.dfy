/**
 Query strings of several statements. Some mix statements inside and outside a block
 so that PostgreSQL's implicit block around the string shows; `Uniform` says which
 strings the proxy treats as PostgreSQL does, and `UniformExactly` that there are no
 others.
 */
module QueryStrings {
  import opened Wrappers
  import opened Postgres
  import opened SharedSession
  import opened Dedicated
  import opened SampleQueries

  /** Where a string has come to, if every statement so far succeeded: outside a block
      with nothing kept yet, outside with something kept, inside a block with these
      savepoints, or inside a block that PostgreSQL would have let adopt what was kept
      before it. `Stopped`: a statement has failed. */
  datatype Where =
    | Stopped
    | Clean
    | Dirty
    | Inside(names: seq<string>, failed: bool)
    | Adopted(names: seq<string>)

  /** A statement that fails wherever it is allowed to run. */
  predicate Fails(statement: Statement) {
    Refused(statement) || (statement.kind.Begin? && statement.kind.options)
  }

  /** The place after one more statement, or None when the proxy treats it differently. */
  function Next(w: Where, statement: Statement): Option<Where> {
    match w
    case Stopped => Some(Stopped)
    case Clean => NextClean(statement)
    case Dirty => NextDirty(statement)
    case Inside(names, failed) => NextBlock(names, failed, statement)
    case Adopted(names) => NextAdopted(names, statement)
  }

  function NextClean(statement: Statement): Option<Where> {
    if Fails(statement) then Some(Stopped)
    else
      match statement.kind
      case Regular(_) => Some(Dirty)
      case Begin(_) => Some(Inside([], false))
      case Commit(chain) => if chain then None else Some(Clean)
      case Rollback(chain) => if chain then None else Some(Clean)
      case _ => Some(Stopped)
  }

  /** What was kept must not be undone by anything but is by every failure. */
  function NextDirty(statement: Statement): Option<Where> {
    if Fails(statement) then None
    else
      match statement.kind
      case Begin(_) => Some(Adopted([]))
      case Commit(chain) => if chain then None else Some(Clean)
      case _ => None
  }

  function NextBlock(names: seq<string>, failed: bool, statement: Statement): Option<Where> {
    if failed && !statement.EndsBlock() then (if Refused(statement) then None else Some(Stopped))
    else if Fails(statement) then Some(Stopped)
    else
      match statement.kind
      case Commit(chain) => Some(if chain then Inside([], false) else Clean)
      case Rollback(chain) => Some(if chain then Inside([], false) else Clean)
      case Savepoint(name) => Some(Inside(names + [name], false))
      case RollbackTo(name) =>
        var index := LastOf(names, name);
        Some(if index < 0 then Stopped else Inside(names[..index + 1], false))
      case Release(name) =>
        var index := LastOf(names, name);
        Some(if index < 0 then Stopped else Inside(names[..index], false))
      case _ => Some(Inside(names, false))
  }

  function NextAdopted(names: seq<string>, statement: Statement): Option<Where> {
    if Fails(statement) then None
    else
      match statement.kind
      case Begin(_) => Some(Adopted(names))
      case Commit(chain) => Some(if chain then Inside([], false) else Clean)
      case Savepoint(name) => Some(Adopted(names + [name]))
      case RollbackTo(name) =>
        var index := LastOf(names, name);
        if index < 0 then None else Some(Adopted(names[..index + 1]))
      case Release(name) =>
        var index := LastOf(names, name);
        if index < 0 then None else Some(Adopted(names[..index]))
      case _ => None
  }

  /** No statement is treated differently, and no adopted block is left open. */
  predicate Flows(w: Where, statements: seq<Statement>)
    decreases |statements|
  {
    if statements == [] then !w.Adopted?
    else Next(w, statements[0]).Some? && Flows(Next(w, statements[0]).value, statements[1..])
  }

  function Names(levels: seq<Level>): seq<string> {
    if levels == [] then []
    else
      Names(levels[..|levels| - 1]) +
      if levels[|levels| - 1].name.Some? then [levels[|levels| - 1].name.value] else []
  }

  function Start(p: Session): Where {
    if p.InBlock() then Inside(Names(p.levels), p.failed) else Clean
  }

  /** The query strings the proxy treats as PostgreSQL does: ordinary statements alone
      outside a block, and whatever flows. An empty one is refused in a failed block. */
  predicate Uniform(p: Session, statements: seq<Statement>) {
    if statements == [] then !p.failed
    else (!p.InBlock() && AllRegular(statements)) || Flows(Start(p), statements)
  }

  /* Strings that flow are treated alike. */

  /** What is true of the shared view and of the reference session at a place. */
  ghost predicate At(w: Where, s: Shared, client: nat, p: Session) {
    !s.Leased(client) &&
    match w
    case Stopped => true
    case Clean => Mirrors(s, client, p) && !s.Owned(client)
    case Dirty =>
      !s.Owned(client) && p == Session(p.committed, [Level(None, p.committed, s.work.data)], true, false)
    case Inside(names, failed) =>
      s.Owned(client) && Mirrors(s, client, p) && p.failed == failed && NamesMatch(names, s.block.value.saves)
    case Adopted(names) =>
      && s.Owned(client) && !s.block.value.failed && !p.implicit && !p.failed
      && LevelsMatch(p.levels, s.block.value.saves) && p.Data() == s.work.data
      && NamesMatch(names, s.block.value.saves)
  }

  ghost predicate NamesMatch(names: seq<string>, saves: seq<Mark>) {
    |names| == |saves| && forall i :: 0 <= i < |saves| ==> names[i] == saves[i].name
  }

  lemma {:induction false} SameLast(names: seq<string>, saves: seq<Mark>, name: string)
    requires NamesMatch(names, saves)
    ensures LastOf(names, name) == LastMark(saves, name)
  {
    if saves != [] && saves[|saves| - 1].name != name {
      SameLast(names[..|names| - 1], saves[..|saves| - 1], name);
    }
  }

  /** The session a statement runs in: outside a block a string of several opens one. */
  function Entered(p: Session, several: bool): Session {
    if several && p.levels == [] then p.Opened(true) else p
  }

  /** The statement is treated alike and, unless it fails, leads to the next place. */
  ghost predicate Leads(w: Where, turn: Turn, client: nat, reaction: Reaction) {
    && turn.failed == reaction.failed && Seen(turn.replies) == reaction.replies
    && (turn.failed ==> Mirrors(turn.next, client, reaction.next) && !turn.next.Leased(client))
    && (!turn.failed ==> !w.Stopped? && At(w, turn.next, client, reaction.next))
  }

  lemma FlowStep(w: Where, s: Shared, client: nat, statement: Statement, p: Session)
    requires client > 0 && !w.Stopped? && At(w, s, client, p) && Next(w, statement).Some?
    ensures
      Leads(Next(w, statement).value, Step(s, client, statement, s.work), client, React(Entered(p, true), statement))
  {
    match w
    case Clean => CleanStep(s, client, statement, p);
    case Dirty => DirtyStep(s, client, statement, p);
    case Inside(names, failed) =>
      BlockStep(names, s, client, statement, p);
      OwnedInBlock(s, client, p);
    case Adopted(names) => AdoptedStep(names, s, client, statement, p);
  }

  lemma CleanStep(s: Shared, client: nat, statement: Statement, p: Session)
    requires client > 0 && At(Clean, s, client, p) && NextClean(statement).Some?
    ensures
      Leads(NextClean(statement).value, Step(s, client, statement, s.work), client, React(p.Opened(true), statement))
  {
    if !Fails(statement) && statement.kind.Regular? {
      OutsideRun(s, client, statement.kind.query);
      hide Run, Seen;
    } else {
      CleanControlled(s, client, statement, p);
    }
  }

  lemma CleanControlled(s: Shared, client: nat, statement: Statement, p: Session)
    requires client > 0 && At(Clean, s, client, p) && NextClean(statement).Some?
    requires Fails(statement) || !statement.kind.Regular?
    ensures
      Leads(NextClean(statement).value, Step(s, client, statement, s.work), client, React(p.Opened(true), statement))
  {
    if !Fails(statement) && statement.kind.Begin? {
      CleanBegin(s, client, statement, p);
    } else {
      CleanOther(s, client, statement, p);
    }
  }

  lemma CleanBegin(s: Shared, client: nat, statement: Statement, p: Session)
    requires client > 0 && At(Clean, s, client, p) && !Fails(statement) && statement.kind.Begin?
    ensures
      Leads(Inside([], false), Step(s, client, statement, s.work), client, React(p.Opened(true), statement))
  {
    SeenAll([Plain("BEGIN")]);
    hide Run, Seen;
  }

  lemma CleanOther(s: Shared, client: nat, statement: Statement, p: Session)
    requires client > 0 && At(Clean, s, client, p) && NextClean(statement).Some?
    requires Fails(statement) || (!statement.kind.Regular? && !statement.kind.Begin?)
    ensures
      Leads(NextClean(statement).value, Step(s, client, statement, s.work), client, React(p.Opened(true), statement))
  {
    SeenAll(React(p.Opened(true), statement).replies);
    hide Run, Seen, LevelsMatch, NamesMatch;
  }

  lemma DirtyStep(s: Shared, client: nat, statement: Statement, p: Session)
    requires client > 0 && At(Dirty, s, client, p) && NextDirty(statement).Some?
    ensures Leads(NextDirty(statement).value, Step(s, client, statement, s.work), client, React(p, statement))
  {
    SeenAll(React(p, statement).replies);
  }

  lemma BlockStep(names: seq<string>, s: Shared, client: nat, statement: Statement, p: Session)
    requires client > 0 && At(Inside(names, p.failed), s, client, p)
    requires NextBlock(names, p.failed, statement).Some?
    ensures
      Leads(NextBlock(names, p.failed, statement).value, Step(s, client, statement, s.work), client, React(p, statement))
  {
    OwnedInBlock(s, client, p);
    StepSimulates(s, client, statement, p);
    BlockPlace(names, s, client, statement, p);
    var turn := Step(s, client, statement, s.work);
    OwnedInBlock(turn.next, client, React(p, statement).next);
    hide LevelsMatch, Step, React, Mirrors;
  }

  /** Where the proxy's own view of a block goes. */
  lemma BlockPlace(names: seq<string>, s: Shared, client: nat, statement: Statement, p: Session)
    requires client > 0 && At(Inside(names, p.failed), s, client, p)
    requires NextBlock(names, p.failed, statement).Some?
    ensures
      var turn := Step(s, client, statement, s.work);
      var place := NextBlock(names, p.failed, statement).value;
      && (!place.Stopped? && turn.failed ==> statement.kind.Regular?)
      && (!turn.failed ==>
        && (place.Clean? <==> !turn.next.Owned(client))
        && (place.Clean? || place.Inside?)
        && (place.Inside? ==>
              NamesMatch(place.names, turn.next.block.value.saves) && turn.next.block.value.failed == place.failed))
  {
    hide LevelsMatch, LastOf, LastMark;
    if statement.kind.RollbackTo? || statement.kind.Release? {
      SameLast(names, s.block.value.saves, statement.kind.name);
    }
  }

  /** Only the end of a block depends on what was committed before it. */
  lemma Recommitted(p: Session, committed: Database, statement: Statement)
    requires p.InBlock() && p.levels[0].name.None? && !p.failed && !Fails(statement)
    requires !statement.kind.Regular? && !statement.kind.Rollback?
    ensures
      var reaction, other := React(p, statement), React(p.(committed := committed), statement);
      && other.failed == reaction.failed && other.replies == reaction.replies
      && other.next == if statement.kind.Commit? then reaction.next else reaction.next.(committed := committed)
  {
  }

  lemma AdoptedStep(names: seq<string>, s: Shared, client: nat, statement: Statement, p: Session)
    requires client > 0 && At(Adopted(names), s, client, p) && NextAdopted(names, statement).Some?
    ensures Leads(NextAdopted(names, statement).value, Step(s, client, statement, s.work), client, React(p, statement))
    ensures Entered(p, true) == p
  {
    var base := s.block.value.base.data;
    var q := p.(committed := base);
    assert q.Data() == p.Data();
    BlockStep(names, s, client, statement, q);
    BlockPlace(names, s, client, statement, q);
    Recommitted(p, base, statement);
    var turn := Step(s, client, statement, s.work);
    OwnedInBlock(turn.next, client, React(q, statement).next);
    hide Step, React, Seen, NamesMatch, LevelsMatch;
  }

  lemma OutsideRun(s: Shared, client: nat, query: Query)
    requires !s.Owned(client)
    ensures
      var turn := Run(s, client, query, false, s.work);
      var outcome := query.run(s.work.data);
      && turn.failed == !outcome.ok && Seen(turn.replies) == outcome.Replies()
      && turn.next == s.(work := turn.next.work)
      && turn.next.work.data == if outcome.ok then outcome.data else s.work.data
  {
    SeenOutcome(query, query.run(s.work.data));
  }

  lemma {:induction false} FlowSimulates(
    w: Where, s: Shared, client: nat, statements: seq<Statement>, p: Session, several: bool)
    requires client > 0 && !w.Stopped? && At(w, s, client, p) && Flows(w, statements)
    requires several || statements == [] || (w.Inside? && |statements| == 1)
    ensures Alike(Steps(s, client, statements), client, ReactAll(p, statements, several))
    decreases |statements|
  {
    if statements != [] {
      EnteredSame(w, s, client, p, several);
      FlowStep(w, s, client, statements[0], p);
      hide Step, React, At, Next, Seen, Mirrors;
      var first, reaction := Step(s, client, statements[0], s.work), React(Entered(p, true), statements[0]);
      if !first.failed {
        var rest := Steps(first.next, client, statements[1..]);
        FlowSimulates(Next(w, statements[0]).value, first.next, client, statements[1..], reaction.next, several);
        SeenAppend(first.replies, rest.replies);
      }
    }
  }

  lemma EnteredSame(w: Where, s: Shared, client: nat, p: Session, several: bool)
    requires At(w, s, client, p) && (several || w.Inside?) && !w.Stopped?
    ensures Entered(p, several) == Entered(p, true)
  {
    if w.Inside? {
      OwnedInBlock(s, client, p);
    }
  }

  lemma {:induction false} NamesOf(levels: seq<Level>, saves: seq<Mark>)
    requires LevelsMatch(levels, saves)
    ensures NamesMatch(Names(levels), saves)
  {
    var last := |levels| - 1;
    if saves != [] {
      assert LevelsMatch(levels[..last], saves[..last - 1]);
      NamesOf(levels[..last], saves[..last - 1]);
      assert levels[(last - 1) + 1].name == Some(saves[last - 1].name);
    } else {
      assert Names(levels[..0]) == [];
    }
  }

  lemma StartAt(s: Shared, client: nat, p: Session)
    requires Mirrors(s, client, p) && !s.Leased(client)
    ensures At(Start(p), s, client, p)
  {
    OwnedInBlock(s, client, p);
    if s.Owned(client) {
      NamesOf(p.levels, s.block.value.saves);
    }
  }

  /** Several ordinary statements outside a block stand or fall together. */
  lemma {:induction false} BatchSimulates(s: Shared, client: nat, statements: seq<Statement>, p: Session)
    requires !s.Owned(client) && client > 0 && !s.Leased(client) && AllRegular(statements)
    requires p == Session(p.committed, [Level(None, p.committed, s.work.data)], true, false)
    ensures
      var turn := Steps(s, client, statements);
      var reaction := ReactAll(p, statements, true);
      && turn.failed == reaction.failed && Seen(turn.replies) == reaction.replies
      && turn.next == s.(work := turn.next.work)
      && reaction.next == Session(if turn.failed then p.committed else turn.next.work.data, [], false, false)
    decreases |statements|
  {
    hide Run;
    if statements != [] {
      var first, reaction := Step(s, client, statements[0], s.work), React(p, statements[0]);
      SeenAll([Error("0A000")]);
      if statements[0].refusal == "" {
        OutsideRun(s, client, statements[0].kind.query);
      }
      if !first.failed {
        var rest := Steps(first.next, client, statements[1..]);
        BatchSimulates(first.next, client, statements[1..], reaction.next);
        SeenAppend(first.replies, rest.replies);
      }
    }
  }

  lemma OpenedFirst(p: Session, statements: seq<Statement>)
    requires p.levels == [] && statements != []
    ensures ReactAll(p, statements, true) == ReactAll(p.Opened(true), statements, true)
  {
  }

  /** A query string that is `Uniform` gets the replies, the status and the data it would
      get in a session of the client's own. */
  lemma QuerySimulates(s: Shared, client: nat, statements: seq<Statement>, p: Session)
    requires Mirrors(s, client, p) && client > 0 && !s.Leased(client) && Uniform(p, statements)
    ensures Alike(Simple(s, client, statements), client, Answer(p, statements))
  {
    OwnedInBlock(s, client, p);
    StartAt(s, client, p);
    if statements == [] {
      EmptySimulates(s, client, p);
    } else {
      StatementsSimulate(s, client, statements, p);
      WithStatus(s, client, statements, p);
    }
  }

  lemma StatementsSimulate(s: Shared, client: nat, statements: seq<Statement>, p: Session)
    requires Mirrors(s, client, p) && client > 0 && !s.Leased(client) && Uniform(p, statements) && statements != []
    ensures Alike(Unready(s, client, statements), client, ReactAll(p, statements, |statements| > 1))
  {
    OwnedInBlock(s, client, p);
    StartAt(s, client, p);
    hide At, Mirrors, LevelsMatch;
    var several := |statements| > 1;
    if !p.InBlock() && !several {
      SingleSimulates(s, client, statements[0], p);
      assert statements == [statements[0]];
    } else if !p.InBlock() && AllRegular(statements) {
      OpenedFirst(p, statements);
      BatchMirrors(s, client, statements, p);
    } else {
      FlowSimulates(Start(p), s, client, statements, p, several);
    }
  }

  /** A simple query without its closing status. */
  ghost function Unready(s: Shared, client: nat, statements: seq<Statement>): Turn {
    var turn := Steps(s, client, statements);
    var batched := !s.Owned(client) && |statements| > 1 && AllRegular(statements);
    turn.(next := if batched && turn.failed then turn.next.(work := s.work) else turn.next)
  }

  lemma WithStatus(s: Shared, client: nat, statements: seq<Statement>, p: Session)
    requires statements != []
    ensures
      Alike(Simple(s, client, statements), client, Answer(p, statements)) <==>
      Alike(Unready(s, client, statements), client, ReactAll(p, statements, |statements| > 1))
  {
    hide Mirrors, Steps, ReactAll;
    var turn, reaction := Unready(s, client, statements), ReactAll(p, statements, |statements| > 1);
    var status := [Ready(turn.next.Status(client))];
    SeenAppend(turn.replies, status);
    SeenAll(status);
    if Mirrors(turn.next, client, reaction.next) {
      OwnedInBlock(turn.next, client, reaction.next);
    }
    assert (Seen(turn.replies) + status)[..|Seen(turn.replies)|] == Seen(turn.replies);
    assert Answer(p, statements).replies[..|reaction.replies|] == reaction.replies;
  }

  lemma BatchMirrors(s: Shared, client: nat, statements: seq<Statement>, p: Session)
    requires Mirrors(s, client, p) && client > 0 && !s.Leased(client) && !s.Owned(client)
    requires AllRegular(statements) && |statements| > 1
    ensures Alike(Unready(s, client, statements), client, ReactAll(p.Opened(true), statements, true))
  {
    BatchSimulates(s, client, statements, p.Opened(true));
    hide Steps, ReactAll, Seen;
  }

  lemma EmptySimulates(s: Shared, client: nat, p: Session)
    requires Mirrors(s, client, p) && client > 0 && !s.Leased(client)
    ensures Alike(Simple(s, client, []), client, Answer(p, [])) <==> !p.failed
  {
    OwnedInBlock(s, client, p);
    if p.failed {
      assert Steps(s, client, [EMPTY_STATEMENT]) == Step(s, client, EMPTY_STATEMENT, s.work);
    } else {
      EmptyReplies(s, client);
      hide Simple;
    }
    SeenAll(Simple(s, client, []).replies);
    hide LevelsMatch;
  }

  lemma SingleSimulates(s: Shared, client: nat, statement: Statement, p: Session)
    requires Mirrors(s, client, p) && client > 0 && !s.Leased(client) && !p.InBlock() && !Chained(statement)
    ensures Alike(Steps(s, client, [statement]), client, ReactAll(p, [statement], false))
  {
    OwnedInBlock(s, client, p);
    StepSimulates(s, client, statement, p);
    hide Step, React, LevelsMatch;
    var first, reaction := Step(s, client, statement, s.work), React(p, statement);
    assert [statement][1..] == [];
    assert Steps(first.next, client, []) == Turn(first.next, [], false);
    if !reaction.failed {
      assert ReactAll(reaction.next, [], false) == Reaction(reaction.next, [], false);
    }
    assert first.replies + [] == first.replies && reaction.replies + [] == reaction.replies;
  }

  /* Strings sent in a cycle that has done something outside a block. */

  /** With something pending that PostgreSQL has not committed yet, a string is treated
      alike if it flows on from there. */
  lemma PendingSimulates(s: Shared, client: nat, statements: seq<Statement>, p: Session)
    requires client > 0 && At(Dirty, s, client, p) && Flows(Dirty, statements)
    ensures Alike(Simple(s, client, statements), client, Answer(p, statements))
  {
    if statements == [] {
      EmptyPending(s, client, p);
    } else {
      FlowSimulates(Dirty, s, client, statements, p, true);
      SeveralSame(p, statements);
      assert !statements[0].kind.Regular?;
      hide Steps, ReactAll, Flows, At;
      WithStatus(s, client, statements, p);
    }
  }

  lemma EmptyPending(s: Shared, client: nat, p: Session)
    requires client > 0 && At(Dirty, s, client, p)
    ensures Alike(Simple(s, client, []), client, Answer(p, []))
  {
    EmptyReplies(s, client);
    SeenAll(Simple(s, client, []).replies);
  }

  lemma EmptyReplies(s: Shared, client: nat)
    requires !s.OwnedFailed(client) && !s.Leased(client)
    ensures
      var turn := Simple(s, client, []);
      && turn.replies == [Output([]), Ready(s.Status(client))] && !turn.failed
      && turn.next == s.(work := turn.next.work) && turn.next.work.data == s.work.data
  {
    var turn := Step(s, client, EMPTY_STATEMENT, s.work);
    assert [EMPTY_STATEMENT][1..] == [];
    assert Steps(turn.next, client, []) == Turn(turn.next, [], false);
    assert turn.replies + [] == turn.replies;
  }

  /** Whether a string has several statements matters only where it starts a block. */
  lemma SeveralSame(p: Session, statements: seq<Statement>)
    requires p.levels != [] && statements != []
    ensures ReactAll(p, statements, |statements| > 1) == ReactAll(p, statements, true)
  {
    if |statements| == 1 {
      assert statements[1..] == [];
    }
    hide React;
  }

  /* Every other string can be told apart. */

  /** The same statements but for what their queries do. */
  ghost predicate SameShape(left: seq<Statement>, right: seq<Statement>) {
    |left| == |right| && forall i :: 0 <= i < |left| ==> SameKind(left[i], right[i])
  }

  ghost predicate SameKind(left: Statement, right: Statement) {
    left.refusal == right.refusal &&
    if left.kind.Regular? then right.kind.Regular? else left.kind == right.kind
  }

  function With(statement: Statement, query: Query): Statement {
    if statement.kind.Regular? then statement.(kind := Regular(query)) else statement
  }

  function AllWith(statements: seq<Statement>, query: Query): seq<Statement> {
    if statements == [] then [] else [With(statements[0], query)] + AllWith(statements[1..], query)
  }

  /** The string in which every query writes until the one treated differently, which
      fails like all that follow. */
  function Telling(w: Where, statements: seq<Statement>, writing: Query, failing: Query): seq<Statement>
    decreases |statements|
  {
    if statements == [] then []
    else if Next(w, statements[0]).None? then AllWith(statements, failing)
    else [With(statements[0], writing)] + Telling(Next(w, statements[0]).value, statements[1..], writing, failing)
  }

  lemma {:induction false} AllWithShape(statements: seq<Statement>, query: Query)
    ensures SameShape(statements, AllWith(statements, query))
  {
    if statements != [] {
      AllWithShape(statements[1..], query);
      assert forall i :: 0 < i < |statements| ==> statements[i] == statements[1..][i - 1];
    }
  }

  lemma {:induction false} TellingShape(w: Where, statements: seq<Statement>, writing: Query, failing: Query)
    ensures SameShape(statements, Telling(w, statements, writing, failing))
    decreases |statements|
  {
    if statements != [] {
      if Next(w, statements[0]).None? {
        AllWithShape(statements, failing);
      } else {
        TellingShape(Next(w, statements[0]).value, statements[1..], writing, failing);
        assert forall i :: 0 < i < |statements| ==> statements[i] == statements[1..][i - 1];
      }
    }
  }

  /** What PostgreSQL would still undo really differs from what was there before. */
  ghost predicate Unsettled(w: Where, s: Shared, client: nat, p: Session) {
    && (w.Dirty? ==> p.committed != s.work.data)
    && (w.Adopted? ==> s.Owned(client) && p.committed != s.block.value.base.data)
  }

  /** The whole session knows only this data. */
  ghost predicate OnlyData(p: Session, data: Database) {
    p.committed == data && forall i :: 0 <= i < |p.levels| ==> p.levels[i].entry == data && p.levels[i].data == data
  }

  ghost predicate OnlyWork(s: Shared, data: Database) {
    && s.work.data == data
    && (s.block.Some? ==>
          s.block.value.base.data == data &&
          forall i :: 0 <= i < |s.block.value.saves| ==> s.block.value.saves[i].saved.data == data)
  }

  /** No query here does anything. */
  ghost predicate Idle(statements: seq<Statement>) {
    forall i :: 0 <= i < |statements| ==> (statements[i].kind.Regular? ==> statements[i].kind.query == FAILING)
  }

  lemma ReactKeepsData(p: Session, statement: Statement, data: Database)
    requires OnlyData(p, data) && (statement.kind.Regular? ==> statement.kind.query == FAILING)
    ensures OnlyData(React(p, statement).next, data)
  {
    hide Innermost;
    if statement.kind.RollbackTo? || statement.kind.Release? {
      LevelsKeepData(p, statement.kind.name, data);
      hide RollBackTo, Dedicated.Release;
    }
  }

  lemma LevelsKeepData(p: Session, name: string, data: Database)
    requires OnlyData(p, data)
    ensures OnlyData(RollBackTo(p, name).next, data) && OnlyData(Dedicated.Release(p, name).next, data)
  {
    hide Innermost;
  }

  lemma {:induction false} ReactAllKeepsData(p: Session, statements: seq<Statement>, several: bool, data: Database)
    requires OnlyData(p, data) && Idle(statements)
    ensures OnlyData(ReactAll(p, statements, several).next, data)
    decreases |statements|
  {
    if statements != [] {
      var entered := if several && p.levels == [] then p.Opened(true) else p;
      ReactKeepsData(entered, statements[0], data);
      hide React;
      if !React(entered, statements[0]).failed {
        ReactAllKeepsData(React(entered, statements[0]).next, statements[1..], several, data);
      }
    }
  }

  lemma StepKeepsData(s: Shared, client: nat, statement: Statement, data: Database)
    requires OnlyWork(s, data) && (statement.kind.Regular? ==> statement.kind.query == FAILING)
    ensures OnlyWork(Step(s, client, statement, s.work).next, data)
  {
    hide LastMark, Advanced;
  }

  lemma {:induction false} StepsKeepData(s: Shared, client: nat, statements: seq<Statement>, data: Database)
    requires OnlyWork(s, data) && Idle(statements)
    ensures OnlyWork(Steps(s, client, statements).next, data)
    decreases |statements|
  {
    if statements != [] {
      StepKeepsData(s, client, statements[0], data);
      hide Step;
      StepsKeepData(Step(s, client, statements[0], s.work).next, client, statements[1..], data);
    }
  }

  /** Once the two know different data, doing nothing more cannot make them alike. */
  lemma StayApart(
    s: Shared, client: nat, statements: seq<Statement>, p: Session, several: bool, theirs: Database, ours: Database)
    requires OnlyWork(s, theirs) && OnlyData(p, ours) && theirs != ours && Idle(statements)
    ensures !Alike(Steps(s, client, statements), client, ReactAll(p, statements, several))
  {
    ReactAllKeepsData(p, statements, several, ours);
    StepsKeepData(s, client, statements, theirs);
    hide Steps, ReactAll;
  }

  /** At the first statement treated differently the two go apart for good. */
  lemma Breaks(w: Where, s: Shared, client: nat, statements: seq<Statement>, p: Session, several: bool)
    requires client > 0 && !w.Stopped? && At(w, s, client, p) && Unsettled(w, s, client, p)
    requires statements != [] && Idle(statements) && Next(w, statements[0]).None?
    requires several || w.Inside? || |statements| == 1
    ensures !Alike(Steps(s, client, statements), client, ReactAll(p, statements, several))
  {
    var statement := statements[0];
    if w.Dirty? && statement.kind.Rollback? && !Fails(statement) && !statement.kind.chain {
      DirtyUndone(s, client, statements, p, several);
    } else if w.Adopted? && statement.kind.Rollback? && !Fails(statement) {
      AdoptedUndone(w.names, s, client, statements, p, several);
    } else if Chained(statement) || w.Inside? {
      ToldApart(w, s, client, statements, p, several);
    } else {
      BothFail(w, s, client, statements, p, several);
    }
  }

  /** ROLLBACK outside a block, where PostgreSQL undoes what came before it. */
  lemma DirtyUndone(s: Shared, client: nat, statements: seq<Statement>, p: Session, several: bool)
    requires client > 0 && At(Dirty, s, client, p) && p.committed != s.work.data
    requires statements != [] && Idle(statements)
    requires statements[0].kind == Rollback(false) && !Fails(statements[0])
    ensures !Alike(Steps(s, client, statements), client, ReactAll(p, statements, several))
  {
    var rest := statements[1..];
    var turn, reaction := Step(s, client, statements[0], s.work), React(p, statements[0]);
    assert !turn.failed && turn.next == s && reaction.next == Session(p.committed, [], false, false);
    SeenAll(reaction.replies);
    hide Step, React;
    if !s.block.Some? {
      StayApart(s, client, rest, reaction.next, several, s.work.data, p.committed);
    }
    Later(s, client, statements, p, several);
  }

  lemma AdoptedUndone(names: seq<string>, s: Shared, client: nat, statements: seq<Statement>, p: Session, several: bool)
    requires client > 0 && At(Adopted(names), s, client, p) && p.committed != s.block.value.base.data
    requires statements != [] && Idle(statements) && statements[0].kind.Rollback? && !Fails(statements[0])
    ensures !Alike(Steps(s, client, statements), client, ReactAll(p, statements, several))
  {
    var base := s.block.value.base;
    var turn, reaction := Step(s, client, statements[0], s.work), React(p, statements[0]);
    assert !turn.failed && OnlyWork(turn.next, base.data) && OnlyData(reaction.next, p.committed);
    SeenAll(reaction.replies);
    hide Step, React;
    StayApart(turn.next, client, statements[1..], reaction.next, several, base.data, p.committed);
    Later(s, client, statements, p, several);
  }

  /** What differs after a statement that succeeds differs in the end. */
  lemma Later(s: Shared, client: nat, statements: seq<Statement>, p: Session, several: bool)
    requires statements != []
    requires
      var turn := Step(s, client, statements[0], s.work);
      var reaction := React(Entered(p, several), statements[0]);
      && !turn.failed && !reaction.failed && Seen(turn.replies) == reaction.replies
      && !Alike(Steps(turn.next, client, statements[1..]), client, ReactAll(reaction.next, statements[1..], several))
    ensures !Alike(Steps(s, client, statements), client, ReactAll(p, statements, several))
  {
    hide Step, React, Mirrors, Seen;
    var turn := Step(s, client, statements[0], s.work);
    var reaction := React(Entered(p, several), statements[0]);
    var rest, others := Steps(turn.next, client, statements[1..]), ReactAll(reaction.next, statements[1..], several);
    SeenAppend(turn.replies, rest.replies);
    assert (reaction.replies + Seen(rest.replies))[|reaction.replies|..] == Seen(rest.replies);
    assert (reaction.replies + others.replies)[|reaction.replies|..] == others.replies;
  }

  /** AND CHAIN outside a block, and a refusal in a failed one: the replies differ. */
  lemma ToldApart(w: Where, s: Shared, client: nat, statements: seq<Statement>, p: Session, several: bool)
    requires client > 0 && At(w, s, client, p) && statements != []
    requires if w.Inside? then Next(w, statements[0]).None? else (w.Clean? || w.Dirty?) && Chained(statements[0])
    ensures !Alike(Steps(s, client, statements), client, ReactAll(p, statements, several))
  {
    var entered := Entered(p, several);
    var turn, reaction := Step(s, client, statements[0], s.work), React(entered, statements[0]);
    if w.Inside? {
      OwnedInBlock(s, client, p);
      SeenAll(turn.replies);
    } else {
      assert reaction.failed && reaction.replies == [Error("25P01")];
      assert !turn.failed && turn.replies[0] == Notice("25P01");
      hide Step, React, Mirrors;
      var rest := Steps(turn.next, client, statements[1..]);
      var all := turn.replies + rest.replies;
      assert Steps(s, client, statements).replies == all && all[0] == Notice("25P01");
      assert Seen(all)[0] == Notice("25P01");
      assert ReactAll(p, statements, several) == reaction;
    }
  }

  /** Both fail, but PostgreSQL has undone, or will undo, what the proxy has kept. */
  lemma BothFail(w: Where, s: Shared, client: nat, statements: seq<Statement>, p: Session, several: bool)
    requires client > 0 && At(w, s, client, p) && Unsettled(w, s, client, p) && (w.Dirty? || w.Adopted?)
    requires statements != [] && Idle(statements) && Next(w, statements[0]).None?
    requires !Chained(statements[0]) && !(statements[0].kind.Rollback? && !Fails(statements[0]))
    ensures !Alike(Steps(s, client, statements), client, ReactAll(p, statements, several))
  {
    FailsThere(w, s, client, statements[0], p);
    assert p.levels != [];
    hide Step, React, Mirrors, Next;
    assert ReactAll(p, statements, several) == React(p, statements[0]);
  }

  lemma FailsThere(w: Where, s: Shared, client: nat, statement: Statement, p: Session)
    requires client > 0 && At(w, s, client, p) && Unsettled(w, s, client, p) && (w.Dirty? || w.Adopted?)
    requires (statement.kind.Regular? ==> statement.kind.query == FAILING) && Next(w, statement).None?
    requires !Chained(statement) && !(statement.kind.Rollback? && !Fails(statement))
    ensures
      var turn, reaction := Step(s, client, statement, s.work), React(p, statement);
      turn.failed && reaction.failed && !Mirrors(turn.next, client, reaction.next)
  {
    if w.Adopted? && (statement.kind.RollbackTo? || statement.kind.Release?) {
      SameLast(w.names, s.block.value.saves, statement.kind.name);
      SameInnermost(p.levels, s.block.value.saves, statement.kind.name);
    }
  }

  /** Every string that is not `Uniform` has one of its shape that is answered differently. */
  lemma {:induction false} Diverges(
    w: Where, s: Shared, client: nat, statements: seq<Statement>, p: Session, several: bool,
    writing: Query, failing: Query)
    requires writing == INSERT && failing == FAILING
    requires client > 0 && !w.Stopped? && At(w, s, client, p) && Unsettled(w, s, client, p)
    requires !Flows(w, statements) && (several || w.Inside? || |statements| == 1)
    requires w.Inside? && !several ==> |statements| <= 1
    requires !several ==> w.Inside? || w.Clean?
    ensures
      var told := Telling(w, statements, writing, failing);
      !Alike(Steps(s, client, told), client, ReactAll(p, told, several))
    decreases |statements|
  {
    if statements != [] && Next(w, statements[0]).Some? {
      NeverSingle(w, statements, several);
    }
    if statements == [] {
    } else if Next(w, statements[0]).None? {
      AllIdle(statements, failing);
      ShapeNext(w, statements[0], failing);
      Breaks(w, s, client, AllWith(statements, failing), p, several);
    } else {
      var place, statement := Next(w, statements[0]).value, With(statements[0], writing);
      if place.Stopped? {
        StoppedFlows(statements[1..]);
      }
      ShapeNext(w, statements[0], writing);
      FlowStep(w, s, client, statement, p);
      Writes(w, s, client, statement, p);
      var turn, reaction := Step(s, client, statement, s.work), React(Entered(p, true), statement);
      Diverges(place, turn.next, client, statements[1..], reaction.next, true, writing, failing);
      var told := Telling(w, statements, writing, failing);
      assert told[0] == statement && told[1..] == Telling(place, statements[1..], writing, failing);
      hide Step, React, Mirrors, At, Next, Telling, Flows;
      Later(s, client, told, p, true);
    }
  }

  lemma {:induction false} StoppedFlows(statements: seq<Statement>)
    ensures Flows(Stopped, statements)
    decreases |statements|
  {
    if statements != [] {
      StoppedFlows(statements[1..]);
    }
  }

  lemma NeverSingle(w: Where, statements: seq<Statement>, several: bool)
    requires !w.Stopped? && statements != [] && Next(w, statements[0]).Some? && !Flows(w, statements)
    requires several || w.Inside? || |statements| == 1
    requires w.Inside? && !several ==> |statements| <= 1
    requires !several ==> w.Inside? || w.Clean?
    ensures several
  {
    if |statements| == 1 {
      assert statements[1..] == [];
    }
  }

  /** A place depends on the shape only. */
  lemma ShapeNext(w: Where, statement: Statement, query: Query)
    ensures Next(w, With(statement, query)) == Next(w, statement)
  {
  }

  lemma {:induction false} AllIdle(statements: seq<Statement>, failing: Query)
    requires failing == FAILING
    ensures Idle(AllWith(statements, failing)) && |AllWith(statements, failing)| == |statements|
    ensures statements != [] ==> AllWith(statements, failing)[0] == With(statements[0], failing)
  {
    if statements != [] {
      AllIdle(statements[1..], failing);
    }
  }

  /** A writing query succeeds and leaves PostgreSQL something to undo. */
  lemma Writes(w: Where, s: Shared, client: nat, statement: Statement, p: Session)
    requires client > 0 && !w.Stopped? && At(w, s, client, p) && Unsettled(w, s, client, p)
    requires Next(w, statement).Some? && !Next(w, statement).value.Stopped?
    requires statement.kind.Regular? ==> statement.kind.query == INSERT
    ensures
      var turn, reaction := Step(s, client, statement, s.work), React(Entered(p, true), statement);
      !turn.failed && Unsettled(Next(w, statement).value, turn.next, client, reaction.next)
  {
    if statement.kind.Regular? {
      InsertWrites(w, s, client, statement, p);
    } else {
      ControlWrites(w, s, client, statement, p);
    }
  }

  lemma InsertWrites(w: Where, s: Shared, client: nat, statement: Statement, p: Session)
    requires client > 0 && !w.Stopped? && At(w, s, client, p) && Unsettled(w, s, client, p)
    requires Next(w, statement).Some? && !Next(w, statement).value.Stopped?
    requires statement.kind.Regular? && statement.kind.query == INSERT
    ensures
      var turn, reaction := Step(s, client, statement, s.work), React(Entered(p, true), statement);
      !turn.failed && Unsettled(Next(w, statement).value, turn.next, client, reaction.next)
  {
    InsertChanges(s.work.data);
    hide LevelsMatch, LastOf, LastMark, Innermost;
  }

  lemma ControlWrites(w: Where, s: Shared, client: nat, statement: Statement, p: Session)
    requires client > 0 && !w.Stopped? && At(w, s, client, p) && Unsettled(w, s, client, p)
    requires Next(w, statement).Some? && !Next(w, statement).value.Stopped? && !statement.kind.Regular?
    ensures
      var turn, reaction := Step(s, client, statement, s.work), React(Entered(p, true), statement);
      !turn.failed && Unsettled(Next(w, statement).value, turn.next, client, reaction.next)
  {
    assert w.Adopted? ==> p.levels != [] && p.levels[0].name.None?;
    hide LevelsMatch, LastOf, LastMark, Innermost;
    if (w.Inside? || w.Adopted?) && (statement.kind.RollbackTo? || statement.kind.Release?) {
      SameLast(w.names, s.block.value.saves, statement.kind.name);
    }
  }

  /** A string is treated alike whatever its queries do if and only if it is `Uniform`. */
  lemma UniformExactly(s: Shared, client: nat, statements: seq<Statement>, p: Session)
    requires Mirrors(s, client, p) && client > 0 && !s.Leased(client)
    ensures
      Uniform(p, statements) <==>
      forall others :: SameShape(statements, others) ==> Alike(Simple(s, client, others), client, Answer(p, others))
  {
    if Uniform(p, statements) {
      forall others | SameShape(statements, others)
        ensures Alike(Simple(s, client, others), client, Answer(p, others))
      {
        UniformShape(p, statements, others);
        QuerySimulates(s, client, others, p);
      }
    } else if statements == [] {
      EmptySimulates(s, client, p);
      assert SameShape(statements, []);
    } else {
      TellingShape(Start(p), statements, Inserting(), Failing());
      ToldBy(s, client, statements, p, Inserting(), Failing());
    }
  }

  lemma ToldBy(s: Shared, client: nat, statements: seq<Statement>, p: Session, writing: Query, failing: Query)
    requires writing == INSERT && failing == FAILING
    requires Mirrors(s, client, p) && client > 0 && !s.Leased(client) && statements != [] && !Uniform(p, statements)
    ensures
      var told := Telling(Start(p), statements, writing, failing);
      !Alike(Simple(s, client, told), client, Answer(p, told))
  {
    var told := Telling(Start(p), statements, writing, failing);
    StartAt(s, client, p);
    OwnedInBlock(s, client, p);
    TellingShape(Start(p), statements, writing, failing);
    Diverges(Start(p), s, client, statements, p, |statements| > 1, writing, failing);
    WithStatus(s, client, told, p);
    RegularShape(statements, told);
    hide Steps, ReactAll, Mirrors, At, Telling;
  }

  lemma RegularShape(statements: seq<Statement>, others: seq<Statement>)
    requires SameShape(statements, others)
    ensures AllRegular(statements) <==> AllRegular(others)
  {
    if !AllRegular(statements) {
      var i :| 0 <= i < |statements| && !statements[i].kind.Regular?;
      assert SameKind(statements[i], others[i]);
    }
    if !AllRegular(others) {
      var i :| 0 <= i < |others| && !others[i].kind.Regular?;
      assert SameKind(statements[i], others[i]);
    }
  }

  lemma UniformShape(p: Session, statements: seq<Statement>, others: seq<Statement>)
    requires SameShape(statements, others) && Uniform(p, statements)
    ensures Uniform(p, others)
  {
    if statements != [] {
      RegularShape(statements, others);
      FlowsShape(Start(p), statements, others);
    }
  }

  lemma {:induction false} FlowsShape(w: Where, statements: seq<Statement>, others: seq<Statement>)
    requires SameShape(statements, others)
    ensures Flows(w, others) <==> Flows(w, statements)
    decreases |statements|
  {
    if statements != [] {
      assert SameKind(statements[0], others[0]);
      assert Next(w, others[0]) == Next(w, statements[0]);
      if Next(w, statements[0]).Some? {
        assert SameShape(statements[1..], others[1..]) by {
          var left, right := statements[1..], others[1..];
          assert forall i :: 0 <= i < |left| ==> left[i] == statements[1 + i] && right[i] == others[1 + i];
        }
        FlowsShape(Next(w, statements[0]).value, statements[1..], others[1..]);
      }
    }
  }

  /** With something pending that matters, a string is treated alike whatever its queries
      do if and only if it flows on from there. */
  lemma PendingExactly(s: Shared, client: nat, statements: seq<Statement>, p: Session)
    requires client > 0 && At(Dirty, s, client, p) && p.committed != s.work.data
    ensures
      Flows(Dirty, statements) <==>
      forall others :: SameShape(statements, others) ==> Alike(Simple(s, client, others), client, Answer(p, others))
  {
    if Flows(Dirty, statements) {
      forall others | SameShape(statements, others)
        ensures Alike(Simple(s, client, others), client, Answer(p, others))
      {
        FlowsShape(Dirty, statements, others);
        PendingSimulates(s, client, others, p);
      }
    } else {
      TellingShape(Dirty, statements, Inserting(), Failing());
      PendingToldBy(s, client, statements, p, Inserting(), Failing());
    }
  }

  lemma PendingToldBy(
    s: Shared, client: nat, statements: seq<Statement>, p: Session, writing: Query, failing: Query)
    requires writing == INSERT && failing == FAILING
    requires client > 0 && At(Dirty, s, client, p) && p.committed != s.work.data && !Flows(Dirty, statements)
    ensures
      var told := Telling(Dirty, statements, writing, failing);
      !Alike(Simple(s, client, told), client, Answer(p, told))
  {
    var told := Telling(Dirty, statements, writing, failing);
    TellingShape(Dirty, statements, writing, failing);
    Diverges(Dirty, s, client, statements, p, true, writing, failing);
    SeveralSame(p, told);
    BatchFailsFirst(s, client, statements, writing, failing);
    WithStatus(s, client, told, p);
    hide Steps, ReactAll, Mirrors, At, Telling;
  }

  /** Ordinary statements alone are told apart by the first, so there is no batch to undo. */
  lemma BatchFailsFirst(s: Shared, client: nat, statements: seq<Statement>, writing: Query, failing: Query)
    requires failing == FAILING && statements != [] && !s.Owned(client) && !s.Leased(client)
    ensures
      var told := Telling(Dirty, statements, writing, failing);
      Unready(s, client, told) == Steps(s, client, told)
  {
    TellingShape(Dirty, statements, writing, failing);
    AllIdle(statements, failing);
    var told := Telling(Dirty, statements, writing, failing);
    if AllRegular(told) {
      assert SameKind(statements[0], told[0]);
      assert told == AllWith(statements, failing);
      hide Telling, AllWith, SameShape;
      assert Steps(s, client, told) == Step(s, client, told[0], s.work);
    }
  }

  /** The best known of them: in one query string, PostgreSQL lets BEGIN adopt what
      came before it, so ROLLBACK undoes it; the proxy has already kept it. */
  lemma BeginAdoptsNothing(s: Shared, client: nat, query: Query, p: Session)
    requires Mirrors(s, client, p) && client > 0 && !s.Leased(client) && !s.Owned(client)
    requires query.run(s.work.data).ok
    ensures
      var statements := [
        Statement(Regular(query), ""), Statement(Kind.Begin(false), ""), Statement(Kind.Rollback(false), "")];
      && Simple(s, client, statements).next.work.data == query.run(s.work.data).data
      && Answer(p, statements).next.committed == s.work.data
  {
    var begin, rollback := Statement(Kind.Begin(false), ""), Statement(Kind.Rollback(false), "");
    var statements := [Statement(Regular(query), ""), begin, rollback];
    assert statements[1..] == [begin, rollback] && [begin, rollback][1..] == [rollback] && [rollback][1..] == [];
    var first := Step(s, client, statements[0], s.work);
    var second := Step(first.next, client, begin, first.next.work);
    var third := Step(second.next, client, rollback, second.next.work);
    assert Steps(third.next, client, []).next == third.next;
    assert Steps(second.next, client, [rollback]).next == third.next;
    assert Steps(first.next, client, [begin, rollback]).next == third.next;
    assert !AllRegular(statements) by {
      assert !statements[1].kind.Regular?;
    }
    assert Simple(s, client, statements).next == third.next;
    var implicit := p.Opened(true);
    var one := React(implicit, statements[0]).next;
    var two := React(one, begin).next;
    var three := React(two, rollback).next;
    assert ReactAll(two, [rollback], true).next == three;
    assert ReactAll(one, [begin, rollback], true).next == three;
    assert ReactAll(p, statements, true).next == three;
  }
}
