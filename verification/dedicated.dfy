/**
 A client with a PostgreSQL session of its own, as PostgreSQL documents it: nested
 transaction levels, each with its own data, an aborted state, and an implicit
 block around a query string of several statements. It is the reference the proxy is
 compared with, statement by statement here.
 */
module Dedicated {
  import opened Wrappers
  import opened Postgres
  import opened SharedSession

  /** One nesting level: the data it started from and the data it sees now.
      The outermost level has no savepoint name. */
  datatype Level = Level(name: Option<string>, entry: Database, data: Database)

  datatype Session = Session(committed: Database, levels: seq<Level>, implicit: bool, failed: bool) {
    function Data(): Database {
      if levels == [] then committed else levels[|levels| - 1].data
    }

    /** Inside BEGIN ... COMMIT, not merely inside the implicit block of one query. */
    predicate InBlock() {
      levels != [] && !implicit
    }

    function Status(): char {
      if !InBlock() then 'I' else if failed then 'E' else 'T'
    }

    function Writing(data: Database): Session {
      if levels == [] then this.(committed := data)
      else this.(levels := levels[..|levels| - 1] + [levels[|levels| - 1].(data := data)])
    }

    function Opened(implicit: bool): Session {
      Session(committed, [Level(None, committed, committed)], implicit, false)
    }

    function Ended(data: Database, chain: bool): Session {
      var idle := Session(data, [], false, false);
      if chain then idle.Opened(false) else idle
    }

    /** An error aborts a block; outside one it undoes what is not committed. */
    function Aborted(): Session {
      if InBlock() then this.(failed := true) else Session(committed, [], false, false)
    }
  }

  datatype Reaction = Reaction(next: Session, replies: seq<Reply>, failed: bool)

  function Raise(p: Session, code: string): Reaction {
    Reaction(p.Aborted(), [Error(code)], true)
  }

  /** The innermost level that is the savepoint `name`, or -1. */
  function Innermost(levels: seq<Level>, name: string): (index: int)
    ensures -1 <= index < |levels|
    ensures index >= 0 ==> levels[index].name == Some(name)
  {
    if levels == [] then -1
    else if levels[|levels| - 1].name == Some(name) then |levels| - 1
    else Innermost(levels[..|levels| - 1], name)
  }

  function End(p: Session, commit: bool, chain: bool): Reaction {
    var tag := Plain(if commit && !p.failed then "COMMIT" else "ROLLBACK");
    var data := if commit && !p.failed then p.Data() else p.committed;
    if p.InBlock() then Reaction(p.Ended(data, chain), [tag], false)
    else if chain then Raise(p, "25P01")
    else Reaction(p.Ended(data, false), [Notice("25P01"), tag], false)
  }

  function Define(p: Session, name: string): Reaction {
    if !p.InBlock() then Raise(p, "25P01")
    else Reaction(p.(levels := p.levels + [Level(Some(name), p.Data(), p.Data())]), [Plain("SAVEPOINT")], false)
  }

  /** ROLLBACK TO: levels inside the savepoint are gone and it starts afresh. */
  function RollBackTo(p: Session, name: string): Reaction {
    var index := Innermost(p.levels, name);
    if !p.InBlock() then Raise(p, "25P01")
    else if index < 0 then Raise(p, "3B001")
    else
      var entry := p.levels[index].entry;
      Reaction(p.(levels := p.levels[..index] + [Level(Some(name), entry, entry)], failed := false),
               [Plain("ROLLBACK")], false)
  }

  /** RELEASE: the enclosing level takes over the data. */
  function Release(p: Session, name: string): Reaction {
    var index := Innermost(p.levels, name);
    if !p.InBlock() then Raise(p, "25P01")
    else if index < 0 then Raise(p, "3B001")
    else Reaction(p.(levels := p.levels[..index]).Writing(p.Data()), [Plain("RELEASE")], false)
  }

  function Begin(p: Session, options: bool): Reaction {
    if options then Raise(p, "0A000")
    else if p.InBlock() then Reaction(p, [Notice("25001"), Plain("BEGIN")], false)
    else if p.levels != [] then Reaction(p.(implicit := false), [Plain("BEGIN")], false)
    else Reaction(p.Opened(false), [Plain("BEGIN")], false)
  }

  /** What the proxy never runs; a session of one's own is taken to fail on it. */
  predicate Refused(statement: Statement) {
    statement.refusal != "" || statement.kind.Forbidden?
  }

  /** One statement. An aborted block accepts only its own end. */
  function React(p: Session, statement: Statement): Reaction {
    if p.failed && !statement.EndsBlock() then Reaction(p, [Error("25P02")], true)
    else if Refused(statement) then Raise(p, "0A000")
    else
      match statement.kind
      case Begin(options) => Begin(p, options)
      case Commit(chain) => End(p, true, chain)
      case Rollback(chain) => End(p, false, chain)
      case Savepoint(name) => Define(p, name)
      case RollbackTo(name) => RollBackTo(p, name)
      case Release(name) => Release(p, name)
      case Regular(query) =>
        var outcome := query.run(p.Data());
        if outcome.ok then Reaction(p.Writing(outcome.data), outcome.Replies(), false)
        else Reaction(p.Aborted(), outcome.Replies(), true)
      case Forbidden => Raise(p, "0A000")
  }

  /** The statements of one query; several of them run in an implicit block. */
  function ReactAll(p: Session, statements: seq<Statement>, several: bool): Reaction
    decreases |statements|
  {
    if statements == [] then
      Reaction(if p.implicit then p.Ended(p.Data(), false) else p, [], false)
    else
      var entered := if several && p.levels == [] then p.Opened(true) else p;
      var first := React(entered, statements[0]);
      if first.failed then first
      else
        var rest := ReactAll(first.next, statements[1..], several);
        Reaction(rest.next, first.replies + rest.replies, rest.failed)
  }

  /** A query string; one without a statement is answered even in an aborted block.
      Its end commits what is not in a block, even if it was pending before. */
  function Answer(p: Session, statements: seq<Statement>): Reaction {
    var reaction := ReactAll(p, statements, |statements| > 1);
    reaction.(replies := (if statements == [] then [Output([])] else reaction.replies) + [Ready(reaction.next.Status())])
  }

  function AnswerBad(p: Session): Reaction {
    Reaction(p.Aborted(), [Error("42601"), Ready(p.Aborted().Status())], true)
  }

  /* What a client of the proxy sees, apart from the announcement of a TRUNCATE. */

  function Seen(replies: seq<Reply>): seq<Reply> {
    if replies == [] then []
    else (if replies[0] == Notice("00000") then [] else [replies[0]]) + Seen(replies[1..])
  }

  lemma {:induction false} SeenAppend(first: seq<Reply>, second: seq<Reply>)
    ensures Seen(first + second) == Seen(first) + Seen(second)
  {
    if first != [] {
      assert (first + second)[1..] == first[1..] + second;
      SeenAppend(first[1..], second);
    } else {
      assert first + second == second;
    }
  }

  lemma {:induction false} SeenCompletions(tags: seq<Tag>)
    ensures Seen(Completions(tags)) == Completions(tags)
  {
    if tags != [] {
      SeenCompletions(tags[1..]);
      assert Completions(tags)[1..] == Completions(tags[1..]);
    }
  }

  lemma SeenOutcome(query: RawQuery, outcome: Outcome)
    ensures Seen(Announcement(query) + outcome.Replies()) == outcome.Replies()
  {
    var end := if outcome.ok then [] else [Error(outcome.code)];
    SeenAppend(Announcement(query), outcome.Replies());
    SeenAppend([Output(outcome.output)] + Completions(outcome.tags), end);
    SeenAppend([Output(outcome.output)], Completions(outcome.tags));
    SeenCompletions(outcome.tags);
    SeenShort(outcome.output, end);
    assert Announcement(query) == [] || Announcement(query)[1..] == [];
    assert Seen(Announcement(query)) == [];
  }

  lemma SeenShort(output: seq<string>, end: seq<Reply>)
    requires |end| <= 1 && Notice("00000") !in end
    ensures Seen([Output(output)]) == [Output(output)] && Seen(end) == end
  {
  }

  /* The simulation. */

  /** The reference session's levels are the block's savepoints. */
  ghost predicate LevelsMatch(levels: seq<Level>, saves: seq<Mark>) {
    && |levels| == |saves| + 1
    && levels[0].name == None
    && (forall i :: 0 <= i < |saves| ==> levels[i + 1].name == Some(saves[i].name))
    && (forall i :: 0 <= i < |saves| ==> levels[i + 1].entry == saves[i].saved.data)
  }

  /** With the lock free: same savepoints, same failed state, and the same data as far
      as a client can see it, which it cannot in a failed block. */
  ghost predicate Mirrors(s: Shared, client: nat, p: Session) {
    && !p.implicit
    && if s.Owned(client) then
         var block := s.block.value;
         && p.failed == block.failed
         && p.committed == block.base.data
         && LevelsMatch(p.levels, block.saves)
         && (!p.failed ==> p.Data() == s.work.data)
       else p.levels == [] && !p.failed && p.committed == s.work.data
  }

  lemma {:induction false} SameInnermost(levels: seq<Level>, saves: seq<Mark>, name: string)
    requires |levels| == |saves| + 1 && levels[0].name == None
    requires forall i :: 0 <= i < |saves| ==> levels[i + 1].name == Some(saves[i].name)
    ensures
      var index := LastMark(saves, name);
      Innermost(levels, name) == if index < 0 then -1 else index + 1
  {
    var last := |saves| - 1;
    if saves == [] {
      assert Innermost(levels[..0], name) == -1;
    } else if saves[last].name != name {
      SameInnermost(levels[..last + 1], saves[..last], name);
    }
  }

  lemma {:induction false} SeenAll(replies: seq<Reply>)
    requires Notice("00000") !in replies
    ensures Seen(replies) == replies
  {
    if replies != [] {
      SeenAll(replies[1..]);
    }
  }

  /** The same outcome, up to the announcement of a TRUNCATE. */
  ghost predicate Alike(turn: Turn, client: nat, reaction: Reaction) {
    && Mirrors(turn.next, client, reaction.next) && !turn.next.Leased(client)
    && turn.failed == reaction.failed && Seen(turn.replies) == reaction.replies
  }

  /** COMMIT and ROLLBACK that open the next block. */
  predicate Chained(statement: Statement) {
    (statement.kind.Commit? || statement.kind.Rollback?) && statement.kind.chain && statement.refusal == ""
  }

  /** What a proxy answers differently: AND CHAIN outside a block, where PostgreSQL fails
      and the proxy warns, and a refused statement in a failed block, where they give
      different reasons. */
  predicate Different(p: Session, statement: Statement) {
    if p.failed && !statement.EndsBlock() then Refused(statement) else !p.InBlock() && Chained(statement)
  }

  /** Every other statement inside a block, or alone outside one, is answered alike. */
  lemma StepSimulates(s: Shared, client: nat, statement: Statement, p: Session)
    requires Mirrors(s, client, p) && client > 0 && !s.Leased(client)
    requires !Different(p, statement)
    ensures Alike(Step(s, client, statement, s.work), client, React(p, statement))
  {
    OwnedInBlock(s, client, p);
    hide LevelsMatch, Seen, Control, RollBackTo, Release, Define, Begin, End, Run;
    var kind := statement.kind;
    SeenAll([Error("0A000")]);
    SeenAll([Error("25P02")]);
    FailSimulates(s, client, p);
    if Refused(statement) || (p.failed && !statement.EndsBlock()) {
    } else if kind.Regular? {
      RunSimulates(s, client, kind.query, p, s.work);
    } else {
      ControlSimulates(s, client, statement, p);
    }
  }

  /** These are the only statements answered differently. */
  lemma SingleExactly(s: Shared, client: nat, statement: Statement, p: Session)
    requires Mirrors(s, client, p) && client > 0 && !s.Leased(client)
    ensures Alike(Step(s, client, statement, s.work), client, React(p, statement)) <==> !Different(p, statement)
  {
    if Different(p, statement) {
      SeenAll([Error("0A000")]);
    } else {
      StepSimulates(s, client, statement, p);
    }
  }

  lemma ControlSimulates(s: Shared, client: nat, statement: Statement, p: Session)
    requires Mirrors(s, client, p) && client > 0 && !s.Leased(client)
    requires Chained(statement) ==> s.Owned(client)
    requires !Refused(statement) && !statement.kind.Regular?
    requires p.failed ==> statement.EndsBlock()
    ensures Alike(Control(s, client, statement.kind), client, React(p, statement))
  {
    hide LevelsMatch, Seen;
    SeenAll(React(p, statement).replies);
    match statement.kind
    case Begin(options) => BeginSimulates(s, client, options, p);
    case Commit(chain) => EndSimulates(s, client, true, chain, p);
    case Rollback(chain) => EndSimulates(s, client, false, chain, p);
    case Savepoint(name) => SavepointSimulates(s, client, name, p);
    case RollbackTo(name) => RollbackToSimulates(s, client, name, p);
    case Release(name) => ReleaseSimulates(s, client, name, p);
    case _ =>
  }

  lemma FailSimulates(s: Shared, client: nat, p: Session)
    requires Mirrors(s, client, p)
    ensures Mirrors(s.Fail(client), client, p.Aborted())
  {
  }

  lemma RunSimulates(s: Shared, client: nat, query: Query, p: Session, settled: Work)
    requires Mirrors(s, client, p) && client > 0 && !s.Leased(client) && !p.failed
    ensures Alike(Run(s, client, query, false, settled), client, React(p, Statement(Regular(query), "")))
  {
    var outcome := query.run(s.work.data);
    SeenOutcome(query, outcome);
    FailSimulates(s, client, p);
    var next := Run(s, client, query, false, settled).next;
    if outcome.ok {
      WritingMatches(s, client, next.work, p);
    }
  }

  lemma WritingMatches(s: Shared, client: nat, work: Work, p: Session)
    requires Mirrors(s, client, p)
    ensures Mirrors(s.(work := work), client, p.Writing(work.data))
  {
  }

  lemma BeginSimulates(s: Shared, client: nat, options: bool, p: Session)
    requires Mirrors(s, client, p) && client > 0 && !s.Leased(client) && !p.failed
    ensures
      var turn := BeginTurn(s, client, options);
      var reaction := Begin(p, options);
      && Mirrors(turn.next, client, reaction.next) && !turn.next.Leased(client)
      && turn.failed == reaction.failed && turn.replies == reaction.replies
  {
  }

  lemma EndSimulates(s: Shared, client: nat, commit: bool, chain: bool, p: Session)
    requires Mirrors(s, client, p) && client > 0 && !s.Leased(client)
    requires chain ==> s.Owned(client)
    ensures
      var turn := EndTurn(s, client, commit, chain);
      var reaction := End(p, commit, chain);
      && Mirrors(turn.next, client, reaction.next) && !turn.next.Leased(client)
      && turn.failed == reaction.failed && turn.replies == reaction.replies
  {
  }

  lemma RollbackToSimulates(s: Shared, client: nat, name: string, p: Session)
    requires Mirrors(s, client, p) && !s.Leased(client)
    ensures
      var turn := RollbackToTurn(s, client, name);
      var reaction := RollBackTo(p, name);
      && Mirrors(turn.next, client, reaction.next) && !turn.next.Leased(client)
      && turn.failed == reaction.failed && turn.replies == reaction.replies
  {
    if s.Owned(client) {
      SameInnermost(p.levels, s.block.value.saves, name);
    }
  }

  lemma ReleaseSimulates(s: Shared, client: nat, name: string, p: Session)
    requires Mirrors(s, client, p) && !s.Leased(client) && !p.failed
    ensures
      var turn := ReleaseTurn(s, client, name);
      var reaction := Release(p, name);
      && Mirrors(turn.next, client, reaction.next) && !turn.next.Leased(client)
      && turn.failed == reaction.failed && turn.replies == reaction.replies
  {
    if s.Owned(client) {
      SameInnermost(p.levels, s.block.value.saves, name);
    }
  }

  lemma SavepointSimulates(s: Shared, client: nat, name: string, p: Session)
    requires Mirrors(s, client, p) && !s.Leased(client) && !p.failed
    ensures
      var turn := SavepointTurn(s, client, name);
      var reaction := Define(p, name);
      && Mirrors(turn.next, client, reaction.next) && !turn.next.Leased(client)
      && turn.failed == reaction.failed && turn.replies == reaction.replies
  {
  }

  lemma OwnedInBlock(s: Shared, client: nat, p: Session)
    requires Mirrors(s, client, p)
    ensures s.Owned(client) <==> p.InBlock()
    ensures p.levels == [] <==> !p.InBlock()
    ensures s.Status(client) == p.Status()
  {
  }

  lemma BadQuerySimulates(s: Shared, client: nat, p: Session)
    requires Mirrors(s, client, p) && !s.Leased(client)
    ensures Alike(Unparsed(s, client), client, AnswerBad(p))
  {
    hide LevelsMatch;
    FailSimulates(s, client, p);
    OwnedInBlock(s.Fail(client), client, p.Aborted());
    SeenAll(Unparsed(s, client).replies);
  }
}
