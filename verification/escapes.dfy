/**
 Statements approved to run outside the transaction. The lock is given up while one is
 approved, and the right to run it is taken without another look at who holds it: it is
 exclusive exactly as long as nobody else holds it whenever it is taken.
 */
module Escapes {
  import opened Wrappers
  import opened Postgres
  import opened SharedSession
  import opened Interleaving
  import opened SampleQueries

  predicate Granted(event: Event) {
    event.message == EscapeGrant("")
  }

  /** The clients that were granted the right and have not ended since. */
  function InFlight(running: set<nat>, event: Event): set<nat> {
    match event.message
    case EscapeGrant(error) => if error == "" then running + {event.client} else running - {event.client}
    case EscapeEnd(_, _) => running - {event.client}
    case _ => running
  }

  function Flights(running: set<nat>, events: seq<Event>): set<nat>
    decreases |events|
  {
    if events == [] then running else Flights(InFlight(running, events[0]), events[1..])
  }

  /** Exactly the client the proxy knows of, if any, has a statement in flight. */
  predicate Exclusive(s: Shared, running: set<nat>) {
    running == if s.escape == 0 then {} else {s.escape}
  }

  /** And no other client has a block open. */
  predicate Alone(s: Shared, running: set<nat>) {
    Exclusive(s, running) && (s.escape != 0 && s.block.Some? ==> s.block.value.client == s.escape)
  }

  /* Nothing but taking and returning the right changes who holds it. */

  /** No statement changes who holds the right, and none opens a block beside it. */
  predicate Keeps(before: Shared, after: Shared, client: nat) {
    && after.escape == before.escape
    && (before.Escaping(client) && !before.Owned(client) ==> !after.Owned(client))
  }

  lemma StepKeeps(s: Shared, client: nat, statement: Statement, settled: Work)
    ensures Keeps(s, Step(s, client, statement, settled).next, client)
  {
  }

  lemma {:induction false} StepsKeep(s: Shared, client: nat, statements: seq<Statement>)
    ensures Keeps(s, Steps(s, client, statements).next, client)
    decreases |statements|
  {
    hide Step;
    if statements != [] {
      StepKeeps(s, client, statements[0], s.work);
      StepsKeep(Step(s, client, statements[0], s.work).next, client, statements[1..]);
    }
  }

  lemma ExecuteKeeps(s: Shared, statement: Statement)
    requires s.cycle.Some?
    ensures Keeps(s, Execute(s, statement).next, s.cycle.value.client)
  {
    hide Step;
    var cycle := s.cycle.value;
    var doomed := s.(cycle := Some(cycle.(doomed := true)));
    StepKeeps(s.(work := Kept(s)), cycle.client, statement, Kept(s));
    StepKeeps(doomed.(work := Kept(doomed)), cycle.client, statement, Kept(doomed));
    StepKeeps(s, cycle.client, statement, cycle.settled);
    StepKeeps(doomed, cycle.client, statement, cycle.settled);
  }

  lemma HandleKeeps(s: Shared, event: Event)
    requires Enabled(s, event) && !event.message.EscapeGrant? && !event.message.EscapeEnd?
    ensures Keeps(s, Handle(s, event).next, event.client)
  {
    hide Step, Steps, Execute;
    match event.message
    case SimpleQuery(parsed) =>
      StepsKeep(Synced(s), event.client, if parsed == [] then [EMPTY_STATEMENT] else parsed);
    case ExecuteMessage(statement) => ExecuteKeeps(InCycle(s, event.client), statement);
    case _ =>
  }

  /* One event. */

  /** The right stays exclusive if and only if it is not taken while another holds it. */
  lemma GrantExactly(s: Shared, event: Event, running: set<nat>)
    requires Enabled(s, event) && Exclusive(s, running)
    ensures
      Exclusive(Handle(s, event).next, InFlight(running, event)) <==>
      !(Granted(event) && s.Escaping(event.client))
  {
    if !event.message.EscapeGrant? && !event.message.EscapeEnd? {
      HandleKeeps(s, event);
      hide Handle;
    } else if Granted(event) && s.Escaping(event.client) {
      assert s.escape in InFlight(running, event);
    }
  }

  /** A statement in flight and another client's block stay apart if and only if the right
      is not taken under a lease; asking for it looked, taking it does not. */
  lemma AloneExactly(s: Shared, event: Event, running: set<nat>)
    requires Enabled(s, event) && Alone(s, running)
    ensures
      Alone(Handle(s, event).next, InFlight(running, event)) <==>
      !(Granted(event) && s.Leased(event.client))
  {
    GrantExactly(s, event, running);
    HandleMine(s, event);
    if !event.message.EscapeGrant? && !event.message.EscapeEnd? {
      HandleKeeps(s, event);
      hide Handle;
    }
  }

  /** While the right is exclusive, nothing ordinary of other clients runs beside it. */
  lemma FlightRefuses(s: Shared, running: set<nat>, holder: nat, client: nat, statement: Statement, settled: Work)
    requires Exclusive(s, running) && holder in running && client != holder && statement.kind.Regular?
    ensures
      var turn := Step(s, client, statement, settled);
      turn.failed && turn.next.work == s.work
  {
  }

  /* Whole runs. */

  ghost predicate AlwaysExclusive(s: Shared, running: set<nat>, events: seq<Event>)
    requires Admitted(s, events)
    decreases |events|
  {
    && Exclusive(s, running)
    && (events != [] ==> AlwaysExclusive(Handle(s, events[0]).next, InFlight(running, events[0]), events[1..]))
  }

  /** Whenever the right is taken, no other client holds it. */
  ghost predicate NoOverlap(s: Shared, events: seq<Event>)
    requires Admitted(s, events)
    decreases |events|
  {
    events != [] ==>
      && !(Granted(events[0]) && s.Escaping(events[0].client))
      && NoOverlap(Handle(s, events[0]).next, events[1..])
  }

  /** Over any run the right is exclusive throughout if and only if no two takings of it
      overlap. */
  lemma {:induction false} ExclusiveExactly(s: Shared, running: set<nat>, events: seq<Event>)
    requires Admitted(s, events) && Exclusive(s, running)
    ensures AlwaysExclusive(s, running, events) <==> NoOverlap(s, events)
    decreases |events|
  {
    hide Handle, Exclusive, InFlight;
    if events != [] {
      GrantExactly(s, events[0], running);
      var next, now := Handle(s, events[0]).next, InFlight(running, events[0]);
      if Exclusive(next, now) {
        ExclusiveExactly(next, now, events[1..]);
      } else {
        assert !AlwaysExclusive(next, now, events[1..]);
      }
    }
  }

  /* Runs as the proxy has them: who takes the right has asked for it, who ends has it. */

  /** The clients whose request was accepted and is being approved. */
  ghost function Asking(s: Shared, asking: set<nat>, event: Event): set<nat>
    requires Enabled(s, event)
  {
    match event.message
    case EscapeRequest(_) => if Handle(s, event).failed then asking else asking + {event.client}
    case EscapeGrant(_) => asking - {event.client}
    case _ => asking
  }

  ghost predicate InTurn(s: Shared, asking: set<nat>, running: set<nat>, events: seq<Event>)
    requires Admitted(s, events)
    decreases |events|
  {
    events != [] ==>
      var event := events[0];
      && (event.message.EscapeGrant? ==> event.client in asking)
      && (event.message.EscapeEnd? ==> event.client in running)
      && InTurn(Handle(s, event).next, Asking(s, asking, event), InFlight(running, event), events[1..])
  }

  /* The run in which it is not. */

  const IDLE := Shared(Work(Database(map[]), []), None, None, 0)

  function Asks(client: nat): Event {
    Event(client, EscapeRequest(""))
  }

  function Takes(client: nat): Event {
    Event(client, EscapeGrant(""))
  }

  function Ends(client: nat): Event {
    Event(client, EscapeEnd("", []))
  }

  /** Two clients ask before either takes the right; when the second has ended, the
      statement of the first is still in flight, and a third client writes beside it. */
  lemma TwoInFlight()
    ensures
      var events := [Asks(1), Asks(2), Takes(1), Takes(2), Ends(2)];
      && Admitted(IDLE, events) && InTurn(IDLE, {}, {}, events) && Flights({}, events) == {1}
      && var end := Play(IDLE, events);
         var turn := Step(end, 3, Statement(Regular(Inserting()), ""), end.work);
         end.escape == 0 && !end.Leased(3) && !turn.failed && turn.next.work.data != end.work.data
  {
    var events := [Asks(1), Asks(2), Takes(1), Takes(2), Ends(2)];
    var one, two := IDLE.(escape := 1), IDLE.(escape := 2);
    ThirdWrites();
    EventsGo();
    hide Handle, Step;
    assert InFlight({}, Takes(1)) == {1} && InFlight({1}, Takes(2)) == {1, 2} && InFlight({1, 2}, Ends(2)) == {1};
    LastEvent(two, Ends(2), {}, {1, 2});
    NextEvent(one, Takes(2), [Ends(2)], {2}, {1});
    NextEvent(IDLE, Takes(1), [Takes(2), Ends(2)], {1, 2}, {});
    NextEvent(IDLE, Asks(2), [Takes(1), Takes(2), Ends(2)], {1}, {});
    NextEvent(IDLE, Asks(1), [Asks(2), Takes(1), Takes(2), Ends(2)], {}, {});
    assert [Asks(1)] + [Asks(2), Takes(1), Takes(2), Ends(2)] == events;
  }

  lemma EventsGo()
    ensures
      var one, two := IDLE.(escape := 1), IDLE.(escape := 2);
      && Handle(IDLE, Asks(1)).next == IDLE && Handle(IDLE, Asks(2)).next == IDLE
      && Handle(IDLE, Takes(1)).next == one && Handle(one, Takes(2)).next == two
      && Handle(two, Ends(2)).next == IDLE
      && Asking(IDLE, {}, Asks(1)) == {1} && Asking(IDLE, {1}, Asks(2)) == {1, 2}
      && Asking(IDLE, {1, 2}, Takes(1)) == {2} && Asking(one, {2}, Takes(2)) == {}
  {
    hide Simple, Execute;
  }

  lemma ThirdWrites()
    ensures
      var turn := Step(IDLE, 3, Statement(Regular(Inserting()), ""), IDLE.work);
      !turn.failed && turn.next.work.data != IDLE.work.data
  {
    InsertChanges(IDLE.work.data);
  }

  /** A block that another client opens during the approval is not looked at either. */
  lemma BlockBesideFlight()
    ensures
      var begin := Event(2, SimpleQuery([Statement(Begin(false), "")]));
      var events := [Asks(1), begin, Takes(1)];
      && Admitted(IDLE, events) && InTurn(IDLE, {}, {}, events) && Flights({}, events) == {1}
      && var end := Play(IDLE, events);
         end.escape == 1 && end.Owned(2)
  {
    var begin := Event(2, SimpleQuery([Statement(Begin(false), "")]));
    var blocked := IDLE.Open(2);
    BeginOpens(IDLE, 2);
    assert Handle(IDLE, Asks(1)).next == IDLE && Handle(blocked, Takes(1)).next == blocked.(escape := 1);
    hide Handle;
    LastEvent(blocked, Takes(1), {1}, {});
    NextEvent(IDLE, begin, [Takes(1)], {1}, {});
    EventsGo();
    NextEvent(IDLE, Asks(1), [begin, Takes(1)], {}, {});
    assert [Asks(1)] + [begin, Takes(1)] == [Asks(1), begin, Takes(1)];
  }

  lemma BeginOpens(s: Shared, client: nat)
    requires s.cycle.None? && s.block.None? && s.escape == 0 && client > 0
    ensures
      var begin := Event(client, SimpleQuery([Statement(Begin(false), "")]));
      Handle(s, begin).next == s.Open(client)
  {
    var statements := [Statement(Begin(false), "")];
    assert statements[1..] == [];
    var first := Step(s, client, statements[0], s.work);
    assert Steps(first.next, client, []) == Turn(first.next, [], false);
  }

  lemma LastEvent(s: Shared, event: Event, asking: set<nat>, running: set<nat>)
    requires Enabled(s, event)
    ensures Admitted(s, [event]) && Play(s, [event]) == Handle(s, event).next
    ensures Flights(running, [event]) == InFlight(running, event)
    ensures
      InTurn(s, asking, running, [event]) <==>
      (event.message.EscapeGrant? ==> event.client in asking) && (event.message.EscapeEnd? ==> event.client in running)
  {
    hide Handle;
    assert [event][1..] == [];
    assert Admitted(Handle(s, event).next, []);
  }

  lemma NextEvent(s: Shared, event: Event, events: seq<Event>, asking: set<nat>, running: set<nat>)
    requires Enabled(s, event) && Admitted(Handle(s, event).next, events)
    ensures
      var longer := [event] + events;
      && Admitted(s, longer) && Play(s, longer) == Play(Handle(s, event).next, events)
      && Flights(running, longer) == Flights(InFlight(running, event), events)
      && (InTurn(s, asking, running, longer) <==>
            && (event.message.EscapeGrant? ==> event.client in asking)
            && (event.message.EscapeEnd? ==> event.client in running)
            && InTurn(Handle(s, event).next, Asking(s, asking, event), InFlight(running, event), events))
  {
    hide Handle;
    assert ([event] + events)[1..] == events;
  }
}
