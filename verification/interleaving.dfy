/**
 Many clients, one transaction. A run is any sequence of messages, each handled
 while its sender may hold the session lock. `Play` is what such a run does to
 the shared view, and `Serve` shows that the proxy and all its clients follow it.
 */
module Interleaving {
  import opened Wrappers
  import opened Accounting
  import opened Postgres
  import opened SharedSession
  import opened Proxying

  /** Every message is sent when the lock is free or held by its sender's own cycle. */
  ghost predicate Admitted(s: Shared, events: seq<Event>)
    decreases |events|
  {
    events == [] || (Enabled(s, events[0]) && Admitted(Handle(s, events[0]).next, events[1..]))
  }

  ghost function Play(s: Shared, events: seq<Event>): Shared
    requires Admitted(s, events)
    decreases |events|
  {
    if events == [] then s else Play(Handle(s, events[0]).next, events[1..])
  }

  /** What one client is sent during a run. */
  ghost function Heard(s: Shared, events: seq<Event>, client: nat): seq<Reply>
    requires Admitted(s, events)
    decreases |events|
  {
    if events == [] then []
    else
      var turn := Handle(s, events[0]);
      (if events[0].client == client then turn.replies else []) + Heard(turn.next, events[1..], client)
  }

  /* Isolation. */

  /** `s` still holds the work and block of `start`, whatever an unfinished cycle of
      another client has read on top of it. */
  predicate Holds(s: Shared, start: Shared, owner: nat) {
    && s.block == start.block
    && if s.cycle.None? then s.work == start.work
       else
         && s.cycle.value.client != owner
         && s.cycle.value.mark == start.work
         && (s.cycle.value.Keeps() ==> s.work == start.work)
  }

  lemma {:induction false} StepsSpare(s: Shared, client: nat, statements: seq<Statement>)
    requires s.block.Some? && s.block.value.client != client
    ensures Steps(s, client, statements).next == s
    decreases |statements|
  {
    if statements != [] {
      ForeignKept(s, client, statements[0], s.work);
      StepsSpare(s, client, statements[1..]);
    }
  }

  lemma ExecuteSpares(s: Shared, statement: Statement, start: Shared, owner: nat)
    requires start.block.Some? && start.block.value.client == owner
    requires s.cycle.Some? && Holds(s, start, owner)
    ensures Holds(Execute(s, statement).next, start, owner)
  {
  }

  lemma HandleSpares(s: Shared, event: Event, start: Shared, owner: nat)
    requires start.block.Some? && start.block.value.client == owner
    requires Holds(s, start, owner) && Enabled(s, event) && event.client != owner
    ensures Holds(Handle(s, event).next, start, owner)
  {
    hide Step, Steps, Execute;
    match event.message
    case SimpleQuery(parsed) =>
      var statements := if parsed == [] then [EMPTY_STATEMENT] else parsed;
      StepsSpare(Synced(s), event.client, statements);
    case ExecuteMessage(statement) =>
      ExecuteSpares(InCycle(s, event.client), statement, start, owner);
    case _ =>
  }

  /** Isolation under the lease: while a block is open, nothing any other clients do,
      in any number of messages, changes the block or the work staged so far. */
  lemma {:induction false} LeaseIsolates(s: Shared, events: seq<Event>, start: Shared, owner: nat)
    requires start.block.Some? && start.block.value.client == owner
    requires Holds(s, start, owner) && Admitted(s, events)
    requires forall i :: 0 <= i < |events| ==> events[i].client != owner
    ensures Holds(Play(s, events), start, owner)
    decreases |events|
  {
    if events != [] {
      HandleSpares(s, events[0], start, owner);
      LeaseIsolates(Handle(s, events[0]).next, events[1..], start, owner);
    }
  }

  /* Who may own the block. */

  /** A client can only open or close a block of its own. */
  predicate Mine(before: Option<Block>, after: Option<Block>, client: nat) {
    && (before.Some? && before.value.client != client ==> after == before)
    && (after.Some? && after.value.client != client ==> after == before)
  }

  lemma StepMine(s: Shared, client: nat, statement: Statement, settled: Work)
    ensures Mine(s.block, Step(s, client, statement, settled).next.block, client)
  {
  }

  lemma {:induction false} StepsMine(s: Shared, client: nat, statements: seq<Statement>)
    ensures Mine(s.block, Steps(s, client, statements).next.block, client)
    decreases |statements|
  {
    if statements != [] {
      StepMine(s, client, statements[0], s.work);
      StepsMine(Step(s, client, statements[0], s.work).next, client, statements[1..]);
    }
  }

  lemma ExecuteMine(s: Shared, statement: Statement)
    requires s.cycle.Some?
    ensures
      var next := Execute(s, statement).next;
      && Mine(s.block, next.block, s.cycle.value.client)
      && next.cycle.Some? && next.cycle.value.client == s.cycle.value.client
  {
    hide Step;
    var cycle := s.cycle.value;
    var doomed := s.(cycle := Some(cycle.(doomed := true)));
    StepMine(s.(work := Kept(s)), cycle.client, statement, Kept(s));
    StepMine(doomed.(work := Kept(doomed)), cycle.client, statement, Kept(doomed));
    StepMine(s, cycle.client, statement, cycle.settled);
    StepMine(doomed, cycle.client, statement, cycle.settled);
  }

  /** No step opens, closes or changes a block of another client, nor leaves another
      client's cycle open. */
  lemma HandleMine(s: Shared, event: Event)
    requires Enabled(s, event)
    ensures
      var next := Handle(s, event).next;
      && Mine(s.block, next.block, event.client)
      && (next.cycle.Some? ==> next.cycle.value.client == event.client)
  {
    hide Step, Steps, Execute;
    match event.message
    case SimpleQuery(parsed) =>
      var statements := if parsed == [] then [EMPTY_STATEMENT] else parsed;
      StepsMine(Synced(s), event.client, statements);
      StepsKeepCycle(Synced(s), event.client, statements);
    case ExecuteMessage(statement) =>
      ExecuteMine(InCycle(s, event.client), statement);
    case _ =>
  }

  /* The whole system. */

  /** A client that is not being served mirrors the block it may own and has no cycle. */
  ghost predicate Waits(proxy: Proxy, client: ClientState)
    reads proxy, client
  {
    proxy.Serves(client) && !client.extended
  }

  ghost predicate Steady(proxy: Proxy, clients: seq<ClientState>)
    reads proxy, proxy.backend, set i | 0 <= i < |clients| :: clients[i]
  {
    && (proxy.shared.cycle.None? ==> proxy.Idle())
    && (forall i, j :: 0 <= i < j < |clients| ==> clients[i].id != clients[j].id)
    && forall i :: 0 <= i < |clients| ==>
         if proxy.shared.cycle.Some? && proxy.shared.cycle.value.client == clients[i].id then proxy.Cycling(clients[i])
         else Waits(proxy, clients[i])
  }

  /** A client that is not being served still mirrors the block after another's step. */
  lemma OthersWait(
    transaction: Transaction, id: nat, objectID: nat, client: nat,
    frames: seq<Frame>, block: Option<Block>, uncertain: seq<string>, intact: bool,
    next: seq<Frame>, nextBlock: Option<Block>, nextUncertain: seq<string>, still: bool)
    requires Matches(frames, block) && Follows(transaction, id, frames, block, uncertain, intact)
    requires Fresh(frames, id, objectID) && client != id
    requires Matches(next, nextBlock) && Mine(block, nextBlock, client)
    requires block.Some? && block.value.client != client ==>
      next == frames && nextUncertain == uncertain && (still ==> intact)
    ensures Follows(transaction, id, next, nextBlock, nextUncertain, still) && Fresh(next, id, objectID)
  {
  }

  /** One message of one client, handled under the session lock. Under another client's
      block it leaves the books as they were. */
  method Dispatch(proxy: Proxy, clients: seq<ClientState>, index: nat, message: Message)
    requires Steady(proxy, clients) && index < |clients|
    requires Enabled(proxy.shared, Event(clients[index].id, message))
    modifies proxy, proxy.backend, clients[index]
    ensures Steady(proxy, clients)
    ensures
      var turn := Handle(old(proxy.shared), Event(clients[index].id, message));
      proxy.shared == turn.next && clients[index].sent == old(clients[index].sent) + turn.replies
    ensures old(proxy.Foreign(clients[index].id)) && proxy.rowLedgerErr.None? ==>
      proxy.rowLedger == old(proxy.rowLedger) && proxy.uncertainEffects == old(proxy.uncertainEffects)
  {
    hide Handle, Follows, Fresh, Distinct, Balanced;
    ghost var shared, frames := proxy.shared, proxy.frames;
    ghost var uncertain, intact := proxy.uncertainEffects, proxy.rowLedgerErr.None?;
    HandleMine(shared, Event(clients[index].id, message));
    proxy.HandleMessage(clients[index], message);
    assert Matches(proxy.frames, proxy.shared.block);
    forall i | 0 <= i < |clients| && i != index
      ensures Waits(proxy, clients[i])
    {
      OthersWait(
        clients[i].transaction, clients[i].id, clients[i].objectID, clients[index].id,
        frames, shared.block, uncertain, intact,
        proxy.frames, proxy.shared.block, proxy.uncertainEffects, proxy.rowLedgerErr.None?);
    }
  }

  /** Any interleaving of messages: the shared view plays it, and every client is
      sent exactly what the replies to its own messages are. */
  method Serve(proxy: Proxy, clients: seq<ClientState>, events: seq<Event>)
    requires Steady(proxy, clients) && Admitted(proxy.shared, events)
    requires forall i :: 0 <= i < |clients| ==> clients[i].id == i + 1
    requires forall i :: 0 <= i < |events| ==> events[i].client <= |clients|
    modifies proxy, proxy.backend, set i | 0 <= i < |clients| :: clients[i]
    ensures Steady(proxy, clients)
    ensures proxy.shared == Play(old(proxy.shared), events)
    ensures forall i :: 0 <= i < |clients| ==>
      clients[i].sent == old(clients[i].sent) + Heard(old(proxy.shared), events, clients[i].id)
  {
    hide Handle, Steady;
    ghost var start := proxy.shared;
    var index := 0;
    while index < |events|
      invariant 0 <= index <= |events|
      invariant Steady(proxy, clients) && Admitted(proxy.shared, events[index..])
      invariant Play(start, events) == Play(proxy.shared, events[index..])
      invariant forall i :: 0 <= i < |clients| ==>
        clients[i].sent + Heard(proxy.shared, events[index..], clients[i].id)
        == old(clients[i].sent) + Heard(start, events, clients[i].id)
    {
      ghost var left := events[index..];
      assert left[0] == events[index] && left[1..] == events[index + 1..];
      var event := events[index];
      Dispatch(proxy, clients, event.client - 1, event.message);
      index := index + 1;
    }
  }
}
