/**
 The loop that supervises a child process and hands its approval requests to the
 user one at a time. Whatever order signals, answers and the child's exit come in,
 every request gets exactly one reply, and never the answer to another one.
 */
module Supervisor {
  import opened Wrappers

  datatype Decision = Decision(approved: bool, error: Option<string>)

  /** A request to decide; `decision` is what its user dialogue comes to, if it ends. */
  datatype Request = Request(decision: Decision)

  datatype Outcome = Decided(decision: Decision) | Interrupted | ChildExited

  /** A reply on the channel of the `request`-th request taken. */
  datatype Reply = Reply(request: nat, outcome: Outcome)

  datatype Event =
    | Exit(code: int, signaled: bool)
    | ChildChange(stopped: bool)
    | Signal(deliverable: bool)
    | SignalsClosed
    | Abort
    | Take(request: Request)
    | ApprovalsClosed
    | Completed(id: int)
    | ForceKill

  datatype Result = Result(code: int, interrupted: bool)

  /** The loop's variables, the dialogues still running, and what was taken and answered. */
  datatype Desk = Desk(
    signalsOpen: bool, abortOpen: bool, approvalsOpen: bool, killTimer: bool, interrupted: bool,
    approvalID: int, active: Option<nat>, running: map<int, nat>,
    taken: seq<Request>, replies: seq<Reply>, ended: Option<Result>)

  const START := Desk(true, true, true, false, false, 0, None, map[], [], [], None)

  /** A closed channel is never chosen, nor is an answer of a dialogue not running. */
  predicate Ready(d: Desk, event: Event) {
    d.ended.None? &&
    match event
    case Signal(_) => d.signalsOpen
    case SignalsClosed => d.signalsOpen
    case Abort => d.abortOpen
    case Take(_) => d.approvalsOpen
    case ApprovalsClosed => d.approvalsOpen
    case Completed(id) => id in d.running && d.running[id] < |d.taken|
    case ForceKill => d.killTimer
    case _ => true
  }

  /** Replies to the request that waits, if one does. */
  function Replied(d: Desk, outcome: Outcome): Desk {
    if d.active.None? then d
    else d.(active := None, replies := d.replies + [Reply(d.active.value, outcome)])
  }

  /** Interrupts the waiting approval; a later answer to it has an old number. */
  function AfterSignal(d: Desk, deliverable: bool): Desk {
    var forwarded :=
      if deliverable then d.(interrupted := true)
      else d.(interrupted := true, signalsOpen := false, abortOpen := false);
    if d.active.None? then forwarded
    else Replied(forwarded, Interrupted).(approvalsOpen := true, approvalID := d.approvalID + 1)
  }

  function AfterTake(d: Desk, request: Request): Desk {
    d.(active := Some(|d.taken|), taken := d.taken + [request], approvalsOpen := false,
       approvalID := d.approvalID + 1, running := d.running[d.approvalID + 1 := |d.taken|])
  }

  /** The answer of the current dialogue is passed on; an older one is dropped. */
  function AfterAnswer(d: Desk, id: int): Desk
    requires id in d.running && d.running[id] < |d.taken|
  {
    var left := d.(running := d.running - {id});
    if d.active.None? || id != d.approvalID then left
    else Replied(left, Decided(d.taken[d.running[id]].decision)).(approvalsOpen := true)
  }

  function Next(d: Desk, event: Event): Desk {
    if !Ready(d, event) then d
    else
      match event
      case Exit(code, signaled) =>
        Replied(d, ChildExited).(interrupted := d.interrupted || signaled,
                                 ended := Some(Result(code, d.interrupted || signaled)))
      case ChildChange(stopped) => d.(interrupted := d.interrupted || (d.active.None? && stopped))
      case Signal(deliverable) => AfterSignal(d, deliverable)
      case SignalsClosed => d.(signalsOpen := false)
      case Abort => d.(abortOpen := false, killTimer := true)
      case Take(request) => AfterTake(d, request)
      case ApprovalsClosed => d.(approvalsOpen := false)
      case Completed(id) => AfterAnswer(d, id)
      case ForceKill => d.(killTimer := false)
  }

  function After(events: seq<Event>): Desk {
    if events == [] then START else Next(After(events[..|events| - 1]), events[|events| - 1])
  }

  /* What holds after any events. */

  function RepliesTo(replies: seq<Reply>, request: nat): nat {
    if replies == [] then 0
    else
      RepliesTo(replies[..|replies| - 1], request) + if replies[|replies| - 1].request == request then 1 else 0
  }

  lemma OneMore(replies: seq<Reply>, reply: Reply, request: nat)
    ensures RepliesTo(replies + [reply], request)
         == RepliesTo(replies, request) + if reply.request == request then 1 else 0
  {
    assert (replies + [reply])[..|replies|] == replies;
  }

  /** A reply is the request's own decision, or says why there is none. */
  predicate Proper(taken: seq<Request>, reply: Reply) {
    reply.request < |taken| &&
    (reply.outcome.Decided? ==> reply.outcome.decision == taken[reply.request].decision)
  }

  /** Every request but the one that waits has had its one reply. */
  ghost predicate Answered(d: Desk) {
    && (d.active.Some? ==> d.active.value < |d.taken|)
    && (forall k :: 0 <= k < |d.taken| ==> RepliesTo(d.replies, k) == if d.active == Some(k) then 0 else 1)
    && (forall k :: |d.taken| <= k ==> RepliesTo(d.replies, k) == 0)
    && forall i :: 0 <= i < |d.replies| ==> Proper(d.taken, d.replies[i])
  }

  /** No request is taken while one waits, and only the dialogue with the current
      number, which is that request's own, may answer it. */
  ghost predicate Numbered(d: Desk) {
    && (d.active.Some? ==> !d.approvalsOpen)
    && (forall id :: id in d.running ==> id <= d.approvalID && d.running[id] < |d.taken|)
    && (d.approvalID in d.running ==> d.active == Some(d.running[d.approvalID]))
  }

  lemma RepliedAnswered(d: Desk, outcome: Outcome)
    requires Answered(d)
    requires d.active.Some? && outcome.Decided? ==> outcome.decision == d.taken[d.active.value].decision
    ensures Answered(Replied(d, outcome)) && Replied(d, outcome).active.None?
  {
    hide RepliesTo;
    if d.active.Some? {
      forall k: nat
        ensures RepliesTo(Replied(d, outcome).replies, k)
             == RepliesTo(d.replies, k) + if k == d.active.value then 1 else 0
      {
        OneMore(d.replies, Reply(d.active.value, outcome), k);
      }
    }
  }

  ghost predicate Orderly(d: Desk) {
    Answered(d) && (if d.ended.None? then Numbered(d) else d.active.None?)
  }

  lemma NextKeeps(d: Desk, event: Event)
    requires Orderly(d)
    ensures Orderly(Next(d, event))
  {
    hide AfterSignal, AfterTake, AfterAnswer, RepliesTo;
    if Ready(d, event) {
      match event
      case Exit(_, _) => RepliedAnswered(d, ChildExited);
      case Signal(deliverable) => SignalKeeps(d, deliverable);
      case Take(request) => TakeKeeps(d, request);
      case Completed(id) => AnswerKeeps(d, id);
      case _ =>
    }
  }

  lemma SignalKeeps(d: Desk, deliverable: bool)
    requires Orderly(d) && d.ended.None?
    ensures Orderly(AfterSignal(d, deliverable))
  {
    hide RepliesTo, Proper;
    var forwarded := d.(interrupted := true, signalsOpen := d.signalsOpen && deliverable,
                        abortOpen := d.abortOpen && deliverable);
    assert Answered(forwarded) by { SameAnswers(d, forwarded); }
    RepliedAnswered(forwarded, Interrupted);
    hide Answered;
    var next := AfterSignal(d, deliverable);
    assert d.active.Some? ==>
      next == Replied(forwarded, Interrupted).(approvalsOpen := true, approvalID := d.approvalID + 1);
    SameAnswers(Replied(forwarded, Interrupted), next);
  }

  lemma SameAnswers(d: Desk, e: Desk)
    requires Answered(d) && e.active == d.active && e.taken == d.taken && e.replies == d.replies
    ensures Answered(e)
  {
  }

  /** A request can only be taken while none waits, and no dialogue has its number. */
  lemma TakeKeeps(d: Desk, request: Request)
    requires Orderly(d) && d.ended.None? && d.approvalsOpen
    ensures d.active.None? && AfterTake(d, request).approvalID !in d.running
    ensures Orderly(AfterTake(d, request))
  {
    hide RepliesTo;
  }

  lemma AnswerKeeps(d: Desk, id: int)
    requires Orderly(d) && d.ended.None? && id in d.running
    ensures d.running[id] < |d.taken| && Orderly(AfterAnswer(d, id))
  {
    if d.active.Some? && id == d.approvalID {
      RepliedAnswered(d, Decided(d.taken[d.running[id]].decision));
    }
    hide RepliesTo;
  }

  /** For every order of events: at most one request waits, every other one taken has had
      exactly one reply, a decision only ever answers its own request, and once the
      child has exited nobody waits. */
  lemma {:induction false} OneReplyEach(events: seq<Event>)
    ensures
      var d := After(events);
      && Orderly(d)
      && (d.ended.Some? ==> forall k :: 0 <= k < |d.taken| ==> RepliesTo(d.replies, k) == 1)
  {
    hide Next, Numbered;
    if events == [] {
      StartNumbered();
    } else {
      OneReplyEach(events[..|events| - 1]);
      NextKeeps(After(events[..|events| - 1]), events[|events| - 1]);
    }
  }

  lemma StartNumbered()
    ensures Numbered(START)
  {
  }

  /* The loop. */

  class Run {
    var signalsOpen: bool
    var abortOpen: bool
    var approvalsOpen: bool
    var killTimer: bool
    var interrupted: bool
    var approvalID: int
    var active: Option<nat>
    var running: map<int, nat>
    var taken: seq<Request>
    var replies: seq<Reply>
    var ended: Option<Result>

    function View(): Desk
      reads this
    {
      Desk(signalsOpen, abortOpen, approvalsOpen, killTimer, interrupted, approvalID, active, running,
           taken, replies, ended)
    }

    constructor ()
      ensures View() == START
    {
      signalsOpen, abortOpen, approvalsOpen, killTimer, interrupted := true, true, true, false, false;
      approvalID, active, running := 0, None, map[];
      taken, replies, ended := [], [], None;
    }

    method Answer(outcome: Outcome)
      modifies this`replies, this`active
      ensures View() == Replied(old(View()), outcome)
    {
      if active.Some? {
        replies := replies + [Reply(active.value, outcome)];
        active := None;
      }
    }

    method OnExit(code: int, signaled: bool)
      requires Ready(View(), Exit(code, signaled))
      modifies this
      ensures View() == Next(old(View()), Exit(code, signaled))
    {
      Answer(ChildExited);
      interrupted := interrupted || signaled;
      ended := Some(Result(code, interrupted));
    }

    method OnSignal(deliverable: bool)
      requires Ready(View(), Signal(deliverable))
      modifies this
      ensures View() == Next(old(View()), Signal(deliverable))
    {
      interrupted := true;
      if !deliverable {
        signalsOpen, abortOpen := false, false;
      }
      if active.Some? {
        Answer(Interrupted);
        approvalsOpen := true;
        approvalID := approvalID + 1;
      }
    }

    method OnTake(request: Request)
      requires Ready(View(), Take(request))
      modifies this
      ensures View() == Next(old(View()), Take(request))
    {
      active := Some(|taken|);
      taken := taken + [request];
      approvalsOpen := false;
      approvalID := approvalID + 1;
      running := running[approvalID := |taken| - 1];
    }

    method OnCompleted(id: int)
      requires Ready(View(), Completed(id))
      modifies this
      ensures View() == Next(old(View()), Completed(id))
    {
      var decision := taken[running[id]].decision;
      running := running - {id};
      if active.Some? && id == approvalID {
        Answer(Decided(decision));
        approvalsOpen := true;
      }
    }

    method Handle(event: Event)
      modifies this
      ensures View() == Next(old(View()), event)
    {
      if !Ready(View(), event) {
        return;
      }
      match event {
        case Exit(code, signaled) => OnExit(code, signaled);
        case ChildChange(stopped) => interrupted := interrupted || (active.None? && stopped);
        case Signal(deliverable) => OnSignal(deliverable);
        case SignalsClosed => signalsOpen := false;
        case Abort => abortOpen, killTimer := false, true;
        case Take(request) => OnTake(request);
        case ApprovalsClosed => approvalsOpen := false;
        case Completed(id) => OnCompleted(id);
        case ForceKill => killTimer := false;
      }
    }

    /** Runs until the child exits: every request taken has then had exactly one reply,
        and a reply that carries a decision carries that request's own. */
    method Supervise(events: seq<Event>) returns (result: Option<Result>)
      requires View() == START
      modifies this
      ensures View() == After(events) && result == ended
      ensures result.Some? ==> active.None? && forall k :: 0 <= k < |taken| ==> RepliesTo(replies, k) == 1
      ensures forall i :: 0 <= i < |replies| ==> Proper(taken, replies[i])
    {
      hide Next;
      for index := 0 to |events|
        invariant View() == After(events[..index])
      {
        assert events[..index + 1][..index] == events[..index];
        Handle(events[index]);
      }
      assert events[..|events|] == events;
      OneReplyEach(events);
      result := ended;
    }
  }
}
