/**
 What the supervising loop comes to, read off its events without its variables: each
 request taken waits for the first event that settles it, and that event says what it is
 told.
 */
module Dialogues {
  import opened Wrappers
  import opened Supervisor

  /* Events. */

  predicate NoExit(events: seq<Event>, count: nat)
    requires count <= |events|
  {
    forall i :: 0 <= i < count ==> !events[i].Exit?
  }

  /** Signals still come in: nothing closed them, and all so far could be passed on. */
  predicate SignalsOpen(events: seq<Event>, count: nat)
    requires count <= |events|
  {
    forall i :: 0 <= i < count ==> !events[i].SignalsClosed? && events[i] != Signal(false)
  }

  predicate Heeded(events: seq<Event>, index: nat)
    requires index < |events|
  {
    events[index].Signal? && SignalsOpen(events, index)
  }

  /** What ends the wait of a request whose dialogue has this number. */
  predicate Settles(events: seq<Event>, index: nat, number: int)
    requires index < |events|
  {
    events[index].Exit? || Heeded(events, index) || events[index] == Completed(number)
  }

  /** What ends the time in which nobody waits. */
  predicate Calls(event: Event) {
    event.Take? || event.ApprovalsClosed? || event.Exit?
  }

  function FirstCall(events: seq<Event>, from: nat): (index: nat)
    requires from <= |events|
    ensures from <= index <= |events|
    ensures forall i :: from <= i < index ==> !Calls(events[i])
    ensures index < |events| ==> Calls(events[index])
    decreases |events| - from
  {
    if from == |events| || Calls(events[from]) then from else FirstCall(events, from + 1)
  }

  function FirstSettling(events: seq<Event>, from: nat, number: int): (index: nat)
    requires from <= |events|
    ensures from <= index <= |events|
    ensures forall i :: from <= i < index ==> !Settles(events, i, number)
    ensures index < |events| ==> Settles(events, index, number)
    decreases |events| - from
  {
    if from == |events| || Settles(events, from, number) then from else FirstSettling(events, from + 1, number)
  }

  /** A request was taken at `start`, is asked about under `number`, and is settled at
      `end`; with `end` behind the last event it still waits. */
  datatype Talk = Talk(start: nat, number: int, end: nat)

  predicate Readable(events: seq<Event>, talk: Talk) {
    && talk.start < talk.end <= |events| && events[talk.start].Take?
    && (talk.end < |events| ==> Settles(events, talk.end, talk.number))
  }

  /** Only the last of several can still wait. */
  predicate AllReadable(events: seq<Event>, talks: seq<Talk>) {
    && (forall k :: 0 <= k < |talks| ==> Readable(events, talks[k]))
    && forall k :: 0 <= k < |talks| - 1 ==> talks[k].end < |events|
  }

  /** The number of the dialogue that follows one settled at `end`; a signal uses one up. */
  function NextNumber(events: seq<Event>, end: nat, number: int): int
    requires end < |events|
  {
    if events[end].Signal? then number + 2 else number + 1
  }

  /** The requests taken from a moment on at which nobody waits. */
  function Talks(events: seq<Event>, from: nat, number: int): (talks: seq<Talk>)
    requires from <= |events|
    ensures AllReadable(events, talks)
    decreases |events| - from
  {
    var start := FirstCall(events, from);
    if start == |events| || !events[start].Take? then []
    else
      var end := FirstSettling(events, start + 1, number);
      var talk := Talk(start, number, end);
      if end == |events| || events[end].Exit? then [talk]
      else [talk] + Talks(events, end + 1, NextNumber(events, end, number))
  }

  /** What the event that settles a request tells it. */
  function Told(events: seq<Event>, talk: Talk): Outcome
    requires Readable(events, talk) && talk.end < |events|
  {
    match events[talk.end]
    case Exit(_, _) => ChildExited
    case Signal(_) => Interrupted
    case Completed(_) => Decided(events[talk.start].request.decision)
  }

  /* The loop's variables meanwhile. */

  ghost predicate Idle(d: Desk, number: int, taken: seq<Request>, replies: seq<Reply>) {
    && d.ended.None? && d.active.None? && d.approvalsOpen && d.approvalID == number - 1
    && d.taken == taken && d.replies == replies
  }

  ghost predicate Waiting(d: Desk, number: int, taken: seq<Request>, replies: seq<Reply>) {
    && taken != [] && d.active == Some(|taken| - 1)
    && d.ended.None? && !d.approvalsOpen && d.approvalID == number
    && number in d.running && d.running[number] == |taken| - 1
    && d.taken == taken && d.replies == replies
  }

  /** Nothing will be taken any more. */
  ghost predicate Over(d: Desk, taken: seq<Request>, replies: seq<Reply>) {
    && d.active.None? && (d.ended.Some? || !d.approvalsOpen)
    && d.taken == taken && d.replies == replies
  }

  lemma AfterOne(events: seq<Event>, count: nat)
    requires count < |events|
    ensures After(events[..count + 1]) == Next(After(events[..count]), events[count])
  {
    assert events[..count + 1][..count] == events[..count];
  }

  lemma StartsOut(events: seq<Event>)
    ensures After(events[..0]) == START
  {
    assert events[..0] == [];
  }

  lemma ChannelsNext(d: Desk, event: Event)
    ensures
      var next := Next(d, event);
      && (next.ended.None? <==> d.ended.None? && !event.Exit?)
      && (next.ended.None? ==>
            (next.signalsOpen <==> d.signalsOpen && !event.SignalsClosed? && event != Signal(false)))
  {
    if Ready(d, event) {
      match event
      case Signal(deliverable) =>
      case Completed(id) =>
      case _ =>
    }
  }

  lemma IdleNext(d: Desk, event: Event, number: int, taken: seq<Request>, replies: seq<Reply>)
    requires Idle(d, number, taken, replies) && !Calls(event)
    ensures Idle(Next(d, event), number, taken, replies)
  {
  }

  lemma WaitingNext(d: Desk, event: Event, number: int, taken: seq<Request>, replies: seq<Reply>)
    requires Waiting(d, number, taken, replies)
    requires !event.Exit? && !(event.Signal? && d.signalsOpen) && event != Completed(number)
    ensures Waiting(Next(d, event), number, taken, replies)
  {
  }

  lemma OverNext(d: Desk, event: Event, taken: seq<Request>, replies: seq<Reply>)
    requires Over(d, taken, replies)
    ensures Over(Next(d, event), taken, replies)
  {
  }

  lemma {:induction false} Channels(events: seq<Event>, count: nat)
    requires count <= |events|
    ensures
      var d := After(events[..count]);
      && (d.ended.None? <==> NoExit(events, count))
      && (d.ended.None? ==> (d.signalsOpen <==> SignalsOpen(events, count)))
  {
    hide Next, After;
    if count == 0 {
      StartsOut(events);
    } else {
      AfterOne(events, count - 1);
      Channels(events, count - 1);
      ChannelsNext(After(events[..count - 1]), events[count - 1]);
      assert SignalsOpen(events, count) <==>
        SignalsOpen(events, count - 1) && !events[count - 1].SignalsClosed? && events[count - 1] != Signal(false);
      assert NoExit(events, count) <==> NoExit(events, count - 1) && !events[count - 1].Exit?;
    }
  }

  lemma WaitingGoing(d: Desk, number: int, taken: seq<Request>, replies: seq<Reply>)
    requires Waiting(d, number, taken, replies)
    ensures d.ended.None?
  {
  }

  lemma {:induction false} IdleUntil(
    events: seq<Event>, from: nat, until: nat, number: int, taken: seq<Request>, replies: seq<Reply>)
    requires from <= until <= |events| && forall i :: from <= i < until ==> !Calls(events[i])
    requires Idle(After(events[..from]), number, taken, replies)
    ensures Idle(After(events[..until]), number, taken, replies)
    decreases until
  {
    hide Next, After, Idle;
    if from < until {
      IdleUntil(events, from, until - 1, number, taken, replies);
      AfterOne(events, until - 1);
      IdleNext(After(events[..until - 1]), events[until - 1], number, taken, replies);
    }
  }

  lemma {:induction false} WaitingUntil(
    events: seq<Event>, from: nat, until: nat, number: int, taken: seq<Request>, replies: seq<Reply>)
    requires from <= until <= |events| && forall i :: from <= i < until ==> !Settles(events, i, number)
    requires Waiting(After(events[..from]), number, taken, replies)
    ensures Waiting(After(events[..until]), number, taken, replies)
    decreases until
  {
    hide Next, After, Waiting, SignalsOpen;
    if from < until {
      WaitingUntil(events, from, until - 1, number, taken, replies);
      AfterOne(events, until - 1);
      Channels(events, until - 1);
      assert !Settles(events, until - 1, number);
      WaitingGoing(After(events[..until - 1]), number, taken, replies);
      WaitingNext(After(events[..until - 1]), events[until - 1], number, taken, replies);
    }
  }

  lemma {:induction false} OverUntil(
    events: seq<Event>, from: nat, until: nat, taken: seq<Request>, replies: seq<Reply>)
    requires from <= until <= |events| && Over(After(events[..from]), taken, replies)
    ensures Over(After(events[..until]), taken, replies)
    decreases until
  {
    hide Next, After, Over;
    if from < until {
      OverUntil(events, from, until - 1, taken, replies);
      AfterOne(events, until - 1);
      OverNext(After(events[..until - 1]), events[until - 1], taken, replies);
    }
  }

  /** The event that settles a request tells it so, and nobody waits any more. */
  lemma Settled(events: seq<Event>, talk: Talk, taken: seq<Request>, replies: seq<Reply>)
    requires Readable(events, talk) && talk.end < |events|
    requires Waiting(After(events[..talk.end]), talk.number, taken, replies)
    requires taken[|taken| - 1] == events[talk.start].request
    ensures
      var more := replies + [Reply(|taken| - 1, Told(events, talk))];
      var d := After(events[..talk.end + 1]);
      if events[talk.end].Exit? then Over(d, taken, more)
      else Idle(d, NextNumber(events, talk.end, talk.number), taken, more)
  {
    AfterOne(events, talk.end);
    Channels(events, talk.end);
    hide After, SignalsOpen;
  }

  /** The requests taken and the replies given are those the events tell. */
  ghost predicate Tells(
    events: seq<Event>, talks: seq<Talk>, d: Desk, taken: seq<Request>, replies: seq<Reply>)
    requires AllReadable(events, talks)
  {
    var waits := talks != [] && talks[|talks| - 1].end == |events|;
    && |d.taken| == |taken| + |talks| && |d.replies| == |replies| + |talks| - (if waits then 1 else 0)
    && taken <= d.taken && replies <= d.replies
    && d.active == (if waits then Some(|d.taken| - 1) else None)
    && forall k :: 0 <= k < |talks| ==>
         && d.taken[|taken| + k] == events[talks[k].start].request
         && (talks[k].end < |events| ==>
               |replies| + k < |d.replies| && d.replies[|replies| + k] == Reply(|taken| + k, Told(events, talks[k])))
  }

  lemma TakenNext(d: Desk, event: Event, number: int, taken: seq<Request>, replies: seq<Reply>)
    requires Calls(event) && Idle(d, number, taken, replies)
    ensures event.Take? ==> Waiting(Next(d, event), number, taken + [event.request], replies)
    ensures event.Exit? || event.ApprovalsClosed? ==> Over(Next(d, event), taken, replies)
  {
  }

  lemma Taken(events: seq<Event>, start: nat, number: int, taken: seq<Request>, replies: seq<Reply>)
    requires start < |events| && Calls(events[start]) && Idle(After(events[..start]), number, taken, replies)
    ensures
      var d := After(events[..start + 1]);
      && (events[start].Take? ==> Waiting(d, number, taken + [events[start].request], replies))
      && (events[start].Exit? || events[start].ApprovalsClosed? ==> Over(d, taken, replies))
  {
    hide After, Next, Idle, Waiting, Over;
    AfterOne(events, start);
    TakenNext(After(events[..start]), events[start], number, taken, replies);
  }

  lemma TellsNone(events: seq<Event>, d: Desk, number: int, taken: seq<Request>, replies: seq<Reply>)
    requires Idle(d, number, taken, replies) || Over(d, taken, replies)
    ensures Tells(events, [], d, taken, replies)
  {
  }

  lemma {:induction false} TalksFrom(
    events: seq<Event>, from: nat, number: int, taken: seq<Request>, replies: seq<Reply>)
    requires from <= |events| && Idle(After(events[..from]), number, taken, replies)
    ensures Tells(events, Talks(events, from, number), After(events), taken, replies)
    decreases |events| - from
  {
    hide After, FirstSettling, Settles, Told, Idle;
    assert events[..|events|] == events;
    var start := FirstCall(events, from);
    IdleUntil(events, from, start, number, taken, replies);
    hide FirstCall, Calls, Over, Tells;
    if start == |events| {
      TellsNone(events, After(events), number, taken, replies);
    } else {
      Taken(events, start, number, taken, replies);
      if !events[start].Take? {
        OverUntil(events, start + 1, |events|, taken, replies);
        TellsNone(events, After(events), number, taken, replies);
      } else {
        TalkFrom(events, from, start, number, taken + [events[start].request], replies);
      }
    }
  }

  lemma TellsMore(
    events: seq<Event>, talk: Talk, talks: seq<Talk>, d: Desk, taken: seq<Request>, replies: seq<Reply>)
    requires AllReadable(events, talks)
    requires Readable(events, talk) && talk.end < |events|
    requires taken != [] && taken[|taken| - 1] == events[talk.start].request
    requires Tells(events, talks, d, taken, replies + [Reply(|taken| - 1, Told(events, talk))])
    ensures Tells(events, [talk] + talks, d, taken[..|taken| - 1], replies)
  {
    hide Settles, Told;
    var told := replies + [Reply(|taken| - 1, Told(events, talk))];
    assert told <= d.replies && taken <= d.taken;
    forall k | 0 <= k < |talks| + 1
      ensures
        var each := ([talk] + talks)[k];
        && d.taken[|taken| - 1 + k] == events[each.start].request
        && (each.end < |events| ==>
              |replies| + k < |d.replies| && d.replies[|replies| + k] == Reply(|taken| - 1 + k, Told(events, each)))
    {
      if k > 0 {
        assert talks[k - 1] == ([talk] + talks)[k];
      }
    }
  }

  lemma TellsOne(events: seq<Event>, talk: Talk, d: Desk, taken: seq<Request>, replies: seq<Reply>)
    requires Readable(events, talk)
    requires taken != [] && taken[|taken| - 1] == events[talk.start].request
    requires if talk.end == |events| then Waiting(d, talk.number, taken, replies)
             else Over(d, taken, replies + [Reply(|taken| - 1, Told(events, talk))])
    ensures Tells(events, [talk], d, taken[..|taken| - 1], replies)
  {
    hide Settles, Told;
  }

  /** One step of reading the talks. */
  lemma TalksStep(events: seq<Event>, from: nat, number: int)
    requires from <= |events| && Talks(events, from, number) != []
    ensures
      var start := FirstCall(events, from);
      start < |events| && events[start].Take? &&
      var end := FirstSettling(events, start + 1, number);
      var talk := Talk(start, number, end);
      Talks(events, from, number)
      == if end == |events| || events[end].Exit? then [talk]
         else [talk] + Talks(events, end + 1, NextNumber(events, end, number))
  {
    hide FirstCall, FirstSettling, Settles, Calls, NextNumber;
  }

  lemma TalkFrom(
    events: seq<Event>, from: nat, start: nat, number: int, taken: seq<Request>, replies: seq<Reply>)
    requires from <= start < |events| && start == FirstCall(events, from) && events[start].Take?
    requires taken != [] && taken[|taken| - 1] == events[start].request
    requires Waiting(After(events[..start + 1]), number, taken, replies)
    ensures Tells(events, Talks(events, from, number), After(events), taken[..|taken| - 1], replies)
    decreases |events| - from, 0
  {
    hide After, FirstCall, FirstSettling, Calls, Told, Idle, Over, Tells, Waiting, NextNumber;
    assert events[..|events|] == events;
    var end := FirstSettling(events, start + 1, number);
    WaitingUntil(events, start + 1, end, number, taken, replies);
    hide Settles;
    assert Talks(events, from, number) != [];
    TalksStep(events, from, number);
    hide Talks;
    var talk := Talk(start, number, end);
    if end == |events| {
      TellsOne(events, talk, After(events), taken, replies);
    } else {
      Settled(events, talk, taken, replies);
      var told := replies + [Reply(|taken| - 1, Told(events, talk))];
      if events[end].Exit? {
        OverUntil(events, end + 1, |events|, taken, told);
        TellsOne(events, talk, After(events), taken, replies);
      } else {
        var next := NextNumber(events, end, number);
        TalksFrom(events, end + 1, next, taken, told);
        TellsMore(events, talk, Talks(events, end + 1, next), After(events), taken, replies);
      }
    }
  }

  /* What every request is told. */

  /** Nothing settles the request between `start` and `index`, and `index` does. */
  ghost predicate FirstSettles(events: seq<Event>, talk: Talk, index: int) {
    && talk.start < index < |events| && Settles(events, index, talk.number)
    && forall i :: talk.start < i < index ==> !Settles(events, i, talk.number)
  }

  lemma FirstIs(events: seq<Event>, talk: Talk, index: int)
    requires talk.start < |events| && talk.end == FirstSettling(events, talk.start + 1, talk.number)
    ensures FirstSettles(events, talk, index) <==> talk.end == index < |events|
  {
    hide Settles, FirstSettling;
  }

  lemma {:induction false} TalksFirst(events: seq<Event>, from: nat, number: int, k: nat)
    requires from <= |events| && k < |Talks(events, from, number)|
    ensures
      var talk := Talks(events, from, number)[k];
      talk.start < |events| && talk.end == FirstSettling(events, talk.start + 1, talk.number)
    decreases |events| - from
  {
    hide Settles, Calls, FirstCall, FirstSettling, Talks, NextNumber, AllReadable, Heeded, SignalsOpen;
    TalksStep(events, from, number);
    if k > 0 {
      var start := FirstCall(events, from);
      var end := FirstSettling(events, start + 1, number);
      TalksFirst(events, end + 1, NextNumber(events, end, number), k - 1);
    }
  }

  lemma RepliesInTurn(events: seq<Event>, talks: seq<Talk>, d: Desk, k: nat, outcome: Outcome)
    requires AllReadable(events, talks)
    requires Tells(events, talks, d, [], []) && k < |talks|
    ensures Reply(k, outcome) in d.replies <==>
      talks[k].end < |events| && outcome == Told(events, talks[k])
  {
    hide Settles, Told;
    forall i | 0 <= i < |d.replies|
      ensures d.replies[i].request == i
    {
      assert d.replies[i] == Reply(i, Told(events, talks[i]));
    }
  }

  lemma TellsTaken(events: seq<Event>, talks: seq<Talk>, d: Desk, k: nat)
    requires AllReadable(events, talks) && Tells(events, talks, d, [], []) && k < |d.taken|
    ensures |talks| == |d.taken| && events[talks[k].start] == Take(d.taken[k])
    ensures d.active == Some(k) <==> talks[k].end == |events|
  {
    hide Settles, Told;
  }

  lemma StartIdle(events: seq<Event>)
    ensures Idle(After(events[..0]), 1, [], [])
  {
    assert events[..0] == [];
  }

  /** Whatever the order of events, requests are taken and answered in turn. The one reply
      to a request is its own decision if and only if its own dialogue was completed while
      it waited, before any signal and before the exit; that it was interrupted if and only
      if a signal came first; and that the child exited if and only if that came first. */
  lemma SettledExactly(events: seq<Event>, k: nat)
    requires k < |After(events).taken|
    ensures
      var d, talks := After(events), Talks(events, 0, 1);
      && |talks| == |d.taken| && events[talks[k].start] == Take(d.taken[k])
      && (d.active == Some(k) <==> forall i :: !FirstSettles(events, talks[k], i))
      && (forall decision :: Reply(k, Decided(decision)) in d.replies <==>
            decision == d.taken[k].decision &&
            exists i :: FirstSettles(events, talks[k], i) && events[i] == Completed(talks[k].number))
      && (Reply(k, Interrupted) in d.replies <==>
            exists i :: FirstSettles(events, talks[k], i) && Heeded(events, i))
      && (Reply(k, ChildExited) in d.replies <==>
            exists i :: FirstSettles(events, talks[k], i) && events[i].Exit?)
  {
    StartIdle(events);
    hide After, Talks, FirstSettling, Tells, Idle;
    var d, talks := After(events), Talks(events, 0, 1);
    TalksFrom(events, 0, 1, [], []);
    TellsTaken(events, talks, d, k);
    TalksFirst(events, 0, 1, k);
    var talk := talks[k];
    forall i
      ensures FirstSettles(events, talk, i) <==> talk.end == i < |events|
    {
      FirstIs(events, talk, i);
    }
    assert talk.end < |events| ==> FirstSettles(events, talk, talk.end);
    forall outcome
      ensures Reply(k, outcome) in d.replies <==> talk.end < |events| && outcome == Told(events, talk)
    {
      RepliesInTurn(events, talks, d, k, outcome);
    }
  }

  /* What the command reports. */

  predicate WaitsAt(events: seq<Event>, index: nat)
    requires index <= |events|
  {
    var talks := Talks(events[..index], 0, 1);
    talks != [] && talks[|talks| - 1].end == index
  }

  /** A signal, or a child stopped by somebody else: the loop itself stops it only while a
      request waits. */
  predicate Interrupts(events: seq<Event>, index: nat)
    requires index < |events|
  {
    Heeded(events, index) || (events[index] == ChildChange(true) && !WaitsAt(events, index))
  }

  lemma WaitsActive(events: seq<Event>, index: nat)
    requires index <= |events|
    ensures WaitsAt(events, index) <==> After(events[..index]).active.Some?
  {
    var until := events[..index];
    StartIdle(until);
    hide After, Talks, Idle;
    TalksFrom(until, 0, 1, [], []);
  }

  lemma InterruptedNext(d: Desk, event: Event)
    requires d.ended.None? && !event.Exit?
    ensures
      Next(d, event).interrupted <==>
      d.interrupted || (event.Signal? && d.signalsOpen) || (event == ChildChange(true) && d.active.None?)
  {
    if Ready(d, event) {
      match event
      case Signal(_) =>
      case Completed(_) =>
      case _ =>
    }
  }

  lemma {:induction false} InterruptedExactly(events: seq<Event>, count: nat)
    requires count <= |events| && NoExit(events, count)
    ensures After(events[..count]).interrupted <==> exists i :: 0 <= i < count && Interrupts(events, i)
  {
    hide Next, After, WaitsAt, SignalsOpen;
    if count == 0 {
      assert After(events[..0]) == START by { StartsOut(events); }
    } else {
      var last := count - 1;
      InterruptedExactly(events, last);
      AfterOne(events, last);
      Channels(events, last);
      WaitsActive(events, last);
      InterruptedNext(After(events[..last]), events[last]);
      assert Interrupts(events, last) <==>
        (events[last].Signal? && SignalsOpen(events, last)) ||
        (events[last] == ChildChange(true) && !WaitsAt(events, last));
    }
  }

  lemma EndedNext(d: Desk, event: Event)
    requires d.ended.Some?
    ensures Next(d, event) == d
  {
  }

  lemma {:induction false} EndedStays(events: seq<Event>, from: nat, until: nat)
    requires from <= until <= |events| && After(events[..from]).ended.Some?
    ensures After(events[..until]) == After(events[..from])
    decreases until
  {
    hide After, Next;
    if from < until {
      EndedStays(events, from, until - 1);
      AfterOne(events, until - 1);
      EndedNext(After(events[..until - 1]), events[until - 1]);
    }
  }

  /** The loop returns at the child's first exit, with its code, and as interrupted if and
      only if the child died of a signal, a signal was heeded before, or the child was
      stopped while nobody waited. */
  lemma ResultExactly(events: seq<Event>, exit: nat)
    requires exit < |events| && NoExit(events, exit) && events[exit].Exit?
    ensures
      After(events).ended == Some(Result(
        events[exit].code,
        events[exit].signaled || exists i :: 0 <= i < exit && Interrupts(events, i)))
  {
    hide Interrupts, After;
    InterruptedExactly(events, exit);
    Channels(events, exit);
    AfterOne(events, exit);
    EndedStays(events, exit + 1, |events|);
    assert events[..|events|] == events;
  }
}
