/**
 The external effects of a session: staged calls are sent on commit, compensations
 on discard. Before either is handed to the transport, the intention is written to
 durable storage, so a crash at any moment leaves a record of what may have happened.
 */
module Effects {
  import opened Wrappers

  datatype CallState = Pending | Sending | NotSent | Unknown | Sent | Discarded

  datatype UndoState = NotNeeded | Unavailable | Available | Undoing | UndoFailed | UndoSucceeded

  datatype Call = Call(state: CallState, undo: Option<UndoState>)

  /** The record of a session: its staged calls and the undo of each request it sent. */
  datatype Summary = Summary(staged: seq<Call>, requests: seq<Option<UndoState>>, sealed: bool, finalized: bool)

  datatype Target = OfRequest(index: nat) | OfStaged(index: nat)

  /** A compensation that could not be rendered is not runnable, and of one that was a
      request cannot always be built. */
  datatype UndoCall = UndoCall(target: Target, runnable: bool, buildable: bool) {
    predicate Sendable() {
      runnable && buildable
    }
  }

  /** What was handed to the transport. */
  datatype Handed = Replay(index: nat) | Compensation(target: Target)

  function UndoAt(summary: Summary, target: Target): Option<UndoState> {
    match target
    case OfRequest(index) => if index < |summary.requests| then summary.requests[index] else None
    case OfStaged(index) => if index < |summary.staged| then summary.staged[index].undo else None
  }

  /** Changes an undo record if there is one. */
  function WithUndo(summary: Summary, target: Target, state: UndoState): Summary {
    if UndoAt(summary, target).None? then summary
    else
      match target
      case OfRequest(index) => summary.(requests := summary.requests[index := Some(state)])
      case OfStaged(index) =>
        summary.(staged := summary.staged[index := summary.staged[index].(undo := Some(state))])
  }

  function WithState(summary: Summary, index: nat, state: CallState): Summary
    requires index < |summary.staged|
  {
    summary.(staged := summary.staged[index := summary.staged[index].(state := state)])
  }

  predicate Announced(summary: Summary, handed: Handed) {
    match handed
    case Replay(index) =>
      index < |summary.staged| &&
      var state := summary.staged[index].state; state.Sending? || state.Sent? || state.Unknown?
    case Compensation(target) =>
      var undo := UndoAt(summary, target);
      undo.Some? && (undo.value.Undoing? || undo.value.UndoFailed? || undo.value.UndoSucceeded?)
  }

  /** Whatever was handed to the transport is on record as being sent, or its outcome is. */
  ghost predicate WriteAhead(summary: Summary, handed: seq<Handed>) {
    forall i :: 0 <= i < |handed| ==> Announced(summary, handed[i])
  }

  function Position(handed: Handed): nat {
    match handed
    case Replay(index) => index
    case Compensation(target) => target.index
  }

  /** Nothing twice, and everything in the order in which it was staged or first sent. */
  ghost predicate InOrder(handed: seq<Handed>) {
    forall i, j :: 0 <= i < j < |handed| ==> Position(handed[i]) < Position(handed[j])
  }

  ghost predicate AllBefore(handed: seq<Handed>, position: int) {
    forall i :: 0 <= i < |handed| ==> Position(handed[i]) < position
  }

  /** One decision: either staged calls were sent or compensations, never both. */
  ghost predicate OneKind(handed: seq<Handed>, commit: bool) {
    forall i :: 0 <= i < |handed| ==> handed[i].Replay? == commit
  }

  /** What a crash at this moment would leave behind. */
  datatype Moment = Moment(durable: Summary, handed: seq<Handed>)

  ghost predicate Recoverable(moments: seq<Moment>, commit: bool) {
    forall i :: 0 <= i < |moments| ==>
      WriteAhead(moments[i].durable, moments[i].handed) && InOrder(moments[i].handed) && OneKind(moments[i].handed, commit)
  }

  /** What came back; `refusal` is whether the body says that nothing was done. */
  datatype Transported = TransportFailed | Status(code: int, bodyRead: bool, refusal: bool)

  /** The answer to everything that was handed over. */
  type Answers = map<Handed, Transported>

  /** The origin took the call. */
  ghost predicate Accepted(answers: Answers, what: Handed) {
    what in answers && answers[what].Status? && answers[what].code / 100 == 2
  }

  /** The origin said in full that it took the compensation, and did not take that back. */
  ghost predicate MadeGood(answers: Answers, what: Handed) {
    Accepted(answers, what) && answers[what].bodyRead && !answers[what].refusal
  }

  /** The state of a staged call says what became of it. */
  ghost predicate Told(state: CallState, answers: Answers, index: nat) {
    && (state.Sent? <==> Accepted(answers, Replay(index)))
    && (state.Unknown? <==> Replay(index) in answers && !Accepted(answers, Replay(index)))
    && (state.NotSent? <==> Replay(index) !in answers)
  }

  ghost predicate TargetsInOrder(undoCalls: seq<UndoCall>) {
    forall i, j :: 0 <= i < j < |undoCalls| ==> undoCalls[i].target.index < undoCalls[j].target.index
  }

  class StagingProxy {
    var summary: Summary
    var calls: seq<bool>
    var undoCalls: seq<UndoCall>
    var finalizeDone: bool
    var finalizeErrors: seq<string>
    var durable: Summary
    ghost var handed: seq<Handed>
    ghost var answers: Answers
    ghost var moments: seq<Moment>
    ghost var lapses: nat

    /** Before the decision: nothing staged was sent, compensations belong to requests. */
    ghost predicate Undecided()
      reads this
    {
      Compensable() && |calls| == |summary.staged|
    }

    ghost predicate Compensable()
      reads this
    {
      && handed == [] && answers == map[] && TargetsInOrder(undoCalls)
      && forall i :: 0 <= i < |undoCalls| ==>
           undoCalls[i].target.OfRequest? && UndoAt(summary, undoCalls[i].target).Some?
    }

    /** In the middle of applying a decision. */
    ghost predicate Applying(commit: bool)
      reads this
    {
      && WriteAhead(summary, handed) && WriteAhead(durable, handed)
      && InOrder(handed) && OneKind(handed, commit) && Recoverable(moments, commit)
      && forall what :: what in answers <==> what in handed
    }

    constructor ()
      ensures Undecided() && !finalizeDone && moments == []
    {
      summary := Summary([], [], false, false);
      calls, undoCalls, finalizeDone, finalizeErrors := [], [], false, [];
      durable := Summary([], [], false, false);
      handed, answers, moments, lapses := [], map[], [], 0;
    }

    /** A staged call is kept instead of sent; `buildable` is whether it can be replayed.
        A declared undo is not needed before the call was sent. */
    method Stage(buildable: bool, declared: bool)
      requires Undecided() && !summary.sealed
      modifies this`summary, this`calls
      ensures Undecided() && calls == old(calls) + [buildable]
      ensures
        var call := Call(Pending, if declared then Some(NotNeeded) else None);
        summary == old(summary).(staged := old(summary).staged + [call])
    {
      var call := Call(Pending, if declared then Some(NotNeeded) else None);
      summary := summary.(staged := summary.staged + [call]);
      calls := calls + [buildable];
    }

    /** A request that was sent at once; its undo is remembered if it declares one. */
    method RecordRequestWithUndo(declared: bool, rendered: bool, buildable: bool)
      requires Undecided() && !summary.sealed
      modifies this`summary, this`undoCalls
      ensures Undecided()
      ensures
        var undo := if !declared then None else if rendered then Some(Available) else Some(Unavailable);
        summary == old(summary).(requests := old(summary).requests + [undo])
      ensures
        undoCalls == old(undoCalls) +
          if declared then [UndoCall(OfRequest(|old(summary).requests|), rendered, buildable)] else []
    {
      var index := |summary.requests|;
      var undo := if !declared then None else if rendered then Some(Available) else Some(Unavailable);
      forall i | 0 <= i < |undoCalls|
        ensures undoCalls[i].target.index < index
      {
        assert UndoAt(summary, undoCalls[i].target).Some?;
      }
      summary := summary.(requests := summary.requests + [undo]);
      if declared {
        undoCalls := undoCalls + [UndoCall(OfRequest(index), rendered, buildable)];
      }
    }

    method Seal()
      requires Undecided()
      modifies this`summary
      ensures Undecided() && summary == old(summary).(sealed := true)
    {
      summary := summary.(sealed := true);
    }

    /** Writes the whole summary. A failed write may or may not have reached the disk. */
    method Persist(ghost commit: bool) returns (ok: bool)
      requires Applying(commit)
      modifies this`durable, this`moments, this`lapses
      ensures Applying(commit)
      ensures ok ==> durable == summary
      ensures lapses == old(lapses) + if ok then 0 else 1
    {
      ok := *;
      lapses := lapses + if ok then 0 else 1;
      var reached := *;
      if ok || reached {
        durable := summary;
      }
      moments := moments + [Moment(durable, handed)];
    }

    /** Hands one call to the transport. Nothing is known about what comes back, but it is
        remembered. */
    method RoundTrip(ghost what: Handed, ghost commit: bool) returns (answer: Transported)
      requires Applying(commit) && what.Replay? == commit
      requires Announced(summary, what) && Announced(durable, what)
      requires AllBefore(handed, Position(what))
      modifies this`handed, this`answers, this`moments
      ensures Applying(commit) && handed == old(handed) + [what]
      ensures what !in old(answers) && answers == old(answers)[what := answer]
    {
      handed := handed + [what];
      moments := moments + [Moment(durable, handed)];
      if * {
        answer := TransportFailed;
      } else {
        var code: int, bodyRead: bool, refusal: bool := *, *, *;
        answer := Status(code, bodyRead, refusal);
      }
      answers := answers[what := answer];
    }

    method SetState(index: nat, state: CallState, ghost commit: bool)
      requires Applying(commit) && index < |summary.staged|
      requires Replay(index) in handed ==> state.Sending? || state.Sent? || state.Unknown?
      modifies this`summary
      ensures Applying(commit) && summary == WithState(old(summary), index, state)
    {
      StateAnnounced(summary, handed, index, state);
      summary := WithState(summary, index, state);
    }

    method UpdateUndo(target: Target, state: UndoState, ghost commit: bool)
      requires Applying(commit)
      requires Compensation(target) in handed ==> state.Undoing? || state.UndoFailed? || state.UndoSucceeded?
      modifies this`summary
      ensures Applying(commit) && summary == WithUndo(old(summary), target, state)
    {
      UndoAnnounced(summary, handed, target, state);
      summary := WithUndo(summary, target, state);
    }

    /* Commit. */

    /** Sends one staged call. The state to record says whether the origin took it; any
        other answer leaves its fate unknown. */
    method SendCall(index: nat) returns (state: CallState)
      requires Applying(true) && index < |summary.staged| && |calls| == |summary.staged|
      requires summary.staged[index].state.Sending? && durable == summary && AllBefore(handed, index)
      modifies this`handed, this`answers, this`moments
      ensures Applying(true)
      ensures handed == old(handed) + (if calls[index] then [Replay(index)] else [])
      ensures SameAnswers(old(answers), answers, Replay(index)) && Told(state, answers, index)
    {
      assert Replay(index) !in handed;
      state := NotSent;
      if calls[index] {
        var answer := RoundTrip(Replay(index), true);
        state := if answer.Status? && 200 <= answer.code <= 299 then Sent else Unknown;
      }
    }

    /** Records what became of a call. `rendered` and `buildable` say what could be prepared
        from the answer of a declared undo, which waits only for a call the origin took. */
    method RecordOutcome(index: nat, state: CallState, rendered: bool, buildable: bool)
      requires Applying(true) && index < |summary.staged|
      requires Replay(index) in handed ==> state.Sent? || state.Unknown?
      modifies this`summary, this`undoCalls
      ensures Applying(true) && Sized(old(summary))
      ensures
        var declared := old(summary).staged[index].undo.Some? && state.Sent?;
        && summary.staged[index] == Call(state,
             if declared then Some(if rendered then Available else Unavailable) else old(summary).staged[index].undo)
        && undoCalls == old(undoCalls) + if declared then [UndoCall(OfStaged(index), rendered, buildable)] else []
      ensures forall other :: 0 <= other < |summary.staged| && other != index ==>
        summary.staged[other] == old(summary).staged[other]
    {
      NoCompensation(handed, OfStaged(index));
      hide WriteAhead, InOrder, Recoverable, OneKind;
      var declared := summary.staged[index].undo.Some?;
      SetState(index, state, true);
      if state.Sent? && declared {
        UpdateUndo(OfStaged(index), if rendered then Available else Unavailable, true);
        undoCalls := undoCalls + [UndoCall(OfStaged(index), rendered, buildable)];
      }
    }

    /** Nothing was answered but `what`, if that. */
    static ghost predicate SameAnswers(before: Answers, after: Answers, what: Handed) {
      before == after - {what} && what !in before
    }

    ghost predicate Sized(before: Summary)
      reads this
    {
      |summary.staged| == |before.staged| && summary.sealed == before.sealed && summary.requests == before.requests
    }

    /** Nothing is sent before the intention is on disk. */
    method Announce(index: nat) returns (ok: bool)
      requires Applying(true) && index < |summary.staged| && Replay(index) !in handed
      modifies this`summary, this`moments, this`durable, this`lapses
      ensures Applying(true) && summary == WithState(old(summary), index, if ok then Sending else NotSent)
      ensures ok ==> durable == summary
      ensures lapses == old(lapses) + if ok then 0 else 1
    {
      SetState(index, Sending, true);
      ok := Persist(true);
      if !ok {
        SetState(index, NotSent, true);
      }
    }

    /** Announces, sends and records one staged call. */
    method ReplayCall(index: nat, rendered: bool, buildable: bool) returns (errors: seq<string>)
      requires Applying(true) && index < |summary.staged| && |calls| == |summary.staged|
      requires AllBefore(handed, index)
      modifies this`summary, this`handed, this`answers, this`moments, this`undoCalls, this`durable, this`lapses
      ensures Applying(true) && Sized(old(summary)) && lapses >= old(lapses)
      ensures SameAnswers(old(answers), answers, Replay(index)) && Told(summary.staged[index].state, answers, index)
      ensures handed == old(handed) || handed == old(handed) + [Replay(index)]
      ensures calls[index] && lapses == old(lapses) ==> Replay(index) in answers
      ensures !calls[index] ==> Replay(index) !in answers
      ensures errors == [] <==> Accepted(answers, Replay(index)) && lapses == old(lapses)
      ensures forall other :: 0 <= other < |summary.staged| && other != index ==>
        summary.staged[other] == old(summary).staged[other]
    {
      errors := [];
      assert Replay(index) !in handed && Replay(index) !in answers;
      hide WriteAhead, InOrder, Recoverable, OneKind;
      var announced := Announce(index);
      if !announced {
        return ["record staged request before sending"];
      }
      var state := SendCall(index);
      RecordOutcome(index, state, rendered, buildable);
      var recorded := Persist(true);
      if !recorded {
        errors := errors + ["record staged request outcome"];
      }
      if !state.Sent? {
        errors := errors + ["send staged request"];
      }
    }

    method ReplayAll() returns (errors: seq<string>)
      requires Applying(true) && handed == [] && |calls| == |summary.staged|
      modifies this`summary, this`handed, this`answers, this`moments, this`undoCalls, this`durable, this`lapses
      ensures Applying(true) && Sized(old(summary)) && lapses >= old(lapses)
      ensures Replayed(|calls|, summary.staged, calls, handed, answers, errors == [], lapses == old(lapses))
    {
      errors := [];
      for index := 0 to |calls|
        invariant Applying(true) && Sized(old(summary)) && lapses >= old(lapses)
        invariant Replayed(index, summary.staged, calls, handed, answers, errors == [], lapses == old(lapses))
      {
        ghost var staged, sent, heard := summary.staged, handed, answers;
        ghost var fine, written, lapsesNow := errors == [], lapses == old(lapses), lapses;
        ReplayedBefore(index, staged, calls, sent, heard, fine, written);
        hide Replayed, Told, Accepted, AllBefore, WriteAhead, InOrder, Recoverable, OneKind, SameAnswers;
        var rendered, buildable := *, *;
        var more := ReplayCall(index, rendered, buildable);
        ReplayedNext(
          index, staged, calls, sent, heard, fine, written,
          summary.staged, handed, answers, more == [], lapses == lapsesNow);
        errors := errors + more;
      }
    }

    /* Discard. */

    method DiscardAll()
      requires Applying(false) && handed == []
      modifies this`summary
      ensures Applying(false) && Sized(old(summary))
      ensures forall i :: 0 <= i < |summary.staged| ==> summary.staged[i] == old(summary).staged[i].(state := Discarded)
    {
      for index := 0 to |summary.staged|
        invariant Applying(false) && Sized(old(summary))
        invariant forall i :: 0 <= i < |summary.staged| ==>
          summary.staged[i] == if i < index then old(summary).staged[i].(state := Discarded) else old(summary).staged[i]
      {
        SetState(index, Discarded, false);
      }
    }

    /** Sends one compensation, if a request can be built for it. Only an answer that was
        read to its end, and does not take its success back, counts. */
    method ExecuteUndo(call: UndoCall) returns (succeeded: bool)
      requires Applying(false) && AllBefore(handed, call.target.index)
      requires Announced(summary, Compensation(call.target)) && Announced(durable, Compensation(call.target))
      modifies this`handed, this`answers, this`moments
      ensures Applying(false)
      ensures handed == old(handed) + if call.buildable then [Compensation(call.target)] else []
      ensures SameAnswers(old(answers), answers, Compensation(call.target))
      ensures succeeded <==> MadeGood(answers, Compensation(call.target))
    {
      assert Compensation(call.target) !in handed;
      if !call.buildable {
        return false;
      }
      var answer := RoundTrip(Compensation(call.target), false);
      succeeded := answer.Status? && answer.bodyRead && 200 <= answer.code <= 299 && !answer.refusal;
    }

    /** Announces, attempts and records one compensation. What is attempted and does not
        succeed is on record as failed, whether or not it could be sent. */
    method RunUndo(call: UndoCall) returns (errors: seq<string>)
      requires Applying(false) && AllBefore(handed, call.target.index) && UndoAt(summary, call.target).Some?
      requires call.target.OfRequest?
      modifies this`summary, this`handed, this`answers, this`moments, this`durable, this`lapses
      ensures Applying(false) && lapses >= old(lapses)
      ensures summary.staged == old(summary).staged
      ensures forall target: Target :: target != call.target ==> UndoAt(summary, target) == UndoAt(old(summary), target)
      ensures handed == old(handed) || (call.Sendable() && handed == old(handed) + [Compensation(call.target)])
      ensures call.Sendable() && lapses == old(lapses) ==> Compensation(call.target) in handed
      ensures SameAnswers(old(answers), answers, Compensation(call.target))
      ensures errors == [] <==> MadeGood(answers, Compensation(call.target)) && lapses == old(lapses)
      ensures if !call.runnable then UndoAt(summary, call.target) == UndoAt(old(summary), call.target)
              else Ended(summary, answers, call.target)
      ensures UndoAt(summary, call.target).Some?
    {
      assert Compensation(call.target) !in handed;
      if !call.runnable {
        return ["compensation is unavailable"];
      }
      UpdateUndo(call.target, Undoing, false);
      var announced := Persist(false);
      if !announced {
        UpdateUndo(call.target, UndoFailed, false);
        return ["did not attempt compensation"];
      }
      var succeeded := ExecuteUndo(call);
      UpdateUndo(call.target, if succeeded then UndoSucceeded else UndoFailed, false);
      var recorded := Persist(false);
      errors := if succeeded && recorded then [] else ["compensation failed"];
    }

    method RunUndos() returns (errors: seq<string>)
      requires Applying(false) && Compensable()
      modifies this`summary, this`handed, this`answers, this`moments, this`durable, this`undoCalls, this`lapses
      ensures Applying(false) && lapses >= old(lapses) && undoCalls == [] && summary.staged == old(summary).staged
      ensures errors == [] <==>
        lapses == old(lapses) &&
        forall i :: 0 <= i < |old(undoCalls)| ==>
          MadeGood(answers, Compensation(old(undoCalls)[i].target))
      ensures lapses == old(lapses) ==>
        forall i :: 0 <= i < |old(undoCalls)| && old(undoCalls)[i].Sendable() ==>
          Compensation(old(undoCalls)[i].target) in handed
      ensures forall i :: 0 <= i < |handed| ==> Among(handed[i], old(undoCalls), |old(undoCalls)|)
      ensures forall i :: 0 <= i < |old(undoCalls)| && old(undoCalls)[i].runnable ==>
        Ended(summary, answers, old(undoCalls)[i].target)
    {
      hide Among, UndoAt, Ended, MadeGood, UndoCall.Sendable;
      var pending := undoCalls;
      undoCalls := [];
      errors := [];
      for index := 0 to |pending|
        invariant Applying(false) && summary.staged == old(summary).staged && undoCalls == [] && lapses >= old(lapses)
        invariant Compensated(pending, index, summary, handed, answers, errors == [], lapses == old(lapses))
      {
        ghost var earlier, sent, heard := summary, handed, answers;
        ghost var fine, written, lapsesNow := errors == [], lapses == old(lapses), lapses;
        hide Compensated;
        NextCompensable(pending, index, earlier, sent, heard, fine, written);
        var more := RunUndo(pending[index]);
        CompensatedNext(
          pending, index, earlier, sent, heard, fine, written,
          summary, handed, answers, more == [], lapses == lapsesNow);
        errors := errors + more;
      }
    }

    /* The decision. */

    /** Applies the one decision of the session. At every moment of it, what was handed
        to the transport is on record; nothing is handed over twice; a commit only
        sends staged calls and a discard only compensates. */
    method Finalize(commit: bool) returns (errors: seq<string>)
      requires !finalizeDone ==> Undecided() && moments == []
      modifies this
      ensures finalizeDone && errors == finalizeErrors
      ensures old(finalizeDone) ==>
        errors == old(finalizeErrors) && summary == old(summary) && handed == old(handed) && durable == old(durable)
        && answers == old(answers) && moments == old(moments)
      ensures !old(finalizeDone) && !old(summary.sealed) ==> errors != [] && handed == [] && summary == old(summary)
      ensures !old(finalizeDone) ==> Recoverable(moments, commit) && InOrder(handed) && OneKind(handed, commit)
      ensures !old(finalizeDone) && old(summary.sealed) ==>
        && |summary.staged| == |old(summary).staged| && summary.finalized && lapses >= old(lapses)
        && (errors == [] ==> durable == summary)
      ensures !old(finalizeDone) && old(summary.sealed) ==> forall what :: what in answers <==> what in handed
      ensures !old(finalizeDone) && old(summary.sealed) && commit ==>
        forall i :: 0 <= i < |summary.staged| ==>
          && Told(summary.staged[i].state, answers, i)
          && (Replay(i) !in answers ==> !old(calls)[i] || lapses > old(lapses))
          && (!old(calls)[i] ==> Replay(i) !in answers)
      ensures !old(finalizeDone) && old(summary.sealed) && commit ==>
        (errors == [] <==>
           lapses == old(lapses) && forall i :: 0 <= i < |summary.staged| ==> Accepted(answers, Replay(i)))
      ensures !old(finalizeDone) && old(summary.sealed) && !commit ==>
        && (forall i :: 0 <= i < |summary.staged| ==> summary.staged[i].state.Discarded?)
        && (forall i :: 0 <= i < |handed| ==> Among(handed[i], old(undoCalls), |old(undoCalls)|))
        && (lapses == old(lapses) ==>
              forall i :: 0 <= i < |old(undoCalls)| && old(undoCalls)[i].Sendable() ==>
                Compensation(old(undoCalls)[i].target) in handed)
        && (forall i :: 0 <= i < |old(undoCalls)| && old(undoCalls)[i].runnable ==>
              Ended(summary, answers, old(undoCalls)[i].target))
        && (errors == [] <==>
              lapses == old(lapses) &&
              forall i :: 0 <= i < |old(undoCalls)| ==>
                MadeGood(answers, Compensation(old(undoCalls)[i].target)))
    {
      if finalizeDone {
        return finalizeErrors;
      }
      finalizeDone := true;
      if !summary.sealed {
        finalizeErrors := ["proxy is not sealed"];
        return finalizeErrors;
      }
      if commit {
        errors := ReplayAll();
        calls := [];
        errors := Conclude(errors, commit);
      } else {
        errors := Discard();
      }
      finalizeErrors := errors;
    }

    /** The last write of a decision. */
    method Conclude(earlier: seq<string>, ghost commit: bool) returns (errors: seq<string>)
      requires Applying(commit)
      modifies this`summary, this`durable, this`moments, this`lapses
      ensures Applying(commit) && summary == old(summary).(finalized := true) && lapses >= old(lapses)
      ensures errors == [] <==> earlier == [] && lapses == old(lapses)
      ensures errors == [] ==> durable == summary
    {
      AnnouncedFinal(summary, handed);
      summary := summary.(finalized := true);
      var recorded := Persist(commit);
      errors := if recorded then earlier else earlier + ["record final states"];
    }

    method Discard() returns (errors: seq<string>)
      requires Applying(false) && Undecided()
      modifies this
      ensures Applying(false) && summary.finalized && |summary.staged| == |old(summary).staged| && lapses >= old(lapses)
      ensures finalizeDone == old(finalizeDone)
      ensures forall i :: 0 <= i < |summary.staged| ==> summary.staged[i].state.Discarded?
      ensures forall i :: 0 <= i < |handed| ==> Among(handed[i], old(undoCalls), |old(undoCalls)|)
      ensures lapses == old(lapses) ==>
        forall i :: 0 <= i < |old(undoCalls)| && old(undoCalls)[i].Sendable() ==>
          Compensation(old(undoCalls)[i].target) in handed
      ensures forall i :: 0 <= i < |old(undoCalls)| && old(undoCalls)[i].runnable ==>
        Ended(summary, answers, old(undoCalls)[i].target)
      ensures errors == [] ==> durable == summary
      ensures errors == [] <==>
        lapses == old(lapses) &&
        forall i :: 0 <= i < |old(undoCalls)| ==>
          MadeGood(answers, Compensation(old(undoCalls)[i].target))
    {
      errors := [];
      DiscardAll();
      calls := [];
      var recorded := Persist(false);
      if !recorded {
        errors := errors + ["record discarded staged requests"];
      }
      var more := RunUndos();
      errors := Conclude(errors + more, false);
    }
  }

  /** Every call before `count` has the outcome its answer gave it; `fine` is whether none
      gave an error, and `written` whether every write succeeded. */
  ghost predicate Replayed(
    count: nat, staged: seq<Call>, calls: seq<bool>, handed: seq<Handed>,
    answers: Answers, fine: bool, written: bool)
  {
    && count <= |staged| == |calls| && AllBefore(handed, count)
    && (forall i :: 0 <= i < count ==>
          && Told(staged[i].state, answers, i)
          && (calls[i] && written ==> Replay(i) in answers)
          && (!calls[i] ==> Replay(i) !in answers))
    && (fine <==> written && forall i :: 0 <= i < count ==> Accepted(answers, Replay(i)))
  }

  lemma ReplayedBefore(
    count: nat, staged: seq<Call>, calls: seq<bool>, handed: seq<Handed>,
    answers: Answers, fine: bool, written: bool)
    requires Replayed(count, staged, calls, handed, answers, fine, written)
    ensures AllBefore(handed, count)
  {
  }

  /** One more call, with the outcome that `ReplayCall` promises. */
  lemma ReplayedNext(
    index: nat, staged: seq<Call>, calls: seq<bool>, handed: seq<Handed>,
    answers: Answers, fine: bool, written: bool,
    next: seq<Call>, sent: seq<Handed>, heard: Answers, succeeded: bool, recorded: bool)
    requires index < |calls| && Replayed(index, staged, calls, handed, answers, fine, written)
    requires |next| == |staged| && forall other :: 0 <= other < |next| && other != index ==> next[other] == staged[other]
    requires StagingProxy.SameAnswers(answers, heard, Replay(index)) && Told(next[index].state, heard, index)
    requires sent == handed || sent == handed + [Replay(index)]
    requires calls[index] && recorded ==> Replay(index) in heard
    requires !calls[index] ==> Replay(index) !in heard
    requires succeeded <==> Accepted(heard, Replay(index)) && recorded
    ensures Replayed(index + 1, next, calls, sent, heard, fine && succeeded, written && recorded)
  {
    forall i | 0 <= i < index
      ensures Replay(i) in heard <==> Replay(i) in answers
      ensures Accepted(heard, Replay(i)) <==> Accepted(answers, Replay(i))
      ensures Told(next[i].state, heard, i)
    {
      assert Told(staged[i].state, answers, i);
    }
  }

  lemma NoCompensation(handed: seq<Handed>, target: Target)
    requires OneKind(handed, true)
    ensures Compensation(target) !in handed
  {
  }

  lemma AnnouncedFinal(summary: Summary, handed: seq<Handed>)
    requires WriteAhead(summary, handed)
    ensures WriteAhead(summary.(finalized := true), handed)
  {
  }

  /** A compensation of one of the first `count` calls. */
  ghost predicate Among(handed: Handed, undoCalls: seq<UndoCall>, count: nat)
    requires count <= |undoCalls|
  {
    exists k :: 0 <= k < count && undoCalls[k].Sendable() && handed == Compensation(undoCalls[k].target)
  }

  /** On record as succeeded if the answer to it was a success, else as failed. */
  ghost predicate Ended(summary: Summary, answers: Answers, target: Target) {
    UndoAt(summary, target) == Some(if MadeGood(answers, Compensation(target)) then UndoSucceeded else UndoFailed)
  }

  /** The first `count` compensations were attempted; `fine` is whether none gave an
      error, and `written` whether every write succeeded. */
  ghost predicate Compensated(
    pending: seq<UndoCall>, count: nat, summary: Summary, handed: seq<Handed>,
    answers: Answers, fine: bool, written: bool)
    requires count <= |pending|
  {
    && TargetsInOrder(pending)
    && (forall i :: 0 <= i < |pending| ==> pending[i].target.OfRequest? && UndoAt(summary, pending[i].target).Some?)
    && (forall i :: count <= i < |pending| ==> AllBefore(handed, pending[i].target.index))
    && (fine <==> written && forall i :: 0 <= i < count ==> MadeGood(answers, Compensation(pending[i].target)))
    && (written ==> forall i :: 0 <= i < count && pending[i].Sendable() ==> Compensation(pending[i].target) in handed)
    && (forall i :: 0 <= i < count && pending[i].runnable ==> Ended(summary, answers, pending[i].target))
    && forall i :: 0 <= i < |handed| ==> Among(handed[i], pending, count)
  }

  lemma NextCompensable(
    pending: seq<UndoCall>, count: nat, summary: Summary, handed: seq<Handed>,
    answers: Answers, fine: bool, written: bool)
    requires count < |pending| && Compensated(pending, count, summary, handed, answers, fine, written)
    ensures pending[count].target.OfRequest? && UndoAt(summary, pending[count].target).Some?
    ensures AllBefore(handed, pending[count].target.index)
  {
  }

  /** One more attempt, with the outcome that `RunUndo` promises. */
  lemma CompensatedNext(
    pending: seq<UndoCall>, count: nat, summary: Summary, handed: seq<Handed>,
    answers: Answers, fine: bool, written: bool,
    next: Summary, sent: seq<Handed>, heard: Answers, succeeded: bool, recorded: bool)
    requires count < |pending| && Compensated(pending, count, summary, handed, answers, fine, written)
    requires
      var call := pending[count];
      && (forall target: Target :: target != call.target ==> UndoAt(next, target) == UndoAt(summary, target))
      && (sent == handed || (call.Sendable() && sent == handed + [Compensation(call.target)]))
      && (call.Sendable() && recorded ==> Compensation(call.target) in sent)
      && StagingProxy.SameAnswers(answers, heard, Compensation(call.target))
      && (succeeded <==> MadeGood(heard, Compensation(call.target)) && recorded)
      && (call.runnable ==> Ended(next, heard, call.target))
      && UndoAt(next, call.target).Some?
    ensures Compensated(pending, count + 1, next, sent, heard, fine && succeeded, written && recorded)
  {
    hide UndoAt;
    forall i | 0 <= i < |sent|
      ensures Among(sent[i], pending, count + 1)
    {
      AmongMore(sent[i], pending, count);
    }
  }

  lemma AmongMore(handed: Handed, undoCalls: seq<UndoCall>, count: nat)
    requires count < |undoCalls|
    requires Among(handed, undoCalls, count) ||
             (undoCalls[count].Sendable() && handed == Compensation(undoCalls[count].target))
    ensures Among(handed, undoCalls, count + 1)
  {
  }

  lemma StateAnnounced(summary: Summary, handed: seq<Handed>, index: nat, state: CallState)
    requires WriteAhead(summary, handed) && index < |summary.staged|
    requires Replay(index) in handed ==> state.Sending? || state.Sent? || state.Unknown?
    ensures WriteAhead(WithState(summary, index, state), handed)
  {
  }

  lemma UndoAnnounced(summary: Summary, handed: seq<Handed>, target: Target, state: UndoState)
    requires WriteAhead(summary, handed)
    requires Compensation(target) in handed ==> state.Undoing? || state.UndoFailed? || state.UndoSucceeded?
    ensures WriteAhead(WithUndo(summary, target, state), handed)
  {
    forall i | 0 <= i < |handed|
      ensures Announced(WithUndo(summary, target, state), handed[i])
    {
      assert Announced(summary, handed[i]);
    }
  }
}
