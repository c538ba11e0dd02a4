/** With which status a request ends, over every run of a slot: each status has a cause among the events, and the
    last callback that ran for a request has the last word. */
module OwnershipStatus {
  import opened Prelude
  import opened Ownership
  import opened OwnershipInvariant
  import opened OwnershipTheorems

  // The log has no entry with this status, and the running callback does not bring one.
  predicate Without(s: Slot, status: Status) {
    && (s.pc.Trying? ==> s.pc.status != status)
    && forall d :: d in s.done ==> d.status != status
  }

  lemma CompletionWithout(s: Slot, status: Status, with: Status)
    requires s.current.Some? && Without(s, status) && with != status && EndOf(s, with) != status
    ensures Without(CompleteCurrent(s, with), status)
  {
  }

  // ----- Cancelled -----

  predicate CancelCause(e: Event) { e.UserCancels? || e.CancelQueued? || e.Purge? }

  // Nothing in the slot can lead to a cancellation.
  predicate NoCancel(s: Slot) {
    && Without(s, Cancelled)
    && !s.cancel.CancelDue? && s.mark != MarkCancel
    && forall k :: 0 <= k < |s.lost| ==> !s.lost[k].cancel.CancelDue?
  }

  lemma TryKeepsNoCancel(s: Slot)
    requires NoCancel(s) && s.pc.Trying? && s.current.Some?
    ensures NoCancel(TryStep(s))
  {
    if s.pc.at == Finish && s.refs == NO_REFS { CompletionWithout(s, Cancelled, s.pc.status); }
  }

  lemma StartKeepsNoCancel(s: Slot, choice: bool)
    requires NoCancel(s) && s.pc.Starting? && s.current.Some?
    ensures NoCancel(StartStep(s, choice))
  {
    if s.pc.op == Give && s.kind.Read? && choice { CompletionWithout(s, Cancelled, Success); }
  }

  lemma StepKeepsNoCancel(s: Slot, e: Event)
    requires NoCancel(s) && Enabled(s, e) && !CancelCause(e)
    ensures NoCancel(Step(s, e))
  {
    if e.Advance? && s.current.Some? {
      match s.pc
      case Starting(_) => StartKeepsNoCancel(s, e.choice);
      case Trying(_, _, _, _) => TryKeepsNoCancel(s);
      case _ =>
    }
  }

  lemma {:induction false} RunKeepsNoCancel(s: Slot, es: seq<Event>)
    requires NoCancel(s) && CanRun(s, es) && forall e :: e in es ==> !CancelCause(e)
    ensures NoCancel(Run(s, es))
    decreases |es|
  {
    if es != [] {
      StepKeepsNoCancel(s, es[0]);
      RunKeepsNoCancel(Step(s, es[0]), es[1..]);
    }
  }

  // A request ends cancelled only if the user cancelled one, in the queue or not, or a purge did.
  lemma CancelledOnlyIf(k: Kind, es: seq<Event>, id: Id)
    requires CanRun(InitialSlot(k), es) && Done(id, Cancelled) in Run(InitialSlot(k), es).done
    ensures exists e :: e in es && (e.UserCancels? || e.CancelQueued? || e.Purge?)
  {
    if forall e :: e in es ==> !CancelCause(e) { RunKeepsNoCancel(InitialSlot(k), es); }
  }

  // ----- Timed out -----

  predicate TimeCause(e: Event) { e.TotalExpires? || e.IntervalExpires? }

  // Nothing in the slot can lead to a timeout.
  predicate NoTimeout(s: Slot) {
    && Without(s, TimedOut)
    && !s.total.Due? && !s.interval.Due? && s.aside.strays == [] && s.mark != MarkTotal && !s.pc.Judging?
  }

  lemma CompletionKeepsNoTimeout(s: Slot, status: Status)
    requires NoTimeout(s) && s.current.Some? && status != TimedOut
    ensures NoTimeout(CompleteCurrent(s, status))
  {
    CompletionWithout(s, TimedOut, status);
  }

  // The rundown starts no timer.
  lemma TryStopsTimers(s: Slot)
    requires s.pc.Trying? && s.current.Some? && s.pc.at != Finish
    ensures var t := TryStep(s);
      && (t.total == s.total || t.total == Idle) && (t.interval == s.interval || t.interval == Idle)
      && t.aside == s.aside && t.mark == s.mark && t.done == s.done && t.pc == s.pc.(at := t.pc.at)
  {
    match s.pc.at
    case DropCancel =>
    case StopInterval =>
    case StopTotal =>
    case _ =>
  }

  lemma TryKeepsNoTimeout(s: Slot)
    requires NoTimeout(s) && s.pc.Trying? && s.current.Some?
    ensures NoTimeout(TryStep(s))
  {
    if s.pc.at != Finish {
      TryStopsTimers(s);
    } else if s.refs == NO_REFS {
      CompletionKeepsNoTimeout(s, s.pc.status);
    }
  }

  lemma GiveKeepsNoTimeout(s: Slot, choice: bool)
    requires NoTimeout(s) && s.pc == Starting(Give) && s.current.Some?
    ensures NoTimeout(StartStep(s, choice))
  {
    if s.kind.Read? && choice { CompletionKeepsNoTimeout(s, Success); }
  }

  lemma StartKeepsNoTimeout(s: Slot, choice: bool)
    requires NoTimeout(s) && s.pc.Starting? && s.current.Some?
    ensures NoTimeout(StartStep(s, choice))
  {
    match s.pc.op
    case Give => GiveKeepsNoTimeout(s, choice);
    case _ => assert StartStep(s, choice).done == s.done;
  }

  lemma StepKeepsNoTimeout(s: Slot, e: Event)
    requires NoTimeout(s) && Enabled(s, e) && !TimeCause(e)
    ensures NoTimeout(Step(s, e))
  {
    match e
    case Advance(choice) =>
      if s.current.Some? {
        match s.pc {
          case Starting(_) => StartKeepsNoTimeout(s, choice);
          case Trying(_, _, _, _) => TryKeepsNoTimeout(s);
          case _ =>
        }
      }
    case Purge => PurgeSweeps(s);
    case _ =>
  }

  lemma {:induction false} RunKeepsNoTimeout(s: Slot, es: seq<Event>)
    requires NoTimeout(s) && CanRun(s, es) && forall e :: e in es ==> !TimeCause(e)
    ensures NoTimeout(Run(s, es))
    decreases |es|
  {
    if es != [] {
      StepKeepsNoTimeout(s, es[0]);
      RunKeepsNoTimeout(Step(s, es[0]), es[1..]);
    }
  }

  // A request ends timed out only if a timer has expired.
  lemma TimedOutOnlyIf(k: Kind, es: seq<Event>, id: Id)
    requires CanRun(InitialSlot(k), es) && Done(id, TimedOut) in Run(InitialSlot(k), es).done
    ensures exists e :: e in es && (e.TotalExpires? || e.IntervalExpires?)
  {
    if forall e :: e in es ==> !TimeCause(e) { RunKeepsNoTimeout(InitialSlot(k), es); }
  }

  // ----- Success -----

  // The ISR finishes a request, or a read or wait is satisfied when it starts.
  predicate SuccessCause(s: Slot, e: Event) {
    e.IsrFinishes? || (e == Advance(true) && s.pc == Starting(Give) && (s.kind.Read? || s.kind.Wait?))
  }

  predicate SuccessCauseIn(s: Slot, es: seq<Event>)
    requires CanRun(s, es)
    decreases |es|
  {
    es != [] && (SuccessCause(s, es[0]) || SuccessCauseIn(Step(s, es[0]), es[1..]))
  }

  predicate NoSuccess(s: Slot) {
    && Without(s, Success) && Without(s, Status.HandedOver)
    && s.dpc.None? && s.mark != MarkComplete
  }

  lemma TryKeepsNoSuccess(s: Slot)
    requires NoSuccess(s) && s.pc.Trying? && s.current.Some?
    ensures NoSuccess(TryStep(s))
  {
    if s.pc.at == Finish && s.refs == NO_REFS {
      CompletionWithout(s, Success, s.pc.status);
      CompletionWithout(s, Status.HandedOver, s.pc.status);
    }
  }

  lemma StartKeepsNoSuccess(s: Slot, choice: bool)
    requires NoSuccess(s) && s.pc.Starting? && s.current.Some? && !SuccessCause(s, Advance(choice))
    ensures NoSuccess(StartStep(s, choice))
  {
  }

  lemma StepKeepsNoSuccess(s: Slot, e: Event)
    requires NoSuccess(s) && Enabled(s, e) && !SuccessCause(s, e)
    ensures NoSuccess(Step(s, e))
  {
    match e
    case Advance(choice) =>
      if s.current.Some? {
        match s.pc {
          case Starting(_) => StartKeepsNoSuccess(s, choice);
          case Trying(_, _, _, _) => TryKeepsNoSuccess(s);
          case _ =>
        }
      }
    case Purge => PurgeSweeps(s);
    case _ =>
  }

  lemma {:induction false} RunKeepsNoSuccess(s: Slot, es: seq<Event>)
    requires NoSuccess(s) && CanRun(s, es) && !SuccessCauseIn(s, es)
    ensures NoSuccess(Run(s, es))
    decreases |es|
  {
    if es != [] {
      StepKeepsNoSuccess(s, es[0]);
      RunKeepsNoSuccess(Step(s, es[0]), es[1..]);
    }
  }

  // A request ends with success, or is handed over, only if the ISR has finished one, or a read or a wait was
  // satisfied when it was about to be given to the ISR.
  lemma SuccessOnlyIf(k: Kind, es: seq<Event>, id: Id)
    requires CanRun(InitialSlot(k), es)
    requires var done := Run(InitialSlot(k), es).done; Done(id, Success) in done || Done(id, Status.HandedOver) in done
    ensures SuccessCauseIn(InitialSlot(k), es)
  {
    if !SuccessCauseIn(InitialSlot(k), es) { RunKeepsNoSuccess(InitialSlot(k), es); }
  }

  lemma {:induction false} OthersNeverDisplaced(s: Slot, es: seq<Event>)
    requires CanRun(s, es) && s.kind != XoffCounter
    ensures forall e :: e in es ==> !e.Displace?
    decreases |es|
  {
    if es != [] {
      KindStays(s, es[0]);
      OthersNeverDisplaced(Step(s, es[0]), es[1..]);
      forall e | e in es ensures !e.Displace? {
        var i :| 0 <= i < |es| && es[i] == e;
        if i > 0 { assert es[1..][i - 1] == e; }
      }
    }
  }

  // A read that the ISR never finishes, and that nothing cancels or satisfies, times out: when the line falls
  // silent, the read returns what it has.
  lemma SilenceTimesOut(es: seq<Event>, id: Id, status: Status)
    requires CanRun(InitialSlot(Read), es) && Done(id, status) in Run(InitialSlot(Read), es).done
    requires forall e :: e in es ==> !e.UserCancels? && !e.CancelQueued? && !e.Purge?
    requires !SuccessCauseIn(InitialSlot(Read), es)
    ensures status == TimedOut
  {
    if status == Cancelled { CancelledOnlyIf(Read, es, id); }
    if status == Success || status == Status.HandedOver { SuccessOnlyIf(Read, es, id); }
    OthersNeverDisplaced(InitialSlot(Read), es);
    if status == MoreWrites { MoreWritesOnlyIf(Read, es, id); }
  }

  // ----- Displaced -----

  lemma StepKeepsNoDisplacement(s: Slot, e: Event)
    requires Without(s, MoreWrites) && Enabled(s, e) && !e.Displace?
    ensures Without(Step(s, e), MoreWrites)
  {
    match e
    case Advance(choice) =>
      if s.current.Some? {
        if Completes(s, choice) {
          CompletingStep(s, choice);
          CompletionWithout(s, MoreWrites, CompletionStatus(s));
        } else {
          AdvanceKeepsRequests(s, choice);
        }
      }
    case Purge => PurgeSweeps(s);
    case _ =>
  }

  lemma {:induction false} RunKeepsNoDisplacement(s: Slot, es: seq<Event>)
    requires Without(s, MoreWrites) && CanRun(s, es) && forall e :: e in es ==> !e.Displace?
    ensures Without(Run(s, es), MoreWrites)
    decreases |es|
  {
    if es != [] {
      StepKeepsNoDisplacement(s, es[0]);
      RunKeepsNoDisplacement(Step(s, es[0]), es[1..]);
    }
  }

  // A request gives way to more writes only if a write has displaced an Xoff counter.
  lemma MoreWritesOnlyIf(k: Kind, es: seq<Event>, id: Id)
    requires CanRun(InitialSlot(k), es) && Done(id, MoreWrites) in Run(InitialSlot(k), es).done
    ensures exists e :: e in es && e.Displace?
  {
    if forall e :: e in es ==> !e.Displace? { RunKeepsNoDisplacement(InitialSlot(k), es); }
  }

  // ----- The last word -----

  // The event decides on another status: the callbacks do, and a purge that calls the cancel routine.
  predicate Against(e: Event, status: Status) {
    || (e.RunDpc? && status != Success)
    || (e.RunTotal? && status != TimedOut)
    || ((e.RunCancel? || e.Purge?) && status != Cancelled)
  }

  // Nothing decides otherwise as long as the request is current.
  predicate Undisputed(s: Slot, es: seq<Event>, id: Id, status: Status)
    requires CanRun(s, es)
    decreases |es|
  {
    es == [] || ((s.current == Some(id) ==> !Against(es[0], status)) && Undisputed(Step(s, es[0]), es[1..], id, status))
  }

  // The request will end with this status, or has.
  ghost predicate Bound(s: Slot, id: Id, status: Status, mark: Mark) {
    || (&& s.current == Some(id) && s.mark == mark && !s.pc.Starting?
        && (s.pc.Trying? ==> s.pc.status == status))
    || exists d :: d in s.done && Meant(s.kind, d, id, status)
  }

  predicate Meant(k: Kind, d: Done, id: Id, status: Status) {
    d.id == id && (d.status == status || (k == Write && status == Success && d.status == Status.HandedOver))
  }

  // The mark goes with the status.
  predicate Goes(mark: Mark, status: Status) {
    match status
    case Success => mark == MarkComplete
    case Cancelled => mark == MarkCancel
    case TimedOut => mark == MarkTotal
    case _ => false
  }

  lemma BoundStays(s: Slot, e: Event, id: Id, status: Status, mark: Mark)
    requires Inv(s) && s.kind != XoffCounter && Enabled(s, e) && (s.current == Some(id) ==> !Against(e, status))
    requires Bound(s, id, status, mark) && Goes(mark, status)
    ensures Bound(Step(s, e), id, status, mark)
  {
    DoneGrows(s, e);
    KindStays(s, e);
    if d :| d in s.done && Meant(s.kind, d, id, status) {
      assert d in Step(s, e).done;
    } else {
      CurrentBoundStays(s, e, id, status, mark);
    }
  }

  lemma CurrentBoundStays(s: Slot, e: Event, id: Id, status: Status, mark: Mark)
    requires Inv(s) && s.kind != XoffCounter && Enabled(s, e) && !Against(e, status) && Goes(mark, status)
    requires s.current == Some(id) && s.mark == mark && !s.pc.Starting? && (s.pc.Trying? ==> s.pc.status == status)
    ensures Bound(Step(s, e), id, status, mark)
  {
    match e
    case Advance(choice) =>
      if s.pc.Trying? { TryBoundStays(s, choice, id, status, mark); }
    case _ =>
  }

  lemma TryBoundStays(s: Slot, choice: bool, id: Id, status: Status, mark: Mark)
    requires s.current == Some(id) && s.mark == mark && s.pc.Trying? && s.pc.status == status
    ensures Bound(Step(s, Advance(choice)), id, status, mark)
  {
    var t := Step(s, Advance(choice));
    if Completes(s, choice) {
      CompletingStep(s, choice);
      var d := Done(id, EndOf(s, status));
      assert t.done == s.done + [d] && t.kind == s.kind;
      assert d in t.done && Meant(t.kind, d, id, status);
    } else {
      TryKeepsRequests(s);
      assert t.mark == mark && (t.pc.Trying? ==> t.pc.status == status);
    }
  }

  lemma {:induction false} RunBoundStays(s: Slot, es: seq<Event>, id: Id, status: Status, mark: Mark)
    requires Inv(s) && s.kind != XoffCounter && CanRun(s, es) && Undisputed(s, es, id, status)
    requires Bound(s, id, status, mark) && Goes(mark, status)
    ensures Bound(Run(s, es), id, status, mark)
    decreases |es|
  {
    if es != [] {
      BoundStays(s, es[0], id, status, mark);
      StepKeepsInv(s, es[0]);
      KindStays(s, es[0]);
      RunBoundStays(Step(s, es[0]), es[1..], id, status, mark);
    }
  }

  lemma DecidingBinds(s: Slot, e: Event, id: Id, status: Status, mark: Mark)
    requires s.current == Some(id) && Enabled(s, e) && Step(s, e).pc.Trying? && Goes(mark, status)
    requires match status {
               case Success => e.RunDpc?
               case Cancelled => e.RunCancel? || e.Purge?
               case TimedOut => e.RunTotal?
               case _ => false
             }
    ensures Bound(Step(s, e), id, status, mark)
  {
  }

  // One log entry for each request.
  lemma OneEntry(s: Slot, a: Done, b: Done)
    requires EachOnce(s) && a in s.done && b in s.done && a.id == b.id
    ensures a == b
  {
    OnePlace(s, a.id);
    var i :| 0 <= i < |s.done| && s.done[i] == a;
    var j :| 0 <= j < |s.done| && s.done[j] == b;
    assert i == j || s.done[i].id != s.done[j].id;
  }

  lemma BoundDecides(s: Slot, more: seq<Event>, id: Id, status: Status, mark: Mark, d: Done)
    requires Inv(s) && s.kind != XoffCounter && CanRun(s, more) && Undisputed(s, more, id, status)
    requires Bound(s, id, status, mark) && Goes(mark, status)
    requires d in Run(s, more).done && d.id == id
    ensures Meant(s.kind, d, id, status)
  {
    var t := Run(s, more);
    RunBoundStays(s, more, id, status, mark);
    RunKeepsEachOnce(s, more);
    RunKeepsKind(s, more);
    OnePlace(t, id);
    var i :| 0 <= i < |t.done| && t.done[i] == d;
    assert DoneIds(t.done)[i] == id;
    var other :| other in t.done && Meant(t.kind, other, id, status);
    OneEntry(t, d, other);
  }

  // In any run of reads, writes, immediate characters or waits: the completion DPC, the cancel routine, the total
  // timer or a purge, whichever has run last for a request, decides how it ends; the interval timer only carries
  // the decision out.
  lemma LastWord(k: Kind, es: seq<Event>, e: Event, more: seq<Event>, id: Id, status: Status)
    requires k != XoffCounter && CanRun(InitialSlot(k), es)
    requires var s := Run(InitialSlot(k), es);
      && Enabled(s, e) && s.current == Some(id)
      && CanRun(Step(s, e), more) && Done(id, status) in Run(Step(s, e), more).done
      && Undisputed(Step(s, e), more, id, if e.RunDpc? then Success else if e.RunTotal? then TimedOut else Cancelled)
    ensures e.RunDpc? ==> status == Success || (k == Write && status == Status.HandedOver)
    ensures e.RunCancel? ==> status == Cancelled
    ensures e.RunTotal? ==> status == TimedOut
    ensures e.Purge? && Step(Run(InitialSlot(k), es), e).pc.Trying? ==> status == Cancelled
  {
    var s := Run(InitialSlot(k), es);
    InitialInv(k);
    OthersNeverOverwrite(InitialSlot(k), es);
    RunKeepsInv(InitialSlot(k), es);
    RunKeepsKind(InitialSlot(k), es);
    StepKeepsInv(s, e);
    KindStays(s, e);
    var d := Done(id, status);
    if e.RunDpc? {
      DecidingBinds(s, e, id, Success, MarkComplete);
      BoundDecides(Step(s, e), more, id, Success, MarkComplete, d);
    } else if e.RunTotal? {
      DecidingBinds(s, e, id, TimedOut, MarkTotal);
      BoundDecides(Step(s, e), more, id, TimedOut, MarkTotal, d);
    } else if e.RunCancel? || (e.Purge? && Step(s, e).pc.Trying?) {
      DecidingBinds(s, e, id, Cancelled, MarkCancel);
      BoundDecides(Step(s, e), more, id, Cancelled, MarkCancel, d);
    }
  }

  lemma {:induction false} NothingAgainst(s: Slot, es: seq<Event>, id: Id)
    requires CanRun(s, es) && forall e :: e in es ==> !e.RunCancel? && !e.RunTotal? && !e.Purge?
    ensures Undisputed(s, es, id, Success)
    decreases |es|
  {
    if es != [] { NothingAgainst(Step(s, es[0]), es[1..], id); }
  }

  // A read whose completion DPC has run ends with success, unless the total timer, the cancel routine or a purge
  // comes after it; whatever the interval timer does.
  lemma FilledReadSucceeds(es: seq<Event>, more: seq<Event>, id: Id, status: Status)
    requires CanRun(InitialSlot(Read), es)
    requires var s := Run(InitialSlot(Read), es);
      && Enabled(s, RunDpc) && s.current == Some(id)
      && CanRun(Step(s, RunDpc), more) && Done(id, status) in Run(Step(s, RunDpc), more).done
    requires forall e :: e in more ==> !e.RunCancel? && !e.RunTotal? && !e.Purge?
    ensures status == Success
  {
    NothingAgainst(Step(Run(InitialSlot(Read), es), RunDpc), more, id);
    LastWord(Read, es, RunDpc, more, id, status);
  }
}
