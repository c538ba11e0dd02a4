/** What the ownership invariant means for the users of the driver, over every run of a slot. */
module OwnershipTheorems {
  import opened Prelude
  import opened Ownership
  import opened OwnershipInvariant

  // ----- Safety -----

  lemma FailedStays(s: Slot, e: Event)
    requires Enabled(s, e)
    ensures (s.failed || Asserts(s, e)) ==> Step(s, e).failed
  {
    StepAgrees(s, e);
  }

  lemma {:induction false} FailedRun(s: Slot, es: seq<Event>)
    requires CanRun(s, es) && (s.failed || AssertsIn(s, es))
    ensures Run(s, es).failed
    decreases |es|
  {
    if es != [] {
      FailedStays(s, es[0]);
      FailedRun(Step(s, es[0]), es[1..]);
    }
  }

  lemma {:induction false} UnfailedRun(s: Slot, es: seq<Event>)
    requires Inv(s) && !s.failed && CanRun(s, es) && !AssertsIn(s, es)
    ensures !Run(s, es).failed
    decreases |es|
  {
    if es != [] {
      StepKeepsSound(s, es[0]);
      StepKeepsInv(s, es[0]);
      UnfailedRun(Step(s, es[0]), es[1..]);
    }
  }

  // In every run, an assertion of the source fails if and only if an Xoff counter ends as a write while
  // another one is active.  No SET or CLEAR macro, and no other assertion, fails before that.
  lemma AssertionFailsExactly(k: Kind, es: seq<Event>)
    requires CanRun(InitialSlot(k), es)
    ensures Run(InitialSlot(k), es).failed <==> AssertsIn(InitialSlot(k), es)
  {
    InitialInv(k);
    if AssertsIn(InitialSlot(k), es) { FailedRun(InitialSlot(k), es); } else { UnfailedRun(InitialSlot(k), es); }
  }

  // For reads, writes, immediate characters and waits none ever fails.
  lemma NoAssertionFails(k: Kind, es: seq<Event>)
    requires k != XoffCounter && CanRun(InitialSlot(k), es)
    ensures !Run(InitialSlot(k), es).failed
  {
    OthersNeverOverwrite(InitialSlot(k), es);
    AssertionFailsExactly(k, es);
  }

  // The request has left the slot: the log of completions and hand-overs names it.
  predicate Ended(s: Slot, id: Id) { id in DoneIds(s.done) }

  predicate Completed(s: Slot, id: Id) { exists d :: d in s.done && d.id == id && d.status != Status.HandedOver }

  // An Xoff counter that has been sent as a write and has gone on to the slot of the counters.
  predicate HandedOver(s: Slot, id: Id) { Done(id, Status.HandedOver) in s.done }

  predicate InFlight(s: Slot, id: Id) { s.current == Some(id) || id in s.queue }

  // An Xoff counter that was replaced before it was completed.
  predicate Overwritten(s: Slot, id: Id) { id in LostIds(s.lost) }

  lemma TwiceCountsTwice(ids: seq<Id>, i: nat, j: nat)
    requires i < j < |ids| && ids[i] == ids[j]
    ensures multiset(ids)[ids[i]] >= 2
  {
    assert ids == ids[..j] + ids[j..];
    assert ids[i] in ids[..j] && ids[j] in ids[j..];
  }

  // Only Xoff counters in the write slot are handed over.
  ghost predicate HandsOverCounters(s: Slot) {
    && (s.pc.Trying? ==> s.pc.status != Status.HandedOver)
    && forall d :: d in s.done && d.status == Status.HandedOver ==> s.kind == Write && d.id in s.aside.counters
  }

  lemma CompletionHandsOver(s: Slot, status: Status)
    requires HandsOverCounters(s) && s.current.Some? && status != Status.HandedOver
    ensures HandsOverCounters(CompleteCurrent(s, status))
  {
  }

  lemma AdvanceHandsOver(s: Slot, choice: bool)
    requires HandsOverCounters(s) && s.current.Some? && !s.pc.Resting?
    ensures HandsOverCounters(Step(s, Advance(choice)))
  {
    var t := Step(s, Advance(choice));
    if Completes(s, choice) {
      CompletingStep(s, choice);
      CompletionHandsOver(s, CompletionStatus(s));
    } else {
      AdvanceKeepsRequests(s, choice);
      KindStays(s, Advance(choice));
      assert t.aside.counters == s.aside.counters;
      assert t.pc.Trying? ==> t.pc.status != Status.HandedOver;
    }
  }

  lemma StepHandsOver(s: Slot, e: Event)
    requires HandsOverCounters(s) && Enabled(s, e)
    ensures HandsOverCounters(Step(s, e))
  {
    match e
    case Advance(choice) => if s.current.Some? { AdvanceHandsOver(s, choice); }
    case Purge => PurgeSweeps(s);
    case _ =>
  }

  lemma {:induction false} RunHandsOver(s: Slot, es: seq<Event>)
    requires HandsOverCounters(s) && CanRun(s, es)
    ensures HandsOverCounters(Run(s, es))
    decreases |es|
  {
    if es != [] {
      StepHandsOver(s, es[0]);
      RunHandsOver(Step(s, es[0]), es[1..]);
    }
  }

  // A request that has left the slot is completed or handed over, not both.
  lemma EndsOnce(s: Slot, id: Id)
    requires EachOnce(s)
    ensures Ended(s, id) <==> Completed(s, id) || HandedOver(s, id)
    ensures !(Completed(s, id) && HandedOver(s, id))
  {
    OnePlace(s, id);
    if Ended(s, id) {
      var i :| 0 <= i < |s.done| && DoneIds(s.done)[i] == id;
      assert s.done[i] in s.done && s.done[i].id == id;
    }
    if d :| d in s.done && d.id == id {
      var i :| 0 <= i < |s.done| && s.done[i] == d;
      assert DoneIds(s.done)[i] == id;
    }
  }

  // Every request handed to the slot is in one place: in flight, completed once, handed over, or overwritten.
  lemma ExactlyOnce(k: Kind, es: seq<Event>, id: Id)
    requires CanRun(InitialSlot(k), es)
    ensures var s := Run(InitialSlot(k), es);
      && (id in s.accepted <==> InFlight(s, id) || Completed(s, id) || HandedOver(s, id) || Overwritten(s, id))
      && !(InFlight(s, id) && (Completed(s, id) || HandedOver(s, id)))
      && !(Completed(s, id) && HandedOver(s, id))
      && !(Overwritten(s, id) && (InFlight(s, id) || Completed(s, id) || HandedOver(s, id)))
      && (HandedOver(s, id) ==> k == Write && id in s.aside.counters)
      && (forall i, j :: 0 <= i < j < |s.done| ==> s.done[i].id != s.done[j].id)
  {
    InitialInv(k);
    RunKeepsEachOnce(InitialSlot(k), es);
    RunHandsOver(InitialSlot(k), es);
    OnePlace(Run(InitialSlot(k), es), id);
    EndsOnce(Run(InitialSlot(k), es), id);
    RunKeepsKind(InitialSlot(k), es);
  }

  lemma {:induction false} RunKeepsKind(s: Slot, es: seq<Event>)
    requires CanRun(s, es)
    ensures Run(s, es).kind == s.kind
    decreases |es|
  {
    if es != [] {
      KindStays(s, es[0]);
      RunKeepsKind(Step(s, es[0]), es[1..]);
    }
  }

  lemma OnePlace(s: Slot, id: Id)
    requires EachOnce(s)
    ensures id in s.accepted <==> InFlight(s, id) || Ended(s, id) || Overwritten(s, id)
    ensures !(InFlight(s, id) && Ended(s, id))
    ensures !(Overwritten(s, id) && (InFlight(s, id) || Ended(s, id)))
    ensures forall i, j :: 0 <= i < j < |s.done| ==> s.done[i].id != s.done[j].id
  {
    assert Everything(s)[id] == if id in s.accepted then 1 else 0;
    forall i, j | 0 <= i < j < |s.done| ensures s.done[i].id != s.done[j].id {
      assert Everything(s)[s.done[i].id] <= 1;
      if s.done[i].id == s.done[j].id { TwiceCountsTwice(DoneIds(s.done), i, j); }
    }
  }

  lemma LostGrows(s: Slot, e: Event)
    requires Enabled(s, e)
    ensures LostIds(Step(s, e).lost) == LostIds(s.lost) + if Overwrites(s, e) then [s.current.value] else []
  {
    match e
    case Advance(choice) =>
      if s.current.Some? {
        if Completes(s, choice) { CompletingStep(s, choice); } else { AdvanceKeepsRequests(s, choice); }
      }
    case Purge => PurgeSweeps(s);
    case _ =>
  }

  lemma {:induction false} LostRun(s: Slot, es: seq<Event>)
    requires CanRun(s, es)
    ensures LostIds(s.lost) <= LostIds(Run(s, es).lost)
    ensures |LostIds(Run(s, es).lost)| > |LostIds(s.lost)| <==> OverwritesIn(s, es)
    decreases |es|
  {
    if es != [] {
      LostGrows(s, es[0]);
      LostRun(Step(s, es[0]), es[1..]);
    }
  }

  // So every request is in flight or has ended, and none is forgotten: if and only if no Xoff counter takes over
  // from an active one.
  lemma NoneForgottenExactly(k: Kind, es: seq<Event>)
    requires CanRun(InitialSlot(k), es)
    ensures var s := Run(InitialSlot(k), es);
      (forall id :: id in s.accepted ==> InFlight(s, id) || Ended(s, id)) <==> !OverwritesIn(InitialSlot(k), es)
  {
    var s := Run(InitialSlot(k), es);
    LostRun(InitialSlot(k), es);
    InitialInv(k);
    RunKeepsEachOnce(InitialSlot(k), es);
    forall id ensures id in s.accepted <==> InFlight(s, id) || Ended(s, id) || Overwritten(s, id) {
      OnePlace(s, id);
    }
    if OverwritesIn(InitialSlot(k), es) {
      var id := LostIds(s.lost)[0];
      OnePlace(s, id);
      assert Overwritten(s, id);
    }
  }

  // A callback that is due, or the ISR, still knows a request that is not the current one.
  ghost predicate Stale(s: Slot) { exists id: Id :: KnownToSomebody(s, id) && s.current != Some(id) }

  ghost predicate StaleIn(s: Slot, es: seq<Event>)
    requires CanRun(s, es)
    decreases |es|
  {
    Stale(s) || (es != [] && StaleIn(Step(s, es[0]), es[1..]))
  }

  lemma SoundIsNotStale(s: Slot)
    requires Sound(s)
    ensures !Stale(s)
  {
  }

  lemma OverwriteLeavesStale(s: Slot, e: Event)
    requires Inv(s) && Enabled(s, e) && OverwritesKnown(s, e)
    ensures Stale(Step(s, e))
  {
    var id, t := s.current.value, Step(s, e);
    OnePlace(s, id);
    if s.cancel != NotCancelable {
      assert t.lost[|s.lost|].id == id && t.lost[|s.lost|].cancel == s.cancel;
    }
    assert KnownToSomebody(t, id);
  }

  lemma {:induction false} StaleRun(s: Slot, es: seq<Event>)
    requires Inv(s) && CanRun(s, es)
    ensures StaleIn(s, es) <==> OverwritesKnownIn(s, es)
    decreases |es|
  {
    SoundIsNotStale(s);
    if es != [] {
      if OverwritesKnown(s, es[0]) {
        OverwriteLeavesStale(s, es[0]);
        assert StaleIn(Step(s, es[0]), es[1..]);
      } else {
        StepKeepsInv(s, es[0]);
        StaleRun(Step(s, es[0]), es[1..]);
      }
    }
  }

  // At some point of the run a callback that is due knows a request that is not current any more: if and
  // only if an Xoff counter takes over from one that a callback still knows.
  lemma StaleExactly(k: Kind, es: seq<Event>)
    requires CanRun(InitialSlot(k), es)
    ensures StaleIn(InitialSlot(k), es) <==> OverwritesKnownIn(InitialSlot(k), es)
  {
    InitialInv(k);
    StaleRun(InitialSlot(k), es);
  }

  // Otherwise, once a request has ended, nothing that is still due refers to it.
  lemma NoStaleCallback(k: Kind, es: seq<Event>, id: Id)
    requires CanRun(InitialSlot(k), es) && !OverwritesKnownIn(InitialSlot(k), es)
    requires Ended(Run(InitialSlot(k), es), id)
    ensures !KnownToSomebody(Run(InitialSlot(k), es), id)
  {
    InitialInv(k);
    RunKeepsInv(InitialSlot(k), es);
    ExactlyOnce(k, es, id);
    SoundIsNotStale(Run(InitialSlot(k), es));
  }

  // The step that completes the current request finds its reference set empty and nobody who knows it.
  lemma CompletionFindsNoHolder(k: Kind, es: seq<Event>, e: Event)
    requires CanRun(InitialSlot(k), es) && !OverwritesKnownIn(InitialSlot(k), es)
    requires Enabled(Run(InitialSlot(k), es), e)
    ensures var s := Run(InitialSlot(k), es);
      s.current.Some? && Ended(Step(s, e), s.current.value) ==>
        s.refs == NO_REFS && !KnownToSomebody(s, s.current.value)
  {
    InitialInv(k);
    RunKeepsInv(InitialSlot(k), es);
    var s := Run(InitialSlot(k), es);
    if s.current.Some? && Ended(Step(s, e), s.current.value) { OnlyCompletesWhenEmpty(s, e); }
  }

  lemma OverwritingLogs(s: Slot, e: Event)
    requires Enabled(s, e)
    ensures Overwrites(s, e) ==> Overwritten(Step(s, e), s.current.value)
  {
    LostGrows(s, e);
    if Overwrites(s, e) { assert LostIds(Step(s, e).lost)[|s.lost|] == s.current.value; }
  }

  lemma OnlyCompletesWhenEmpty(s: Slot, e: Event)
    requires Inv(s) && Enabled(s, e) && s.current.Some? && Ended(Step(s, e), s.current.value)
    ensures s.refs == NO_REFS && e.Advance? && !KnownToSomebody(s, s.current.value)
  {
    StepKeepsEachOnce(s, e);
    OnePlace(Step(s, e), s.current.value);
    OverwritingLogs(s, e);
    if !(e.Advance? && Completes(s, e.choice)) { KeepsCurrent(s, e); }
  }

  lemma KeepsCurrent(s: Slot, e: Event)
    requires Sound(s) && Enabled(s, e) && s.current.Some? && !Overwrites(s, e) && !(e.Advance? && Completes(s, e.choice))
    ensures Step(s, e).current == s.current
  {
    match e
    case Advance(choice) => AdvanceKeepsRequests(s, choice);
    case Purge => PurgeSweeps(s);
    case _ =>
  }

  // ----- Draining -----

  // A request whose completion has been tried, and that only callbacks already on their way still hold.
  predicate Left(s: Slot, id: Id) {
    && s.current == Some(id)
    && s.isr.None?
    && !s.cancel.Armed?
    && !s.total.Queued?
    && !s.interval.Queued?
    && !s.pc.Starting?
    && ((s.interval.Due? || s.pc.Judging?) ==> !s.mark.InProgress?)
    && (s.pc.Resting? ==> s.refs != NO_REFS)
  }

  // The total timer of the slot's Xoff counter has expired; its callback does not drop the reference.
  predicate TimerLost(s: Slot, id: Id) {
    s.kind == XoffCounter && s.current == Some(id) && s.refs.Has(TotalRef) && !s.total.Queued?
  }

  predicate Draining(s: Slot, id: Id) { Left(s, id) && !TimerLost(s, id) }

  predicate HoldsOne(pc: Pc) {
    pc.Judging? || (pc.Trying? && TryRank(pc.at) <= TryRank(DropsAt(pc.ref)))
  }

  // The references that are not in the hands of the running callback.
  function Outstanding(s: Slot): int { s.refs.Count() - (if HoldsOne(s.pc) then 1 else 0) }

  // Whenever SerialTryToCompleteCurrent gives up, it leaves the request to callbacks that are due.
  lemma LeftIncomplete(s: Slot, choice: bool)
    requires Inv(s) && s.pc.Trying? && s.pc.at == Finish && s.refs != NO_REFS
    ensures Left(Step(s, Advance(choice)), s.current.value)
  {
  }

  // A draining request is not forgotten: a callback that holds it is ready to run.
  lemma DrainingHasCallback(s: Slot, id: Id)
    requires Inv(s) && Draining(s, id) && s.pc.Resting?
    ensures Enabled(s, RunDpc) || Enabled(s, RunCancel) || Enabled(s, RunTotal) || Enabled(s, RunInterval)
  {
  }

  function Starts(es: seq<Event>): nat {
    if es == [] then 0 else (if CallbackStart(es[0]) then 1 else 0) + Starts(es[1..])
  }

  // What is completed or overwritten stays so.
  lemma PlaceStays(s: Slot, e: Event, id: Id)
    requires Enabled(s, e)
    ensures Ended(s, id) ==> Ended(Step(s, e), id)
    ensures Overwritten(s, id) ==> Overwritten(Step(s, e), id)
  {
    LostGrows(s, e);
    DoneGrows(s, e);
    if Ended(s, id) {
      var i :| 0 <= i < |s.done| && DoneIds(s.done)[i] == id;
      assert DoneIds(Step(s, e).done)[i] == id;
    }
  }

  // The completion log is only ever appended to.
  lemma DoneGrows(s: Slot, e: Event)
    requires Enabled(s, e)
    ensures s.done <= Step(s, e).done
  {
    match e
    case Advance(choice) =>
      if s.current.Some? {
        if Completes(s, choice) { CompletingStep(s, choice); } else { AdvanceKeepsRequests(s, choice); }
      }
    case Purge => PurgeSweeps(s);
    case _ =>
  }

  predicate StillDrains(s: Slot, t: Slot, id: Id) { Draining(t, id) && Outstanding(t) == Outstanding(s) }

  lemma EarlyTryDrains(s: Slot, id: Id)
    requires Sound(s) && Draining(s, id) && s.pc.Trying? && (s.pc.at == DropOwn || s.pc.at == Grab)
    ensures StillDrains(s, TryStep(s), id)
  {
  }

  lemma DropCancelDrains(s: Slot, id: Id)
    requires Sound(s) && Draining(s, id) && s.pc.Trying? && s.pc.at == DropCancel
    ensures StillDrains(s, TryStep(s), id)
  {
  }

  lemma LateTryDrains(s: Slot, id: Id)
    requires Sound(s) && Draining(s, id) && s.pc.Trying? && (s.pc.at == StopInterval || s.pc.at == StopTotal)
    ensures StillDrains(s, TryStep(s), id)
  {
  }

  lemma TryDrains(s: Slot, id: Id)
    requires Sound(s) && Draining(s, id) && s.pc.Trying? && !(s.pc.at == Finish && s.refs == NO_REFS)
    ensures StillDrains(s, TryStep(s), id)
  {
    match s.pc.at
    case DropOwn => EarlyTryDrains(s, id);
    case Grab => EarlyTryDrains(s, id);
    case DropCancel => DropCancelDrains(s, id);
    case StopInterval => LateTryDrains(s, id);
    case StopTotal => LateTryDrains(s, id);
    case Finish =>
  }

  lemma CompletingLogs(s: Slot, choice: bool, id: Id)
    requires s.current == Some(id) && Completes(s, choice)
    ensures Ended(Step(s, Advance(choice)), id)
  {
    CompletingStep(s, choice);
    var t := Step(s, Advance(choice));
    assert DoneIds(t.done)[|s.done|] == id;
  }

  predicate Settled(s: Slot, id: Id) { Ended(s, id) || Overwritten(s, id) }

  predicate DrainedTo(s: Slot, id: Id, budget: int) {
    Settled(s, id) || (Draining(s, id) && Outstanding(s) <= budget)
  }

  lemma AdvanceDrains(s: Slot, choice: bool, id: Id)
    requires Sound(s) && Draining(s, id) && !s.pc.Resting?
    ensures DrainedTo(Step(s, Advance(choice)), id, Outstanding(s))
  {
    if Completes(s, choice) {
      CompletingLogs(s, choice, id);
    } else if s.pc.Trying? {
      TryDrains(s, id);
    }
  }

  // Each callback that starts on a draining request uses up one of its references.
  lemma DrainStep(s: Slot, e: Event, id: Id, budget: int)
    requires Sound(s) && Draining(s, id) && Outstanding(s) <= budget && Enabled(s, e)
    ensures DrainedTo(Step(s, e), id, budget - if CallbackStart(e) then 1 else 0)
  {
    match e
    case Advance(choice) => AdvanceDrains(s, choice, id);
    case Submit(_) => OverwritingLogs(s, e);
    case _ =>
  }

  lemma {:induction false} DrainRun(s: Slot, es: seq<Event>, id: Id, budget: int)
    requires (Inv(s) || Settled(s, id)) && CanRun(s, es) && DrainedTo(s, id, budget)
    ensures DrainedTo(Run(s, es), id, budget - Starts(es))
    decreases |es|
  {
    if es != [] {
      if Settled(s, id) {
        PlaceStays(s, es[0], id);
      } else {
        DrainStep(s, es[0], id, budget);
        if OverwritesKnown(s, es[0]) { OverwritingLogs(s, es[0]); } else { StepKeepsInv(s, es[0]); }
      }
      DrainRun(Step(s, es[0]), es[1..], id, budget - if CallbackStart(es[0]) then 1 else 0);
    }
  }

  // A draining request completes within as many callbacks as it has references, whatever else happens, if
  // and only if no Xoff counter takes its place meanwhile.
  lemma DrainsWithin(s: Slot, es: seq<Event>, id: Id)
    requires Inv(s) && Draining(s, id) && s.pc.Resting? && CanRun(s, es)
    requires Starts(es) >= s.refs.Count() && Run(s, es).pc.Resting?
    ensures Ended(Run(s, es), id) <==> !Overwritten(Run(s, es), id)
  {
    DrainRun(s, es, id, Outstanding(s));
    RunKeepsEachOnce(s, es);
    OnePlace(Run(s, es), id);
  }

  // ----- The Xoff counter's timeout -----

  lemma TimerLostStep(s: Slot, e: Event, id: Id)
    requires Sound(s) && TimerLost(s, id) && Enabled(s, e) && !Overwrites(s, e)
    ensures TimerLost(Step(s, e), id)
  {
    match e
    case Advance(choice) =>
      AdvanceKeepsRequests(s, choice);
      if s.pc.Trying? { TimerLostTry(s, id); }
    case _ =>
  }

  lemma TimerLostTry(s: Slot, id: Id)
    requires Sound(s) && TimerLost(s, id) && s.pc.Trying?
    ensures TimerLost(TryStep(s), id)
  {
    match s.pc.at
    case StopTotal =>
    case Finish =>
    case _ => assert TryStep(s).refs.Has(TotalRef);
  }

  lemma {:induction false} TimerLostRun(s: Slot, es: seq<Event>, id: Id)
    requires (Inv(s) && TimerLost(s, id)) || Overwritten(s, id)
    requires CanRun(s, es)
    ensures TimerLost(Run(s, es), id) || Overwritten(Run(s, es), id)
    decreases |es|
  {
    if es != [] {
      if Overwritten(s, id) {
        PlaceStays(s, es[0], id);
      } else if Overwrites(s, es[0]) {
        OverwritingLogs(s, es[0]);
      } else {
        TimerLostStep(s, es[0], id);
        StepKeepsInv(s, es[0]);
      }
      TimerLostRun(Step(s, es[0]), es[1..], id);
    }
  }

  // SerialTimeoutXoff passes no total timer, so an Xoff counter that is left incomplete completes within
  // its callbacks if and only if its timer has not expired and no other counter takes its place; after that
  // it never completes.
  lemma XoffCounterDrainsExactly(s: Slot, es: seq<Event>, id: Id)
    requires Inv(s) && s.kind == XoffCounter && Left(s, id) && s.pc.Resting? && CanRun(s, es)
    requires Starts(es) >= s.refs.Count() && Run(s, es).pc.Resting?
    ensures Ended(Run(s, es), id) <==> !s.refs.Has(TotalRef) && !Overwritten(Run(s, es), id)
  {
    if s.refs.Has(TotalRef) {
      TimerLostRun(s, es, id);
      RunKeepsEachOnce(s, es);
      OnePlace(Run(s, es), id);
    } else {
      DrainsWithin(s, es, id);
    }
  }

  // The run that loses the timer: a counter is activated with a timer, the timer expires, its callback runs.
  const ACTIVATE := [Submit(0), Advance(false), Advance(false), Advance(false), Advance(true)]
  const EXPIRE := [TotalExpires, RunTotal]
  const TRY_TO_COMPLETE := [Advance(false), Advance(false), Advance(false), Advance(false), Advance(false), Advance(false)]

  function ActiveCounter(): Slot {
    InitialSlot(XoffCounter).(current := Some(0), refs := Refs(true, true, true, false, false), routine := true,
                              isr := Some(0), cancel := Armed(0), total := Queued(0), accepted := {0})
  }

  // One step of a concrete run, and then the rest.
  lemma RunFirst(s: Slot, es: seq<Event>)
    requires es != [] && Enabled(s, es[0]) && CanRun(Step(s, es[0]), es[1..])
    ensures CanRun(s, es) && Run(s, es) == Run(Step(s, es[0]), es[1..])
  {
  }

  lemma XoffCounterBecomesActive()
    ensures CanRun(InitialSlot(XoffCounter), ACTIVATE)
    ensures Run(InitialSlot(XoffCounter), ACTIVATE) == ActiveCounter()
  {
    var es := ACTIVATE;
    var s := InitialSlot(XoffCounter);
    var s1 := Step(s, es[0]);
    var s2 := Step(s1, es[1]);
    var s3 := Step(s2, es[2]);
    var s4 := Step(s3, es[3]);
    assert Step(s4, es[4]) == ActiveCounter();
    assert es[4..][1..] == [] && es[3..][1..] == es[4..] && es[2..][1..] == es[3..] && es[1..][1..] == es[2..];
    RunFirst(s4, es[4..]);
    RunFirst(s3, es[3..]);
    RunFirst(s2, es[2..]);
    RunFirst(s1, es[1..]);
    RunFirst(s, es);
  }

  function TimedOutCounter(): Slot {
    ActiveCounter().(total := Idle, mark := MarkTotal, pc := Try(TotalRef, true, TimedOut))
  }

  function LostCounter(): Slot {
    ActiveCounter().(refs := Refs(false, false, true, false, false), routine := false, isr := None,
                     cancel := NotCancelable, total := Idle, mark := MarkTotal)
  }

  lemma XoffCounterTimesOut()
    ensures CanRun(ActiveCounter(), EXPIRE) && Run(ActiveCounter(), EXPIRE) == TimedOutCounter()
  {
  }

  function GivenUpCounter(at: TryOp): Slot { LostCounter().(pc := Trying(at, TotalRef, true, TimedOut)) }

  lemma TimeoutReleases()
    ensures CanRun(TimedOutCounter(), TRY_TO_COMPLETE[..3])
    ensures Run(TimedOutCounter(), TRY_TO_COMPLETE[..3]) == GivenUpCounter(StopInterval)
  {
    var es := TRY_TO_COMPLETE[..3];
    var s1 := Step(TimedOutCounter(), es[0]);
    var s2 := Step(s1, es[1]);
    assert es[2..][1..] == [] && es[1..][1..] == es[2..];
    RunFirst(s2, es[2..]);
    RunFirst(s1, es[1..]);
  }

  lemma TimeoutGivesUp()
    ensures CanRun(GivenUpCounter(StopInterval), TRY_TO_COMPLETE[3..])
    ensures Run(GivenUpCounter(StopInterval), TRY_TO_COMPLETE[3..]) == LostCounter()
  {
    var es := TRY_TO_COMPLETE[3..];
    var s1 := Step(GivenUpCounter(StopInterval), es[0]);
    var s2 := Step(s1, es[1]);
    assert es[2..][1..] == [] && es[1..][1..] == es[2..];
    RunFirst(s2, es[2..]);
    RunFirst(s1, es[1..]);
  }

  // The run is a real one: after it, the counter is left with a reference nobody will ever drop.
  lemma XoffCounterTimeoutLeaks()
    ensures CanRun(TimedOutCounter(), TRY_TO_COMPLETE) && Run(TimedOutCounter(), TRY_TO_COMPLETE) == LostCounter()
    ensures Left(LostCounter(), 0) && LostCounter().refs.Has(TotalRef)
  {
    TimeoutReleases();
    TimeoutGivesUp();
    RunConcat(TimedOutCounter(), TRY_TO_COMPLETE[..3], TRY_TO_COMPLETE[3..]);
    assert TRY_TO_COMPLETE[..3] + TRY_TO_COMPLETE[3..] == TRY_TO_COMPLETE;
  }

  lemma {:induction false} RunConcat(s: Slot, a: seq<Event>, b: seq<Event>)
    requires CanRun(s, a) && CanRun(Run(s, a), b)
    ensures CanRun(s, a + b) && Run(s, a + b) == Run(Run(s, a), b)
    decreases |a|
  {
    if a == [] {
      assert a + b == b;
    } else {
      assert (a + b)[1..] == a[1..] + b;
      RunConcat(Step(s, a[0]), a[1..], b);
    }
  }

  // So a fresh slot can get there, and from there the counter is never completed, whatever happens next.
  lemma CounterCanBeLost(next: seq<Event>)
    ensures var es := ACTIVATE + EXPIRE + TRY_TO_COMPLETE;
      && CanRun(InitialSlot(XoffCounter), es)
      && (CanRun(Run(InitialSlot(XoffCounter), es), next) ==>
            !Ended(Run(Run(InitialSlot(XoffCounter), es), next), 0))
  {
    var s := InitialSlot(XoffCounter);
    XoffCounterBecomesActive();
    XoffCounterTimesOut();
    XoffCounterTimeoutLeaks();
    RunConcat(s, ACTIVATE, EXPIRE);
    RunConcat(s, ACTIVATE + EXPIRE, TRY_TO_COMPLETE);
    if CanRun(LostCounter(), next) {
      InitialInv(XoffCounter);
      RunKeepsEachOnce(s, ACTIVATE + EXPIRE + TRY_TO_COMPLETE);
      assert Inv(LostCounter());
      TimerLostRun(LostCounter(), next, 0);
      RunKeepsEachOnce(LostCounter(), next);
      OnePlace(Run(LostCounter(), next), 0);
    }
  }

  // And the next Xoff counter that ends as a write takes its place: the assertion fails, and the lost one is
  // forgotten.
  lemma CounterCanBeOverwritten()
    ensures var es := ACTIVATE + EXPIRE + TRY_TO_COMPLETE + [Submit(1)];
      && CanRun(InitialSlot(XoffCounter), es)
      && Run(InitialSlot(XoffCounter), es).failed && Overwritten(Run(InitialSlot(XoffCounter), es), 0)
  {
    var s := InitialSlot(XoffCounter);
    XoffCounterBecomesActive();
    XoffCounterTimesOut();
    XoffCounterTimeoutLeaks();
    RunConcat(s, ACTIVATE, EXPIRE);
    RunConcat(s, ACTIVATE + EXPIRE, TRY_TO_COMPLETE);
    RunAppend(s, ACTIVATE + EXPIRE + TRY_TO_COMPLETE, Submit(1));
    OverwritingLogs(LostCounter(), Submit(1));
  }

  // The user cancels the active counter, a write displaces it, and before the cancel routine runs that write
  // ends and another counter takes over.
  const DISPLACE := [UserCancels, Displace]
  const TAKE_OVER := ACTIVATE + DISPLACE + TRY_TO_COMPLETE + [Submit(1)]

  function DisplacedCounter(): Slot {
    ActiveCounter().(refs := Refs(true, true, true, false, true), cancel := CancelDue(0), pc := Try(XoffRef, true, MoreWrites))
  }

  // What is left once the ISR and the timer have given it back: only the cancel routine holds it.
  function AwaitsCancel(pc: Pc): Slot {
    ActiveCounter().(refs := Refs(false, true, false, false, false), isr := None, cancel := CancelDue(0), total := Idle, pc := pc)
  }

  lemma UserCancelsThenDisplaced()
    ensures CanRun(ActiveCounter(), DISPLACE) && Run(ActiveCounter(), DISPLACE) == DisplacedCounter()
  {
  }

  function ReleasedCounter(): Slot {
    AwaitsCancel(Trying(StopInterval, XoffRef, true, MoreWrites)).(refs := Refs(false, true, true, false, false), total := Queued(0))
  }

  lemma DisplacedReleases()
    ensures CanRun(DisplacedCounter(), TRY_TO_COMPLETE[..3])
    ensures Run(DisplacedCounter(), TRY_TO_COMPLETE[..3]) == ReleasedCounter()
  {
    var es := TRY_TO_COMPLETE[..3];
    var s1 := Step(DisplacedCounter(), es[0]);
    var s2 := Step(s1, es[1]);
    assert es[2..][1..] == [] && es[1..][1..] == es[2..];
    RunFirst(s2, es[2..]);
    RunFirst(s1, es[1..]);
  }

  lemma DisplacedGivesUp()
    ensures CanRun(ReleasedCounter(), TRY_TO_COMPLETE[3..])
    ensures Run(ReleasedCounter(), TRY_TO_COMPLETE[3..]) == AwaitsCancel(Resting)
  {
    var es := TRY_TO_COMPLETE[3..];
    var s1 := Step(ReleasedCounter(), es[0]);
    var s2 := Step(s1, es[1]);
    assert s2 == AwaitsCancel(Trying(Finish, XoffRef, true, MoreWrites));
    assert es[2..][1..] == [] && es[1..][1..] == es[2..];
    RunFirst(s2, es[2..]);
    RunFirst(s1, es[1..]);
  }

  // So a stale callback can come about: the cancel routine is due for a counter that is not current any more.
  lemma CounterCanBeStale()
    ensures CanRun(InitialSlot(XoffCounter), TAKE_OVER) && Stale(Run(InitialSlot(XoffCounter), TAKE_OVER))
  {
    var s := InitialSlot(XoffCounter);
    XoffCounterBecomesActive();
    UserCancelsThenDisplaced();
    DisplacedReleases();
    DisplacedGivesUp();
    RunConcat(DisplacedCounter(), TRY_TO_COMPLETE[..3], TRY_TO_COMPLETE[3..]);
    assert TRY_TO_COMPLETE[..3] + TRY_TO_COMPLETE[3..] == TRY_TO_COMPLETE;
    RunConcat(s, ACTIVATE, DISPLACE);
    RunConcat(s, ACTIVATE + DISPLACE, TRY_TO_COMPLETE);
    RunAppend(s, ACTIVATE + DISPLACE + TRY_TO_COMPLETE, Submit(1));
    InitialInv(XoffCounter);
    RunKeepsEachOnce(s, ACTIVATE + DISPLACE + TRY_TO_COMPLETE);
    assert Inv(AwaitsCancel(Resting));
    OverwriteLeavesStale(AwaitsCancel(Resting), Submit(1));
  }
}
