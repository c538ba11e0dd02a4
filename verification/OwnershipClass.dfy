/** The driver's own routines over one slot, in the order the source runs them.

    Between any two atomic actions the interrupt service routine, a timer or a user may act; `Interrupts`
    stands for whatever they do.  The ghost field `trace` records every event so far, and the object is
    always in the state to which that trace leads the transition system.  Each callback is proved to add to
    the trace its own call and then only its own actions and the environment's, until it returns; so
    everything proved about runs holds of this code. */
module OwnershipClass {
  import opened Prelude
  import opened Ownership
  import opened OwnershipInvariant

  // The events lead any fresh slot to this state, and the calls among them are these.  No Xoff counter has
  // taken over from one that a callback still knew.
  ghost predicate LeadsTo(es: seq<Event>, calls: seq<Event>, s: Slot) {
    forall f :: f == InitialSlot(s.kind) ==>
      CanRun(f, es) && !OverwritesKnownIn(f, es) && Run(f, es) == s && Calls(es) == calls
  }

  // The invariant, without its definition.
  ghost predicate Reached(s: Slot) { forall x :: x == s ==> Sound(x) }

  // The event takes the one state to the other.
  ghost predicate Moves(s: Slot, e: Event, t: Slot) {
    forall x :: x == s ==> Enabled(x, e) && !OverwritesKnown(x, e) && Step(x, e) == t
  }

  // The calls into the driver among the events: all but a callback's own actions and the environment's.
  function Calls(es: seq<Event>): seq<Event> {
    if es == [] then [] else Calls(es[..|es| - 1]) + CallOf(es[|es| - 1])
  }

  lemma CallsAppend(es: seq<Event>, e: Event)
    ensures Calls(es + [e]) == Calls(es) + CallOf(e)
  {
  }

  function CallOf(e: Event): seq<Event> { if e.Advance? || Environmental(e) then [] else [e] }

  lemma LeadsFurther(es: seq<Event>, calls: seq<Event>, s: Slot, e: Event)
    requires LeadsTo(es, calls, s) && Enabled(s, e) && !OverwritesKnown(s, e)
    ensures LeadsTo(es + [e], calls + CallOf(e), Step(s, e))
  {
    assert CanRun(InitialSlot(s.kind), es);
    RunAppend(InitialSlot(s.kind), es, e);
    AppendOverwritesKnown(InitialSlot(s.kind), es, e);
    KindStays(s, e);
    CallsAppend(es, e);
  }

  lemma {:induction false} AppendOverwritesKnown(s: Slot, es: seq<Event>, e: Event)
    requires CanRun(s, es) && Enabled(Run(s, es), e) && CanRun(s, es + [e])
    ensures OverwritesKnownIn(s, es + [e]) <==> OverwritesKnownIn(s, es) || OverwritesKnown(Run(s, es), e)
    decreases |es|
  {
    if es == [] {
      assert es + [e] == [e];
    } else {
      assert (es + [e])[1..] == es[1..] + [e];
      AppendOverwritesKnown(Step(s, es[0]), es[1..], e);
    }
  }

  lemma LeadsToReached(es: seq<Event>, calls: seq<Event>, s: Slot)
    requires LeadsTo(es, calls, s)
    ensures Reached(s)
  {
    assert CanRun(InitialSlot(s.kind), es);
    InitialInv(s.kind);
    RunKeepsInv(InitialSlot(s.kind), es);
  }

  // ----- What each action does to a reached state: the assertions it makes hold, and so on -----

  lemma InitStep(s: Slot)
    requires Reached(s) && s.pc == Starting(Init)
    ensures Moves(s, Advance(false), s.(
              refs := NO_REFS, pc := NextStart(s.kind, Init),
              total := if s.kind.Read? && s.total.Queued? then Idle else s.total,
              interval := if s.kind.Read? && s.interval.Queued? then Idle else s.interval))
  {
    assert Sound(s);
  }

  lemma MarkStep(s: Slot)
    requires Reached(s) && s.pc == Starting(MarkCancelable)
    ensures s.current.Some? && !s.refs.Has(CancelRef)
    ensures Moves(s, Advance(false), s.(
              refs := s.refs.Put(CancelRef, true), cancel := Armed(s.current.value), routine := true,
              pc := NextStart(s.kind, MarkCancelable)))
  {
    assert Sound(s);
  }

  lemma TotalStep(s: Slot, use: bool)
    requires Reached(s) && s.pc == Starting(StartTotal)
    ensures s.current.Some? && (use && !s.total.Queued? ==> !s.refs.Has(TotalRef))
    ensures Moves(s, Advance(use), s.(
              refs := if use && !s.total.Queued? then s.refs.Put(TotalRef, true) else s.refs,
              total := if use then Queued(s.current.value) else s.total, pc := NextStart(s.kind, StartTotal)))
  {
    assert Sound(s);
  }

  lemma IntervalStep(s: Slot, use: bool)
    requires Reached(s) && s.pc == Starting(StartInterval)
    ensures s.current.Some? && (use && !s.interval.Queued? ==> !s.refs.Has(IntervalRef))
    ensures Moves(s, Advance(use), s.(
              refs := if use && !s.interval.Queued? then s.refs.Put(IntervalRef, true) else s.refs,
              interval := if use then Queued(s.current.value) else s.interval,
              pc := NextStart(s.kind, StartInterval)))
  {
    assert Sound(s);
  }

  lemma GiveStep(s: Slot)
    requires Reached(s) && s.pc == Starting(Give)
    ensures !s.refs.Has(IsrRef)
    ensures Moves(s, Advance(false), s.(
              refs := s.refs.Put(IsrRef, true), isr := s.current, mark := if s.kind.Read? then InProgress else s.mark,
              pc := NextStart(s.kind, Give)))
    ensures s.kind.Wait? ==>
      Moves(s, Advance(true), s.(refs := s.refs.Put(IsrRef, true), dpc := s.current, pc := NextStart(s.kind, Give)))
  {
    assert Sound(s);
  }

  lemma FromBufferStep(s: Slot)
    requires Reached(s) && s.pc == Starting(Give) && s.kind.Read?
    ensures s.current.Some? && s.refs == NO_REFS && Moves(s, Advance(true), CompleteCurrent(s, Success))
  {
    assert Sound(s);
  }

  lemma DropOwnStep(s: Slot)
    requires Reached(s) && s.pc.Trying? && s.pc.at == DropOwn
    ensures var own := s.pc.ref == IsrRef || s.pc.ref == XoffRef;
      && (own ==> s.refs.Has(s.pc.ref))
      && Moves(s, Advance(false), s.(refs := if own then s.refs.Put(s.pc.ref, false) else s.refs, pc := s.pc.(at := Grab)))
  {
    assert Sound(s);
  }

  lemma GrabStep(s: Slot)
    requires Reached(s) && s.pc.Trying? && s.pc.at == Grab
    ensures var grabs := s.pc.sync && s.isr.Some?;
      && (grabs ==> s.refs.Has(IsrRef))
      && Moves(s, Advance(false), s.(
           refs := if grabs then s.refs.Put(IsrRef, false) else s.refs, isr := if grabs then None else s.isr,
           pc := s.pc.(at := DropCancel)))
  {
    assert Sound(s);
  }

  // Unmarking fails exactly when the cancel routine is already due.
  predicate Unmarks(s: Slot) { s.refs.Has(CancelRef) && !s.cancel.CancelDue? }

  lemma DropCancelStep(s: Slot)
    requires Reached(s) && s.pc.Trying? && s.pc.at == DropCancel
    ensures var own := s.pc.ref == CancelRef;
      && (own ==> s.refs.Has(CancelRef))
      && Moves(s, Advance(false), s.(
           refs := if own || Unmarks(s) then s.refs.Put(CancelRef, false) else s.refs,
           cancel := if !own && Unmarks(s) then NotCancelable else s.cancel,
           routine := if own || Unmarks(s) then false else s.routine, pc := s.pc.(at := StopInterval)))
  {
    assert Sound(s);
  }

  lemma StopIntervalStep(s: Slot)
    requires Reached(s) && s.pc.Trying? && s.pc.at == StopInterval
    ensures var gives := s.kind.Read? && (s.interval.Queued? || s.pc.ref == IntervalRef);
      && (gives ==> s.refs.Has(IntervalRef))
      && Moves(s, Advance(false), s.(
           refs := if gives then s.refs.Put(IntervalRef, false) else s.refs,
           interval := if s.kind.Read? && s.interval.Queued? then Idle else s.interval, pc := s.pc.(at := StopTotal)))
  {
    assert Sound(s);
  }

  // Waits have no timer, and the timeout of an Xoff counter passes none.
  predicate PassesTotal(k: Kind, ref: Ref) { !k.Wait? && !(k.XoffCounter? && ref == TotalRef) }

  lemma StopTotalStep(s: Slot)
    requires Reached(s) && s.pc.Trying? && s.pc.at == StopTotal
    ensures var gives := PassesTotal(s.kind, s.pc.ref) && (s.total.Queued? || s.pc.ref == TotalRef);
      && (gives ==> s.refs.Has(TotalRef))
      && Moves(s, Advance(false), s.(
           refs := if gives then s.refs.Put(TotalRef, false) else s.refs,
           total := if PassesTotal(s.kind, s.pc.ref) && s.total.Queued? then Idle else s.total,
           pc := s.pc.(at := Finish)))
  {
    assert Sound(s);
  }

  lemma FinishStep(s: Slot)
    requires Reached(s) && s.pc.Trying? && s.pc.at == Finish
    ensures s.current.Some?
    ensures Moves(s, Advance(false),
              if s.refs == NO_REFS then CompleteCurrent(s, s.pc.status)
              else s.(aside := s.aside.(cancelled := s.aside.cancelled || s.pc.status.Cancelled?), pc := Resting))
  {
    assert Sound(s);
  }

  lemma JudgeStep(s: Slot, active: bool)
    requires Reached(s) && s.pc.Judging?
    ensures s.current.Some?
    ensures Moves(s, Advance(active),
              if s.mark.InProgress? && active then s.(interval := Queued(s.current.value), pc := Resting)
              else s.(pc := Try(IntervalRef, true, Verdict(s.mark))))
  {
    assert Sound(s);
  }

  // A callback finds the request it was meant for.
  lemma CallbackSteps(s: Slot)
    requires Reached(s) && s.pc.Resting?
    ensures s.dpc.Some? ==>
      Moves(s, RunDpc, s.(dpc := None, mark := MarkComplete, pc := Try(IsrRef, false, Success)))
    ensures s.cancel.CancelDue? ==>
      Moves(s, RunCancel, s.(cancel := NotCancelable, mark := MarkCancel, pc := Try(CancelRef, true, Cancelled)))
    ensures s.total.Due? ==>
      Moves(s, RunTotal, s.(total := Idle, mark := MarkTotal, pc := Try(TotalRef, true, TimedOut)))
    ensures s.interval.Due? ==> Moves(s, RunInterval, s.(interval := Idle, pc := Judging))
  {
    assert Sound(s);
  }

  lemma EnvironmentSteps(s: Slot)
    requires Reached(s)
    ensures s.isr.Some? ==> Moves(s, IsrFinishes, s.(isr := None, dpc := s.isr))
    ensures s.total.Queued? ==> Moves(s, TotalExpires, s.(total := Due(s.total.req)))
    ensures s.interval.Queued? ==> Moves(s, IntervalExpires, s.(interval := Due(s.interval.req)))
    ensures s.cancel.Armed? ==> Moves(s, UserCancels, s.(cancel := CancelDue(s.cancel.req)))
  {
    assert Sound(s);
  }

  lemma DisplaceStep(s: Slot)
    requires Reached(s) && Enabled(s, Displace)
    ensures !s.refs.Has(XoffRef)
    ensures Moves(s, Displace, s.(refs := s.refs.Put(XoffRef, true), pc := Try(XoffRef, true, MoreWrites)))
  {
    assert Sound(s);
  }

  predicate CallsCancel(s: Slot) { s.current.Some? && s.routine && !(s.refs.Has(CancelRef) && s.cancel.CancelDue?) }

  // The purge, for the current request.
  function Purged(s: Slot): Slot {
    s.(cancel := if Unmarks(s) then NotCancelable else s.cancel, routine := s.routine && !Unmarks(s),
       mark := if CallsCancel(s) then MarkCancel else s.mark,
       pc := if CallsCancel(s) then Try(CancelRef, true, Cancelled) else s.pc)
  }

  lemma PurgeIs(s: Slot)
    requires Reached(s) && Enabled(s, Purge)
    ensures s.current.None? ==> !s.refs.Has(CancelRef)
    ensures Moves(s, Purge, Purged(s.(queue := [], done := s.done + Swept(s.queue))))
  {
    assert Sound(s);
  }

  // A hand-over the driver can make, but not that of a counter while a callback still knows the active one.
  ghost predicate MaySubmit(s: Slot, id: Id) {
    forall x :: x == s ==> Enabled(x, Submit(id)) && !OverwritesKnown(x, Submit(id))
  }

  lemma SubmitStep(s: Slot, id: Id)
    requires Reached(s) && MaySubmit(s, id)
    ensures s.current.None? ==>
      s.queue == [] && Moves(s, Submit(id), s.(accepted := s.accepted + {id}, current := Some(id), refs := NO_REFS,
                                               routine := false, aside := s.aside.(cancelled := false),
                                               pc := Starting(Init)))
    ensures s.current.Some? && !s.kind.XoffCounter? ==>
      Moves(s, Submit(id), s.(accepted := s.accepted + {id}, queue := s.queue + [id]))
  {
    assert Enabled(s, Submit(id)) && Sound(s);
  }

  lemma ReplaceStep(s: Slot, id: Id)
    requires MaySubmit(s, id) && s.current.Some? && s.kind.XoffCounter?
    ensures Moves(s, Submit(id), s.(
              accepted := s.accepted + {id}, failed := true, lost := s.lost + [Lost(s.current.value, s.cancel)],
              current := Some(id), cancel := NotCancelable, refs := NO_REFS, routine := false,
              aside := s.aside.(cancelled := false), pc := Starting(Init)))
  {
    assert Enabled(s, Submit(id)) && Overwrites(s, Submit(id));
  }

  lemma OtherSteps(s: Slot)
    ensures forall i: nat | Enabled(s, CancelQueued(i)) ::
      Moves(s, CancelQueued(i),
            s.(queue := s.queue[..i] + s.queue[i + 1..], done := s.done + [Done(s.queue[i], Cancelled)]))
    ensures forall id: Id | Enabled(s, Declare(id)) ::
      Moves(s, Declare(id), s.(aside := s.aside.(counters := s.aside.counters + {id})))
    ensures Enabled(s, EndAsWrite) ==> Moves(s, EndAsWrite, s.(failed := s.failed || s.current.Some?))
  {
  }

  /** What the driver does not keep: the completions so far, the requests it was handed and which of them are Xoff
      counters, the counters that were replaced, timer callbacks that outlive them, and whether the assertion
      about that has failed. */
  datatype Past = Past(done: seq<Done>, accepted: set<Id>, counters: set<Id>, lost: seq<Lost>, strays: seq<Id>,
                       failed: bool)

  class RequestSlot {
    const kind: Kind
    var current: Option<Id>
    var queue: seq<Id>
    var refs: Refs
    var routine: bool
    var cancelled: bool
    var isr: Option<Id>
    var dpc: Option<Id>
    var cancel: Cancelability
    var total: Timer
    var interval: Timer
    var mark: Mark
    ghost var past: Past
    ghost var pc: Pc
    ghost var trace: seq<Event>     // every event so far
    ghost var calls: seq<Event>     // the calls among them

    ghost function View(): Slot
      reads this
    {
      Slot(kind, current, queue, refs, routine, isr, dpc, cancel, total, interval, mark,
           past.done, past.accepted, past.lost, Aside(cancelled, past.counters, past.strays), past.failed, pc)
    }

    ghost predicate Valid()
      reads this
    {
      LeadsTo(trace, calls, View())
    }

    constructor (k: Kind)
      ensures Valid() && View() == InitialSlot(k)
    {
      kind, current, queue, refs, routine := k, None, [], NO_REFS, false;
      isr, dpc, cancel, total, interval, mark := None, None, NotCancelable, Idle, Idle, InProgress;
      cancelled, past, pc, trace, calls := false, Past([], {}, {}, [], [], false), Resting, [], [];
      new;
      assert CanRun(InitialSlot(k), []);
    }

    // ----- The environment -----

    // Notes the event that has just taken `before` to the present state.
    ghost method Record(before: Slot, e: Event)
      requires LeadsTo(trace, calls, before)
      requires Moves(before, e, View())
      modifies this`trace, this`calls
      ensures Valid() && trace == old(trace) + [e]
      ensures calls == old(calls) + CallOf(e)
    {
      assert Enabled(before, e);
      LeadsFurther(trace, calls, before, e);
      trace, calls := trace + [e], calls + CallOf(e);
    }

    // One thing the environment may do now, if it can and wants to.
    method Interrupt()
      requires Valid()
      modifies this`isr, this`dpc, this`cancel, this`total, this`interval, this`trace, this`calls
      ensures Valid() && old(trace) <= trace && calls == old(calls)
    {
      ghost var before := View();
      LeadsToReached(trace, calls, before);
      EnvironmentSteps(before);
      var what: nat := *;
      if what == 0 && isr.Some? {
        isr, dpc := None, isr;
        Record(before, IsrFinishes);
      } else if what == 1 && total.Queued? {
        total := Due(total.req);
        Record(before, TotalExpires);
      } else if what == 2 && interval.Queued? {
        interval := Due(interval.req);
        Record(before, IntervalExpires);
      } else if what == 3 && cancel.Armed? {
        cancel := CancelDue(cancel.req);
        Record(before, UserCancels);
      }
    }

    // Any number of interruptions.
    method Interrupts()
      requires Valid()
      modifies this`isr, this`dpc, this`cancel, this`total, this`interval, this`trace, this`calls
      ensures Valid() && old(trace) <= trace && calls == old(calls)
    {
      var n: nat := *;
      while n > 0
        invariant Valid() && old(trace) <= trace && calls == old(calls)
      {
        Interrupt();
        n := n - 1;
      }
    }

    // ----- Reference bits and timers -----

    // The preconditions are the source's assertions.
    method SetReference(r: Ref)
      requires !refs.Has(r)
      modifies this`refs
      ensures refs == old(refs).Put(r, true)
    {
      refs := refs.Put(r, true);
    }

    method ClearReference(r: Ref)
      requires refs.Has(r)
      modifies this`refs
      ensures refs == old(refs).Put(r, false)
    {
      refs := refs.Put(r, false);
    }

    // WdfTimerStop answers whether the timer was still in the queue.
    method CancelTotalTimer() returns (wasQueued: bool)
      modifies this`total
      ensures wasQueued == old(total).Queued?
      ensures total == if wasQueued then Idle else old(total)
    {
      wasQueued := total.Queued?;
      if wasQueued { total := Idle; }
    }

    method CancelIntervalTimer() returns (wasQueued: bool)
      modifies this`interval
      ensures wasQueued == old(interval).Queued?
      ensures interval == if wasQueued then Idle else old(interval)
    {
      wasQueued := interval.Queued?;
      if wasQueued { interval := Idle; }
    }

    // SerialClearCancelRoutine.  The running callback does not hold the cancel reference itself.
    method ClearCancelRoutine(clearReference: bool) returns (ok: bool)
      modifies this`cancel, this`routine, this`refs
      ensures ok == !(old(refs).Has(CancelRef) && old(cancel).CancelDue?)
      ensures var unmarks := old(refs.Has(CancelRef) && !cancel.CancelDue?);
        && cancel == (if unmarks then NotCancelable else old(cancel)) && routine == (old(routine) && !unmarks)
        && refs == if unmarks && clearReference then old(refs).Put(CancelRef, false) else old(refs)
    {
      ok := true;
      if refs.Has(CancelRef) {
        ok := !cancel.CancelDue?;
        if ok {
          cancel := NotCancelable;
          routine := false;
          if clearReference { ClearReference(CancelRef); }
        }
      }
    }

    // ----- The atomic actions of the start routines -----

    // SerialGetNextRequest, completing the current request.
    method GetNextRequest(status: Status)
      requires current.Some? && refs == NO_REFS
      modifies this`current, this`queue, this`routine, this`cancelled, this`past, this`pc
      ensures View() == CompleteCurrent(old(View()), status)
      ensures if current.Some? then |queue| < |old(queue)| && pc == Starting(Init) else pc.Resting?
      ensures if old(queue) == [] then current.None? && queue == []
              else current == Some(old(queue)[0]) && queue == old(queue)[1..]
    {
      past := past.(done := past.done + [Done(current.value, EndOf(View(), status))]);
      routine, cancelled := false, false;
      if queue == [] {
        current, pc := None, Resting;
      } else {
        current, queue, pc := Some(queue[0]), queue[1..], Starting(Init);
      }
    }

    // SERIAL_INIT_REFERENCE; SerialStartRead also stops both timers here.
    method InitReference()
      requires Valid() && pc == Starting(Init)
      modifies this`refs, this`total, this`interval, this`pc, this`trace, this`calls
      ensures Valid() && old(trace) <= trace && calls == old(calls) && pc == NextStart(kind, Init)
    {
      ghost var before := View();
      LeadsToReached(trace, calls, before);
      InitStep(before);
      if kind.Read? {
        var wasQueued := CancelTotalTimer();
        wasQueued := CancelIntervalTimer();
      }
      refs, pc := NO_REFS, NextStart(kind, Init);
      Record(before, Advance(false));
    }

    // SerialSetCancelRoutine.
    method SetCancelRoutine()
      requires Valid() && pc == Starting(MarkCancelable)
      modifies this`cancel, this`refs, this`routine, this`pc, this`trace, this`calls
      ensures Valid() && old(trace) <= trace && calls == old(calls) && pc == NextStart(kind, MarkCancelable)
    {
      ghost var before := View();
      LeadsToReached(trace, calls, before);
      MarkStep(before);
      cancel := Armed(current.value);
      SetReference(CancelRef);
      routine := true;
      pc := NextStart(kind, MarkCancelable);
      Record(before, Advance(false));
    }

    // Starts the total timer if a timeout applies; the request gains a reference if it was idle.
    method SetTotalTimer(use: bool)
      requires Valid() && pc == Starting(StartTotal)
      modifies this`total, this`refs, this`pc, this`trace, this`calls
      ensures Valid() && old(trace) <= trace && calls == old(calls) && pc == NextStart(kind, StartTotal)
    {
      ghost var before := View();
      LeadsToReached(trace, calls, before);
      TotalStep(before, use);
      if use {
        var result := total.Queued?;
        total := Queued(current.value);
        if !result { SetReference(TotalRef); }
      }
      pc := NextStart(kind, StartTotal);
      Record(before, Advance(use));
    }

    method SetIntervalTimer(use: bool)
      requires Valid() && pc == Starting(StartInterval)
      modifies this`interval, this`refs, this`pc, this`trace, this`calls
      ensures Valid() && old(trace) <= trace && calls == old(calls) && pc == NextStart(kind, StartInterval)
    {
      ghost var before := View();
      LeadsToReached(trace, calls, before);
      IntervalStep(before, use);
      if use {
        var result := interval.Queued?;
        interval := Queued(current.value);
        if !result { SetReference(IntervalRef); }
      }
      pc := NextStart(kind, StartInterval);
      Record(before, Advance(use));
    }

    // The synchronisation routine that hands the request to the ISR.
    method GiveToIsr()
      requires Valid() && pc == Starting(Give)
      modifies this`isr, this`refs, this`mark, this`pc, this`trace, this`calls
      ensures Valid() && old(trace) <= trace && calls == old(calls) && pc == NextStart(kind, Give)
    {
      ghost var before := View();
      LeadsToReached(trace, calls, before);
      GiveStep(before);
      SetReference(IsrRef);
      isr := current;
      if kind.Read? { mark := InProgress; }
      pc := NextStart(kind, Give);
      Record(before, Advance(false));
    }

    // SerialGiveWaitToIsr for a wait that an earlier event already satisfies: its completion DPC is queued.
    method CompleteAtOnce()
      requires Valid() && pc == Starting(Give) && kind.Wait?
      modifies this`dpc, this`refs, this`pc, this`trace, this`calls
      ensures Valid() && old(trace) <= trace && calls == old(calls) && pc == NextStart(kind, Give)
    {
      ghost var before := View();
      LeadsToReached(trace, calls, before);
      GiveStep(before);
      SetReference(IsrRef);
      dpc := current;
      pc := NextStart(kind, Give);
      Record(before, Advance(true));
    }

    // A read that the typeahead buffer satisfies completes without ever reaching the ISR.
    method FinishFromBuffer()
      requires Valid() && pc == Starting(Give) && kind.Read?
      modifies this`current, this`queue, this`routine, this`cancelled, this`past, this`pc, this`trace, this`calls
      ensures Valid() && old(trace) <= trace && calls == old(calls)
      ensures if current.Some? then |queue| < |old(queue)| && pc == Starting(Init) else pc.Resting?
    {
      ghost var before := View();
      LeadsToReached(trace, calls, before);
      FromBufferStep(before);
      GetNextRequest(Success);
      Record(before, Advance(true));
    }

    // ----- The start routines -----

    // SerialStartRead: reads that the typeahead buffer satisfies complete at once, the first other one
    // goes to the ISR.
    method StartRead()
      requires Valid() && kind.Read? && pc == Starting(Init)
      modifies this
      ensures Valid() && old(trace) <= trace && calls == old(calls) && pc.Resting?
    {
      var again := true;
      while again
        invariant Valid() && old(trace) <= trace && calls == old(calls)
        invariant if again then pc == Starting(Init) else pc.Resting?
        decreases if again then 1 + |queue| else 0
      {
        InitReference();
        Interrupts();
        var satisfied: bool := *;
        if satisfied {
          FinishFromBuffer();
          again := current.Some?;
        } else {
          SwitchToUser();
          again := false;
        }
      }
    }

    // The branch of SerialStartRead that lets the ISR fill the read.
    method SwitchToUser()
      requires Valid() && kind.Read? && pc == Starting(Give)
      modifies this
      ensures Valid() && old(trace) <= trace && calls == old(calls) && pc.Resting?
    {
      GiveToIsr();
      Interrupts();
      SetCancelRoutine();
      Interrupts();
      SetReadTimers();
    }

    method SetReadTimers()
      requires Valid() && kind.Read? && pc == Starting(StartTotal)
      modifies this
      ensures Valid() && old(trace) <= trace && calls == old(calls) && pc.Resting?
    {
      var useTotalTimer, useIntervalTimer: bool := *, *;
      SetTotalTimer(useTotalTimer);
      Interrupts();
      SetIntervalTimer(useIntervalTimer);
    }

    // SerialStartWrite and SerialStartImmediate.
    method StartWrite()
      requires Valid() && (kind.Write? || kind.Immediate?) && pc == Starting(Init)
      modifies this
      ensures Valid() && old(trace) <= trace && calls == old(calls) && pc.Resting?
    {
      InitReference();
      Interrupts();
      SetCancelRoutine();
      Interrupts();
      SetTimerAndGive();
    }

    method SetTimerAndGive()
      requires Valid() && (kind.Write? || kind.Immediate?) && pc == Starting(StartTotal)
      modifies this
      ensures Valid() && old(trace) <= trace && calls == old(calls) && pc.Resting?
    {
      var useATimer: bool := *;
      SetTotalTimer(useATimer);
      Interrupts();
      GiveToIsr();
    }

    // The part of SerialStartMask that starts a wait.
    method StartWait()
      requires Valid() && kind.Wait? && pc == Starting(Init)
      modifies this
      ensures Valid() && old(trace) <= trace && calls == old(calls) && pc.Resting?
    {
      InitReference();
      Interrupts();
      SetCancelRoutine();
      Interrupts();
      var satisfied: bool := *;
      if satisfied { CompleteAtOnce(); } else { GiveToIsr(); }
    }

    // The part of SerialGetNextWrite that activates an Xoff counter.
    method StartXoffCounter()
      requires Valid() && kind.XoffCounter? && pc == Starting(Init)
      modifies this
      ensures Valid() && old(trace) <= trace && calls == old(calls) && pc.Resting?
    {
      InitReference();
      Interrupts();
      SetCancelRoutine();
      Interrupts();
      GiveAndSetTimer();
    }

    method GiveAndSetTimer()
      requires Valid() && kind.XoffCounter? && pc == Starting(Give)
      modifies this
      ensures Valid() && old(trace) <= trace && calls == old(calls) && pc.Resting?
    {
      GiveToIsr();
      Interrupts();
      var useTimer: bool := *;
      SetTotalTimer(useTimer);
    }

    method Start()
      requires Valid() && pc == Starting(Init)
      modifies this
      ensures Valid() && old(trace) <= trace && calls == old(calls) && pc.Resting?
    {
      match kind
      case Read => StartRead();
      case Write => StartWrite();
      case Immediate => StartWrite();
      case Wait => StartWait();
      case XoffCounter => StartXoffCounter();
    }

    // ----- The atomic actions of SerialTryToCompleteCurrent -----

    method DropOwnReference(ref: Ref)
      requires Valid() && pc.Trying? && pc.at == DropOwn && pc.ref == ref
      modifies this`refs, this`pc, this`trace, this`calls
      ensures Valid() && old(trace) <= trace && calls == old(calls) && pc == old(pc).(at := Grab)
    {
      ghost var before := View();
      LeadsToReached(trace, calls, before);
      DropOwnStep(before);
      if ref == IsrRef || ref == XoffRef { ClearReference(ref); }
      pc := pc.(at := Grab);
      Record(before, Advance(false));
    }

    // The synchronisation routines that take the request back from the ISR.
    method GrabFromIsr(sync: bool)
      requires Valid() && pc.Trying? && pc.at == Grab && pc.sync == sync
      modifies this`refs, this`isr, this`pc, this`trace, this`calls
      ensures Valid() && old(trace) <= trace && calls == old(calls) && pc == old(pc).(at := DropCancel)
    {
      ghost var before := View();
      LeadsToReached(trace, calls, before);
      GrabStep(before);
      if sync && isr.Some? {
        isr := None;
        ClearReference(IsrRef);
      }
      pc := pc.(at := DropCancel);
      Record(before, Advance(false));
    }

    method DropCancelReference(ref: Ref)
      requires Valid() && pc.Trying? && pc.at == DropCancel && pc.ref == ref
      modifies this`refs, this`cancel, this`routine, this`pc, this`trace, this`calls
      ensures Valid() && old(trace) <= trace && calls == old(calls) && pc == old(pc).(at := StopInterval)
    {
      ghost var before := View();
      LeadsToReached(trace, calls, before);
      DropCancelStep(before);
      if ref == CancelRef {
        ClearReference(CancelRef);
        routine := false;
      } else {
        var ok := ClearCancelRoutine(true);
      }
      pc := pc.(at := StopInterval);
      Record(before, Advance(false));
    }

    // A timer that was still queued gives its reference back; so does one whose callback is running.
    method GiveBackInterval(ref: Ref)
      requires Reached(View()) && pc.Trying? && pc.at == StopInterval && pc.ref == ref
      modifies this`refs, this`interval, this`pc
      ensures Moves(old(View()), Advance(false), View())
      ensures pc == old(pc).(at := StopTotal)
    {
      StopIntervalStep(View());
      if kind.Read? {
        var wasQueued := CancelIntervalTimer();
        if wasQueued || ref == IntervalRef { ClearReference(IntervalRef); }
      }
      pc := pc.(at := StopTotal);
    }

    method StopIntervalTimer(ref: Ref)
      requires Valid() && pc.Trying? && pc.at == StopInterval && pc.ref == ref
      modifies this`refs, this`interval, this`pc, this`trace, this`calls
      ensures Valid() && old(trace) <= trace && calls == old(calls) && pc == old(pc).(at := StopTotal)
    {
      ghost var before := View();
      LeadsToReached(trace, calls, before);
      GiveBackInterval(ref);
      Record(before, Advance(false));
    }

    method GiveBackTotal(ref: Ref)
      requires Reached(View()) && pc.Trying? && pc.at == StopTotal && pc.ref == ref
      modifies this`refs, this`total, this`pc
      ensures Moves(old(View()), Advance(false), View())
      ensures pc == old(pc).(at := Finish)
    {
      StopTotalStep(View());
      if !kind.Wait? && !(kind.XoffCounter? && ref == TotalRef) {
        var wasQueued := CancelTotalTimer();
        if wasQueued || ref == TotalRef { ClearReference(TotalRef); }
      }
      pc := pc.(at := Finish);
    }

    method StopTotalTimer(ref: Ref)
      requires Valid() && pc.Trying? && pc.at == StopTotal && pc.ref == ref
      modifies this`refs, this`total, this`pc, this`trace, this`calls
      ensures Valid() && old(trace) <= trace && calls == old(calls) && pc == old(pc).(at := Finish)
    {
      ghost var before := View();
      LeadsToReached(trace, calls, before);
      GiveBackTotal(ref);
      Record(before, Advance(false));
    }

    // Completes the request if nobody holds it any more; `started` says that another one must be started.
    method CompleteIfFree(status: Status) returns (started: bool)
      requires Valid() && pc.Trying? && pc.at == Finish && pc.status == status
      modifies this`current, this`queue, this`routine, this`cancelled, this`past, this`pc, this`trace, this`calls
      ensures Valid() && old(trace) <= trace && calls == old(calls)
      ensures pc == if started then Starting(Init) else Resting
    {
      ghost var before := View();
      LeadsToReached(trace, calls, before);
      FinishStep(before);
      started := false;
      if refs == NO_REFS {
        GetNextRequest(status);
        started := current.Some?;
      } else {
        // A request that was cancelled is not marked cancelable again.
        if status == Cancelled { cancelled := true; }
        pc := Resting;
      }
      Record(before, Advance(false));
    }

    // ----- SerialRundownIrpRefs and SerialTryToCompleteCurrent -----

    method RundownIrpRefs(ref: Ref)
      requires Valid() && pc.Trying? && pc.at == DropCancel && pc.ref == ref
      modifies this
      ensures Valid() && old(trace) <= trace && calls == old(calls) && pc == old(pc).(at := Finish)
    {
      DropCancelReference(ref);
      Interrupts();
      StopIntervalTimer(ref);
      Interrupts();
      StopTotalTimer(ref);
    }

    method TryToCompleteCurrent(sync: bool, status: Status, ref: Ref)
      requires Valid() && pc == Try(ref, sync, status)
      modifies this
      ensures Valid() && old(trace) <= trace && calls == old(calls) && pc.Resting?
    {
      DropOwnReference(ref);
      Interrupts();
      GrabAndComplete(sync, status, ref);
    }

    method GrabAndComplete(sync: bool, status: Status, ref: Ref)
      requires Valid() && pc == Trying(Grab, ref, sync, status)
      modifies this
      ensures Valid() && old(trace) <= trace && calls == old(calls) && pc.Resting?
    {
      GrabFromIsr(sync);
      Interrupts();
      RundownAndComplete(status, ref);
    }

    method RundownAndComplete(status: Status, ref: Ref)
      requires Valid() && pc.Trying? && pc.at == DropCancel && pc.ref == ref && pc.status == status
      modifies this
      ensures Valid() && old(trace) <= trace && calls == old(calls) && pc.Resting?
    {
      RundownIrpRefs(ref);
      Interrupts();
      var started := CompleteIfFree(status);
      if started {
        Interrupts();
        Start();
      }
    }

    // ----- The callbacks -----

    // SerialCompleteRead, SerialCompleteWrite, SerialCompleteImmediate, SerialCompleteWait, SerialCompleteXoff.
    method CompletionDpc()
      requires Valid() && pc.Resting? && dpc.Some?
      modifies this
      ensures Valid() && old(trace) + [RunDpc] <= trace && calls == old(calls) + [RunDpc] && pc.Resting?
    {
      ghost var before := View();
      LeadsToReached(trace, calls, before);
      CallbackSteps(before);
      dpc, mark, pc := None, MarkComplete, Try(IsrRef, false, Success);
      Record(before, RunDpc);
      Interrupts();
      TryToCompleteCurrent(false, Success, IsrRef);
    }

    // SerialCancelCurrentRead, SerialCancelCurrentWrite, SerialCancelImmediate, SerialCancelWait,
    // SerialCancelCurrentXoff, called by the framework.
    method CancelRoutine()
      requires Valid() && pc.Resting? && cancel.CancelDue?
      modifies this
      ensures Valid() && old(trace) + [RunCancel] <= trace && calls == old(calls) + [RunCancel] && pc.Resting?
    {
      ghost var before := View();
      LeadsToReached(trace, calls, before);
      CallbackSteps(before);
      cancel, mark, pc := NotCancelable, MarkCancel, Try(CancelRef, true, Cancelled);
      Record(before, RunCancel);
      Interrupts();
      TryToCompleteCurrent(true, Cancelled, CancelRef);
    }

    // SerialReadTimeout, SerialWriteTimeout, SerialTimeoutImmediate, SerialTimeoutXoff.
    method TotalTimeout()
      requires Valid() && pc.Resting? && total.Due?
      modifies this
      ensures Valid() && old(trace) + [RunTotal] <= trace && calls == old(calls) + [RunTotal] && pc.Resting?
    {
      ghost var before := View();
      LeadsToReached(trace, calls, before);
      CallbackSteps(before);
      total, mark, pc := Idle, MarkTotal, Try(TotalRef, true, TimedOut);
      Record(before, RunTotal);
      Interrupts();
      TryToCompleteCurrent(true, TimedOut, TotalRef);
    }

    // The decision of SerialIntervalReadTimeout; `active` says that bytes have arrived, or that the
    // interval has not passed yet, since the last one.
    method JudgeInterval(active: bool) returns (expired: bool)
      requires Valid() && pc.Judging?
      modifies this`interval, this`pc, this`trace, this`calls
      ensures Valid() && old(trace) <= trace && calls == old(calls)
      ensures pc == if expired then Try(IntervalRef, true, Verdict(mark)) else Resting
    {
      ghost var before := View();
      LeadsToReached(trace, calls, before);
      JudgeStep(before, active);
      expired := !(mark.InProgress? && active);
      if expired {
        pc := Try(IntervalRef, true, Verdict(mark));
      } else {
        interval, pc := Queued(current.value), Resting;
      }
      Record(before, Advance(active));
    }

    // SerialIntervalReadTimeout.
    method IntervalTimeout()
      requires Valid() && pc.Resting? && interval.Due?
      modifies this
      ensures Valid() && old(trace) + [RunInterval] <= trace && calls == old(calls) + [RunInterval] && pc.Resting?
    {
      ghost var before := View();
      LeadsToReached(trace, calls, before);
      CallbackSteps(before);
      interval, pc := Idle, Judging;
      Record(before, RunInterval);
      Interrupts();
      JudgeAndComplete();
    }

    method JudgeAndComplete()
      requires Valid() && pc.Judging?
      modifies this
      ensures Valid() && old(trace) <= trace && calls == old(calls) && pc.Resting?
    {
      var active: bool := *;
      var expired := JudgeInterval(active);
      if expired { TryToCompleteCurrent(true, Verdict(mark), IntervalRef); }
    }

    // The part of SerialStartWrite that pushes an active Xoff counter out of the way.
    method DisplaceXoffCounter()
      requires Valid() && pc.Resting? && kind.XoffCounter? && current.Some? && refs != NO_REFS
      modifies this
      ensures Valid() && old(trace) + [Displace] <= trace && calls == old(calls) + [Displace] && pc.Resting?
    {
      ghost var before := View();
      LeadsToReached(trace, calls, before);
      DisplaceStep(before);
      SetReference(XoffRef);
      pc := Try(XoffRef, true, MoreWrites);
      Record(before, Displace);
      Interrupts();
      TryToCompleteCurrent(true, MoreWrites, XoffRef);
    }

    method MakeCurrent(id: Id)
      requires Valid() && pc.Resting? && MaySubmit(View(), id) && current.None?
      modifies this
      ensures Valid() && trace == old(trace) + [Submit(id)] && calls == old(calls) + [Submit(id)]
      ensures pc == Starting(Init) && past.failed == old(past.failed)
    {
      ghost var before := View();
      LeadsToReached(trace, calls, before);
      SubmitStep(before, id);
      past := past.(accepted := past.accepted + {id});
      current, refs, routine, cancelled, pc := Some(id), NO_REFS, false, false, Starting(Init);
      Record(before, Submit(id));
    }

    // CurrentXoffRequest is overwritten: the request it named keeps its cancel routine.
    method LoseCounter()
      requires current.Some?
      modifies this`past, this`cancel
      ensures past == old(past).(failed := true, lost := old(past).lost + [Lost(current.value, old(cancel))])
      ensures cancel == NotCancelable
    {
      past := past.(failed := true, lost := past.lost + [Lost(current.value, cancel)]);
      cancel := NotCancelable;
    }

    // SerialGetNextWrite makes a finished Xoff counter the active one without looking whether there is one.
    method ReplaceCounter(id: Id)
      requires Valid() && pc.Resting? && MaySubmit(View(), id) && kind.XoffCounter? && current.Some?
      modifies this
      ensures Valid() && trace == old(trace) + [Submit(id)] && calls == old(calls) + [Submit(id)]
      ensures pc == Starting(Init) && past.failed && current == Some(id)
    {
      ghost var before := View();
      ReplaceStep(before, id);
      LoseCounter();
      past := past.(accepted := past.accepted + {id});
      current, refs, routine, cancelled, pc := Some(id), NO_REFS, false, false, Starting(Init);
      Record(before, Submit(id));
    }

    method JoinQueue(id: Id)
      requires Valid() && pc.Resting? && MaySubmit(View(), id) && !kind.XoffCounter? && current.Some?
      modifies this
      ensures Valid() && trace == old(trace) + [Submit(id)] && calls == old(calls) + [Submit(id)]
      ensures pc.Resting? && past.failed == old(past.failed) && queue == old(queue) + [id]
    {
      ghost var before := View();
      LeadsToReached(trace, calls, before);
      SubmitStep(before, id);
      past := past.(accepted := past.accepted + {id});
      queue := queue + [id];
      Record(before, Submit(id));
    }

    // SerialStartOrQueue, and for a counter the end of SerialGetNextWrite.
    method StartOrQueue(id: Id)
      requires Valid() && pc.Resting? && MaySubmit(View(), id)
      modifies this
      ensures Valid() && old(trace) + [Submit(id)] <= trace && calls == old(calls) + [Submit(id)] && pc.Resting?
    {
      LeadsToReached(trace, calls, View());
      SubmitStep(View(), id);
      if queue == [] && current.None? {
        MakeCurrent(id);
        Start();
      } else if kind.XoffCounter? {
        ReplaceCounter(id);
        Start();
      } else {
        JoinQueue(id);
      }
    }

    // The part of SerialGetNextWrite for an Xoff counter that ends as a write and does not become active.
    method EndAsWrite()
      requires Valid() && Enabled(View(), Event.EndAsWrite)
      modifies this`past, this`trace, this`calls
      ensures Valid() && trace == old(trace) + [Event.EndAsWrite] && calls == old(calls) + [Event.EndAsWrite]
      ensures past.failed == (old(past.failed) || current.Some?)
    {
      ghost var before := View();
      OtherSteps(before);
      if current.Some? { past := past.(failed := true); }
      Record(before, Event.EndAsWrite);
    }

    // An Xoff counter is to be sent as a write; the driver sees that from the request itself.
    ghost method Declare(id: Id)
      requires Valid() && kind.Write? && id !in past.accepted
      modifies this`past, this`trace, this`calls
      ensures Valid() && trace == old(trace) + [Event.Declare(id)] && past == old(past).(counters := old(past).counters + {id})
    {
      ghost var before := View();
      OtherSteps(before);
      past := past.(counters := past.counters + {id});
      Record(before, Event.Declare(id));
    }

    // SerialEvtCanceledOnQueue.
    method CanceledOnQueue(i: nat)
      requires Valid() && pc.Resting? && i < |queue|
      modifies this
      ensures Valid() && trace == old(trace) + [CancelQueued(i)] && pc.Resting?
      ensures current == old(current) && queue == old(queue[..i] + queue[i + 1..])
    {
      ghost var before := View();
      OtherSteps(before);
      past := past.(done := past.done + [Done(queue[i], Cancelled)]);
      queue := queue[..i] + queue[i + 1..];
      Record(before, CancelQueued(i));
    }

    // SerialPurgeRequests: `called` says that it calls the current request's cancel routine.
    method SweepAndUnmark() returns (called: bool)
      requires Valid() && pc.Resting? && (HasQueue(kind) || kind.XoffCounter?)
      modifies this
      ensures Valid() && trace == old(trace) + [Purge] && calls == old(calls) + [Purge] && queue == []
      ensures pc == if called then Try(CancelRef, true, Cancelled) else Resting
    {
      ghost var before := View();
      LeadsToReached(trace, calls, before);
      PurgeIs(before);
      past, queue := past.(done := past.done + Swept(queue)), [];
      called := UnmarkAndCall();
      Record(before, Purge);
    }

    method UnmarkAndCall() returns (called: bool)
      requires current.None? ==> !refs.Has(CancelRef)
      modifies this`cancel, this`routine, this`refs, this`mark, this`pc
      ensures called == old(CallsCancel(View()))
      ensures View() == old(Purged(View()))
    {
      called := false;
      if current.Some? {
        var hadRoutine := routine;
        var ok := ClearCancelRoutine(false);
        if ok && hadRoutine {
          called := true;
          mark, pc := MarkCancel, Try(CancelRef, true, Cancelled);
        }
      }
    }

    method PurgeRequests()
      requires Valid() && pc.Resting? && (HasQueue(kind) || kind.XoffCounter?)
      modifies this
      ensures Valid() && old(trace) + [Purge] <= trace && calls == old(calls) + [Purge] && pc.Resting?
    {
      var called := SweepAndUnmark();
      if called {
        Interrupts();
        TryToCompleteCurrent(true, Cancelled, CancelRef);
      }
    }
  }
}
