/** The ownership invariant over the runs of a slot: what each reference bit means, and that every request is in
    one place.  Every step keeps it, except that an Xoff counter may take over from one that a callback still
    knows; that breaks the meaning of the bits, but still loses no track of a request. */
module OwnershipInvariant {
  import opened Prelude
  import opened Ownership

  // ----- The order of the atomic actions -----

  function TryRank(op: TryOp): nat {
    match op
    case DropOwn => 0
    case Grab => 1
    case DropCancel => 2
    case StopInterval => 3
    case StopTotal => 4
    case Finish => 5
  }

  // The action at which a callback gives up the reference on whose behalf it was called.
  function DropsAt(r: Ref): TryOp {
    match r
    case IsrRef => DropOwn
    case CancelRef => DropCancel
    case IntervalRef => StopInterval
    case TotalRef => StopTotal
    case XoffRef => DropOwn
  }

  function StartRank(k: Kind, op: StartOp): nat {
    match op
    case Init => 0
    case Give => if k.Read? then 1 else if k.XoffCounter? then 3 else 5
    case MarkCancelable => 2
    case StartTotal => 4
    case StartInterval => 6
  }

  // A reference whose cause has been used up by the running callback, which has not dropped it yet.
  predicate Held(pc: Pc, r: Ref) {
    match pc
    case Trying(at, ref, _, _) => r == ref && TryRank(at) <= TryRank(DropsAt(ref))
    case Judging => r == IntervalRef
    case _ => false
  }

  // ----- The invariant -----

  predicate IsrPending(s: Slot) { s.isr.Some? || s.dpc.Some? }

  // The total timer of an Xoff counter has had its callback, which kept its reference.
  predicate Leaked(s: Slot) {
    && s.kind == XoffCounter
    && s.refs.Has(TotalRef)
    && s.total == Idle
    && !Held(s.pc, TotalRef)
  }

  // Each bit is set exactly when what it stands for is pending, or in the hands of the running callback.
  predicate BitsMean(s: Slot) {
    && (s.refs.Has(IsrRef) <==> (IsrPending(s) || Held(s.pc, IsrRef)))
    && (s.refs.Has(CancelRef) <==> (s.cancel != NotCancelable || Held(s.pc, CancelRef)))
    && (s.refs.Has(TotalRef) <==> (s.total != Idle || Held(s.pc, TotalRef) || Leaked(s)))
    && (s.refs.Has(IntervalRef) <==> (s.interval != Idle || Held(s.pc, IntervalRef)))
    && (s.refs.Has(XoffRef) <==> Held(s.pc, XoffRef))
  }

  predicate TimerFor(t: Timer, id: Option<Id>) { t != Idle ==> id == Some(t.req) }

  // Whatever is pending, is pending for the current request.
  predicate ForCurrent(s: Slot) {
    && (s.isr.Some? ==> s.isr == s.current)
    && (s.dpc.Some? ==> s.dpc == s.current)
    && (s.cancel != NotCancelable ==> s.current == Some(s.cancel.req))
    && TimerFor(s.total, s.current)
    && TimerFor(s.interval, s.current)
  }

  // What the running callback has already taken away stays away.
  predicate PcMeans(s: Slot) {
    match s.pc
    case Resting => true
    case Judging => s.current.Some? && s.kind.Read? && s.interval == Idle
    case Trying(at, ref, sync, _) =>
      && s.current.Some?
      && (ref == IsrRef ==> !IsrPending(s))
      && (ref == CancelRef ==> s.cancel == NotCancelable)
      && (ref == TotalRef ==> s.total == Idle && s.kind != Wait)
      && (ref == IntervalRef ==> s.interval == Idle && s.kind.Read?)
      && (ref == XoffRef ==> s.kind == XoffCounter)
      && (sync || ref == IsrRef)
      && (TryRank(at) > TryRank(Grab) ==> s.isr.None?)
      && (TryRank(at) > TryRank(DropCancel) ==> !s.cancel.Armed?)
      && (TryRank(at) > TryRank(StopInterval) ==> !s.interval.Queued?)
      && (TryRank(at) > TryRank(StopTotal) ==> !s.total.Queued?)
      && (s.kind.Read? && s.mark.InProgress? ==> ref == IntervalRef)
    case Starting(op) =>
      && s.current.Some?
      && (StartRank(s.kind, op) <= StartRank(s.kind, Give) ==> !IsrPending(s))
      && (StartRank(s.kind, op) <= StartRank(s.kind, MarkCancelable) ==> s.cancel == NotCancelable)
      && (StartRank(s.kind, op) <= StartRank(s.kind, StartTotal) ==> s.total == Idle && !s.refs.Has(TotalRef))
      && (StartRank(s.kind, op) <= StartRank(s.kind, StartInterval) ==> s.interval == Idle)
      && (op == StartTotal ==> s.kind != Wait)
      && (op == StartInterval ==> s.kind.Read?)
  }

  // No cancel routine of a replaced Xoff counter can run any more.
  predicate Quiet(lost: seq<Lost>) { forall k :: 0 <= k < |lost| ==> lost[k].cancel == NotCancelable }

  predicate Shape(s: Slot) {
    && !s.failed
    && (s.current.None? ==> s.pc.Resting? && s.refs == NO_REFS && s.queue == [] && s.isr.None? && s.dpc.None?)
    && !(s.isr.Some? && s.dpc.Some?)
    && Quiet(s.lost) && s.aside.strays == []
    && (s.routine ==> s.refs.Has(CancelRef))
    && (s.cancel != NotCancelable ==> s.routine)
    && (!s.kind.Read? ==> s.interval == Idle)
    && (s.kind == Wait ==> s.total == Idle)
    && (!HasQueue(s.kind) ==> s.queue == [])
  }

  function CurrentIds(s: Slot): multiset<Id> { if s.current.Some? then multiset{s.current.value} else multiset{} }

  function DoneIds(done: seq<Done>): seq<Id> { seq(|done|, i requires 0 <= i < |done| => done[i].id) }

  function LostIds(lost: seq<Lost>): seq<Id> { seq(|lost|, i requires 0 <= i < |lost| => lost[i].id) }

  // Every place a request can be in.
  function Everything(s: Slot): multiset<Id> {
    CurrentIds(s) + multiset(s.queue) + multiset(DoneIds(s.done)) + multiset(LostIds(s.lost))
  }

  predicate EachOnce(s: Slot) { Everything(s) == multiset(s.accepted) }

  predicate Safe(s: Slot) { Shape(s) && BitsMean(s) && ForCurrent(s) && PcMeans(s) }

  // Safe, but an assertion may have failed on the way.
  predicate Sound(s: Slot) { Safe(s.(failed := false)) }

  predicate Inv(s: Slot) { Sound(s) && EachOnce(s) }

  // ----- Requests are neither lost nor duplicated -----

  lemma DoneIdsAppend(a: seq<Done>, b: seq<Done>)
    ensures multiset(DoneIds(a + b)) == multiset(DoneIds(a)) + multiset(DoneIds(b))
  {
    assert DoneIds(a + b) == DoneIds(a) + DoneIds(b);
  }

  lemma CompleteCurrentKeeps(s: Slot, status: Status)
    requires s.current.Some?
    ensures Everything(CompleteCurrent(s, status)) == Everything(s)
  {
    var last := Done(s.current.value, EndOf(s, status));
    DoneIdsAppend(s.done, [last]);
    assert DoneIds([last]) == [s.current.value];
    if s.queue != [] { assert s.queue == [s.queue[0]] + s.queue[1..]; }
  }

  lemma PurgeSweeps(s: Slot)
    ensures var t := PurgeStep(s);
            && t.current == s.current && t.queue == [] && t.done == s.done + Swept(s.queue)
            && t.accepted == s.accepted && t.lost == s.lost
  {
  }

  lemma PurgeKeeps(s: Slot)
    ensures Everything(PurgeStep(s)) == Everything(s)
  {
    PurgeSweeps(s);
    DoneIdsAppend(s.done, Swept(s.queue));
    assert DoneIds(Swept(s.queue)) == s.queue;
  }

  lemma CancelQueuedKeeps(s: Slot, i: nat)
    requires Enabled(s, CancelQueued(i))
    ensures Everything(Step(s, CancelQueued(i))) == Everything(s)
  {
    var t := Step(s, CancelQueued(i));
    assert t.current == s.current && t.lost == s.lost && t.done == s.done + [Done(s.queue[i], Cancelled)];
    DoneIdsAppend(s.done, [Done(s.queue[i], Cancelled)]);
    assert DoneIds([Done(s.queue[i], Cancelled)]) == [s.queue[i]];
    assert s.queue == s.queue[..i] + [s.queue[i]] + s.queue[i + 1..];
    assert multiset(s.queue) == multiset(t.queue) + multiset{s.queue[i]};
  }

  predicate SameRequests(s: Slot, t: Slot) {
    && t.current == s.current && t.queue == s.queue && t.done == s.done && t.accepted == s.accepted
    && LostIds(t.lost) == LostIds(s.lost)
  }

  // The next action of the running callback completes the current request.
  predicate Completes(s: Slot, choice: bool) {
    || (s.pc == Starting(Give) && s.kind.Read? && choice)
    || (s.pc.Trying? && s.pc.at == Finish && s.refs == NO_REFS)
  }

  function CompletionStatus(s: Slot): Status { if s.pc.Trying? then s.pc.status else Success }

  lemma CompletingStep(s: Slot, choice: bool)
    requires Completes(s, choice) && s.current.Some?
    ensures Step(s, Advance(choice)) == CompleteCurrent(s, CompletionStatus(s))
  {
  }

  lemma StartKeepsRequests(s: Slot, choice: bool)
    requires s.pc.Starting? && s.current.Some? && !Completes(s, choice)
    ensures SameRequests(s, StartStep(s, choice))
  {
  }

  lemma TryKeepsRequests(s: Slot)
    requires s.pc.Trying? && s.current.Some? && !Completes(s, false)
    ensures SameRequests(s, TryStep(s))
  {
  }

  lemma AdvanceKeepsRequests(s: Slot, choice: bool)
    requires !s.pc.Resting? && s.current.Some? && !Completes(s, choice)
    ensures SameRequests(s, Step(s, Advance(choice)))
  {
    match s.pc
    case Starting(_) => StartKeepsRequests(s, choice);
    case Trying(_, _, _, _) => TryKeepsRequests(s);
    case _ =>
  }

  lemma CallsKeepRequests(s: Slot, e: Event)
    requires Enabled(s, e) && (Environmental(e) || CallbackStart(e))
    ensures SameRequests(s, Step(s, e))
  {
  }

  lemma SubmitStarts(s: Slot, id: Id)
    requires EachOnce(s) && Enabled(s, Submit(id)) && s.queue == [] && s.current.None?
    ensures EachOnce(Step(s, Submit(id)))
  {
    var t := Step(s, Submit(id));
    assert t.queue == s.queue && t.done == s.done && t.lost == s.lost && t.accepted == s.accepted + {id};
    assert CurrentIds(t) == multiset{id} && CurrentIds(s) == multiset{};
    assert multiset(s.accepted + {id}) == multiset(s.accepted) + multiset{id};
  }

  lemma SubmitQueues(s: Slot, id: Id)
    requires EachOnce(s) && Enabled(s, Submit(id)) && !(s.queue == [] && s.current.None?) && !Overwrites(s, Submit(id))
    ensures EachOnce(Step(s, Submit(id)))
  {
    var t := Step(s, Submit(id));
    assert t.current == s.current && t.done == s.done && t.lost == s.lost && t.accepted == s.accepted + {id};
    assert multiset(t.queue) == multiset(s.queue) + multiset{id};
    assert multiset(s.accepted + {id}) == multiset(s.accepted) + multiset{id};
  }

  lemma OverwriteAdds(s: Slot, id: Id)
    requires EachOnce(s) && Enabled(s, Submit(id)) && Overwrites(s, Submit(id))
    ensures EachOnce(Step(s, Submit(id)))
  {
    var t := Step(s, Submit(id));
    assert t.done == s.done && t.accepted == s.accepted + {id} && t.queue == s.queue;
    assert CurrentIds(t) == multiset{id} && CurrentIds(s) == multiset{s.current.value};
    assert LostIds(t.lost) == LostIds(s.lost) + [s.current.value];
    assert multiset(s.accepted + {id}) == multiset(s.accepted) + multiset{id};
  }

  lemma SubmitKeepsEachOnce(s: Slot, id: Id)
    requires EachOnce(s) && Enabled(s, Submit(id))
    ensures EachOnce(Step(s, Submit(id)))
  {
    if s.queue == [] && s.current.None? {
      SubmitStarts(s, id);
    } else if Overwrites(s, Submit(id)) {
      OverwriteAdds(s, id);
    } else {
      SubmitQueues(s, id);
    }
  }

  lemma SameKeepsEachOnce(s: Slot, t: Slot)
    requires EachOnce(s) && SameRequests(s, t)
    ensures EachOnce(t)
  {
  }

  lemma CompletionKeepsEachOnce(s: Slot, status: Status)
    requires EachOnce(s) && s.current.Some?
    ensures EachOnce(CompleteCurrent(s, status))
  {
    CompleteCurrentKeeps(s, status);
    assert CompleteCurrent(s, status).accepted == s.accepted;
  }

  lemma AdvanceKeepsEachOnce(s: Slot, choice: bool)
    requires EachOnce(s) && !s.pc.Resting?
    ensures EachOnce(Step(s, Advance(choice)))
  {
    if s.current.Some? {
      if Completes(s, choice) {
        CompletingStep(s, choice);
        CompletionKeepsEachOnce(s, CompletionStatus(s));
      } else {
        AdvanceKeepsRequests(s, choice);
        SameKeepsEachOnce(s, Step(s, Advance(choice)));
      }
    }
  }

  // Displace, EndAsWrite and RunLostCancel; the environment and the callbacks.
  lemma OthersKeepEachOnce(s: Slot, e: Event)
    requires EachOnce(s) && Enabled(s, e) && !e.Submit? && !e.CancelQueued? && !e.Purge? && !e.Advance?
    ensures EachOnce(Step(s, e))
  {
    if Environmental(e) || CallbackStart(e) {
      CallsKeepRequests(s, e);
    } else if e.RunLostCancel? {
      assert LostIds(Step(s, e).lost) == LostIds(s.lost);
    }
    SameKeepsEachOnce(s, Step(s, e));
  }

  lemma PurgeKeepsEachOnce(s: Slot)
    requires EachOnce(s) && Enabled(s, Purge)
    ensures EachOnce(Step(s, Purge))
  {
    PurgeSweeps(s);
    PurgeKeeps(s);
  }

  // Every accepted request stays in one place, whatever else has gone wrong.
  lemma StepKeepsEachOnce(s: Slot, e: Event)
    requires EachOnce(s) && Enabled(s, e)
    ensures EachOnce(Step(s, e))
  {
    match e
    case Submit(id) => SubmitKeepsEachOnce(s, id);
    case CancelQueued(i) => CancelQueuedKeeps(s, i);
    case Purge => PurgeKeepsEachOnce(s);
    case Advance(choice) => AdvanceKeepsEachOnce(s, choice);
    case _ => OthersKeepEachOnce(s, e);
  }

  // ----- Every step keeps the invariant -----

  lemma CompletionKeepsSafe(s: Slot, status: Status)
    requires Safe(s) && s.current.Some? && s.refs == NO_REFS
    ensures Safe(CompleteCurrent(s, status))
  {
  }

  lemma InitKeepsSafe(s: Slot, choice: bool)
    requires Safe(s) && s.pc == Starting(Init)
    ensures Safe(StartStep(s, choice))
  {
  }

  lemma GiveKeepsSafe(s: Slot, choice: bool)
    requires Safe(s) && s.pc == Starting(Give)
    ensures Safe(StartStep(s, choice))
  {
    if s.kind.Read? && choice {
      assert s.refs == NO_REFS;
      CompletionKeepsSafe(s, Success);
    }
  }

  lemma MarkKeepsSafe(s: Slot, choice: bool)
    requires Safe(s) && s.pc == Starting(MarkCancelable)
    ensures Safe(StartStep(s, choice))
  {
  }

  lemma StartTimersKeepSafe(s: Slot, choice: bool)
    requires Safe(s) && (s.pc == Starting(StartTotal) || s.pc == Starting(StartInterval))
    ensures Safe(StartStep(s, choice))
  {
    if choice {
    }
  }

  lemma StartStepKeepsSafe(s: Slot, choice: bool)
    requires Safe(s) && s.pc.Starting?
    ensures Safe(StartStep(s, choice))
  {
    match s.pc.op
    case Init => InitKeepsSafe(s, choice);
    case Give => GiveKeepsSafe(s, choice);
    case MarkCancelable => MarkKeepsSafe(s, choice);
    case StartTotal => StartTimersKeepSafe(s, choice);
    case StartInterval => StartTimersKeepSafe(s, choice);
  }

  lemma DropOwnKeepsSafe(s: Slot)
    requires Safe(s) && s.pc.Trying? && s.pc.at == DropOwn
    ensures Safe(TryStep(s))
  {
  }

  lemma GrabKeepsSafe(s: Slot)
    requires Safe(s) && s.pc.Trying? && s.pc.at == Grab
    ensures Safe(TryStep(s))
  {
  }

  lemma DropCancelKeepsSafe(s: Slot)
    requires Safe(s) && s.pc.Trying? && s.pc.at == DropCancel
    ensures Safe(TryStep(s))
  {
  }

  lemma StopIntervalKeepsSafe(s: Slot)
    requires Safe(s) && s.pc.Trying? && s.pc.at == StopInterval
    ensures Safe(TryStep(s))
  {
    if s.kind != Read {
    } else if s.interval.Queued? {
    } else if s.pc.ref == IntervalRef {
    }
  }

  lemma GiveBackTotalKeepsSafe(s: Slot)
    requires Safe(s) && s.pc.Trying? && s.pc.at == StopTotal && (s.total.Queued? || s.pc.ref == TotalRef)
    requires s.kind != Wait && !(s.kind == XoffCounter && s.pc.ref == TotalRef)
    ensures Safe(TryStep(s))
  {
    if s.total.Queued? {
    }
  }

  lemma StopTotalKeepsSafe(s: Slot)
    requires Safe(s) && s.pc.Trying? && s.pc.at == StopTotal
    ensures Safe(TryStep(s))
  {
    if s.kind == Wait || (s.kind == XoffCounter && s.pc.ref == TotalRef) || !(s.total.Queued? || s.pc.ref == TotalRef) {
      assert TryStep(s) == s.(pc := s.pc.(at := Finish));
    } else {
      GiveBackTotalKeepsSafe(s);
    }
  }

  lemma FinishKeepsSafe(s: Slot)
    requires Safe(s) && s.pc.Trying? && s.pc.at == Finish
    ensures Safe(TryStep(s))
  {
    if s.refs == NO_REFS { CompletionKeepsSafe(s, s.pc.status); }
  }

  lemma TryStepKeepsSafe(s: Slot)
    requires Safe(s) && s.pc.Trying?
    ensures Safe(TryStep(s))
  {
    match s.pc.at
    case DropOwn => DropOwnKeepsSafe(s);
    case Grab => GrabKeepsSafe(s);
    case DropCancel => DropCancelKeepsSafe(s);
    case StopInterval => StopIntervalKeepsSafe(s);
    case StopTotal => StopTotalKeepsSafe(s);
    case Finish => FinishKeepsSafe(s);
  }

  lemma EnvironmentKeepsSafe(s: Slot, e: Event)
    requires Safe(s) && Enabled(s, e) && Environmental(e)
    ensures Safe(Step(s, e))
  {
  }

  lemma CallbackKeepsSafe(s: Slot, e: Event)
    requires Safe(s) && Enabled(s, e) && CallbackStart(e)
    ensures Safe(Step(s, e))
  {
  }

  lemma PurgeKeepsSafe(s: Slot)
    requires Safe(s) && Enabled(s, Purge)
    ensures Safe(Step(s, Purge))
  {
  }

  lemma DisplaceKeepsSafe(s: Slot)
    requires Safe(s) && Enabled(s, Displace)
    ensures Safe(Step(s, Displace))
  {
  }

  lemma JudgeKeepsSafe(s: Slot, choice: bool)
    requires Safe(s) && s.pc.Judging?
    ensures Safe(Judge(s, choice))
  {
  }

  lemma StepKeepsSafe(s: Slot, e: Event)
    requires Safe(s) && Enabled(s, e) && !Asserts(s, e)
    ensures Safe(Step(s, e))
  {
    if Environmental(e) {
      EnvironmentKeepsSafe(s, e);
    } else if CallbackStart(e) {
      CallbackKeepsSafe(s, e);
    } else {
      match e
      case Purge => PurgeKeepsSafe(s);
      case Displace => DisplaceKeepsSafe(s);
      case Advance(choice) =>
        match s.pc {
          case Starting(_) => StartStepKeepsSafe(s, choice);
          case Trying(_, _, _, _) => TryStepKeepsSafe(s);
          case Judging => JudgeKeepsSafe(s, choice);
          case _ =>
        }
      case _ =>
    }
  }

  // ----- A failed assertion is only recorded -----

  function Clean(s: Slot): Slot { s.(failed := false) }

  // A step goes the same way whether or not an assertion has failed before.
  predicate Agree(s: Slot, t: Slot, u: Slot) { Clean(t) == Clean(u) && t.failed == (s.failed || u.failed) }

  lemma CompletionAgrees(s: Slot, status: Status)
    requires s.current.Some?
    ensures Agree(s, CompleteCurrent(s, status), CompleteCurrent(Clean(s), status))
  {
  }

  lemma GiveAgrees(s: Slot, choice: bool)
    requires s.pc == Starting(Give) && s.current.Some?
    ensures Agree(s, StartStep(s, choice), StartStep(Clean(s), choice))
  {
    if s.kind.Read? && choice { CompletionAgrees(s, Success); }
  }

  lemma StartAgrees(s: Slot, choice: bool)
    requires s.pc.Starting? && s.current.Some? && s.pc.op != Give
    ensures Agree(s, StartStep(s, choice), StartStep(Clean(s), choice))
  {
  }

  lemma UnmarkAgrees(s: Slot)
    ensures Agree(s, ClearCancelRoutine(s, true), ClearCancelRoutine(Clean(s), true))
  {
  }

  lemma EarlyTryAgrees(s: Slot)
    requires s.pc.Trying? && s.current.Some? && (s.pc.at == DropOwn || s.pc.at == Grab)
    ensures Agree(s, TryStep(s), TryStep(Clean(s)))
  {
  }

  lemma DropCancelAgrees(s: Slot)
    requires s.pc.Trying? && s.current.Some? && s.pc.at == DropCancel
    ensures Agree(s, TryStep(s), TryStep(Clean(s)))
  {
    UnmarkAgrees(s);
  }

  lemma StopAgrees(s: Slot)
    requires s.pc.Trying? && s.current.Some? && (s.pc.at == StopInterval || s.pc.at == StopTotal)
    ensures Agree(s, TryStep(s), TryStep(Clean(s)))
  {
  }

  lemma FinishAgrees(s: Slot)
    requires s.pc.Trying? && s.current.Some? && s.pc.at == Finish
    ensures Agree(s, TryStep(s), TryStep(Clean(s)))
  {
    if s.refs == NO_REFS { CompletionAgrees(s, s.pc.status); }
  }

  lemma AdvanceAgrees(s: Slot, choice: bool)
    requires !s.pc.Resting? && s.current.Some?
    ensures Agree(s, Step(s, Advance(choice)), Step(Clean(s), Advance(choice)))
  {
    match s.pc
    case Starting(op) => if op == Give { GiveAgrees(s, choice); } else { StartAgrees(s, choice); }
    case Trying(at, _, _, _) => {
      match at
      case DropOwn => EarlyTryAgrees(s);
      case Grab => EarlyTryAgrees(s);
      case DropCancel => DropCancelAgrees(s);
      case StopInterval => StopAgrees(s);
      case StopTotal => StopAgrees(s);
      case Finish => FinishAgrees(s);
    }
    case _ =>
  }

  lemma PurgeAgrees(s: Slot)
    ensures Agree(s, PurgeStep(s), PurgeStep(Clean(s)))
  {
  }

  lemma StepAgrees(s: Slot, e: Event)
    requires Enabled(s, e)
    ensures Agree(s, Step(s, e), Step(Clean(s), e))
  {
    if e.Advance? && s.current.Some? {
      AdvanceAgrees(s, e.choice);
    } else if e.Purge? {
      PurgeAgrees(s);
    }
  }

  // ----- Runs -----

  // An Xoff counter takes over from one that a callback still knows.
  predicate OverwritesKnown(s: Slot, e: Event) { Overwrites(s, e) && KnownToSomebody(s, s.current.value) }

  lemma OverwriteKeepsSound(s: Slot, e: Event)
    requires Sound(s) && Enabled(s, e) && Overwrites(s, e) && !OverwritesKnown(s, e)
    ensures Sound(Step(s, e))
  {
  }

  // Every other step keeps the meaning of the bits, and fails no assertion but the one about counters.
  lemma StepKeepsSound(s: Slot, e: Event)
    requires Sound(s) && Enabled(s, e) && !OverwritesKnown(s, e)
    ensures Sound(Step(s, e)) && Step(s, e).failed == (s.failed || Asserts(s, e))
  {
    StepAgrees(s, e);
    if Overwrites(s, e) {
      OverwriteKeepsSound(s, e);
    } else if !Asserts(s, e) {
      StepKeepsSafe(Clean(s), e);
    }
  }

  lemma StepKeepsInv(s: Slot, e: Event)
    requires Inv(s) && Enabled(s, e) && !OverwritesKnown(s, e)
    ensures Inv(Step(s, e))
  {
    StepKeepsSound(s, e);
    StepKeepsEachOnce(s, e);
  }

  lemma InitialInv(k: Kind)
    ensures Inv(InitialSlot(k))
  {
  }

  // Some step of the run fails the assertion about counters; replaces a counter; replaces one that is known.
  predicate AssertsIn(s: Slot, es: seq<Event>)
    requires CanRun(s, es)
    decreases |es|
  {
    es != [] && (Asserts(s, es[0]) || AssertsIn(Step(s, es[0]), es[1..]))
  }

  predicate OverwritesIn(s: Slot, es: seq<Event>)
    requires CanRun(s, es)
    decreases |es|
  {
    es != [] && (Overwrites(s, es[0]) || OverwritesIn(Step(s, es[0]), es[1..]))
  }

  predicate OverwritesKnownIn(s: Slot, es: seq<Event>)
    requires CanRun(s, es)
    decreases |es|
  {
    es != [] && (OverwritesKnown(s, es[0]) || OverwritesKnownIn(Step(s, es[0]), es[1..]))
  }

  // The ownership invariant, over every interleaving of the callbacks with the environment.
  lemma {:induction false} RunKeepsInv(s: Slot, es: seq<Event>)
    requires Inv(s) && CanRun(s, es) && !OverwritesKnownIn(s, es)
    ensures Inv(Run(s, es))
    decreases |es|
  {
    if es != [] {
      StepKeepsInv(s, es[0]);
      RunKeepsInv(Step(s, es[0]), es[1..]);
    }
  }

  lemma {:induction false} RunKeepsEachOnce(s: Slot, es: seq<Event>)
    requires EachOnce(s) && CanRun(s, es)
    ensures EachOnce(Run(s, es))
    decreases |es|
  {
    if es != [] {
      StepKeepsEachOnce(s, es[0]);
      RunKeepsEachOnce(Step(s, es[0]), es[1..]);
    }
  }

  lemma KindStays(s: Slot, e: Event)
    requires Enabled(s, e)
    ensures Step(s, e).kind == s.kind
  {
    if e.Advance? && s.current.Some? && s.pc.Starting? { assert StartStep(s, e.choice).kind == s.kind; }
  }

  // Only Xoff counters are ever replaced.
  lemma {:induction false} OthersNeverOverwrite(s: Slot, es: seq<Event>)
    requires CanRun(s, es) && s.kind != XoffCounter
    ensures !AssertsIn(s, es) && !OverwritesIn(s, es) && !OverwritesKnownIn(s, es)
    decreases |es|
  {
    if es != [] {
      KindStays(s, es[0]);
      OthersNeverOverwrite(Step(s, es[0]), es[1..]);
    }
  }

  lemma RunAppend(s: Slot, es: seq<Event>, e: Event)
    requires CanRun(s, es) && Enabled(Run(s, es), e)
    ensures CanRun(s, es + [e]) && Run(s, es + [e]) == Step(Run(s, es), e)
    decreases |es|
  {
    if es == [] {
      assert es + [e] == [e] && CanRun(Step(s, e), []);
    } else {
      RunAppend(Step(s, es[0]), es[1..], e);
      assert (es + [e])[1..] == es[1..] + [e];
    }
  }
}
