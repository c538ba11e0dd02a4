/** Who still holds the request a slot is working on.

    The driver keeps one "slot" per kind of request: the current read, write, immediate character, event
    wait and Xoff counter.  A request in a slot carries a bit set of holders (RefCount).  The ISR, the completion
    DPC, two timers and the cancel routine race to drop their bit; whoever empties the set completes the
    request and starts the next one.

    A slot is modelled as a transition system.  DPC-level code is cut at every point where the interrupt
    service routine, a timer expiry or a user's cancel could come in between, so the program counter `pc`
    names the next atomic action of the callback that is running, if one is. */
module Ownership {
  import opened Prelude

  type Id = nat

  datatype Kind = Read | Write | Immediate | Wait | XoffCounter

  // The bits of RefCount a slot uses.
  datatype Ref = IsrRef | CancelRef | TotalRef | IntervalRef | XoffRef

  // RefCount itself, one field a bit.
  datatype Refs = Refs(isr: bool, cancel: bool, total: bool, interval: bool, xoff: bool) {
    predicate Has(r: Ref) {
      match r
      case IsrRef => isr
      case CancelRef => cancel
      case TotalRef => total
      case IntervalRef => interval
      case XoffRef => xoff
    }

    function Put(r: Ref, bit: bool): Refs {
      match r
      case IsrRef => this.(isr := bit)
      case CancelRef => this.(cancel := bit)
      case TotalRef => this.(total := bit)
      case IntervalRef => this.(interval := bit)
      case XoffRef => this.(xoff := bit)
    }

    function Count(): nat {
      (if isr then 1 else 0) + (if cancel then 1 else 0) + (if total then 1 else 0) +
      (if interval then 1 else 0) + (if xoff then 1 else 0)
    }
  }

  const NO_REFS := Refs(false, false, false, false, false)

  // `HandedOver`: an Xoff counter that was sent as a write leaves the write slot, but is not completed there.
  datatype Status = Success | TimedOut | Cancelled | MoreWrites | HandedOver

  // A framework timer, with the request for which it was started.
  datatype Timer = Idle | Queued(req: Id) | Due(req: Id)

  datatype Cancelability = NotCancelable | Armed(req: Id) | CancelDue(req: Id)

  // The special values of CountOnLastRead, and "anything else".
  datatype Mark = InProgress | MarkCancel | MarkTotal | MarkComplete

  // The atomic actions of SerialTryToCompleteCurrent, in order.
  datatype TryOp = DropOwn | Grab | DropCancel | StopInterval | StopTotal | Finish

  // The atomic actions of the start routines; each kind runs some of them, in its own order.
  datatype StartOp = Init | Give | MarkCancelable | StartTotal | StartInterval

  datatype Pc =
    | Resting                                                      // no callback of this slot is running
    | Trying(at: TryOp, ref: Ref, sync: bool, status: Status)      // inside SerialTryToCompleteCurrent
    | Starting(op: StartOp)                                        // inside the start routine
    | Judging                                                      // inside SerialIntervalReadTimeout

  datatype Done = Done(id: Id, status: Status)

  // An Xoff counter that another one has replaced, and whether its cancel routine can still run.
  datatype Lost = Lost(id: Id, cancel: Cancelability)

  datatype Aside = Aside(
    cancelled: bool,             // Cancelled in the context of the current request
    counters: set<Id>,           // the requests of a write slot that are Xoff counters
    strays: seq<Id>)             // callbacks of the total timer that were due when it was started again

  datatype Slot = Slot(
    kind: Kind,
    current: Option<Id>,
    queue: seq<Id>,
    refs: Refs,                  // RefCount of the current request
    routine: bool,               // CancelRoutine in its context is not NULL
    isr: Option<Id>,             // the request the ISR owns
    dpc: Option<Id>,             // the request whose completion DPC is queued
    cancel: Cancelability,
    total: Timer,
    interval: Timer,
    mark: Mark,                  // CountOnLastRead
    done: seq<Done>,             // every completion so far
    accepted: set<Id>,           // every request ever handed to the slot
    lost: seq<Lost>,             // the Xoff counters that were replaced before they were completed
    aside: Aside,                // what only Xoff counters have a use for
    failed: bool,                // an assertion of the source, or a rule for marking requests, has failed
    pc: Pc)

  datatype Event =
    // The environment; these can happen at any point.
    | IsrFinishes | TotalExpires | IntervalExpires | UserCancels
    // Framework callbacks; these start only when no other callback of the slot runs.
    | Submit(id: Id) | CancelQueued(at: nat) | Purge
    | RunDpc | RunCancel | RunTotal | RunInterval
    | Displace           // a write is starting while an Xoff counter is still active
    | EndAsWrite         // an Xoff counter ends as a write, without becoming active
    | Declare(id: Id)    // a request to come is an Xoff counter, which is sent as a write
    | RunLostCancel(at: nat)
    | RunStray(at: nat)
    // The next atomic action of the running callback; `choice` resolves what the model leaves open.
    | Advance(choice: bool)

  // ----- Reference bits -----

  // SERIAL_SET_REFERENCE: asserts that the bit is clear, then sets it.
  function SetRef(s: Slot, r: Ref): Slot {
    s.(failed := s.failed || s.refs.Has(r), refs := s.refs.Put(r, true))
  }

  // SERIAL_CLEAR_REFERENCE: asserts that the bit is set, then clears it.
  function ClearRef(s: Slot, r: Ref): Slot {
    s.(failed := s.failed || !s.refs.Has(r), refs := s.refs.Put(r, false))
  }

  // ----- Starting a request -----

  function FirstOp(k: Kind): StartOp { Init }

  function NextStart(k: Kind, op: StartOp): Pc {
    match k
    case Read =>
      (match op
       case Init => Starting(Give)
       case Give => Starting(MarkCancelable)
       case MarkCancelable => Starting(StartTotal)
       case StartTotal => Starting(StartInterval)
       case StartInterval => Resting)
    case Wait =>
      (match op
       case Init => Starting(MarkCancelable)
       case MarkCancelable => Starting(Give)
       case _ => Resting)
    case XoffCounter =>
      (match op
       case Init => Starting(MarkCancelable)
       case MarkCancelable => Starting(Give)
       case Give => Starting(StartTotal)
       case _ => Resting)
    case _ =>
      (match op
       case Init => Starting(MarkCancelable)
       case MarkCancelable => Starting(StartTotal)
       case StartTotal => Starting(Give)
       case _ => Resting)
  }

  // How the current request leaves the slot.  SerialGetNextWrite does not complete an Xoff counter that was sent.
  function EndOf(s: Slot, status: Status): Status
    requires s.current.Some?
  {
    if s.kind.Write? && s.current.value in s.aside.counters && status.Success? && !s.aside.cancelled then HandedOver else status
  }

  // Completes the current request and makes the head of the queue current (SerialGetNextRequest).
  // Only reads and writes have a queue of their own.
  function CompleteCurrent(s: Slot, status: Status): Slot
    requires s.current.Some?
  {
    var t := s.(failed := s.failed || s.refs != NO_REFS, done := s.done + [Done(s.current.value, EndOf(s, status))],
                refs := NO_REFS, routine := false, aside := s.aside.(cancelled := false));
    if s.queue == [] then t.(current := None, pc := Resting)
    else t.(current := Some(s.queue[0]), queue := s.queue[1..], pc := Starting(FirstOp(s.kind)))
  }

  const NOTHING_ASIDE := Aside(false, {}, [])

  function Stray(a: Aside, id: Id): Aside { a.(strays := a.strays + [id]) }

  function Unstray(a: Aside, at: nat): Aside
    requires at < |a.strays|
  {
    a.(strays := a.strays[..at] + a.strays[at + 1..])
  }

  // A DPC that is queued already is not queued again.
  function Queue(dpc: Option<Id>, id: Id): Option<Id> { if dpc.Some? then dpc else Some(id) }

  // One atomic action of SerialStartRead, SerialStartWrite, SerialStartImmediate or SerialStartMask, or of
  // the part of SerialGetNextWrite that turns a finished write into an active Xoff counter.
  function StartStep(s: Slot, choice: bool): Slot
    requires s.pc.Starting? && s.current.Some?
  {
    var id := s.current.value;
    var next := NextStart(s.kind, s.pc.op);
    match s.pc.op
    case Init =>
      // SerialStartRead stops both timers here, without looking at the answers.
      (if s.kind.Read? then
         s.(refs := NO_REFS, pc := next,
            total := if s.total.Queued? then Idle else s.total,
            interval := if s.interval.Queued? then Idle else s.interval)
       else s.(refs := NO_REFS, pc := next))
    case Give =>
      (match s.kind
       case Read =>
         // `choice`: the typeahead buffer satisfied the read, so it never reaches the ISR.
         if choice then CompleteCurrent(s, Success)
         else SetRef(s, IsrRef).(isr := Some(id), mark := InProgress, pc := next)
       case Wait =>
         // `choice`: an event happened before the wait, so the completion DPC is queued at once.
         if choice then SetRef(s, IsrRef).(dpc := Queue(s.dpc, id), pc := next)
         else SetRef(s, IsrRef).(isr := Some(id), pc := next)
       case _ => SetRef(s, IsrRef).(isr := Some(id), pc := next))
    case MarkCancelable =>
      SetRef(s, CancelRef).(failed := s.failed || s.refs.Has(CancelRef) || s.cancel != NotCancelable,
                            cancel := Armed(id), routine := true, pc := next)
    case StartTotal =>
      // `choice`: a total timeout applies.  Only a start that finds the timer idle takes a reference.
      (if !choice then s.(pc := next)
       else if s.total.Queued? then s.(total := Queued(id), pc := next)
       else SetRef(s, TotalRef).(aside := if s.total.Due? then Stray(s.aside, s.total.req) else s.aside,
                                 total := Queued(id), pc := next))
    case StartInterval =>
      (if !choice then s.(pc := next)
       else if s.interval.Queued? then s.(interval := Queued(id), pc := next)
       else SetRef(s, IntervalRef).(interval := Queued(id), pc := next))
  }

  // ----- Trying to complete a request -----

  function Try(ref: Ref, sync: bool, status: Status): Pc { Trying(DropOwn, ref, sync, status) }

  // One atomic action of SerialTryToCompleteCurrent and the SerialRundownIrpRefs inside it.
  function TryStep(s: Slot): Slot
    requires s.pc.Trying? && s.current.Some?
  {
    var p := s.pc;
    match p.at
    case DropOwn =>
      (if p.ref == IsrRef || p.ref == XoffRef then ClearRef(s, p.ref) else s).(pc := p.(at := Grab))
    case Grab =>
      // The synchronisation routine takes the request back if the ISR still owns it.
      (if p.sync && s.isr.Some? then ClearRef(s, IsrRef).(isr := None) else s).(pc := p.(at := DropCancel))
    case DropCancel =>
      (if p.ref == CancelRef then ClearRef(s, CancelRef).(routine := false)
       else ClearCancelRoutine(s, true)).(pc := p.(at := StopInterval))
    case StopInterval =>
      (if s.kind != Read then s
       else if s.interval.Queued? then ClearRef(s, IntervalRef).(interval := Idle)
       else if p.ref == IntervalRef then ClearRef(s, IntervalRef)
       else s).(pc := p.(at := StopTotal))
    case StopTotal =>
      // Waits have no timer, and SerialTimeoutXoff passes none.
      (if s.kind == Wait || (s.kind == XoffCounter && p.ref == TotalRef) then s
       else if s.total.Queued? then ClearRef(s, TotalRef).(total := Idle)
       else if p.ref == TotalRef then ClearRef(s, TotalRef)
       else s).(pc := p.(at := Finish))
    case Finish =>
      if s.refs == NO_REFS then CompleteCurrent(s, p.status)
      else s.(aside := if p.status.Cancelled? then s.aside.(cancelled := true) else s.aside, pc := Resting)
  }

  // SerialClearCancelRoutine.  Unmarking fails exactly when the cancel routine is already due.
  function ClearCancelRoutine(s: Slot, clearReference: bool): Slot {
    if !s.refs.Has(CancelRef) || s.cancel.CancelDue? then s
    else
      var t := s.(failed := s.failed || s.cancel == NotCancelable, cancel := NotCancelable, routine := false);
      if clearReference then ClearRef(t, CancelRef) else t
  }

  // SerialIntervalReadTimeout after its timer fired: give up, or wait another interval (`choice`).
  function Judge(s: Slot, choice: bool): Slot
    requires s.pc.Judging? && s.current.Some?
  {
    if s.mark.InProgress? && choice then
      s.(failed := s.failed || s.interval != Idle, interval := Queued(s.current.value), pc := Resting)
    else
      s.(pc := Try(IntervalRef, true, Verdict(s.mark)))
  }

  function Verdict(m: Mark): Status {
    match m
    case MarkComplete => Success
    case MarkCancel => Cancelled
    case _ => TimedOut
  }

  // ----- Purging -----

  function Swept(queue: seq<Id>): seq<Done> {
    seq(|queue|, i requires 0 <= i < |queue| => Done(queue[i], Cancelled))
  }

  // SerialPurgeRequests: cancel what is queued, then call the current request's cancel routine.
  function PurgeStep(s: Slot): Slot {
    var t := s.(queue := [], done := s.done + Swept(s.queue));
    if s.current.None? then t
    else
      var u := ClearCancelRoutine(t, false);
      if (s.refs.Has(CancelRef) && s.cancel.CancelDue?) || !s.routine then u
      else u.(mark := MarkCancel, pc := Try(CancelRef, true, Cancelled))
  }

  // ----- The transition function -----

  // What the interrupt service routine, the clock and the user do on their own.
  predicate Environmental(e: Event) { e.IsrFinishes? || e.TotalExpires? || e.IntervalExpires? || e.UserCancels? }

  // The callbacks that hold a reference to the current request.
  predicate CallbackStart(e: Event) { e.RunDpc? || e.RunCancel? || e.RunTotal? || e.RunInterval? }

  predicate HasQueue(k: Kind) { k.Read? || k.Write? }

  // The active Xoff counter after a write has pushed it out of the way: the ISR and the clock have no hand in
  // it any more, only callbacks that are due.
  predicate Displaced(s: Slot) { s.isr.None? && !s.cancel.Armed? && !s.total.Queued? }

  // An Xoff counter becomes active while another one is.
  predicate Overwrites(s: Slot, e: Event) { e.Submit? && s.kind == XoffCounter && s.current.Some? }

  // The source asserts that no Xoff counter is active whenever one ends as a write.
  predicate Asserts(s: Slot, e: Event) { Overwrites(s, e) || (e.EndAsWrite? && s.current.Some?) }

  // Some pending callback, or the ISR, still knows the request.
  predicate KnownToSomebody(s: Slot, id: Id) {
    || s.isr == Some(id)
    || s.dpc == Some(id)
    || (s.cancel != NotCancelable && s.cancel.req == id)
    || (s.total != Idle && s.total.req == id)
    || (s.interval != Idle && s.interval.req == id)
    || id in s.aside.strays
    || exists k :: 0 <= k < |s.lost| && s.lost[k].id == id && s.lost[k].cancel != NotCancelable
  }

  predicate Enabled(s: Slot, e: Event) {
    match e
    case IsrFinishes => s.isr.Some?
    case TotalExpires => s.total.Queued?
    case IntervalExpires => s.interval.Queued?
    case UserCancels => s.cancel.Armed?
    case Submit(id) =>
      // A counter that ends as a write had displaced the active one when it started as a write.
      s.pc.Resting? && id !in s.accepted &&
      (HasQueue(s.kind) || s.current.None? || (s.kind == XoffCounter && Displaced(s)))
    case EndAsWrite => s.pc.Resting? && s.kind == XoffCounter && (s.current.None? || Displaced(s))
    case CancelQueued(i) => s.pc.Resting? && i < |s.queue|
    case Purge => s.pc.Resting? && (HasQueue(s.kind) || s.kind == XoffCounter)
    case RunDpc => s.pc.Resting? && s.dpc.Some?
    case RunCancel => s.pc.Resting? && s.cancel.CancelDue?
    case RunTotal => s.pc.Resting? && s.total.Due?
    case RunInterval => s.pc.Resting? && s.interval.Due?
    case Declare(id) => s.kind.Write? && id !in s.accepted
    case RunLostCancel(k) => s.pc.Resting? && k < |s.lost| && s.lost[k].cancel.CancelDue?
    case RunStray(k) => s.pc.Resting? && k < |s.aside.strays|
    case Displace => s.pc.Resting? && s.kind == XoffCounter && s.current.Some? && s.refs != NO_REFS
    case Advance(_) => !s.pc.Resting?
  }

  // A callback that names no request acts on whatever is current; the source asserts there is one.
  function Call(s: Slot, pc: Pc): Slot {
    s.(failed := s.failed || s.current.None?, pc := pc)
  }

  // CurrentXoffRequest is set to another counter.  Reference bits and cancelability belong to
  // the request, the DPC and the timer to the slot.
  function Overwrite(s: Slot, id: Id): Slot
    requires s.current.Some?
  {
    s.(failed := true, lost := s.lost + [Lost(s.current.value, s.cancel)], cancel := NotCancelable,
       current := Some(id), refs := NO_REFS, routine := false, aside := s.aside.(cancelled := false), pc := Starting(FirstOp(s.kind)))
  }

  function Step(s: Slot, e: Event): Slot
    requires Enabled(s, e)
  {
    match e
    case IsrFinishes => s.(isr := None, dpc := Queue(s.dpc, s.isr.value))
    case TotalExpires => s.(total := Due(s.total.req))
    case IntervalExpires => s.(interval := Due(s.interval.req))
    case UserCancels => s.(cancel := CancelDue(s.cancel.req))
    case Submit(id) =>
      var t := s.(accepted := s.accepted + {id});
      if s.queue == [] && s.current.None? then
        t.(current := Some(id), refs := NO_REFS, routine := false, aside := s.aside.(cancelled := false), pc := Starting(FirstOp(s.kind)))
      else if Overwrites(s, e) then
        Overwrite(t, id)
      else
        t.(queue := s.queue + [id])
    case EndAsWrite => s.(failed := s.failed || s.current.Some?)
    case CancelQueued(i) =>
      s.(queue := s.queue[..i] + s.queue[i + 1..], done := s.done + [Done(s.queue[i], Cancelled)])
    case Purge => PurgeStep(s)
    case RunDpc => Call(s.(dpc := None, mark := MarkComplete), Try(IsrRef, false, Success))
    case RunCancel => Call(s.(cancel := NotCancelable, mark := MarkCancel), Try(CancelRef, true, Cancelled))
    case RunLostCancel(k) =>
      // The cancel routine acts on whatever counter is active.
      Call(s.(lost := s.lost[k := s.lost[k].(cancel := NotCancelable)], mark := MarkCancel), Try(CancelRef, true, Cancelled))
    case Declare(id) => s.(aside := s.aside.(counters := s.aside.counters + {id}))
    case RunStray(k) =>
      Call(s.(aside := Unstray(s.aside, k), mark := MarkTotal), Try(TotalRef, true, TimedOut))
    case RunTotal => Call(s.(total := Idle, mark := MarkTotal), Try(TotalRef, true, TimedOut))
    case RunInterval => Call(s.(interval := Idle), Judging)
    case Displace => SetRef(s, XoffRef).(pc := Try(XoffRef, true, MoreWrites))
    case Advance(choice) =>
      if s.current.None? then s.(failed := true, pc := Resting)
      else match s.pc
        case Starting(_) => StartStep(s, choice)
        case Trying(_, _, _, _) => TryStep(s)
        case Judging => Judge(s, choice)
        case Resting => s
  }

  function InitialSlot(k: Kind): Slot {
    Slot(k, None, [], NO_REFS, false, None, None, NotCancelable, Idle, Idle, InProgress, [], {}, [], NOTHING_ASIDE,
         false, Resting)
  }

  // ----- Runs -----

  predicate CanRun(s: Slot, es: seq<Event>)
    decreases |es|
  {
    es == [] || (Enabled(s, es[0]) && CanRun(Step(s, es[0]), es[1..]))
  }

  function Run(s: Slot, es: seq<Event>): Slot
    requires CanRun(s, es)
    decreases |es|
  {
    if es == [] then s else Run(Step(s, es[0]), es[1..])
  }

}
