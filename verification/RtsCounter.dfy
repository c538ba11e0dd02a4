/** Transmit toggling: what raises RTS, and who is still trying to lower it.

    While transmit toggling is on, RTS is lowered only when the last character has left the hardware.  That is
    found out by polling: a DPC starts a timer, the timer's callback looks at the line status and, if the
    hardware is not empty yet, queues the DPC again.  CountOfTryingToLowerRTS counts the paths that are under
    way, so that closing the port can wait for them.

    RTS ought to be up only while something keeps it up or a path is under way that will lower it.  `LeftUp` is
    the failure of that.  Each method is one stretch of code that nothing interrupts; between them anything can
    happen, which is what makes the DPC three methods.  Every method says exactly when it leaves RTS up, and
    `Use` puts them together. */
module RtsCounter {

  /** The StartTimerLowerRTS DPC: not running, running and about to start the timer, or running and about to
      count itself out because the timer was already started by another path. */
  datatype Dpc = NotRunning | Started | Superseded

  /** What the ISR puts in the holding register: an Xon, an Xoff that may stop the sender, the immediate
      character, or `n` characters of the write, perhaps the last ones. */
  datatype Chars = Xon | Xoff(stops: bool) | ImmediateChar | Data(n: nat, last: bool)

  function One(b: bool): nat { if b then 1 else 0 }

  class RtsPaths {
    var count: nat                 // CountOfTryingToLowerRTS
    var toggling: bool
    var rts: bool

    var dpcQueued: bool
    var dpc: Dpc
    var timerQueued: bool
    var callbacksDue: nat          // LowerRTSTimer has expired and its callback has not run yet

    // The reasons for holding transmission (TXHolding): a break, an Xoff, a modem line.
    var brk: bool
    var xoff: bool
    var lines: bool

    // The writes, and the immediate character; `unsent` and `immediate` are what the ISR has of them.
    var currentWrite: bool
    var writesQueued: nat
    var unsent: bool
    var currentImmediate: bool
    var immediate: bool            // TransmitImmediate

    var hardwareEmpty: bool        // no character in the holding register or the shift register
    var wantsTxEmpty: bool         // EV_TXEMPTY is in the wait mask
    var emptiedTransmit: bool      // EmptiedTransmit

    // The paths that are under way.
    ghost function Paths(): nat
      reads this`dpcQueued, this`dpc, this`timerQueued, this`callbacksDue
    {
      One(dpcQueued) + One(dpc != NotRunning) + One(timerQueued) + callbacksDue
    }

    // A DPC that is to count itself out has found the timer running; the callbacks are serialised with it.
    ghost predicate Valid()
      reads this
    {
      && count == Paths()
      && (dpc == Superseded ==> timerQueued || callbacksDue > 0)
      && (writesQueued > 0 || unsent ==> currentWrite)
      && (immediate ==> currentImmediate)
    }

    // How many stretches of code the paths still have to run if no path is started anew.
    ghost function Steps(): nat
      reads this`dpcQueued, this`dpc, this`timerQueued, this`callbacksDue
    {
      4 * One(dpcQueued) + (match dpc case NotRunning => 0 case Started => 3 case Superseded => 1)
      + 2 * One(timerQueued) + callbacksDue
    }

    predicate Holding()
      reads this`brk, this`xoff, this`lines
    {
      brk || xoff || lines
    }

    // A break or something to send keeps RTS up.  A write that is held back does so too, once it is current.
    predicate KeepsRts()
      reads this`brk, this`xoff, this`lines, this`currentWrite, this`writesQueued, this`immediate
    {
      brk || currentWrite || immediate || (writesQueued > 0 && !Holding())
    }

    // RTS is up, though nothing keeps it up, and no path is under way that would lower it.
    predicate LeftUp()
      reads this`toggling, this`rts, this`count,
            this`brk, this`xoff, this`lines, this`currentWrite, this`writesQueued, this`immediate
    {
      toggling && rts && !KeepsRts() && count == 0
    }

    // The state at open.
    constructor (toggling: bool)
      ensures Valid() && count == 0 && !rts && this.toggling == toggling && !LeftUp()
      ensures !KeepsRts() && !Holding() && !currentWrite && writesQueued == 0 && !currentImmediate && hardwareEmpty
      ensures !dpcQueued && dpc == NotRunning && !timerQueued && callbacksDue == 0 && !wantsTxEmpty && !emptiedTransmit
    {
      this.toggling, rts, count := toggling, false, 0;
      dpcQueued, dpc, timerQueued, callbacksDue := false, NotRunning, false, 0;
      brk, xoff, lines, currentWrite, writesQueued, unsent := false, false, false, false, 0, false;
      currentImmediate, immediate, hardwareEmpty, wantsTxEmpty, emptiedTransmit := false, false, true, false, false;
    }

    // ----- The ISR and the hardware -----

    // Queues the DPC, from anywhere at interrupt level; a DPC that is queued already is not another path.
    method QueueDpc()
      modifies this`count, this`dpcQueued
      ensures dpcQueued && count == old(count) + One(!old(dpcQueued))
    {
      if !dpcQueued {
        dpcQueued := true;
        count := count + 1;
      }
    }

    // The ISR is about to send: RTS up, and a path that will lower it.
    method RaiseForCharacter()
      requires Valid()
      modifies this`count, this`dpcQueued, this`rts
      ensures Valid() && if toggling then rts && dpcQueued && count > 0 else rts == old(rts) && count == old(count)
    {
      if toggling {
        rts := true;
        QueueDpc();
      }
    }

    // The ISR sends what comes first.  An Xoff that stops the sender queues the DPC once more.
    method SendChars(c: Chars)
      requires Valid() && (c.ImmediateChar? ==> immediate) && (c.Data? ==> unsent)
      modifies this`count, this`dpcQueued, this`rts, this`xoff, this`immediate, this`unsent, this`hardwareEmpty,
               this`emptiedTransmit
      ensures Valid() && emptiedTransmit && !LeftUp()
      ensures if toggling then rts && dpcQueued && count > 0 else rts == old(rts) && count == old(count)
      ensures immediate == (old(immediate) && !c.ImmediateChar?) && unsent == (old(unsent) && !(c.Data? && c.last))
      ensures xoff == if c.Xon? then false else old(xoff) || (c.Xoff? && c.stops)
      ensures hardwareEmpty == (old(hardwareEmpty) && c.Data? && c.n == 0)
    {
      emptiedTransmit := true;
      RaiseForCharacter();
      if c.Xoff? && c.stops && toggling { QueueDpc(); }
      Account(c);
    }

    // What is left after that.
    method Account(c: Chars)
      requires c.Data? ==> unsent
      modifies this`xoff, this`immediate, this`unsent, this`hardwareEmpty
      ensures immediate == (old(immediate) && !c.ImmediateChar?) && unsent == (old(unsent) && !(c.Data? && c.last))
      ensures xoff == if c.Xon? then false else old(xoff) || (c.Xoff? && c.stops)
      ensures hardwareEmpty == (old(hardwareEmpty) && c.Data? && c.n == 0)
    {
      match c {
        case Xon => xoff := false;
        case Xoff(stops) => if stops { xoff := true; }
        case ImmediateChar => immediate := false;
        case Data(_, last) => unsent := unsent && !last;
      }
      hardwareEmpty := hardwareEmpty && c.Data? && c.n == 0;
    }

    // The ISR finds something to send, which is held back.
    method FindHeld()
      requires Valid()
      modifies this`emptiedTransmit
      ensures Valid() && emptiedTransmit
    {
      emptiedTransmit := true;
    }

    method HardwareEmpties()
      requires Valid()
      modifies this`hardwareEmpty
      ensures Valid() && hardwareEmpty
    {
      hardwareEmpty := true;
    }

    // SerialHandleModemUpdate: a line that begins to hold transmission begins a path.
    method ChangeLines(held: bool)
      requires Valid()
      modifies this`lines, this`count, this`dpcQueued
      ensures Valid() && lines == held
      ensures LeftUp() <==> old(LeftUp()) && !(held && !old(brk || xoff || lines))
    {
      var wasHolding := Holding();
      lines := held;
      if !wasHolding && Holding() && toggling { QueueDpc(); }
    }

    // A received Xoff, and SerialPretendXoff.
    method ReceiveXoff()
      requires Valid()
      modifies this`xoff, this`count, this`dpcQueued
      ensures Valid() && xoff && !LeftUp()
    {
      xoff := true;
      if toggling { QueueDpc(); }
    }

    // A received Xon, SerialPretendXon, and the end of automatic transmit flow control.
    method ReceiveXon()
      requires Valid()
      modifies this`xoff
      ensures Valid() && !xoff && LeftUp() == old(LeftUp())
    {
      xoff := false;
    }

    // ----- Lowering RTS -----

    // SerialPerhapsLowerRTS, at interrupt level; it ends one of the paths under way.
    method PerhapsLowerRTS()
      requires count > 0
      modifies this`count, this`dpcQueued, this`rts
      ensures rts == (old(rts) && !(toggling && !KeepsRts() && hardwareEmpty))
      ensures rts == (old(rts) && !(toggling && hardwareEmpty && !brk && !currentWrite && !immediate
                                    && (writesQueued == 0 || brk || xoff || lines)))
      ensures dpcQueued == (old(dpcQueued) || (toggling && !KeepsRts() && !hardwareEmpty))
      ensures count - One(dpcQueued) == old(count - One(dpcQueued)) - 1
    {
      if toggling {
        if !(brk || currentWrite || immediate || (writesQueued > 0 && !Holding())) {
          if !hardwareEmpty { QueueDpc(); } else { rts := false; }
        }
      }
      count := count - 1;
    }

    // A direct call of it, which is a path of its own from its start to its end.
    method LowerDirectly()
      requires Valid()
      modifies this`count, this`dpcQueued, this`rts
      ensures Valid() && !LeftUp()
      ensures toggling && !KeepsRts() ==> if hardwareEmpty then !rts else count > 0 && rts == old(rts)
      ensures !toggling || KeepsRts() ==> rts == old(rts)
      ensures !toggling || KeepsRts() || hardwareEmpty ==> count == old(count)
      ensures rts == (old(rts) && !(toggling && hardwareEmpty && !brk && !currentWrite && !immediate
                                    && (writesQueued == 0 || brk || xoff || lines)))
    {
      count := count + 1;
      PerhapsLowerRTS();
    }

    // The DPC starts to run, and can be queued again from now on.
    method StartDpc()
      requires Valid() && dpcQueued && dpc == NotRunning
      modifies this`dpcQueued, this`dpc
      ensures Valid() && count == old(count) && dpc == Started && !dpcQueued && Steps() == old(Steps()) - 1
    {
      dpcQueued, dpc := false, Started;
    }

    // SerialStartTimerLowerRTS up to the call that sets the timer.
    method SetTimer()
      requires Valid() && dpc == Started
      modifies this`timerQueued, this`dpc
      ensures Valid() && timerQueued && count == old(count) && Steps() < old(Steps())
      ensures dpc == if old(timerQueued) then Superseded else NotRunning
    {
      var wasQueued := timerQueued;
      timerQueued := true;
      dpc := if wasQueued then Superseded else NotRunning;
    }

    // SerialDecrementRTSCounter.  The path that superseded this one is still under way.
    method DecrementRTSCounter()
      requires Valid() && dpc == Superseded
      modifies this`count, this`dpc
      ensures Valid() && count == old(count) - 1 > 0 && Steps() == old(Steps()) - 1
    {
      dpc := NotRunning;
      count := count - 1;
    }

    // The timer expires.
    method Expire()
      requires Valid() && timerQueued
      modifies this`timerQueued, this`callbacksDue
      ensures Valid() && count == old(count) && callbacksDue == old(callbacksDue) + 1 && Steps() == old(Steps()) - 1
      ensures !timerQueued
    {
      timerQueued, callbacksDue := false, callbacksDue + 1;
    }

    // SerialInvokePerhapsLowerRTS, the callback of the timer; it does not run while the DPC does.
    method InvokePerhapsLowerRTS()
      requires Valid() && callbacksDue > 0 && dpc == NotRunning
      modifies this`count, this`dpcQueued, this`rts, this`callbacksDue
      ensures Valid() && !LeftUp() && callbacksDue == old(callbacksDue) - 1
      ensures toggling && !KeepsRts() ==> if hardwareEmpty then !rts else count > 0 && rts == old(rts)
      ensures !toggling || KeepsRts() ==> rts == old(rts)
      ensures !toggling || KeepsRts() || hardwareEmpty ==>
                count == old(count) - 1 && dpcQueued == old(dpcQueued) && Steps() == old(Steps()) - 1
    {
      PerhapsLowerRTS();
      callbacksDue := callbacksDue - 1;
    }

    // ----- Writes -----

    // A write becomes the current one, or waits for it.
    method StartOrQueue()
      requires Valid()
      modifies this`currentWrite, this`writesQueued
      ensures Valid() && currentWrite && writesQueued == old(writesQueued) + One(old(currentWrite)) && !LeftUp()
    {
      if currentWrite { writesQueued := writesQueued + 1; } else { currentWrite := true; }
    }

    // SerialGiveWriteToIsr: RTS up, and no path that would lower it.
    method GiveWriteToIsr()
      requires Valid() && currentWrite
      modifies this`unsent, this`rts
      ensures Valid() && unsent && rts == (old(rts) || toggling) && !LeftUp()
    {
      unsent := true;
      if toggling { rts := true; }
    }

    // SerialGrabWriteFromIsr.
    method GrabWriteFromIsr()
      requires Valid()
      modifies this`unsent
      ensures Valid() && !unsent
    {
      unsent := false;
    }

    method CanceledOnQueue()
      requires Valid() && writesQueued > 0
      modifies this`writesQueued
      ensures Valid() && writesQueued == old(writesQueued) - 1 && !LeftUp()
    {
      writesQueued := writesQueued - 1;
    }

    // The last write ends with RTS up; no path is under way, nothing else keeps RTS up, and nobody waits for the end
    // of transmission.
    predicate EndLeavesUp()
      reads this
    {
      && writesQueued == 0 && toggling && rts && count == 0 && !brk && !immediate
      && !(wantsTxEmpty && emptiedTransmit)
    }

    // SerialGetNextWrite: the next write becomes the current one, or there is none.
    method GetNextWrite()
      requires Valid() && currentWrite && !unsent
      modifies this`currentWrite, this`writesQueued, this`count, this`dpcQueued, this`rts
      ensures Valid() && currentWrite == (old(writesQueued) > 0)
      ensures writesQueued == if old(writesQueued) > 0 then old(writesQueued) - 1 else 0
      ensures LeftUp() <==> old(EndLeavesUp())
      ensures !toggling || immediate || !wantsTxEmpty ==> rts == old(rts) && count == old(count)
    {
      if writesQueued > 0 {
        writesQueued := writesQueued - 1;
      } else {
        currentWrite := false;
        ProcessEmptyTransmit();
      }
    }

    // SerialProcessEmptyTransmit, the part about RTS: nobody looks at it unless EV_TXEMPTY is waited for and the
    // ISR has had something to send since the wait began.
    method ProcessEmptyTransmit()
      requires Valid()
      modifies this`count, this`dpcQueued, this`rts
      ensures Valid()
      ensures LeftUp() <==> old(LeftUp()) && !(wantsTxEmpty && emptiedTransmit)
      ensures !toggling || immediate || !wantsTxEmpty ==> rts == old(rts) && count == old(count)
    {
      if wantsTxEmpty && emptiedTransmit && !immediate && !currentWrite && writesQueued == 0 {
        LowerDirectly();
      }
    }

    // A new wait mask, and a new wait.
    method SetWaitMask(wants: bool)
      requires Valid()
      modifies this`wantsTxEmpty
      ensures Valid() && wantsTxEmpty == wants
    {
      wantsTxEmpty := wants;
    }

    method StartWait()
      requires Valid()
      modifies this`emptiedTransmit
      ensures Valid() && !emptiedTransmit
    {
      emptiedTransmit := false;
    }

    // ----- Immediate characters -----

    method StartImmediate()
      requires Valid() && !currentImmediate
      modifies this`currentImmediate
      ensures Valid() && currentImmediate
    {
      currentImmediate := true;
    }

    // SerialGiveImmediateToIsr.
    method GiveImmediateToIsr()
      requires Valid() && currentImmediate
      modifies this`immediate
      ensures Valid() && immediate && !LeftUp()
    {
      immediate := true;
    }

    // The immediate character is all that keeps RTS up.
    predicate GrabLeavesUp()
      reads this
    {
      immediate && toggling && rts && count == 0 && !brk && !currentWrite
    }

    // SerialGrabImmediateFromIsr.
    method GrabImmediateFromIsr()
      requires Valid()
      modifies this`immediate
      ensures Valid() && !immediate && (LeftUp() <==> old(LeftUp() || GrabLeavesUp()))
    {
      if immediate { immediate := false; }
    }

    // SerialGetNextImmediate.
    method GetNextImmediate()
      requires Valid() && currentImmediate && !immediate
      modifies this`currentImmediate, this`count, this`dpcQueued, this`rts
      ensures Valid() && !currentImmediate
      ensures LeftUp() <==> old(LeftUp()) && !(wantsTxEmpty && emptiedTransmit)
    {
      currentImmediate := false;
      ProcessEmptyTransmit();
    }

    // ----- Breaks and settings -----

    // SerialTurnOnBreak.
    method TurnOnBreak()
      requires Valid()
      modifies this`brk, this`rts
      ensures Valid() && brk && rts == (old(rts) || toggling) && !LeftUp()
    {
      if toggling { rts := true; }
      brk := true;
    }

    // SerialTurnOffBreak: transmission goes on, or else RTS may go down.
    method TurnOffBreak(holdingEmpty: bool)
      requires Valid()
      modifies this`brk, this`count, this`dpcQueued, this`rts
      ensures Valid() && !brk && (LeftUp() <==> old(LeftUp() && !brk))
    {
      if brk {
        brk := false;
        if !Holding() && (immediate || unsent) && holdingEmpty {
          // The holding register empty interrupt is brought about.
        } else {
          LowerDirectly();
        }
      }
    }

    // Characters of an earlier time are in the hardware.
    predicate ToggleLeavesUp()
      reads this
    {
      !toggling && !KeepsRts() && !hardwareEmpty && count == 0
    }

    // The part of SerialSetupNewHandFlow that turns toggling on.  RTS goes up if anything keeps it up or is
    // still in the hardware; no path is begun that would lower it again.
    method StartToggling()
      requires Valid()
      modifies this`toggling, this`count, this`dpcQueued, this`rts
      ensures Valid() && toggling
      ensures !old(toggling) ==> (rts <==> KeepsRts() || !hardwareEmpty) && count == old(count)
      ensures !old(toggling) ==> (rts <==> brk || currentWrite || immediate || !hardwareEmpty
                                           || (writesQueued > 0 && !brk && !xoff && !lines))
      ensures LeftUp() <==> old(LeftUp() || ToggleLeavesUp())
    {
      if !toggling {
        toggling := true;
        if brk || !hardwareEmpty || currentWrite || immediate || (writesQueued > 0 && !Holding()) {
          rts := true;
        } else {
          LowerDirectly();
        }
      }
    }

    // The other modes of RTS that SerialSetupNewHandFlow can set; the paths under way go on.
    method StopToggling(up: bool)
      requires Valid()
      modifies this`toggling, this`rts
      ensures Valid() && !toggling && rts == up && !LeftUp()
    {
      toggling, rts := false, up;
    }

    // ----- Any use of the port -----

    method HardwareStep()
      requires Valid() && !LeftUp()
      modifies this
      ensures Valid() && !LeftUp()
    {
      var what: nat, c: Chars, flag: bool := *, *, *;
      if what == 0 {
        if (c.ImmediateChar? ==> immediate) && (c.Data? ==> unsent) { SendChars(c); }
      } else if what == 1 {
        FindHeld();
      } else if what == 2 {
        HardwareEmpties();
      } else if what == 3 {
        ChangeLines(flag);
      } else if what == 4 {
        ReceiveXoff();
      } else {
        ReceiveXon();
      }
    }

    method PathStep()
      requires Valid() && !LeftUp()
      modifies this
      ensures Valid() && !LeftUp()
    {
      if
      case dpcQueued && dpc == NotRunning => StartDpc();
      case dpc == Started => SetTimer();
      case dpc == Superseded => DecrementRTSCounter();
      case timerQueued => Expire();
      case callbacksDue > 0 && dpc == NotRunning => InvokePerhapsLowerRTS();
      case true =>
    }

    method WriteStep() returns (lost: bool)
      requires Valid() && !LeftUp()
      modifies this
      ensures Valid() && (lost <==> LeftUp())
    {
      lost := false;
      var what: nat := *;
      if what == 0 {
        StartOrQueue();
      } else if what == 1 && currentWrite {
        GiveWriteToIsr();
      } else if what == 2 {
        GrabWriteFromIsr();
      } else if what == 3 && writesQueued > 0 {
        CanceledOnQueue();
      } else if what == 4 && currentWrite && !unsent {
        lost := EndLeavesUp();
        GetNextWrite();
      }
    }

    method ImmediateStep() returns (lost: bool)
      requires Valid() && !LeftUp()
      modifies this
      ensures Valid() && (lost <==> LeftUp())
    {
      lost := false;
      var what: nat := *;
      if !currentImmediate {
        StartImmediate();
      } else if what == 0 {
        GiveImmediateToIsr();
      } else if what == 1 {
        lost := GrabLeavesUp();
        GrabImmediateFromIsr();
      } else if what == 2 && !immediate {
        GetNextImmediate();
      }
    }

    method SettingsStep() returns (lost: bool)
      requires Valid() && !LeftUp()
      modifies this
      ensures Valid() && (lost <==> LeftUp())
    {
      lost := false;
      var what: nat, flag: bool := *, *;
      if what == 0 {
        TurnOnBreak();
      } else if what == 1 {
        TurnOffBreak(flag);
      } else if what == 2 {
        lost := ToggleLeavesUp();
        StartToggling();
      } else if what == 3 {
        StopToggling(flag);
      } else if what == 4 {
        SetWaitMask(flag);
      } else {
        StartWait();
      }
    }

    // However the port is used, RTS is left up by nothing but the end of a write, an immediate character taken
    // back or the start of toggling, and by those exactly as the three predicates say (`lost`).
    method Use(n: nat) returns (lost: bool)
      requires Valid() && !LeftUp()
      modifies this
      ensures Valid() && (lost <==> LeftUp())
    {
      var left := n;
      lost := false;
      while left > 0
        invariant Valid() && !lost && !LeftUp()
      {
        var what: nat := *;
        if what == 0 {
          HardwareStep();
        } else if what == 1 {
          PathStep();
        } else if what == 2 {
          lost := WriteStep();
        } else if what == 3 {
          lost := ImmediateStep();
        } else {
          lost := SettingsStep();
        }
        if lost { break; }
        left := left - 1;
      }
    }

    // ----- Closing the port -----

    // One of the stretches of code that are due.
    method Delay()
      requires Valid() && count > 0
      modifies this`count, this`dpcQueued, this`dpc, this`timerQueued, this`callbacksDue, this`rts
      ensures Valid() && (hardwareEmpty ==> Steps() < old(Steps()))
    {
      if
      case callbacksDue > 0 && dpc == NotRunning => InvokePerhapsLowerRTS();
      case timerQueued => Expire();
      case dpc == Started => SetTimer();
      case dpc == Superseded => DecrementRTSCounter();
      case dpcQueued && dpc == NotRunning => StartDpc();
    }

    // The end of SerialEvtFileClose: waits for the paths to end and then lowers RTS itself.  Every path is
    // over when the loop ends, whatever the order in which the rest of them runs.  The loop does end, unless the
    // paths stand still or the hardware stays full for ever: both may go on for `idle` of the delays.
    method CloseRts(idle: nat)
      requires Valid()
      modifies this`count, this`dpcQueued, this`dpc, this`timerQueued, this`callbacksDue, this`rts, this`hardwareEmpty
      ensures Valid() && count == 0 && !rts
      ensures !dpcQueued && dpc == NotRunning && !timerQueued && callbacksDue == 0
    {
      var left := idle;
      while count != 0
        invariant Valid()
        decreases left, Steps()
      {
        var more, moves: bool := *, *;
        if more && left > 0 {
          left := left - 1;
          if moves { Delay(); }
        } else {
          hardwareEmpty := true;
          Delay();
        }
      }
      rts := false;
    }
  }

  // ----- Runs that leave RTS up -----

  // A write is current, and RTS is as it was or up.
  method GiveWrite(toggling: bool) returns (p: RtsPaths)
    ensures fresh(p) && p.Valid() && p.toggling == toggling == p.rts && p.currentWrite && p.writesQueued == 0 && p.unsent
    ensures p.count == 0 && !p.brk && !p.immediate && !p.currentImmediate && !p.wantsTxEmpty && p.hardwareEmpty
  {
    p := new RtsPaths(toggling);
    p.StartOrQueue();
    p.GiveWriteToIsr();
  }

  method SendWrite(toggling: bool) returns (p: RtsPaths)
    ensures fresh(p) && p.Valid() && p.toggling == toggling == p.rts && p.currentWrite && p.writesQueued == 0 && !p.unsent
    ensures if toggling then p.dpcQueued else p.count == 0
    ensures p.dpc == NotRunning && !p.timerQueued && p.callbacksDue == 0
    ensures !p.brk && !p.immediate && !p.wantsTxEmpty && !p.hardwareEmpty
  {
    p := new RtsPaths(toggling);
    p.StartOrQueue();
    p.GiveWriteToIsr();
    p.SendChars(Data(1, true));
  }

  // The last character of a write is in the hardware when toggling is turned on.  RTS goes up and stays up:
  // when the character has left, nothing looks.
  method ToggleTooEarly() returns (p: RtsPaths)
    ensures fresh(p) && p.Valid() && p.LeftUp() && p.hardwareEmpty
  {
    p := SendWrite(false);
    p.GetNextWrite();
    p.StartToggling();
    p.HardwareEmpties();
  }

  // It is turned on a little earlier, while the write is still the current one.
  method ToggleDuringWrite() returns (p: RtsPaths)
    ensures fresh(p) && p.Valid() && p.LeftUp() && p.hardwareEmpty
  {
    p := SendWrite(false);
    p.HardwareEmpties();
    p.StartToggling();
    p.GetNextWrite();
  }

  // A write that ends before any of its characters could go out.
  method EndUnsent() returns (p: RtsPaths)
    ensures fresh(p) && p.Valid() && p.LeftUp() && p.hardwareEmpty
  {
    p := GiveWrite(true);
    p.GrabWriteFromIsr();
    p.GetNextWrite();
  }

  // A write that is sent to the end: the path of its last character finds it still current, and ends.
  method EndAfterPath() returns (p: RtsPaths)
    ensures fresh(p) && p.Valid() && p.LeftUp() && p.hardwareEmpty
  {
    p := SendWrite(true);
    p.HardwareEmpties();
    PollOnce(p);
    p.GetNextWrite();
  }

  // The DPC, the timer and its callback.
  method PollOnce(p: RtsPaths)
    requires p.Valid() && p.toggling && p.rts && p.currentWrite && p.hardwareEmpty && !p.wantsTxEmpty
    requires p.dpcQueued && p.dpc == NotRunning && !p.timerQueued && p.callbacksDue == 0
    modifies p`dpcQueued, p`dpc, p`timerQueued, p`callbacksDue, p`count, p`rts
    ensures p.Valid() && p.rts && p.count == 0
  {
    p.StartDpc();
    p.SetTimer();
    p.Expire();
    p.InvokePerhapsLowerRTS();
  }

  // An immediate character that is taken back when a write has left RTS to it.
  method GrabLast() returns (p: RtsPaths)
    ensures fresh(p) && p.Valid() && p.LeftUp() && p.hardwareEmpty
  {
    p := GiveWrite(true);
    p.GrabWriteFromIsr();
    p.StartImmediate();
    p.GiveImmediateToIsr();
    p.GetNextWrite();
    p.GrabImmediateFromIsr();
  }
}
