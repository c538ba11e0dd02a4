/** The transmit side: writes, immediate characters, flow control characters and the wakeups between them.

    Nothing polls the transmitter.  When there is something to send and nothing holds it back, either the
    holding register still has a character in it, and the interrupt that follows will go on, or an interrupt
    is already pending; otherwise the port has gone to sleep.  That is `Awake`.  The UART is an 8250: the
    "holding register empty" interrupt is raised when the register empties and again whenever the interrupt
    is enabled while the register is empty; reading it as the interrupt's cause, or filling the register,
    takes it back.  `holdingEmpty` is what the driver remembers of all that.

    Every method is one stretch of code that runs at interrupt level.  `Valid` holds between them; `Awake`
    holds whenever the interrupt service routine is not running. */
module Transmit {
  import opened Prelude
  import opened Wire

  /** The reasons for holding transmission (TXHolding). */
  datatype Holds = Holds(cts: bool, dsr: bool, dcd: bool, xoff: bool, brk: bool) {
    // Some reason other than an Xoff.
    predicate ByLine() { cts || dsr || dcd || brk }

    predicate Any() { ByLine() || xoff }
  }

  /** The flow control settings that concern this side. */
  datatype HandFlow = HandFlow(cts: bool, dsr: bool, dcd: bool,
                               autoTransmit: bool, autoReceive: bool, xoffContinue: bool,
                               xonLimit: nat, xoffLimit: nat) {
    predicate OutHandshake() { cts || dsr || dcd }
  }

  /** The modem lines, as read from the modem status register. */
  datatype Lines = Lines(cts: bool, dsr: bool, dcd: bool)

  // The reasons for holding after a look at the modem lines.
  function Updated(hold: Holds, flow: HandFlow, lines: Lines): Holds {
    Holds(flow.cts && !lines.cts, flow.dsr && !lines.dsr, flow.dcd && !lines.dcd, hold.xoff, hold.brk)
  }

  // What the log says.
  ghost predicate Tells(log: Log, data: seq<byte>, peerStopped: bool, stopped: bool) {
    DataOf(log) == data && PeerStopped(log) == peerStopped && Stopped(log) == stopped && Obedient(log)
  }

  // How many bytes of a write have gone out.
  function SentOf(buffer: seq<byte>, writeLength: nat, information: nat): int {
    if writeLength > 0 then |buffer| - writeLength else information
  }

  // The current write's account: the counters of the ISR, its reference to the write, and the bytes gone out.
  ghost predicate Accounts(buffer: seq<byte>, hasWrite: bool, writeLength: nat, writeCurrentChar: nat, information: nat,
                           completeWrite: bool, writeReference: bool, data: seq<byte>, reported: seq<byte>) {
    var sent := SentOf(buffer, writeLength, information);
    && 0 <= sent <= |buffer|
    && (writeLength > 0 ==> hasWrite && writeCurrentChar == sent && !completeWrite)
    && (completeWrite ==> hasWrite && information == |buffer|)
    && (writeReference <==> writeLength > 0 || completeWrite)
    && data == reported + (if hasWrite then buffer[..sent] else [])
  }

  // And what it says after one more entry.
  lemma TellsAppended(log: Log, e: Entry, data: seq<byte>, peerStopped: bool, stopped: bool)
    requires Tells(log, data, peerStopped, stopped) && !(e.Data? && stopped)
    ensures Tells(log + [e], if e.Data? then data + [e.b] else data, e.SentXoff? || (peerStopped && !e.SentXon?),
                  e.Stop? || (e.SentXoff? && e.stops) || (stopped && !e.Go? && !e.SentXon?))
  {
    Appended(log, e);
  }

  /** What the interrupt for an empty holding register decides to send. */
  datatype Choice = SendXon | SendXoff | SendImmediate | SendData | SendNothing

  function DataEntries(bytes: seq<byte>): (log: Log)
    ensures |log| == |bytes|
  {
    seq(|bytes|, i requires 0 <= i < |bytes| => Data(bytes[i]))
  }

  lemma OneMoreEntry(data: seq<byte>, log: Log, bytes: seq<byte>, from: nat, n: nat)
    requires from + n < |bytes|
    ensures var x := bytes[from + n];
      && data + bytes[from..from + n + 1] == data + bytes[from..from + n] + [x]
      && log + DataEntries(bytes[from..from + n + 1]) == log + DataEntries(bytes[from..from + n]) + [Data(x)]
  {
    assert bytes[from..from + n + 1] == bytes[from..from + n] + [bytes[from + n]];
    assert DataEntries(bytes[from..from + n + 1]) == DataEntries(bytes[from..from + n]) + [Data(bytes[from + n])];
  }

  lemma ExtendPrefix(before: seq<byte>, bytes: seq<byte>, from: nat, n: nat)
    requires from + n <= |bytes|
    ensures before + bytes[..from] + bytes[from..from + n] == before + bytes[..from + n]
  {
    assert bytes[..from] + bytes[from..from + n] == bytes[..from + n];
  }

  function Min(a: nat, b: nat): nat { if a < b then a else b }

  class Transmitter {
    const fifoPresent: bool
    const txFifoAmount: nat

    // The UART.
    var thre: bool                 // the transmit holding register is empty
    var threPending: bool          // and an interrupt says so

    var hold: Holds
    var holdingEmpty: bool
    var sendXon: bool
    var sendXoff: bool
    var handFlow: HandFlow

    // The receive side as far as it asks for flow control characters.
    var rxXoff: bool               // RXHolding has SERIAL_RX_XOFF
    var chars: nat                 // CharsInInterruptBuffer
    var bufferSize: nat

    // The current write, and the immediate character.
    var hasWrite: bool
    var buffer: seq<byte>
    var writeLength: nat
    var writeCurrentChar: nat
    var information: nat
    var completeWrite: bool        // CompleteWriteDpc is queued
    var writeReference: bool       // the ISR's bit in the write's RefCount
    var transmitImmediate: bool
    var immediateChar: byte
    var completeImmediate: bool    // CompleteImmediateDpc is queued
    var immediateReference: bool   // the ISR's bit in the immediate character's RefCount

    ghost var log: Log
    ghost var data: seq<byte>      // the bytes of writes in the log
    ghost var peerStopped: bool    // the last flow control character in the log is an Xoff
    ghost var reported: seq<byte>  // what the finished writes said they had sent

    ghost predicate Valid()
      reads this
    {
      Registers() && Debt() && Progress() && References() && Told()
    }

    // The ISR's reference to an immediate character is there as long as the ISR has the character, or its
    // completion is due.
    ghost predicate References()
      reads this`transmitImmediate, this`completeImmediate, this`immediateReference
    {
      && !(transmitImmediate && completeImmediate)
      && immediateReference == (transmitImmediate || completeImmediate)
    }

    // The ghost fields say what the log says, and so does the Xoff hold.
    ghost predicate Told()
      reads this
    {
      forall l :: l == log ==> Tells(l, data, peerStopped, hold.xoff)
    }

    lemma ValidTells()
      requires Told()
      ensures Tells(log, data, peerStopped, hold.xoff)
    {
    }

    // An empty register without an interrupt is known to be empty.
    ghost predicate Registers()
      reads this
    {
      && (threPending ==> thre)
      && (thre && !threPending ==> holdingEmpty)
      && txFifoAmount > 0
      && handFlow.xonLimit <= bufferSize
      && handFlow.xoffLimit <= bufferSize
    }

    // A peer that was stopped is owed an Xon, or still has to wait for one.
    ghost predicate Debt()
      reads this
    {
      && !(sendXon && sendXoff)
      && (sendXoff ==> rxXoff)
      && (peerStopped ==> rxXoff || sendXon)
    }

    // What has gone out is what was reported and what the current write has sent.
    ghost predicate Progress()
      reads this
    {
      && writeLength <= |buffer|
      && forall b :: b == buffer ==>
           Accounts(b, hasWrite, writeLength, writeCurrentChar, information, completeWrite, writeReference, data, reported)
    }

    lemma ProgressMeans()
      requires Progress()
      ensures Accounts(buffer, hasWrite, writeLength, writeCurrentChar, information, completeWrite, writeReference,
                       data, reported)
    {
    }

    // How many bytes of the current write have gone out.
    ghost function Sent(): int
      reads this`buffer, this`writeLength, this`information
    {
      SentOf(buffer, writeLength, information)
    }

    predicate Work()
      reads this`writeLength, this`transmitImmediate
    {
      writeLength > 0 || transmitImmediate
    }

    // The transmitter will be heard of again.
    predicate Armed()
      reads this`thre, this`threPending
    {
      !thre || threPending
    }

    predicate Awake()
      reads this`writeLength, this`transmitImmediate, this`hold, this`thre, this`threPending
    {
      Work() && !hold.Any() ==> Armed()
    }

    // An Xon that may be sent will be.
    predicate XonAwake()
      reads this`sendXon, this`hold, this`thre, this`threPending
    {
      sendXon && !hold.ByLine() ==> Armed()
    }

    // With automatic receive flow control, the ring is as full as it may get.
    predicate AtLimit()
      reads this`handFlow, this`bufferSize, this`chars
    {
      handFlow.autoReceive && bufferSize - handFlow.xoffLimit <= chars
    }

    // What the limit is for: then the peer has been stopped, or an Xoff is going to stop it.
    ghost predicate Guarded()
      reads this`handFlow, this`bufferSize, this`chars, this`peerStopped, this`sendXoff
    {
      AtLimit() ==> peerStopped || sendXoff
    }

    // The state at open.
    constructor (fifoPresent: bool, txFifoAmount: nat, bufferSize: nat, handFlow: HandFlow)
      requires txFifoAmount > 0 && handFlow.xonLimit <= bufferSize && handFlow.xoffLimit <= bufferSize
      ensures Valid() && Awake() && log == [] && reported == [] && !hold.Any() && !hasWrite && !transmitImmediate
      ensures thre && !threPending && this.handFlow == handFlow && chars == 0 && this.bufferSize == bufferSize
      ensures !sendXon && !sendXoff && !rxXoff && !immediateReference && !peerStopped
      ensures XonAwake() && (Guarded() <==> !(handFlow.autoReceive && handFlow.xoffLimit == bufferSize))
    {
      this.fifoPresent, this.txFifoAmount, this.bufferSize, this.handFlow := fifoPresent, txFifoAmount, bufferSize, handFlow;
      thre, threPending, holdingEmpty := true, false, true;
      hold, sendXon, sendXoff, rxXoff, chars := Holds(false, false, false, false, false), false, false, false, 0;
      hasWrite, buffer, writeLength, writeCurrentChar, information, completeWrite := false, [], 0, 0, 0, false;
      writeReference, transmitImmediate, immediateChar, completeImmediate, immediateReference := false, false, 0, false, false;
      log, data, peerStopped, reported := [], [], false, [];
    }

    // Something happens, and may change the Xoff hold.
    method Record(e: Entry)
      requires Told() && !(e.Data? && hold.xoff)
      modifies this`log, this`data, this`peerStopped, this`hold
      ensures Told() && log == old(log) + [e] && data == (if e.Data? then old(data) + [e.b] else old(data))
      ensures peerStopped == (e.SentXoff? || (old(peerStopped) && !e.SentXon?))
      ensures hold == old(hold).(xoff := e.Stop? || (e.SentXoff? && e.stops) || (old(hold).xoff && !e.Go? && !e.SentXon?))
    {
      ValidTells();
      TellsAppended(log, e, data, peerStopped, hold.xoff);
      log := log + [e];
      if e.Data? { data := data + [e.b]; }
      peerStopped := e.SentXoff? || (peerStopped && !e.SentXon?);
      match e {
        case Stop => hold := hold.(xoff := true);
        case SentXoff(stops) => if stops { hold := hold.(xoff := true); }
        case Go => hold := hold.(xoff := false);
        case SentXon => hold := hold.(xoff := false);
        case _ =>
      }
    }

    // ----- The UART -----

    // The holding register empties.
    method Drain()
      requires Valid()
      modifies this`thre, this`threPending
      ensures Valid() && (Armed() <==> old(Armed()))
      ensures thre && threPending == (old(threPending) || !old(thre))
    {
      if !thre { thre, threPending := true, true; }
    }

    // DISABLE_ALL_INTERRUPTS and ENABLE_ALL_INTERRUPTS.
    method Tickle()
      requires Valid()
      modifies this`threPending
      ensures Valid() && Armed()
    {
      threPending := thre;
    }

    // SerialProcessLSR: an error may make it tickle the UART, for a chip that forgets the interrupt.
    method ProcessLSR(error: bool) returns (empty: bool)
      requires Valid()
      modifies this`holdingEmpty, this`threPending
      ensures Valid() && empty == holdingEmpty == thre
      ensures threPending == (old(threPending) || (error && thre && Work()))
      ensures !XonAwake() <==> old(!XonAwake()) && !(error && Work())
    {
      empty := thre;
      holdingEmpty := empty;
      if error && empty && Work() { Tickle(); }
    }

    // ----- Flow control -----

    // SerialProdXonXoff.
    method ProdXonXoff(xon: bool)
      requires Registers() && Progress() && References() && Told() && !(sendXon && sendXoff) && (rxXoff || xon)
      modifies this`threPending, this`sendXon, this`sendXoff
      ensures Valid() && sendXon == xon && sendXoff == !xon
      ensures Armed() <==> old(Armed()) || old(!sendXon && !sendXoff)
    {
      if !sendXon && !sendXoff && holdingEmpty { threPending := thre; }
      sendXon, sendXoff := xon, !xon;
    }

    // SerialHandleModemUpdate, the part about holding transmission.  A release wakes the transmitter for data,
    // but for an Xon only if data can go too.
    method HandleModemUpdate(lines: Lines, doingTX: bool)
      requires Valid()
      modifies this`hold, this`threPending
      ensures Valid() && hold == Updated(old(hold), handFlow, lines)
      ensures hold.cts == (handFlow.cts && !lines.cts) && hold.dsr == (handFlow.dsr && !lines.dsr)
      ensures hold.dcd == (handFlow.dcd && !lines.dcd) && hold.xoff == old(hold.xoff) && hold.brk == old(hold.brk)
      ensures Armed() <==> old(Armed()) || (!doingTX && old(hold).Any() && !hold.Any() && Work())
      ensures !XonAwake() <==> && sendXon && !hold.ByLine() && !old(Armed())
                               && !(!doingTX && old(hold).Any() && !hold.Any() && Work())
    {
      var oldHold := hold;
      UpdateHold(lines);
      if !doingTX && oldHold.Any() { Restart(); }
    }

    method UpdateHold(lines: Lines)
      requires Valid()
      modifies this`hold
      ensures Valid() && hold == Updated(old(hold), handFlow, lines)
      ensures hold.cts == (handFlow.cts && !lines.cts) && hold.dsr == (handFlow.dsr && !lines.dsr)
      ensures hold.dcd == (handFlow.dcd && !lines.dcd) && hold.xoff == old(hold.xoff) && hold.brk == old(hold.brk)
    {
      var h := hold;
      if handFlow.OutHandshake() {
        if handFlow.cts { h := h.(cts := !lines.cts); } else { h := h.(cts := false); }
        if handFlow.dsr { h := h.(dsr := !lines.dsr); } else { h := h.(dsr := false); }
        if handFlow.dcd { h := h.(dcd := !lines.dcd); } else { h := h.(dcd := false); }
      } else if h.cts || h.dsr || h.dcd {
        h := h.(cts := false, dsr := false, dcd := false);
      }
      hold := h;
    }

    // Tickles the UART if what held transmission has gone and there is something to send.
    method Restart()
      requires Valid()
      modifies this`threPending
      ensures Valid() && Awake() && (Armed() <==> old(Armed()) || (!hold.Any() && Work()))
    {
      if !hold.Any() && (transmitImmediate || writeLength > 0) && holdingEmpty { Tickle(); }
    }

    // A character arrives that automatic transmit flow control takes: Xoff wins if both are the same.
    method ReceiveFlowChar(isXoff: bool)
      requires Valid()
      modifies this`log, this`data, this`peerStopped, this`hold
      ensures Valid() && hold == old(hold).(xoff := isXoff) && log == old(log) + [if isXoff then Stop else Go]
      ensures peerStopped == old(peerStopped) && data == old(data) && XonAwake() == old(XonAwake())
    {
      Record(if isXoff then Stop else Go);
    }

    // SerialPutChar into the ring, the part about Xoff.
    method PutChar()
      requires Valid()
      modifies this`rxXoff, this`threPending, this`sendXon, this`sendXoff, this`chars
      ensures Valid()
      ensures chars == if old(chars) < bufferSize then old(chars) + 1 else old(chars)
      ensures rxXoff == (old(rxXoff) || (handFlow.autoReceive && bufferSize - handFlow.xoffLimit <= old(chars) + 1))
      ensures sendXon == (old(sendXon) && rxXoff == old(rxXoff)) && sendXoff == (old(sendXoff) || rxXoff != old(rxXoff))
      ensures Armed() <==> old(Armed()) || (rxXoff != old(rxXoff) && old(!sendXon && !sendXoff))
      ensures !XonAwake() <==> old(!XonAwake()) && rxXoff == old(rxXoff)
      ensures Guarded() <==> (AtLimit() ==> old(!rxXoff || peerStopped || sendXoff))
    {
      if handFlow.autoReceive && !rxXoff && bufferSize - handFlow.xoffLimit <= chars + 1 {
        rxXoff := true;
        ProdXonXoff(false);
      }
      if chars < bufferSize { chars := chars + 1; }
    }

    // SerialHandleReducedIntBuffer, after `n` characters were taken out of the ring.
    method TakeChars(n: nat)
      requires Valid() && n <= chars
      modifies this`threPending, this`sendXon, this`sendXoff, this`chars
      ensures Valid() && chars == old(chars) - n
      ensures (peerStopped || rxXoff) && chars <= handFlow.xonLimit ==> sendXon
      ensures var asks := rxXoff && chars <= handFlow.xonLimit;
        && sendXon == (old(sendXon) || asks) && sendXoff == (old(sendXoff) && !asks)
        && (Armed() <==> old(Armed()) || (asks && old(!sendXon && !sendXoff)))
      ensures !XonAwake() <==> && !hold.ByLine() && !old(Armed())
                               && old(sendXon || (sendXoff && chars - n <= handFlow.xonLimit))
      ensures Guarded() <==> (AtLimit() ==> peerStopped || (old(sendXoff) && chars > handFlow.xonLimit))
    {
      chars := chars - n;
      if rxXoff && chars <= handFlow.xonLimit { ProdXonXoff(true); }
    }

    // ----- What the interrupt for an empty holding register does -----

    // A flow control or immediate character goes into the holding register.
    method Put(e: Entry)
      requires Told() && Progress() && !e.Data?
      modifies this`log, this`data, this`peerStopped, this`hold, this`thre, this`threPending, this`holdingEmpty
      ensures Told() && Progress() && log == old(log) + [e]
      ensures peerStopped == (e.SentXoff? || (old(peerStopped) && !e.SentXon?))
      ensures hold == old(hold).(xoff := e.Stop? || (e.SentXoff? && e.stops) || (old(hold).xoff && !e.Go? && !e.SentXon?))
      ensures !thre && !threPending && !holdingEmpty
    {
      Record(e);
      thre, threPending, holdingEmpty := false, false, false;
    }

    method PutXon()
      requires Valid() && sendXon && !hold.ByLine()
      modifies this`log, this`data, this`peerStopped, this`hold, this`thre, this`threPending, this`holdingEmpty,
               this`sendXon, this`rxXoff
      ensures Valid() && !thre && !threPending && !sendXon && !rxXoff && hold == old(hold).(xoff := false)
      ensures log == old(log) + [SentXon] && !peerStopped
    {
      Put(SentXon);
      sendXon := false;
      rxXoff := false;
    }

    method PutXoff()
      requires Valid() && sendXoff && !hold.Any()
      modifies this`log, this`data, this`peerStopped, this`hold, this`thre, this`threPending, this`holdingEmpty,
               this`sendXoff
      ensures Valid() && !thre && !threPending && !sendXoff && peerStopped
      ensures log == old(log) + [SentXoff(!handFlow.xoffContinue)]
      ensures hold == old(hold).(xoff := !handFlow.xoffContinue)
    {
      Put(SentXoff(!handFlow.xoffContinue));
      sendXoff := false;
    }

    method PutImmediate()
      requires Valid() && transmitImmediate && !hold.ByLine()
      modifies this`log, this`data, this`peerStopped, this`hold, this`thre, this`threPending, this`holdingEmpty,
               this`transmitImmediate, this`completeImmediate
      ensures Valid() && !thre && !threPending && !transmitImmediate && completeImmediate && hold == old(hold)
      ensures log == old(log) + [Immediate(immediateChar)] && peerStopped == old(peerStopped)
    {
      transmitImmediate := false;
      Put(Immediate(immediateChar));
      completeImmediate := true;
    }

    // How many characters of the write go into the FIFO, or one into the register.
    function Amount(room: nat): nat
      reads this`writeLength
    {
      if fifoPresent then Min(Min(room, txFifoAmount), writeLength) else 1
    }

    // The characters of the write that the FIFO has room for.  With no room nothing is sent, but the driver
    // takes the register for full; the routine that called it corrects that when it looks again.
    method PutData(room: nat)
      requires Valid() && thre && !threPending && !hold.Any() && writeLength > 0
      modifies this`log, this`data, this`peerStopped, this`hold, this`thre, this`threPending, this`holdingEmpty,
               this`writeLength, this`writeCurrentChar, this`information, this`completeWrite
      ensures Valid() <==> old(Amount(room)) > 0
      ensures Debt() && Progress() && References() && Told()
      ensures thre == (old(Amount(room)) == 0) && !threPending && !holdingEmpty
      ensures hold == old(hold) && peerStopped == old(peerStopped)
      ensures old(Amount(room)) <= old(writeLength) && writeLength == old(writeLength) - old(Amount(room))
      ensures log == old(log) + DataEntries(buffer[old(Sent())..old(Sent()) + old(Amount(room))])
      ensures completeWrite <==> writeLength == 0
    {
      ProgressMeans();
      var amountToWrite := AmountToWrite(room);
      PutChars(amountToWrite);
    }

    // The characters go into the holding register and are counted as sent.
    method PutChars(amountToWrite: nat)
      requires Told() && !hold.Any() && thre && !threPending && 0 < writeLength && amountToWrite <= writeLength
      requires Accounts(buffer, hasWrite, writeLength, writeCurrentChar, information, completeWrite, writeReference,
                        data, reported)
      modifies this`log, this`data, this`peerStopped, this`hold, this`thre, this`threPending, this`holdingEmpty,
               this`writeLength, this`writeCurrentChar, this`information, this`completeWrite
      ensures Progress() && Told()
      ensures thre == (amountToWrite == 0) && !threPending && !holdingEmpty
      ensures hold == old(hold) && peerStopped == old(peerStopped) && writeLength == old(writeLength) - amountToWrite
      ensures log == old(log) + DataEntries(buffer[old(Sent())..old(Sent()) + amountToWrite])
      ensures completeWrite <==> writeLength == 0
    {
      ExtendPrefix(reported, buffer, Sent(), amountToWrite);
      FillHolding(amountToWrite);
      Advance(amountToWrite);
    }

    method AmountToWrite(room: nat) returns (amountToWrite: nat)
      requires writeLength > 0
      ensures amountToWrite == Amount(room) <= writeLength
    {
      amountToWrite := 1;
      if fifoPresent {
        amountToWrite := room;
        if amountToWrite > txFifoAmount { amountToWrite := txFifoAmount; }
        if amountToWrite > writeLength { amountToWrite := writeLength; }
      }
    }

    // Counts characters that are now in the holding register as sent.
    method Advance(amountToWrite: nat)
      requires amountToWrite <= writeLength && 0 < writeLength <= |buffer|
      requires hasWrite && !completeWrite && writeReference && writeCurrentChar == Sent()
      requires data == reported + buffer[..Sent() + amountToWrite]
      modifies this`writeLength, this`writeCurrentChar, this`information, this`completeWrite
      ensures Progress() && writeLength == old(writeLength) - amountToWrite && (completeWrite <==> writeLength == 0)
    {
      writeCurrentChar := writeCurrentChar + amountToWrite;
      writeLength := writeLength - amountToWrite;
      if writeLength == 0 {
        information := |buffer|;
        completeWrite := true;
      }
    }

    // Writes the next characters to the holding register, one by one.
    method FillHolding(amountToWrite: nat)
      requires Told() && !hold.Any() && thre && !threPending && writeCurrentChar + amountToWrite <= |buffer|
      modifies this`log, this`data, this`peerStopped, this`hold, this`thre, this`threPending, this`holdingEmpty
      ensures Told() && hold == old(hold) && peerStopped == old(peerStopped)
      ensures data == old(data) + buffer[writeCurrentChar..writeCurrentChar + amountToWrite]
      ensures log == old(log) + DataEntries(buffer[writeCurrentChar..writeCurrentChar + amountToWrite])
      ensures thre == (amountToWrite == 0) && !threPending && !holdingEmpty
    {
      var i := 0;
      while i < amountToWrite
        invariant i <= amountToWrite && Told() && hold == old(hold) && peerStopped == old(peerStopped)
        invariant data == old(data) + buffer[writeCurrentChar..writeCurrentChar + i]
        invariant log == old(log) + DataEntries(buffer[writeCurrentChar..writeCurrentChar + i])
        invariant thre == (i == 0) && !threPending
      {
        OneMoreEntry(old(data), old(log), buffer, writeCurrentChar, i);
        Record(Data(buffer[writeCurrentChar + i]));
        thre := false;
        i := i + 1;
      }
      holdingEmpty := false;
    }

    // There is something to send, nothing holds it, and the register is empty.
    predicate Going()
      reads this
    {
      thre && Work() && !hold.Any()
    }

    // What comes first when the register is empty, given the holds.
    function Chosen(h: Holds): Choice
      reads this`sendXon, this`sendXoff, this`transmitImmediate, this`writeLength
    {
      if sendXon && !h.ByLine() then SendXon
      else if sendXoff && !h.Any() then SendXoff
      else if transmitImmediate && !h.ByLine() then SendImmediate
      else if writeLength > 0 && !h.Any() then SendData
      else SendNothing
    }

    // What a choice puts on the line.
    ghost function Output(choice: Choice, room: nat): Log
      requires choice == SendData ==> 0 < writeLength <= |buffer| && Amount(room) <= writeLength
      reads this`handFlow, this`immediateChar, this`buffer, this`writeLength, this`information
    {
      match choice
      case SendXon => [SentXon]
      case SendXoff => [SentXoff(!handFlow.xoffContinue)]
      case SendImmediate => [Immediate(immediateChar)]
      case SendData => DataEntries(buffer[Sent()..Sent() + Amount(room)])
      case SendNothing => []
    }

    // The holds after a choice.
    function HoldAfter(choice: Choice, h: Holds): Holds
      reads this`handFlow
    {
      match choice
      case SendXon => h.(xoff := false)
      case SendXoff => h.(xoff := !handFlow.xoffContinue)
      case _ => h
    }

    // What is left to send after a choice, given what there was, and how much of the write is left.
    predicate After(choice: Choice, xon: bool, xoff: bool, rxHeld: bool, immediate: bool, left: int)
      reads this`sendXon, this`sendXoff, this`rxXoff, this`transmitImmediate, this`writeLength
    {
      && sendXon == (xon && choice != SendXon)
      && sendXoff == (xoff && choice != SendXoff)
      && rxXoff == (rxHeld && choice != SendXon)
      && transmitImmediate == (immediate && choice != SendImmediate)
      && writeLength == left
    }

    // The holds after the interrupt for an empty holding register has looked at the modem lines.
    function Seen(lines: Lines): Holds
      reads this`writeLength, this`transmitImmediate, this`sendXon, this`sendXoff, this`handFlow, this`hold
    {
      if (Work() || sendXon || sendXoff) && handFlow.OutHandshake() then Updated(hold, handFlow, lines) else hold
    }

    // What comes first after that look: a line that a handshake names holds everything while it is down, an
    // Xoff holds all but an Xon and an immediate character.
    lemma SeenChosen(lines: Lines)
      ensures var choice := Chosen(Seen(lines));
              && (choice != SendNothing <==>
                  && !hold.brk && (sendXon || transmitImmediate || (!hold.xoff && (sendXoff || writeLength > 0)))
                  && if handFlow.cts || handFlow.dsr || handFlow.dcd
                     then (handFlow.cts ==> lines.cts) && (handFlow.dsr ==> lines.dsr) && (handFlow.dcd ==> lines.dcd)
                     else !hold.cts && !hold.dsr && !hold.dcd)
              && (choice == SendXon ==> sendXon)
              && (choice == SendXoff ==> sendXoff && !hold.xoff && !sendXon)
              && (choice == SendImmediate ==> transmitImmediate && !sendXon && !(sendXoff && !hold.xoff))
              && (choice == SendData ==> writeLength > 0 && !hold.xoff && !sendXon && !sendXoff && !transmitImmediate)
    {
    }

    // Sends what comes first.  Data is sent only if the write has some left, though the code does not ask.
    method SendOne(room: nat) returns (ghost choice: Choice)
      requires Valid() && thre && !threPending && room > 0 && (Work() || sendXon || sendXoff)
      modifies this`log, this`data, this`peerStopped, this`hold, this`thre, this`threPending, this`holdingEmpty,
               this`sendXon, this`sendXoff, this`rxXoff, this`transmitImmediate, this`completeImmediate,
               this`writeLength, this`writeCurrentChar, this`information, this`completeWrite
      ensures choice == old(Chosen(hold)) && (choice == SendData ==> 0 < old(Amount(room)) <= old(writeLength))
      ensures Valid() && !Going() && log == old(log) + old(Output(choice, room)) && hold == old(HoldAfter(choice, hold))
      ensures thre == (choice == SendNothing) && !threPending
      ensures After(choice, old(sendXon), old(sendXoff), old(rxXoff), old(transmitImmediate),
                    old(writeLength) - if choice == SendData then old(Amount(room)) else 0)
      ensures peerStopped == (choice == SendXoff || (old(peerStopped) && choice != SendXon))
    {
      choice := Chosen(hold);
      if sendXon && !hold.ByLine() {
        PutXon();
      } else if sendXoff && !hold.Any() {
        PutXoff();
      } else if transmitImmediate && !hold.ByLine() {
        PutImmediate();
      } else if !hold.Any() {
        PutData(room);
      }
    }

    // Looks at the modem lines and then sends, if there is anything to send; the FIFO has `room`.
    method Transmit(lines: Lines, room: nat) returns (ghost choice: Choice)
      requires Valid() && thre && !threPending && room > 0
      modifies this`log, this`data, this`peerStopped, this`hold, this`thre, this`threPending, this`holdingEmpty,
               this`sendXon, this`sendXoff, this`rxXoff, this`transmitImmediate, this`completeImmediate,
               this`writeLength, this`writeCurrentChar, this`information, this`completeWrite
      ensures choice == old(Chosen(Seen(lines))) && (choice == SendData ==> 0 < old(Amount(room)) <= old(writeLength))
      ensures Valid() && !Going() && log == old(log) + old(Output(choice, room))
      ensures hold == old(HoldAfter(choice, Seen(lines))) && thre == (choice == SendNothing) && !threPending
      ensures After(choice, old(sendXon), old(sendXoff), old(rxXoff), old(transmitImmediate),
                    old(writeLength) - if choice == SendData then old(Amount(room)) else 0)
      ensures peerStopped == (choice == SendXoff || (old(peerStopped) && choice != SendXon))
    {
      choice := SendNothing;
      if Work() || sendXon || sendXoff {
        if handFlow.OutHandshake() { HandleModemUpdate(lines, true); }
        choice := SendOne(room);
      }
    }

    // ----- The interrupt service routine -----

    // Something from outside during the routine: the register empties, a character or an error arrives, a
    // modem line changes (`moved`).
    method Outside() returns (moved: bool)
      requires Valid()
      modifies this`log, this`data, this`peerStopped, this`hold, this`thre, this`threPending, this`holdingEmpty,
               this`sendXon, this`sendXoff, this`rxXoff, this`chars
      ensures Valid() && old(log) <= log && data == old(data)
      ensures (old(Armed()) ==> Armed()) && (old(thre) ==> thre) && (sendXon ==> old(sendXon))
      ensures !moved ==> (!XonAwake() && !threPending <==> old(!XonAwake()) && sendXon && !threPending)
    {
      var what: nat := *;
      moved := false;
      if what == 0 {
        Drain();
      } else if what == 1 {
        var error: bool := *;
        var empty := ProcessLSR(error);
      } else if what == 2 {
        var lines: Lines := *;
        HandleModemUpdate(lines, false);
        moved := true;
      } else if what == 3 && handFlow.autoTransmit {
        var isXoff: bool := *;
        ReceiveFlowChar(isXoff);
      } else {
        PutChar();
      }
    }

    // SerialISR.  A call that finds no interrupt pending changes nothing (`served` is false).  Any other serves
    // the causes of the interrupt until there are none, and then goes on transmitting if the register is empty
    // and there is something to send after all.  At most `n` things happen outside meanwhile.
    method Isr(n: nat) returns (served: bool, ghost moved: bool, ghost transmitted: bool)
      requires Valid()
      modifies this`log, this`data, this`peerStopped, this`hold, this`thre, this`threPending, this`holdingEmpty,
               this`sendXon, this`sendXoff, this`rxXoff, this`chars, this`transmitImmediate, this`completeImmediate,
               this`writeLength, this`writeCurrentChar, this`information, this`completeWrite
      ensures Valid() && old(log) <= log
      ensures if served then Awake() && !Going() else unchanged(this) && !threPending
      ensures !moved ==> (!XonAwake() <==> old(!XonAwake()) && sendXon && !transmitted)
    {
      served, moved, transmitted := threPending, false, false;
      if !served {
        // Another cause than the transmitter.
        served := *;
        if !served { return; }
      }
      moved, transmitted := Serve(n);
    }

    method Serve(n: nat) returns (ghost moved: bool, ghost transmitted: bool)
      requires Valid()
      modifies this`log, this`data, this`peerStopped, this`hold, this`thre, this`threPending, this`holdingEmpty,
               this`sendXon, this`sendXoff, this`rxXoff, this`chars, this`transmitImmediate, this`completeImmediate,
               this`writeLength, this`writeCurrentChar, this`information, this`completeWrite
      ensures Valid() && old(log) <= log && Awake() && !Going()
      ensures !moved ==> (!XonAwake() <==> old(!XonAwake()) && sendXon && !transmitted)
    {
      var left, done := n, false;
      moved, transmitted := false, false;
      while !done
        invariant Valid() && old(log) <= log && (done ==> Awake() && !Going() && !threPending)
        invariant !moved && transmitted ==> XonAwake() || threPending
        invariant !moved && !transmitted ==> (!XonAwake() && !threPending <==> old(!XonAwake()) && sendXon && !threPending)
        decreases left, threPending, Going(), !done
      {
        var now: bool := *;
        if left > 0 && now {
          var line := Outside();
          moved := moved || line;
          left := left - 1;
        } else {
          var empty := true;
          if !threPending { empty := ProcessLSR(false); }
          if threPending || (empty && !hold.Any() && Work()) {
            ghost var choice := Continue();
            transmitted := true;
          } else {
            done := true;
          }
        }
      }
    }

    // The register is empty, and there is room for something.
    method Continue() returns (ghost choice: Choice)
      requires Valid() && thre
      modifies this`log, this`data, this`peerStopped, this`hold, this`thre, this`threPending, this`holdingEmpty,
               this`sendXon, this`sendXoff, this`rxXoff, this`transmitImmediate, this`completeImmediate,
               this`writeLength, this`writeCurrentChar, this`information, this`completeWrite
      ensures Valid() && old(log) <= log && !Going() && !threPending && XonAwake()
    {
      var lines: Lines, room: nat :| room > 0;
      choice := ServeThre(lines, room);
    }

    // Reading the cause of the interrupt has taken it back.
    method ServeEmpty(lines: Lines, room: nat) returns (ghost choice: Choice)
      requires Valid() && thre && room > 0
      modifies this`log, this`data, this`peerStopped, this`hold, this`thre, this`threPending, this`holdingEmpty,
               this`sendXon, this`sendXoff, this`rxXoff, this`transmitImmediate, this`completeImmediate,
               this`writeLength, this`writeCurrentChar, this`information, this`completeWrite
      ensures choice == old(Chosen(Seen(lines))) && (choice == SendData ==> 0 < old(Amount(room)) <= old(writeLength))
      ensures Valid() && !Going() && !threPending && thre == (choice == SendNothing)
      ensures log == old(log) + old(Output(choice, room)) && hold == old(HoldAfter(choice, Seen(lines)))
      ensures After(choice, old(sendXon), old(sendXoff), old(rxXoff), old(transmitImmediate),
                    old(writeLength) - if choice == SendData then old(Amount(room)) else 0)
      ensures XonAwake()
      ensures peerStopped == (choice == SendXoff || (old(peerStopped) && choice != SendXon))
      ensures Guarded() <==> (AtLimit() ==> choice != SendXon && old(peerStopped || sendXoff))
    {
      threPending := false;
      holdingEmpty := true;
      choice := Transmit(lines, room);
    }

    // The transmit part of the ISR, for a register that is empty.
    method ServeThre(lines: Lines, room: nat) returns (ghost choice: Choice)
      requires Valid() && thre && room > 0
      modifies this`log, this`data, this`peerStopped, this`hold, this`thre, this`threPending, this`holdingEmpty,
               this`sendXon, this`sendXoff, this`rxXoff, this`transmitImmediate, this`completeImmediate,
               this`writeLength, this`writeCurrentChar, this`information, this`completeWrite
      ensures choice == old(Chosen(Seen(lines))) && (choice == SendData ==> 0 < old(Amount(room)) <= old(writeLength))
      // A line that a handshake names holds everything while it is down; an Xoff holds all but an Xon and an
      // immediate character; what is first in the order of the code goes out.
      ensures choice != SendNothing ==>
                (handFlow.cts ==> lines.cts) && (handFlow.dsr ==> lines.dsr) && (handFlow.dcd ==> lines.dcd)
      ensures choice != SendNothing <==>
              && old(!hold.brk && (sendXon || transmitImmediate || (!hold.xoff && (sendXoff || writeLength > 0))))
              && if handFlow.cts || handFlow.dsr || handFlow.dcd
                 then (handFlow.cts ==> lines.cts) && (handFlow.dsr ==> lines.dsr) && (handFlow.dcd ==> lines.dcd)
                 else old(!hold.cts && !hold.dsr && !hold.dcd)
      ensures choice == SendXon ==> old(sendXon)
      ensures choice == SendXoff ==> old(sendXoff && !hold.xoff && !sendXon)
      ensures choice == SendImmediate ==> old(transmitImmediate && !sendXon && !(sendXoff && !hold.xoff))
      ensures choice == SendData ==> old(writeLength > 0 && !hold.xoff && !sendXon && !sendXoff && !transmitImmediate)
      ensures choice == SendXon ==> !sendXon && log == old(log) + [SentXon] && !hold.xoff
      ensures choice == SendXoff ==>
                !sendXoff && log == old(log) + [SentXoff(hold.xoff)] && hold.xoff == !handFlow.xoffContinue
      ensures choice == SendImmediate ==> !transmitImmediate && log == old(log) + [Immediate(immediateChar)]
      ensures choice == SendData ==> writeLength < old(writeLength)
      ensures choice == SendData ==> !fifoPresent ==> writeLength == old(writeLength) - 1
      ensures choice == SendData ==> fifoPresent ==>
                var n := old(writeLength) - writeLength;
                n <= room && n <= txFifoAmount && (n == room || n == txFifoAmount || writeLength == 0)
      ensures Valid() && !Going() && !threPending && thre == (choice == SendNothing)
      ensures log == old(log) + old(Output(choice, room)) && hold == old(HoldAfter(choice, Seen(lines)))
      ensures After(choice, old(sendXon), old(sendXoff), old(rxXoff), old(transmitImmediate),
                    old(writeLength) - if choice == SendData then old(Amount(room)) else 0)
      ensures XonAwake()
      ensures peerStopped == (choice == SendXoff || (old(peerStopped) && choice != SendXon))
      ensures Guarded() <==> (AtLimit() ==> choice != SendXon && old(peerStopped || sendXoff))
    {
      SeenChosen(lines);
      choice := ServeEmpty(lines, room);
    }

    // ----- Requests -----

    // SerialGiveWriteToIsr.  An Xoff counter comes here too, as a write of its one character.
    method GiveWriteToIsr(bytes: seq<byte>)
      requires Valid() && !hasWrite && bytes != []
      modifies this`hasWrite, this`buffer, this`writeLength, this`writeCurrentChar, this`information,
               this`writeReference, this`threPending
      ensures Valid() && (old(Awake()) ==> Awake()) && hasWrite && buffer == bytes && writeLength == |bytes| && Sent() == 0
      ensures threPending == if transmitImmediate || !holdingEmpty then old(threPending) else thre
      ensures Armed() <==> old(Armed()) || !transmitImmediate
    {
      ProgressMeans();
      hasWrite, buffer, writeLength, writeCurrentChar, information := true, bytes, |bytes|, 0, 0;
      writeReference := true;
      if !transmitImmediate {
        if holdingEmpty { Tickle(); }
      }
    }

    // SerialGrabWriteFromIsr: the write ends with what it has sent.  It drops the reference unless the
    // completion DPC is going to.
    method GrabWriteFromIsr()
      requires Valid() && hasWrite
      modifies this`writeLength, this`information, this`writeReference
      ensures Valid() && writeLength == 0 && information == old(Sent()) && (old(Awake()) ==> Awake())
      ensures writeReference == completeWrite
    {
      ProgressMeans();
      if writeLength > 0 {
        information := |buffer| - writeLength;
        writeLength := 0;
        writeReference := false;
      }
    }

    // SerialCompleteWrite, the part about the ISR's reference.
    method DropWriteReference()
      requires Valid() && completeWrite
      modifies this`completeWrite, this`writeReference
      ensures Valid() && writeLength == 0 && !writeReference
    {
      ProgressMeans();
      completeWrite := false;
      writeReference := false;
    }

    // The write is complete: what it reports is what went out.
    method FinishWrite() returns (sent: nat)
      requires Valid() && hasWrite && !writeReference
      modifies this`hasWrite, this`reported
      ensures Valid() && !hasWrite && writeLength == 0
      ensures sent <= |buffer| && reported == old(reported) + buffer[..sent] == DataOf(log)
    {
      ValidTells();
      ProgressMeans();
      sent := information;
      reported := reported + buffer[..information];
      hasWrite := false;
    }

    // SerialGiveImmediateToIsr.
    method GiveImmediateToIsr(c: byte)
      requires Valid() && !immediateReference
      modifies this`transmitImmediate, this`immediateChar, this`immediateReference, this`threPending
      ensures Valid() && (old(Awake()) ==> Awake()) && transmitImmediate && immediateChar == c
      ensures Armed() <==> old(Armed()) || writeLength == 0
    {
      transmitImmediate, immediateChar := true, c;
      immediateReference := true;
      if writeLength == 0 {
        if holdingEmpty { Tickle(); }
      }
    }

    // SerialGrabImmediateFromIsr.
    method GrabImmediateFromIsr()
      requires Valid()
      modifies this`transmitImmediate, this`immediateReference
      ensures Valid() && !transmitImmediate && (old(Awake()) ==> Awake())
      ensures immediateReference == completeImmediate
    {
      if transmitImmediate {
        transmitImmediate := false;
        immediateReference := false;
      }
    }

    // SerialCompleteImmediate, the part about the ISR's reference.
    method DropImmediateReference()
      requires Valid() && completeImmediate
      modifies this`completeImmediate, this`immediateReference
      ensures Valid() && !immediateReference
    {
      completeImmediate := false;
      immediateReference := false;
    }

    // ----- Calls from the application -----

    // SerialTurnOnBreak.
    method TurnOnBreak()
      requires Valid()
      modifies this`hold
      ensures Valid() && Awake() && hold == old(hold).(brk := true)
    {
      hold := hold.(brk := true);
    }

    // SerialTurnOffBreak.
    method TurnOffBreak()
      requires Valid()
      modifies this`hold, this`threPending
      ensures Valid() && (old(Awake()) ==> Awake()) && hold == old(hold).(brk := false)
      ensures Armed() <==> old(Armed()) || (old(hold.brk) && !hold.Any() && Work())
      ensures !XonAwake() <==> && sendXon && !hold.ByLine() && !old(Armed())
                               && !(old(hold.brk) && !hold.Any() && Work())
    {
      if hold.brk {
        hold := hold.(brk := false);
        Restart();
      }
    }

    // SerialPretendXoff.
    method PretendXoff()
      requires Valid()
      modifies this`log, this`data, this`peerStopped, this`hold
      ensures Valid() && Awake() && hold == old(hold).(xoff := true) && log == old(log) + [Stop]
      ensures peerStopped == old(peerStopped) && XonAwake() == old(XonAwake())
    {
      Record(Stop);
    }

    // SerialPretendXon.
    method PretendXon()
      requires Valid()
      modifies this`log, this`data, this`peerStopped, this`hold, this`threPending
      ensures Valid() && (old(Awake()) ==> Awake()) && hold == old(hold).(xoff := false) && peerStopped == old(peerStopped)
      ensures Armed() <==> old(Armed()) || (old(hold.Any()) && !hold.Any() && Work())
      ensures !XonAwake() <==> && sendXon && !hold.ByLine() && !old(Armed())
                               && !(old(hold.Any()) && !hold.Any() && Work())
    {
      if hold.Any() {
        Record(Go);
        Restart();
      }
    }

    // A larger ring comes with the default limits; SerialUpdateAndSwitchToNew ends like this.
    method Resized(newSize: nat)
      requires Valid() && newSize > bufferSize
      modifies this`bufferSize, this`handFlow, this`threPending, this`sendXon, this`sendXoff, this`chars
      ensures Valid() && (old(Awake()) ==> Awake()) && bufferSize == newSize && chars == old(chars)
      ensures handFlow == old(handFlow).(xoffLimit := newSize / 8, xonLimit := newSize / 2)
      ensures peerStopped && chars <= newSize / 2 ==> sendXon
      ensures !XonAwake() <==> && !hold.ByLine() && !old(Armed())
                               && old(sendXon || (sendXoff && chars <= newSize / 2))
      ensures Guarded() <==>
                (handFlow.autoReceive && newSize - newSize / 8 <= chars ==>
                   peerStopped || (old(sendXoff) && chars > newSize / 2))
    {
      bufferSize := newSize;
      handFlow := handFlow.(xoffLimit := bufferSize / 8, xonLimit := bufferSize / 2);
      TakeChars(0);
    }

    // ----- New flow control settings -----

    // Receive flow control begins with a ring that is full; it ends while the peer is stopped; transmit flow
    // control ends while it holds transmission.
    predicate BeginsFull(new_: HandFlow)
      reads this
    {
      new_.autoReceive && !handFlow.autoReceive && bufferSize - new_.xoffLimit <= chars
    }

    predicate EndsStopped(new_: HandFlow)
      reads this
    {
      !new_.autoReceive && handFlow.autoReceive && rxXoff
    }

    predicate EndsHeld(new_: HandFlow)
      reads this
    {
      !new_.autoTransmit && handFlow.autoTransmit && hold.xoff
    }

    // The part of SerialSetupNewHandFlow about automatic receive flow control.
    method SetAutoReceive(new_: HandFlow)
      requires Valid()
      modifies this`rxXoff, this`threPending, this`sendXon, this`sendXoff
      ensures Valid()
      ensures sendXon == ((old(sendXon) && !old(BeginsFull(new_))) || old(EndsStopped(new_)))
      ensures sendXoff == (old(BeginsFull(new_)) || (old(sendXoff) && !old(EndsStopped(new_))))
      ensures Armed() <==> old(Armed()) || old(!sendXon && !sendXoff && (BeginsFull(new_) || EndsStopped(new_)))
    {
      if new_.autoReceive != handFlow.autoReceive {
        if new_.autoReceive {
          if bufferSize - new_.xoffLimit <= chars {
            rxXoff := true;
            ProdXonXoff(false);
          }
        } else if rxXoff {
          rxXoff := false;
          ProdXonXoff(true);
        }
      }
    }

    // The part about automatic transmit flow control.
    method SetAutoTransmit(new_: HandFlow)
      requires Valid()
      modifies this`log, this`data, this`peerStopped, this`hold, this`threPending, this`sendXon, this`sendXoff
      ensures Valid() && peerStopped == old(peerStopped)
      ensures hold == if old(EndsHeld(new_)) then old(hold).(xoff := false) else old(hold)
      ensures sendXon == old(sendXon || EndsHeld(new_)) && sendXoff == old(sendXoff && !EndsHeld(new_))
      ensures Armed() <==> old(Armed()) || old(!sendXon && !sendXoff && EndsHeld(new_))
    {
      if new_.autoTransmit != handFlow.autoTransmit && !new_.autoTransmit && hold.xoff {
        Record(Go);
        ProdXonXoff(true);
      }
    }

    // The call turns a wait for data to go out into one that nothing will end.
    predicate LosesWakeup(new_: HandFlow, lines: Lines)
      reads this
    {
      && EndsHeld(new_) && !hold.ByLine() && !Updated(hold.(xoff := false), new_, lines).Any()
      && Work() && !Armed() && (sendXon || sendXoff)
    }

    // SerialSetHandFlow.  Turning automatic transmit flow control off wakes the transmitter unless it was
    // asleep with a flow control character to send.  The Xon it may ask for is lost in the same way, unless
    // data goes out with it.
    method SetHandFlow(new_: HandFlow, lines: Lines)
      requires Valid() && new_.xonLimit <= bufferSize && new_.xoffLimit <= bufferSize
      modifies this`log, this`data, this`peerStopped, this`hold, this`threPending, this`sendXon, this`sendXoff,
               this`rxXoff, this`handFlow
      ensures Valid() && handFlow == new_ && peerStopped == old(peerStopped)
      ensures hold == Updated(if old(EndsHeld(new_)) then old(hold).(xoff := false) else old(hold), new_, lines)
      ensures sendXon == old(EndsHeld(new_) || EndsStopped(new_) || (sendXon && !BeginsFull(new_)))
      ensures hold.cts == (new_.cts && !lines.cts) && hold.dsr == (new_.dsr && !lines.dsr)
      ensures hold.dcd == (new_.dcd && !lines.dcd) && hold.brk == old(hold.brk)
      ensures hold.xoff == (old(hold.xoff) && (new_.autoTransmit || !old(handFlow.autoTransmit)))
      ensures sendXon == old(|| (!new_.autoTransmit && handFlow.autoTransmit && hold.xoff)
                             || (!new_.autoReceive && handFlow.autoReceive && rxXoff)
                             || (sendXon && !(new_.autoReceive && !handFlow.autoReceive && bufferSize - new_.xoffLimit <= chars)))
      ensures old(Awake()) ==> (!Awake() <==> old(LosesWakeup(new_, lines)))
      ensures !XonAwake() <==>
                && sendXon && !hold.ByLine() && old(!Armed() && (sendXon || sendXoff))
                && !(old(hold.ByLine() || (hold.xoff && !EndsHeld(new_))) && !hold.Any() && Work())
      ensures Guarded() <==>
                (new_.autoReceive && bufferSize - new_.xoffLimit <= chars ==>
                   peerStopped || old(!EndsHeld(new_) && (sendXoff || !handFlow.autoReceive)))
    {
      SetupNewHandFlow(new_);
      HandleModemUpdate(lines, false);
    }

    // SerialSetupNewHandFlow, the parts about Xon and Xoff.
    method SetupNewHandFlow(new_: HandFlow)
      requires Valid() && new_.xonLimit <= bufferSize && new_.xoffLimit <= bufferSize
      modifies this`log, this`data, this`peerStopped, this`hold, this`threPending, this`sendXon, this`sendXoff,
               this`rxXoff, this`handFlow
      ensures Valid() && handFlow == new_ && peerStopped == old(peerStopped)
      ensures hold == if old(EndsHeld(new_)) then old(hold).(xoff := false) else old(hold)
      ensures sendXon == old(EndsHeld(new_) || EndsStopped(new_) || (sendXon && !BeginsFull(new_)))
      ensures sendXoff == old(!EndsHeld(new_) && (BeginsFull(new_) || (sendXoff && !EndsStopped(new_))))
      ensures Armed() <==> (old(Armed()) ||
                            old(!sendXon && !sendXoff && (EndsHeld(new_) || EndsStopped(new_) || BeginsFull(new_))))
    {
      SetAutoReceive(new_);
      SetAutoTransmit(new_);
      handFlow := new_;
    }

    // ----- Any use of the port -----

    method LineCall()
      requires Valid() && Awake()
      modifies this
      ensures Valid() && Awake()
    {
      var what: nat := *;
      if what == 0 {
        Drain();
      } else if what == 1 {
        var n: nat := *;
        ghost var served, moved, transmitted := Isr(n);
      } else if what == 7 {
        // The look at the line status that precedes the lowering of RTS.
        var error: bool := *;
        var empty := ProcessLSR(error);
      } else if what == 2 {
        var lines: Lines := *;
        HandleModemUpdate(lines, false);
      } else if what == 3 {
        TurnOnBreak();
      } else if what == 4 {
        TurnOffBreak();
      } else if what == 5 {
        PretendXoff();
      } else {
        PretendXon();
      }
    }

    method WriteCall()
      requires Valid() && Awake()
      modifies this
      ensures Valid() && Awake()
    {
      var bytes: seq<byte> := *;
      if !hasWrite {
        if bytes != [] { GiveWriteToIsr(bytes); }
      } else if completeWrite {
        DropWriteReference();
      } else if writeReference {
        GrabWriteFromIsr();
      } else {
        var sent := FinishWrite();
      }
    }

    method ImmediateCall()
      requires Valid() && Awake()
      modifies this
      ensures Valid() && Awake()
    {
      var c: byte := *;
      if !immediateReference {
        GiveImmediateToIsr(c);
      } else if completeImmediate {
        DropImmediateReference();
      } else {
        GrabImmediateFromIsr();
      }
    }

    method ReceiveCall()
      requires Valid() && Awake()
      modifies this
      ensures Valid() && Awake()
    {
      var n: nat := *;
      if n <= chars { TakeChars(n); } else if n > bufferSize { Resized(n); }
    }

    method SettingsCall() returns (lost: bool)
      requires Valid() && Awake()
      modifies this
      ensures Valid() && (lost <==> !Awake())
    {
      var new_: HandFlow, lines: Lines := *, *;
      lost := false;
      if new_.xonLimit <= bufferSize && new_.xoffLimit <= bufferSize {
        lost := LosesWakeup(new_, lines);
        SetHandFlow(new_, lines);
      }
    }

    // However the port is used, it is awake until new flow control settings lose a wakeup (`lost`).
    method Use(n: nat) returns (lost: bool)
      requires Valid() && Awake()
      modifies this
      ensures Valid() && (lost <==> !Awake())
    {
      var left := n;
      lost := false;
      while left > 0
        invariant Valid() && !lost && Awake()
      {
        var what: nat := *;
        if what == 0 {
          LineCall();
        } else if what == 1 {
          WriteCall();
        } else if what == 2 {
          ImmediateCall();
        } else if what == 3 {
          ReceiveCall();
        } else {
          lost := SettingsCall();
          if lost { break; }
        }
        left := left - 1;
      }
    }

    // ----- Any use of the port, piece by piece -----

    // What can leave a pending Xon without an interrupt: the modem lines, or the end of a break, release it but
    // no data; an Xon is asked for instead of an Xoff that had to wait; new settings do either.
    predicate LinesStrand(lines: Lines)
      reads this
    {
      var after := Updated(hold, handFlow, lines);
      sendXon && !after.ByLine() && !Armed() && !(Work() && hold.Any() && !after.Any())
    }

    predicate BreakStrands()
      reads this
    {
      var after := hold.(brk := false);
      sendXon && !after.ByLine() && !Armed() && !(Work() && hold.brk && !after.Any())
    }

    predicate DrainStrands(left: nat, xonLimit: nat)
      reads this
    {
      sendXoff && left <= xonLimit && !hold.ByLine() && !Armed()
    }

    predicate SettingsStrand(new_: HandFlow, lines: Lines)
      reads this
    {
      var held := if EndsHeld(new_) then hold.(xoff := false) else hold;
      var after := Updated(held, new_, lines);
      && (EndsHeld(new_) || EndsStopped(new_) || (sendXon && !BeginsFull(new_)))
      && (sendXon || sendXoff) && !after.ByLine() && !Armed() && !(Work() && held.Any() && !after.Any())
    }

    method TransmitPiece()
      requires Valid() && XonAwake()
      modifies this
      ensures Valid() && XonAwake()
    {
      var what: nat, flag: bool := *, *;
      if what == 0 {
        Drain();
      } else if what == 1 {
        var empty := ProcessLSR(flag);
      } else if what == 2 {
        PutChar();
      } else if what == 3 {
        ReceiveFlowChar(flag);
      } else if thre {
        ghost var choice := Continue();
      }
    }

    method HoldPiece() returns (stranded: bool)
      requires Valid() && XonAwake()
      modifies this
      ensures Valid() && (stranded <==> !XonAwake())
    {
      var what: nat, lines: Lines := *, *;
      stranded := false;
      if what == 0 {
        stranded := LinesStrand(lines);
        HandleModemUpdate(lines, false);
      } else if what == 1 {
        TurnOnBreak();
      } else if what == 2 {
        stranded := BreakStrands();
        TurnOffBreak();
      } else if what == 3 {
        PretendXoff();
      } else {
        PretendXon();
      }
    }

    method RequestPiece()
      requires Valid() && XonAwake()
      modifies this
      ensures Valid() && XonAwake()
    {
      var what: nat, bytes: seq<byte>, c: byte := *, *, *;
      if what == 0 && !hasWrite && bytes != [] {
        GiveWriteToIsr(bytes);
      } else if what == 1 && completeWrite {
        DropWriteReference();
      } else if what == 2 && hasWrite {
        GrabWriteFromIsr();
      } else if what == 3 && hasWrite && !writeReference {
        var sent := FinishWrite();
      } else if what == 4 && !immediateReference {
        GiveImmediateToIsr(c);
      } else if what == 5 && completeImmediate {
        DropImmediateReference();
      } else {
        GrabImmediateFromIsr();
      }
    }

    method ReceivePiece() returns (stranded: bool)
      requires Valid() && XonAwake()
      modifies this
      ensures Valid() && (stranded <==> !XonAwake())
    {
      var n: nat := *;
      stranded := false;
      if n <= chars {
        stranded := DrainStrands(chars - n, handFlow.xonLimit);
        TakeChars(n);
      } else if n > bufferSize {
        stranded := DrainStrands(chars, n / 2);
        Resized(n);
      }
    }

    method SettingsPiece() returns (stranded: bool)
      requires Valid() && XonAwake()
      modifies this
      ensures Valid() && (stranded <==> !XonAwake())
    {
      var new_: HandFlow, lines: Lines := *, *;
      stranded := false;
      if new_.xonLimit <= bufferSize && new_.xoffLimit <= bufferSize {
        stranded := SettingsStrand(new_, lines);
        SetHandFlow(new_, lines);
      }
    }

    // Everything that the ISR and the callbacks do consists of these pieces, in some order.  In every order, a
    // pending Xon is left without an interrupt by nothing but the four predicates above (`stranded`).
    method UseInPieces(n: nat) returns (stranded: bool)
      requires Valid() && XonAwake()
      modifies this
      ensures Valid() && (stranded <==> !XonAwake())
    {
      var left := n;
      stranded := false;
      while left > 0
        invariant Valid() && !stranded && XonAwake()
      {
        var what: nat := *;
        if what == 0 {
          TransmitPiece();
        } else if what == 1 {
          stranded := HoldPiece();
        } else if what == 2 {
          RequestPiece();
        } else if what == 3 {
          stranded := ReceivePiece();
        } else {
          stranded := SettingsPiece();
        }
        if stranded { break; }
        left := left - 1;
      }
    }

    // What decides whether a ring at its limit has an Xoff, sent or pending: a character that fills it up, or
    // finds it full; a drain; an Xon that goes out; a new size; new settings.
    ghost predicate PutUnguards()
      reads this
    {
      && handFlow.autoReceive && (chars == bufferSize || bufferSize - handFlow.xoffLimit <= chars + 1)
      && rxXoff && !peerStopped && !sendXoff
    }

    ghost predicate DrainUnguards(left: nat, limit: int, xonLimit: nat)
      reads this
    {
      handFlow.autoReceive && limit <= left && !peerStopped && !(sendXoff && left > xonLimit)
    }

    ghost predicate SettingsUnguard(new_: HandFlow)
      reads this
    {
      && new_.autoReceive && bufferSize - new_.xoffLimit <= chars
      && !peerStopped && (EndsHeld(new_) || (!sendXoff && handFlow.autoReceive))
    }

    method RingPiece() returns (ghost unguarded: bool)
      requires Valid()
      modifies this
      ensures Valid() && (unguarded <==> !Guarded())
    {
      var n: nat, put: bool := *, *;
      unguarded := !Guarded();
      if put {
        unguarded := PutUnguards();
        PutChar();
      } else if n <= chars {
        unguarded := DrainUnguards(chars - n, bufferSize - handFlow.xoffLimit, handFlow.xonLimit);
        TakeChars(n);
      } else if n > bufferSize {
        unguarded := DrainUnguards(chars, n - n / 8, n / 2);
        Resized(n);
      }
    }

    method SendPiece() returns (ghost unguarded: bool)
      requires Valid() && thre
      modifies this
      ensures Valid() && (unguarded <==> !Guarded())
    {
      var lines: Lines, room: nat :| room > 0;
      unguarded := if Chosen(Seen(lines)) == SendXon then AtLimit() else !Guarded();
      ghost var choice := ServeThre(lines, room);
    }

    method SetPiece() returns (ghost unguarded: bool)
      requires Valid()
      modifies this
      ensures Valid() && (unguarded <==> !Guarded())
    {
      var new_: HandFlow, lines: Lines := *, *;
      unguarded := !Guarded();
      if new_.xonLimit <= bufferSize && new_.xoffLimit <= bufferSize {
        unguarded := SettingsUnguard(new_);
        SetHandFlow(new_, lines);
      }
    }

    // All the other pieces leave it as it is.
    method OtherPiece()
      requires Valid()
      modifies this
      ensures Valid() && Guarded() == old(Guarded())
    {
      var what: nat, lines: Lines, flag: bool, bytes: seq<byte>, c: byte := *, *, *, *, *;
      if what == 0 {
        Drain();
      } else if what == 1 {
        var empty := ProcessLSR(flag);
      } else if what == 2 {
        ReceiveFlowChar(flag);
      } else if what == 3 {
        HandleModemUpdate(lines, flag);
      } else if what == 4 {
        TurnOnBreak();
      } else if what == 5 {
        TurnOffBreak();
      } else if what == 6 {
        PretendXoff();
      } else if what == 7 {
        PretendXon();
      } else {
        OtherRequest(what, bytes, c);
      }
    }

    method OtherRequest(what: nat, bytes: seq<byte>, c: byte)
      requires Valid()
      modifies this
      ensures Valid() && Guarded() == old(Guarded())
    {
      if what == 8 && !hasWrite && bytes != [] {
        GiveWriteToIsr(bytes);
      } else if what == 9 && completeWrite {
        DropWriteReference();
      } else if what == 10 && hasWrite {
        GrabWriteFromIsr();
      } else if what == 11 && hasWrite && !writeReference {
        var sent := FinishWrite();
      } else if what == 12 && !immediateReference {
        GiveImmediateToIsr(c);
      } else if what == 13 && completeImmediate {
        DropImmediateReference();
      } else {
        GrabImmediateFromIsr();
      }
    }

    // After every sequence of pieces, a ring at its limit is without an Xoff exactly as the last of the pieces
    // that decide it has left it (`unguarded`).
    method GuardInPieces(n: nat) returns (ghost unguarded: bool)
      requires Valid()
      modifies this
      ensures Valid() && (unguarded <==> !Guarded())
    {
      unguarded := !Guarded();
      for i := 0 to n
        invariant Valid() && (unguarded <==> !Guarded())
      {
        var what: nat := *;
        if what == 0 {
          unguarded := RingPiece();
        } else if what == 1 && thre {
          unguarded := SendPiece();
        } else if what == 2 {
          unguarded := SetPiece();
        } else {
          OtherPiece();
        }
      }
    }
  }

  // ----- A run that puts the port to sleep -----

  const FLOW := HandFlow(true, false, false, true, true, false, 4, 3)
  const UP := Lines(true, true, true)
  const DOWN := Lines(false, true, true)
  const XOFF_ONLY := Holds(false, false, false, true, false)

  // An empty register without an interrupt, and an Xoff as all that ever went out.
  ghost predicate Idle(t: Transmitter, hold: Holds, xon: bool)
    reads t
  {
    && t.Valid() && t.handFlow == FLOW && t.bufferSize == 4 && t.log == [SentXoff(true)]
    && t.thre && !t.threPending && t.hold == hold && t.rxXoff && t.sendXon == xon && !t.sendXoff && t.chars <= 1
    && !t.transmitImmediate && !t.hasWrite == (t.writeLength == 0)
  }

  // A character arrives, which is as much as the ring may hold; the peer is stopped.
  method FillRing() returns (t: Transmitter)
    ensures fresh(t) && t.Valid() && t.handFlow == FLOW && t.bufferSize == 4 && t.log == [] && t.thre && t.threPending
    ensures !t.hold.Any() && t.rxXoff && t.sendXoff && !t.sendXon && t.chars == 1
    ensures !t.transmitImmediate && !t.hasWrite && t.writeLength == 0
  {
    t := new Transmitter(false, 1, 4, FLOW);
    t.PutChar();
  }

  // The Xoff goes out.
  method SendTheXoff(t: Transmitter)
    requires t.Valid() && t.handFlow == FLOW && t.bufferSize == 4 && t.log == [] && t.thre && t.threPending
    requires !t.hold.Any() && t.rxXoff && t.sendXoff && !t.sendXon && t.chars == 1
    requires !t.transmitImmediate && !t.hasWrite && t.writeLength == 0
    modifies t
    ensures t.Valid() && t.handFlow == FLOW && t.bufferSize == 4 && t.log == [SentXoff(true)] && !t.thre
    ensures t.hold == XOFF_ONLY && t.rxXoff && !t.sendXoff && !t.sendXon && t.chars == 1
    ensures !t.transmitImmediate && !t.hasWrite && t.writeLength == 0
  {
    ghost var choice := t.ServeThre(UP, 1);
  }

  // The register empties again, and there is nothing to send.
  method GoIdle(t: Transmitter)
    requires t.Valid() && t.handFlow == FLOW && t.bufferSize == 4 && t.log == [SentXoff(true)] && !t.thre
    requires t.hold == XOFF_ONLY && t.rxXoff && !t.sendXoff && !t.sendXon && t.chars == 1
    requires !t.transmitImmediate && !t.hasWrite && t.writeLength == 0
    modifies t
    ensures Idle(t, XOFF_ONLY, false) && !t.hasWrite && t.chars == 1
  {
    t.Drain();
    ghost var choice := t.ServeThre(UP, 1);
  }

  method StopPeer() returns (t: Transmitter)
    ensures fresh(t) && Idle(t, XOFF_ONLY, false) && !t.hasWrite && t.chars == 1
  {
    t := FillRing();
    SendTheXoff(t);
    GoIdle(t);
  }

  method DropCts(t: Transmitter)
    requires Idle(t, XOFF_ONLY, false) && !t.hasWrite && t.chars == 1
    modifies t
    ensures Idle(t, Holds(true, false, false, true, false), false) && !t.hasWrite && t.chars == 1
  {
    t.HandleModemUpdate(DOWN, false);
  }

  // The application starts a write, which cannot go out.
  method HoldWrite(t: Transmitter)
    requires Idle(t, Holds(true, false, false, true, false), false) && !t.hasWrite && t.chars == 1
    modifies t
    ensures Idle(t, Holds(true, false, false, true, false), false) && t.hasWrite && t.chars == 1
  {
    t.GiveWriteToIsr([7]);
    ghost var choice := t.ServeThre(DOWN, 1);
  }

  // The application takes the character; the Xon cannot go out either.
  method AskForXon(t: Transmitter)
    requires Idle(t, Holds(true, false, false, true, false), false) && t.hasWrite && t.chars == 1
    modifies t
    ensures Idle(t, Holds(true, false, false, true, false), true) && t.hasWrite
  {
    t.TakeChars(1);
    ghost var choice := t.ServeThre(DOWN, 1);
  }

  // Then CTS rises.  The peer is still stopped, the Xon is still to be sent, and only an Xoff holds
  // transmission, which is no reason to hold an Xon; but no interrupt will come.
  method StrandXon() returns (t: Transmitter)
    ensures fresh(t) && Idle(t, XOFF_ONLY, true) && t.hasWrite
    ensures PeerStopped(t.log) && t.Chosen(t.hold) == SendXon && !t.Armed()
  {
    t := StopPeer();
    DropCts(t);
    HoldWrite(t);
    AskForXon(t);
    t.HandleModemUpdate(UP, false);
  }

  // From there, turning automatic transmit flow control off loses the write as well.
  method LoseWakeup() returns (t: Transmitter)
    ensures fresh(t) && t.Valid() && t.Work() && !t.hold.Any() && !t.Armed() && !t.Awake()
  {
    t := StrandXon();
    t.SetHandFlow(FLOW.(autoTransmit := false), UP);
  }

  // ----- A run that leaves the peer free to fill the ring -----

  // An Xon to be sent and no interrupt for it, though only an Xoff from the peer holds transmission.
  ghost predicate Forgotten(t: Transmitter, chars: nat)
    reads t
  {
    && t.Valid() && t.handFlow == FLOW && t.bufferSize == 4 && t.log == [Stop] && !t.peerStopped
    && t.thre && !t.threPending && t.hold == XOFF_ONLY && t.rxXoff && t.sendXon && !t.sendXoff && t.chars == chars
    && !t.Work()
  }

  // The peer sends an Xoff, and then a character that makes the driver ask for an Xoff of its own; that has to
  // wait.
  method ReceiveXoffAndChar() returns (t: Transmitter)
    ensures fresh(t) && t.Valid() && t.handFlow == FLOW && t.bufferSize == 4 && t.log == [Stop] && !t.peerStopped
    ensures t.thre && t.hold == XOFF_ONLY && t.rxXoff && !t.sendXon && t.sendXoff && t.chars == 1 && !t.Work()
  {
    t := new Transmitter(false, 1, 4, FLOW);
    t.ReceiveFlowChar(true);
    t.PutChar();
  }

  method AskForXoffInVain() returns (t: Transmitter)
    ensures fresh(t) && t.Valid() && t.handFlow == FLOW && t.bufferSize == 4 && t.log == [Stop] && !t.peerStopped
    ensures t.thre && t.hold == XOFF_ONLY && t.rxXoff && !t.sendXon && t.sendXoff && t.chars == 1 && !t.Work()
    ensures !t.threPending
  {
    t := ReceiveXoffAndChar();
    ghost var choice := t.ServeThre(UP, 1);
  }

  // The application takes the character.  The Xon that is asked for instead could go out, but no interrupt is
  // coming: no modem line had a part in this.
  method ForgetXon() returns (t: Transmitter)
    ensures fresh(t) && Forgotten(t, 0) && t.Awake() && !t.XonAwake() && t.Chosen(t.hold) == SendXon
  {
    t := AskForXoffInVain();
    t.TakeChars(1);
  }

  method OneMore(t: Transmitter)
    requires Forgotten(t, t.chars) && t.chars < 4
    modifies t
    ensures Forgotten(t, old(t.chars) + 1)
  {
    t.PutChar();
  }

  // And the ring fills up without any Xoff being sent or asked for.
  method FillUnguarded() returns (t: Transmitter)
    ensures fresh(t) && Forgotten(t, 4) && t.chars == t.bufferSize && t.AtLimit() && !t.Guarded()
  {
    t := ForgetXon();
    while t.chars < 4
      invariant fresh(t) && Forgotten(t, t.chars) && t.chars <= 4
    {
      OneMore(t);
    }
  }
}
