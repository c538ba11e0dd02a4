/** The characters the application is still owed a transmission of: TotalCharsQueued, and the requests it
    counts.

    A write counts with its length, an Xoff counter with the one character it sends first, an immediate
    character with one.  An Xoff counter whose character has gone out leaves the write queue and becomes the
    current counter.  The count is a ULONG and wraps. */
module OutQueue {
  import opened Prelude

  const ULONG: nat := 0x1_0000_0000

  type Id = nat

  datatype Request = Write(id: Id, length: nat) | Counter(id: Id)

  function Chars(r: Request): nat {
    match r case Write(_, length) => length case Counter(_) => 1
  }

  function SumOf(queue: seq<Request>): nat {
    if queue == [] then 0 else Chars(queue[0]) + SumOf(queue[1..])
  }

  lemma {:induction false} SumConcat(a: seq<Request>, b: seq<Request>)
    ensures SumOf(a + b) == SumOf(a) + SumOf(b)
  {
    if a == [] {
      assert a + b == b;
    } else {
      assert (a + b)[1..] == a[1..] + b;
      SumConcat(a[1..], b);
    }
  }

  // Taking one request out of the queue.
  lemma SumWithout(queue: seq<Request>, k: nat)
    requires k < |queue|
    ensures SumOf(queue) == SumOf(queue[..k] + queue[k + 1..]) + Chars(queue[k])
  {
    assert queue == queue[..k] + ([queue[k]] + queue[k + 1..]);
    SumConcat(queue[..k], [queue[k]] + queue[k + 1..]);
    SumConcat([queue[k]], queue[k + 1..]);
    SumConcat(queue[..k], queue[k + 1..]);
  }

  function Added(total: nat, n: nat): (r: nat) { (total + n) % ULONG }

  function Subtracted(total: nat, n: nat): (r: nat) { (total - n) % ULONG }

  lemma AddedCounts(live: nat, n: nat)
    ensures Added(live % ULONG, n) == (live + n) % ULONG
  {
  }

  lemma SubtractedCounts(rest: nat, n: nat)
    ensures Subtracted((rest + n) % ULONG, n) == rest % ULONG
  {
  }

  // The assertion made when a request of `n` characters ends, TotalCharsQueued >= n, with `rest` characters
  // of other requests counted too: it holds exactly if the rest of the count has room for this request.
  lemma AssertionHoldsExactly(rest: nat, n: nat)
    requires 0 < n < ULONG
    ensures (rest + n) % ULONG >= n <==> rest % ULONG + n < ULONG
  {
  }

  // The count is right, up to wrap-around.
  ghost predicate Counts(total: nat, live: nat) {
    total == live % ULONG
  }

  // How often a request is in the queue, and in a place for one.
  function Occurs(queue: seq<Request>, x: Request): nat {
    if queue == [] then 0 else One(queue[0], x) + Occurs(queue[1..], x)
  }

  function One(r: Request, x: Request): nat { if r == x then 1 else 0 }

  function OneIn(place: Option<Request>, x: Request): nat {
    match place case None => 0 case Some(r) => One(r, x)
  }

  lemma {:induction false} OccursConcat(a: seq<Request>, b: seq<Request>, x: Request)
    ensures Occurs(a + b, x) == Occurs(a, x) + Occurs(b, x)
  {
    if a == [] {
      assert a + b == b;
    } else {
      assert (a + b)[1..] == a[1..] + b;
      OccursConcat(a[1..], b, x);
    }
  }

  lemma OccursWithout(queue: seq<Request>, k: nat, x: Request)
    requires k < |queue|
    ensures Occurs(queue, x) == Occurs(queue[..k] + queue[k + 1..], x) + One(queue[k], x)
  {
    assert queue == queue[..k] + ([queue[k]] + queue[k + 1..]);
    OccursConcat(queue[..k], [queue[k]] + queue[k + 1..], x);
    OccursConcat([queue[k]], queue[k + 1..], x);
    OccursConcat(queue[..k], queue[k + 1..], x);
  }

  class Transmissions {
    var totalCharsQueued: nat
    var currentWrite: Option<Request>
    var writeQueue: seq<Request>
    var currentXoff: Option<Request>
    var currentImmediate: Option<Id>
    var writeLength: nat

    ghost var live: nat            // the characters of the requests that are neither completed nor counting

    // Any one request, and how often it was accepted and completed.
    ghost const watched: Request
    ghost var accepted: nat
    ghost var completed: nat

    ghost predicate Valid()
      reads this
    {
      Tallied() && Kept() && Shape()
    }

    ghost predicate Tallied()
      reads this
    {
      forall l :: l == live ==> Counts(totalCharsQueued, l)
    }

    lemma ValidCounts()
      requires Tallied()
      ensures totalCharsQueued == live % ULONG
    {
      var l := live;
      assert Counts(totalCharsQueued, l);
    }

    // Every request accepted is queued, current, counting or completed.
    ghost predicate Kept()
      reads this
    {
      accepted == completed + Occurs(writeQueue, watched) + OneIn(currentWrite, watched) + OneIn(currentXoff, watched)
    }

    ghost predicate Shape()
      reads this
    {
      && live == Current() + SumOf(writeQueue) + (if currentImmediate.Some? then 1 else 0)
      && (currentWrite.None? ==> writeQueue == [])
      && writeLength <= Current()
    }

    // The characters of the current write.
    ghost function Current(): nat
      reads this
    {
      match currentWrite case None => 0 case Some(r) => Chars(r)
    }

    // The characters that have not been sent yet, counting a live immediate character.
    ghost function Unsent(): nat
      reads this
    {
      writeLength + SumOf(writeQueue) + (if currentImmediate.Some? then 1 else 0)
    }

    // The state at open.
    constructor (ghost watched: Request)
      ensures Valid() && totalCharsQueued == live == 0 && currentWrite == None && accepted == completed == 0
      ensures this.watched == watched
    {
      this.watched := watched;
      totalCharsQueued, currentWrite, writeQueue, currentXoff := 0, None, [], None;
      currentImmediate, writeLength, live := None, 0, 0;
      accepted, completed := 0, 0;
    }

    // Some characters more, and some less.
    method Count(n: nat)
      requires Tallied()
      modifies this`totalCharsQueued, this`live
      ensures Tallied() && live == old(live) + n
    {
      ValidCounts();
      AddedCounts(live, n);
      totalCharsQueued, live := Added(totalCharsQueued, n), live + n;
    }

    method Uncount(n: nat)
      requires Tallied() && n <= live
      modifies this`totalCharsQueued, this`live
      ensures Tallied() && live == old(live) - n
    {
      ValidCounts();
      SubtractedCounts(live - n, n);
      totalCharsQueued, live := Subtracted(totalCharsQueued, n), live - n;
    }

    // SerialStartOrQueue, for the write queue.
    method StartOrQueue(r: Request)
      requires Valid()
      modifies this`totalCharsQueued, this`live, this`currentWrite, this`writeQueue, this`writeLength, this`accepted
      ensures Valid() && live == old(live) + Chars(r) && accepted == old(accepted) + One(r, watched)
      ensures live == old(live) + if r.Write? then r.length else 1
      ensures if old(currentWrite).None? then currentWrite == Some(r) && writeQueue == [] && writeLength == Chars(r)
              else currentWrite == old(currentWrite) && writeQueue == old(writeQueue) + [r]
    {
      Count(Chars(r));
      accepted := accepted + One(r, watched);
      if writeQueue == [] && currentWrite == None {
        currentWrite := Some(r);
        writeLength := Chars(r);
      } else {
        SumConcat(writeQueue, [r]);
        OccursConcat(writeQueue, [r], watched);
        writeQueue := writeQueue + [r];
      }
    }

    // The ISR puts some characters of the current write in the holding register.
    method Send(n: nat)
      requires Valid() && n <= writeLength
      modifies this`writeLength
      ensures Valid() && writeLength == old(writeLength) - n && Unsent() == old(Unsent()) - n
    {
      writeLength := writeLength - n;
    }

    // SerialGrabWriteFromIsr.
    method GrabWriteFromIsr()
      requires Valid()
      modifies this`writeLength
      ensures Valid() && writeLength == 0
    {
      if writeLength > 0 { writeLength := 0; }
    }

    // SerialGetNextWrite, and the start of the write it finds.  An Xoff counter that sent its character
    // becomes the current counter; if there was one already, that one is never completed.
    method GetNextWrite(success: bool, cancelled: bool)
      requires Valid() && currentWrite.Some? && writeLength == 0
      modifies this
      ensures Tallied() && Shape() && live == old(live) - Chars(old(currentWrite).value)
      ensures live == old(live) - if old(currentWrite).value.Write? then old(currentWrite).value.length else 1
      ensures currentImmediate == old(currentImmediate) && accepted == old(accepted)
      ensures if old(currentWrite.value.Counter?) && success && !cancelled
              then currentXoff == old(currentWrite) && completed == old(completed)
              else currentXoff == old(currentXoff) && completed == old(completed) + One(old(currentWrite).value, watched)
      ensures if old(writeQueue) == [] then currentWrite == None && writeQueue == []
              else currentWrite == Some(old(writeQueue)[0]) && writeQueue == old(writeQueue)[1..]
                   && writeLength == Chars(currentWrite.value)
      ensures Kept() <==>
              !(old(currentWrite.value.Counter? && currentXoff == Some(watched)) && success && !cancelled)
    {
      var r := currentWrite.value;
      Uncount(Chars(r));
      var completeCurrent := true;
      if r.Counter? && success && !cancelled {
        completeCurrent := false;
        currentXoff := Some(r);
      }
      TakeNext();
      if completeCurrent { completed := completed + One(r, watched); }
    }

    // SerialGetNextRequest, without the completion, and the start of the request it finds.
    method TakeNext()
      requires writeLength == 0
      modifies this`currentWrite, this`writeQueue, this`writeLength
      ensures if old(writeQueue) == [] then currentWrite == None && writeQueue == [] && writeLength == 0
              else currentWrite == Some(old(writeQueue)[0]) && writeQueue == old(writeQueue)[1..]
                   && writeLength == Chars(currentWrite.value)
      ensures Current() + SumOf(writeQueue) == SumOf(old(writeQueue))
      ensures Occurs(writeQueue, watched) + OneIn(currentWrite, watched) == Occurs(old(writeQueue), watched)
    {
      if writeQueue == [] {
        currentWrite := None;
      } else {
        currentWrite, writeQueue := Some(writeQueue[0]), writeQueue[1..];
        writeLength := Chars(currentWrite.value);
      }
    }

    // SerialEvtCanceledOnQueue.
    method CanceledOnQueue(k: nat)
      requires Valid() && k < |writeQueue|
      modifies this`totalCharsQueued, this`live, this`writeQueue, this`completed
      ensures Valid() && live == old(live) - Chars(old(writeQueue)[k])
      ensures completed == old(completed) + One(old(writeQueue)[k], watched)
      ensures writeQueue == old(writeQueue)[..k] + old(writeQueue)[k + 1..]
    {
      SumWithout(writeQueue, k);
      OccursWithout(writeQueue, k, watched);
      Uncount(Chars(writeQueue[k]));
      completed := completed + One(writeQueue[k], watched);
      writeQueue := writeQueue[..k] + writeQueue[k + 1..];
    }

    // The queue part of a purge: every queued request is cancelled, in some order.
    method PurgeQueue()
      requires Valid()
      modifies this`totalCharsQueued, this`live, this`writeQueue, this`completed
      ensures Valid() && writeQueue == []
      ensures completed == old(completed) + Occurs(old(writeQueue), watched)
      ensures live == old(live) - SumOf(old(writeQueue))
    {
      while writeQueue != []
        invariant Valid() && live - SumOf(writeQueue) == old(live - SumOf(writeQueue))
        invariant completed + Occurs(writeQueue, watched) == old(completed) + Occurs(old(writeQueue), watched)
        decreases |writeQueue|
      {
        var k :| 0 <= k < |writeQueue|;
        CanceledOnQueue(k);
      }
    }

    // The end of a current counter.
    method FinishXoff()
      requires Valid() && currentXoff.Some?
      modifies this`currentXoff, this`completed
      ensures Valid() && currentXoff == None && completed == old(completed) + One(old(currentXoff).value, watched)
    {
      completed := completed + One(currentXoff.value, watched);
      currentXoff := None;
    }

    // IOCTL_SERIAL_IMMEDIATE_CHAR: there can be only one.
    method StartImmediate(id: Id) returns (ok: bool)
      requires Valid()
      modifies this`totalCharsQueued, this`live, this`currentImmediate
      ensures Valid() && ok == old(currentImmediate).None?
      ensures if ok then currentImmediate == Some(id) && live == old(live) + 1
              else currentImmediate == old(currentImmediate) && live == old(live)
    {
      ok := currentImmediate.None?;
      if ok {
        currentImmediate := Some(id);
        Count(1);
      }
    }

    // SerialGetNextImmediate.
    method GetNextImmediate()
      requires Valid() && currentImmediate.Some?
      modifies this`totalCharsQueued, this`live, this`currentImmediate
      ensures Valid() && currentImmediate == None && live == old(live) - 1
    {
      Uncount(1);
      currentImmediate := None;
    }

    // SerialGetCommStatus: AmountInOutQueue.  The context of an Xoff counter has no length.  Without
    // wrap-around the amount is the number of unsent characters exactly if no write is current or the
    // current one is a plain write that the ISR has not finished; otherwise it is too high.
    method AmountInOutQueue() returns (amount: nat)
      requires Valid()
      ensures live + 1 < ULONG ==>
                amount == Unsent() + match currentWrite
                                     case None => 0
                                     case Some(Write(_, length)) => if writeLength > 0 then 0 else length
                                     case Some(Counter(_)) => 1
      ensures live + 1 < ULONG && (currentWrite.Some? ==> Current() > 0) ==>
                (amount == Unsent() <==> currentWrite.None? || (currentWrite.value.Write? && writeLength > 0))
    {
      ValidCounts();
      amount := totalCharsQueued;
      if writeLength > 0 {
        var length := match currentWrite.value case Write(_, n) => n case Counter(_) => 0;
        amount := (amount - (length - writeLength)) % ULONG;
      }
    }
  }

  // One counter is active, and its timer has expired, so nothing completes it; another one sends its character
  // and takes its place.  The first one has been accepted once, and is neither completed nor anywhere else.
  method OverwriteCounter() returns (t: Transmissions)
    ensures fresh(t) && t.watched == Counter(0) && t.accepted == 1 && t.completed == 0 && t.currentXoff == Some(Counter(1))
    ensures t.writeQueue == [] && t.currentWrite == None && !t.Kept()
  {
    t := new Transmissions(Counter(0));
    FirstCounter(t);
    t.StartOrQueue(Counter(1));
    t.Send(1);
    t.GetNextWrite(true, false);
  }

  method FirstCounter(t: Transmissions)
    requires t.Valid() && t.watched == Counter(0) && t.currentWrite == None && t.accepted == t.completed == 0
    modifies t
    ensures t.Valid() && t.currentWrite == None && t.currentXoff == Some(Counter(0)) && t.accepted == 1 && t.completed == 0
  {
    t.StartOrQueue(Counter(0));
    t.Send(1);
    t.GetNextWrite(true, false);
  }
}
