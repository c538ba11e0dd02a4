/** The receive path: bytes from the wire to finished reads.

    The interrupt service routine stores bytes either in a ring (the typeahead buffer) or straight in the
    buffer of the read that is waiting for them.  A read first copies what the ring holds, with the ISR still
    running, and only later, under the interrupt lock, takes the copied bytes off the ring's count; if that
    was not enough it points the ISR at its own buffer.  The ring can be replaced by a larger one in the same
    two-phase way.  `Arrivals` stands for whatever the ISR stores while unlocked code runs, including in the
    middle of a memory move.

    The ghost stream `stored` holds every byte stored since the port was opened, without the purged ones; a
    finished read counts with what its buffer got, even if it was cancelled and returns nothing.
    `Valid` says that it is always the bytes of the finished reads, then those of the current read, then
    those a resize has moved, then the contents of the ring (`waiting`). */
module Receive {
  import opened Prelude
  import opened Ring

  // The streams add up, given what the ring and the user's buffer really contain.
  ghost predicate Accounts(stored: seq<byte>, finished: seq<byte>, staged: seq<byte>, waiting: seq<byte>,
                           inRing: seq<byte>, inBuffer: seq<byte>)
  {
    waiting == inRing && stored == finished + inBuffer + staged + inRing
  }

  const MAXULONG: nat := 0xFFFF_FFFF

  /** The read timeouts of the port: ReadIntervalTimeout, and the multiplier and constant of the total. */
  datatype Timeouts = Timeouts(interval: nat, multiplier: nat, constant: nat) {
    // A read returns whatever is there.
    predicate AtOnce() { interval == MAXULONG && multiplier == 0 && constant == 0 }

    // A read returns whatever is there, if anything is.
    predicate AnyNow() { interval == MAXULONG && !AtOnce() && constant != MAXULONG }

    // And otherwise it waits for one byte only.
    predicate FirstOnly() { AnyNow() && multiplier == MAXULONG }
  }

  // The `n` elements of `buf` from position `to` are the first ones of `s`.
  predicate Copied<T(==)>(buf: seq<T>, to: nat, s: seq<T>, n: nat)
    requires to + n <= |buf| && n <= |s|
  {
    forall j :: to <= j < to + n ==> buf[j] == s[j - to]
  }

  // The streams still add up after a byte is stored in the ring.
  lemma Stored(stored: seq<byte>, finished: seq<byte>, staged: seq<byte>, waiting: seq<byte>, inBuffer: seq<byte>,
               ring: seq<byte>, first: nat, n: nat, c: byte)
    requires first < |ring| && n < |ring|
    requires Accounts(stored, finished, staged, waiting, Contents(ring, first, n), inBuffer)
    ensures Accounts(stored + [c], finished, staged, waiting + [c],
                     Contents(ring[At(first, n, |ring|) := c], first, n + 1), inBuffer)
  {
    PutAppends(ring, first, n, c);
  }

  // The streams still add up after `n` copied bytes are taken for the user's.
  lemma Passed(stored: seq<byte>, finished: seq<byte>, waiting: seq<byte>, user: seq<byte>, placed: nat,
               ring: seq<byte>, first: nat, count: nat, n: nat)
    requires first < |ring| && n <= count <= |ring| && placed + n <= |user| && |waiting| == count
    requires Accounts(stored, finished, [], waiting, Contents(ring, first, count), user[..placed])
    requires Copied(user, placed, waiting, n)
    ensures Accounts(stored, finished, [], waiting[n..], Contents(ring, At(first, n, |ring|), count - n), user[..placed + n])
  {
    DropAdvances(ring, first, count, n);
    assert user[..placed + n] == user[..placed] + waiting[..n];
  }

  // The same for `n` bytes copied to a new buffer.
  lemma Moved(stored: seq<byte>, finished: seq<byte>, staged: seq<byte>, waiting: seq<byte>, inBuffer: seq<byte>,
              ring: seq<byte>, first: nat, count: nat, n: nat)
    requires first < |ring| && n <= count <= |ring| && |waiting| == count
    requires Accounts(stored, finished, staged, waiting, Contents(ring, first, count), inBuffer)
    ensures Accounts(stored, finished, staged + waiting[..n], waiting[n..],
                     Contents(ring, At(first, n, |ring|), count - n), inBuffer)
  {
    DropAdvances(ring, first, count, n);
  }

  lemma TailArrived(fixed: seq<byte>, w0: seq<byte>, w1: seq<byte>)
    requires fixed + w0 <= fixed + w1
    ensures w0 <= w1 && fixed + w1 == fixed + w0 + w1[|w0|..]
  {
    assert (fixed + w0)[|fixed|..] == w0 && (fixed + w1)[|fixed|..] == w1;
  }

  class Receiver {
    // The typeahead buffer: InterruptReadBuffer, BufferSize, FirstReadableChar, CharsInInterruptBuffer.
    var ring: array<byte>
    var first: nat
    var count: nat

    // Where the ISR stores: ReadBufferBase is the user's buffer or the ring; CurrentCharSlot and
    // LastCharSlot are positions in that buffer.
    var inUser: bool
    var currentSlot: nat
    var lastSlot: nat

    // The current read: SystemBuffer, Length, NumberNeededForRead and Information.
    var hasRead: bool
    var user: array<byte>
    var length: nat
    var needed: nat
    var information: nat
    var completionQueued: bool     // CompleteReadDpc is queued
    var isrReference: bool         // the ISR's bit in the read's RefCount

    ghost var stored: seq<byte>
    ghost var finished: seq<byte>
    ghost var placed: nat          // bytes in the current read's buffer, unless the ISR fills it
    ghost var staged: seq<byte>    // bytes a resize has moved to the new buffer
    ghost var pending: nat         // bytes moved out of the ring but still in its count
    ghost var waiting: seq<byte>   // the bytes of the ring that nobody has taken yet

    // How many bytes of the current read's buffer are filled.
    ghost function Taken(): nat
      reads this
    {
      if inUser then currentSlot else placed
    }

    // The positions agree with each other.
    ghost predicate Shape()
      reads this
    {
      && ring != user
      && first < ring.Length
      && pending <= count <= ring.Length
      && |waiting| == count - pending
      && placed <= user.Length
      && length <= user.Length
      && (!hasRead ==> !inUser && placed == 0)
      && (completionQueued ==> hasRead && placed == information)
      && (isrReference <==> inUser || completionQueued)
      && (if inUser then
            count == 0 && staged == [] && !completionQueued && currentSlot <= lastSlot && lastSlot + 1 == length
          else
            lastSlot == ring.Length - 1 && currentSlot == At(first, count - pending, ring.Length))
    }

    ghost predicate Valid()
      reads this, ring, user
    {
      && Shape()
      && forall w, u :: w == Contents(ring[..], first, count - pending) && u == user[..Taken()] ==>
           Accounts(stored, finished, staged, waiting, w, u)
    }

    lemma ValidAccounts()
      requires Valid()
      ensures Accounts(stored, finished, staged, waiting, Contents(ring[..], first, count - pending), user[..Taken()])
    {
    }

    // The bytes of the finished reads and of the current one.
    ghost function Settled(): (s: seq<byte>)
      requires Valid()
      reads this, ring, user
      ensures !inUser && staged == [] ==> stored == s + waiting
    {
      ValidAccounts();
      finished + user[..Taken()]
    }

    // The state at open.
    constructor (size: nat)
      requires size > 0
      ensures Valid() && !hasRead && stored == [] && finished == [] && ring.Length == size
      ensures fresh(ring) && fresh(user)
    {
      ring, user := new byte[size], new byte[0];
      first, count, inUser, currentSlot, lastSlot := 0, 0, false, 0, size - 1;
      hasRead, length, needed, information, completionQueued, isrReference := false, 0, 0, 0, false, false;
      stored, finished, placed, staged, pending, waiting := [], [], 0, [], 0, [];
    }

    // ----- The interrupt service routine -----

    // Points the ISR back at an empty ring.
    method ResetRing()
      requires first < ring.Length
      modifies this`first, this`count, this`inUser, this`currentSlot, this`lastSlot, this`pending, this`waiting
      ensures !inUser && first == 0 && count == 0 && currentSlot == 0 && lastSlot == ring.Length - 1
      ensures pending == 0 && waiting == []
    {
      inUser, first, currentSlot, lastSlot, count, pending, waiting := false, 0, 0, ring.Length - 1, 0, 0, [];
    }

    // SerialPutChar, storing into the buffer of the read.
    method PutInUser(c: byte)
      requires Valid() && inUser
      modifies this`first, this`count, this`inUser, this`currentSlot, this`lastSlot, this`pending, this`waiting,
               this`information, this`completionQueued, this`stored, this`placed, user
      ensures Valid() && stored == old(stored) + [c]
      ensures Taken() == old(Taken()) + 1 && user[..] == old(user[..])[old(currentSlot) := c]
      ensures if old(currentSlot) == old(lastSlot) then !inUser && completionQueued && information == length == Taken()
              else inUser && lastSlot == old(lastSlot) && information == old(information)
    {
      ValidAccounts();
      user[currentSlot] := c;
      stored := stored + [c];
      assert user[..currentSlot + 1] == old(user[..currentSlot]) + [c];
      assert waiting == [] && stored == finished + user[..currentSlot + 1];
      if currentSlot == lastSlot {
        placed := currentSlot + 1;
        ResetRing();
        information := length;
        completionQueued := true;
      } else {
        currentSlot := currentSlot + 1;
      }
    }

    // SerialPutChar, storing into the ring; with error replacement off, a full ring drops the byte.
    method PutInRing(c: byte) returns (kept: bool)
      requires Valid() && !inUser
      modifies this`count, this`currentSlot, this`stored, this`waiting, ring
      ensures Valid() && (kept <==> old(count) < ring.Length)
      ensures stored == (if kept then old(stored) + [c] else old(stored))
      ensures waiting == (if kept then old(waiting) + [c] else old(waiting))
      ensures count == (if kept then old(count) + 1 else old(count))
    {
      kept := count < ring.Length;
      if kept {
        ValidAccounts();
        Stored(stored, finished, staged, waiting, user[..placed], ring[..], first, count - pending, c);
        ring[currentSlot] := c;
        assert ring[..] == old(ring[..])[currentSlot := c];
        count := count + 1;
        stored, waiting := stored + [c], waiting + [c];
        currentSlot := if currentSlot == lastSlot then 0 else currentSlot + 1;
      }
    }

    // SerialPutChar.  Only a full ring drops a byte.
    method PutChar(c: byte) returns (kept: bool)
      requires Valid()
      modifies this, ring, user
      ensures Valid() && ring == old(ring) && user == old(user) && finished == old(finished)
      ensures kept <==> old(inUser || count < ring.Length)
      ensures stored == if kept then old(stored) + [c] else old(stored)
    {
      if inUser {
        PutInUser(c);
        kept := true;
      } else {
        kept := PutInRing(c);
      }
    }

    // Any number of bytes from the wire, while the ISR stores into the ring.
    method Arrivals()
      requires Valid() && !inUser
      modifies this`count, this`currentSlot, this`stored, this`waiting, ring
      ensures Valid() && old(waiting) <= waiting && count >= old(count) && old(stored) <= stored
    {
      var n: nat := *;
      while n > 0
        invariant Valid() && old(waiting) <= waiting && count >= old(count) && old(stored) <= stored
      {
        var c: byte := *;
        var kept := PutInRing(c);
        n := n - 1;
      }
    }

    // ----- Taking bytes out of the ring -----

    // Copies the waiting byte `i` places after the first one to position `to` of `dest`.
    method MoveByte(dest: array<byte>, to: nat, i: nat)
      requires Valid() && !inUser && dest != ring && (dest == user ==> to >= placed)
      requires i < count - pending && to < dest.Length
      modifies dest
      ensures Valid() && dest[to] == waiting[i]
      ensures forall j :: 0 <= j < dest.Length && j != to ==> dest[j] == old(dest[j])
    {
      ValidAccounts();
      dest[to] := ring[At(first, i, ring.Length)];
      assert user[..placed] == old(user[..placed]);
    }

    // RtlMoveMemory of `n` waiting bytes, starting `skip` places after the first one and not crossing the
    // end of the ring, to position `to` of `dest`.  Unless the interrupt lock is held (`locked`), bytes may
    // arrive before every single byte of the move.
    method MoveMemory(dest: array<byte>, to: nat, skip: nat, n: nat, locked: bool)
      requires Valid() && !inUser && dest != ring && (dest == user ==> to >= placed)
      requires skip + n <= count - pending && At(first, skip, ring.Length) + n <= ring.Length && to + n <= dest.Length
      modifies this`count, this`currentSlot, this`stored, this`waiting, ring, dest
      ensures Valid() && old(waiting) <= waiting && count >= old(count) && old(stored) <= stored
      ensures locked ==> count == old(count) && stored == old(stored)
      ensures forall j :: to <= j < to + n ==> dest[j] == old(waiting)[skip + (j - to)]
      ensures forall j :: 0 <= j < dest.Length && !(to <= j < to + n) ==> dest[j] == old(dest[j])
    {
      var k := 0;
      while k < n
        invariant k <= n && Valid() && old(waiting) <= waiting && count >= old(count) && old(stored) <= stored
        invariant locked ==> count == old(count) && stored == old(stored)
        invariant forall j :: to <= j < to + k ==> dest[j] == old(waiting)[skip + (j - to)]
        invariant forall j :: 0 <= j < dest.Length && !(to <= j < to + k) ==> dest[j] == old(dest[j])
      {
        if !locked { Arrivals(); }
        MoveByte(dest, to + k, skip + k);
        k := k + 1;
      }
    }

    // Moves FirstReadableChar past `n` bytes that are now in the user's buffer; the ring still counts them.
    method PassToUser(newFirst: nat, n: nat)
      requires Valid() && hasRead && !isrReference && pending == 0 && staged == []
      requires n <= count && placed + n <= user.Length && newFirst == At(first, n, ring.Length)
      requires Copied(user[..], placed, waiting, n)
      modifies this`first, this`placed, this`pending, this`waiting
      ensures Valid() && first == newFirst && placed == old(placed) + n && pending == n
      ensures waiting == old(waiting)[n..]
    {
      ValidAccounts();
      AtAdd(first, n, count - n, ring.Length);
      Passed(stored, finished, waiting, user[..], placed, ring[..], first, count, n);
      assert user[..][..placed + n] == user[..placed + n];
      first, placed, pending, waiting := newFirst, placed + n, n, waiting[n..];
    }

    // The characters needed do not wrap.
    method TakeStraight(n: nat, locked: bool)
      requires Valid() && hasRead && !isrReference && pending == 0 && staged == []
      requires placed == information && information + needed == length
      requires 0 < n <= count && n <= needed && first + n <= ring.Length
      modifies this`count, this`currentSlot, this`stored, this`waiting, this`first, this`placed, this`pending,
               this`needed, ring, user
      ensures Valid() && old(stored) <= stored && count >= old(count)
      ensures locked ==> count == old(count) && stored == old(stored)
      ensures needed == old(needed) - n && placed == old(placed) + n && pending == n
    {
      MoveMemory(user, length - needed, 0, n, locked);
      needed := needed - n;
      PassToUser(if first + (n - 1) == lastSlot then 0 else first + n, n);
    }

    // The characters needed wrap, or end with the last slot: first up to the end of the buffer, then the rest.
    method CopyWrapped(n: nat, firstTry: nat, locked: bool)
      requires Valid() && hasRead && !isrReference && pending == 0 && staged == []
      requires placed == information && information + needed == length
      requires firstTry == ring.Length - first && firstTry <= n <= count && n <= needed
      modifies this`count, this`currentSlot, this`stored, this`waiting, this`needed, ring, user
      ensures Valid() && old(stored) <= stored && count >= old(count)
      ensures locked ==> count == old(count) && stored == old(stored)
      ensures needed == old(needed) - firstTry && old(waiting) <= waiting && Copied(user[..], placed, old(waiting), n)
    {
      MoveMemory(user, length - needed, 0, firstTry, locked);
      needed := needed - firstTry;
      MoveMemory(user, length - needed, firstTry, n - firstTry, locked);
    }

    method TakeWrapped(n: nat, firstTry: nat, locked: bool)
      requires Valid() && hasRead && !isrReference && pending == 0 && staged == []
      requires placed == information && information + needed == length
      requires firstTry == ring.Length - first && firstTry <= n <= count && n <= needed
      modifies this`count, this`currentSlot, this`stored, this`waiting, this`first, this`placed, this`pending,
               this`needed, ring, user
      ensures Valid() && old(stored) <= stored && count >= old(count)
      ensures locked ==> count == old(count) && stored == old(stored)
      ensures needed == old(needed) - n && placed == old(placed) + n && pending == n
    {
      CopyWrapped(n, firstTry, locked);
      PassToUser(n - firstTry, n);
      needed := needed - (n - firstTry);
    }

    // SerialGetCharsFromIntBuffer.
    method GetCharsFromIntBuffer(locked: bool) returns (n: nat)
      requires Valid() && hasRead && !isrReference && pending == 0 && staged == []
      requires placed == information && information + needed == length
      modifies this`count, this`currentSlot, this`stored, this`waiting, this`first, this`placed, this`pending,
               this`needed, this`information, ring, user
      ensures Valid() && old(stored) <= stored && count >= old(count)
      ensures locked ==> count == old(count) && stored == old(stored)
      ensures n == if old(count) < old(needed) then old(count) else old(needed)
      ensures pending == n && placed == information == old(information) + n && information + needed == length
    {
      n := count;
      if n > needed { n := needed; }
      if n != 0 { TakeOut(n, locked); }
      information := information + n;
    }

    method TakeOut(n: nat, locked: bool)
      requires Valid() && hasRead && !isrReference && pending == 0 && staged == []
      requires placed == information && information + needed == length
      requires 0 < n <= count && n <= needed
      modifies this`count, this`currentSlot, this`stored, this`waiting, this`first, this`placed, this`pending,
               this`needed, ring, user
      ensures Valid() && old(stored) <= stored && count >= old(count)
      ensures locked ==> count == old(count) && stored == old(stored)
      ensures needed == old(needed) - n && placed == old(placed) + n && pending == n
    {
      var firstTry := lastSlot - first + 1;
      if firstTry > n {
        TakeStraight(n, locked);
      } else {
        TakeWrapped(n, firstTry, locked);
      }
    }

    // SerialUpdateInterruptBuffer: under the interrupt lock, takes the copied bytes off the ring's count.
    method UpdateInterruptBuffer(charsCopied: nat)
      requires Valid() && !inUser && charsCopied == pending
      modifies this`count, this`pending
      ensures Valid() && count == old(count) - charsCopied && pending == 0
    {
      ValidAccounts();
      count, pending := count - charsCopied, 0;
    }

    // Points the ISR at the buffer of the read; the ring is empty.
    method SwitchIsrToUser()
      requires Valid() && hasRead && !isrReference && pending == 0 && staged == [] && count == 0
      requires placed == information && information < length && !isrReference
      modifies this`inUser, this`currentSlot, this`lastSlot, this`isrReference
      ensures Valid() && inUser && currentSlot == information && isrReference
    {
      ValidAccounts();
      inUser, currentSlot, lastSlot, isrReference := true, information, length - 1, true;
    }

    // SerialUpdateAndSwitchToUser, under the interrupt lock.
    method UpdateAndSwitchToUser(charsCopied: nat) returns (completed: bool)
      requires Valid() && hasRead && !inUser && charsCopied == pending && staged == []
      requires placed == information && information + needed == length && !isrReference
      modifies this, user, ring
      ensures Valid() && ring == old(ring) && user == old(user) && stored == old(stored) && finished == old(finished)
      ensures hasRead && length == old(length) && pending == 0 && staged == [] && isrReference == !completed
      ensures if completed then !inUser && placed == information == length
              else inUser && count == 0 && currentSlot == information < length
    {
      UpdateInterruptBuffer(charsCopied);
      var n := GetCharsFromIntBuffer(true);
      UpdateInterruptBuffer(n);
      completed := needed == 0;
      if !completed { SwitchIsrToUser(); }
    }

    // ----- Reads -----

    // SerialCompleteRead, the part about the ISR's reference.
    method DropReadReference()
      requires Valid() && completionQueued
      modifies this`completionQueued, this`isrReference
      ensures Valid() && !isrReference && !inUser && placed == information
    {
      ValidAccounts();
      completionQueued, isrReference := false, false;
    }

    // The current read, to which the ISR has no reference any more, leaves the slot with the bytes in its
    // buffer.  If it was cancelled, the application is told of none of them.
    method FinishRead(cancelled: bool) returns (told: nat, ghost data: seq<byte>)
      requires Valid() && hasRead && !isrReference && placed == information
      modifies this`hasRead, this`finished, this`placed
      ensures Valid() && !hasRead
      ensures data == user[..information] && finished == old(finished) + data
      ensures told == if cancelled then 0 else |data|
    {
      ValidAccounts();
      data := user[..placed];
      finished, placed, hasRead := finished + data, 0, false;
      told := if cancelled then 0 else information;
    }

    // SerialGrabReadFromIsr, under the interrupt lock: what has arrived so far is the result of the read.  It
    // drops the reference unless the completion DPC is going to.
    method GrabReadFromIsr()
      requires Valid() && hasRead && (!isrReference ==> placed == information)
      modifies this`first, this`count, this`inUser, this`currentSlot, this`lastSlot, this`pending, this`waiting,
               this`information, this`placed, this`isrReference
      ensures Valid() && hasRead && !inUser && placed == information == old(Taken())
      ensures isrReference == completionQueued && (!old(inUser) ==> waiting == old(waiting))
    {
      ValidAccounts();
      if inUser {
        information := length - ((lastSlot - currentSlot) + 1);
        placed := currentSlot;
        ResetRing();
        isrReference := false;
      }
    }

    // SerialStartRead for one read.  Bytes may arrive at any point where the interrupt lock is not held.
    method StartRead(buffer: array<byte>, len: nat, t: Timeouts) returns (completed: bool)
      requires Valid() && !hasRead && pending == 0 && staged == []
      requires buffer != ring && 0 < len <= buffer.Length
      modifies this, ring, buffer
      ensures Valid() && ring == old(ring) && user == buffer && hasRead && finished == old(finished)
      ensures old(stored) <= stored && pending == 0 && staged == [] && isrReference == !completed
      ensures var firstOnly := t.interval == 0xFFFF_FFFF && t.multiplier == 0xFFFF_FFFF && t.constant != 0xFFFF_FFFF;
        length == if firstOnly && old(count) == 0 then 1 else len
      ensures if completed then !inUser && placed == information <= length
              else inUser && count == 0 && currentSlot == information < length
      ensures var atOnce := t.interval == 0xFFFF_FFFF && t.multiplier == 0 && t.constant == 0;
              var anyNow := t.interval == 0xFFFF_FFFF && !atOnce && t.constant != 0xFFFF_FFFF;
              var present := if old(count) < len then old(count) else len;
        && (atOnce || (anyNow && present > 0) || present == len ==> completed && information == present)
        && (completed && !atOnce && !(anyNow && present > 0) ==> information == length)
    {
      var present, some, crunch := Plan(t);
      var n := TakeTypeahead(buffer, len);
      completed := present || needed == 0 || (some && information > 0);
      if completed {
        UpdateInterruptBuffer(n);
      } else {
        completed := WaitForRest(n, crunch);
      }
    }

    // What the timeouts of the port ask of a read.
    static method Plan(t: Timeouts) returns (present: bool, some: bool, crunch: bool)
      ensures present == t.AtOnce() && some == t.AnyNow() && crunch == t.FirstOnly()
      ensures present <==> t.interval == 0xFFFF_FFFF && t.multiplier == 0 && t.constant == 0
      ensures some <==> t.interval == 0xFFFF_FFFF && !present && t.constant != 0xFFFF_FFFF
      ensures crunch <==> t.interval == 0xFFFF_FFFF && t.multiplier == 0xFFFF_FFFF && t.constant != 0xFFFF_FFFF
    {
      present, some, crunch := false, false, false;
      if t.interval == MAXULONG {
        if t.constant == 0 && t.multiplier == 0 {
          present := true;
        } else if t.constant != MAXULONG && t.multiplier != MAXULONG {
          some := true;
        } else if t.constant != MAXULONG && t.multiplier == MAXULONG {
          some, crunch := true, true;
        }
      }
    }

    // The part of SerialStartRead before the interrupt lock is taken.
    method TakeTypeahead(buffer: array<byte>, len: nat) returns (n: nat)
      requires Valid() && !hasRead && pending == 0 && staged == [] && buffer != ring && len <= buffer.Length
      modifies this, ring, buffer
      ensures Valid() && ring == old(ring) && user == buffer && hasRead && !inUser && finished == old(finished)
      ensures old(stored) <= stored && staged == [] && !isrReference && length == len
      ensures n == (if old(count) < len then old(count) else len)
      ensures n == pending == placed == information && information + needed == length
    {
      BeginRead(buffer, len);
      n := GetCharsFromIntBuffer(false);
      Arrivals();
    }

    // Under the interrupt lock: asks for one byte only if the read is to `crunch`, then lets the ISR fill it.
    method WaitForRest(n: nat, crunch: bool) returns (completed: bool)
      requires Valid() && hasRead && !inUser && n == pending && staged == []
      requires placed == information && information + needed == length && !isrReference
      requires needed > 0 && (crunch ==> information == 0)
      modifies this, user, ring
      ensures Valid() && ring == old(ring) && user == old(user) && stored == old(stored) && finished == old(finished)
      ensures hasRead && pending == 0 && staged == [] && !completionQueued
      ensures length == if crunch then 1 else old(length)
      ensures if completed then !inUser && placed == information == length
              else inUser && count == 0 && currentSlot == information < length
    {
      if crunch { Crunch(); }
      completed := UpdateAndSwitchToUser(n);
    }

    method Crunch()
      requires Valid() && hasRead && !inUser && placed == information == 0 && length > 0
      modifies this`needed, this`length
      ensures Valid() && needed == length == 1
    {
      needed, length := 1, 1;
    }

    method BeginRead(buffer: array<byte>, len: nat)
      requires Valid() && !hasRead && buffer != ring && len <= buffer.Length
      modifies this`hasRead, this`user, this`length, this`needed, this`information, this`placed
      ensures Valid() && hasRead && user == buffer && length == needed == len && information == placed == 0
      ensures !isrReference
    {
      ValidAccounts();
      hasRead, user, length, needed, information, placed := true, buffer, len, len, 0, 0;
      assert user[..0] == [];
    }

    // SerialPurgeInterruptBuff, under the interrupt lock: a no-op while the ISR fills a read.
    method PurgeInterruptBuff()
      requires Valid() && pending == 0 && staged == []
      modifies this`first, this`count, this`inUser, this`currentSlot, this`lastSlot, this`pending, this`waiting,
               this`stored
      ensures Valid() && inUser == old(inUser) && Taken() == old(Taken())
      ensures waiting == [] && old(stored) == stored + old(waiting)
    {
      ValidAccounts();
      if !inUser {
        stored := finished + user[..placed];
        ResetRing();
      }
    }

    // ----- Resizing -----

    // Moves FirstReadableChar past `n` bytes that are now in the new buffer; the ring still counts them.
    method PassToNew(newFirst: nat, n: nat)
      requires Valid() && !hasRead && pending == 0 && n <= count && newFirst == At(first, n, ring.Length)
      modifies this`first, this`staged, this`pending, this`waiting
      ensures Valid() && first == newFirst && pending == n
      ensures staged == old(staged) + old(waiting)[..n] && waiting == old(waiting)[n..]
    {
      ValidAccounts();
      AtAdd(first, n, count - n, ring.Length);
      Moved(stored, finished, staged, waiting, user[..placed], ring[..], first, count, n);
      first, staged, pending, waiting := newFirst, staged + waiting[..n], n, waiting[n..];
    }

    // The bytes do not wrap.
    method MoveStraight(newBuffer: array<byte>, to: nat, n: nat, locked: bool)
      requires Valid() && !hasRead && pending == 0 && newBuffer != ring && newBuffer != user
      requires 0 < n <= count && first + n <= ring.Length && to + n <= newBuffer.Length
      modifies this`count, this`currentSlot, this`stored, this`waiting, this`first, this`staged, this`pending,
               ring, newBuffer
      ensures Valid() && old(stored) <= stored && count >= old(count) && pending == n
      ensures locked ==> count == old(count) && stored == old(stored)
      ensures staged == old(staged) + old(waiting)[..n] && Copied(newBuffer[..], to, old(waiting), n)
      ensures newBuffer[..to] == old(newBuffer[..to])
    {
      MoveMemory(newBuffer, to, 0, n, locked);
      PassToNew(if first + (n - 1) == lastSlot then 0 else first + n, n);
    }

    // They do: first up to the end of the ring, then the rest.
    method CopyBoth(newBuffer: array<byte>, to: nat, n: nat, firstTry: nat, locked: bool)
      requires Valid() && !hasRead && pending == 0 && newBuffer != ring && newBuffer != user
      requires firstTry == ring.Length - first < n <= count && to + n <= newBuffer.Length
      modifies this`count, this`currentSlot, this`stored, this`waiting, ring, newBuffer
      ensures Valid() && old(stored) <= stored && count >= old(count) && old(waiting) <= waiting
      ensures locked ==> count == old(count) && stored == old(stored)
      ensures Copied(newBuffer[..], to, old(waiting), n) && newBuffer[..to] == old(newBuffer[..to])
    {
      MoveMemory(newBuffer, to, 0, firstTry, locked);
      MoveMemory(newBuffer, to + firstTry, firstTry, n - firstTry, locked);
    }

    method MoveWrapped(newBuffer: array<byte>, to: nat, n: nat, firstTry: nat, locked: bool)
      requires Valid() && !hasRead && pending == 0 && newBuffer != ring && newBuffer != user
      requires firstTry == ring.Length - first < n <= count && to + n <= newBuffer.Length
      modifies this`count, this`currentSlot, this`stored, this`waiting, this`first, this`staged, this`pending,
               ring, newBuffer
      ensures Valid() && old(stored) <= stored && count >= old(count) && pending == n
      ensures locked ==> count == old(count) && stored == old(stored)
      ensures staged == old(staged) + old(waiting)[..n] && Copied(newBuffer[..], to, old(waiting), n)
      ensures newBuffer[..to] == old(newBuffer[..to])
    {
      CopyBoth(newBuffer, to, n, firstTry, locked);
      PassToNew(n - firstTry, n);
    }

    // SerialMoveToNewIntBuffer, to position `to` of the new buffer.
    method MoveToNewIntBuffer(newBuffer: array<byte>, to: nat, locked: bool) returns (moved: nat)
      requires Valid() && !hasRead && pending == 0 && newBuffer != ring && newBuffer != user
      requires to + count <= newBuffer.Length
      modifies this`count, this`currentSlot, this`stored, this`waiting, this`first, this`staged, this`pending,
               ring, newBuffer
      ensures Valid() && old(stored) <= stored && count >= old(count) == moved == pending
      ensures locked ==> count == old(count) && stored == old(stored)
      ensures staged == old(staged) + old(waiting) && Copied(newBuffer[..], to, old(waiting), moved)
      ensures newBuffer[..to] == old(newBuffer[..to])
    {
      moved := count;
      assert waiting[..moved] == waiting;
      if moved != 0 {
        var firstTry := lastSlot - first + 1;
        if firstTry >= moved {
          MoveStraight(newBuffer, to, moved, locked);
        } else {
          MoveWrapped(newBuffer, to, moved, firstTry, locked);
        }
      }
    }

    // SerialUpdateAndSwitchToNew, under the interrupt lock: moves what came in since the first phase, then
    // makes the new buffer the ring.
    method SwitchToNew(newBuffer: array<byte>, moved: nat)
      requires Valid() && !hasRead && pending == moved == |staged|
      requires ring.Length < newBuffer.Length && newBuffer != user && newBuffer[..moved] == staged
      modifies this, ring, newBuffer
      ensures Valid() && ring == newBuffer && user == old(user) && finished == old(finished) && placed == old(placed)
      ensures !hasRead && pending == 0 && staged == [] && first == 0 && currentSlot == count < ring.Length
      ensures count == old(count) && stored == old(stored) && waiting == ring[..count] == old(staged + waiting)
    {
      var chars := count;
      UpdateInterruptBuffer(moved);
      if count != 0 {
        var rest := MoveToNewIntBuffer(newBuffer, moved, true);
        assert waiting == [];
      }
      assert newBuffer[..chars] == staged;
      AdoptBuffer(newBuffer, chars);
    }

    // The assignments that make the new buffer the ring, once every waiting byte has been moved to it.
    method AdoptBuffer(newBuffer: array<byte>, chars: nat)
      requires Valid() && !hasRead && waiting == []
      requires chars < newBuffer.Length && newBuffer != user && newBuffer[..chars] == staged
      modifies this`count, this`lastSlot, this`first, this`ring, this`currentSlot, this`pending, this`staged, this`waiting
      ensures Valid() && ring == newBuffer && pending == 0 && staged == [] && first == 0 && currentSlot == count == chars
      ensures waiting == old(staged)
    {
      ValidAccounts();
      StraightSlice(newBuffer[..], 0, chars);
      assert newBuffer[..][0..chars] == staged;
      count, lastSlot, first, ring, currentSlot := chars, newBuffer.Length - 1, 0, newBuffer, chars;
      pending, staged, waiting := 0, [], staged;
    }

    // SerialResizeBuffer: any number of bytes may arrive during the first phase and before the second.
    method ResizeBuffer(newBuffer: array<byte>)
      requires Valid() && !hasRead && pending == 0 && staged == []
      requires newBuffer != ring && newBuffer != user
      modifies this, ring, newBuffer
      ensures Valid() && user == old(user) && finished == old(finished)
      ensures if newBuffer.Length <= old(ring).Length then ring == old(ring) && waiting == old(waiting)
              else ring == newBuffer && first == 0 && currentSlot == count < ring.Length && waiting == ring[..count]
      ensures old(waiting) <= waiting && stored == old(stored) + waiting[|old(waiting)|..]
    {
      if newBuffer.Length > ring.Length {
        ghost var w0 := waiting;
        ghost var fixed := Settled();
        var moved := MoveToNewIntBuffer(newBuffer, 0, false);
        assert newBuffer[..moved] == staged;
        Arrivals();
        SwitchToNew(newBuffer, moved);
        assert fixed == Settled();
        TailArrived(fixed, w0, waiting);
      }
    }
  }
}
