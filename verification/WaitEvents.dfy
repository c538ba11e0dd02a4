/** Waiting for communication events: the wait mask, the history mask and the one outstanding wait.

    Events the application asked for are noted in a history mask until a wait takes them.  A wait that finds
    the history empty leaves the ISR the address of its buffer; the next interesting event is written there.

    The log records what happened in order.  `Owes` says from the log alone, without looking at the driver's
    state, which events the driver still has to report.  `Valid` says that the history mask is exactly those
    events and that every mask ever written into a wait was exactly the events owed at that moment. */
module WaitEvents {
  import opened Prelude

  datatype CommEvent =
    RxChar | RxFlag | TxEmpty | Cts | Dsr | Rlsd | Break | Err | Ring | PErr | Rx80Full | Event1 | Event2

  type Mask = set<CommEvent>

  type Id = nat

  /** `Delivered`: a mask was written into the buffer of a wait.  `Released`: zero was written, because the
      wait was cancelled or replaced. */
  datatype Entry =
    | Happened(events: Mask)
    | MaskSet(mask: Mask)
    | Delivered(wait: Id, mask: Mask)
    | Released(wait: Id)

  // The mask in force after the entries of `log`.
  function MaskAfter(log: seq<Entry>): Mask {
    if log == [] then {}
    else if log[|log| - 1].MaskSet? then log[|log| - 1].mask
    else MaskAfter(log[..|log| - 1])
  }

  // Entry `i` is an occurrence of `e` that the application had asked for.
  predicate NotedAt(log: seq<Entry>, i: int, e: CommEvent)
    requires 0 <= i < |log|
  {
    log[i].Happened? && e in log[i].events && e in MaskAfter(log[..i])
  }

  // The entry leaves an event that is owed still owed.
  predicate Keeps(entry: Entry, e: CommEvent) {
    !entry.Delivered? && (entry.MaskSet? ==> e in entry.mask)
  }

  // An occurrence that nothing has delivered since, and that every later mask was still interested in.
  ghost predicate OwedSince(log: seq<Entry>, i: int, e: CommEvent) {
    0 <= i < |log| && NotedAt(log, i, e) && forall j :: i < j < |log| ==> Keeps(log[j], e)
  }

  ghost predicate Owes(log: seq<Entry>, e: CommEvent) {
    exists i :: OwedSince(log, i, e)
  }

  // Every mask written into a wait is the events owed at that moment, and a wait is released only when
  // nothing is owed.
  ghost predicate FaithfulAt(log: seq<Entry>, k: nat)
    requires k < |log|
  {
    && (log[k].Delivered? ==> log[k].mask != {} && forall e :: e in log[k].mask <==> Owes(log[..k], e))
    && (log[k].Released? ==> forall e :: !Owes(log[..k], e))
  }

  ghost predicate Faithful(log: seq<Entry>) {
    forall k :: 0 <= k < |log| ==> FaithfulAt(log, k)
  }

  // ----- What the log says -----

  lemma OwedBefore(log: seq<Entry>, entry: Entry, i: int, e: CommEvent)
    requires 0 <= i < |log|
    ensures OwedSince(log + [entry], i, e) <==> OwedSince(log, i, e) && Keeps(entry, e)
  {
    var next := log + [entry];
    assert next[..i] == log[..i];
    assert next[|log|] == entry;
    assert forall j :: i < j < |log| ==> next[j] == log[j];
  }

  // What is owed after one more entry.
  lemma OwesAfter(log: seq<Entry>, entry: Entry, e: CommEvent)
    ensures Owes(log + [entry], e) <==>
            (Owes(log, e) && Keeps(entry, e)) || (entry.Happened? && e in entry.events && e in MaskAfter(log))
  {
    var next := log + [entry];
    assert next[..|log|] == log;
    assert OwedSince(next, |log|, e) <==> entry.Happened? && e in entry.events && e in MaskAfter(log);
    if Owes(next, e) {
      var i :| OwedSince(next, i, e);
      if i < |log| { OwedBefore(log, entry, i, e); }
    }
    if Owes(log, e) {
      var i :| OwedSince(log, i, e);
      OwedBefore(log, entry, i, e);
    }
  }

  lemma FaithfulAfter(log: seq<Entry>, entry: Entry)
    requires Faithful(log)
    requires entry.Delivered? ==> entry.mask != {} && forall e :: e in entry.mask <==> Owes(log, e)
    requires entry.Released? ==> forall e :: !Owes(log, e)
    ensures Faithful(log + [entry])
  {
    var next := log + [entry];
    assert next[..|log|] == log;
    forall k | 0 <= k < |next| ensures FaithfulAt(next, k) {
      if k < |log| {
        assert next[..k] == log[..k] && FaithfulAt(log, k);
      }
    }
  }

  // The wait mask and the history mask agree with a faithful log.
  ghost predicate Books(waitMask: Mask, history: Mask, log: seq<Entry>) {
    waitMask == MaskAfter(log) && Faithful(log) && forall e :: e in history <==> Owes(log, e)
  }

  lemma BooksAfter(waitMask: Mask, history: Mask, log: seq<Entry>, entry: Entry)
    requires Books(waitMask, history, log)
    requires entry.Delivered? ==> entry.mask == history != {}
    requires entry.Released? ==> history == {}
    ensures entry.Happened? ==> Books(waitMask, history + entry.events * waitMask, log + [entry])
    ensures entry.MaskSet? ==> Books(entry.mask, history * entry.mask, log + [entry])
    ensures entry.Delivered? || entry.Released? ==> Books(waitMask, {}, log + [entry])
  {
    FaithfulAfter(log, entry);
    assert (log + [entry])[..|log|] == log;
    forall e ensures Owes(log + [entry], e) <==>
                     (e in history && Keeps(entry, e)) || (entry.Happened? && e in entry.events && e in waitMask)
    {
      OwesAfter(log, entry, e);
    }
  }

  // Nothing is lost: an occurrence that was noted is still owed, or some later entry delivered it, or some
  // later mask was not interested in it.
  lemma {:induction false} NothingLost(log: seq<Entry>, i: nat, e: CommEvent)
    requires Faithful(log) && i < |log| && NotedAt(log, i, e)
    ensures || Owes(log, e)
            || exists j :: i < j < |log| && ((log[j].Delivered? && e in log[j].mask) || (log[j].MaskSet? && e !in log[j].mask))
    decreases |log|
  {
    var last := |log| - 1;
    var before := log[..last];
    assert log == before + [log[last]];
    OwesAfter(before, log[last], e);
    if i == last {
      assert OwedSince(log, i, e);
    } else {
      assert before[..i] == log[..i];
      forall k | 0 <= k < last ensures FaithfulAt(before, k) {
        assert before[..k] == log[..k] && FaithfulAt(log, k);
      }
      NothingLost(before, i, e);
      assert FaithfulAt(log, last);
    }
  }

  // Nothing is reported twice or out of thin air: each reported event has its own occurrence, noted after
  // every earlier report.
  lemma NothingInvented(log: seq<Entry>, k: nat, e: CommEvent)
    requires Faithful(log) && k < |log| && log[k].Delivered? && e in log[k].mask
    ensures exists i :: 0 <= i < k && NotedAt(log, i, e) && forall j :: i < j < k ==> !log[j].Delivered?
  {
    assert FaithfulAt(log, k);
    var i :| OwedSince(log[..k], i, e);
    assert log[..k][..i] == log[..i];
    assert NotedAt(log, i, e);
    forall j | i < j < k ensures !log[j].Delivered? {
      assert Keeps(log[..k][j], e);
    }
  }

  // ----- Requests -----

  datatype MaskRequest = SetWaitMask(id: Id, mask: Mask) | WaitOnMask(id: Id)

  datatype Outcome = Success | InvalidParameter | BecameWait

  function OutcomeOf(mask: Mask, waiting: bool, request: MaskRequest): Outcome {
    if request.SetWaitMask? then Success
    else if mask == {} || waiting then InvalidParameter
    else BecameWait
  }

  function MaskOf(mask: Mask, request: MaskRequest): Mask {
    if request.SetWaitMask? then request.mask else mask
  }

  // The outcome of each request of a batch, given the mask in force and whether a wait is outstanding.
  function Outcomes(mask: Mask, waiting: bool, batch: seq<MaskRequest>): (r: seq<Outcome>)
    ensures |r| == |batch|
    decreases |batch|
  {
    if batch == [] then []
    else
      var first := OutcomeOf(mask, waiting, batch[0]);
      [first] + Outcomes(MaskOf(mask, batch[0]), waiting || first.BecameWait?, batch[1..])
  }

  // The waits of a batch are different requests, and new ones.
  predicate AllNew(used: set<Id>, batch: seq<MaskRequest>) {
    && (forall j :: 0 <= j < |batch| && batch[j].WaitOnMask? ==> batch[j].id !in used)
    && (forall i, j :: 0 <= i < j < |batch| && batch[i].WaitOnMask? && batch[j].WaitOnMask? ==> batch[i].id != batch[j].id)
  }

  // The mask a batch leaves in force.
  function LastMask(mask: Mask, batch: seq<MaskRequest>): Mask
    decreases |batch|
  {
    if batch == [] then mask else LastMask(MaskOf(mask, batch[0]), batch[1..])
  }

  // The mask in force is the one set last, or the one that was in force before.
  lemma {:induction false} LastMaskIs(mask: Mask, batch: seq<MaskRequest>)
    ensures || (LastMask(mask, batch) == mask && forall j :: 0 <= j < |batch| ==> !batch[j].SetWaitMask?)
            || exists i :: 0 <= i < |batch| && batch[i].SetWaitMask? && LastMask(mask, batch) == batch[i].mask
                           && forall j :: i < j < |batch| ==> !batch[j].SetWaitMask?
    decreases |batch|
  {
    if batch != [] {
      var rest := batch[1..];
      var m := MaskOf(mask, batch[0]);
      LastMaskIs(m, rest);
      if i :| 0 <= i < |rest| && rest[i].SetWaitMask? && LastMask(m, rest) == rest[i].mask
              && forall j :: i < j < |rest| ==> !rest[j].SetWaitMask?
      {
        assert batch[i + 1] == rest[i];
        forall j | i + 1 < j < |batch| ensures !batch[j].SetWaitMask? { assert batch[j] == rest[j - 1]; }
      } else {
        forall j | 1 <= j < |batch| ensures !batch[j].SetWaitMask? { assert batch[j] == rest[j - 1]; }
        if batch[0].SetWaitMask? { assert LastMask(mask, batch) == batch[0].mask; }
      }
    }
  }

  // Setting a mask always succeeds.
  lemma {:induction false} MasksSucceed(mask: Mask, waiting: bool, batch: seq<MaskRequest>, k: nat)
    requires k < |batch|
    ensures Outcomes(mask, waiting, batch)[k] == Success <==> batch[k].SetWaitMask?
    decreases |batch|
  {
    if k > 0 {
      var w := waiting || (batch[0].WaitOnMask? && mask != {});
      MasksSucceed(MaskOf(mask, batch[0]), w, batch[1..], k - 1);
      assert Outcomes(mask, waiting, batch)[k] == Outcomes(MaskOf(mask, batch[0]), w, batch[1..])[k - 1];
    }
  }

  // A wait is refused exactly if it finds no mask, or another one outstanding.
  lemma WaitsRefused(mask: Mask, waiting: bool, batch: seq<MaskRequest>, k: nat)
    requires k < |batch|
    ensures Outcomes(mask, waiting, batch)[k] == InvalidParameter <==>
            && batch[k].WaitOnMask?
            && (LastMask(mask, batch[..k]) == {} || waiting
                || exists j :: 0 <= j < k && batch[j].WaitOnMask? && LastMask(mask, batch[..j]) != {})
  {
    MasksSucceed(mask, waiting, batch, k);
    FirstWaitWins(mask, waiting, batch, k);
  }

  lemma AllOutcomes(mask: Mask, waiting: bool, batch: seq<MaskRequest>)
    ensures var outcomes := Outcomes(mask, waiting, batch);
      && (forall k :: 0 <= k < |batch| ==> (outcomes[k] == Success <==> batch[k].SetWaitMask?))
      && (forall k :: 0 <= k < |batch| ==>
            (outcomes[k] == InvalidParameter <==>
             && batch[k].WaitOnMask?
             && (LastMask(mask, batch[..k]) == {} || waiting
                 || exists j :: 0 <= j < k && batch[j].WaitOnMask? && LastMask(mask, batch[..j]) != {})))
  {
    var outcomes := Outcomes(mask, waiting, batch);
    forall k | 0 <= k < |batch| ensures outcomes[k] == Success <==> batch[k].SetWaitMask? {
      MasksSucceed(mask, waiting, batch, k);
    }
    forall k | 0 <= k < |batch|
      ensures outcomes[k] == InvalidParameter <==>
              && batch[k].WaitOnMask?
              && (LastMask(mask, batch[..k]) == {} || waiting
                  || exists j :: 0 <= j < k && batch[j].WaitOnMask? && LastMask(mask, batch[..j]) != {})
    {
      WaitsRefused(mask, waiting, batch, k);
    }
  }

  // A batch never makes a second wait: a request becomes the wait exactly when it is the first wait that
  // finds a mask, and no wait was outstanding.
  lemma {:induction false} FirstWaitWins(mask: Mask, waiting: bool, batch: seq<MaskRequest>, k: nat)
    requires k < |batch|
    ensures Outcomes(mask, waiting, batch)[k] == BecameWait <==>
            && batch[k].WaitOnMask? && LastMask(mask, batch[..k]) != {} && !waiting
            && forall j :: 0 <= j < k && batch[j].WaitOnMask? ==> LastMask(mask, batch[..j]) == {}
    decreases |batch|
  {
    var rest := batch[1..];
    var m := MaskOf(mask, batch[0]);
    assert batch[..0] == [];
    if k > 0 {
      var w := waiting || (batch[0].WaitOnMask? && mask != {});
      FirstWaitWins(m, w, rest, k - 1);
      assert Outcomes(mask, waiting, batch)[k] == Outcomes(m, w, rest)[k - 1];
      forall j | 1 <= j <= k ensures LastMask(mask, batch[..j]) == LastMask(m, rest[..j - 1]) {
        assert batch[..j][1..] == rest[..j - 1];
      }
      if batch[k].WaitOnMask? && LastMask(mask, batch[..k]) != {} && !waiting {
        if forall j :: 0 <= j < k && batch[j].WaitOnMask? ==> LastMask(mask, batch[..j]) == {} {
          assert batch[0].WaitOnMask? ==> LastMask(mask, batch[..0]) == {};
          forall j | 0 <= j < k - 1 && rest[j].WaitOnMask? ensures LastMask(m, rest[..j]) == {} {
            assert batch[j + 1] == rest[j];
          }
        } else if !w {
          var j :| 0 <= j < k && batch[j].WaitOnMask? && LastMask(mask, batch[..j]) != {};
          assert j > 0;
          assert rest[j - 1] == batch[j];
        }
      }
    }
  }

  /** Whether the cancel routine of the current wait can run: it is set, or it is set and due. */
  datatype Cancelability = NotCancelable | Cancelable | Due

  /** How a wait ended: the number of bytes returned and, for a success, the mask in them. */
  datatype Result = Waited(id: Id, mask: Mask, information: nat) | Cancelled(id: Id)

  // The wait with this mask in its buffer ended with that mask, and with nothing else.
  predicate Reaches(results: seq<Result>, id: Id, mask: Mask) {
    Waited(id, mask, 4) in results && Cancelled(id) !in results
  }

  predicate Missed(results: seq<Result>, id: Id) {
    Cancelled(id) in results && forall r :: r in results && r.Waited? ==> r.id != id
  }

  // What has become of the delivered masks.  `used` are the requests that ever became the wait, and `dropped`
  // those whose completion found their cancel routine due.
  ghost predicate Accounted(log: seq<Entry>, results: seq<Result>, used: set<Id>, dropped: set<Id>, current: Option<Id>) {
    && dropped <= used
    && (forall r :: r in results ==> r.id in used && current != Some(r.id))
    && forall d :: d in log && d.Delivered? ==>
         && d.wait in used
         && (current != Some(d.wait) && d.wait !in dropped ==> Reaches(results, d.wait, d.mask))
         && (current != Some(d.wait) && d.wait in dropped ==> Missed(results, d.wait))
  }

  // The current wait: no mask was delivered to it while it is with the ISR, and later at most the one in its
  // buffer.  It is dropped only when the ISR's reference has gone, and then surely if it was delivered a mask.
  ghost predicate CurrentWait(log: seq<Entry>, used: set<Id>, dropped: set<Id>, id: Id, buffer: Mask, withIsr: bool,
                              isrReference: bool) {
    && id in used
    && (id in dropped ==> !isrReference)
    && forall d :: d in log && d.Delivered? && d.wait == id ==>
         !withIsr && d.mask == buffer && (isrReference || id in dropped)
  }

  // Entries that deliver nothing change nothing.
  lemma AccountedAfter(log: seq<Entry>, entry: Entry, results: seq<Result>, used: set<Id>, dropped: set<Id>,
                       current: Option<Id>)
    requires Accounted(log, results, used, dropped, current)
    requires entry.Delivered? ==> current == Some(entry.wait) && entry.wait in used
    ensures Accounted(log + [entry], results, used, dropped, current)
  {
  }

  lemma CurrentAfter(log: seq<Entry>, entry: Entry, used: set<Id>, dropped: set<Id>, id: Id, buffer: Mask,
                     withIsr: bool, isrReference: bool, newBuffer: Mask, newReference: bool)
    requires CurrentWait(log, used, dropped, id, buffer, withIsr, isrReference)
    requires withIsr || (newBuffer == buffer && newReference == isrReference && !entry.Delivered?)
    requires newReference ==> isrReference
    requires entry.Delivered? ==> entry.mask == newBuffer && newReference
    ensures CurrentWait(log + [entry], used, dropped, id, newBuffer, false, newReference)
    ensures !entry.Delivered? && newReference == isrReference ==>
      CurrentWait(log + [entry], used, dropped, id, buffer, withIsr, isrReference)
  {
  }

  // A request becomes the wait.
  lemma BecomesCurrent(log: seq<Entry>, results: seq<Result>, used: set<Id>, dropped: set<Id>, id: Id, buffer: Mask)
    requires Accounted(log, results, used, dropped, None) && id !in used
    ensures Accounted(log, results, used + {id}, dropped, Some(id))
    ensures CurrentWait(log, used + {id}, dropped, id, buffer, true, true)
  {
  }

  // A request becomes the wait and is delivered a mask at once.
  lemma SatisfiedFollows(log: seq<Entry>, results: seq<Result>, used: set<Id>, dropped: set<Id>, id: Id, buffer: Mask,
                         mask: Mask)
    requires Accounted(log, results, used, dropped, None) && id !in used
    ensures Accounted(log + [Delivered(id, mask)], results, used + {id}, dropped, Some(id))
    ensures CurrentWait(log + [Delivered(id, mask)], used + {id}, dropped, id, mask, false, true)
  {
    BecomesCurrent(log, results, used, dropped, id, buffer);
    AccountedAfter(log, Delivered(id, mask), results, used + {id}, dropped, Some(id));
    CurrentAfter(log, Delivered(id, mask), used + {id}, dropped, id, buffer, true, true, mask, true);
  }

  // The wait ends.
  lemma EndsWaited(log: seq<Entry>, results: seq<Result>, used: set<Id>, dropped: set<Id>, id: Id, buffer: Mask)
    requires Accounted(log, results, used, dropped, Some(id))
    requires CurrentWait(log, used, dropped, id, buffer, false, true)
    ensures Accounted(log, results + [Waited(id, buffer, 4)], used, dropped, None)
  {
    var after := results + [Waited(id, buffer, 4)];
    forall d | d in log && d.Delivered? && d.wait !in dropped ensures Reaches(after, d.wait, d.mask) {
      if d.wait != id { assert Reaches(results, d.wait, d.mask); }
    }
    forall d | d in log && d.Delivered? && d.wait in dropped ensures Missed(after, d.wait) {
      assert Missed(results, d.wait);
    }
  }

  lemma EndsCancelled(log: seq<Entry>, results: seq<Result>, used: set<Id>, dropped: set<Id>, id: Id, buffer: Mask)
    requires Accounted(log, results, used, dropped, Some(id))
    requires CurrentWait(log, used, dropped, id, buffer, false, false)
    ensures Accounted(log, results + [Cancelled(id)], used, dropped, None)
  {
    var after := results + [Cancelled(id)];
    forall d | d in log && d.Delivered? && d.wait !in dropped ensures Reaches(after, d.wait, d.mask) {
      assert Reaches(results, d.wait, d.mask);
    }
    forall d | d in log && d.Delivered? && d.wait in dropped ensures Missed(after, d.wait) {
      if d.wait != id { assert Missed(results, d.wait); }
    }
  }

  // The completion finds the cancel routine due.
  lemma IsDropped(log: seq<Entry>, results: seq<Result>, used: set<Id>, dropped: set<Id>, id: Id, buffer: Mask)
    requires Accounted(log, results, used, dropped, Some(id))
    requires CurrentWait(log, used, dropped, id, buffer, false, true)
    ensures Accounted(log, results, used, dropped + {id}, Some(id))
    ensures CurrentWait(log, used, dropped + {id}, id, buffer, false, false)
  {
  }

  class Waits {
    var isrWaitMask: Mask
    var historyMask: Mask
    var emptiedTransmit: bool

    // CurrentWaitRequest, the buffer of the wait and its Information.
    var currentWait: Option<Id>
    var buffer: Mask
    var information: nat

    var maskLocation: bool         // IrpMaskLocation points at the buffer of the current wait
    var dpcQueued: bool            // the CommWaitDpc
    var isrReference: bool         // SERIAL_REF_ISR
    var cancel: Cancelability      // SERIAL_REF_CANCEL is set unless NotCancelable

    ghost var log: seq<Entry>
    ghost var results: seq<Result>
    ghost var used: set<Id>        // the requests that became the wait
    ghost var dropped: set<Id>     // those whose completion found their cancel routine due

    ghost predicate Valid()
      reads this
    {
      && Shape()
      && Recorded()
      && Followed()
    }

    // Where the delivered masks are.
    ghost predicate Followed()
      reads this
    {
      && (forall l :: l == log ==> Accounted(l, results, used, dropped, currentWait))
      && (currentWait.Some? ==> forall l :: l == log ==>
            CurrentWait(l, used, dropped, currentWait.value, buffer, maskLocation, isrReference))
    }

    lemma FollowedMeans()
      requires Followed()
      ensures Accounted(log, results, used, dropped, currentWait)
      ensures currentWait.Some? ==>
        CurrentWait(log, used, dropped, currentWait.value, buffer, maskLocation, isrReference)
    {
    }

    // A delivered mask that is not still on its way reaches the application if and only if the cancel routine
    // of its wait was not due when the completion ran; otherwise the application is told that the wait was
    // cancelled, and nothing reports those events again.
    lemma DeliveredReachesExactly(id: Id, mask: Mask)
      requires Valid() && Delivered(id, mask) in log && currentWait != Some(id)
      ensures Reaches(results, id, mask) <==> id !in dropped
      ensures id in dropped ==> Missed(results, id)
    {
      FollowedMeans();
      assert Delivered(id, mask) in log && Delivered(id, mask).wait == id;
    }

    // Nobody has to look at the history when a wait is with the ISR.
    ghost predicate Shape()
      reads this
    {
      && historyMask <= isrWaitMask
      && (maskLocation ==> historyMask == {} && currentWait.Some?)
      && isrReference == (maskLocation || dpcQueued)
      && !(maskLocation && dpcQueued)
      && (currentWait.None? <==> !isrReference && cancel == NotCancelable)
      && (currentWait.Some? && !maskLocation ==> information == 4)
    }

    // The masks agree with the log, and so do the buffer of an answered wait and the masks returned.
    ghost predicate Recorded()
      reads this
    {
      && (forall m, h, l :: m == isrWaitMask && h == historyMask && l == log ==> Books(m, h, l))
      && (currentWait.Some? && !maskLocation ==> Answered(log, currentWait.value, buffer))
      && (forall r :: r in results && r.Waited? ==> r.information == 4 && Answered(log, r.id, r.mask))
    }

    lemma RecordedBooks()
      requires Recorded()
      ensures Books(isrWaitMask, historyMask, log)
    {
    }

    // `Recorded` is kept when an entry is added to the log.
    lemma AnswersStay(entry: Entry)
      requires Recorded()
      ensures currentWait.Some? && !maskLocation ==> Answered(log + [entry], currentWait.value, buffer)
      ensures forall r :: r in results && r.Waited? ==> r.information == 4 && Answered(log + [entry], r.id, r.mask)
    {
    }

    // `Followed` is kept too: for a wait that stays where it is, and for one that the ISR has answered.
    lemma FollowsOn(entry: Entry)
      requires Followed() && !entry.Delivered?
      ensures Accounted(log + [entry], results, used, dropped, currentWait)
      ensures currentWait.Some? ==>
        CurrentWait(log + [entry], used, dropped, currentWait.value, buffer, maskLocation, isrReference)
    {
      FollowedMeans();
      AccountedAfter(log, entry, results, used, dropped, currentWait);
      if currentWait.Some? {
        CurrentAfter(log, entry, used, dropped, currentWait.value, buffer, maskLocation, isrReference, buffer, isrReference);
      }
    }

    lemma AnsweredFollows(entry: Entry, newBuffer: Mask, newReference: bool)
      requires Followed() && currentWait.Some? && maskLocation && (newReference ==> isrReference)
      requires entry.Delivered? ==> currentWait == Some(entry.wait) && entry.mask == newBuffer && newReference
      ensures Accounted(log + [entry], results, used, dropped, currentWait)
      ensures CurrentWait(log + [entry], used, dropped, currentWait.value, newBuffer, false, newReference)
    {
      FollowedMeans();
      AccountedAfter(log, entry, results, used, dropped, currentWait);
      CurrentAfter(log, entry, used, dropped, currentWait.value, buffer, true, isrReference, newBuffer, newReference);
    }

    static ghost predicate Answered(log: seq<Entry>, id: Id, buffer: Mask) {
      Delivered(id, buffer) in log || (Released(id) in log && buffer == {})
    }

    // The state at open.
    constructor ()
      ensures Valid() && currentWait == None && isrWaitMask == {} && log == [] && results == [] && used == {} && dropped == {}
    {
      isrWaitMask, historyMask, emptiedTransmit := {}, {}, false;
      currentWait, buffer, information := None, {}, 0;
      maskLocation, dpcQueued, isrReference, cancel := false, false, false, NotCancelable;
      log, results, used, dropped := [], [], {}, {};
    }

    // ----- The interrupt service routine -----

    // Hands the history to the wait, if there is one.
    method SatisfyWait()
      requires AlmostValid() && (maskLocation ==> historyMask != {})
      modifies this`historyMask, this`buffer, this`information, this`maskLocation, this`dpcQueued, this`log
      ensures Valid() && !maskLocation
      ensures if old(maskLocation) then
                historyMask == {} && buffer == old(historyMask) && log == old(log) + [Delivered(currentWait.value, buffer)]
              else log == old(log) && historyMask == old(historyMask) && buffer == old(buffer)
    {
      if maskLocation {
        ghost var entry := Delivered(currentWait.value, historyMask);
        RecordedBooks();
        AnswersStay(entry);
        AnsweredFollows(entry, historyMask, true);
        BooksAfter(isrWaitMask, historyMask, log, entry);
        log := log + [entry];
        buffer := historyMask;
        maskLocation := false;
        historyMask := {};
        information := 4;
        dpcQueued := true;
      }
    }

    // `Valid`, except that the history may hold events for a wait that is with the ISR.
    ghost predicate AlmostValid()
      reads this
    {
      && historyMask <= isrWaitMask
      && (maskLocation ==> currentWait.Some?)
      && isrReference == (maskLocation || dpcQueued)
      && !(maskLocation && dpcQueued)
      && (currentWait.None? <==> !isrReference && cancel == NotCancelable)
      && (currentWait.Some? && !maskLocation ==> information == 4)
      && Recorded()
      && Followed()
    }

    // Notes the events that happened and that are asked for.
    method AddToHistory(happened: Mask)
      requires Valid()
      modifies this`historyMask, this`log
      ensures AlmostValid() && log == old(log) + [Happened(happened)]
      ensures historyMask == old(historyMask) + happened * isrWaitMask
    {
      RecordedBooks();
      AnswersStay(Happened(happened));
      FollowsOn(Happened(happened));
      BooksAfter(isrWaitMask, historyMask, log, Happened(happened));
      historyMask := historyMask + happened * isrWaitMask;
      log := log + [Happened(happened)];
    }

    // What each of the interrupt paths does with the events it has seen.
    method Note(happened: Mask)
      requires Valid()
      modifies this`historyMask, this`buffer, this`information, this`maskLocation, this`dpcQueued, this`log
      ensures Valid()
      ensures log == old(log) + [Happened(happened)] +
                (if old(maskLocation) && happened * isrWaitMask != {} then [Delivered(currentWait.value, buffer)] else [])
      ensures old(maskLocation) && happened * isrWaitMask != {} ==>
                !maskLocation && dpcQueued && buffer == happened * isrWaitMask && historyMask == {}
      ensures !(old(maskLocation) && happened * isrWaitMask != {}) ==>
                && maskLocation == old(maskLocation) && dpcQueued == old(dpcQueued) && buffer == old(buffer)
                && historyMask == old(historyMask) + happened * isrWaitMask
    {
      AddToHistory(happened);
      if isrWaitMask != {} && maskLocation && historyMask != {} {
        SatisfyWait();
      }
    }

    // Any number of interrupts.
    method Interrupts()
      requires Valid()
      modifies this`historyMask, this`buffer, this`information, this`maskLocation, this`dpcQueued, this`log
      ensures Valid() && old(log) <= log && (!old(maskLocation) ==> !maskLocation && dpcQueued == old(dpcQueued))
    {
      var n: nat := *;
      while n > 0
        invariant Valid() && old(log) <= log && (!old(maskLocation) ==> !maskLocation && dpcQueued == old(dpcQueued))
      {
        var happened: Mask := *;
        Note(happened);
        n := n - 1;
      }
    }

    // A received character, in the ISR's receive loop.
    method ReceivedChar(c: int, eventChar: int)
      requires Valid()
      modifies this`historyMask, this`buffer, this`information, this`maskLocation, this`dpcQueued, this`log
      ensures Valid() && old(log) + [Happened(if c == eventChar then {RxChar, RxFlag} else {RxChar})] <= log
    {
      Note(if eventChar == c then {RxChar, RxFlag} else {RxChar});
    }

    // SerialPutChar has stored a character in the ring: its fill level is noted at one exact count.
    method RingFilledTo(count: nat, bufferSize: nat)
      requires Valid()
      modifies this`historyMask, this`buffer, this`information, this`maskLocation, this`dpcQueued, this`log
      ensures Valid() && (if count == 3 * (bufferSize / 4) + bufferSize / 16 then old(log) + [Happened({Rx80Full})] <= log
                          else log == old(log))
    {
      var bufferSizePt8 := 3 * (bufferSize / 4) + bufferSize / 16;
      if count == bufferSizePt8 { Note({Rx80Full}); }
    }

    // SerialProcessLSR, for a status with an overrun, parity or framing error, or a break.
    method LineStatus(error: bool, break_: bool)
      requires Valid()
      modifies this`historyMask, this`buffer, this`information, this`maskLocation, this`dpcQueued, this`log
      ensures Valid() && old(log) + [Happened((if error then {Err} else {}) + (if break_ then {Break} else {}))] <= log
    {
      Note((if error then {Err} else {}) + (if break_ then {Break} else {}));
    }

    // SerialHandleModemUpdate, for the modem lines that changed.
    method ModemStatus(changed: Mask)
      requires Valid() && changed <= {Cts, Dsr, Ring, Rlsd}
      modifies this`historyMask, this`buffer, this`information, this`maskLocation, this`dpcQueued, this`log
      ensures Valid() && old(log) + [Happened(changed)] <= log
    {
      Note(changed);
    }

    // The ISR has something to send.
    method NoteTransmission()
      requires Valid()
      modifies this`emptiedTransmit
      ensures Valid() && emptiedTransmit
    {
      emptiedTransmit := true;
    }

    // SerialProcessEmptyTransmit, under the interrupt lock: everything has been sent.
    method ProcessEmptyTransmit(transmitImmediate: bool, currentWrite: bool, writesQueued: bool)
      requires Valid()
      modifies this`historyMask, this`buffer, this`information, this`maskLocation, this`dpcQueued, this`log
      ensures Valid() && (if TxEmpty in isrWaitMask && emptiedTransmit && !transmitImmediate && !currentWrite && !writesQueued
                          then old(log) + [Happened({TxEmpty})] <= log else log == old(log))
    {
      if TxEmpty in isrWaitMask && emptiedTransmit && !transmitImmediate && !currentWrite && !writesQueued {
        Note({TxEmpty});
      }
    }

    // ----- The wait -----

    // SerialGrabWaitFromIsr, under the interrupt lock.
    method GrabWaitFromIsr()
      requires Valid() && cancel != NotCancelable
      modifies this`buffer, this`information, this`maskLocation, this`isrReference, this`log
      ensures Valid() && !maskLocation && isrReference == dpcQueued
      ensures log == if old(maskLocation) then old(log) + [Released(currentWait.value)] else old(log)
    {
      if maskLocation {
        ghost var entry := Released(currentWait.value);
        RecordedBooks();
        AnswersStay(entry);
        AnsweredFollows(entry, {}, false);
        BooksAfter(isrWaitMask, historyMask, log, entry);
        log := log + [entry];
        buffer, information, maskLocation, isrReference := {}, 4, false, false;
      }
    }

    // SerialFinishOldWait, under the interrupt lock: the old wait ends with a zero mask, and the history
    // keeps what the new mask is still interested in.
    method FinishOldWait(mask: Mask)
      requires Valid()
      modifies this`buffer, this`information, this`maskLocation, this`dpcQueued, this`log, this`historyMask,
               this`isrWaitMask
      ensures Valid() && !maskLocation && isrWaitMask == mask && historyMask == old(historyMask) * mask
      ensures log == old(log) + (if old(maskLocation) then [Released(currentWait.value)] else []) + [MaskSet(mask)]
    {
      if maskLocation { EndOldWait(); }
      ApplyMask(mask);
    }

    // The old wait gets a zero mask and is on its way to completion; its reference stays until then.
    method EndOldWait()
      requires Valid() && maskLocation
      modifies this`buffer, this`information, this`maskLocation, this`dpcQueued, this`log
      ensures Valid() && !maskLocation && dpcQueued && log == old(log) + [Released(currentWait.value)]
    {
      ghost var entry := Released(currentWait.value);
      RecordedBooks();
      AnswersStay(entry);
      AnsweredFollows(entry, {}, true);
      BooksAfter(isrWaitMask, historyMask, log, entry);
      log := log + [entry];
      buffer, information, maskLocation, dpcQueued := {}, 4, false, true;
    }

    method ApplyMask(mask: Mask)
      requires Valid() && !maskLocation
      modifies this`log, this`historyMask, this`isrWaitMask
      ensures Valid() && isrWaitMask == mask && historyMask == old(historyMask) * mask && log == old(log) + [MaskSet(mask)]
    {
      RecordedBooks();
      AnswersStay(MaskSet(mask));
      FollowsOn(MaskSet(mask));
      BooksAfter(isrWaitMask, historyMask, log, MaskSet(mask));
      historyMask := historyMask * mask;
      isrWaitMask := mask;
      log := log + [MaskSet(mask)];
    }

    // The request becomes the wait: SerialGiveWaitToIsr, under the interrupt lock.
    method GiveWaitToIsr(id: Id)
      requires Valid() && currentWait == None && isrWaitMask != {} && id !in used
      modifies this`buffer, this`information, this`maskLocation, this`isrReference, this`dpcQueued, this`log,
               this`historyMask, this`emptiedTransmit, this`currentWait, this`cancel, this`used
      ensures Valid() && currentWait == Some(id) && cancel == Cancelable && historyMask == {} && used == old(used) + {id}
      ensures if old(historyMask) == {} then maskLocation && log == old(log)
              else dpcQueued && buffer == old(historyMask) && log == old(log) + [Delivered(id, buffer)]
    {
      if historyMask == {} {
        LeaveWithIsr(id);
      } else {
        SatisfyAtOnce(id);
      }
    }

    // Nothing has happened yet: the ISR is told where to write.
    method LeaveWithIsr(id: Id)
      requires Valid() && currentWait == None && historyMask == {} && id !in used
      modifies this`isrReference, this`emptiedTransmit, this`maskLocation, this`currentWait, this`cancel, this`used
      ensures Valid() && currentWait == Some(id) && cancel == Cancelable && maskLocation && used == old(used) + {id}
    {
      FollowedMeans();
      BecomesCurrent(log, results, used, dropped, id, buffer);
      used := used + {id};
      cancel, currentWait, isrReference := Cancelable, Some(id), true;
      emptiedTransmit := false;
      maskLocation := true;
    }

    // Something has happened already: the wait gets the history.
    method SatisfyAtOnce(id: Id)
      requires Valid() && currentWait == None && historyMask != {} && id !in used
      modifies this`buffer, this`information, this`isrReference, this`dpcQueued, this`log, this`historyMask,
               this`currentWait, this`cancel, this`used
      ensures Valid() && currentWait == Some(id) && cancel == Cancelable && dpcQueued && historyMask == {}
      ensures used == old(used) + {id}
      ensures buffer == old(historyMask) && log == old(log) + [Delivered(id, buffer)]
    {
      ghost var entry := Delivered(id, historyMask);
      RecordedBooks();
      AnswersStay(entry);
      BooksAfter(isrWaitMask, historyMask, log, entry);
      FollowedMeans();
      SatisfiedFollows(log, results, used, dropped, id, buffer, historyMask);
      used := used + {id};
      cancel, currentWait, isrReference := Cancelable, Some(id), true;
      log := log + [entry];
      buffer := historyMask;
      historyMask := {};
      information := 4;
      dpcQueued := true;
    }

    // SerialCompleteWait, the CommWaitDpc.
    method CompleteWait()
      requires Valid() && dpcQueued
      modifies this`dpcQueued, this`isrReference, this`cancel, this`currentWait, this`results, this`dropped
      ensures Valid() && !dpcQueued
      ensures dropped == old(dropped) + if old(cancel) == Due then {old(currentWait).value} else {}
      ensures if old(cancel) != Due then
                currentWait == None && results == old(results) + [Waited(old(currentWait).value, buffer, 4)]
              else currentWait == old(currentWait) && cancel == Due && results == old(results)
    {
      FollowedMeans();
      dpcQueued, isrReference := false, false;
      if cancel == Cancelable { cancel := NotCancelable; }
      if cancel != NotCancelable {
        IsDropped(log, results, used, dropped, currentWait.value, buffer);
        dropped := dropped + {currentWait.value};
      } else {
        EndsWaited(log, results, used, dropped, currentWait.value, buffer);
        results := results + [Waited(currentWait.value, buffer, information)];
        currentWait := None;
      }
    }

    // The application cancels the wait: its cancel routine becomes due.
    method RequestCancel()
      requires Valid()
      modifies this`cancel
      ensures Valid() && cancel == if old(cancel) == Cancelable then Due else old(cancel)
    {
      if cancel == Cancelable { cancel := Due; }
    }

    // SerialCancelWait.  A wait that has been answered is still left to its completion, unless that has
    // been and gone.
    method CancelWait()
      requires Valid() && cancel == Due
      modifies this`buffer, this`information, this`maskLocation, this`isrReference, this`log,
               this`cancel, this`currentWait, this`results
      ensures Valid() && cancel == NotCancelable
      ensures if old(dpcQueued) then currentWait == old(currentWait) && results == old(results) && log == old(log)
              else currentWait == None && results == old(results) + [Cancelled(old(currentWait).value)]
      ensures log == if old(maskLocation) then old(log) + [Released(old(currentWait).value)] else old(log)
    {
      GrabWaitFromIsr();
      cancel := NotCancelable;
      if !isrReference {
        FollowedMeans();
        EndsCancelled(log, results, used, dropped, currentWait.value, buffer);
        information := 0;
        results := results + [Cancelled(currentWait.value)];
        currentWait := None;
      }
    }

    // One turn of the loop of SerialStartMask, with interrupts before and after.
    method StartOne(request: MaskRequest) returns (outcome: Outcome)
      requires Valid() && (request.WaitOnMask? ==> request.id !in used)
      modifies this
      ensures Valid() && results == old(results) && old(log) <= log
      ensures outcome == OutcomeOf(old(isrWaitMask), old(currentWait).Some?, request)
      ensures isrWaitMask == MaskOf(old(isrWaitMask), request)
      ensures currentWait == if outcome.BecameWait? then Some(request.id) else old(currentWait)
      ensures used == (old(used) + if outcome.BecameWait? then {request.id} else {}) && dropped == old(dropped)
    {
      Interrupts();
      if request.SetWaitMask? {
        FinishOldWait(request.mask);
        outcome := Success;
      } else if isrWaitMask == {} || currentWait.Some? {
        outcome := InvalidParameter;
      } else {
        GiveWaitToIsr(request.id);
        outcome := BecameWait;
      }
      Interrupts();
    }

    // SerialStartMask, for a batch of mask requests.
    method StartMask(batch: seq<MaskRequest>) returns (outcomes: seq<Outcome>)
      requires Valid() && batch != [] && AllNew(used, batch)
      modifies this
      ensures Valid() && results == old(results) && old(log) <= log
      ensures outcomes == Outcomes(old(isrWaitMask), old(currentWait).Some?, batch)
      ensures isrWaitMask == LastMask(old(isrWaitMask), batch)
      ensures forall k :: 0 <= k < |batch| ==> (outcomes[k] == Success <==> batch[k].SetWaitMask?)
      ensures forall k :: 0 <= k < |batch| ==>
                (outcomes[k] == InvalidParameter <==>
                 && batch[k].WaitOnMask?
                 && (LastMask(old(isrWaitMask), batch[..k]) == {} || old(currentWait).Some?
                     || exists j :: 0 <= j < k && batch[j].WaitOnMask? && LastMask(old(isrWaitMask), batch[..j]) != {}))
    {
      var k := 0;
      outcomes := [];
      assert batch[0..] == batch;
      while k < |batch|
        invariant k <= |batch| && Valid() && results == old(results) && old(log) <= log
        invariant outcomes + Outcomes(isrWaitMask, currentWait.Some?, batch[k..]) ==
                  Outcomes(old(isrWaitMask), old(currentWait).Some?, batch)
        invariant LastMask(isrWaitMask, batch[k..]) == LastMask(old(isrWaitMask), batch)
        invariant AllNew(used, batch[k..]) && dropped == old(dropped)
      {
        assert batch[k..][0] == batch[k] && batch[k..][1..] == batch[k + 1..];
        var outcome := StartOne(batch[k]);
        outcomes := outcomes + [outcome];
        k := k + 1;
      }
      assert batch[|batch|..] == [] && outcomes + [] == outcomes;
      AllOutcomes(old(isrWaitMask), old(currentWait).Some?, batch);
    }
  }

  // ----- A run that loses an event -----

  // The event happens and is delivered; the wait is cancelled before its completion runs.
  method CancelInTime() returns (w: Waits)
    ensures fresh(w) && w.Valid() && w.dpcQueued && w.currentWait == Some(7) && w.cancel == Due && w.results == []
    ensures Delivered(7, {RxChar}) in w.log && !w.maskLocation && w.historyMask == {}
  {
    w := new Waits();
    w.FinishOldWait({RxChar});
    w.GiveWaitToIsr(7);
    assert w.isrWaitMask == {RxChar} && {RxChar} * {RxChar} == {RxChar};
    w.Note({RxChar});
    assert w.log[|w.log| - 1] == Delivered(7, {RxChar});
    w.RequestCancel();
  }

  // So the application learns that the wait was cancelled, and never of the event: nothing is owed any more.
  method LoseEvent() returns (w: Waits)
    ensures fresh(w) && w.Valid() && Delivered(7, {RxChar}) in w.log && Missed(w.results, 7)
    ensures w.currentWait == None && w.historyMask == {}
  {
    w := CancelInTime();
    w.CompleteWait();
    w.CancelWait();
  }
}
