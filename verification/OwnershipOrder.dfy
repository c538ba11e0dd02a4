/** In which order requests are served, over every run of a slot: first come, first served. */
module OwnershipOrder {
  import opened Prelude
  import opened Ownership

  // The requests that are current or queued, the next one first.
  function Line(s: Slot): seq<Id> {
    (match s.current case None => [] case Some(id) => [id]) + s.queue
  }

  // The requests handed to the slot, in order.
  function Submitted(es: seq<Event>): seq<Id> {
    if es == [] then [] else SubmittedBy(es[0]) + Submitted(es[1..])
  }

  function SubmittedBy(e: Event): seq<Id> { if e.Submit? then [e.id] else [] }

  // `part` is what is left of `whole` when some entries are taken out.
  predicate PartOf(part: seq<Id>, whole: seq<Id>) {
    part == [] || (whole != [] && (PartOf(part, whole[1..]) || (part[0] == whole[0] && PartOf(part[1..], whole[1..]))))
  }

  lemma {:induction false} PartOfItself(a: seq<Id>)
    ensures PartOf(a, a)
  {
    if a != [] { PartOfItself(a[1..]); }
  }

  // Dropping entries from the part.
  lemma {:induction false} PartDropped(part: seq<Id>, whole: seq<Id>, i: nat, j: nat)
    requires PartOf(part, whole) && i <= j <= |part|
    ensures PartOf(part[..i] + part[j..], whole)
    decreases |whole|
  {
    var less := part[..i] + part[j..];
    if part == [] || less == [] {
    } else if PartOf(part, whole[1..]) {
      PartDropped(part, whole[1..], i, j);
    } else if i > 0 {
      PartDropped(part[1..], whole[1..], i - 1, j - 1);
      assert less[1..] == part[1..][..i - 1] + part[1..][j - 1..];
    } else if j > 0 {
      PartDropped(part[1..], whole[1..], 0, j - 1);
      assert less == part[1..][..0] + part[1..][j - 1..];
    } else {
      assert less == part;
    }
  }

  lemma {:induction false} PartAppended(part: seq<Id>, whole: seq<Id>, more: seq<Id>)
    requires PartOf(part, whole)
    ensures PartOf(part + more, whole + more)
    decreases |whole|
  {
    if whole == [] {
      assert part + more == more == whole + more;
      PartOfItself(more);
    } else if part == [] {
      PartAppended([], whole[1..], more);
      assert (whole + more)[1..] == whole[1..] + more;
    } else {
      assert (whole + more)[1..] == whole[1..] + more;
      if PartOf(part, whole[1..]) {
        PartAppended(part, whole[1..], more);
      } else {
        PartAppended(part[1..], whole[1..], more);
        assert (part + more)[1..] == part[1..] + more;
      }
    }
  }

  // Only reads and writes wait in a queue.
  predicate QueuesRight(s: Slot) { !HasQueue(s.kind) ==> s.queue == [] }

  // What one step does to the line: some neighbours leave it, and a new request joins it at the end.
  predicate Leaves(before: Slot, after: Slot, i: nat, j: nat, more: seq<Id>) {
    && i <= j <= |Line(before)| && Line(after) == Line(before)[..i] + Line(before)[j..] + more
    && QueuesRight(after)
  }

  lemma SameLine(s: Slot, t: Slot)
    requires QueuesRight(s) && t.kind == s.kind && t.current == s.current && t.queue == s.queue
    ensures Leaves(s, t, 0, 0, [])
  {
  }

  lemma CompletionLine(s: Slot, status: Status)
    requires QueuesRight(s) && s.current.Some?
    ensures Leaves(s, CompleteCurrent(s, status), 0, 1, [])
  {
    assert Line(s)[1..] == s.queue;
  }

  lemma TryLine(s: Slot) returns (j: nat)
    requires QueuesRight(s) && s.pc.Trying? && s.current.Some?
    ensures Leaves(s, TryStep(s), 0, j, [])
  {
    if s.pc.at == Finish && s.refs == NO_REFS {
      CompletionLine(s, s.pc.status);
      return 1;
    }
    SameLine(s, TryStep(s));
    return 0;
  }

  lemma StartLine(s: Slot, choice: bool) returns (j: nat)
    requires QueuesRight(s) && s.pc.Starting? && s.current.Some?
    ensures Leaves(s, StartStep(s, choice), 0, j, [])
  {
    if s.pc.op == Give && s.kind.Read? && choice {
      CompletionLine(s, Success);
      return 1;
    }
    SameLine(s, StartStep(s, choice));
    return 0;
  }

  lemma SubmitLine(s: Slot, id: Id) returns (j: nat)
    requires QueuesRight(s) && Enabled(s, Submit(id))
    ensures Leaves(s, Step(s, Submit(id)), 0, j, [id])
  {
    j := if Overwrites(s, Submit(id)) then 1 else 0;
  }

  lemma PurgeLine(s: Slot) returns (i: nat)
    requires QueuesRight(s)
    ensures i <= |Line(s)| && Leaves(s, PurgeStep(s), i, |Line(s)|, [])
  {
    i := if s.current.None? then 0 else 1;
  }

  lemma CancelQueuedLine(s: Slot, at: nat) returns (i: nat)
    requires QueuesRight(s) && Enabled(s, CancelQueued(at))
    ensures i < |Line(s)| && Leaves(s, Step(s, CancelQueued(at)), i, i + 1, [])
  {
    i := at + if s.current.None? then 0 else 1;
  }

  lemma StepLine(s: Slot, e: Event) returns (i: nat, j: nat)
    requires QueuesRight(s) && Enabled(s, e)
    ensures Leaves(s, Step(s, e), i, j, SubmittedBy(e))
  {
    i, j := 0, 0;
    match e
    case Submit(id) => j := SubmitLine(s, id);
    case Purge => i := PurgeLine(s); j := |Line(s)|;
    case CancelQueued(at) => i := CancelQueuedLine(s, at); j := i + 1;
    case Advance(choice) =>
      if s.current.Some? {
        match s.pc {
          case Starting(_) => j := StartLine(s, choice);
          case Trying(_, _, _, _) => j := TryLine(s);
          case Judging => SameLine(s, Step(s, e));
          case Resting =>
        }
      } else {
        SameLine(s, Step(s, e));
      }
    case _ => SameLine(s, Step(s, e));
  }

  lemma {:induction false} RunLine(s: Slot, es: seq<Event>, before: seq<Id>)
    requires QueuesRight(s) && CanRun(s, es) && PartOf(Line(s), before)
    ensures PartOf(Line(Run(s, es)), before + Submitted(es))
    decreases |es|
  {
    if es == [] {
      assert before + [] == before;
    } else {
      var i, j := StepLine(s, es[0]);
      PartDropped(Line(s), before, i, j);
      PartAppended(Line(s)[..i] + Line(s)[j..], before, SubmittedBy(es[0]));
      RunLine(Step(s, es[0]), es[1..], before + SubmittedBy(es[0]));
      assert before + Submitted(es) == before + SubmittedBy(es[0]) + Submitted(es[1..]);
    }
  }

  // The current request and those queued behind it stand in the order in which they were submitted.
  lemma FirstComeFirstServed(k: Kind, es: seq<Event>)
    requires CanRun(InitialSlot(k), es)
    ensures PartOf(Line(Run(InitialSlot(k), es)), Submitted(es))
  {
    RunLine(InitialSlot(k), es, []);
    assert [] + Submitted(es) == Submitted(es);
  }
}
