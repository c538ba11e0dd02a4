/** Line status and modem status inserted in the received data (IOCTL_SERIAL_LSRMST_INSERT).

    Records start with the escape character.  A received escape character is followed by a zero, so a reader
    can tell the records from the data; except that a character that comes with an overrun is stored without. */
module Escape {
  import opened Prelude

  const ESCAPE: byte := 0
  const LSR_DATA: byte := 1
  const LSR_NODATA: byte := 2
  const MST: byte := 3

  /** What a reader of the data can learn. */
  datatype Event = Char(c: byte) | LineData(lsr: byte, c: byte) | LineNoData(lsr: byte) | Modem(msr: byte)

  type Bytes = seq<byte>

  function Record(escape: byte, e: Event): Bytes {
    match e
    case Char(c) => if c == escape then [c, ESCAPE] else [c]
    case LineData(lsr, c) => [escape, LSR_DATA, lsr, c]
    case LineNoData(lsr) => [escape, LSR_NODATA, lsr]
    case Modem(msr) => [escape, MST, msr]
  }

  function Encode(escape: byte, events: seq<Event>): Bytes {
    if events == [] then [] else Record(escape, events[0]) + Encode(escape, events[1..])
  }

  // The first event in the data and how many bytes it takes, or nothing if there is no complete record.
  function First(escape: byte, b: Bytes): (r: Option<(Event, nat)>)
    ensures r.Some? ==> 0 < r.value.1 <= |b| && b[..r.value.1] == Record(escape, r.value.0)
  {
    if b == [] then None
    else if b[0] != escape then Some((Char(b[0]), 1))
    else if |b| >= 2 && b[1] == ESCAPE then Some((Char(escape), 2))
    else if |b| >= 4 && b[1] == LSR_DATA then Some((LineData(b[2], b[3]), 4))
    else if |b| >= 3 && b[1] == LSR_NODATA then Some((LineNoData(b[2]), 3))
    else if |b| >= 3 && b[1] == MST then Some((Modem(b[2]), 3))
    else None
  }

  function Decode(escape: byte, b: Bytes): Option<seq<Event>>
    decreases |b|
  {
    if b == [] then Some([])
    else
      match First(escape, b) {
        case None => None
        case Some((e, n)) =>
          match Decode(escape, b[n..]) {
            case None => None
            case Some(rest) => Some([e] + rest)
          }
      }
  }

  lemma FirstOfRecord(escape: byte, e: Event, rest: Bytes)
    ensures First(escape, Record(escape, e) + rest) == Some((e, |Record(escape, e)|))
  {
  }

  // Reading gives back what was written.
  lemma {:induction false} DecodeEncode(escape: byte, events: seq<Event>)
    ensures Decode(escape, Encode(escape, events)) == Some(events)
  {
    if events != [] {
      var head, tail := Record(escape, events[0]), Encode(escape, events[1..]);
      FirstOfRecord(escape, events[0], tail);
      DecodeEncode(escape, events[1..]);
      assert (head + tail)[|head|..] == tail;
      assert [events[0]] + events[1..] == events;
    }
  }

  // Data that can be read starts with a record, and goes on with data that can be read.
  lemma DecodeStep(escape: byte, b: Bytes) returns (e: Event, n: nat)
    requires b != [] && Decode(escape, b).Some?
    ensures 0 < n <= |b| && b[..n] == Record(escape, e) && Decode(escape, b[n..]).Some?
    ensures Decode(escape, b).value == [e] + Decode(escape, b[n..]).value
  {
    var first := First(escape, b).value;
    return first.0, first.1;
  }

  lemma OneMoreRecord(escape: byte, b: Bytes, e: Event, n: nat, rest: seq<Event>)
    requires n <= |b| && b[..n] == Record(escape, e) && b[n..] == Encode(escape, rest)
    ensures Encode(escape, [e] + rest) == b
  {
    assert ([e] + rest)[1..] == rest;
    assert b == b[..n] + b[n..];
  }

  // And only what was written can be read.
  lemma {:induction false} EncodeDecode(escape: byte, b: Bytes)
    requires Decode(escape, b).Some?
    ensures Encode(escape, Decode(escape, b).value) == b
    decreases |b|
  {
    if b != [] {
      var e, n := DecodeStep(escape, b);
      EncodeDecode(escape, b[n..]);
      OneMoreRecord(escape, b, e, n, Decode(escape, b[n..]).value);
    }
  }

  // ----- The driver -----

  /** What the hardware shows: a character, a line status with an error, or a change of the modem lines.  With
      an error, `c` and `c2` are what the receive buffer gives if it is read once and twice. */
  datatype Shown = Received(c: byte) | LineError(lsr: byte, c: byte, c2: byte) | ModemChange(msr: byte)

  predicate HasData(lsr: byte) { lsr as int % 2 == 1 }

  predicate Overrun(lsr: byte) { lsr as int / 2 % 2 == 1 }

  // An overrun with data: the receive buffer is read a second time.
  predicate ReadsAgain(s: Shown) { s.LineError? && HasData(s.lsr) && Overrun(s.lsr) }

  // What a reader ought to learn.
  function EventsOf(s: Shown): seq<Event> {
    match s
    case Received(c) => [Char(c)]
    case LineError(lsr, c, c2) =>
      if !HasData(lsr) then [LineNoData(lsr)]
      else if Overrun(lsr) then [LineData(lsr, c), Char(c2)]
      else [LineData(lsr, c)]
    case ModemChange(msr) => [Modem(msr)]
  }

  function AllEvents(shown: seq<Shown>): seq<Event> {
    if shown == [] then [] else AllEvents(shown[..|shown| - 1]) + EventsOf(shown[|shown| - 1])
  }

  // No character read because of an overrun is the escape character.
  predicate Readable(escape: byte, shown: seq<Shown>) {
    forall k :: 0 <= k < |shown| && ReadsAgain(shown[k]) ==> shown[k].c2 != escape
  }

  lemma {:induction false} EncodeConcat(escape: byte, a: seq<Event>, b: seq<Event>)
    ensures Encode(escape, a + b) == Encode(escape, a) + Encode(escape, b)
  {
    if a == [] {
      assert a + b == b;
    } else {
      assert (a + b)[1..] == a[1..] + b;
      EncodeConcat(escape, a[1..], b);
    }
  }

  class Inserter {
    const escapeChar: byte
    var stored: Bytes
    ghost var shown: seq<Shown>

    // The stored data is the records of what the hardware has shown, or shorter.
    ghost predicate Valid()
      reads this
    {
      && escapeChar != 0
      && |stored| <= |Encode(escapeChar, AllEvents(shown))|
      && (stored == Encode(escapeChar, AllEvents(shown)) <==> Readable(escapeChar, shown))
      && (|stored| == |Encode(escapeChar, AllEvents(shown))| <==> Readable(escapeChar, shown))
    }

    constructor (escapeChar: byte)
      requires escapeChar != 0
      ensures Valid() && stored == [] && shown == [] && this.escapeChar == escapeChar
    {
      this.escapeChar, stored, shown := escapeChar, [], [];
    }

    method PutChar(c: byte)
      modifies this`stored
      ensures stored == old(stored) + [c]
    {
      stored := stored + [c];
    }

    // What was shown and stored fits the rest.
    ghost method Note(s: Shown, before: Bytes, bytes: Bytes)
      requires stored == before + bytes && escapeChar != 0
      requires |before| <= |Encode(escapeChar, AllEvents(shown))|
      requires before == Encode(escapeChar, AllEvents(shown)) <==> Readable(escapeChar, shown)
      requires |before| == |Encode(escapeChar, AllEvents(shown))| <==> Readable(escapeChar, shown)
      requires |bytes| <= |Encode(escapeChar, EventsOf(s))|
      requires bytes == Encode(escapeChar, EventsOf(s)) <==> !(ReadsAgain(s) && s.c2 == escapeChar)
      requires |bytes| == |Encode(escapeChar, EventsOf(s))| <==> !(ReadsAgain(s) && s.c2 == escapeChar)
      modifies this`shown
      ensures Valid() && shown == old(shown) + [s]
    {
      var all := AllEvents(shown);
      EncodeConcat(escapeChar, all, EventsOf(s));
      assert (shown + [s])[..|shown|] == shown;
      assert Readable(escapeChar, shown + [s]) <==> Readable(escapeChar, shown) && !(ReadsAgain(s) && s.c2 == escapeChar) by {
        var next := shown + [s];
        assert next[|shown|] == s;
        assert forall k :: 0 <= k < |shown| ==> next[k] == shown[k];
      }
      shown := shown + [s];
    }

    // A character, in the ISR's receive loop.
    method ReceiveChar(c: byte)
      requires Valid()
      modifies this`stored, this`shown
      ensures Valid() && shown == old(shown) + [Received(c)]
      ensures stored == old(stored) + if c == escapeChar then [c, 0] else [c]
    {
      ghost var before := stored;
      PutChar(c);
      if escapeChar == c { PutChar(ESCAPE); }
      OneEvent(escapeChar, Char(c));
      Note(Received(c), before, Record(escapeChar, Char(c)));
    }

    // SerialProcessLSR, for a status with an error.
    method ProcessLSR(lsr: byte, c: byte, c2: byte)
      requires Valid()
      modifies this`stored, this`shown
      ensures Valid() && shown == old(shown) + [LineError(lsr, c, c2)]
      ensures stored == old(stored) +
                        if lsr as int % 2 == 0 then [escapeChar, 2, lsr]
                        else if lsr as int / 2 % 2 == 1 then [escapeChar, 1, lsr, c, c2]
                        else [escapeChar, 1, lsr, c]
    {
      ghost var before := stored;
      PutChar(escapeChar);
      PutChar(if HasData(lsr) then LSR_DATA else LSR_NODATA);
      PutChar(lsr);
      if HasData(lsr) { PutChar(c); }
      if Overrun(lsr) {
        if HasData(lsr) { PutChar(c2); }
      }
      assert stored == before + LineRecord(escapeChar, lsr, c, c2);
      LineBytes(escapeChar, lsr, c, c2);
      Note(LineError(lsr, c, c2), before, LineRecord(escapeChar, lsr, c, c2));
    }

    // SerialHandleModemUpdate, for a status with a change.
    method HandleModemUpdate(msr: byte)
      requires Valid()
      modifies this`stored, this`shown
      ensures Valid() && shown == old(shown) + [ModemChange(msr)]
      ensures stored == old(stored) + [escapeChar, 3, msr]
    {
      ghost var before := stored;
      PutChar(escapeChar);
      PutChar(MST);
      PutChar(msr);
      OneEvent(escapeChar, Modem(msr));
      Note(ModemChange(msr), before, Record(escapeChar, Modem(msr)));
    }

    // A reader can tell from the data exactly what the hardware has shown, unless a character read because
    // of an overrun was the escape character; and then it cannot.
    lemma ReaderLearns()
      requires Valid()
      ensures Decode(escapeChar, stored) == Some(AllEvents(shown)) <==> Readable(escapeChar, shown)
    {
      DecodeEncode(escapeChar, AllEvents(shown));
      if Decode(escapeChar, stored) == Some(AllEvents(shown)) { EncodeDecode(escapeChar, stored); }
    }
  }

  lemma OneEvent(escape: byte, e: Event)
    ensures Encode(escape, [e]) == Record(escape, e)
  {
  }

  function LineRecord(escape: byte, lsr: byte, c: byte, c2: byte): Bytes {
    if !HasData(lsr) then [escape, LSR_NODATA, lsr]
    else if Overrun(lsr) then [escape, LSR_DATA, lsr, c, c2]
    else [escape, LSR_DATA, lsr, c]
  }

  // What is stored for a line status with an error.
  lemma LineBytes(escape: byte, lsr: byte, c: byte, c2: byte)
    ensures var s := LineError(lsr, c, c2);
            var bytes := LineRecord(escape, lsr, c, c2);
            && |bytes| <= |Encode(escape, EventsOf(s))|
            && (bytes == Encode(escape, EventsOf(s)) <==> !(ReadsAgain(s) && s.c2 == escape))
            && (|bytes| == |Encode(escape, EventsOf(s))| <==> !(ReadsAgain(s) && s.c2 == escape))
  {
    if ReadsAgain(LineError(lsr, c, c2)) {
      EncodeConcat(escape, [LineData(lsr, c)], [Char(c2)]);
      OneEvent(escape, LineData(lsr, c));
      OneEvent(escape, Char(c2));
    } else if HasData(lsr) {
      OneEvent(escape, LineData(lsr, c));
    } else {
      OneEvent(escape, LineNoData(lsr));
    }
  }
}
