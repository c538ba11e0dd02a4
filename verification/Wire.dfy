/** What a transmitting serial port owes to its peer and to its application, told from the log of what it has
    put on the line and heard. */
module Wire {
  import opened Prelude

  /** What is put in the transmit holding register, and the reasons to stop and to go on.  `stops` says that
      sending the Xoff also stops the sender, which XOFF_CONTINUE turns off. */
  datatype Entry =
    | Data(b: byte)
    | Immediate(c: byte)
    | SentXon
    | SentXoff(stops: bool)
    | Stop
    | Go

  type Log = seq<Entry>

  // The bytes of writes that went out, in order.
  function DataOf(log: Log): seq<byte> {
    if log == [] then []
    else DataOf(log[..|log| - 1]) + (if log[|log| - 1].Data? then [log[|log| - 1].b] else [])
  }

  // The last flow control character that went out was an Xoff.
  predicate PeerStopped(log: Log) {
    log != [] &&
    match log[|log| - 1] {
      case SentXon => false
      case SentXoff(_) => true
      case _ => PeerStopped(log[..|log| - 1])
    }
  }

  // Data must not be sent: an Xoff was received or sent, and since then nothing lifted it.
  predicate Stopped(log: Log) {
    log != [] &&
    match log[|log| - 1] {
      case Stop => true
      case Go => false
      case SentXon => false
      case SentXoff(stops) => stops || Stopped(log[..|log| - 1])
      case _ => Stopped(log[..|log| - 1])
    }
  }

  // No data goes out while it must not.
  predicate Obedient(log: Log) {
    forall k :: 0 <= k < |log| && log[k].Data? ==> !Stopped(log[..k])
  }

  lemma Appended(log: Log, e: Entry)
    ensures DataOf(log + [e]) == DataOf(log) + (if e.Data? then [e.b] else [])
    ensures PeerStopped(log + [e]) == (e.SentXoff? || (PeerStopped(log) && !e.SentXon?))
    ensures Stopped(log + [e]) == (e.Stop? || (e.SentXoff? && e.stops) || (Stopped(log) && !e.Go? && !e.SentXon?))
    ensures Obedient(log) && !(e.Data? && Stopped(log)) ==> Obedient(log + [e])
  {
    var next := log + [e];
    assert next[..|log|] == log;
    if Obedient(log) && !(e.Data? && Stopped(log)) {
      forall k | 0 <= k < |next| && next[k].Data? ensures !Stopped(next[..k]) {
        if k < |log| { assert next[..k] == log[..k]; }
      }
    }
  }

  // The other reading of `Stopped`: something stopped the sender and nothing has lifted it since.
  lemma {:induction false} StoppedMeans(log: Log)
    ensures Stopped(log) <==>
            exists i :: 0 <= i < |log| && (log[i].Stop? || (log[i].SentXoff? && log[i].stops))
                        && forall j :: i < j < |log| ==> !log[j].Go? && !log[j].SentXon?
  {
    if log != [] {
      var last := |log| - 1;
      var before := log[..last];
      StoppedMeans(before);
      if Stopped(before) && !log[last].Go? && !log[last].SentXon? {
        var i :| 0 <= i < last && (before[i].Stop? || (before[i].SentXoff? && before[i].stops))
                 && forall j :: i < j < last ==> !before[j].Go? && !before[j].SentXon?;
        assert log[i] == before[i];
        forall j | i < j < |log| ensures !log[j].Go? && !log[j].SentXon? {
          if j < last { assert before[j] == log[j]; }
        }
      }
      if i :| 0 <= i < |log| && (log[i].Stop? || (log[i].SentXoff? && log[i].stops))
              && forall j :: i < j < |log| ==> !log[j].Go? && !log[j].SentXon?
      {
        if i < last {
          assert before[i] == log[i];
          forall j | i < j < last ensures !before[j].Go? && !before[j].SentXon? {
            assert before[j] == log[j];
          }
        }
      }
    }
  }

  // Between something that stops the sender and the next byte of data, something lets it go on.
  lemma StopUntilGo(log: Log, i: nat, k: nat)
    requires Obedient(log) && i < k < |log| && log[k].Data?
    requires log[i].Stop? || (log[i].SentXoff? && log[i].stops)
    ensures exists j :: i < j < k && (log[j].Go? || log[j].SentXon?)
  {
    var before := log[..k];
    StoppedMeans(before);
    if forall j :: i < j < k ==> !log[j].Go? && !log[j].SentXon? {
      assert before[i] == log[i];
      assert forall j :: i < j < |before| ==> before[j] == log[j];
    }
  }

  // A peer that was sent an Xoff and then no Xon is stopped.
  lemma {:induction false} XoffStays(log: Log, i: nat)
    requires i < |log| && log[i].SentXoff? && forall j :: i < j < |log| ==> !log[j].SentXon?
    ensures PeerStopped(log)
    decreases |log|
  {
    if i < |log| - 1 { XoffStays(log[..|log| - 1], i); }
  }
}
