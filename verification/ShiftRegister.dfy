/** A clock generator's serial input: a shift register and a latch, driven over three lines of a port. */
module ShiftRegister {

  /** The levels of the clock, data and strobe lines. */
  datatype Level = Level(clk: bool, data: bool, strobe: bool)

  // The line levels before the last of the writes.
  function Previous(from: Level, levels: seq<Level>): Level
    requires levels != []
  {
    if |levels| == 1 then from else levels[|levels| - 2]
  }

  // The bits shifted in: the data line at every rising edge of the clock.
  function Clocked(from: Level, levels: seq<Level>): seq<bool> {
    if levels == [] then []
    else
      var last := levels[|levels| - 1];
      Clocked(from, levels[..|levels| - 1])
      + (if last.clk && !Previous(from, levels).clk then [last.data] else [])
  }

  // What each rising edge of the strobe latches: all the bits shifted in so far.
  function Latched(from: Level, levels: seq<Level>): seq<seq<bool>> {
    if levels == [] then []
    else
      var last := levels[|levels| - 1];
      Latched(from, levels[..|levels| - 1])
      + (if last.strobe && !Previous(from, levels).strobe then [Clocked(from, levels)] else [])
  }

  function Current(from: Level, levels: seq<Level>): Level {
    if levels == [] then from else levels[|levels| - 1]
  }

  lemma OneMoreLevel(from: Level, levels: seq<Level>, l: Level)
    ensures var now := Current(from, levels);
            && Clocked(from, levels + [l]) == Clocked(from, levels) + (if l.clk && !now.clk then [l.data] else [])
            && Latched(from, levels + [l]) ==
               Latched(from, levels) + (if l.strobe && !now.strobe then [Clocked(from, levels + [l])] else [])
            && Current(from, levels + [l]) == l
  {
  }

  // The number that bits stand for, most significant bit first.
  function Value(bits: seq<bool>): nat {
    if bits == [] then 0 else 2 * Value(bits[..|bits| - 1]) + (if bits[|bits| - 1] then 1 else 0)
  }

  lemma ValueAppend(bits: seq<bool>, b: bool)
    ensures Value(bits + [b]) == 2 * Value(bits) + (if b then 1 else 0)
  {
  }

  // So many bits cannot stand for two numbers.
  lemma {:induction false} ValueInjective(a: seq<bool>, b: seq<bool>)
    requires |a| == |b| && Value(a) == Value(b)
    ensures a == b
  {
    if a != [] {
      ValueInjective(a[..|a| - 1], b[..|b| - 1]);
      assert a == a[..|a| - 1] + [a[|a| - 1]];
      assert b == b[..|b| - 1] + [b[|b| - 1]];
    }
  }
}
