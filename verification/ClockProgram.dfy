/** Setting the clock of a 335 card, from the rate to the divider words in the generator. */
module ClockProgram {
  import opened ClockSearch
  import opened ClockWord335
  import opened ShiftRegister

  // The number that was latched last, if any was.
  ghost function LatchedWord(saved: bv8, writes: seq<bv8>): int {
    var latched := Latched(LevelOf(saved), LevelsOf(writes));
    if latched != [] then Value(latched[|latched| - 1]) else -1
  }

  method ShiftOut(clockBits: nat, saved: bv8) returns (writes: seq<bv8>)
    requires clockBits < 0x1000000
    ensures |writes| == 75 && writes[74] == saved
    ensures !LevelOf(saved).clk ==> LatchedWord(saved, writes) == clockBits
  {
    ghost var sent;
    writes, sent := SetClockBitsPCI(clockBits, saved);
  }

  // The search and then the shift-out.  With the clock pin low on entry, what is latched last is read as the
  // admissible dividers that are nearest to the rate.
  method SetClock(rate: nat, saved: bv8) returns (status: nat, frequency: nat, writes: seq<bv8>)
    requires rate < 0x1_0000_0000
    ensures status == (if Attainable(rate) then 0 else 1)
    ensures status == 0 ==> |writes| == 75 && writes[74] == saved
    ensures status == 1 ==> writes == [] && frequency == 0
    ensures status == 0 && !LevelOf(saved).clk ==>
              var word := LatchedWord(saved, writes);
              && word >= 0
              && var c := Decode(word);
                 Candidate(rate, c) && Nearest(rate, c) && frequency == Check(c)
    ensures status == 0 && !LevelOf(saved).clk ==>
              var word := LatchedWord(saved, writes);
              && word >= 0
              && var c := Decode(word);
                 && 2 <= c.od <= 10 && c.od != 9 && 1 <= c.rdw <= 127 && 4 <= c.vdw <= 511
                 && word == [0, 0, 0x11, 0x16, 0x13, 0x14, 0x17, 0x15, 0x12, 0, 0x10][c.od] * 0x10000 + c.vdw * 128 + c.rdw
                 && frequency * ((c.rdw + 2) * c.od) <= 36864000 * (c.vdw + 8) < (frequency + c.vdw + 8) * ((c.rdw + 2) * c.od)
                 && rate - rate / 10 <= frequency <= rate + rate / 10
  {
    var clockBits: nat;
    status, frequency, clockBits := GetICS30702Data(rate, 0);
    writes := [];
    if status == 0 { writes := ShiftOut(clockBits, saved); }
  }
}
