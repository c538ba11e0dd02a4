/** Shifting a 24-bit control word out to the ICS307-02, over three pins of the MPIO level register. */
module ClockWord335 {
  import opened ShiftRegister

  const SDTA: bv8 := 0x01
  const SCLK: bv8 := 0x02
  const SSTB: bv8 := 0x04

  function LevelOf(w: bv8): Level {
    Level(w & SCLK != 0, w & SDTA != 0, w & SSTB != 0)
  }

  // The data pin is the lowest bit of the register, the clock pin the next and the strobe pin the third.
  lemma LevelMeans(w: bv8)
    ensures LevelOf(w) == Level(w / 2 % 2 == 1, w % 2 == 1, w / 4 % 2 == 1)
  {
  }

  function LevelsOf(writes: seq<bv8>): (levels: seq<Level>)
    ensures |levels| == |writes|
  {
    seq(|writes|, i requires 0 <= i < |writes| => LevelOf(writes[i]))
  }

  lemma LevelsAppend(writes: seq<bv8>, w: bv8)
    ensures LevelsOf(writes + [w]) == LevelsOf(writes) + [LevelOf(w)]
  {
  }

  // The three writes for one bit of data: the bit, the clock raised, and only the data pin.
  lemma BitLevels(data: bv8, bit: bool)
    ensures var d := if bit then data | SDTA else data & !SDTA;
            && LevelOf(d) == Level(LevelOf(data).clk, bit, LevelOf(data).strobe)
            && LevelOf(d | SCLK) == Level(true, bit, LevelOf(data).strobe)
            && LevelOf((d | SCLK) & SDTA) == Level(false, bit, false)
  {
  }

  lemma StrobeLevels(data: bv8)
    requires LevelOf(data) == Level(false, LevelOf(data).data, false)
    ensures LevelOf((data & 0xF8) | SSTB) == Level(false, false, true)
    ensures LevelOf(((data & 0xF8) | SSTB) & !SSTB) == Level(false, false, false)
  {
  }

  // The bits the generator sees, given those the driver sends: a clock pin that was high on entry hides the
  // first one.
  function Seen(saved: bv8, sent: seq<bool>): seq<bool> {
    if sent == [] then [] else if LevelOf(saved).clk then sent[1..] else sent
  }

  lemma SeenAppend(saved: bv8, sent: seq<bool>, bit: bool)
    ensures Seen(saved, sent + [bit]) == Seen(saved, sent) + (if sent == [] && LevelOf(saved).clk then [] else [bit])
  {
  }

  // A write to the register.
  method Write(writes: seq<bv8>, w: bv8, ghost from: Level) returns (next: seq<bv8>)
    ensures next == writes + [w]
    ensures var now, levels := Current(from, LevelsOf(writes)), LevelsOf(next);
            && Clocked(from, levels) == Clocked(from, LevelsOf(writes)) + (if LevelOf(w).clk && !now.clk then [LevelOf(w).data] else [])
            && Latched(from, levels) ==
               Latched(from, LevelsOf(writes)) + (if LevelOf(w).strobe && !now.strobe then [Clocked(from, levels)] else [])
            && Current(from, levels) == LevelOf(w)
  {
    LevelsAppend(writes, w);
    OneMoreLevel(from, LevelsOf(writes), LevelOf(w));
    next := writes + [w];
  }

  // One turn of the loop.
  method SendBit(writes: seq<bv8>, d: bv8, bit: bool, ghost saved: bv8, ghost sent: seq<bool>)
    returns (next: seq<bv8>, data: bv8)
    requires Current(LevelOf(saved), LevelsOf(writes)) == LevelOf(d)
    requires if sent == [] then d == saved else !LevelOf(d).clk && !LevelOf(d).strobe
    requires Clocked(LevelOf(saved), LevelsOf(writes)) == Seen(saved, sent) && Latched(LevelOf(saved), LevelsOf(writes)) == []
    ensures Current(LevelOf(saved), LevelsOf(next)) == LevelOf(data) == Level(false, bit, false)
    ensures |next| == |writes| + 3 && Latched(LevelOf(saved), LevelsOf(next)) == []
    ensures Clocked(LevelOf(saved), LevelsOf(next)) == Seen(saved, sent + [bit])
    ensures writes <= next && next[|writes| + 1] & 3 == (if bit then 3 else 2) && next[|writes| + 2] == (if bit then 1 else 0)
  {
    BitLevels(d, bit);
    SeenAppend(saved, sent, bit);
    data := if bit then d | SDTA else d & !SDTA;
    next := Write(writes, data, LevelOf(saved));
    data := data | SCLK;
    next := Write(next, data, LevelOf(saved));
    data := data & SDTA;
    next := Write(next, data, LevelOf(saved));
  }

  // FastcomSetClockBitsPCI.  The strobe latches the 24 bits of the word, most significant first, if the
  // clock pin was low on entry, and the last 23 of them if it was high.  The last write restores the pins: it
  // shifts in one more bit if the clock pin was high on entry, and latches once more if the strobe pin was.
  method SetClockBitsPCI(clockBits: nat, saved: bv8) returns (writes: seq<bv8>, ghost sent: seq<bool>)
    requires clockBits < 0x1_0000_0000
    ensures |sent| == 24 && Value(sent) == clockBits % 0x1000000
    ensures |writes| == 75 && writes[74] == saved
    ensures writes[72] & 7 == 4 && writes[73] & 7 == 0
    ensures var from, levels, word := LevelOf(saved), LevelsOf(writes), if LevelOf(saved).clk then sent[1..] else sent;
            && Clocked(from, levels) == (if from.clk then word + [from.data] else word)
            && Latched(from, levels) == [word] + (if from.strobe then [Clocked(from, levels)] else [])
  {
    var data: bv8;
    writes, data, sent := SendWord(clockBits % 0x1000000, saved);
    writes := Strobe(writes, data, saved);
    assert Clocked(LevelOf(saved), LevelsOf(writes)) + [] == Clocked(LevelOf(saved), LevelsOf(writes));
    writes := Write(writes, saved, LevelOf(saved));
  }

  // The loop: the bits of the word, from the top.
  method SendWord(word: nat, saved: bv8) returns (writes: seq<bv8>, data: bv8, ghost sent: seq<bool>)
    requires word < 0x1000000
    ensures |sent| == 24 && Value(sent) == word && |writes| == 72
    ensures Current(LevelOf(saved), LevelsOf(writes)) == LevelOf(data) == Level(false, LevelOf(data).data, false)
    ensures Clocked(LevelOf(saved), LevelsOf(writes)) == if LevelOf(saved).clk then sent[1..] else sent
    ensures Latched(LevelOf(saved), LevelsOf(writes)) == []
  {
    var tempValue: nat := word;
    writes, data, sent := [], saved, [];
    var i := 0;
    while i < 24
      invariant i <= 24 && |sent| == i && |writes| == 3 * i
      invariant Current(LevelOf(saved), LevelsOf(writes)) == LevelOf(data)
      invariant if sent == [] then data == saved else LevelOf(data) == Level(false, LevelOf(data).data, false)
      invariant Clocked(LevelOf(saved), LevelsOf(writes)) == Seen(saved, sent)
      invariant Latched(LevelOf(saved), LevelsOf(writes)) == []
      invariant tempValue < 0x1_0000_0000 && Partly(word, sent, tempValue)
    {
      var bit := tempValue / 0x800000 % 2 == 1;
      PartlyNext(word, sent, tempValue);
      writes, data := SendBit(writes, data, bit, saved, sent);
      sent := sent + [bit];
      tempValue := tempValue * 2 % 0x1_0000_0000;
      i := i + 1;
    }
    PartlyDone(word, sent, tempValue);
  }

  // The strobe on and off.
  method Strobe(writes: seq<bv8>, d: bv8, ghost saved: bv8) returns (next: seq<bv8>)
    requires Current(LevelOf(saved), LevelsOf(writes)) == LevelOf(d) == Level(false, LevelOf(d).data, false)
    requires Latched(LevelOf(saved), LevelsOf(writes)) == []
    ensures |next| == |writes| + 2 && Current(LevelOf(saved), LevelsOf(next)) == Level(false, false, false)
    ensures writes <= next && next[|writes|] & 7 == 4 && next[|writes| + 1] & 7 == 0
    ensures Clocked(LevelOf(saved), LevelsOf(next)) == Clocked(LevelOf(saved), LevelsOf(writes))
    ensures Latched(LevelOf(saved), LevelsOf(next)) == [Clocked(LevelOf(saved), LevelsOf(writes))]
  {
    StrobeLevels(d);
    var data := (d & 0xF8) | SSTB;
    next := Write(writes, data, LevelOf(saved));
    assert Clocked(LevelOf(saved), LevelsOf(next)) == Clocked(LevelOf(saved), LevelsOf(writes));
    data := data & !SSTB;
    next := Write(next, data, LevelOf(saved));
  }

  function Shifted(word: nat, n: nat): nat { if n == 0 then word else 2 * Shifted(word, n - 1) }

  lemma ShiftedBy4(word: nat, n: nat)
    ensures Shifted(word, n + 4) == 16 * Shifted(word, n)
  {
    assert Shifted(word, n + 2) == 4 * Shifted(word, n);
  }

  lemma Shifted24(word: nat)
    ensures Shifted(word, 24) == word * 0x1000000
  {
    ShiftedBy4(word, 0);
    ShiftedBy4(word, 4);
    ShiftedBy4(word, 8);
    ShiftedBy4(word, 12);
    ShiftedBy4(word, 16);
    ShiftedBy4(word, 20);
  }

  // The top bit joins those sent, and the rest moves up.
  lemma NextBit(shifted: nat, value: nat, t: nat)
    requires t < 0x1_0000_0000 && shifted == value * 0x1000000 + t % 0x1000000
    ensures var bit := if t / 0x800000 % 2 == 1 then 1 else 0;
            2 * shifted == (2 * value + bit) * 0x1000000 + t * 2 % 0x1_0000_0000 % 0x1000000
  {
    TopBit(t);
  }

  // The top bit and the shift, without the bits above.
  lemma TopBit(t: nat)
    requires t < 0x1_0000_0000
    ensures t * 2 % 0x1_0000_0000 % 0x1000000 == t % 0x1000000 * 2 - (if t / 0x800000 % 2 == 1 then 0x1000000 else 0)
  {
  }

  lemma WholeWord(word: nat, value: nat, rest: nat)
    requires word * 0x1000000 == value * 0x1000000 + rest && rest < 0x1000000
    ensures value == word
  {
  }

  // How far the loop has come: what is sent and what is left of the word.
  ghost predicate Partly(word: nat, sent: seq<bool>, t: nat) {
    Shifted(word, |sent|) == Value(sent) * 0x1000000 + t % 0x1000000
  }

  lemma PartlyNext(word: nat, sent: seq<bool>, t: nat)
    requires t < 0x1_0000_0000 && Partly(word, sent, t)
    ensures Partly(word, sent + [t / 0x800000 % 2 == 1], t * 2 % 0x1_0000_0000)
  {
    ValueAppend(sent, t / 0x800000 % 2 == 1);
    NextBit(Shifted(word, |sent|), Value(sent), t);
  }

  lemma PartlyDone(word: nat, sent: seq<bool>, t: nat)
    requires |sent| == 24 && Partly(word, sent, t)
    ensures Value(sent) == word
  {
    Shifted24(word);
    WholeWord(word, Value(sent), t % 0x1000000);
  }
}
