/** The search for the divider words of the ICS307-02 clock generator.

    Every combination of an output divider, a reference divider word and a VCO divider word that passes the
    generator's range checks gives a frequency.  The search keeps the best one at or below the rate and the
    best one above it, starting from marks at minus and plus ten percent, and in the end takes the nearer. */
module ClockSearch {

  // Arithmetic is on 32-bit words.
  const WORD: nat := 0x1_0000_0000

  const IN_FREQ: nat := 18432000

  datatype Triple = Triple(od: nat, rdw: nat, vdw: nat)

  // The largest rate for which an output divider is tried.
  function Limit(od: nat): nat {
    match od
    case 2 => 180000000
    case 3 => 120000000
    case 4 => 90000000
    case 5 => 72000000
    case 6 => 60000000
    case 7 => 50000000
    case 8 => 45000000
    case 10 => 36000000
    case _ => 0
  }

  // The frequency of a combination: the reference, divided and multiplied.
  function Check(c: Triple): nat {
    Divided((c.rdw + 2) * c.od) * (c.vdw + 8)
  }

  function Divided(divisor: nat): nat {
    if divisor == 0 then 0 else IN_FREQ * 2 / divisor
  }

  // The range checks, as computed: the first product wraps around.
  predicate InRange(c: Triple) {
    var range1 := IN_FREQ * 2 * (c.vdw + 8) % WORD / (c.rdw + 2);
    var range2 := IN_FREQ / (c.rdw + 2);
    60000000 < range1 < 360000000 && range2 > 200000
  }

  // A combination that is tried for the rate and that is admissible.
  predicate Candidate(rate: nat, c: Triple) {
    && 2 <= c.od <= 10 && c.od != 9 && rate <= Limit(c.od)
    && 1 <= c.rdw <= 127 && 4 <= c.vdw <= 511 && InRange(c)
  }

  function Lowest(rate: nat): nat { rate - rate / 10 }

  function Highest(rate: nat): nat { (rate + rate / 10) % WORD }

  predicate InWindow(rate: nat, c: Triple) {
    Lowest(rate) < Check(c) < Highest(rate)
  }

  function Distance(a: nat, b: nat): nat { if a < b then b - a else a - b }

  /** The best combination so far on one side of the rate, or the mark the search started from, whose
      dividers are all one. */
  datatype Mark = Mark(check: nat, rdw: nat, vdw: nat, od: nat) {
    function Dividers(): Triple { Triple(od, rdw, vdw) }

    // Ties go to the lower reference divider word, and then to the higher VCO divider word.
    predicate Preferred(to: Mark) {
      rdw < to.rdw || (rdw == to.rdw && vdw > to.vdw)
    }
  }

  function MarkOf(c: Triple): Mark { Mark(Check(c), c.rdw, c.vdw, c.od) }

  // `a` takes the place of `b` at or below the rate; above it.
  predicate BetterLow(a: Mark, b: Mark) {
    a.check > b.check || (a.check == b.check && a.Preferred(b))
  }

  predicate BetterHigh(a: Mark, b: Mark) {
    a.check < b.check || (a.check == b.check && a.Preferred(b))
  }

  // `m` is the start, or one of the candidates.
  predicate Found(rate: nat, m: Mark, start: nat) {
    if m.od == 1 then m == Mark(start, 1, 1, 1) else Candidate(rate, m.Dividers()) && m == MarkOf(m.Dividers())
  }

  // Comes before the point the three loops have reached.
  predicate Before(c: Triple, od: nat, rdw: nat, vdw: nat) {
    c.od < od || (c.od == od && (c.rdw < rdw || (c.rdw == rdw && c.vdw < vdw)))
  }

  // Nothing tried so far is better than `low` and `high`.
  ghost predicate Best(rate: nat, low: Mark, high: Mark, od: nat, rdw: nat, vdw: nat) {
    && Sides(rate, low, high)
    && forall c :: Candidate(rate, c) && Before(c, od, rdw, vdw) ==> Beaten(rate, low, high, MarkOf(c))
  }

  // No candidate at all is better.
  ghost predicate BestOfAll(rate: nat, low: Mark, high: Mark) {
    && Sides(rate, low, high)
    && forall c :: Candidate(rate, c) ==> Beaten(rate, low, high, MarkOf(c))
  }

  predicate Beaten(rate: nat, low: Mark, high: Mark, m: Mark) {
    if m.check <= rate then !BetterLow(m, low) else !BetterHigh(m, high)
  }

  predicate Sides(rate: nat, low: Mark, high: Mark) {
    && Found(rate, low, Lowest(rate)) && Lowest(rate) <= low.check <= rate
    && Found(rate, high, Highest(rate)) && rate <= high.check <= Highest(rate)
    && (high.check == rate ==> low.check == rate)
    && (low.check == Lowest(rate) ==> low.rdw <= 1)
  }

  // No frequency wraps around.
  lemma CheckFits(c: Triple)
    requires 2 <= c.od && 1 <= c.rdw && c.vdw <= 511
    ensures Check(c) < WORD
  {
    var divisor := (c.rdw + 2) * c.od;
    assert divisor >= 6 by { Product(c.rdw + 2, 3, c.od, 2); }
    assert IN_FREQ * 2 / divisor <= 6144000 by { Quotient(IN_FREQ * 2, divisor); }
    Product(6144000, IN_FREQ * 2 / divisor, 519, c.vdw + 8);
  }

  // The frequency is that of the 18.432 MHz reference, doubled, divided by both dividers and multiplied, with
  // less than one hertz lost for each unit of the VCO divider.
  lemma CheckMeans(c: Triple)
    requires 2 <= c.od
    ensures Check(c) * ((c.rdw + 2) * c.od) <= 36864000 * (c.vdw + 8) < (Check(c) + c.vdw + 8) * ((c.rdw + 2) * c.od)
  {
    var d, m := (c.rdw + 2) * c.od, c.vdw + 8;
    assert d > 0 by { Product(c.rdw + 2, 2, c.od, 2); }
    Scaled(36864000, d, m);
  }

  // Rounding down before multiplying.
  lemma Scaled(n: nat, d: nat, m: nat)
    requires d > 0 && m > 0
    ensures n / d * m * d <= n * m < (n / d * m + m) * d
  {
    var q, r := n / d, n % d;
    assert n == q * d + r;
    assert n * m == q * m * d + r * m;
    assert r * m < d * m;
  }

  // What is tried and admissible: the phase detector runs above 200 kHz and the oscillator between 60 and
  // 360 MHz, as computed, and the rate is at most 360 MHz over the output divider (50 MHz for seven).
  lemma CandidateMeans(rate: nat, c: Triple)
    ensures Candidate(rate, c) <==>
            && 2 <= c.od <= 10 && c.od != 9 && 1 <= c.rdw <= 127 && 4 <= c.vdw <= 511
            && (if c.od == 7 then rate <= 50000000 else rate * c.od <= 360000000)
            && 60000000 < 36864000 * (c.vdw + 8) % 0x1_0000_0000 / (c.rdw + 2) < 360000000
            && 18432000 / (c.rdw + 2) > 200000
  {
    if 2 <= c.od <= 10 && c.od != 9 { LimitMeans(rate, c.od); }
  }

  lemma LimitMeans(rate: nat, od: nat)
    requires 2 <= od <= 10 && od != 9
    ensures rate <= Limit(od) <==> if od == 7 then rate <= 50000000 else rate * od <= 360000000
  {
  }

  lemma Product(a: nat, b: nat, c: nat, d: nat)
    requires a >= b && c >= d
    ensures a * c >= b * d
  {
  }

  lemma Quotient(n: nat, d: nat)
    requires d >= 6
    ensures n / d <= n / 6
  {
    var q := n / d;
    assert q * d <= n;
    Product(d, 6, q, q);
  }

  // What is kept of an admissible combination.
  method Consider(rate: nat, low: Mark, high: Mark, c: Triple) returns (l: Mark, h: Mark)
    requires Sides(rate, low, high) && Candidate(rate, c)
    ensures Sides(rate, l, h)
    ensures Beaten(rate, l, h, MarkOf(c))
    ensures forall m: Mark :: Beaten(rate, low, high, m) ==> Beaten(rate, l, h, m)
  {
    l, h := low, high;
    var check := Check(c);
    var mark := Mark(check, c.rdw, c.vdw, c.od);
    if check == l.check {
      if l.rdw > c.rdw {
        l := mark;
      } else if l.rdw == c.rdw && l.vdw < c.vdw {
        l := mark;
      }
    } else if check == h.check {
      if h.rdw > c.rdw {
        h := mark;
      } else if h.rdw == c.rdw && h.vdw < c.vdw {
        h := mark;
      }
    }
    if check > l.check && check < h.check {
      if check > rate { h := mark; } else { l := mark; }
    }
  }

  // One turn of the innermost loop, with its range checks.
  method TryVdw(rate: nat, low: Mark, high: Mark, c: Triple) returns (l: Mark, h: Mark)
    requires Sides(rate, low, high) && 2 <= c.od <= 10 && c.od != 9 && rate <= Limit(c.od)
    requires 1 <= c.rdw <= 127 && 4 <= c.vdw <= 511
    ensures Sides(rate, l, h)
    ensures Candidate(rate, c) ==> Beaten(rate, l, h, MarkOf(c))
    ensures forall m: Mark :: Beaten(rate, low, high, m) ==> Beaten(rate, l, h, m)
  {
    l, h := low, high;
    var range1 := IN_FREQ * 2 * (c.vdw + 8) % WORD / (c.rdw + 2);
    var range2 := IN_FREQ / (c.rdw + 2);
    if range1 > 60000000 && range1 < 360000000 && range2 > 200000 {
      l, h := Consider(rate, l, h, c);
    }
  }

  // The loop has tried one combination more.
  lemma OneMore(rate: nat, low: Mark, high: Mark, l: Mark, h: Mark, c: Triple)
    requires Best(rate, low, high, c.od, c.rdw, c.vdw) && Sides(rate, l, h)
    requires Candidate(rate, c) ==> Beaten(rate, l, h, MarkOf(c))
    requires forall m: Mark :: Beaten(rate, low, high, m) ==> Beaten(rate, l, h, m)
    ensures Best(rate, l, h, c.od, c.rdw, c.vdw + 1)
  {
    forall d | Candidate(rate, d) && Before(d, c.od, c.rdw, c.vdw + 1) ensures Beaten(rate, l, h, MarkOf(d)) {
      if d != c { assert Before(d, c.od, c.rdw, c.vdw) && Beaten(rate, low, high, MarkOf(d)); }
    }
  }

  lemma RowDone(rate: nat, low: Mark, high: Mark, od: nat, rdw: nat)
    requires Best(rate, low, high, od, rdw, 512)
    ensures Best(rate, low, high, od, rdw + 1, 0)
  {
    forall d | Candidate(rate, d) && Before(d, od, rdw + 1, 0) ensures Beaten(rate, low, high, MarkOf(d)) {
      assert Before(d, od, rdw, 512);
    }
  }

  lemma RowStarts(rate: nat, low: Mark, high: Mark, od: nat, rdw: nat)
    requires Best(rate, low, high, od, rdw, 0)
    ensures Best(rate, low, high, od, rdw, 4)
  {
    forall d | Candidate(rate, d) && Before(d, od, rdw, 4) ensures Beaten(rate, low, high, MarkOf(d)) {
      assert Before(d, od, rdw, 0);
    }
  }

  // The VCO divider words for one output divider and one reference divider word.
  method TryVdws(rate: nat, low: Mark, high: Mark, od: nat, rdw: nat) returns (l: Mark, h: Mark)
    requires Best(rate, low, high, od, rdw, 0)
    requires 2 <= od <= 10 && od != 9 && rate <= Limit(od) && 1 <= rdw <= 127
    ensures Best(rate, l, h, od, rdw + 1, 0)
  {
    l, h := low, high;
    var vdw := 4;
    RowStarts(rate, l, h, od, rdw);
    while vdw <= 511
      invariant vdw <= 512 && Best(rate, l, h, od, rdw, vdw)
    {
      ghost var low0, high0 := l, h;
      l, h := TryVdw(rate, l, h, Triple(od, rdw, vdw));
      OneMore(rate, low0, high0, l, h, Triple(od, rdw, vdw));
      vdw := vdw + 1;
    }
    RowDone(rate, l, h, od, rdw);
  }

  // The reference divider words for one output divider.
  method TryRdws(rate: nat, low: Mark, high: Mark, od: nat) returns (l: Mark, h: Mark)
    requires Best(rate, low, high, od, 0, 0) && 2 <= od <= 10 && od != 9 && rate <= Limit(od)
    ensures Best(rate, l, h, od + 1, 0, 0)
  {
    l, h := low, high;
    var rdw := 1;
    while rdw <= 127
      invariant rdw <= 128 && Best(rate, l, h, od, rdw, 0)
    {
      l, h := TryVdws(rate, l, h, od, rdw);
      rdw := rdw + 1;
    }
  }

  // The three loops of GetICS30702Data.  A rate above every limit is not searched for.
  method Search(rate: nat) returns (low: Mark, high: Mark)
    requires rate < WORD
    ensures rate <= Limit(2) ==> BestOfAll(rate, low, high)
    ensures rate > Limit(2) ==> low.od == high.od == 1
  {
    low, high := Mark(Lowest(rate), 1, 1, 1), Mark(Highest(rate), 1, 1, 1);
    var od := 2;
    while od <= 10
      invariant 2 <= od <= 11 && od != 9
      invariant rate <= Limit(2) ==> Best(rate, low, high, od, 0, 0)
      invariant rate > Limit(2) ==> low.od == high.od == 1
    {
      if rate <= Limit(od) {
        low, high := TryRdws(rate, low, high, od);
      }
      od := od + 1;
      if od == 9 { od := od + 1; }
    }
  }

  // ----- The result -----

  // The generator's code for an output divider.
  function Code(od: nat): nat {
    match od
    case 2 => 0x11
    case 3 => 0x16
    case 4 => 0x13
    case 5 => 0x14
    case 6 => 0x17
    case 7 => 0x15
    case 8 => 0x12
    case 10 => 0x10
    case _ => 0
  }

  function DividerOf(code: nat): nat {
    match code
    case 0x11 => 2
    case 0x16 => 3
    case 0x13 => 4
    case 0x14 => 5
    case 0x17 => 6
    case 0x15 => 7
    case 0x12 => 8
    case 0x10 => 10
    case _ => 0
  }

  // How the generator reads its control word.
  function Decode(bits: nat): Triple {
    Triple(DividerOf(bits / 0x10000), bits % 128, bits / 128 % 512)
  }

  lemma DecodeOf(c: Triple)
    requires 2 <= c.od <= 10 && c.od != 9 && c.rdw < 128 && c.vdw < 512
    ensures Decode((Code(c.od) * 512 + c.vdw) * 128 + c.rdw) == c
    ensures (Code(c.od) * 512 + c.vdw) * 128 + c.rdw < 0x1000000
    ensures (Code(c.od) * 512 + c.vdw) * 128 + c.rdw ==
            [0, 0, 0x11, 0x16, 0x13, 0x14, 0x17, 0x15, 0x12, 0, 0x10][c.od] * 0x10000 + c.vdw * 128 + c.rdw
  {
    assert DividerOf(Code(c.od)) == c.od;
  }

  // The search succeeds for the rate: a candidate strictly inside the window, or one exactly at its lower
  // end with the smallest reference divider word.
  ghost predicate Attainable(rate: nat) {
    exists c :: Candidate(rate, c) && (InWindow(rate, c) || (Check(c) == Lowest(rate) && c.rdw == 1))
  }

  // Success in numbers: the window is ten percent to either side.
  lemma AttainableMeans(rate: nat)
    requires rate < WORD
    ensures Attainable(rate) <==>
            exists c :: Candidate(rate, c) && (rate - rate / 10 < Check(c) < rate + rate / 10
                                              || (Check(c) == rate - rate / 10 && c.rdw == 1))
  {
    if rate <= Limit(2) { HighestIs(rate); } else { TooFast(rate); }
  }

  // `c` is nearer to the rate than `d` or as near; if they are as near, it is the lower one; and if they are
  // equal, it has the lower reference divider word or else the higher VCO divider word.
  predicate NotWorse(rate: nat, c: Mark, d: Mark) {
    && Distance(c.check, rate) <= Distance(d.check, rate)
    && (Distance(c.check, rate) == Distance(d.check, rate) ==> c.check <= d.check)
    && (c.check == d.check ==> c.rdw < d.rdw || (c.rdw == d.rdw && c.vdw >= d.vdw))
  }

  // No candidate is nearer to the rate than `c`.
  ghost predicate Nearest(rate: nat, c: Triple) {
    forall d :: Candidate(rate, d) ==> NotWorse(rate, MarkOf(c), MarkOf(d))
  }

  // The nearer of the two marks is not worse than anything they beat.
  lemma ChoiceNotWorse(rate: nat, low: Mark, high: Mark, chosen: Mark, m: Mark)
    requires low.check <= rate <= high.check && (high.check == rate ==> low.check == rate)
    requires chosen == (if high.check - rate < rate - low.check then high else low)
    requires Beaten(rate, low, high, m)
    ensures NotWorse(rate, chosen, m)
  {
  }

  // Nothing inside the window, and nothing at its lower end, is beaten by both starting marks.
  lemma StartsBeatNothingInside(rate: nat, low: Mark, high: Mark, chosen: Mark, m: Mark)
    requires low.check <= rate <= high.check && Lowest(rate) <= low.check && high.check <= rate + rate / 10
    requires chosen == (if high.check - rate < rate - low.check then high else low)
    requires chosen == Mark(if chosen == low then Lowest(rate) else rate + rate / 10, 1, 1, 1)
    requires Beaten(rate, low, high, m) && m.vdw > 1
    ensures !(Lowest(rate) < m.check < rate + rate / 10) && !(m.check == Lowest(rate) && m.rdw == 1)
  {
  }

  lemma ChoiceIsNearest(rate: nat, low: Mark, high: Mark, chosen: Mark)
    requires rate <= Limit(2) && BestOfAll(rate, low, high)
    requires chosen == (if high.check - rate < rate - low.check then high else low)
    ensures chosen.od != 1 ==> Candidate(rate, chosen.Dividers()) && Nearest(rate, chosen.Dividers())
  {
    if chosen.od != 1 {
      forall d | Candidate(rate, d) ensures NotWorse(rate, MarkOf(chosen.Dividers()), MarkOf(d)) {
        ChoiceNotWorse(rate, low, high, chosen, MarkOf(d));
      }
    }
  }

  lemma HighestIs(rate: nat)
    requires rate <= Limit(2)
    ensures Highest(rate) == rate + rate / 10
  {
  }

  lemma NoChoice(rate: nat, low: Mark, high: Mark, chosen: Mark)
    requires rate <= Limit(2) && BestOfAll(rate, low, high)
    requires chosen == (if high.check - rate < rate - low.check then high else low)
    requires chosen.od == 1
    ensures !Attainable(rate)
  {
    HighestIs(rate);
    var top := Highest(rate);
    forall c | Candidate(rate, c) ensures !(Lowest(rate) < Check(c) < top) && !(Check(c) == Lowest(rate) && c.rdw == 1) {
      var m := MarkOf(c);
      assert Beaten(rate, low, high, m);
      StartsBeatNothingInside(rate, low, high, chosen, m);
    }
  }

  // A mark that is a candidate and was chosen lies inside the window or at its lower end.
  lemma ChosenInside(rate: nat, low: Mark, high: Mark, chosen: Mark)
    requires Lowest(rate) <= low.check <= rate <= high.check <= rate + rate / 10
    requires low.check == Lowest(rate) ==> low.rdw <= 1
    requires chosen == (if high.check - rate < rate - low.check then high else low)
    requires chosen.rdw >= 1
    ensures Lowest(rate) < chosen.check < rate + rate / 10 || (chosen.check == Lowest(rate) && chosen.rdw == 1)
  {
  }

  lemma Choice(rate: nat, low: Mark, high: Mark, chosen: Mark)
    requires rate <= Limit(2) && BestOfAll(rate, low, high)
    requires chosen == (if high.check - rate < rate - low.check then high else low)
    requires chosen.od != 1
    ensures Attainable(rate)
  {
    MarksBracket(rate, low, high);
    HighestIs(rate);
    ChosenIsCandidate(rate, low, high, chosen);
    ChosenInside(rate, low, high, chosen);
    var c := chosen.Dividers();
    assert Candidate(rate, c) && chosen == MarkOf(c);
  }

  lemma TooFast(rate: nat)
    requires rate > Limit(2)
    ensures !Attainable(rate)
  {
  }

  // The comparison in the end does not wrap around.
  lemma NoWrap(rate: nat, low: Mark, high: Mark)
    requires rate <= Limit(2) && low.check <= rate <= high.check <= rate + rate / 10
    ensures (high.check - rate) % WORD == high.check - rate && (rate - low.check) % WORD == rate - low.check
  {
  }

  // What is left of the two marks is the result.
  lemma Result(rate: nat, low: Mark, high: Mark, chosen: Mark)
    requires rate <= Limit(2) && BestOfAll(rate, low, high)
    requires chosen == (if high.check - rate < rate - low.check then high else low)
    ensures Attainable(rate) <==> chosen.od != 1
    ensures chosen.od != 1 ==> Candidate(rate, chosen.Dividers()) && Nearest(rate, chosen.Dividers())
    ensures chosen.od != 1 ==> chosen == MarkOf(chosen.Dividers())
  {
    if chosen.od == 1 {
      NoChoice(rate, low, high, chosen);
    } else {
      Choice(rate, low, high, chosen);
      ChoiceIsNearest(rate, low, high, chosen);
      ChosenIsCandidate(rate, low, high, chosen);
    }
  }

  lemma ChosenIsCandidate(rate: nat, low: Mark, high: Mark, chosen: Mark)
    requires Sides(rate, low, high) && (chosen == low || chosen == high) && chosen.od != 1
    ensures Candidate(rate, chosen.Dividers()) && chosen == MarkOf(chosen.Dividers())
  {
  }

  // The final comparison, in 32 bits.
  function Compared(rate: nat, low: Mark, high: Mark): Mark {
    if (high.check - rate) % WORD < (rate - low.check) % WORD then high else low
  }

  lemma MarksBracket(rate: nat, low: Mark, high: Mark)
    requires BestOfAll(rate, low, high)
    ensures low.check <= rate <= high.check <= rate + rate / 10
  {
    assert Sides(rate, low, high);
    AtMostItself(rate + rate / 10);
  }

  lemma AtMostItself(n: nat)
    ensures n % WORD <= n
  {
  }

  lemma ComparedIsResult(rate: nat, low: Mark, high: Mark)
    requires rate <= Limit(2) && BestOfAll(rate, low, high)
    ensures var best := Compared(rate, low, high);
      && (Attainable(rate) <==> best.od != 1)
      && (best.od != 1 ==> Candidate(rate, best.Dividers()) && Nearest(rate, best.Dividers()))
      && (best.od != 1 ==> best == MarkOf(best.Dividers()) && rate - rate / 10 <= best.check <= rate + rate / 10)
  {
    MarksBracket(rate, low, high);
    NoWrap(rate, low, high);
    Result(rate, low, high, Compared(rate, low, high));
  }

  // The search and the choice between its two marks.
  method Select(rate: nat) returns (best: Mark)
    requires rate < WORD
    ensures Attainable(rate) <==> best.od != 1
    ensures best.od != 1 ==> Candidate(rate, best.Dividers()) && Nearest(rate, best.Dividers())
    ensures best.od != 1 ==> best == MarkOf(best.Dividers()) && rate - rate / 10 <= best.check <= rate + rate / 10
  {
    var low, high := Search(rate);
    best := Compared(rate, low, high);
    if rate <= Limit(2) { ComparedIsResult(rate, low, high); } else { TooFast(rate); }
  }

  // GetICS30702Data.  The caller's structure holds the rate and `bits`; it comes back with the frequency and the
  // control word, or with no frequency and the bits as they were.
  method GetICS30702Data(rate: nat, bits: nat) returns (status: nat, frequency: nat, clockBits: nat)
    requires rate < WORD
    ensures status == (if Attainable(rate) then 0 else 1)
    ensures status == 0 ==> var c := Decode(clockBits);
                            Candidate(rate, c) && Nearest(rate, c) && frequency == Check(c) && clockBits < 0x1000000
    ensures status == 0 ==>
              var c := Decode(clockBits);
              && 2 <= c.od <= 10 && c.od != 9 && 1 <= c.rdw <= 127 && 4 <= c.vdw <= 511
              && clockBits == [0, 0, 0x11, 0x16, 0x13, 0x14, 0x17, 0x15, 0x12, 0, 0x10][c.od] * 0x10000 + c.vdw * 128 + c.rdw
              && frequency * ((c.rdw + 2) * c.od) <= 36864000 * (c.vdw + 8) < (frequency + c.vdw + 8) * ((c.rdw + 2) * c.od)
              && rate - rate / 10 <= frequency <= rate + rate / 10
    ensures status == 1 ==> frequency == 0 && clockBits == bits
  {
    frequency, clockBits := 0, bits;
    var best := Select(rate);
    if best.od == 1 { return 1, 0, bits; }
    clockBits := Encode(best.Dividers());
    frequency := Check(best.Dividers());
    CheckMeans(best.Dividers());
    status := 0;
  }

  // The control word: the code of the output divider, the VCO divider word, the reference divider word.
  method Encode(c: Triple) returns (result: nat)
    requires 2 <= c.od <= 10 && c.od != 9 && c.rdw < 128 && c.vdw < 512
    ensures Decode(result) == c && result < 0x1000000
    ensures result == [0, 0, 0x11, 0x16, 0x13, 0x14, 0x17, 0x15, 0x12, 0, 0x10][c.od] * 0x10000 + c.vdw * 128 + c.rdw
  {
    DecodeOf(c);
    result := Code(c.od);
    result := result * 512 + c.vdw;
    result := result * 128 + c.rdw;
  }
}
