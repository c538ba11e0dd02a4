/** From a baud rate to the divisor latch: the integer divisor of the older cards and the fractional divisor of
    the PCIe cards, in the 32-bit and 16-bit arithmetic of the driver. */
module Baud {
  import opened Prelude

  const WORD: nat := 0x1_0000_0000

  // The 32-bit and 16-bit signed readings of a number.
  function Long(n: nat): (r: int)
    ensures -0x8000_0000 <= r < 0x8000_0000 && (n - r) % 0x1_0000_0000 == 0
  {
    var w := n % WORD;
    if w < 0x8000_0000 then w else w - WORD
  }

  function Short(n: int): (r: int)
    ensures -0x8000 <= r < 0x8000 && (n - r) % 0x10000 == 0
  {
    var w := n % 0x10000;
    if w < 0x8000 then w else w - 0x10000
  }

  // The rates for which the driver has a divisor of its own.
  function Exception(clockRate: nat, baud: int): Option<int> {
    match (clockRate, baud)
    case (1843200, 56000) => Some(2)
    case (3072000, 14400) => Some(13)
    case (4233600, 9600) => Some(28)
    case (4233600, 14400) => Some(18)
    case (4233600, 19200) => Some(14)
    case (4233600, 38400) => Some(7)
    case (4233600, 56000) => Some(5)
    case (8000000, 14400) => Some(35)
    case (8000000, 56000) => Some(9)
    case _ => None
  }

  // They are nine, and each of the divisors is the nearest one at 16 samples a bit.
  lemma ExceptionMeans(clockRate: nat, baud: int)
    ensures Exception(clockRate, baud).Some? <==>
            || (clockRate, baud) in {(1843200, 56000), (3072000, 14400), (8000000, 14400), (8000000, 56000)}
            || (clockRate == 4233600 && baud in {9600, 14400, 19200, 38400, 56000})
    ensures Exception(clockRate, baud).Some? ==>
              -baud * 16 <= 2 * (clockRate - Exception(clockRate, baud).value * baud * 16) <= baud * 16
  {
    if Exception(clockRate, baud).Some? {
      match (clockRate, baud)
      case (1843200, 56000) =>
      case (3072000, 14400) =>
      case (4233600, _) =>
      case (8000000, _) =>
      case _ =>
    }
  }

  // The clock can be divided by `denominator`: it is fast enough, the divisor is not one that reads as "none",
  // and from 9600 baud on what is left over is less than a percent of the clock.
  predicate Divides(clockRate: nat, denominator: nat, baud: int) {
    && 0 < denominator <= clockRate
    && Short(clockRate / denominator) != -1
    && (baud >= 9600 ==> clockRate % denominator < clockRate / 100)
  }

  // The rate has a divisor.
  predicate Supported(clockRate: nat, sampleRate: nat, baud: int) {
    baud > 0 && Divides(clockRate, baud * sampleRate, baud)
  }

  lemma SupportedMeans(clockRate: nat, sampleRate: nat, baud: int)
    ensures Supported(clockRate, sampleRate, baud) <==>
            && 0 < baud * sampleRate <= clockRate
            && clockRate / (baud * sampleRate) % 0x10000 != 0xFFFF
            && (baud >= 9600 ==> clockRate % (baud * sampleRate) < clockRate / 100)
  {
    if baud * sampleRate > 0 { PositiveFactor(baud, sampleRate); }
  }

  lemma PositiveFactor(a: int, b: nat)
    requires a * b > 0
    ensures a > 0
  {
  }

  // The driver finds one, with the product in 32 bits.
  predicate Accepted(clockRate: nat, sampleRate: nat, baud: int) {
    baud > 0 && Long(baud * sampleRate) >= baud && Divides(clockRate, baud * sampleRate % WORD, baud)
  }

  // The largest divisor that does not make the rate too low.
  predicate IsFloor(clockRate: nat, sampleRate: nat, baud: int, divisor: nat) {
    divisor * (baud * sampleRate) <= clockRate < (divisor + 1) * (baud * sampleRate)
  }

  lemma Division(n: nat, d: nat)
    requires d > 0
    ensures n == n / d * d + n % d && n % d < d
    ensures n / d * d <= n < (n / d + 1) * d
    ensures n >= d ==> n / d >= 1 && n >= d + n % d
  {
  }

  lemma Times(q: nat, d: nat)
    requires q >= 1
    ensures q * d >= d
  {
  }

  // A product that does not fit in 32 bits needs a rate above every clock.
  lemma WrappedIsLarge(baud: int, sampleRate: nat)
    requires 0 < baud && 0 < sampleRate <= 16 && baud * sampleRate >= WORD
    ensures baud >= 0x1000_0000
  {
  }

  lemma Scale(baud: int, sampleRate: nat)
    requires 0 < baud && sampleRate <= 16
    ensures baud * sampleRate <= baud * 16
  {
  }

  // The product as the code has it: exact, or larger than the clock.
  lemma Denominator(baud: int, sampleRate: nat, clockRate: nat)
    requires 0 < baud < 0x8000_0000 && 0 < sampleRate <= 16 && clockRate < 0x1000_0000
    ensures baud * sampleRate > 0
    ensures Long(baud * sampleRate) >= baud && baud * sampleRate >= WORD ==> baud * sampleRate % WORD > clockRate
    ensures Long(baud * sampleRate) >= baud && baud * sampleRate < WORD ==> baud * sampleRate % WORD == baud * sampleRate
    ensures Long(baud * sampleRate) < baud ==> baud * sampleRate > clockRate
    ensures Long(baud * sampleRate) >= baud ==> baud * sampleRate % WORD >= baud
  {
    var product := baud * sampleRate;
    assert product >= baud by { Times(sampleRate, baud); }
    if product >= WORD {
      WrappedIsLarge(baud, sampleRate);
      if Long(product) >= baud { LongIsLow(product); }
    } else if Long(product) < baud {
      assert product >= 0x8000_0000;
    }
  }

  lemma LongIsLow(n: nat)
    ensures Long(n) <= n % WORD
  {
  }

  // The same, for the product.
  lemma ProductDecides(clockRate: nat, product: nat, baud: int)
    requires clockRate < WORD && 0 < baud <= product && baud < 0x8000_0000
    ensures var accepted := Long(product) >= baud && Divides(clockRate, product % WORD, baud);
            && (accepted ==> (Divides(clockRate, product, baud) <==> product < WORD))
            && (Divides(clockRate, product, baud) ==> (accepted <==> product < 0x8000_0000))
  {
    if product < WORD { assert product % WORD == product; }
  }

  // An accepted rate is supported if and only if the product fits in 32 bits, and a supported one is accepted
  // if and only if it fits in 31.  With a clock below 2^28 and at most 16 samples a bit they are the same.
  lemma AcceptedIsSupported(clockRate: nat, sampleRate: nat, baud: int)
    requires clockRate < WORD && -0x8000_0000 <= baud < 0x8000_0000
    ensures Accepted(clockRate, sampleRate, baud) ==>
              (Supported(clockRate, sampleRate, baud) <==> baud * sampleRate < WORD)
    ensures Supported(clockRate, sampleRate, baud) ==>
              (Accepted(clockRate, sampleRate, baud) <==> baud * sampleRate < 0x8000_0000)
    ensures clockRate < 0x1000_0000 && sampleRate <= 16 ==>
              (Accepted(clockRate, sampleRate, baud) <==> Supported(clockRate, sampleRate, baud))
  {
    if baud > 0 && sampleRate > 0 {
      Times(sampleRate, baud);
      ProductDecides(clockRate, baud * sampleRate, baud);
      if clockRate < 0x1000_0000 && sampleRate <= 16 { Denominator(baud, sampleRate, clockRate); }
    }
  }

  // They do differ, at 16 samples a bit: the product is 2^32 and a little more than the rate.
  lemma AcceptsTooFast()
    ensures Accepted(286331168, 16, 286331154) && !Supported(286331168, 16, 286331154)
  {
    assert 286331154 * 16 == WORD + 286331168;
  }

  // SerialGetDivisorFromBaud, for a card that is not PCIe.
  method GetDivisorFromBaud(clockRate: nat, sampleRate: nat, desiredBaud: int) returns (ok: bool, divisor: int)
    requires clockRate < WORD && sampleRate < WORD && -0x8000_0000 <= desiredBaud < 0x8000_0000
    ensures -0x8000 <= divisor < 0x8000 && (ok <==> divisor != -1)
    ensures Exception(clockRate, desiredBaud) == None ==>
              && (ok <==> Accepted(clockRate, sampleRate, desiredBaud))
              && (ok ==> divisor == Short(clockRate / (desiredBaud * sampleRate % WORD)))
    ensures Exception(clockRate, desiredBaud).Some? && 0 < sampleRate <= 16 ==>
              divisor == Exception(clockRate, desiredBaud).value
  {
    var denominator := desiredBaud * sampleRate % WORD;
    if desiredBaud <= 0 {
      divisor := -1;
    } else if Long(denominator) < desiredBaud {
      divisor := -1;
    } else {
      LongIsLow(desiredBaud * sampleRate);
      divisor := Calculate(clockRate, denominator, desiredBaud);
      match Exception(clockRate, desiredBaud) {
        case Some(d) => divisor := d;
        case None =>
      }
    }
    ok := divisor != -1;
    ExceptionFits(clockRate, sampleRate, desiredBaud);
  }

  // The rates of the table are low.
  lemma ExceptionFits(clockRate: nat, sampleRate: nat, baud: int)
    ensures Exception(clockRate, baud).Some? && 0 < sampleRate <= 16 ==> 0 < baud <= Long(baud * sampleRate)
    ensures Exception(clockRate, baud).Some? ==> Exception(clockRate, baud).value != -1
  {
    if Exception(clockRate, baud).Some? && 0 < sampleRate <= 16 {
      assert 0 < baud <= 56000;
      Times(sampleRate, baud);
      Scale(baud, sampleRate);
    }
  }

  // The divisor before the exceptions.
  method Calculate(clockRate: nat, denominator: nat, desiredBaud: int) returns (divisor: int)
    requires clockRate < WORD && 0 < denominator < WORD && desiredBaud > 0
    ensures divisor == if Divides(clockRate, denominator, desiredBaud) then Short(clockRate / denominator) else -1
  {
    Division(clockRate, denominator);
    divisor := Round(clockRate, denominator, Short(clockRate / denominator), clockRate % denominator, desiredBaud);
  }

  // Rounds the quotient up, which a clock that is fast enough never needs, and judges the remainder.
  method Round(clockRate: nat, denominator: nat, quotient: int, remainder: nat, desiredBaud: int) returns (divisor: int)
    requires clockRate < WORD && remainder < denominator < WORD && desiredBaud > 0
    requires denominator <= clockRate ==> denominator + remainder <= clockRate
    ensures divisor == if denominator <= clockRate && (desiredBaud >= 9600 ==> remainder < clockRate / 100) then quotient else -1
  {
    var maxRemain := clockRate / 100;
    divisor := quotient;
    if denominator <= clockRate { NoWrap(clockRate, remainder); }
    if remainder * 2 % WORD > clockRate && desiredBaud != 110 {
      divisor := Short(divisor + 1);
    }
    if desiredBaud >= 9600 {
      if remainder >= maxRemain && (remainder + maxRemain) % WORD < clockRate {
        divisor := -1;
      }
    }
    if denominator > clockRate {
      divisor := -1;
    }
  }

  lemma NoWrap(clockRate: nat, remainder: nat)
    requires remainder * 2 < clockRate < WORD
    ensures remainder * 2 % WORD == remainder * 2
    ensures (remainder + clockRate / 100) % WORD == remainder + clockRate / 100 < clockRate
  {
  }

  // From 9600 baud on, less than a percent of the clock is left over.
  lemma LeftOver(clockRate: nat, sampleRate: nat, baud: int)
    requires Supported(clockRate, sampleRate, baud)
    ensures IsFloor(clockRate, sampleRate, baud, clockRate / (baud * sampleRate))
    ensures baud >= 9600 ==> clockRate - clockRate / (baud * sampleRate) * (baud * sampleRate) < clockRate / 100
  {
    Division(clockRate, baud * sampleRate);
  }

  class Uart {
    var lineControl: bv8
    var latchLsb: nat
    var latchMsb: nat

    // DLM, DLL and DLD.
    var dlm: nat
    var dll: nat
    var dld: nat

    // WRITE_DIVISOR_LATCH, whose divisor is a SHORT.
    method WriteDivisorLatch(divisor: int)
      requires -0x8000 <= divisor < 0x8000
      modifies this`lineControl, this`latchLsb, this`latchMsb
      ensures latchMsb < 256 && latchLsb < 256 && lineControl == old(lineControl)
      ensures Latch() == divisor % 0x10000 && Short(Latch()) == divisor
      ensures latchMsb * 256 + latchLsb == divisor % 0x10000
    {
      var saved := lineControl;
      lineControl := saved | 0x80;
      latchLsb := divisor % 256;
      latchMsb := divisor / 256 % 256;
      lineControl := saved;
      TwoBytes(divisor);
    }

    // What the two bytes of the latch stand for.
    function Latch(): int
      reads this`latchLsb, this`latchMsb
    {
      latchMsb * 256 + latchLsb
    }

    // IOCTL_SERIAL_SET_BAUD_RATE on a card that is not PCIe: from the rate to the latch.  A rate that is refused
    // leaves the latch alone.
    method SetBaud(clockRate: nat, sampleRate: nat, baud: int) returns (ok: bool)
      requires clockRate < WORD && sampleRate < WORD && -0x8000_0000 <= baud < 0x8000_0000
      modifies this`lineControl, this`latchLsb, this`latchMsb
      ensures lineControl == old(lineControl) && (!ok ==> Latch() == old(Latch()))
      ensures Exception(clockRate, baud) == None && clockRate < 0x1000_0000 && sampleRate <= 16 ==>
                Computed(clockRate, sampleRate, baud, ok, Latch())
      ensures Exception(clockRate, baud) == None && clockRate < 0x1000_0000 && sampleRate <= 16 ==>
                (ok <==> && 0 < baud * sampleRate <= clockRate
                         && clockRate / (baud * sampleRate) % 0x10000 != 0xFFFF
                         && (baud >= 9600 ==> clockRate % (baud * sampleRate) < clockRate / 100))
      ensures Exception(clockRate, baud).Some? && 0 < sampleRate <= 16 ==>
                ok && Latch() == Exception(clockRate, baud).value
    {
      var divisor: int;
      ok, divisor := GetDivisorFromBaud(clockRate, sampleRate, baud);
      if ok { WriteDivisorLatch(divisor); }
      LatchIsComputed(clockRate, sampleRate, baud, ok, Latch());
      SupportedMeans(clockRate, sampleRate, baud);
    }

    // PCIeSetBaudRate.  The three registers hold the divisor exactly if it fits in twenty bits.  Neither the
    // rate nor the samples a bit are checked for zero before the division.
    method PcieSetBaudRate(value: nat, sampleRate: nat) returns (outcome: PcieOutcome, ghost divisor: nat)
      requires value < WORD && sampleRate < WORD && dld < 256
      modifies this`lineControl, this`dlm, this`dll, this`dld
      ensures outcome.DividesByZero? <==> value * sampleRate == 0
      ensures outcome.InvalidParameter? <==> value * sampleRate > 125000000
      ensures !outcome.Set? ==> dlm == old(dlm) && dll == old(dll) && dld == old(dld)
      ensures outcome.Set? ==>
                divisor * (value * sampleRate) <= 2000000000 < (divisor + 1) * (value * sampleRate) && divisor >= 16
      ensures outcome.Set? ==> dlm < 256 && dll < 256 && dld < 256 && dld / 16 == old(dld) / 16
      ensures outcome.Set? ==> (dlm * 4096 + dll * 16 + dld % 16 == divisor <==> divisor < 0x100000)
      ensures !outcome.DividesByZero? ==> lineControl == old(lineControl)
    {
      var d: nat;
      outcome, d := PcieDivisor(value, sampleRate);
      divisor := d;
      if outcome.Set? {
        var saved := lineControl;
        lineControl := saved | 0x80;
        dlm := d / 4096 % 256;
        dll := d / 16 % 256;
        dld := dld / 16 * 16 + d % 16;
        lineControl := saved;
        Nibbles(d);
      } else if outcome.DividesByZero? && sampleRate > 0 {
        lineControl := lineControl | 0x80;
      }
    }
  }

  datatype PcieOutcome = Set | InvalidParameter | DividesByZero

  // The range check and the division.
  method PcieDivisor(value: nat, sampleRate: nat) returns (outcome: PcieOutcome, divisor: nat)
    requires value < WORD && sampleRate < WORD
    ensures outcome.DividesByZero? <==> value * sampleRate == 0
    ensures outcome.InvalidParameter? <==> value * sampleRate > 125000000
    ensures outcome.Set? ==>
              divisor * (value * sampleRate) <= 2000000000 < (divisor + 1) * (value * sampleRate) && divisor >= 16
  {
    if sampleRate == 0 { return DividesByZero, 0; }
    if value > 125000000 / sampleRate {
      Limit(value, sampleRate);
      return InvalidParameter, 0;
    }
    if value == 0 { return DividesByZero, 0; }
    Limit(value, sampleRate);
    var product := value * sampleRate;
    Division(125000000 * 16, product);
    Sixteen(product);
    return Set, 125000000 * 16 / product;
  }

  lemma TwoBytes(d: int)
    requires -0x8000 <= d < 0x8000
    ensures d / 256 % 256 * 256 + d % 256 == d % 0x10000 && Short(d % 0x10000) == d
  {
  }

  // A rate is accepted exactly if it is supported.  What it leaves in the latch is then the largest divisor that
  // does not make the rate too low, if and only if the quotient has at most 16 bits; and from 9600 baud on less
  // than a percent of the clock is left over.
  ghost predicate Computed(clockRate: nat, sampleRate: nat, baud: int, ok: bool, latch: int) {
    && (ok <==> Supported(clockRate, sampleRate, baud))
    && (ok ==>
          && latch >= 0
          && (IsFloor(clockRate, sampleRate, baud, latch) <==> clockRate / (baud * sampleRate) < 0xFFFF)
          && (baud >= 9600 && clockRate / (baud * sampleRate) < 0xFFFF ==>
                0 <= clockRate - latch * (baud * sampleRate) < clockRate / 100))
  }

  // The latch reads as the SHORT of the quotient.
  ghost predicate Latched(clockRate: nat, sampleRate: nat, baud: int, latch: int) {
    && 0 <= latch < 0x10000
    && Accepted(clockRate, sampleRate, baud)
    && Short(latch) == Short(clockRate / (baud * sampleRate % WORD))
  }

  lemma LatchIsComputed(clockRate: nat, sampleRate: nat, baud: int, ok: bool, latch: int)
    requires clockRate < WORD && -0x8000_0000 <= baud < 0x8000_0000
    ensures clockRate < 0x1000_0000 && sampleRate <= 16 && (ok <==> Accepted(clockRate, sampleRate, baud))
            && (ok ==> Latched(clockRate, sampleRate, baud, latch)) ==>
              Computed(clockRate, sampleRate, baud, ok, latch)
  {
    AcceptedIsSupported(clockRate, sampleRate, baud);
    if clockRate < 0x1000_0000 && sampleRate <= 16 && ok && Latched(clockRate, sampleRate, baud, latch) {
      LatchIsFloor(clockRate, sampleRate, baud, latch);
    }
  }

  lemma LatchIsFloor(clockRate: nat, sampleRate: nat, baud: int, latch: int)
    requires Latched(clockRate, sampleRate, baud, latch) && clockRate < 0x1000_0000 && sampleRate <= 16 && baud < 0x8000_0000
    ensures Supported(clockRate, sampleRate, baud)
    ensures IsFloor(clockRate, sampleRate, baud, latch) <==> clockRate / (baud * sampleRate) < 0xFFFF
    ensures baud >= 9600 && clockRate / (baud * sampleRate) < 0xFFFF ==>
              0 <= clockRate - latch * (baud * sampleRate) < clockRate / 100
  {
    AcceptedIsSupported(clockRate, sampleRate, baud);
    var product := baud * sampleRate;
    assert product % WORD == product;
    LeftOver(clockRate, sampleRate, baud);
    var q := clockRate / product;
    SameShort(latch, q);
    OneFloor(clockRate, product, q, latch);
  }

  lemma SameShort(latch: nat, q: nat)
    requires latch < 0x10000 && Short(latch) == Short(q) != -1
    ensures latch == q % 0x10000 != 0xFFFF
    ensures latch == q <==> q < 0xFFFF
  {
  }

  // There is only one floor.
  lemma OneFloor(n: nat, d: nat, q: nat, other: nat)
    requires d > 0 && q * d <= n < (q + 1) * d
    ensures other * d <= n < (other + 1) * d <==> other == q
  {
    if other < q { Multiples(other + 1, q, d); }
    if other > q { Multiples(q + 1, other, d); }
  }

  // The division in the range check, and the product.
  lemma Limit(value: nat, sampleRate: nat)
    requires 0 < value && 0 < sampleRate
    ensures value > 125000000 / sampleRate <==> value * sampleRate > 125000000
    ensures value * sampleRate > 0
  {
    var q := 125000000 / sampleRate;
    Division(125000000, sampleRate);
    if value > q {
      Multiples(q + 1, value, sampleRate);
    } else {
      Multiples(value, q, sampleRate);
    }
    Times(value, sampleRate);
  }

  lemma Multiples(a: nat, b: nat, c: nat)
    requires a <= b
    ensures a * c <= b * c
  {
  }

  lemma Sixteen(product: nat)
    requires 0 < product <= 125000000
    ensures 125000000 * 16 / product >= 16
  {
  }

  lemma Nibbles(d: nat)
    ensures d / 4096 % 256 * 4096 + d / 16 % 256 * 16 + d % 16 == d % 0x100000
  {
    assert d / 16 / 256 == d / 4096 && d / 4096 / 256 == d / 0x100000;
  }
}
