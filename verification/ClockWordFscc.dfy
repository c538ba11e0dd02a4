/** Shifting 160 bits of clock data out to the ICS307-03 of an FSCC card, as one buffer of register words. */
module ClockWordFscc {
  import opened Prelude
  import opened ShiftRegister

  /** The four pins of a channel in the feature control register: bits 0 to 3 for the first channel, bits 8
      to 11 for the second. */
  datatype Nibble = Nibble(data: bool, clk: bool, unused: bool, strobe: bool)

  /** The register word, as its two nibbles of pins and its other bits. */
  datatype Fcr = Fcr(low: Nibble, high: Nibble, rest: nat) {
    function PinsOf(channel: nat): Nibble { if channel == 1 then high else low }

    function With(channel: nat, pins: Nibble): Fcr {
      if channel == 1 then this.(high := pins) else this.(low := pins)
    }

    // The word with the mask 0xfffff0f0.
    function Masked(): Fcr {
      Fcr(Nibble(false, false, false, false), Nibble(false, false, false, false), rest)
    }
  }

  function LevelOf(channel: nat, w: Fcr): Level {
    var pins := w.PinsOf(channel);
    Level(pins.clk, pins.data, pins.strobe)
  }

  function LevelsOf(channel: nat, words: seq<Fcr>): (levels: seq<Level>)
    ensures |levels| == |words|
  {
    seq(|words|, i requires 0 <= i < |words| => LevelOf(channel, words[i]))
  }

  // ----- The bytes and their bits -----

  // Bit `j` of a byte.
  predicate Bit(b: byte, j: nat)
    requires j < 8
  {
    match j
    case 0 => b as int % 2 == 1
    case 1 => b as int / 2 % 2 == 1
    case 2 => b as int / 4 % 2 == 1
    case 3 => b as int / 8 % 2 == 1
    case 4 => b as int / 16 % 2 == 1
    case 5 => b as int / 32 % 2 == 1
    case 6 => b as int / 64 % 2 == 1
    case 7 => b as int / 128 % 2 == 1
  }

  // The bits of a byte, most significant first, down to bit `j`.
  function BitsDownTo(b: byte, j: nat): (bits: seq<bool>)
    requires j <= 8
    ensures |bits| == 8 - j
  {
    seq(8 - j, k requires 0 <= k < 8 - j => Bit(b, 7 - k))
  }

  // All the bits of a byte stand for it.
  lemma BitsValue(b: byte)
    ensures Value(BitsDownTo(b, 0)) == b as int
  {
    HighBits(b);
    BitsNext(b, 3);
    BitsNext(b, 2);
    BitsNext(b, 1);
    BitsNext(b, 0);
    Halves(b as int);
  }

  lemma HighBits(b: byte)
    ensures Value(BitsDownTo(b, 4)) == b as int / 16
  {
    BitsNext(b, 7);
    BitsNext(b, 6);
    BitsNext(b, 5);
    BitsNext(b, 4);
    Halves(b as int / 16);
    Quarters(b as int);
  }

  lemma Halves(n: nat)
    ensures n == 2 * (2 * (2 * (2 * (n / 16) + n / 8 % 2) + n / 4 % 2) + n / 2 % 2) + n % 2
  {
    assert n / 2 / 2 == n / 4 && n / 4 / 2 == n / 8 && n / 8 / 2 == n / 16;
  }

  lemma Quarters(n: nat)
    ensures n / 16 / 2 == n / 32 && n / 16 / 4 == n / 64 && n / 16 / 8 == n / 128
    ensures n < 256 ==> n / 16 / 16 == 0
  {
  }

  lemma BitsNext(b: byte, j: nat)
    requires j < 8
    ensures BitsDownTo(b, j) == BitsDownTo(b, j + 1) + [Bit(b, j)]
    ensures Value(BitsDownTo(b, j)) == 2 * Value(BitsDownTo(b, j + 1)) + (if Bit(b, j) then 1 else 0)
  {
  }

  // The bits of the bytes from the last down to byte `i`.
  function StreamDownTo(bytes: seq<byte>, i: nat): (bits: seq<bool>)
    requires i <= |bytes|
    ensures |bits| == 8 * (|bytes| - i)
    decreases |bytes| - i
  {
    if i == |bytes| then [] else StreamDownTo(bytes, i + 1) + BitsDownTo(bytes[i], 0)
  }

  // Each byte can be read back from its place in the stream.
  lemma {:induction false} StreamByte(bytes: seq<byte>, i: nat, k: nat)
    requires i <= k < |bytes|
    ensures 8 * (|bytes| - k) <= |StreamDownTo(bytes, i)|
    ensures Value(StreamDownTo(bytes, i)[8 * (|bytes| - 1 - k)..8 * (|bytes| - k)]) == bytes[k] as int
    decreases |bytes| - i
  {
    var later := StreamDownTo(bytes, i + 1);
    if i == k {
      assert StreamDownTo(bytes, i)[|later|..|later| + 8] == BitsDownTo(bytes[k], 0);
      BitsValue(bytes[k]);
    } else {
      StreamByte(bytes, i + 1, k);
      var from, to := 8 * (|bytes| - 1 - k), 8 * (|bytes| - k);
      assert StreamDownTo(bytes, i)[from..to] == later[from..to];
    }
  }

  // ----- The buffer -----

  // What has been clocked and latched by the first `n` words of the buffer, and the levels they leave.
  ghost predicate Sent(data: seq<Fcr>, n: nat, channel: nat, from: Level, bits: seq<bool>, latched: seq<seq<bool>>, now: Level)
    requires n <= |data|
  {
    var levels := LevelsOf(channel, data[..n]);
    Clocked(from, levels) == bits && Latched(from, levels) == latched && Current(from, levels) == now
  }

  // One word more in the buffer.
  method Fill(data: array<Fcr>, n: nat, w: Fcr, ghost channel: nat, ghost from: Level,
              ghost bits: seq<bool>, ghost latched: seq<seq<bool>>, ghost now: Level)
    requires n < data.Length && Sent(data[..], n, channel, from, bits, latched, now)
    modifies data
    ensures data[n] == w
    ensures var l := LevelOf(channel, w);
            var clocked := bits + (if l.clk && !now.clk then [l.data] else []);
            Sent(data[..], n + 1, channel, from, clocked, latched + (if l.strobe && !now.strobe then [clocked] else []), l)
  {
    ghost var before := data[..][..n];
    data[n] := w;
    assert data[..][..n + 1] == before + [w];
    assert LevelsOf(channel, before + [w]) == LevelsOf(channel, before) + [LevelOf(channel, w)];
    OneMoreLevel(from, LevelsOf(channel, before), LevelOf(channel, w));
  }

  // The two words for a bit.
  method FillBit(data: array<Fcr>, n: nat, fcr: Fcr, bit: bool, channel: nat, ghost from: Level, ghost bits: seq<bool>)
    returns (next: Fcr)
    requires n + 2 <= data.Length && Sent(data[..], n, channel, from, bits, [], LevelOf(channel, fcr))
    requires !LevelOf(channel, fcr).clk && !LevelOf(channel, fcr).strobe
    modifies data
    ensures LevelOf(channel, next) == Level(false, bit, false)
    ensures Sent(data[..], n + 2, channel, from, bits + [bit], [], Level(false, bit, false))
  {
    next := fcr.With(channel, fcr.PinsOf(channel).(data := bit));
    next := next.With(channel, next.PinsOf(channel).(clk := true));
    Fill(data, n, next, channel, from, bits, [], LevelOf(channel, fcr));
    assert bits + [bit] + [] == bits + [bit];
    next := next.With(channel, next.PinsOf(channel).(clk := false));
    Fill(data, n + 1, next, channel, from, bits + [bit], [], Level(true, bit, false));
  }

  // The words for the bits of a byte, most significant first.
  method FillByte(data: array<Fcr>, n: nat, fcr: Fcr, b: byte, channel: nat, ghost from: Level, ghost bits: seq<bool>)
    returns (next: Fcr)
    requires n + 16 <= data.Length && Sent(data[..], n, channel, from, bits, [], LevelOf(channel, fcr))
    requires !LevelOf(channel, fcr).clk && !LevelOf(channel, fcr).strobe
    modifies data
    ensures Sent(data[..], n + 16, channel, from, bits + BitsDownTo(b, 0), [], LevelOf(channel, next))
    ensures !LevelOf(channel, next).clk && !LevelOf(channel, next).strobe
  {
    next := fcr;
    var j := 8;
    ghost var sent := bits;
    assert bits + BitsDownTo(b, 8) == bits;
    while j > 0
      invariant 0 <= j <= 8 && !LevelOf(channel, next).clk && !LevelOf(channel, next).strobe
      invariant sent == bits + BitsDownTo(b, j)
      invariant Sent(data[..], n + 2 * (8 - j), channel, from, sent, [], LevelOf(channel, next))
    {
      j := j - 1;
      BitsNext(b, j);
      next := FillBit(data, n + 2 * (7 - j), next, Bit(b, j), channel, from, sent);
      sent := sent + [Bit(b, j)];
    }
  }

  // FastcomSetClockBitsFSCC: the buffer is filled exactly, the strobe latches the 160 bits, the last byte
  // first, and the last word restores the register.  That latches nothing more, as the strobe is still on; it
  // shifts in one more bit if the clock was high on entry.
  method SetClockBitsFSCC(clockBits: seq<byte>, orig: Fcr, channel: nat) returns (data: array<Fcr>)
    requires |clockBits| == 20
    ensures fresh(data) && data.Length == 323 && data[322] == orig
    ensures var from, levels, bits := LevelOf(channel, orig), LevelsOf(channel, data[..]), StreamDownTo(clockBits, 0);
            && Clocked(from, levels) == (if from.clk then bits + [from.data] else bits)
            && Latched(from, levels) == [bits]
  {
    ghost var from := LevelOf(channel, orig);
    data := new Fcr[323](_ => orig);
    assert Sent(data[..], 0, channel, from, [], [], from);
    Fill(data, 0, orig.Masked(), channel, from, [], [], from);
    var fcr := FillBytes(data, clockBits, orig.Masked(), channel, from);
    FillLast(data, orig, channel, StreamDownTo(clockBits, 0), LevelOf(channel, fcr));
  }

  // The words for all the bytes, the last byte first.
  method FillBytes(data: array<Fcr>, clockBits: seq<byte>, masked: Fcr, channel: nat, ghost from: Level) returns (fcr: Fcr)
    requires |clockBits| == 20 && data.Length == 323 && !LevelOf(channel, masked).clk && !LevelOf(channel, masked).strobe
    requires Sent(data[..], 1, channel, from, [], [], LevelOf(channel, masked))
    modifies data
    ensures !LevelOf(channel, fcr).clk && !LevelOf(channel, fcr).strobe
    ensures Sent(data[..], 321, channel, from, StreamDownTo(clockBits, 0), [], LevelOf(channel, fcr))
  {
    fcr := masked;
    var i := 20;
    while i > 0
      invariant 0 <= i <= 20 && !LevelOf(channel, fcr).clk && !LevelOf(channel, fcr).strobe
      invariant Sent(data[..], 1 + 16 * (20 - i), channel, from, StreamDownTo(clockBits, i), [], LevelOf(channel, fcr))
    {
      i := i - 1;
      fcr := FillByte(data, 1 + 16 * (19 - i), fcr, clockBits[i], channel, from, StreamDownTo(clockBits, i + 1));
    }
  }

  // The last two words: the strobe, and the register restored.
  method FillLast(data: array<Fcr>, orig: Fcr, channel: nat, ghost bits: seq<bool>, ghost now: Level)
    requires data.Length == 323 && !now.clk && !now.strobe
    requires Sent(data[..], 321, channel, LevelOf(channel, orig), bits, [], now)
    modifies data
    ensures data[322] == orig
    ensures var from, levels := LevelOf(channel, orig), LevelsOf(channel, data[..]);
            Clocked(from, levels) == (if from.clk then bits + [from.data] else bits) && Latched(from, levels) == [bits]
  {
    var fcr := orig.Masked();
    fcr := fcr.With(channel, fcr.PinsOf(channel).(strobe := true));
    fcr := fcr.With(channel, fcr.PinsOf(channel).(clk := false));
    Fill(data, 321, fcr, channel, LevelOf(channel, orig), bits, [], now);
    assert bits + [] == bits;
    Fill(data, 322, orig, channel, LevelOf(channel, orig), bits, [bits], LevelOf(channel, fcr));
    assert data[..][..323] == data[..];
  }
}
