/** The dividers of the ICS307-03 and their encoding in the twenty bytes of clock data: the input divider and the
    VCO divider in the first three bytes, the output divider in bytes 11 to 13; and the output dividers the
    search steps through. */
module Ics30703 {

  // ----- The input divider and the VCO divider -----

  // How the generator reads the input divider from the first two bytes.
  function InputDividerOf(byte0: nat, byte1: nat): nat {
    if byte0 % 4 == 0 then 1
    else if byte0 % 4 == 1 then 2
    else if byte0 % 4 == 2 then 17 - byte0 / 4 % 16
    else byte1 % 32 * 64 + byte0 / 4 + 8
  }

  // And the VCO divider from the second and the third.
  function VcoDividerOf(byte1: nat, byte2: nat): nat {
    byte2 * 8 + byte1 / 32 + 8
  }

  // The parts of GetICS30703Data that encode them, on bytes that are zero at first.
  method EncodeDividers(inputDivider: nat, vcoDivider: nat) returns (status: nat, byte0: nat, byte1: nat, byte2: nat)
    ensures status == if !(1 <= inputDivider <= 2055) then 3 else if !(12 <= vcoDivider <= 2055) then 4 else 0
    ensures status == 0 ==> byte0 < 256 && byte1 < 256 && byte2 < 256
    ensures status == 0 ==> byte2 * 8 + byte1 / 32 == vcoDivider - 8
    ensures status == 0 ==> byte1 % 32 * 256 + byte0 ==
                            if inputDivider <= 2 then inputDivider - 1
                            else if inputDivider <= 17 then (17 - inputDivider) * 4 + 2
                            else (inputDivider - 8) * 4 + 3
    ensures status == 0 ==> InputDividerOf(byte0, byte1) == inputDivider && VcoDividerOf(byte1, byte2) == vcoDivider
  {
    status, byte0, byte1, byte2 := 0, 0, 0, 0;
    if inputDivider == 1 {
    } else if inputDivider == 2 {
      byte0 := 1;
    } else if 3 <= inputDivider <= 17 {
      byte0 := (15 - (inputDivider - 2)) * 4 + 2;
    } else if 18 <= inputDivider <= 2055 {
      var temp := (inputDivider - 8) * 4;
      byte0, byte1 := temp % 256 + 3, temp / 256;
    } else {
      return 3, 0, 0, 0;
    }
    if 12 <= vcoDivider <= 2055 {
      var temp := (vcoDivider - 8) * 32;
      ghost var low := byte1;
      byte1, byte2 := byte1 + temp % 256, temp / 256;
      Split(vcoDivider - 8, low);
    } else {
      return 4, 0, 0, 0;
    }
  }

  // The low five bits of a byte and its upper three do not meet.
  lemma Split(v: nat, low: nat)
    requires v < 2048 && low < 32
    ensures v * 32 / 256 == v / 8 && v * 32 % 256 == v % 8 * 32
    ensures (low + v * 32 % 256) % 32 == low && (low + v * 32 % 256) / 32 == v % 8
  {
  }

  // ----- The output divider -----

  /** Bit 7 of byte 11, byte 12, and the low six bits of byte 13. */
  datatype Code = Code(top: bool, byte12: nat, byte13: nat)

  function Power(z: nat): nat { if z == 0 then 1 else if z == 1 then 2 else if z == 2 then 4 else 8 }

  // The divider with the fields x, y and z.
  function Form(x: nat, y: nat, z: nat): nat { ((x + 3) * 2 + y) * Power(z) }

  // How the generator reads the bytes.
  function DividerOf(c: Code): nat {
    if c.byte12 % 4 == 2 then
      if c.top then
        Form(c.byte13 * 8 + c.byte12 / 32, 1 - c.byte12 / 4 % 2, c.byte12 / 8 % 4)
      else
        37 - c.byte12 / 4 % 32
    else
      match (c.top, c.byte12)
      case (false, 0x00) => 2
      case (true, 0x00) => 3
      case (false, 0x04) => 4
      case (false, 0x01) => 5
      case (true, 0x04) => 6
      case (true, 0x01) => 7
      case (true, 0x09) => 11
      case (true, 0x05) => 9
      case (true, 0x0d) => 13
      case _ => 0
  }

  // The generator has the divider.
  ghost predicate Representable(od: nat) {
    2 <= od <= 37 || exists x, y, z :: 0 <= x < 512 && 0 <= y < 2 && 0 <= z < 4 && od == Form(x, y, z)
  }

  // ----- Stepping -----

  // The next divider the search tries.
  function Next(od: nat): nat {
    if od <= 1 then od
    else if od <= 1030 then od - 1
    else if od <= 2060 then od - 2
    else if od <= 4120 then od - 4
    else od - 8
  }

  // The divider the search tries after `k` others.
  function Tried(k: nat): nat { if k == 0 then 8232 else Next(Tried(k - 1)) }

  // The larger the divider, the more it is a multiple of.
  predicate Shape(od: nat) {
    && 1 <= od <= 8232
    && (od > 1030 ==> od == od / 2 * 2) && (od > 2060 ==> od == od / 4 * 4) && (od > 4120 ==> od == od / 8 * 8)
  }

  lemma NextShape(od: nat)
    requires Shape(od)
    ensures Shape(Next(od))
  {
    if od > 4120 {
      var m := od / 8;
      assert od - 8 == (m - 1) * 8 == (2 * m - 2) * 4 == (4 * m - 4) * 2;
    } else if od > 2060 {
      var m := od / 4;
      assert od - 4 == (m - 1) * 4 == (2 * m - 2) * 2;
    } else if od > 1030 {
      var m := od / 2;
      assert od - 2 == (m - 1) * 2;
    }
  }

  lemma {:induction false} TriedShape(k: nat)
    ensures Shape(Tried(k))
  {
    if k > 0 {
      TriedShape(k - 1);
      NextShape(Tried(k - 1));
    }
  }

  // The search tries every divider up to 1030, every second one up to 2060, every fourth one up to 4120 and
  // every eighth one up to 8232, and no other.
  lemma TriedExactly(od: nat)
    ensures (exists k :: Tried(k) == od) <==>
            && 1 <= od <= 8232
            && (od > 1030 ==> od % 2 == 0) && (od > 2060 ==> od % 4 == 0) && (od > 4120 ==> od % 8 == 0)
  {
    if k :| Tried(k) == od { TriedShape(k); }
    if && 1 <= od <= 8232
       && (od > 1030 ==> od % 2 == 0) && (od > 2060 ==> od % 4 == 0) && (od > 4120 ==> od % 8 == 0)
    {
      var k := Turn(od);
    }
  }

  // The turn of the search at which a divider comes up.
  lemma {:induction false} Turn(od: nat) returns (k: nat)
    requires 1 <= od <= 8232
    requires (od > 1030 ==> od % 2 == 0) && (od > 2060 ==> od % 4 == 0) && (od > 4120 ==> od % 8 == 0)
    ensures Tried(k) == od
    decreases 8232 - od
  {
    if od == 8232 { return 0; }
    var before := od + if od < 1030 then 1 else if od < 2060 then 2 else if od < 4120 then 4 else 8;
    var j := Turn(before);
    k := j + 1;
  }

  // Every divider the search tries has an encoding.
  lemma TriedIsRepresentable(k: nat)
    requires Tried(k) > 1
    ensures Representable(Tried(k))
  {
    TriedShape(k);
    var od := Tried(k);
    var z := if od <= 1029 then 0 else if od <= 2058 then 1 else if od <= 4116 then 2 else 3;
    if od > 37 {
      var n := od / Power(z);
      assert od == n * Power(z) && 6 <= n <= 1029;
      assert od == Form(n / 2 - 3, n % 2, z);
    }
  }

  // ----- Encoding -----

  // The fields do not meet in the bytes.
  lemma FormCode(x: nat, y: nat, z: nat)
    requires x < 512 && y < 2 && z < 4
    ensures DividerOf(FieldsCode(x, y, z)) == Form(x, y, z)
  {
    Fields(x % 8, z, 1 - y);
  }

  lemma Fields(u: nat, z: nat, w: nat)
    requires u < 8 && z < 4 && w < 2
    ensures var b := u * 32 + z * 8 + w * 4 + 2;
            b / 32 == u && b / 8 % 4 == z && b / 4 % 2 == w && b % 4 == 2
  {
    var b := u * 32 + z * 8 + w * 4 + 2;
    assert b / 8 == u * 4 + z && b / 4 == u * 8 + z * 2 + w;
  }

  function FieldsCode(x: nat, y: nat, z: nat): Code
    requires y < 2
  {
    Code(true, x % 8 * 32 + z * 8 + (1 - y) * 4 + 2, x / 8)
  }

  // The fields of one step of the loop, the first form that fits.
  method Fit(od: nat, i: nat) returns (found: bool, y: nat, z: nat)
    ensures found ==> y < 2 && z < 4 && od == Form(i, y, z)
    ensures !found ==> y == 1 && z == 0 && forall y', z' :: 0 <= y' < 2 && 0 <= z' < 4 ==> od != Form(i, y', z')
  {
    found, y, z := true, 0, 0;
    if od == (i + 3) * 2 * 1 { return; }
    else if od == (i + 3) * 2 * 2 { z := 1; }
    else if od == (i + 3) * 2 * 4 { z := 2; }
    else if od == (i + 3) * 2 * 8 { z := 3; }
    else if od == ((i + 3) * 2 + 1) * 1 { y := 1; }
    else if od == ((i + 3) * 2 + 1) * 2 { y, z := 1, 1; }
    else if od == ((i + 3) * 2 + 1) * 4 { y, z := 1, 2; }
    else if od == ((i + 3) * 2 + 1) * 8 { y, z := 1, 3; }
    else {
      found, y := false, 1;
      forall y', z' | 0 <= y' < 2 && 0 <= z' < 4 ensures od != Form(i, y', z') {}
    }
  }

  // The part of GetICS30703Data that encodes the output divider.  A divider that no form fits would silently
  // become 7.
  method EncodeOutputDivider(od: nat) returns (ok: bool, c: Code)
    ensures ok <==> 2 <= od <= 8232
    ensures ok ==> DividerOf(c) == if Representable(od) then od else 7
    ensures od <= 7 && ok ==> c == Code(od == 3 || od >= 6, [0, 0, 0, 0, 4, 1, 4, 1][od], 0)
    ensures od in {9, 11, 13} ==> c == Code(true, if od == 9 then 5 else if od == 11 then 9 else 13, 0)
    ensures 8 <= od <= 37 && od !in {9, 11, 13} ==> c == Code(false, (37 - od) * 4 + 2, 0)
    ensures 37 < od && ok && Representable(od) ==>
              && c.top && c.byte12 % 4 == 2
              && od == ((c.byte13 * 8 + c.byte12 / 32 + 3) * 2 + 1 - c.byte12 / 4 % 2) * [1, 2, 4, 8][c.byte12 / 8 % 4]
  {
    ok, c := 2 <= od <= 8232, Code(false, 0, 0);
    if od == 2 { c := Code(false, 0x00, 0); }
    else if od == 3 { c := Code(true, 0x00, 0); }
    else if od == 4 { c := Code(false, 0x04, 0); }
    else if od == 5 { c := Code(false, 0x01, 0); }
    else if od == 6 { c := Code(true, 0x04, 0); }
    else if od == 7 { c := Code(true, 0x01, 0); }
    else if od == 11 { c := Code(true, 0x09, 0); }
    else if od == 9 { c := Code(true, 0x05, 0); }
    else if od == 13 { c := Code(true, 0x0d, 0); }
    else if 8 <= od <= 37 { c := Code(false, (31 - (od - 6)) * 4 + 2, 0); }
    else if ok { c := EncodeByForm(od); }
  }

  method EncodeByForm(od: nat) returns (c: Code)
    requires od > 37
    ensures DividerOf(c) == if Representable(od) then od else 7
    ensures c.top && c.byte12 % 4 == 2
  {
    var i := 0;
    while i < 512
      invariant i <= 512
      invariant forall x, y, z :: 0 <= x < i && 0 <= y < 2 && 0 <= z < 4 ==> od != Form(x, y, z)
    {
      var found, y, z := Fit(od, i);
      if found {
        FormCode(i, y, z);
        assert Representable(od);
        return FieldsCode(i, y, z);
      }
      i := i + 1;
    }
    FormCode(0, 1, 0);
    c := FieldsCode(0, 1, 0);
  }

  // Every divider the search tries is encoded so that the generator reads it back.
  method EncodeTried(k: nat) returns (ok: bool, c: Code)
    requires Tried(k) > 1
    ensures ok && DividerOf(c) == Tried(k)
  {
    TriedShape(k);
    TriedIsRepresentable(k);
    ok, c := EncodeOutputDivider(Tried(k));
  }
}
