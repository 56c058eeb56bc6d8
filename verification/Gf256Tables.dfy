/** The logarithm, exponential and inverse tables of gf2_8_tables.h, and the proof that they
    compute in the field of Gf256. The tables are written sixteen entries to a row. */
module Gf256Tables {
  import opened Gf256

  function Pick(k: nat, v0: Byte, v1: Byte, v2: Byte, v3: Byte, v4: Byte, v5: Byte, v6: Byte, v7: Byte,
                v8: Byte, v9: Byte, v10: Byte, v11: Byte, v12: Byte, v13: Byte, v14: Byte, v15: Byte): Byte
  {
    if k < 8 then
      if k < 4 then if k < 2 then if k == 0 then v0 else v1 else if k == 2 then v2 else v3
      else if k < 6 then if k == 4 then v4 else v5 else if k == 6 then v6 else v7
    else
      if k < 12 then if k < 10 then if k == 8 then v8 else v9 else if k == 10 then v10 else v11
      else if k < 14 then if k == 12 then v12 else v13 else if k == 14 then v14 else v15
  }

  function LogTable(i: Byte): Byte {
    match i / 16
    case 0 => Pick(i % 16, 255, 0, 1, 25, 2, 50, 26, 198, 3, 223, 51, 238, 27, 104, 199, 75)
    case 1 => Pick(i % 16, 4, 100, 224, 14, 52, 141, 239, 129, 28, 193, 105, 248, 200, 8, 76, 113)
    case 2 => Pick(i % 16, 5, 138, 101, 47, 225, 36, 15, 33, 53, 147, 142, 218, 240, 18, 130, 69)
    case 3 => Pick(i % 16, 29, 181, 194, 125, 106, 39, 249, 185, 201, 154, 9, 120, 77, 228, 114, 166)
    case 4 => Pick(i % 16, 6, 191, 139, 98, 102, 221, 48, 253, 226, 152, 37, 179, 16, 145, 34, 136)
    case 5 => Pick(i % 16, 54, 208, 148, 206, 143, 150, 219, 189, 241, 210, 19, 92, 131, 56, 70, 64)
    case 6 => Pick(i % 16, 30, 66, 182, 163, 195, 72, 126, 110, 107, 58, 40, 84, 250, 133, 186, 61)
    case 7 => Pick(i % 16, 202, 94, 155, 159, 10, 21, 121, 43, 78, 212, 229, 172, 115, 243, 167, 87)
    case 8 => Pick(i % 16, 7, 112, 192, 247, 140, 128, 99, 13, 103, 74, 222, 237, 49, 197, 254, 24)
    case 9 => Pick(i % 16, 227, 165, 153, 119, 38, 184, 180, 124, 17, 68, 146, 217, 35, 32, 137, 46)
    case 10 => Pick(i % 16, 55, 63, 209, 91, 149, 188, 207, 205, 144, 135, 151, 178, 220, 252, 190, 97)
    case 11 => Pick(i % 16, 242, 86, 211, 171, 20, 42, 93, 158, 132, 60, 57, 83, 71, 109, 65, 162)
    case 12 => Pick(i % 16, 31, 45, 67, 216, 183, 123, 164, 118, 196, 23, 73, 236, 127, 12, 111, 246)
    case 13 => Pick(i % 16, 108, 161, 59, 82, 41, 157, 85, 170, 251, 96, 134, 177, 187, 204, 62, 90)
    case 14 => Pick(i % 16, 203, 89, 95, 176, 156, 169, 160, 81, 11, 245, 22, 235, 122, 117, 44, 215)
    case _ => Pick(i % 16, 79, 174, 213, 233, 230, 231, 173, 232, 116, 214, 244, 234, 168, 80, 88, 175)
  }

  function ExpTable(i: nat): Byte
    requires i < 510
  {
    match i / 16
    case 0 => Pick(i % 16, 1, 2, 4, 8, 16, 32, 64, 128, 29, 58, 116, 232, 205, 135, 19, 38)
    case 1 => Pick(i % 16, 76, 152, 45, 90, 180, 117, 234, 201, 143, 3, 6, 12, 24, 48, 96, 192)
    case 2 => Pick(i % 16, 157, 39, 78, 156, 37, 74, 148, 53, 106, 212, 181, 119, 238, 193, 159, 35)
    case 3 => Pick(i % 16, 70, 140, 5, 10, 20, 40, 80, 160, 93, 186, 105, 210, 185, 111, 222, 161)
    case 4 => Pick(i % 16, 95, 190, 97, 194, 153, 47, 94, 188, 101, 202, 137, 15, 30, 60, 120, 240)
    case 5 => Pick(i % 16, 253, 231, 211, 187, 107, 214, 177, 127, 254, 225, 223, 163, 91, 182, 113, 226)
    case 6 => Pick(i % 16, 217, 175, 67, 134, 17, 34, 68, 136, 13, 26, 52, 104, 208, 189, 103, 206)
    case 7 => Pick(i % 16, 129, 31, 62, 124, 248, 237, 199, 147, 59, 118, 236, 197, 151, 51, 102, 204)
    case 8 => Pick(i % 16, 133, 23, 46, 92, 184, 109, 218, 169, 79, 158, 33, 66, 132, 21, 42, 84)
    case 9 => Pick(i % 16, 168, 77, 154, 41, 82, 164, 85, 170, 73, 146, 57, 114, 228, 213, 183, 115)
    case 10 => Pick(i % 16, 230, 209, 191, 99, 198, 145, 63, 126, 252, 229, 215, 179, 123, 246, 241, 255)
    case 11 => Pick(i % 16, 227, 219, 171, 75, 150, 49, 98, 196, 149, 55, 110, 220, 165, 87, 174, 65)
    case 12 => Pick(i % 16, 130, 25, 50, 100, 200, 141, 7, 14, 28, 56, 112, 224, 221, 167, 83, 166)
    case 13 => Pick(i % 16, 81, 162, 89, 178, 121, 242, 249, 239, 195, 155, 43, 86, 172, 69, 138, 9)
    case 14 => Pick(i % 16, 18, 36, 72, 144, 61, 122, 244, 245, 247, 243, 251, 235, 203, 139, 11, 22)
    case 15 => Pick(i % 16, 44, 88, 176, 125, 250, 233, 207, 131, 27, 54, 108, 216, 173, 71, 142, 1)
    case 16 => Pick(i % 16, 2, 4, 8, 16, 32, 64, 128, 29, 58, 116, 232, 205, 135, 19, 38, 76)
    case 17 => Pick(i % 16, 152, 45, 90, 180, 117, 234, 201, 143, 3, 6, 12, 24, 48, 96, 192, 157)
    case 18 => Pick(i % 16, 39, 78, 156, 37, 74, 148, 53, 106, 212, 181, 119, 238, 193, 159, 35, 70)
    case 19 => Pick(i % 16, 140, 5, 10, 20, 40, 80, 160, 93, 186, 105, 210, 185, 111, 222, 161, 95)
    case 20 => Pick(i % 16, 190, 97, 194, 153, 47, 94, 188, 101, 202, 137, 15, 30, 60, 120, 240, 253)
    case 21 => Pick(i % 16, 231, 211, 187, 107, 214, 177, 127, 254, 225, 223, 163, 91, 182, 113, 226, 217)
    case 22 => Pick(i % 16, 175, 67, 134, 17, 34, 68, 136, 13, 26, 52, 104, 208, 189, 103, 206, 129)
    case 23 => Pick(i % 16, 31, 62, 124, 248, 237, 199, 147, 59, 118, 236, 197, 151, 51, 102, 204, 133)
    case 24 => Pick(i % 16, 23, 46, 92, 184, 109, 218, 169, 79, 158, 33, 66, 132, 21, 42, 84, 168)
    case 25 => Pick(i % 16, 77, 154, 41, 82, 164, 85, 170, 73, 146, 57, 114, 228, 213, 183, 115, 230)
    case 26 => Pick(i % 16, 209, 191, 99, 198, 145, 63, 126, 252, 229, 215, 179, 123, 246, 241, 255, 227)
    case 27 => Pick(i % 16, 219, 171, 75, 150, 49, 98, 196, 149, 55, 110, 220, 165, 87, 174, 65, 130)
    case 28 => Pick(i % 16, 25, 50, 100, 200, 141, 7, 14, 28, 56, 112, 224, 221, 167, 83, 166, 81)
    case 29 => Pick(i % 16, 162, 89, 178, 121, 242, 249, 239, 195, 155, 43, 86, 172, 69, 138, 9, 18)
    case 30 => Pick(i % 16, 36, 72, 144, 61, 122, 244, 245, 247, 243, 251, 235, 203, 139, 11, 22, 44)
    case _ => Pick(i % 16, 88, 176, 125, 250, 233, 207, 131, 27, 54, 108, 216, 173, 71, 142, 0, 0)
  }

  function InvTable(i: Byte): Byte {
    match i / 16
    case 0 => Pick(i % 16, 0, 1, 142, 244, 71, 167, 122, 186, 173, 157, 221, 152, 61, 170, 93, 150)
    case 1 => Pick(i % 16, 216, 114, 192, 88, 224, 62, 76, 102, 144, 222, 85, 128, 160, 131, 75, 42)
    case 2 => Pick(i % 16, 108, 237, 57, 81, 96, 86, 44, 138, 112, 208, 31, 74, 38, 139, 51, 110)
    case 3 => Pick(i % 16, 72, 137, 111, 46, 164, 195, 64, 94, 80, 34, 207, 169, 171, 12, 21, 225)
    case 4 => Pick(i % 16, 54, 95, 248, 213, 146, 78, 166, 4, 48, 136, 43, 30, 22, 103, 69, 147)
    case 5 => Pick(i % 16, 56, 35, 104, 140, 129, 26, 37, 97, 19, 193, 203, 99, 151, 14, 55, 65)
    case 6 => Pick(i % 16, 36, 87, 202, 91, 185, 196, 23, 77, 82, 141, 239, 179, 32, 236, 47, 50)
    case 7 => Pick(i % 16, 40, 209, 17, 217, 233, 251, 218, 121, 219, 119, 6, 187, 132, 205, 254, 252)
    case 8 => Pick(i % 16, 27, 84, 161, 29, 124, 204, 228, 176, 73, 49, 39, 45, 83, 105, 2, 245)
    case 9 => Pick(i % 16, 24, 223, 68, 79, 155, 188, 15, 92, 11, 220, 189, 148, 172, 9, 199, 162)
    case 10 => Pick(i % 16, 28, 130, 159, 198, 52, 194, 70, 5, 206, 59, 13, 60, 156, 8, 190, 183)
    case 11 => Pick(i % 16, 135, 229, 238, 107, 235, 242, 191, 175, 197, 100, 7, 123, 149, 154, 174, 182)
    case 12 => Pick(i % 16, 18, 89, 165, 53, 101, 184, 163, 158, 210, 247, 98, 90, 133, 125, 168, 58)
    case 13 => Pick(i % 16, 41, 113, 200, 246, 249, 67, 215, 214, 16, 115, 118, 120, 153, 10, 25, 145)
    case 14 => Pick(i % 16, 20, 63, 230, 240, 134, 177, 226, 241, 250, 116, 243, 180, 109, 33, 178, 106)
    case _ => Pick(i % 16, 227, 231, 181, 234, 3, 143, 211, 201, 66, 212, 232, 117, 127, 255, 126, 253)
  }

  // ----- Double as plain arithmetic, so that table entries can be compared with it

  function Flip(bit: nat, weight: int): int {
    if bit % 2 == 0 then weight else -weight
  }

  function Doubled(a: Byte): int {
    if a < 128 then 2 * a else
      var x := 2 * a - 256;
      x + 1 + Flip(x / 4, 4) + Flip(x / 8, 8) + Flip(x / 16, 16)
  }

  /** An exclusive or with an odd number flips the lowest bit. */
  lemma XorOdd(x: nat, m: nat, e: int)
    requires BitXor(x / 2, m) == x / 2 + e
    ensures BitXor(x, 2 * m + 1) == x + Flip(x, 1) + 2 * e
  {
    TwiceAndLow(m, 1);
    XorStep(x, 2 * m + 1);
  }

  lemma XorEven(x: nat, m: nat, e: int)
    requires BitXor(x / 2, m) == x / 2 + e
    ensures BitXor(x, 2 * m) == x + 2 * e
  {
    TwiceAndLow(m, 0);
    XorStep(x, 2 * m);
  }

  lemma XorWith7(x: nat)
    ensures BitXor(x, 7) == x + Flip(x, 1) + 2 * (Flip(x / 2, 1) + 2 * Flip(x / 2 / 2, 1))
  {
    BitXorZero(x / 2 / 2 / 2);
    XorOdd(x / 2 / 2, 0, 0);
    XorOdd(x / 2, 1, Flip(x / 2 / 2, 1));
    XorOdd(x, 3, Flip(x / 2, 1) + 2 * Flip(x / 2 / 2, 1));
  }

  lemma XorWith29(x: Byte)
    requires x % 2 == 0
    ensures Xor(x, 29) == x + 1 + Flip(x / 4, 4) + Flip(x / 8, 8) + Flip(x / 16, 16)
  {
    var d := Flip(x / 2 / 2, 1) + 2 * (Flip(x / 2 / 2 / 2, 1) + 2 * Flip(x / 2 / 2 / 2 / 2, 1));
    XorWith7(x / 2 / 2);
    XorEven(x / 2, 7, d);
    XorOdd(x, 14, 2 * d);
  }

  lemma DoubleValue(a: Byte)
    ensures Double(a) == Doubled(a)
  {
    XorWith29(2 * (a % 128));
  }

  lemma ExpEntries(i: nat)
    requires i < 509
    ensures ExpTable(i + 1) == Double(ExpTable(i))
  {
    DoubleValue(ExpTable(i));
    match i / 32
    case 0 => ExpEntries0(i);
    case 1 => ExpEntries1(i);
    case 2 => ExpEntries2(i);
    case 3 => ExpEntries3(i);
    case 4 => ExpEntries4(i);
    case 5 => ExpEntries5(i);
    case 6 => ExpEntries6(i);
    case 7 => ExpEntries7(i);
    case 8 => ExpEntries8(i);
    case 9 => ExpEntries9(i);
    case 10 => ExpEntries10(i);
    case 11 => ExpEntries11(i);
    case 12 => ExpEntries12(i);
    case 13 => ExpEntries13(i);
    case 14 => ExpEntries14(i);
    case _ => ExpEntries15(i);
  }

  lemma ExpEntries0(i: nat)
    requires 0 <= i < 32
    ensures ExpTable(i + 1) == Doubled(ExpTable(i))
  {}

  lemma ExpEntries1(i: nat)
    requires 32 <= i < 64
    ensures ExpTable(i + 1) == Doubled(ExpTable(i))
  {}

  lemma ExpEntries2(i: nat)
    requires 64 <= i < 96
    ensures ExpTable(i + 1) == Doubled(ExpTable(i))
  {}

  lemma ExpEntries3(i: nat)
    requires 96 <= i < 128
    ensures ExpTable(i + 1) == Doubled(ExpTable(i))
  {}

  lemma ExpEntries4(i: nat)
    requires 128 <= i < 160
    ensures ExpTable(i + 1) == Doubled(ExpTable(i))
  {}

  lemma ExpEntries5(i: nat)
    requires 160 <= i < 192
    ensures ExpTable(i + 1) == Doubled(ExpTable(i))
  {}

  lemma ExpEntries6(i: nat)
    requires 192 <= i < 224
    ensures ExpTable(i + 1) == Doubled(ExpTable(i))
  {}

  lemma ExpEntries7(i: nat)
    requires 224 <= i < 256
    ensures ExpTable(i + 1) == Doubled(ExpTable(i))
  {}

  lemma ExpEntries8(i: nat)
    requires 256 <= i < 288
    ensures ExpTable(i + 1) == Doubled(ExpTable(i))
  {}

  lemma ExpEntries9(i: nat)
    requires 288 <= i < 320
    ensures ExpTable(i + 1) == Doubled(ExpTable(i))
  {}

  lemma ExpEntries10(i: nat)
    requires 320 <= i < 352
    ensures ExpTable(i + 1) == Doubled(ExpTable(i))
  {}

  lemma ExpEntries11(i: nat)
    requires 352 <= i < 384
    ensures ExpTable(i + 1) == Doubled(ExpTable(i))
  {}

  lemma ExpEntries12(i: nat)
    requires 384 <= i < 416
    ensures ExpTable(i + 1) == Doubled(ExpTable(i))
  {}

  lemma ExpEntries13(i: nat)
    requires 416 <= i < 448
    ensures ExpTable(i + 1) == Doubled(ExpTable(i))
  {}

  lemma ExpEntries14(i: nat)
    requires 448 <= i < 480
    ensures ExpTable(i + 1) == Doubled(ExpTable(i))
  {}

  lemma ExpEntries15(i: nat)
    requires 480 <= i < 509
    ensures ExpTable(i + 1) == Doubled(ExpTable(i))
  {}

  lemma LogEntries(a: Byte)
    requires a != 0
    ensures LogTable(a) < 255 && ExpTable(LogTable(a)) == a
    ensures InvTable(a) == ExpTable(255 - LogTable(a))
  {
    match a / 16
    case 0 => LogEntries0(a);
    case 1 => LogEntries1(a);
    case 2 => LogEntries2(a);
    case 3 => LogEntries3(a);
    case 4 => LogEntries4(a);
    case 5 => LogEntries5(a);
    case 6 => LogEntries6(a);
    case 7 => LogEntries7(a);
    case 8 => LogEntries8(a);
    case 9 => LogEntries9(a);
    case 10 => LogEntries10(a);
    case 11 => LogEntries11(a);
    case 12 => LogEntries12(a);
    case 13 => LogEntries13(a);
    case 14 => LogEntries14(a);
    case _ => LogEntries15(a);
  }

  lemma LogEntries0(a: Byte)
    requires 1 <= a < 16
    ensures LogTable(a) < 255 && ExpTable(LogTable(a)) == a
    ensures InvTable(a) == ExpTable(255 - LogTable(a))
  {}

  lemma LogEntries1(a: Byte)
    requires 16 <= a < 32
    ensures LogTable(a) < 255 && ExpTable(LogTable(a)) == a
    ensures InvTable(a) == ExpTable(255 - LogTable(a))
  {}

  lemma LogEntries2(a: Byte)
    requires 32 <= a < 48
    ensures LogTable(a) < 255 && ExpTable(LogTable(a)) == a
    ensures InvTable(a) == ExpTable(255 - LogTable(a))
  {}

  lemma LogEntries3(a: Byte)
    requires 48 <= a < 64
    ensures LogTable(a) < 255 && ExpTable(LogTable(a)) == a
    ensures InvTable(a) == ExpTable(255 - LogTable(a))
  {}

  lemma LogEntries4(a: Byte)
    requires 64 <= a < 80
    ensures LogTable(a) < 255 && ExpTable(LogTable(a)) == a
    ensures InvTable(a) == ExpTable(255 - LogTable(a))
  {}

  lemma LogEntries5(a: Byte)
    requires 80 <= a < 96
    ensures LogTable(a) < 255 && ExpTable(LogTable(a)) == a
    ensures InvTable(a) == ExpTable(255 - LogTable(a))
  {}

  lemma LogEntries6(a: Byte)
    requires 96 <= a < 112
    ensures LogTable(a) < 255 && ExpTable(LogTable(a)) == a
    ensures InvTable(a) == ExpTable(255 - LogTable(a))
  {}

  lemma LogEntries7(a: Byte)
    requires 112 <= a < 128
    ensures LogTable(a) < 255 && ExpTable(LogTable(a)) == a
    ensures InvTable(a) == ExpTable(255 - LogTable(a))
  {}

  lemma LogEntries8(a: Byte)
    requires 128 <= a < 144
    ensures LogTable(a) < 255 && ExpTable(LogTable(a)) == a
    ensures InvTable(a) == ExpTable(255 - LogTable(a))
  {}

  lemma LogEntries9(a: Byte)
    requires 144 <= a < 160
    ensures LogTable(a) < 255 && ExpTable(LogTable(a)) == a
    ensures InvTable(a) == ExpTable(255 - LogTable(a))
  {}

  lemma LogEntries10(a: Byte)
    requires 160 <= a < 176
    ensures LogTable(a) < 255 && ExpTable(LogTable(a)) == a
    ensures InvTable(a) == ExpTable(255 - LogTable(a))
  {}

  lemma LogEntries11(a: Byte)
    requires 176 <= a < 192
    ensures LogTable(a) < 255 && ExpTable(LogTable(a)) == a
    ensures InvTable(a) == ExpTable(255 - LogTable(a))
  {}

  lemma LogEntries12(a: Byte)
    requires 192 <= a < 208
    ensures LogTable(a) < 255 && ExpTable(LogTable(a)) == a
    ensures InvTable(a) == ExpTable(255 - LogTable(a))
  {}

  lemma LogEntries13(a: Byte)
    requires 208 <= a < 224
    ensures LogTable(a) < 255 && ExpTable(LogTable(a)) == a
    ensures InvTable(a) == ExpTable(255 - LogTable(a))
  {}

  lemma LogEntries14(a: Byte)
    requires 224 <= a < 240
    ensures LogTable(a) < 255 && ExpTable(LogTable(a)) == a
    ensures InvTable(a) == ExpTable(255 - LogTable(a))
  {}

  lemma LogEntries15(a: Byte)
    requires 240 <= a < 256
    ensures LogTable(a) < 255 && ExpTable(LogTable(a)) == a
    ensures InvTable(a) == ExpTable(255 - LogTable(a))
  {}

  // ----- products and inverses through the tables

  function Power(i: nat): Byte {
    if i == 0 then 1 else Double(Power(i - 1))
  }

  /** The table entry i is 2 to the power i. */
  lemma {:induction false} ExpIsPower(i: nat)
    requires i < 510
    ensures ExpTable(i) == Power(i)
  {
    if i > 0 {
      ExpIsPower(i - 1);
      ExpEntries(i - 1);
    }
  }

  lemma {:induction false} PowerAdds(i: nat, j: nat)
    ensures Mul(Power(i), Power(j)) == Power(i + j)
  {
    if i == 0 {
      MulOne(Power(j));
    } else {
      var e, f := Power(i - 1), Power(j);
      MulCommutes(Double(e), f); MulDoubleRight(f, e); MulCommutes(f, e);
      PowerAdds(i - 1, j);
    }
  }

  /** Every nonzero number is the power its logarithm says, and its reciprocal is the complementary one. */
  lemma LogIsExponent(a: Byte)
    requires a != 0
    ensures LogTable(a) < 255 && a == Power(LogTable(a))
    ensures InvTable(a) == Power(255 - LogTable(a))
  {
    LogEntries(a);
    ExpIsPower(LogTable(a));
    ExpIsPower(255 - LogTable(a));
  }

  /** gf2_8_mul computes the field product. */
  function LogExpProduct(a: Byte, b: Byte): Byte {
    if a == 0 || b == 0 then 0 else
      LogIsExponent(a); LogIsExponent(b);
      ExpTable(LogTable(a) + LogTable(b))
  }

  lemma ProductOfPowers(a: Byte, b: Byte, la: nat, lb: nat)
    requires la + lb < 510 && a == Power(la) && b == Power(lb)
    ensures Mul(a, b) == ExpTable(la + lb)
  {
    PowerAdds(la, lb);
    ExpIsPower(la + lb);
  }

  lemma LogExpProductIsMul(a: Byte, b: Byte)
    ensures LogExpProduct(a, b) == Mul(a, b)
  {
    if a == 0 || b == 0 {
      MulZero(a); MulZero(b);
    } else {
      LogIsExponent(a); LogIsExponent(b);
      ProductOfPowers(a, b, LogTable(a), LogTable(b));
    }
  }

  lemma PowersComplement(l: nat)
    requires l < 255
    ensures Mul(Power(l), Power(255 - l)) == 1
  {
    PowerAdds(l, 255 - l);
    PowerWraps();
  }

  lemma PowerWraps()
    ensures Power(255) == 1
  {
    ExpIsPower(255);
  }

  lemma InvTableInverts(a: Byte)
    requires a != 0
    ensures Mul(a, InvTable(a)) == 1
  {
    LogIsExponent(a);
    PowersComplement(LogTable(a));
  }

  /** The reciprocal, known by what it does; Recip(0) is 0 as in the table. */
  ghost function Recip(a: Byte): (r: Byte)
    ensures a != 0 ==> Mul(a, r) == 1
    ensures a == 0 ==> r == 0
  {
    if a == 0 then 0 else
      InvTableInverts(a);
      var r: Byte :| Mul(a, r) == 1;
      r
  }

  lemma RecipUnique(a: Byte, b: Byte)
    requires Mul(a, b) == 1
    ensures a != 0 && b == Recip(a)
  {
    MulZero(b);
    var r := Recip(a);
    MulAssociates(r, a, b); MulCommutes(r, a); MulOne(b); MulOneRight(r);
  }

  lemma InvTableIsRecip(a: Byte)
    ensures InvTable(a) == Recip(a)
  {
    if a != 0 {
      InvTableInverts(a);
      RecipUnique(a, InvTable(a));
    }
  }
}
