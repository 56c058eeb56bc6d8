module Gf256 {
  type Byte = x: int | 0 <= x < 256

  function Pow2(n: nat): (r: nat)
    ensures r > 0
  {
    if n == 0 then 1 else 2 * Pow2(n - 1)
  }

  /** The sum of the low bits, without carry. */
  function LowBits(a: nat, b: nat): nat {
    if a % 2 == b % 2 then 0 else 1
  }

  function BitXor(a: nat, b: nat): nat
    decreases a, 2
  {
    XorLowBit(a, b)
  }

  function XorLowBit(a: nat, b: nat): nat
    decreases a, 1
  {
    XorHighBits(a, b, LowBits(a, b))
  }

  function XorHighBits(a: nat, b: nat, low: nat): nat
    decreases a, 0
  {
    if a == 0 then b else low + 2 * BitXor(a / 2, b / 2)
  }

  lemma XorUnfold(a: nat, b: nat)
    ensures BitXor(a, b) == if a == 0 then b else LowBits(a, b) + 2 * BitXor(a / 2, b / 2)
  {
    assert BitXor(a, b) == XorLowBit(a, b) == XorHighBits(a, b, LowBits(a, b));
  }

  lemma TwiceAndLow(x: nat, low: nat)
    requires low < 2
    ensures (low + 2 * x) % 2 == low && (low + 2 * x) / 2 == x
  {}

  lemma XorStep(a: nat, b: nat)
    ensures BitXor(a, b) % 2 == LowBits(a, b)
    ensures BitXor(a, b) / 2 == BitXor(a / 2, b / 2)
  {
    XorUnfold(a, b);
    if a == 0 {
      XorUnfold(a / 2, b / 2);
    } else {
      TwiceAndLow(BitXor(a / 2, b / 2), LowBits(a, b));
    }
  }

  lemma XorHalf(a: nat, b: nat)
    ensures BitXor(a, b) / 2 == BitXor(a / 2, b / 2)
  {
    XorStep(a, b);
  }

  lemma SameHalves(a: nat, b: nat)
    requires a % 2 == b % 2 && a / 2 == b / 2
    ensures a == b
  {}

  lemma {:induction false} BitXorBound(n: nat, a: nat, b: nat)
    requires a < Pow2(n) && b < Pow2(n)
    ensures BitXor(a, b) < Pow2(n)
  {
    XorUnfold(a, b);
    if a != 0 { BitXorBound(n - 1, a / 2, b / 2); }
  }

  lemma {:induction false} BitXorZero(a: nat)
    ensures BitXor(a, 0) == a
  {
    XorUnfold(a, 0);
    if a != 0 { BitXorZero(a / 2); }
  }

  lemma {:induction false} BitXorCommutes(a: nat, b: nat)
    ensures BitXor(a, b) == BitXor(b, a)
    decreases a + b
  {
    if a == 0 {
      XorUnfold(a, b); BitXorZero(b);
    } else {
      XorStep(a, b); XorStep(b, a);
      BitXorCommutes(a / 2, b / 2);
      SameHalves(BitXor(a, b), BitXor(b, a));
    }
  }

  lemma {:induction false} BitXorAssociates(a: nat, b: nat, c: nat)
    ensures BitXor(BitXor(a, b), c) == BitXor(a, BitXor(b, c))
  {
    if a == 0 {
      XorUnfold(a, b); XorUnfold(a, BitXor(b, c));
    } else {
      XorStep(a, b); XorStep(b, c);
      XorStep(BitXor(a, b), c); XorStep(a, BitXor(b, c));
      BitXorAssociates(a / 2, b / 2, c / 2);
      SameHalves(BitXor(BitXor(a, b), c), BitXor(a, BitXor(b, c)));
    }
  }

  lemma {:induction false} BitXorSelf(a: nat)
    ensures BitXor(a, a) == 0
  {
    XorUnfold(a, a);
    if a != 0 { BitXorSelf(a / 2); }
  }

  /** The bits of a from n up. */
  function High(n: nat, a: nat): nat {
    if n == 0 then a else High(n - 1, a / 2)
  }

  /** The n lowest bits of a. */
  function Low(n: nat, a: nat): nat {
    if n == 0 then 0 else a % 2 + 2 * Low(n - 1, a / 2)
  }

  /** Exclusive or works on the bits from n up and on the bits below n separately. */
  lemma {:induction false} BitXorHigh(n: nat, a: nat, b: nat)
    ensures High(n, BitXor(a, b)) == BitXor(High(n, a), High(n, b))
  {
    if n != 0 {
      calc {
        High(n, BitXor(a, b));
        High(n - 1, BitXor(a, b) / 2);
        { XorHalf(a, b); }
        High(n - 1, BitXor(a / 2, b / 2));
        { BitXorHigh(n - 1, a / 2, b / 2); }
        BitXor(High(n - 1, a / 2), High(n - 1, b / 2));
      }
    }
  }

  lemma LowStep(n: nat, a: nat)
    requires n > 0
    ensures Low(n, a) % 2 == a % 2 && Low(n, a) / 2 == Low(n - 1, a / 2)
  {
    TwiceAndLow(Low(n - 1, a / 2), a % 2);
  }

  lemma {:induction false} BitXorLow(n: nat, a: nat, b: nat)
    ensures Low(n, BitXor(a, b)) == BitXor(Low(n, a), Low(n, b))
  {
    if n == 0 {
      XorUnfold(0, 0);
    } else {
      XorStep(a, b);
      BitXorLow(n - 1, a / 2, b / 2);
      LowStep(n, a); LowStep(n, b); LowStep(n, BitXor(a, b));
      XorStep(Low(n, a), Low(n, b));
      SameHalves(Low(n, BitXor(a, b)), BitXor(Low(n, a), Low(n, b)));
    }
  }

  lemma SplitNibble(a: nat)
    ensures High(4, a) == a / 16 && Low(4, a) == a % 16
  {
    assert High(4, a) == High(3, a / 2) == High(2, a / 2 / 2) == High(1, a / 2 / 2 / 2) == a / 2 / 2 / 2 / 2;
    assert Low(1, a / 2 / 2 / 2) == a / 2 / 2 / 2 % 2 + 2 * Low(0, a / 16);
    assert Low(2, a / 2 / 2) == a / 2 / 2 % 2 + 2 * Low(1, a / 2 / 2 / 2);
    assert Low(3, a / 2) == a / 2 % 2 + 2 * Low(2, a / 2 / 2);
  }

  lemma XorNibbles(a: nat, b: nat)
    ensures BitXor(a, b) / 16 == BitXor(a / 16, b / 16)
    ensures BitXor(a, b) % 16 == BitXor(a % 16, b % 16)
  {
    BitXorHigh(4, a, b); BitXorLow(4, a, b);
    SplitNibble(a); SplitNibble(b); SplitNibble(BitXor(a, b));
  }

  lemma SplitTopBit(a: nat)
    ensures High(7, a) == a / 128 && Low(7, a) == a % 128
  {
    var h := a / 2 / 2 / 2;
    SplitNibble(h);
    assert High(7, a) == High(6, a / 2) == High(5, a / 2 / 2) == High(4, h);
    assert Low(5, a / 2 / 2) == a / 2 / 2 % 2 + 2 * Low(4, h);
    assert Low(6, a / 2) == a / 2 % 2 + 2 * Low(5, a / 2 / 2);
  }

  function Xor(a: Byte, b: Byte): Byte {
    assert Pow2(8) == 256;
    BitXorBound(8, a, b);
    BitXor(a, b)
  }

  /** Multiplication by 2, reduced by the polynomial 285 = 256 + 29 when the top bit is set. */
  function Double(a: Byte): Byte {
    Reduce(a / 128, 2 * (a % 128))
  }

  function Reduce(top: nat, low: Byte): Byte {
    if top == 0 then low else Xor(low, 29)
  }

  function Mul(a: Byte, b: Byte): Byte
    decreases a, 2
  {
    MulLowBit(a, b)
  }

  function MulLowBit(a: Byte, b: Byte): Byte
    decreases a, 1
  {
    MulHighBits(a, b, if a % 2 == 0 then 0 else b)
  }

  function MulHighBits(a: Byte, b: Byte, low: Byte): Byte
    decreases a, 0
  {
    if a == 0 then 0 else Xor(low, Mul(a / 2, Double(b)))
  }

  lemma MulUnfold(a: Byte, b: Byte)
    ensures Mul(a, b) == if a == 0 then 0 else Xor(if a % 2 == 0 then 0 else b, Mul(a / 2, Double(b)))
  {
    assert Mul(a, b) == MulLowBit(a, b) == MulHighBits(a, b, if a % 2 == 0 then 0 else b);
  }

  lemma XorLaws(a: Byte, b: Byte, c: Byte)
    ensures Xor(a, b) == Xor(b, a)
    ensures Xor(Xor(a, b), c) == Xor(a, Xor(b, c))
    ensures Xor(a, 0) == a == Xor(0, a)
    ensures Xor(a, a) == 0
  {
    BitXorCommutes(a, b);
    BitXorAssociates(a, b, c);
    BitXorZero(a); BitXorCommutes(0, a);
    BitXorSelf(a);
  }

  lemma XorSwap(a: Byte, b: Byte, c: Byte, d: Byte)
    ensures Xor(Xor(a, b), Xor(c, d)) == Xor(Xor(a, c), Xor(b, d))
  {
    calc {
      Xor(Xor(a, b), Xor(c, d));
      { XorLaws(a, b, Xor(c, d)); }
      Xor(a, Xor(b, Xor(c, d)));
      { XorLaws(b, c, d); XorLaws(c, b, d); }
      Xor(a, Xor(c, Xor(b, d)));
      { XorLaws(a, c, Xor(b, d)); }
      Xor(Xor(a, c), Xor(b, d));
    }
  }

  lemma OneBitXor(h: nat, h': nat)
    requires h < 2 && h' < 2
    ensures BitXor(h, h') == if h == h' then 0 else 1
  {
    if h == 0 { XorUnfold(0, h'); } else if h' == 0 { BitXorZero(1); } else { BitXorSelf(1); }
  }

  /** The top bit and the seven low bits of an exclusive or. */
  lemma XorTopBit(b: Byte, c: Byte)
    ensures Xor(b, c) % 128 == BitXor(b % 128, c % 128)
    ensures Xor(b, c) / 128 == if b / 128 == c / 128 then 0 else 1
  {
    BitXorHigh(7, b, c); BitXorLow(7, b, c);
    SplitTopBit(b); SplitTopBit(c); SplitTopBit(Xor(b, c));
    OneBitXor(b / 128, c / 128);
  }

  lemma XorOfDoubles(a: nat, b: nat)
    ensures BitXor(2 * a, 2 * b) == 2 * BitXor(a, b)
  {
    TwiceAndLow(a, 0); TwiceAndLow(b, 0);
    XorStep(2 * a, 2 * b);
    TwiceAndLow(BitXor(a, b), 0);
    SameHalves(BitXor(2 * a, 2 * b), 2 * BitXor(a, b));
  }

  lemma DoubleSmall(a: Byte)
    requires a < 128
    ensures Double(a) == 2 * a
  {}

  lemma SetLowBit(h: nat, low: nat)
    requires low < 2
    ensures BitXor(2 * h, low) == 2 * h + low == BitXor(low, 2 * h)
  {
    TwiceAndLow(h, 0); TwiceAndLow(0, low); TwiceAndLow(h, low);
    XorStep(2 * h, low);
    BitXorZero(h);
    SameHalves(BitXor(2 * h, low), low + 2 * h);
    BitXorCommutes(2 * h, low);
  }

  /** The two reductions cancel when both top bits are set. */
  lemma ReduceXor(h: nat, h': nat, x: Byte, y: Byte)
    requires h < 2 && h' < 2
    ensures Reduce(if h == h' then 0 else 1, Xor(x, y)) == Xor(Reduce(h, x), Reduce(h', y))
  {
    XorLaws(x, y, 29);
    if h == 1 && h' == 0 {
      XorLaws(x, 29, y); XorLaws(29, y, 0);
    } else if h == 1 && h' == 1 {
      XorSwap(x, 29, y, 29);
      XorLaws(29, 0, 0);
      XorLaws(Xor(x, y), 0, 0);
    }
  }

  lemma DoubleXor(b: Byte, c: Byte)
    ensures Double(Xor(b, c)) == Xor(Double(b), Double(c))
  {
    XorTopBit(b, c);
    XorOfDoubles(b % 128, c % 128);
    ReduceXor(b / 128, c / 128, 2 * (b % 128), 2 * (c % 128));
  }

  lemma {:induction false} MulXorRight(a: Byte, b: Byte, c: Byte)
    ensures Mul(a, Xor(b, c)) == Xor(Mul(a, b), Mul(a, c))
    decreases a
  {
    MulUnfold(a, Xor(b, c)); MulUnfold(a, b); MulUnfold(a, c);
    XorLaws(0, 0, 0);
    if a != 0 {
      DoubleXor(b, c);
      MulXorRight(a / 2, Double(b), Double(c));
      var zero: Byte := 0;
      XorSwap(if a % 2 == 0 then 0 else b, Mul(a / 2, Double(b)), if a % 2 == 0 then 0 else c, Mul(a / 2, Double(c)));
    }
  }

  lemma MulHalves(s: Byte, c: Byte, x: Byte, y: Byte)
    requires s / 2 == Xor(x, y)
    ensures Mul(s, c) == Xor(if s % 2 == 0 then 0 else c, Mul(Xor(x, y), Double(c)))
  {
    MulUnfold(s, c);
    if s == 0 { MulUnfold(0, Double(c)); XorLaws(0, 0, 0); }
  }

  lemma {:induction false} MulXorLeft(a: Byte, b: Byte, c: Byte)
    ensures Mul(Xor(a, b), c) == Xor(Mul(a, c), Mul(b, c))
    decreases a + b
  {
    if a == 0 {
      XorLaws(b, 0, 0); MulUnfold(0, c); XorLaws(Mul(b, c), 0, 0);
    } else if b == 0 {
      XorLaws(a, 0, 0); MulUnfold(0, c); XorLaws(Mul(a, c), 0, 0);
    } else {
      var la: Byte, lb: Byte := if a % 2 == 0 then 0 else c, if b % 2 == 0 then 0 else c;
      XorHalf(a, b);
      assert (if Xor(a, b) % 2 == 0 then 0 else c)
        == Xor(la, lb) by { XorStep(a, b); XorLaws(c, 0, 0); XorLaws(0, 0, 0); }
      MulXorLeft(a / 2, b / 2, Double(c));
      var x, y := Mul(a / 2, Double(c)), Mul(b / 2, Double(c));
      MulUnfold(a, c); MulUnfold(b, c);
      XorSwap(la, x, lb, y);
      MulHalves(Xor(a, b), c, a / 2, b / 2);
    }
  }

  lemma {:induction false} MulDoubleRight(a: Byte, b: Byte)
    ensures Mul(a, Double(b)) == Double(Mul(a, b))
    decreases a
  {
    MulUnfold(a, Double(b)); MulUnfold(a, b);
    if a != 0 {
      MulDoubleRight(a / 2, Double(b));
      DoubleXor(if a % 2 == 0 then 0 else b, Mul(a / 2, Double(b)));
    }
  }

  lemma MulZero(a: Byte)
    ensures Mul(a, 0) == 0 == Mul(0, a)
  {
    XorLaws(0, 0, 0); XorLaws(Mul(a, 0), 0, 0);
    MulXorRight(a, 0, 0);
    MulUnfold(0, a);
  }

  lemma MulOne(a: Byte)
    ensures Mul(1, a) == a
  {
    MulUnfold(1, a); MulUnfold(0, Double(a)); XorLaws(a, 0, 0);
  }

  lemma {:induction false} MulCommutes(a: Byte, b: Byte)
    ensures Mul(a, b) == Mul(b, a)
    decreases b
  {
    if b == 0 {
      MulZero(a);
    } else {
      var low: Byte := b % 2;
      DoubleSmall(b / 2);
      SetLowBit(b / 2, low);
      assert b == Xor(Double(b / 2), low);
      MulXorRight(a, Double(b / 2), low);
      MulDoubleRight(a, b / 2);
      MulCommutes(a, b / 2);
      MulUnfold(b, a);
      MulDoubleRight(b / 2, a);
      MulZero(a); 
      MulOneRight(a);
      XorLaws(Double(Mul(a, b / 2)), Mul(a, low), 0);
    }
  }

  lemma {:induction false} MulOneRight(a: Byte)
    ensures Mul(a, 1) == a
    decreases a
  {
    MulUnfold(a, 1);
    if a != 0 {
      calc {
        Mul(a, 1);
        Xor(a % 2, Mul(a / 2, Double(1)));
        { MulDoubleRight(a / 2, 1); MulOneRight(a / 2); }
        Xor(a % 2, Double(a / 2));
        { DoubleSmall(a / 2); }
        Xor(a % 2, 2 * (a / 2));
        { SetLowBit(a / 2, a % 2); }
        a;
      }
    }
  }

  lemma {:induction false} MulAssociates(a: Byte, b: Byte, c: Byte)
    ensures Mul(Mul(a, b), c) == Mul(a, Mul(b, c))
    decreases a
  {
    if a == 0 {
      MulZero(b); MulZero(c); MulZero(Mul(b, c));
    } else {
      var low: Byte := if a % 2 == 0 then 0 else b;
      calc {
        Mul(Mul(a, b), c);
        { MulUnfold(a, b); }
        Mul(Xor(low, Mul(a / 2, Double(b))), c);
        { MulXorLeft(low, Mul(a / 2, Double(b)), c); }
        Xor(Mul(low, c), Mul(Mul(a / 2, Double(b)), c));
        { MulAssociates(a / 2, Double(b), c); }
        Xor(Mul(low, c), Mul(a / 2, Mul(Double(b), c)));
        { MulCommutes(Double(b), c); MulDoubleRight(c, b); MulCommutes(c, b); MulZero(c); }
        Xor(if a % 2 == 0 then 0 else Mul(b, c), Mul(a / 2, Double(Mul(b, c))));
        { MulUnfold(a, Mul(b, c)); }
        Mul(a, Mul(b, c));
      }
    }
  }
}
