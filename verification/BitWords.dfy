/** 64-bit words as rows of bits (crates/llvm_poc/runtime/ubel_rt.c). */
module BitWords {

  const ALL: bv64 := 0xFFFF_FFFF_FFFF_FFFF

  function Half(m: bv64): bv64 {
    m >> 1
  }

  function Double(m: bv64): bv64 {
    m << 1
  }

  predicate Odd(m: bv64) {
    m & 1 == 1
  }

  function And(a: bv64, b: bv64): bv64 {
    a & b
  }

  function Or(a: bv64, b: bv64): bv64 {
    a | b
  }

  function Xor(a: bv64, b: bv64): bv64 {
    a ^ b
  }

  function Not(a: bv64): bv64 {
    !a
  }

  function Less(m: bv64): bv64 {
    m - 1
  }

  /** `m >> n`, one place at a time. */
  function Shr(m: bv64, n: nat): bv64
    decreases n
  {
    if n == 0 then m else Shr(Half(m), n - 1)
  }

  /** `m << n`, one place at a time. */
  function Shl(m: bv64, n: nat): bv64
    decreases n
  {
    if n == 0 then m else Shl(Double(m), n - 1)
  }

  /** Bit `j` of a word. */
  predicate Bit(m: bv64, j: nat)
    decreases j
  {
    if j == 0 then Odd(m) else Bit(Half(m), j - 1)
  }

  // ---------------------------------------------------------------- single steps

  lemma StepAnd(a: bv64, b: bv64)
    ensures Half(And(a, b)) == And(Half(a), Half(b)) && Odd(And(a, b)) == (Odd(a) && Odd(b))
  {
  }

  lemma HalfOr(a: bv64, b: bv64)
    ensures Half(Or(a, b)) == Or(Half(a), Half(b))
  {
  }

  lemma OddOr(a: bv64, b: bv64)
    ensures Odd(Or(a, b)) == (Odd(a) || Odd(b))
  {
  }

  lemma StepOr(a: bv64, b: bv64)
    ensures Half(Or(a, b)) == Or(Half(a), Half(b)) && Odd(Or(a, b)) == (Odd(a) || Odd(b))
  {
    hide Half, Odd, Or;
    HalfOr(a, b);
    OddOr(a, b);
  }

  lemma HalfXor(a: bv64, b: bv64)
    ensures Half(Xor(a, b)) == Xor(Half(a), Half(b))
  {
  }

  lemma OddXor(a: bv64, b: bv64)
    ensures Odd(Xor(a, b)) == (Odd(a) != Odd(b))
  {
  }

  lemma StepXor(a: bv64, b: bv64)
    ensures Half(Xor(a, b)) == Xor(Half(a), Half(b)) && Odd(Xor(a, b)) == (Odd(a) != Odd(b))
    ensures Xor(a, b) == 0 ==> a == b
  {
    HalfXor(a, b);
    OddXor(a, b);
    hide Half, Odd;
  }

  lemma StepNot(a: bv64)
    ensures Not(a) == Xor(a, ALL)
  {
  }

  lemma StepZero()
    ensures Half(0) == 0 && !Odd(0) && Half(1) == 0 && Odd(1)
  {
  }

  lemma StepDouble(m: bv64)
    ensures !Odd(Double(m)) && Half(Double(m)) == And(m, Half(ALL))
  {
  }

  lemma StepHalf(m: bv64)
    ensures m != 0 ==> Half(m) < m && (!Odd(m) ==> Half(m) != 0)
  {
  }

  function DoubleOne(y: bv64): bv64 {
    (y << 1) | 1
  }

  predicate NoTop(m: bv64) {
    m & 0x8000_0000_0000_0000 == 0
  }

  lemma EvenLess(m: bv64)
    requires !Odd(m)
    ensures Less(m) == DoubleOne(Less(Half(m)))
  {
  }

  lemma OddLess(m: bv64)
    requires Odd(m)
    ensures Less(m) == And(m, Not(1)) && And(m, And(m, Not(1))) == And(m, Not(1))
  {
  }

  lemma EvenAnd(m: bv64, y: bv64)
    requires !Odd(m)
    ensures And(m, DoubleOne(y)) == Double(And(Half(m), y))
  {
  }

  lemma LessLow(h: bv64)
    requires h != 0 && NoTop(h)
    ensures NoTop(Less(h))
  {
  }

  lemma HalfOdd(y: bv64)
    requires NoTop(y)
    ensures Half(DoubleOne(y)) == y && Odd(DoubleOne(y))
  {
  }

  lemma HalfEven(m: bv64)
    requires !Odd(m) && m != 0
    ensures Half(m) != 0 && NoTop(Half(m))
  {
  }

  lemma StepLess(m: bv64)
    ensures !Odd(m) && m != 0 ==> Half(Less(m)) == Less(Half(m)) && Odd(Less(m))
    ensures Odd(m) ==> And(m, Less(m)) == And(m, Not(1))
    ensures !Odd(m) ==> And(m, Less(m)) == Double(And(Half(m), Less(Half(m))))
  {
    hide Odd, Half, Less, And, Not, Double, DoubleOne, NoTop;
    if Odd(m) {
      OddLess(m);
    } else {
      EvenLess(m);
      EvenAnd(m, Less(Half(m)));
      if m != 0 {
        HalfEven(m);
        LessLow(Half(m));
        HalfOdd(Less(Half(m)));
      }
    }
  }

  // ---------------------------------------------------------------- bits above 63

  lemma {:induction false} ShrAdd(m: bv64, a: nat, b: nat)
    ensures Shr(m, a + b) == Shr(Shr(m, a), b)
    decreases a
  {
    hide Half;
    if a > 0 {
      ShrAdd(Half(m), a - 1, b);
    }
  }

  lemma {:induction false} BitShr(m: bv64, j: nat)
    ensures Bit(m, j) == Odd(Shr(m, j))
    decreases j
  {
    hide Half, Odd;
    if j > 0 {
      BitShr(Half(m), j - 1);
    }
  }

  lemma {:induction false} ShrBit(m: bv64, n: nat, j: nat)
    ensures Bit(Shr(m, n), j) == Bit(m, n + j)
    decreases n
  {
    hide Half, Odd;
    if n > 0 {
      ShrBit(Half(m), n - 1, j);
    }
  }

  lemma {:induction false} ZeroBit(j: nat)
    ensures !Bit(0, j)
    decreases j
  {
    StepZero();
    hide Half, Odd;
    if j > 0 {
      ZeroBit(j - 1);
    }
  }

  function Down4(m: bv64): bv64 {
    m >> 4
  }

  function Down8(m: bv64): bv64 {
    m >> 8
  }

  function Down16(m: bv64): bv64 {
    m >> 16
  }

  function Down32(m: bv64): bv64 {
    m >> 32
  }

  lemma Downs(m: bv64)
    ensures Half(Half(Half(Half(m)))) == Down4(m) && Down4(Down4(m)) == Down8(m)
    ensures Down8(Down8(m)) == Down16(m) && Down16(Down16(m)) == Down32(m) && Down32(Down32(m)) == 0
  {
    HalvesDown(m);
    DownsDown(m);
  }

  lemma HalvesDown(m: bv64)
    ensures Half(Half(Half(Half(m)))) == Down4(m) && Down4(Down4(m)) == Down8(m)
  {
  }

  lemma DownsDown(m: bv64)
    ensures Down8(Down8(m)) == Down16(m) && Down16(Down16(m)) == Down32(m) && Down32(Down32(m)) == 0
  {
  }

  lemma ShrDown(m: bv64)
    ensures Shr(m, 4) == Down4(m) && Shr(m, 3) == Half(Half(Half(m)))
  {
    Downs(m);
    hide Half, Down4, Down8, Down16, Down32;
    assert Shr(m, 4) == Shr(Half(m), 3) == Shr(Half(Half(m)), 2) == Shr(Half(Half(Half(m))), 1);
    assert Shr(m, 3) == Shr(Half(m), 2) == Shr(Half(Half(m)), 1);
  }

  lemma ShrDown8(m: bv64)
    ensures Shr(m, 8) == Down8(m)
  {
    hide Half, Down4, Down8, Down16, Down32, Shr;
    Downs(m);
    ShrDown(m);
    ShrDown(Down4(m));
    ShrAdd(m, 4, 4);
  }

  lemma ShrDown32(m: bv64)
    ensures Shr(m, 16) == Down16(m) && Shr(m, 32) == Down32(m)
  {
    hide Half, Down4, Down8, Down16, Down32, Shr;
    Downs(m);
    ShrDown8(m);
    ShrDown8(Down8(m));
    ShrAdd(m, 8, 8);
    var n := Down16(m);
    Downs(n);
    ShrDown8(n);
    ShrDown8(Down8(n));
    ShrAdd(n, 8, 8);
    ShrAdd(m, 16, 16);
  }

  /** A word has 64 bits. */
  lemma ShrAbove(m: bv64, j: nat)
    requires j >= 64
    ensures Shr(m, j) == 0
  {
    hide Half, Down32, Shr;
    ShrDown32(m);
    ShrDown32(Down32(m));
    Downs(m);
    ShrAdd(m, 32, 32);
    ShrAdd(m, 64, j - 64);
    ShrOfZero(j - 64);
  }

  lemma NoBitAbove(m: bv64, j: nat)
    requires j >= 64
    ensures !Bit(m, j)
  {
    hide Half, Odd, Shr, Bit;
    ShrAbove(m, j);
    BitShr(m, j);
    StepZero();
  }

  // ---------------------------------------------------------------- logical operators

  lemma {:induction false} AndBit(a: bv64, b: bv64, j: nat)
    ensures Bit(And(a, b), j) == (Bit(a, j) && Bit(b, j))
    decreases j
  {
    hide And, Half, Odd;
    StepAnd(a, b);
    if j > 0 {
      AndBit(Half(a), Half(b), j - 1);
    }
  }

  lemma {:induction false} OrBit(a: bv64, b: bv64, j: nat)
    ensures Bit(Or(a, b), j) == (Bit(a, j) || Bit(b, j))
    decreases j
  {
    hide Or, Half, Odd;
    StepOr(a, b);
    if j > 0 {
      OrBit(Half(a), Half(b), j - 1);
    }
  }

  lemma {:induction false} XorBit(a: bv64, b: bv64, j: nat)
    ensures Bit(Xor(a, b), j) == (Bit(a, j) != Bit(b, j))
    decreases j
  {
    hide Xor, Half, Odd;
    StepXor(a, b);
    if j > 0 {
      XorBit(Half(a), Half(b), j - 1);
    }
  }

  /** Nothing but ones, from bit 0 upwards. */
  predicate LowRun(m: bv64) {
    m & (m + 1) == 0
  }

  lemma StepRun(m: bv64)
    requires LowRun(m)
    ensures LowRun(Half(m)) && (m != 0 ==> Odd(m))
  {
  }

  lemma {:induction false} RunBit(m: bv64, j: nat)
    requires LowRun(m) && Shr(m, j) != 0
    ensures Bit(m, j)
    decreases j
  {
    StepRun(m);
    hide LowRun, Half, Odd;
    if j > 0 {
      RunBit(Half(m), j - 1);
    } else {
      assert Shr(m, 0) == m;
    }
  }

  lemma {:induction false} ShrOfZero(n: nat)
    ensures Shr(0, n) == 0
    decreases n
  {
    StepZero();
    hide Half, Odd;
    if n > 0 {
      ShrOfZero(n - 1);
    }
  }

  lemma AllTop()
    ensures Shr(ALL, 63) == 1 && LowRun(ALL)
  {
    assert LowRun(ALL);
    hide Half, Down4, Down8, Down16, Down32, Shr, LowRun;
    var a := Down32(ALL);
    var b := Down16(a);
    var c := Down8(b);
    var d := Down4(c);
    Downs(ALL);
    ShrDown32(ALL);
    ShrDown32(a);
    ShrDown8(b);
    ShrDown(c);
    ShrDown(d);
    ShrAdd(ALL, 32, 16);
    ShrAdd(ALL, 48, 8);
    ShrAdd(ALL, 56, 4);
    ShrAdd(ALL, 60, 3);
    DownsCommute();
  }

  lemma DownsCommute()
    ensures Half(Half(Half(Down4(Down8(Down16(Down32(ALL))))))) == 1
  {
  }

  lemma AllBit(j: nat)
    ensures Bit(ALL, j) == (j < 64)
  {
    hide Half, Odd, LowRun, Bit, Shr;
    if j >= 64 {
      NoBitAbove(ALL, j);
    } else {
      AllTop();
      ShrAdd(ALL, j, 63 - j);
      ShrOfZero(63 - j);
      RunBit(ALL, j);
    }
  }

  lemma NotBit(a: bv64, j: nat)
    ensures Bit(Not(a), j) == (j < 64 && !Bit(a, j))
  {
    StepNot(a);
    hide Not, Xor, Bit;
    XorBit(a, ALL, j);
    AllBit(j);
    if j >= 64 {
      NoBitAbove(a, j);
    }
  }

  // ---------------------------------------------------------------- shifting left

  lemma DoubleBit(m: bv64, j: nat)
    ensures Bit(Double(m), j) == (0 < j < 64 && Bit(m, j - 1))
  {
    StepDouble(m);
    hide Double, Half, Odd, And;
    if j >= 64 {
      NoBitAbove(Double(m), j);
    } else if j > 0 {
      AndBit(m, Half(ALL), j - 1);
      AllBit(j);
    }
  }

  lemma {:induction false} ShlBit(m: bv64, n: nat, j: nat)
    ensures Bit(Shl(m, n), j) == (n <= j < 64 && Bit(m, j - n))
    decreases n
  {
    hide Double, Half, Odd, Bit;
    if n == 0 {
      if j >= 64 {
        NoBitAbove(m, j);
      }
    } else {
      ShlBit(Double(m), n - 1, j);
      if n <= j + 1 {
        DoubleBit(m, j + 1 - n);
      }
    }
  }

  lemma LowOne(j: nat)
    ensures Bit(1, j) == (j == 0)
  {
    StepZero();
    hide Half, Odd;
    if j > 0 {
      ZeroBit(j - 1);
    }
  }

  lemma OneBit(n: nat, j: nat)
    ensures Bit(Shl(1, n), j) == (j == n && j < 64)
  {
    hide Bit, Shl;
    ShlBit(1, n, j);
    if n <= j {
      LowOne(j - n);
    }
  }

  // ---------------------------------------------------------------- words by their bits

  lemma {:induction false} NoBitsUpTo(m: bv64, n: nat)
    requires Shr(m, n) == 0 && forall j: nat :: !Bit(m, j)
    ensures m == 0
    decreases n
  {
    if n > 0 {
      assert !Bit(m, 0);
      StepHalf(m);
      hide Half, Odd;
      forall j: nat
        ensures !Bit(Half(m), j)
      {
        assert !Bit(m, j + 1);
      }
      NoBitsUpTo(Half(m), n - 1);
    }
  }

  lemma NoBits(m: bv64)
    requires forall j: nat :: !Bit(m, j)
    ensures m == 0
  {
    ShrAbove(m, 64);
    NoBitsUpTo(m, 64);
  }

  lemma SameBits(a: bv64, b: bv64)
    requires forall j: nat :: j < 64 ==> Bit(a, j) == Bit(b, j)
    ensures a == b
  {
    hide Xor, Bit;
    forall j: nat
      ensures !Bit(Xor(a, b), j)
    {
      XorBit(a, b, j);
      if j >= 64 {
        NoBitAbove(Xor(a, b), j);
      }
    }
    NoBits(Xor(a, b));
    StepXor(a, b);
  }

  /** The word with the low `n` bits set. */
  function Ones(n: nat): bv64 {
    if n == 64 then ALL else Less(Shl(1, n))
  }

  lemma PowerHalf(n: nat)
    requires 0 < n < 64
    ensures Half(Shl(1, n)) == Shl(1, n - 1) && Shl(1, n) != 0 && !Odd(Shl(1, n))
  {
    assert Odd(Shl(1, n)) == Bit(Shl(1, n), 0);
    forall j: nat
      ensures Bit(Half(Shl(1, n)), j) == Bit(Shl(1, n), j + 1)
    {
    }
    hide Half, Odd, Shl, Bit;
    OneBit(n, 0);
    forall j: nat | j < 64
      ensures Bit(Half(Shl(1, n)), j) == Bit(Shl(1, n - 1), j)
    {
      OneBit(n, j + 1);
      OneBit(n - 1, j);
    }
    SameBits(Half(Shl(1, n)), Shl(1, n - 1));
    OneBit(n, n);
    ZeroBit(n);
  }

  lemma {:induction false} OnesBit(n: nat, j: nat)
    requires n <= 64
    ensures Bit(Ones(n), j) == (j < n)
    decreases n
  {
    hide Half, Odd, Less, Shl;
    if n == 64 {
      AllBit(j);
    } else if n == 0 {
      OnesZero();
      ZeroBit(j);
    } else {
      PowerHalf(n);
      StepLess(Shl(1, n));
      if j > 0 {
        OnesBit(n - 1, j - 1);
      }
    }
  }

  lemma OnesZero()
    ensures Ones(0) == 0
  {
  }

  // ---------------------------------------------------------------- the lowest bit

  /** Clearing the lowest set bit of a word. */
  function ClearLow(m: bv64): bv64 {
    And(m, Less(m))
  }

  lemma {:induction false} ClearLowest(m: bv64, i: nat, j: nat)
    requires Bit(m, i) && forall k: nat :: k < i ==> !Bit(m, k)
    ensures Bit(ClearLow(m), j) == (Bit(m, j) && j != i)
    decreases i
  {
    StepLess(m);
    hide And, Less, Half, Odd, Double, Not;
    if i == 0 {
      AndBit(m, Not(1), j);
      NotBit(1, j);
      LowOne(j);
      if j >= 64 {
        NoBitAbove(m, j);
      }
    } else {
      assert !Bit(m, 0);
      var h := Half(m);
      forall k: nat | k < i - 1
        ensures !Bit(h, k)
      {
        assert !Bit(m, k + 1);
      }
      DoubleBit(And(h, Less(h)), j);
      if j >= 64 {
        NoBitAbove(m, j);
      } else if j > 0 {
        ClearLowest(h, i - 1, j - 1);
      }
    }
  }

  /** The number of zero bits below the lowest set bit. */
  method TrailingZeros(m: bv64) returns (i: nat)
    requires m != 0
    ensures i < 64 && Bit(m, i) && forall j: nat :: j < i ==> !Bit(m, j)
  {
    hide Half, Odd;
    i := 0;
    var x := m;
    while !Odd(x)
      invariant x != 0 && x == Shr(m, i) && i < 64
      invariant forall j: nat :: j < i ==> !Bit(m, j)
      decreases 64 - i
    {
      StepHalf(x);
      ShrAdd(m, i, 1);
      BitShr(m, i);
      if i == 63 {
        ShrAbove(m, 64);
      }
      x, i := Half(x), i + 1;
    }
    BitShr(m, i);
  }
}
