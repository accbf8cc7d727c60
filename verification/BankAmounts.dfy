/** How an amount of the bank, decimal reais read and multiplied as doubles, is
    turned into cents. */
module BankAmounts {
  import opened Wrappers
  import opened Doubles

  const MAX_SAFE: int := 9007199254740991

  // The double written 0.00001.
  const TOLERANCE: real := 5902958103587057.0 / 590295810358705651712.0

  // The number that is read, times a hundred.
  function Product(value: real): real { Nearest(Nearest(value) * 100.0) }

  // Neither the difference nor the half added before rounding down is rounded.
  function BankCents(value: real): Option<int> {
    var product := Product(value);
    var cents := (product + 0.5).Floor;
    var error := product - cents as real;
    if value >= 0.0 && cents <= MAX_SAFE && -TOLERANCE <= error <= TOLERANCE then Some(cents) else None
  }

  function Reais(cents: int): real { cents as real / 100.0 }

  // An amount is read as the cents that the computed product is close to.
  lemma ReadExactlyWhenClose(value: real, cents: int)
    ensures BankCents(value) == Some(cents) <==>
              && value >= 0.0 && cents <= 9007199254740991
              && -TOLERANCE <= Product(value) - cents as real <= TOLERANCE
  {
    var error := Product(value) - cents as real;
    if -TOLERANCE <= error <= TOLERANCE {
      assert (Product(value) + 0.5).Floor == cents;
    }
  }

  lemma MiddlePowers()
    ensures Pow2(30) == 1073741824.0 && Pow2(31) == 2147483648.0 && Pow2(32) == 4294967296.0
    ensures Pow2(36) == 68719476736.0 && Pow2(37) == 137438953472.0
  {
    SixteenUp(0);
    SixteenUp(16);
    OneUp(31);
    OneUp(30);
    FourUp(32);
    OneUp(36);
  }

  lemma LargePowers()
    ensures Pow2(46) == 70368744177664.0 && Pow2(47) == 140737488355328.0
    ensures Pow2(52) == 4503599627370496.0 && Pow2(53) == 9007199254740992.0
  {
    MiddlePowers();
    SixteenUp(32);
    OneUp(47);
    OneUp(46);
    FourUp(48);
    OneUp(52);
  }

  lemma SmallPowers()
    ensures Pow2(0) == 1.0 && Pow2(-1) == 1.0 / 2.0 && Pow2(-6) == 1.0 / 64.0 && Pow2(-7) == 1.0 / 128.0
    ensures Pow2(-16) == 1.0 / 65536.0 && Pow2(-17) == 1.0 / 131072.0
    ensures Pow2(-22) == 1.0 / 4194304.0 && Pow2(-23) == 1.0 / 8388608.0
  {
    OneUp(-1);
    FourUp(-5);
    OneUp(-6);
    OneUp(-7);
    SixteenUp(-16);
    OneUp(-17);
    SixteenUp(-22);
    OneUp(-23);
  }

  lemma ToleranceIsNearest()
    ensures TOLERANCE == Nearest(0.00001)
  {
    SmallPowers();
    SixteenUp(-33);
    SixteenUp(-49);
    SixteenUp(-65);
    FourUp(-69);
    NearestIs(0.00001, 5902958103587057, -69, 1.0 / 590295810358705651712.0);
  }

  /// Every amount comes back exactly up to 107374182408 cents

  // An amount is sent as the double nearest to it, so its hundredfold is off.
  lemma ReadingIsNear(cents: nat)
    requires cents < 107374182400
    ensures -100.0 / 16777216.0 <= Nearest(Reais(cents)) * 100.0 - cents as real <= 100.0 / 16777216.0
  {
    MiddlePowers();
    SmallPowers();
    NearestIsNear(Reais(cents), -23);
  }

  // Where the places of the product are wide it snaps back to the whole cents.
  lemma ComesBack(cents: nat)
    requires cents < 107374182400
    ensures BankCents(Reais(cents)) == Some(cents)
  {
    var x := Nearest(Reais(cents)) * 100.0;
    ReadingIsNear(cents);
    MiddlePowers();
    SmallPowers();
    if x < Pow2(36) {
      NearestIsNear(x, -17);
    } else {
      NearestIs(x, cents * 65536, -16, 1.0 / 65536.0);
    }
    ReadExactlyWhenClose(Reais(cents), cents);
  }

  // From there on the places of the number read and of the product are known.
  lemma ReadAs(x: real, m: int)
    requires 1073741824.0 <= x < 2147483648.0 && Closest(x, m, 1.0 / 4194304.0)
    ensures Nearest(x) == m as real / 4194304.0
  {
    assert Pow2(30) == 1073741824.0 && Pow2(31) == 2147483648.0 && Pow2(-22) == 1.0 / 4194304.0 by {
      MiddlePowers();
      SmallPowers();
    }
    NearestIs(x, m, -22, 1.0 / 4194304.0);
  }

  lemma MultipliedAs(x: real, n: int)
    requires 68719476736.0 <= x < 137438953472.0 && Closest(x, n, 1.0 / 65536.0)
    ensures Nearest(x) == n as real / 65536.0
  {
    assert Pow2(36) == 68719476736.0 && Pow2(37) == 137438953472.0 && Pow2(-16) == 1.0 / 65536.0 by {
      MiddlePowers();
      SmallPowers();
    }
    NearestIs(x, n, -16, 1.0 / 65536.0);
  }

  lemma Computed(cents: nat, m: int, n: int)
    requires 107374182400 <= cents < 137438953400
    requires Closest(Reais(cents), m, 1.0 / 4194304.0) && Closest(m as real / 4194304.0 * 100.0, n, 1.0 / 65536.0)
    ensures Product(Reais(cents)) == n as real / 65536.0
  {
    ReadAs(Reais(cents), m);
    MultipliedAs(m as real / 4194304.0 * 100.0, n);
  }

  // Nine more amounts come back, the last because a tie goes to the even number.
  lemma NineMoreComeBack(j: nat)
    requires j <= 8
    ensures BankCents(Reais(107374182400 + j)) == Some(107374182400 + j)
  {
    var cents := 107374182400 + j;
    Computed(cents, 4503599627370496 + 41943 * j, cents * 65536);
    ReadExactlyWhenClose(Reais(cents), cents);
  }

  // The product of 1073741824.09 is one place short of the cents and is refused.
  lemma FirstRefused()
    ensures Product(Reais(107374182409)) == 107374182409.0 - 1.0 / 65536.0
    ensures BankCents(Reais(107374182409)) == None
  {
    Computed(107374182409, 4503599627747983, 107374182409 * 65536 - 1);
    assert (Product(Reais(107374182409)) + 0.5).Floor == 107374182409;
  }

  lemma EveryAmountComesBackExactlyUpTo(n: nat)
    ensures (forall cents: nat | cents <= n :: BankCents(Reais(cents)) == Some(cents)) <==> n <= 107374182408
  {
    if n <= 107374182408 {
      forall cents: nat | cents <= n ensures BankCents(Reais(cents)) == Some(cents) {
        if cents < 107374182400 {
          ComesBack(cents);
        } else {
          NineMoreComeBack(cents - 107374182400);
        }
      }
    } else {
      FirstRefused();
    }
  }

  /// No amount is read as another exactly up to 7036874417766400 cents

  predicate ReadRight(cents: nat) {
    BankCents(Reais(cents)).None? || BankCents(Reais(cents)) == Some(cents)
  }

  lemma NearIsReadRight(cents: nat)
    ensures -0.75 < Product(Reais(cents)) - cents as real < 0.75 ==> ReadRight(cents)
  {
    var product := Product(Reais(cents));
    if -0.75 < product - cents as real < 0.75 {
      var read := (product + 0.5).Floor;
      assert read == cents || !(-TOLERANCE <= product - read as real <= TOLERANCE);
    }
  }

  lemma ReadRightBelow(cents: nat)
    requires cents < 7036874417766400
    ensures ReadRight(cents)
  {
    var x := Nearest(Reais(cents)) * 100.0;
    LargePowers();
    SmallPowers();
    NearestIsNear(Reais(cents), -7);
    if x < Pow2(52) {
      NearestIsNear(x, -1);
    } else {
      NearestIs(x, cents, 0, 1.0);
    }
    NearIsReadRight(cents);
  }

  lemma LastReadRight()
    ensures ReadRight(7036874417766400)
  {
    LargePowers();
    SmallPowers();
    NearestIs(Reais(7036874417766400), 4503599627370496, -6, 1.0 / 64.0);
    NearestIs(7036874417766400.0, 7036874417766400, 0, 1.0);
  }

  // 70368744177664.01 is read as one cent more.
  lemma FirstMistaken()
    ensures BankCents(Reais(7036874417766401)) == Some(7036874417766402)
  {
    LargePowers();
    SmallPowers();
    NearestIs(Reais(7036874417766401), 4503599627370497, -6, 1.0 / 64.0);
    NearestIs(4503599627370497.0 / 64.0 * 100.0, 7036874417766402, 0, 1.0);
    ReadExactlyWhenClose(Reais(7036874417766401), 7036874417766402);
  }

  lemma ReadRightUpTo(cents: nat)
    requires cents <= 7036874417766400
    ensures ReadRight(cents)
  {
    if cents == 7036874417766400 {
      LastReadRight();
      assert cents == 7036874417766400;
    } else {
      ReadRightBelow(cents);
    }
  }

  lemma NoAmountIsMistakenExactlyUpTo(n: nat)
    ensures (forall cents: nat | cents <= n :: ReadRight(cents)) <==> n <= 7036874417766400
  {
    if n <= 7036874417766400 {
      forall cents: nat | cents <= n ensures ReadRight(cents) {
        ReadRightUpTo(cents);
      }
    } else {
      FirstMistaken();
      assert !ReadRight(7036874417766401);
    }
  }
}
