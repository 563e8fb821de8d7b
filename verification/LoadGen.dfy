/** The load generator's counter mixer and integer formatter (examples/loadgen.rs). */
module LoadGen {
  import opened Decimals

  // The mixer's two kinds of step: a xor-shift, and a multiplication modulo 2^64.
  function XorShift30(z: bv64): bv64 { z ^ (z >> 30) }
  function XorShift27(z: bv64): bv64 { z ^ (z >> 27) }
  function XorShift31(z: bv64): bv64 { z ^ (z >> 31) }
  function Times1(z: bv64): bv64 { z * 0xbf58_476d_1ce4_e5b9 }
  function Times2(z: bv64): bv64 { z * 0x94d0_49bb_1331_11eb }

  // Each step undone: the xor-shift repeated until nothing is left of it, or the inverse modulo 2^64.
  function Unshift30(y: bv64): bv64 { y ^ (y >> 30) ^ (y >> 60) }
  function Unshift27(y: bv64): bv64 { y ^ (y >> 27) ^ (y >> 54) }
  function Unshift31(y: bv64): bv64 { y ^ (y >> 31) ^ (y >> 62) }
  function Over1(y: bv64): bv64 { y * 0x96de_1b17_3f11_9089 }
  function Over2(y: bv64): bv64 { y * 0x3196_42b2_d24d_8ec3 }

  /** The splitmix64 finaliser, reassigning its argument as the source does. */
  method Mix(z0: bv64) returns (z: bv64)
    ensures z == Mixed(z0)
    ensures Unmixed(z) == z0
  {
    hide XorShift30, XorShift27, XorShift31, Times1, Times2;
    z := z0;
    z := Times1(XorShift30(z));
    z := Times2(XorShift27(z));
    z := XorShift31(z);
    MixIsBijective(z0);
  }

  function Mixed(z: bv64): bv64 {
    XorShift31(Times2(XorShift27(Times1(XorShift30(z)))))
  }

  /** The mixer run backwards. */
  function Unmixed(y: bv64): bv64 {
    Unshift30(Over1(Unshift27(Over2(Unshift31(y)))))
  }

  // Bit-level facts, one term each, so that every other proof can hide the definitions.

  lemma XorShift30Def(z: bv64) ensures XorShift30(z) == z ^ (z >> 30) {}
  lemma Unshift30Def(z: bv64) ensures Unshift30(z) == z ^ (z >> 30) ^ (z >> 60) {}
  lemma XorShift30Back(z: bv64) ensures Unshift30(z ^ (z >> 30)) == z {}
  lemma Unshift30Back(z: bv64) ensures XorShift30(z ^ (z >> 30) ^ (z >> 60)) == z {}

  lemma XorShift27Def(z: bv64) ensures XorShift27(z) == z ^ (z >> 27) {}
  lemma Unshift27Def(z: bv64) ensures Unshift27(z) == z ^ (z >> 27) ^ (z >> 54) {}
  lemma XorShift27Back(z: bv64) ensures Unshift27(z ^ (z >> 27)) == z {}
  lemma Unshift27Back(z: bv64) ensures XorShift27(z ^ (z >> 27) ^ (z >> 54)) == z {}

  lemma XorShift31Def(z: bv64) ensures XorShift31(z) == z ^ (z >> 31) {}
  lemma Unshift31Def(z: bv64) ensures Unshift31(z) == z ^ (z >> 31) ^ (z >> 62) {}
  lemma XorShift31Back(z: bv64) ensures Unshift31(z ^ (z >> 31)) == z {}
  lemma Unshift31Back(z: bv64) ensures XorShift31(z ^ (z >> 31) ^ (z >> 62)) == z {}

  lemma Times1Def(z: bv64) ensures Times1(z) == z * 0xbf58_476d_1ce4_e5b9 {}
  lemma Over1Def(z: bv64) ensures Over1(z) == z * 0x96de_1b17_3f11_9089 {}
  lemma Times1Back(z: bv64) ensures Over1(z * 0xbf58_476d_1ce4_e5b9) == z {}
  lemma Over1Back(z: bv64) ensures Times1(z * 0x96de_1b17_3f11_9089) == z {}

  lemma Times2Def(z: bv64) ensures Times2(z) == z * 0x94d0_49bb_1331_11eb {}
  lemma Over2Def(z: bv64) ensures Over2(z) == z * 0x3196_42b2_d24d_8ec3 {}
  lemma Times2Back(z: bv64) ensures Over2(z * 0x94d0_49bb_1331_11eb) == z {}
  lemma Over2Back(z: bv64) ensures Times2(z * 0x3196_42b2_d24d_8ec3) == z {}

  lemma XorShift30Inverts(z: bv64)
    ensures Unshift30(XorShift30(z)) == z && XorShift30(Unshift30(z)) == z
  {
    hide XorShift30, Unshift30;
    XorShift30Def(z);
    Unshift30Def(z);
    XorShift30Back(z);
    Unshift30Back(z);
  }

  lemma XorShift27Inverts(z: bv64)
    ensures Unshift27(XorShift27(z)) == z && XorShift27(Unshift27(z)) == z
  {
    hide XorShift27, Unshift27;
    XorShift27Def(z);
    Unshift27Def(z);
    XorShift27Back(z);
    Unshift27Back(z);
  }

  lemma XorShift31Inverts(z: bv64)
    ensures Unshift31(XorShift31(z)) == z && XorShift31(Unshift31(z)) == z
  {
    hide XorShift31, Unshift31;
    XorShift31Def(z);
    Unshift31Def(z);
    XorShift31Back(z);
    Unshift31Back(z);
  }

  lemma Times1Inverts(z: bv64)
    ensures Over1(Times1(z)) == z && Times1(Over1(z)) == z
  {
    hide Times1, Over1;
    Times1Def(z);
    Over1Def(z);
    Times1Back(z);
    Over1Back(z);
  }

  lemma Times2Inverts(z: bv64)
    ensures Over2(Times2(z)) == z && Times2(Over2(z)) == z
  {
    hide Times2, Over2;
    Times2Def(z);
    Over2Def(z);
    Times2Back(z);
    Over2Back(z);
  }

  /** Running the mixer backwards gives the counter back, and forwards again the digest. */
  lemma MixIsBijective(z: bv64)
    ensures Unmixed(Mixed(z)) == z
    ensures Mixed(Unmixed(z)) == z
  {
    hide XorShift30, XorShift27, XorShift31, Times1, Times2, Unshift30, Unshift27, Unshift31, Over1, Over2;
    var a := XorShift30(z);
    var b := XorShift27(Times1(a));
    XorShift30Inverts(z);
    Times1Inverts(a);
    XorShift27Inverts(Times1(a));
    Times2Inverts(b);
    XorShift31Inverts(Times2(b));

    var c := Unshift31(z);
    var d := Unshift27(Over2(c));
    XorShift31Inverts(z);
    Times2Inverts(c);
    XorShift27Inverts(Over2(c));
    Times1Inverts(d);
    XorShift30Inverts(Over1(d));
  }

  /** Hashes derived from distinct counters never collide. */
  lemma DistinctCountersNeverCollide(x: bv64, y: bv64)
    ensures Mixed(x) == Mixed(y) <==> x == y
  {
    hide Mixed, Unmixed;
    MixIsBijective(x);
    MixIsBijective(y);
  }

  /** `s` holds the low digits of n0 and n what is left of it to write. */
  ghost predicate Partial(n0: nat, n: nat, s: string) {
    AllDigits(s) && n * Pow10(|s|) + Value(s) == n0
  }

  /** Writing the last digit of n in front of `s` moves a factor of ten into the text. */
  lemma PutDigit(n0: nat, n: nat, s: string)
    requires Partial(n0, n, s)
    ensures Partial(n0, n / 10, [Digit(n)] + s)
  {
    ValueOfCons(Digit(n), s);
    var p := Pow10(|s|);
    assert Pow10(|s| + 1) == 10 * p;
    CarryTen(n / 10, n % 10, p);
  }

  lemma CarryTen(q: nat, r: nat, p: nat)
    ensures q * (10 * p) + r * p == (10 * q + r) * p
  {
  }

  const TOO_BIG: nat := 0x1_0000_0000_0000_0000

  /** Digits are written backwards into a 20-byte buffer, which a 64-bit number cannot outgrow. */
  method Itoa(n0: nat) returns (s: string)
    requires n0 < TOO_BIG
    ensures s == Decimal(n0) && |s| <= 20
  {
    hide Partial, Value;
    var n: nat := n0;
    if n == 0 {
      return "0";
    }
    var buf := new char[20](_ => '\0');
    var i := 20;
    assert Pow10(20) == 100_000_000_000_000_000_000 by { Powers(); }
    NoneWritten(n0);
    assert buf[20..] == "";
    while n > 0
      invariant 0 <= i <= 20
      invariant n < Pow10(i)
      invariant Partial(n0, n, buf[i..])
      invariant n == 0 ==> i < 20 && buf[i] != '0'
    {
      PutDigit(n0, n, buf[i..]);
      ghost var rest := buf[i..];
      assert Pow10(0) == 1;
      assert Pow10(i) == 10 * Pow10(i - 1);
      i := i - 1;
      buf[i] := Digit(n);
      assert buf[i..] == [Digit(n)] + rest;
      n := n / 10;
    }
    s := buf[i..];
    AllWritten(n0, s);
  }

  lemma NoneWritten(n0: nat)
    ensures Partial(n0, n0, "")
  {
  }

  lemma AllWritten(n0: nat, s: string)
    requires Partial(n0, 0, s) && s != [] && s[0] != '0'
    ensures s == Decimal(n0)
  {
    assert 0 * Pow10(|s|) == 0;
    CanonicalIsDecimal(s);
  }

  lemma Powers()
    ensures Pow10(20) == 100_000_000_000_000_000_000
  {
    assert Pow10(5) == 100_000;
    assert Pow10(10) == 10_000_000_000;
    assert Pow10(15) == 1_000_000_000_000_000;
  }
}

