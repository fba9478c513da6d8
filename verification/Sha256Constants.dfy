/** Where the constants of SHA-256 come from: sections 4.2.2 and 5.3.3 of FIPS 180-4.  */
module Sha256Constants {
  import opened Sha256

  /** The first sixty-four primes.  */
  const PRIMES: seq<nat> := P0 + P1 + P2 + P3 + P4 + P5 + P6 + P7

  const P0: seq<nat> := [2, 3, 5, 7, 11, 13, 17, 19]
  const P1: seq<nat> := [23, 29, 31, 37, 41, 43, 47, 53]
  const P2: seq<nat> := [59, 61, 67, 71, 73, 79, 83, 89]
  const P3: seq<nat> := [97, 101, 103, 107, 109, 113, 127, 131]
  const P4: seq<nat> := [137, 139, 149, 151, 157, 163, 167, 173]
  const P5: seq<nat> := [179, 181, 191, 193, 197, 199, 211, 223]
  const P6: seq<nat> := [227, 229, 233, 239, 241, 251, 257, 263]
  const P7: seq<nat> := [269, 271, 277, 281, 283, 293, 307, 311]

  /** A whole part and thirty-two bits of fraction are the cube root of a number, cut off there.  */
  ghost predicate IsCubeRoot(whole: nat, fraction: Word, n: nat) {
    var x := 0x1_0000_0000 * whole + fraction as nat;
    x * x * x <= 0x1_0000_0000_0000_0000_0000_0000 * n < (x + 1) * (x + 1) * (x + 1)
  }

  ghost predicate IsSquareRoot(whole: nat, fraction: Word, n: nat) {
    var x := 0x1_0000_0000 * whole + fraction as nat;
    x * x <= 0x1_0000_0000_0000_0000 * n < (x + 1) * (x + 1)
  }

  ghost predicate OfCubeRoot(fraction: Word, n: nat) {
    exists whole: nat :: IsCubeRoot(whole, fraction, n)
  }

  ghost predicate OfSquareRoot(fraction: Word, n: nat) {
    exists whole: nat :: IsSquareRoot(whole, fraction, n)
  }

  ghost predicate OfCubeRoots(fractions: seq<Word>, ns: seq<nat>) {
    |fractions| == |ns| && forall i :: 0 <= i < |ns| ==> OfCubeRoot(fractions[i], ns[i])
  }

  lemma Row0()
    ensures OfCubeRoots(K0, P0)
  {
    assert OfCubeRoot(0x428a2f98, 2) by { assert IsCubeRoot(1, 0x428a2f98, 2); }
    assert OfCubeRoot(0x71374491, 3) by { assert IsCubeRoot(1, 0x71374491, 3); }
    assert OfCubeRoot(0xb5c0fbcf, 5) by { assert IsCubeRoot(1, 0xb5c0fbcf, 5); }
    assert OfCubeRoot(0xe9b5dba5, 7) by { assert IsCubeRoot(1, 0xe9b5dba5, 7); }
    assert OfCubeRoot(0x3956c25b, 11) by { assert IsCubeRoot(2, 0x3956c25b, 11); }
    assert OfCubeRoot(0x59f111f1, 13) by { assert IsCubeRoot(2, 0x59f111f1, 13); }
    assert OfCubeRoot(0x923f82a4, 17) by { assert IsCubeRoot(2, 0x923f82a4, 17); }
    assert OfCubeRoot(0xab1c5ed5, 19) by { assert IsCubeRoot(2, 0xab1c5ed5, 19); }
  }

  lemma Row1()
    ensures OfCubeRoots(K1, P1)
  {
    assert OfCubeRoot(0xd807aa98, 23) by { assert IsCubeRoot(2, 0xd807aa98, 23); }
    assert OfCubeRoot(0x12835b01, 29) by { assert IsCubeRoot(3, 0x12835b01, 29); }
    assert OfCubeRoot(0x243185be, 31) by { assert IsCubeRoot(3, 0x243185be, 31); }
    assert OfCubeRoot(0x550c7dc3, 37) by { assert IsCubeRoot(3, 0x550c7dc3, 37); }
    assert OfCubeRoot(0x72be5d74, 41) by { assert IsCubeRoot(3, 0x72be5d74, 41); }
    assert OfCubeRoot(0x80deb1fe, 43) by { assert IsCubeRoot(3, 0x80deb1fe, 43); }
    assert OfCubeRoot(0x9bdc06a7, 47) by { assert IsCubeRoot(3, 0x9bdc06a7, 47); }
    assert OfCubeRoot(0xc19bf174, 53) by { assert IsCubeRoot(3, 0xc19bf174, 53); }
  }

  lemma Row2()
    ensures OfCubeRoots(K2, P2)
  {
    assert OfCubeRoot(0xe49b69c1, 59) by { assert IsCubeRoot(3, 0xe49b69c1, 59); }
    assert OfCubeRoot(0xefbe4786, 61) by { assert IsCubeRoot(3, 0xefbe4786, 61); }
    assert OfCubeRoot(0x0fc19dc6, 67) by { assert IsCubeRoot(4, 0x0fc19dc6, 67); }
    assert OfCubeRoot(0x240ca1cc, 71) by { assert IsCubeRoot(4, 0x240ca1cc, 71); }
    assert OfCubeRoot(0x2de92c6f, 73) by { assert IsCubeRoot(4, 0x2de92c6f, 73); }
    assert OfCubeRoot(0x4a7484aa, 79) by { assert IsCubeRoot(4, 0x4a7484aa, 79); }
    assert OfCubeRoot(0x5cb0a9dc, 83) by { assert IsCubeRoot(4, 0x5cb0a9dc, 83); }
    assert OfCubeRoot(0x76f988da, 89) by { assert IsCubeRoot(4, 0x76f988da, 89); }
  }

  lemma Row3()
    ensures OfCubeRoots(K3, P3)
  {
    assert OfCubeRoot(0x983e5152, 97) by { assert IsCubeRoot(4, 0x983e5152, 97); }
    assert OfCubeRoot(0xa831c66d, 101) by { assert IsCubeRoot(4, 0xa831c66d, 101); }
    assert OfCubeRoot(0xb00327c8, 103) by { assert IsCubeRoot(4, 0xb00327c8, 103); }
    assert OfCubeRoot(0xbf597fc7, 107) by { assert IsCubeRoot(4, 0xbf597fc7, 107); }
    assert OfCubeRoot(0xc6e00bf3, 109) by { assert IsCubeRoot(4, 0xc6e00bf3, 109); }
    assert OfCubeRoot(0xd5a79147, 113) by { assert IsCubeRoot(4, 0xd5a79147, 113); }
    assert OfCubeRoot(0x06ca6351, 127) by { assert IsCubeRoot(5, 0x06ca6351, 127); }
    assert OfCubeRoot(0x14292967, 131) by { assert IsCubeRoot(5, 0x14292967, 131); }
  }

  lemma Row4()
    ensures OfCubeRoots(K4, P4)
  {
    assert OfCubeRoot(0x27b70a85, 137) by { assert IsCubeRoot(5, 0x27b70a85, 137); }
    assert OfCubeRoot(0x2e1b2138, 139) by { assert IsCubeRoot(5, 0x2e1b2138, 139); }
    assert OfCubeRoot(0x4d2c6dfc, 149) by { assert IsCubeRoot(5, 0x4d2c6dfc, 149); }
    assert OfCubeRoot(0x53380d13, 151) by { assert IsCubeRoot(5, 0x53380d13, 151); }
    assert OfCubeRoot(0x650a7354, 157) by { assert IsCubeRoot(5, 0x650a7354, 157); }
    assert OfCubeRoot(0x766a0abb, 163) by { assert IsCubeRoot(5, 0x766a0abb, 163); }
    assert OfCubeRoot(0x81c2c92e, 167) by { assert IsCubeRoot(5, 0x81c2c92e, 167); }
    assert OfCubeRoot(0x92722c85, 173) by { assert IsCubeRoot(5, 0x92722c85, 173); }
  }

  lemma Row5()
    ensures OfCubeRoots(K5, P5)
  {
    assert OfCubeRoot(0xa2bfe8a1, 179) by { assert IsCubeRoot(5, 0xa2bfe8a1, 179); }
    assert OfCubeRoot(0xa81a664b, 181) by { assert IsCubeRoot(5, 0xa81a664b, 181); }
    assert OfCubeRoot(0xc24b8b70, 191) by { assert IsCubeRoot(5, 0xc24b8b70, 191); }
    assert OfCubeRoot(0xc76c51a3, 193) by { assert IsCubeRoot(5, 0xc76c51a3, 193); }
    assert OfCubeRoot(0xd192e819, 197) by { assert IsCubeRoot(5, 0xd192e819, 197); }
    assert OfCubeRoot(0xd6990624, 199) by { assert IsCubeRoot(5, 0xd6990624, 199); }
    assert OfCubeRoot(0xf40e3585, 211) by { assert IsCubeRoot(5, 0xf40e3585, 211); }
    assert OfCubeRoot(0x106aa070, 223) by { assert IsCubeRoot(6, 0x106aa070, 223); }
  }

  lemma Row6()
    ensures OfCubeRoots(K6, P6)
  {
    assert OfCubeRoot(0x19a4c116, 227) by { assert IsCubeRoot(6, 0x19a4c116, 227); }
    assert OfCubeRoot(0x1e376c08, 229) by { assert IsCubeRoot(6, 0x1e376c08, 229); }
    assert OfCubeRoot(0x2748774c, 233) by { assert IsCubeRoot(6, 0x2748774c, 233); }
    assert OfCubeRoot(0x34b0bcb5, 239) by { assert IsCubeRoot(6, 0x34b0bcb5, 239); }
    assert OfCubeRoot(0x391c0cb3, 241) by { assert IsCubeRoot(6, 0x391c0cb3, 241); }
    assert OfCubeRoot(0x4ed8aa4a, 251) by { assert IsCubeRoot(6, 0x4ed8aa4a, 251); }
    assert OfCubeRoot(0x5b9cca4f, 257) by { assert IsCubeRoot(6, 0x5b9cca4f, 257); }
    assert OfCubeRoot(0x682e6ff3, 263) by { assert IsCubeRoot(6, 0x682e6ff3, 263); }
  }

  lemma Row7()
    ensures OfCubeRoots(K7, P7)
  {
    assert OfCubeRoot(0x748f82ee, 269) by { assert IsCubeRoot(6, 0x748f82ee, 269); }
    assert OfCubeRoot(0x78a5636f, 271) by { assert IsCubeRoot(6, 0x78a5636f, 271); }
    assert OfCubeRoot(0x84c87814, 277) by { assert IsCubeRoot(6, 0x84c87814, 277); }
    assert OfCubeRoot(0x8cc70208, 281) by { assert IsCubeRoot(6, 0x8cc70208, 281); }
    assert OfCubeRoot(0x90befffa, 283) by { assert IsCubeRoot(6, 0x90befffa, 283); }
    assert OfCubeRoot(0xa4506ceb, 293) by { assert IsCubeRoot(6, 0xa4506ceb, 293); }
    assert OfCubeRoot(0xbef9a3f7, 307) by { assert IsCubeRoot(6, 0xbef9a3f7, 307); }
    assert OfCubeRoot(0xc67178f2, 311) by { assert IsCubeRoot(6, 0xc67178f2, 311); }
  }

  lemma Joined(a: seq<Word>, b: seq<Word>, m: seq<nat>, n: seq<nat>)
    requires OfCubeRoots(a, m) && OfCubeRoots(b, n)
    ensures OfCubeRoots(a + b, m + n)
  {}

  /** The round constants are the first thirty-two bits of the fractions of the cube roots of the primes.  */
  lemma RoundConstants()
    ensures |PRIMES| == 64 && OfCubeRoots(K, PRIMES)
  {
    hide OfCubeRoot;
    Row0();
    Row1();
    Row2();
    Row3();
    Row4();
    Row5();
    Row6();
    Row7();
    Joined(K0, K1, P0, P1);
    Joined(K0 + K1, K2, P0 + P1, P2);
    Joined(K0 + K1 + K2, K3, P0 + P1 + P2, P3);
    Joined(K4, K5, P4, P5);
    Joined(K4 + K5, K6, P4 + P5, P6);
    Joined(K4 + K5 + K6, K7, P4 + P5 + P6, P7);
    Joined(K_LOW, K_HIGH, P0 + P1 + P2 + P3, P4 + P5 + P6 + P7);
    assert PRIMES == (P0 + P1 + P2 + P3) + (P4 + P5 + P6 + P7);
  }

  /** The first hash value holds those of the square roots of the first eight.  */
  lemma FirstHash()
    ensures OfSquareRoot(H0.a, 2) && OfSquareRoot(H0.b, 3) && OfSquareRoot(H0.c, 5) && OfSquareRoot(H0.d, 7)
    ensures OfSquareRoot(H0.e, 11) && OfSquareRoot(H0.f, 13) && OfSquareRoot(H0.g, 17) && OfSquareRoot(H0.h, 19)
  {
    assert OfSquareRoot(0x6a09e667, 2) by { assert IsSquareRoot(1, 0x6a09e667, 2); }
    assert OfSquareRoot(0xbb67ae85, 3) by { assert IsSquareRoot(1, 0xbb67ae85, 3); }
    assert OfSquareRoot(0x3c6ef372, 5) by { assert IsSquareRoot(2, 0x3c6ef372, 5); }
    assert OfSquareRoot(0xa54ff53a, 7) by { assert IsSquareRoot(2, 0xa54ff53a, 7); }
    assert OfSquareRoot(0x510e527f, 11) by { assert IsSquareRoot(3, 0x510e527f, 11); }
    assert OfSquareRoot(0x9b05688c, 13) by { assert IsSquareRoot(3, 0x9b05688c, 13); }
    assert OfSquareRoot(0x1f83d9ab, 17) by { assert IsSquareRoot(4, 0x1f83d9ab, 17); }
    assert OfSquareRoot(0x5be0cd19, 19) by { assert IsSquareRoot(4, 0x5be0cd19, 19); }
  }
}
