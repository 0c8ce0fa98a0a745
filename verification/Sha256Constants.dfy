/** The constants of SHA-256 in hash.c, against what sections 4.2.2 and 5.3.3 of FIPS 180-4 say
    they are: fractional parts of cube and square roots of the first primes. */
module Sha256Constants {
  const TWO32 := 0x1_0000_0000

  /** The round constants. */
  function K256(t: nat): (k: nat)
    ensures k < TWO32
  {
    if t < 16 then
      match t
      case 0 => 0x428a2f98 case 1 => 0x71374491 case 2 => 0xb5c0fbcf case 3 => 0xe9b5dba5
      case 4 => 0x3956c25b case 5 => 0x59f111f1 case 6 => 0x923f82a4 case 7 => 0xab1c5ed5
      case 8 => 0xd807aa98 case 9 => 0x12835b01 case 10 => 0x243185be case 11 => 0x550c7dc3
      case 12 => 0x72be5d74 case 13 => 0x80deb1fe case 14 => 0x9bdc06a7 case _ => 0xc19bf174
    else if t < 32 then
      match t - 16
      case 0 => 0xe49b69c1 case 1 => 0xefbe4786 case 2 => 0x0fc19dc6 case 3 => 0x240ca1cc
      case 4 => 0x2de92c6f case 5 => 0x4a7484aa case 6 => 0x5cb0a9dc case 7 => 0x76f988da
      case 8 => 0x983e5152 case 9 => 0xa831c66d case 10 => 0xb00327c8 case 11 => 0xbf597fc7
      case 12 => 0xc6e00bf3 case 13 => 0xd5a79147 case 14 => 0x06ca6351 case _ => 0x14292967
    else if t < 48 then
      match t - 32
      case 0 => 0x27b70a85 case 1 => 0x2e1b2138 case 2 => 0x4d2c6dfc case 3 => 0x53380d13
      case 4 => 0x650a7354 case 5 => 0x766a0abb case 6 => 0x81c2c92e case 7 => 0x92722c85
      case 8 => 0xa2bfe8a1 case 9 => 0xa81a664b case 10 => 0xc24b8b70 case 11 => 0xc76c51a3
      case 12 => 0xd192e819 case 13 => 0xd6990624 case 14 => 0xf40e3585 case _ => 0x106aa070
    else
      match t - 48
      case 0 => 0x19a4c116 case 1 => 0x1e376c08 case 2 => 0x2748774c case 3 => 0x34b0bcb5
      case 4 => 0x391c0cb3 case 5 => 0x4ed8aa4a case 6 => 0x5b9cca4f case 7 => 0x682e6ff3
      case 8 => 0x748f82ee case 9 => 0x78a5636f case 10 => 0x84c87814 case 11 => 0x8cc70208
      case 12 => 0x90befffa case 13 => 0xa4506ceb case 14 => 0xbef9a3f7 case _ => 0xc67178f2
  }

  /** The initial chaining words. */
  function Initial(t: nat): (h: nat)
    ensures h < TWO32
  {
    match t
    case 0 => 0x6a09e667 case 1 => 0xbb67ae85 case 2 => 0x3c6ef372 case 3 => 0xa54ff53a
    case 4 => 0x510e527f case 5 => 0x9b05688c case 6 => 0x1f83d9ab case _ => 0x5be0cd19
  }

  /** The first 64 primes. */
  function Prime(t: nat): (r: nat) {
    if t < 16 then
      match t
      case 0 => 2 case 1 => 3 case 2 => 5 case 3 => 7
      case 4 => 11 case 5 => 13 case 6 => 17 case 7 => 19
      case 8 => 23 case 9 => 29 case 10 => 31 case 11 => 37
      case 12 => 41 case 13 => 43 case 14 => 47 case _ => 53
    else if t < 32 then
      match t - 16
      case 0 => 59 case 1 => 61 case 2 => 67 case 3 => 71
      case 4 => 73 case 5 => 79 case 6 => 83 case 7 => 89
      case 8 => 97 case 9 => 101 case 10 => 103 case 11 => 107
      case 12 => 109 case 13 => 113 case 14 => 127 case _ => 131
    else if t < 48 then
      match t - 32
      case 0 => 137 case 1 => 139 case 2 => 149 case 3 => 151
      case 4 => 157 case 5 => 163 case 6 => 167 case 7 => 173
      case 8 => 179 case 9 => 181 case 10 => 191 case 11 => 193
      case 12 => 197 case 13 => 199 case 14 => 211 case _ => 223
    else
      match t - 48
      case 0 => 227 case 1 => 229 case 2 => 233 case 3 => 239
      case 4 => 241 case 5 => 251 case 6 => 257 case 7 => 263
      case 8 => 269 case 9 => 271 case 10 => 277 case 11 => 281
      case 12 => 283 case 13 => 293 case 14 => 307 case _ => 311
  }

  /** k is the first 32 bits of the fractional part of the cube root of p. */
  ghost predicate CubeRootBits(p: nat, k: nat) {
    k < TWO32 && exists whole: nat :: CubeRootIs(p, whole, k)
  }

  /** The cube root of p lies between whole + k / 2^32 and the next such number. */
  predicate CubeRootIs(p: nat, whole: nat, k: nat) {
    var v := whole * TWO32 + k;
    v * v * v <= p * TWO32 * TWO32 * TWO32 < (v + 1) * (v + 1) * (v + 1)
  }

  ghost predicate SquareRootBits(p: nat, k: nat) {
    k < TWO32 && exists whole: nat :: SquareRootIs(p, whole, k)
  }

  predicate SquareRootIs(p: nat, whole: nat, k: nat) {
    var v := whole * TWO32 + k;
    v * v <= p * TWO32 * TWO32 < (v + 1) * (v + 1)
  }

  function SquareRoot(p: nat): (r: nat) {
    if p < 4 then 1 else if p < 9 then 2 else if p < 16 then 3 else 4
  }

  /** The first n round constants are right. */
  ghost predicate RightUpTo(n: nat) {
    forall t: nat :: t < n ==> CubeRootBits(Prime(t), K256(t))
  }

  lemma NextRight(n: nat, whole: nat)
    requires RightUpTo(n) && CubeRootIs(Prime(n), whole, K256(n))
    ensures RightUpTo(n + 1)
  {
    hide CubeRootIs, Prime, K256;
    assert CubeRootBits(Prime(n), K256(n));
  }

  lemma Right8()
    ensures RightUpTo(8)
  {
    hide RightUpTo;
    NothingYet();
    NextRight(0, 1); NextRight(1, 1); NextRight(2, 1); NextRight(3, 1);
    NextRight(4, 2); NextRight(5, 2); NextRight(6, 2); NextRight(7, 2);
  }

  lemma Right16()
    ensures RightUpTo(16)
  {
    hide RightUpTo;
    Right8();
    NextRight(8, 2); NextRight(9, 3); NextRight(10, 3); NextRight(11, 3);
    NextRight(12, 3); NextRight(13, 3); NextRight(14, 3); NextRight(15, 3);
  }

  lemma Right24()
    ensures RightUpTo(24)
  {
    hide RightUpTo;
    Right16();
    NextRight(16, 3); NextRight(17, 3); NextRight(18, 4); NextRight(19, 4);
    NextRight(20, 4); NextRight(21, 4); NextRight(22, 4); NextRight(23, 4);
  }

  lemma Right32()
    ensures RightUpTo(32)
  {
    hide RightUpTo;
    Right24();
    NextRight(24, 4); NextRight(25, 4); NextRight(26, 4); NextRight(27, 4);
    NextRight(28, 4); NextRight(29, 4); NextRight(30, 5); NextRight(31, 5);
  }

  lemma Right40()
    ensures RightUpTo(40)
  {
    hide RightUpTo;
    Right32();
    NextRight(32, 5); NextRight(33, 5); NextRight(34, 5); NextRight(35, 5);
    NextRight(36, 5); NextRight(37, 5); NextRight(38, 5); NextRight(39, 5);
  }

  lemma Right48()
    ensures RightUpTo(48)
  {
    hide RightUpTo;
    Right40();
    NextRight(40, 5); NextRight(41, 5); NextRight(42, 5); NextRight(43, 5);
    NextRight(44, 5); NextRight(45, 5); NextRight(46, 5); NextRight(47, 6);
  }

  lemma Right56()
    ensures RightUpTo(56)
  {
    hide RightUpTo;
    Right48();
    NextRight(48, 6); NextRight(49, 6); NextRight(50, 6); NextRight(51, 6);
    NextRight(52, 6); NextRight(53, 6); NextRight(54, 6); NextRight(55, 6);
  }

  lemma Right64()
    ensures RightUpTo(64)
  {
    hide RightUpTo;
    Right56();
    NextRight(56, 6); NextRight(57, 6); NextRight(58, 6); NextRight(59, 6);
    NextRight(60, 6); NextRight(61, 6); NextRight(62, 6); NextRight(63, 6);
  }

  lemma NothingYet()
    ensures RightUpTo(0)
  {
  }

  /** Every round constant is the start of the fraction of the cube root of its prime. */
  lemma RoundConstants(t: nat)
    requires t < 64
    ensures CubeRootBits(Prime(t), K256(t))
  {
    Right64();
  }

  /** Every initial chaining word is the start of the fraction of the square root of its prime. */
  lemma InitialWords(t: nat)
    requires t < 8
    ensures SquareRootBits(Prime(t), Initial(t))
  {
    assert SquareRootIs(Prime(0), SquareRoot(Prime(0)), Initial(0));
    assert SquareRootIs(Prime(1), SquareRoot(Prime(1)), Initial(1));
    assert SquareRootIs(Prime(2), SquareRoot(Prime(2)), Initial(2));
    assert SquareRootIs(Prime(3), SquareRoot(Prime(3)), Initial(3));
    assert SquareRootIs(Prime(4), SquareRoot(Prime(4)), Initial(4));
    assert SquareRootIs(Prime(5), SquareRoot(Prime(5)), Initial(5));
    assert SquareRootIs(Prime(6), SquareRoot(Prime(6)), Initial(6));
    assert SquareRootIs(Prime(7), SquareRoot(Prime(7)), Initial(7));
    assert SquareRootIs(Prime(t), SquareRoot(Prime(t)), Initial(t));
  }
}
