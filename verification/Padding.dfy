/** What a digest of hash.c is meant to be: a block function folded over the padded message,
    section 5.1 of FIPS 180-4 for the SHA family and sections 3.1 to 3.4 of RFC 1321 for MD5. */
module Padding {
  import opened Bytes

  /** The chaining words of a HASH_CONTEXT. */
  type State = s: seq<bv64> | |s| == 8 witness [0, 0, 0, 0, 0, 0, 0, 0]

  const TWO64 := 0x1_0000_0000_0000_0000

  /** One digest algorithm: its block function, where the length field goes and how long it is,
      and how much of the state is output. */
  datatype Algorithm = Algorithm(block: nat, lengthBytes: nat, bigEndian: bool, words: nat, wordBytes: nat,
                                 init: State, transform: (State, seq<byte>) -> State)

  predicate Sound(a: Algorithm) {
    ((a.block == 64 && a.lengthBytes == 8) || (a.block == 128 && a.lengthBytes == 16 && a.bigEndian)) &&
    (a.wordBytes == 4 || a.wordBytes == 8) && a.words <= 8
  }

  predicate Blocks(a: Algorithm, n: nat)
    requires Sound(a)
  {
    n % a.block == 0
  }

  /** The block function applied to one block after the other. */
  function Fold(a: Algorithm, st: State, data: seq<byte>): (r: State)
    requires Sound(a) && Blocks(a, |data|)
    decreases |data|
  {
    if data == [] then st
    else OneBlock(a, |data|); Fold(a, a.transform(st, data[..a.block]), data[a.block..])
  }

  lemma OneBlock(a: Algorithm, n: nat)
    requires Sound(a) && Blocks(a, n) && n > 0
    ensures 0 < a.block <= n && Blocks(a, n - a.block)
  {
  }

  lemma MoreBlocks(a: Algorithm, n: nat, k: nat)
    requires Sound(a) && Blocks(a, n) && Blocks(a, k)
    ensures Blocks(a, n + k)
  {
  }

  lemma {:induction false} FoldConcat(a: Algorithm, st: State, x: seq<byte>, y: seq<byte>)
    requires Sound(a) && Blocks(a, |x|) && Blocks(a, |y|)
    ensures Blocks(a, |x + y|)
    ensures Fold(a, st, x + y) == Fold(a, Fold(a, st, x), y)
    decreases |x|
  {
    hide Blocks, Sound;
    MoreBlocks(a, |x|, |y|);
    if x == [] {
      assert x + y == y;
    } else {
      var n := a.block;
      OneBlock(a, |x|);
      FoldConcat(a, a.transform(st, x[..n]), x[n..], y);
      assert (x + y)[..n] == x[..n] && (x + y)[n..] == x[n..] + y;
    }
  }

  lemma FoldOne(a: Algorithm, st: State, x: seq<byte>)
    requires Sound(a) && |x| == a.block
    ensures Blocks(a, |x|) && Fold(a, st, x) == a.transform(st, x)
  {
    assert x[..a.block] == x && x[a.block..] == [];
  }

  // ---- Length fields and output ----

  /** The n lowest-order bytes of x, lowest first. */
  function Low(x: nat, n: nat): (r: seq<byte>)
    ensures |r| == n
  {
    if n == 0 then [] else [x % 256] + Low(x / 256, n - 1)
  }

  function Reversed(s: seq<byte>): (r: seq<byte>)
    ensures |r| == |s| && forall k :: 0 <= k < |s| ==> r[k] == s[|s| - 1 - k]
  {
    if s == [] then [] else Reversed(s[1..]) + [s[0]]
  }

  function Ordered(a: Algorithm, s: seq<byte>): (r: seq<byte>)
    ensures |r| == |s|
  {
    if a.bigEndian then Reversed(s) else s
  }

  /** The length in bits of n bytes, in the bytes the algorithm has for it. */
  function LengthField(a: Algorithm, n: nat): (r: seq<byte>)
    ensures |r| == a.lengthBytes
  {
    Ordered(a, Low(8 * n, a.lengthBytes))
  }

  function Zeros(n: nat): (r: seq<byte>)
    ensures |r| == n && forall k :: 0 <= k < n ==> r[k] == 0
  {
    if n == 0 then [] else Zeros(n - 1) + [0]
  }

  /** How many zero bytes follow the byte 0x80 behind n message bytes. */
  function ZeroCount(a: Algorithm, n: nat): (z: nat)
    requires Sound(a)
  {
    (2 * a.block - a.lengthBytes - 1 - n % a.block) % a.block
  }

  lemma PaddedLength(a: Algorithm, n: nat)
    requires Sound(a)
    ensures Blocks(a, n + 1 + ZeroCount(a, n) + a.lengthBytes)
  {
    if a.block == 64 { Padded64(n); } else { Padded128(n); }
  }

  lemma Padded64(n: nat)
    ensures (n + 1 + (119 - n % 64) % 64 + 8) % 64 == 0
  {
  }

  lemma Padded128(n: nat)
    ensures (n + 1 + (239 - n % 128) % 128 + 16) % 128 == 0
  {
  }

  function PaddedWith(a: Algorithm, m: seq<byte>, n: nat): (r: seq<byte>)
    requires Sound(a)
    ensures Blocks(a, |r|)
  {
    PaddedLength(a, |m|);
    m + [0x80] + Zeros(ZeroCount(a, |m|)) + LengthField(a, n)
  }

  /** The padded message. */
  function Padded(a: Algorithm, m: seq<byte>): (r: seq<byte>)
    requires Sound(a)
    ensures Blocks(a, |r|)
  {
    PaddedWith(a, m, |m|)
  }

  /** The standard's zero bits: the least number of them, 7 of them in the byte 0x80, that
      completes the last block up to the length field. */
  lemma FewestZeros(a: Algorithm, n: nat, bits: nat)
    requires Sound(a) && (8 * n + 1 + bits) % (8 * a.block) == 8 * (a.block - a.lengthBytes)
    ensures 8 * ZeroCount(a, n) + 7 <= bits
    ensures (8 * n + 1 + (8 * ZeroCount(a, n) + 7)) % (8 * a.block) == 8 * (a.block - a.lengthBytes)
  {
    if a.block == 64 { Fewest64(n, bits); } else { Fewest128(n, bits); }
  }

  lemma Fewest64(n: nat, bits: nat)
    requires (8 * n + 1 + bits) % 512 == 448
    ensures var z := (119 - n % 64) % 64; 8 * z + 7 <= bits && (8 * n + 1 + (8 * z + 7)) % 512 == 448
  {
    var r, q := n % 64, n / 64;
    var z := if r <= 55 then 55 - r else 119 - r;
    assert z == (119 - r) % 64;
    Whole(8 * r + 1 + bits, q, 512);
    Whole(8 * r + 1 + (8 * z + 7), q, 512);
    assert 8 * n + 1 + bits == 8 * r + 1 + bits + 512 * q;
    assert 8 * n + 1 + (8 * z + 7) == 8 * r + 1 + (8 * z + 7) + 512 * q;
    LeastBits(8 * r + 1, bits, 8 * z + 7, 512, 448);
  }

  /** The least number that brings a to the remainder c of d. */
  lemma LeastBits(a: nat, bits: nat, least: nat, d: nat, c: nat)
    requires 0 <= c < d && (a + bits) % d == c && least < d && (a + least == c || a + least == c + d)
    ensures least <= bits && (a + least) % d == c
  {
    var k := (a + bits) / d;
    assert a + bits == d * k + c;
    if a + least == c + d {
      Remainder(c + d, d, 1, c);
      if bits < least { Between(d, k); }
    } else {
      Remainder(c, d, 0, c);
    }
  }

  lemma Between(d: nat, k: nat)
    requires d * k < d
    ensures k == 0
  {
  }

  lemma Fewest128(n: nat, bits: nat)
    requires (8 * n + 1 + bits) % 1024 == 896
    ensures var z := (239 - n % 128) % 128; 8 * z + 7 <= bits && (8 * n + 1 + (8 * z + 7)) % 1024 == 896
  {
    var r, q := n % 128, n / 128;
    var z := if r <= 111 then 111 - r else 239 - r;
    assert z == (239 - r) % 128;
    Whole(8 * r + 1 + bits, q, 1024);
    Whole(8 * r + 1 + (8 * z + 7), q, 1024);
    assert 8 * n + 1 + bits == 8 * r + 1 + bits + 1024 * q;
    assert 8 * n + 1 + (8 * z + 7) == 8 * r + 1 + (8 * z + 7) + 1024 * q;
    LeastBits(8 * r + 1, bits, 8 * z + 7, 1024, 896);
  }

  lemma Whole(x: nat, q: nat, d: nat)
    requires d > 0
    ensures (x + d * q) % d == x % d
  {
    Remainder(x + d * q, d, x / d + q, x % d);
  }

  /** A chaining word as it is output: cut to 32 bits where the digest has words of 32 bits. */
  function Truncated(w: bv64, bytes: nat): (r: bv64) {
    if bytes == 4 then w & 0xFFFF_FFFF else w
  }

  /** The chaining words as the digest's bytes. */
  function Output(a: Algorithm, st: State, words: nat): (r: seq<byte>)
    requires words <= 8
    ensures |r| == words * a.wordBytes
  {
    if words == 0 then []
    else
      OneMore(words, a.wordBytes);
      Output(a, st, words - 1) + Ordered(a, Low(Truncated(st[words - 1], a.wordBytes) as nat, a.wordBytes))
  }

  lemma OneMore(k: nat, n: nat)
    requires k > 0
    ensures (k - 1) * n + n == k * n
  {
  }

  function DigestWith(a: Algorithm, m: seq<byte>, n: nat): (r: seq<byte>)
    requires Sound(a)
  {
    Output(a, Fold(a, a.init, PaddedWith(a, m, n)), a.words)
  }

  /** The digest of a message. */
  function Digest(a: Algorithm, m: seq<byte>): (r: seq<byte>)
    requires Sound(a)
    ensures |r| == a.words * a.wordBytes
  {
    Output(a, Fold(a, a.init, Padded(a, m)), a.words)
  }

  // ---- A 64-bit byte count in the length field ----

  function Power(n: nat): (r: nat)
    ensures r > 0
  {
    if n == 0 then 1 else 256 * Power(n - 1)
  }

  /** Low bytes depend only, and wholly, on the number modulo a power of 256. */
  lemma {:induction false} LowModulo(x: nat, y: nat, n: nat)
    ensures Low(x, n) == Low(y, n) <==> x % Power(n) == y % Power(n)
  {
    if n == 0 {
    } else {
      LowModulo(x / 256, y / 256, n - 1);
      ModuloSplit(x, Power(n - 1));
      ModuloSplit(y, Power(n - 1));
      var u, v := Low(x, n), Low(y, n);
      assert u[0] == x % 256 && v[0] == y % 256 && u[1..] == Low(x / 256, n - 1) && v[1..] == Low(y / 256, n - 1);
    }
  }

  lemma ModuloSplit(x: nat, p: nat)
    requires p > 0
    ensures x % (256 * p) == 256 * (x / 256 % p) + x % 256
  {
    var q := x / 256;
    var k := q / p;
    assert q == p * k + q % p;
    assert x == 256 * (p * k + q % p) + x % 256;
    assert x == (256 * p) * k + (256 * (q % p) + x % 256);
    Remainder(x, 256 * p, k, 256 * (q % p) + x % 256);
  }

  lemma Remainder(x: nat, d: nat, k: nat, r: nat)
    requires d > 0 && x == d * k + r && r < d
    ensures x % d == r && x / d == k
  {
    var q := x / d;
    assert x == d * q + x % d;
    if q < k { MoreTimes(d, q, k); assert false; }
    if q > k { MoreTimes(d, k, q); assert false; }
  }

  lemma MoreTimes(d: nat, a: nat, b: nat)
    requires a < b
    ensures d * a + d <= d * b
  {
    assert d * b == d * a + d * (b - a);
    assert d * (b - a) == d + d * (b - a - 1);
  }

  /** Counting bytes modulo 2^64 gives the right length field for every message when the field
      has 8 bytes, and when it has 16 exactly for messages of less than 2^64 bytes (of those
      short enough for a 128-bit count of bits). */
  lemma CountWraps(a: Algorithm, n: nat)
    requires Sound(a) && (a.lengthBytes == 8 || 8 * n < TWO64 * TWO64)
    ensures LengthField(a, n % TWO64) == LengthField(a, n) <==> a.lengthBytes == 8 || n < TWO64
  {
    hide Low, Power, Reversed;
    var x, y := 8 * (n % TWO64), 8 * n;
    LowModulo(x, y, a.lengthBytes);
    Powers();
    if a.lengthBytes == 8 { SameLow(n); }
    ReversedInjective(Low(x, a.lengthBytes), Low(y, a.lengthBytes));
  }

  lemma SameLow(n: nat)
    ensures 8 * (n % TWO64) % TWO64 == 8 * n % TWO64
  {
    Whole(8 * (n % TWO64), 8 * (n / TWO64), TWO64);
  }

  lemma Powers()
    ensures Power(8) == TWO64 && Power(16) == TWO64 * TWO64
  {
    assert Power(4) == 0x1_0000_0000;
    assert Power(8) == 256 * (256 * (256 * (256 * Power(4))));
    assert Power(12) == 256 * (256 * (256 * (256 * Power(8))));
    assert Power(16) == 256 * (256 * (256 * (256 * Power(12))));
  }

  lemma ReversedInjective(s: seq<byte>, t: seq<byte>)
    requires |s| == |t|
    ensures Reversed(s) == Reversed(t) <==> s == t
  {
    if Reversed(s) == Reversed(t) {
      forall k | 0 <= k < |s| ensures s[k] == t[k] {
        assert Reversed(s)[|s| - 1 - k] == Reversed(t)[|s| - 1 - k];
      }
    }
  }

  /** The length field of a 64-bit byte count, from its 64-bit halves. */
  lemma LengthHalves(a: Algorithm, n: nat)
    requires Sound(a) && n < TWO64
    ensures var low, high := Ordered(a, Low(8 * n % TWO64, 8)), Ordered(a, Low(n / 0x2000_0000_0000_0000, 8));
            LengthField(a, n) == if a.lengthBytes == 8 then low else high + low
  {
    hide Low, Power, Reversed;
    LowModulo(8 * n % TWO64, 8 * n, 8);
    Powers();
    if a.lengthBytes == 16 {
      LowSplit(8 * n, 8, 8, 8 * n / TWO64, 8 * n % TWO64);
      ReversedConcat(Low(8 * n, 8), Low(8 * n / TWO64, 8));
    }
  }

  lemma {:induction false} LowSplit(x: nat, k: nat, n: nat, high: nat, low: nat)
    requires x == Power(k) * high + low && low < Power(k)
    ensures Low(x, k + n) == Low(x, k) + Low(high, n)
  {
    hide Power, Low;
    LowStep(x, k);
    LowStep(x, k + n);
    PowerStep(k);
    if k == 0 {
      assert x == high;
    } else {
      var p := Power(k - 1);
      Associate(p, high);
      DropByte(x, p * high, low);
      assert x / 256 == Power(k - 1) * high + low / 256;
      LowSplit(x / 256, k - 1, n, high, low / 256);
      assert [x % 256] + (Low(x / 256, k - 1) + Low(high, n)) == [x % 256] + Low(x / 256, k - 1) + Low(high, n);
    }
  }

  lemma LowStep(x: nat, k: nat)
    ensures Low(x, k) == if k == 0 then [] else [x % 256] + Low(x / 256, k - 1)
  {
  }

  lemma PowerStep(k: nat)
    ensures Power(k) == if k == 0 then 1 else 256 * Power(k - 1)
  {
  }

  lemma Associate(p: nat, h: nat)
    ensures 256 * p * h == 256 * (p * h)
  {
  }

  lemma DropByte(x: nat, y: nat, low: nat)
    requires x == 256 * y + low
    ensures x / 256 == y + low / 256 && x % 256 == low % 256
  {
  }

  lemma {:induction false} ReversedConcat(s: seq<byte>, t: seq<byte>)
    ensures Reversed(s + t) == Reversed(t) + Reversed(s)
  {
    if s == [] {
      assert s + t == t;
    } else {
      ReversedConcat(s[1..], t);
      assert (s + t)[1..] == s[1..] + t && (s + t)[0] == s[0];
    }
  }
}
