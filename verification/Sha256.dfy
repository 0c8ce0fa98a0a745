/** The portable SHA-256 block function of hash.c against section 6.2.2 of FIPS 180-4. */
module Sha256 {
  import opened Bytes
  import opened Padding
  import opened Hashing
  import opened Sha256Constants

  type word = bv32

  /** The working variables. */
  datatype Regs = Regs(a: word, b: word, c: word, d: word, e: word, f: word, g: word, h: word)

  // ---- The standard: sections 4.1.2 and 6.2.2 of FIPS 180-4 ----

  function Ch(x: word, y: word, z: word): (r: word) { (x & y) ^ (!x & z) }
  function Maj(x: word, y: word, z: word): (r: word) { (x & y) ^ (x & z) ^ (y & z) }
  function BigSigma0(x: word): (r: word) { ((x >> 2) | (x << 30)) ^ ((x >> 13) | (x << 19)) ^ ((x >> 22) | (x << 10)) }
  function BigSigma1(x: word): (r: word) { ((x >> 6) | (x << 26)) ^ ((x >> 11) | (x << 21)) ^ ((x >> 25) | (x << 7)) }
  function Sigma0(x: word): (r: word) { ((x >> 7) | (x << 25)) ^ ((x >> 18) | (x << 14)) ^ (x >> 3) }
  function Sigma1(x: word): (r: word) { ((x >> 17) | (x << 15)) ^ ((x >> 19) | (x << 13)) ^ (x >> 10) }

  function K(t: nat): (r: word) { K256(t) as word }

  /** Addition modulo 2^32. */
  function Sum(x: word, y: word): (r: word) { x + y }

  /** A schedule word from the ones 2, 7, 15 and 16 places before it. */
  function Mix(w2: word, w7: word, w15: word, w16: word): (r: word) {
    Sum(Sum(Sum(Sigma1(w2), w7), Sigma0(w15)), w16)
  }

  /** The message schedule of a block of 16 words. */
  function W(m: seq<word>, t: nat): (r: word)
    requires |m| == 16
  {
    if t < 16 then m[t] else Mix(W(m, t - 2), W(m, t - 7), W(m, t - 15), W(m, t - 16))
  }

  function T1(e: word, f: word, g: word, h: word, k: word, w: word): (r: word) {
    Sum(Sum(Sum(Sum(h, BigSigma1(e)), Ch(e, f, g)), k), w)
  }

  function T2(a: word, b: word, c: word): (r: word) {
    Sum(BigSigma0(a), Maj(a, b, c))
  }

  function Round(r: Regs, k: word, w: word): (u: Regs) {
    var t1 := T1(r.e, r.f, r.g, r.h, k, w);
    Regs(Sum(t1, T2(r.a, r.b, r.c)), r.a, r.b, r.c, Sum(r.d, t1), r.e, r.f, r.g)
  }

  /** The working variables after t rounds. */
  function Rounds(m: seq<word>, r: Regs, t: nat): (u: Regs)
    requires |m| == 16
  {
    if t == 0 then r else Round(Rounds(m, r, t - 1), K(t - 1), W(m, t - 1))
  }

  /** The next hash value. */
  function Compress(r: Regs, m: seq<word>): (u: Regs)
    requires |m| == 16
  {
    var t := Rounds(m, r, 64);
    Regs(Sum(r.a, t.a), Sum(r.b, t.b), Sum(r.c, t.c), Sum(r.d, t.d), Sum(r.e, t.e), Sum(r.f, t.f), Sum(r.g, t.g),
         Sum(r.h, t.h))
  }

  // ---- The program's macros ----

  function NestedS0(x: word): (r: word) {
    var y := ((x >> 9) | (x << 23)) ^ x;
    var z := ((y >> 11) | (y << 21)) ^ x;
    (z >> 2) | (z << 30)
  }

  function NestedS1(x: word): (r: word) {
    var y := ((x >> 14) | (x << 18)) ^ x;
    var z := ((y >> 5) | (y << 27)) ^ x;
    (z >> 6) | (z << 26)
  }

  function NestedSmall0(x: word): (r: word) {
    var y := ((x >> 11) | (x << 21)) ^ x;
    ((y >> 7) | (y << 25)) ^ (x >> 3)
  }

  function NestedSmall1(x: word): (r: word) {
    var y := ((x >> 2) | (x << 30)) ^ x;
    ((y >> 17) | (y << 15)) ^ (x >> 10)
  }

  function MacroCh(x: word, y: word, z: word): (r: word) { z ^ (x & (y ^ z)) }
  function MacroMa(x: word, y: word, z: word): (r: word) { (x & y) | (z & (x | y)) }

  /** BLK2: what is added to the slot, from the ones 2, 7 and 15 places before. */
  function Blk2(w16: word, w2: word, w7: word, w15: word): (r: word) {
    Sum(w16, Sum(Sum(NestedSmall1(w2), w7), NestedSmall0(w15)))
  }

  /** The first addition of R, to h. */
  function AddH(e: word, f: word, g: word, h: word, k: word, w: word): (r: word) {
    Sum(h, Sum(Sum(Sum(NestedS1(e), MacroCh(e, f, g)), k), w))
  }

  /** The last addition of R, to h. */
  function AddS(a: word, b: word, c: word, h: word): (r: word) {
    Sum(h, Sum(NestedS0(a), MacroMa(a, b, c)))
  }

  // Nested rotations and the shorter boolean forms compute the standard's functions.

  lemma S0Is(x: word)
    ensures NestedS0(x) == BigSigma0(x)
  {
  }

  lemma S1Is(x: word)
    ensures NestedS1(x) == BigSigma1(x)
  {
  }

  lemma Small0Is(x: word)
    ensures NestedSmall0(x) == Sigma0(x)
  {
  }

  lemma Small1Is(x: word)
    ensures NestedSmall1(x) == Sigma1(x)
  {
  }

  lemma ChBits(x: word, y: word, z: word)
    ensures z ^ (x & (y ^ z)) == (x & y) ^ (!x & z)
  {
  }

  lemma MaBits(x: word, y: word, z: word)
    ensures (x & y) | (z & (x | y)) == (x & y) ^ (x & z) ^ (y & z)
  {
  }

  lemma ChIs(x: word, y: word, z: word)
    ensures MacroCh(x, y, z) == Ch(x, y, z)
  {
    ChBits(x, y, z);
  }

  lemma MaIs(x: word, y: word, z: word)
    ensures MacroMa(x, y, z) == Maj(x, y, z)
  {
    MaBits(x, y, z);
  }

  lemma Blk2Is(w16: word, w2: word, w7: word, w15: word)
    ensures Blk2(w16, w2, w7, w15) == Mix(w2, w7, w15, w16)
  {
    hide Sum, Sigma0, Sigma1, NestedSmall0, NestedSmall1;
    Small0Is(w15);
    Small1Is(w2);
    Shuffle(w16, Sigma1(w2), w7, Sigma0(w15));
  }

  lemma Shuffle(x: word, a: word, b: word, c: word)
    ensures Sum(x, Sum(Sum(a, b), c)) == Sum(Sum(Sum(a, b), c), x)
  {
    hide Sum;
    Commutes(x, Sum(Sum(a, b), c));
  }

  lemma Commutes(x: word, y: word)
    ensures Sum(x, y) == Sum(y, x)
  {
  }

  lemma Regroups(x: word, y: word, z: word)
    ensures Sum(x, Sum(y, z)) == Sum(Sum(x, y), z)
  {
    hide *;
    SumIs(x, y);
    SumIs(y, z);
    RegroupsBits(x, y, z, Sum(y, z), Sum(x, y));
  }

  lemma SumIs(x: word, y: word)
    ensures Sum(x, y) == x + y
  {
  }

  lemma RegroupsBits(x: word, y: word, z: word, u: word, v: word)
    requires u == y + z && v == x + y
    ensures Sum(x, u) == Sum(v, z)
  {
  }

  lemma AddHIs(e: word, f: word, g: word, h: word, k: word, w: word)
    ensures AddH(e, f, g, h, k, w) == T1(e, f, g, h, k, w)
  {
    hide Sum, NestedS1, BigSigma1, MacroCh, Ch;
    S1Is(e);
    ChIs(e, f, g);
    Associate(h, BigSigma1(e), Ch(e, f, g), k, w);
  }

  lemma Associate(h: word, a: word, b: word, c: word, d: word)
    ensures Sum(h, Sum(Sum(Sum(a, b), c), d)) == Sum(Sum(Sum(Sum(h, a), b), c), d)
  {
    hide Sum;
    Regroups(h, Sum(Sum(a, b), c), d);
    Regroups(h, Sum(a, b), c);
    Regroups(h, a, b);
  }

  lemma AddSIs(a: word, b: word, c: word, h: word)
    ensures AddS(a, b, c, h) == Sum(h, T2(a, b, c))
  {
    hide Sum, NestedS0, BigSigma0, MacroMa, Maj;
    S0Is(a);
    MaIs(a, b, c);
  }

  // ---- The circular schedule ----

  /** Which schedule word slot k holds when t rounds are done. */
  function Latest(k: nat, t: nat): (r: nat)
    requires k < 16
  {
    if t < 16 || k < t % 16 then t - t % 16 + k else t - t % 16 - 16 + k
  }

  /** The 16 slots hold the latest words of the schedule. */
  predicate Window(m: seq<word>, x: seq<word>, t: nat)
    requires |m| == 16
  {
    |x| == 16 && forall k :: 0 <= k < 16 ==> x[k] == W(m, Latest(k, t))
  }

  lemma FirstWindow(m: seq<word>)
    requires |m| == 16
    ensures Window(m, m, 0)
  {
  }

  /** BLK0: the first 16 words are taken as they are. */
  lemma FirstWords(m: seq<word>, x: seq<word>, t: nat)
    requires |m| == 16 && t < 16 && Window(m, x, t)
    ensures x[t] == W(m, t) && Window(m, x, t + 1)
  {
    hide W;
    assert Latest(t, t) == t;
    forall k | 0 <= k < 16 ensures Latest(k, t) == Latest(k, t + 1) {
    }
  }

  /** BLK2: a slot is turned into the next word of the schedule. */
  lemma NextWord(m: seq<word>, x: seq<word>, t: nat, i: nat, w: word)
    requires |m| == 16 && t >= 16 && i == t % 16 && Window(m, x, t)
    requires w == Blk2(x[i], x[(i + 14) % 16], x[(i + 9) % 16], x[(i + 1) % 16])
    ensures w == W(m, t) && Window(m, x[i := w], t + 1)
  {
    hide W, Blk2, Mix, Latest;
    Neighbours(t, i);
    Blk2Is(W(m, t - 16), W(m, t - 2), W(m, t - 7), W(m, t - 15));
    Schedule(m, t);
  }

  /** The slots around the one whose turn it is. */
  lemma Neighbours(t: nat, i: nat)
    requires t >= 16 && i == t % 16
    ensures Latest(i, t) == t - 16 && Latest((i + 14) % 16, t) == t - 2
    ensures Latest((i + 9) % 16, t) == t - 7 && Latest((i + 1) % 16, t) == t - 15
    ensures forall k :: 0 <= k < 16 ==> Latest(k, t + 1) == if k == i then t else Latest(k, t)
  {
  }

  lemma Schedule(m: seq<word>, t: nat)
    requires |m| == 16 && t >= 16
    ensures W(m, t) == Mix(W(m, t - 2), W(m, t - 7), W(m, t - 15), W(m, t - 16))
  {
    hide Mix;
  }

  /** One use of the macro R, on whichever registers play the eight parts. */
  lemma RoundStep(r: Regs, k: word, w: word, h: word)
    requires h == AddH(r.e, r.f, r.g, r.h, k, w)
    ensures Round(r, k, w) == Regs(AddS(r.a, r.b, r.c, h), r.a, r.b, r.c, Sum(r.d, h), r.e, r.f, r.g)
  {
    hide AddH, AddS, Sum, T1, T2;
    AddHIs(r.e, r.f, r.g, r.h, k, w);
    AddSIs(r.a, r.b, r.c, h);
  }

  lemma NextRound(m: seq<word>, r: Regs, t: nat)
    requires |m| == 16
    ensures Rounds(m, r, t + 1) == Round(Rounds(m, r, t), K(t), W(m, t))
  {
    hide Round, K, W;
  }

  // ---- The block function ----

  /** The macro R: one round, with the schedule word computed in place from round 16 on. */
  method R(a: word, b: word, c: word, d: word, e: word, f: word, g: word, h: word, x: array<word>, i: nat, j: nat,
           ghost m: seq<word>, ghost r: Regs)
    returns (d': word, h': word)
    requires |m| == 16 && i < 16 && j % 16 == 0 && i + j < 64 && Window(m, x[..], i + j)
    requires Regs(a, b, c, d, e, f, g, h) == Rounds(m, r, i + j)
    modifies x
    ensures Window(m, x[..], i + j + 1) && Regs(h', a, b, c, d', e, f, g) == Rounds(m, r, i + j + 1)
  {
    hide *;
    WindowSize(m, x[..], i + j);
    if j == 0 {
      FirstWords(m, x[..], i);
    } else {
      ghost var was := x[..];
      x[i] := Blk2(x[i], x[(i + 14) % 16], x[(i + 9) % 16], x[(i + 1) % 16]);
      NextWord(m, was, i + j, i, x[i]);
      assert x[..] == was[i := x[i]];
    }
    NextRound(m, r, i + j);
    h' := AddH(e, f, g, h, K(i + j), x[i]);
    RoundStep(Regs(a, b, c, d, e, f, g, h), K(i + j), x[i], h');
    d' := Sum(d, h');
    h' := AddS(a, b, c, h');
  }

  lemma WindowSize(m: seq<word>, x: seq<word>, t: nat)
    requires |m| == 16 && Window(m, x, t)
    ensures |x| == 16
  {
  }

  /** The macro RX_8: eight rounds, each with the registers' parts moved on by one. */
  method RX8(a0: word, b0: word, c0: word, d0: word, e0: word, f0: word, g0: word, h0: word, x: array<word>, i: nat,
             j: nat, ghost m: seq<word>, ghost r: Regs)
    returns (a: word, b: word, c: word, d: word, e: word, f: word, g: word, h: word)
    requires |m| == 16 && i + 8 <= 16 && j % 16 == 0 && i + 8 + j <= 64 && Window(m, x[..], i + j)
    requires Regs(a0, b0, c0, d0, e0, f0, g0, h0) == Rounds(m, r, i + j)
    modifies x
    ensures Window(m, x[..], i + j + 8) && Regs(a, b, c, d, e, f, g, h) == Rounds(m, r, i + j + 8)
  {
    hide *;
    a, b, c, d, e, f, g, h := a0, b0, c0, d0, e0, f0, g0, h0;
    d, h := R(a, b, c, d, e, f, g, h, x, i, j, m, r);
    c, g := R(h, a, b, c, d, e, f, g, x, i + 1, j, m, r);
    b, f := R(g, h, a, b, c, d, e, f, x, i + 2, j, m, r);
    a, e := R(f, g, h, a, b, c, d, e, x, i + 3, j, m, r);
    h, d := R(e, f, g, h, a, b, c, d, x, i + 4, j, m, r);
    g, c := R(d, e, f, g, h, a, b, c, x, i + 5, j, m, r);
    f, b := R(c, d, e, f, g, h, a, b, x, i + 6, j, m, r);
    e, a := R(b, c, d, e, f, g, h, a, x, i + 7, j, m, r);
  }

  /** The word stored at p, highest byte first. */
  function WordAt(data: seq<byte>, p: nat): (r: word)
    requires p + 4 <= |data|
  {
    var b0: int, b1: int, b2: int, b3: int := data[p], data[p + 1], data[p + 2], data[p + 3];
    (b0 * 0x100_0000 + b1 * 0x1_0000 + b2 * 0x100 + b3) as word
  }

  /** The first n words of a block. */
  function Words(data: seq<byte>, n: nat): (r: seq<word>)
    requires 4 * n <= |data|
    ensures |r| == n
  {
    if n == 0 then [] else Words(data, n - 1) + [WordAt(data, 4 * (n - 1))]
  }

  /** A chaining word cut to 32 bits, and a word added to one. */
  function Cut(s: bv64): (r: word) { (s & 0xFFFF_FFFF) as word }
  function Widened(w: word): (r: bv64) { w as bv64 }
  function Added(s: bv64, w: word): (r: bv64) { s + (w as bv64) }

  function Loaded(st: State): (r: Regs) {
    Regs(Cut(st[0]), Cut(st[1]), Cut(st[2]), Cut(st[3]), Cut(st[4]), Cut(st[5]), Cut(st[6]), Cut(st[7]))
  }

  function Stored(st: State, r: Regs): (u: State) {
    [Added(st[0], r.a), Added(st[1], r.b), Added(st[2], r.c), Added(st[3], r.d),
     Added(st[4], r.e), Added(st[5], r.f), Added(st[6], r.g), Added(st[7], r.h)]
  }

  /** What the block function does to the chaining words. */
  function Block(st: State, data: seq<byte>): (r: State) {
    if |data| != 64 then st else Stored(st, Rounds(Words(data, 16), Loaded(st), 64))
  }

  /** sha256_transform_cc, which keeps its 32-bit words in 64-bit chaining variables. */
  method Transform(state: array<bv64>, data: seq<byte>)
    requires state.Length == 8 && |data| == 64
    modifies state
    ensures state[..] == Block(old(state[..]), data)
  {
    hide Rounds, Window, WordAt, Cut, Added, Words;
    ghost var st, m := state[..], Words(data, 16);
    var x := LoadBlock(data);
    FirstWindow(m);
    var a, b, c, d := Cut(state[0]), Cut(state[1]), Cut(state[2]), Cut(state[3]);
    var e, f, g, h := Cut(state[4]), Cut(state[5]), Cut(state[6]), Cut(state[7]);
    ghost var r := Loaded(st);
    NoRounds(m, r);
    var j := 0;
    while j < 64
      invariant j <= 64 && j % 16 == 0 && Window(m, x[..], j) && state[..] == st
      invariant Regs(a, b, c, d, e, f, g, h) == Rounds(m, r, j)
    {
      a, b, c, d, e, f, g, h := RX8(a, b, c, d, e, f, g, h, x, 0, j, m, r);
      a, b, c, d, e, f, g, h := RX8(a, b, c, d, e, f, g, h, x, 8, j, m, r);
      j := j + 16;
    }
    Store(state, a, b, c, d, e, f, g, h);
  }

  /** The final additions to the chaining variables. */
  method Store(state: array<bv64>, a: word, b: word, c: word, d: word, e: word, f: word, g: word, h: word)
    requires state.Length == 8
    modifies state
    ensures state[..] == Stored(old(state[..]), Regs(a, b, c, d, e, f, g, h))
  {
    hide Added, Stored;
    ghost var st := state[..];
    AddTo(state, 0, a);
    AddTo(state, 1, b);
    AddTo(state, 2, c);
    AddTo(state, 3, d);
    AddTo(state, 4, e);
    AddTo(state, 5, f);
    AddTo(state, 6, g);
    AddTo(state, 7, h);
    StoredBySteps(st, Regs(a, b, c, d, e, f, g, h));
  }

  method AddTo(state: array<bv64>, k: nat, w: word)
    requires k < state.Length == 8
    modifies state
    ensures state[..] == old(state[..])[k := Added(old(state[k]), w)]
  {
    state[k] := Added(state[k], w);
  }

  lemma StoredBySteps(st: State, r: Regs)
    ensures st[0 := Added(st[0], r.a)][1 := Added(st[1], r.b)][2 := Added(st[2], r.c)][3 := Added(st[3], r.d)]
              [4 := Added(st[4], r.e)][5 := Added(st[5], r.f)][6 := Added(st[6], r.g)][7 := Added(st[7], r.h)]
         == Stored(st, r)
  {
    hide Added;
  }

  method LoadBlock(data: seq<byte>) returns (x: array<word>)
    requires |data| == 64
    ensures fresh(x) && x[..] == Words(data, 16)
  {
    hide WordAt;
    x := new word[16](_ => 0);
    var k := 0;
    while k < 16
      invariant k <= 16 && x[..k] == Words(data, k)
    {
      x[k] := WordAt(data, 4 * k);
      k := k + 1;
    }
  }

  lemma NoRounds(m: seq<word>, r: Regs)
    requires |m| == 16
    ensures Rounds(m, r, 0) == r
  {
  }

  // ---- The digest of the standard ----

  /** The high half of one addend does not matter to the low half of a sum. */
  lemma AddedLow(s: bv64, w: bv32)
    ensures ((s + (w as bv64)) & 0xFFFF_FFFF) as bv32 == ((s & 0xFFFF_FFFF) as bv32) + w
  {
  }

  lemma AddedLowIs(s: bv64, w: bv32, low: bv32)
    requires low == (s & 0xFFFF_FFFF) as bv32
    ensures ((s + (w as bv64)) & 0xFFFF_FFFF) as bv32 == low + w
  {
    AddedLow(s, w);
  }

  lemma CutIs(s: bv64)
    ensures Cut(s) == (s & 0xFFFF_FFFF) as bv32
  {
  }

  lemma CutAdded(s: bv64, w: bv32)
    ensures Cut(Added(s, w)) == ((s + (w as bv64)) & 0xFFFF_FFFF) as bv32
  {
  }

  lemma CutSum(s: bv64, w: bv32, low: bv32)
    requires low == (s & 0xFFFF_FFFF) as bv32
    ensures Cut(Added(s, w)) == low + w
  {
    hide *;
    CutAdded(s, w);
    AddedLowIs(s, w, low);
  }

  lemma AddedIs(s: bv64, w: word)
    ensures Cut(Added(s, w)) == Sum(Cut(s), w)
  {
    hide *;
    CutIs(s);
    SumIs(Cut(s), w);
    CutSum(s, w, Cut(s));
  }

  /** On the lower halves of the chaining words, the block function is the standard's. */
  lemma BlockCompresses(st: State, data: seq<byte>)
    requires |data| == 64
    ensures Loaded(Block(st, data)) == Compress(Loaded(st), Words(data, 16))
  {
    hide Rounds, Cut, Added, Sum, Words;
    var t := Rounds(Words(data, 16), Loaded(st), 64);
    AddedIs(st[0], t.a);
    AddedIs(st[1], t.b);
    AddedIs(st[2], t.c);
    AddedIs(st[3], t.d);
    AddedIs(st[4], t.e);
    AddedIs(st[5], t.f);
    AddedIs(st[6], t.g);
    AddedIs(st[7], t.h);
  }

  function H(t: nat): (r: word) { Initial(t) as word }

  function InitialState(): (r: State) {
    [Widened(H(0)), Widened(H(1)), Widened(H(2)), Widened(H(3)),
     Widened(H(4)), Widened(H(5)), Widened(H(6)), Widened(H(7))]
  }

  /** SHA-256 as hash.c has it. */
  function SHA256(): (a: Algorithm)
    ensures Sound(a) && a.block == 64
  {
    Algorithm(64, 8, true, 8, 4, InitialState(), Block)
  }

  predicate Blocks64(n: nat) { n % 64 == 0 }

  lemma OneLess(n: nat)
    requires Blocks64(n) && n > 0
    ensures n >= 64 && Blocks64(n - 64) && Blocks(SHA256(), n - 64)
  {
  }

  function NextHash(r: Regs, block: seq<byte>): (u: Regs)
    requires |block| == 64
  {
    Compress(r, Words(block, 16))
  }

  /** The hash value after all the blocks of the data, section 6.2.2. */
  function HashValue(r: Regs, data: seq<byte>): (u: Regs)
    requires Blocks64(|data|)
    decreases |data|
  {
    if data == [] then r
    else OneLess(|data|); HashValue(NextHash(r, data[..64]), data[64..])
  }

  function BigEndian(w: word): (r: seq<byte>) {
    Reversed(Low(Widened(w) as nat, 4))
  }

  /** The digest of section 6.2: the hash value of the padded message, word by word. */
  function StandardDigest(m: seq<byte>): (r: seq<byte>) {
    var start := Regs(H(0), H(1), H(2), H(3), H(4), H(5), H(6), H(7));
    HashBytes(HashValue(start, Padded(SHA256(), m)), 8)
  }

  /** The k-th word of the hash value. */
  function Part(r: Regs, k: nat): (u: word) {
    match k
    case 0 => r.a
    case 1 => r.b
    case 2 => r.c
    case 3 => r.d
    case 4 => r.e
    case 5 => r.f
    case 6 => r.g
    case _ => r.h
  }

  /** The first n words of the hash value, highest bytes first. */
  function HashBytes(r: Regs, n: nat): (u: seq<byte>) {
    if n == 0 then [] else HashBytes(r, n - 1) + BigEndian(Part(r, n - 1))
  }

  lemma {:induction false} FoldIsHashValue(st: State, data: seq<byte>)
    requires Blocks(SHA256(), |data|)
    ensures Blocks64(|data|) && Loaded(Fold(SHA256(), st, data)) == HashValue(Loaded(st), data)
    decreases |data|
  {
    hide Loaded, Block, Compress, Words, InitialState;
    if data != [] {
      OneLess(|data|);
      BlockCompresses(st, data[..64]);
      FoldIsHashValue(Block(st, data[..64]), data[64..]);
    }
  }

  lemma CutWidened(w: word, s: bv64)
    ensures Cut(Widened(w)) == w && Truncated(s, 4) == Widened(Cut(s))
  {
  }

  /** The program's SHA-256 digest is the standard's, for every message. */
  lemma DigestIsStandard(m: seq<byte>)
    ensures Digest(SHA256(), m) == StandardDigest(m)
  {
    hide Fold, HashValue, Padded;
    var st := Fold(SHA256(), InitialState(), Padded(SHA256(), m));
    FoldIsHashValue(InitialState(), Padded(SHA256(), m));
    StartLoaded();
    OutputIs(st, 8);
  }

  lemma StartLoaded()
    ensures Loaded(InitialState()) == Regs(H(0), H(1), H(2), H(3), H(4), H(5), H(6), H(7))
  {
    hide H, Cut, Widened;
    CutWidened(H(0), 0);
    CutWidened(H(1), 0);
    CutWidened(H(2), 0);
    CutWidened(H(3), 0);
    CutWidened(H(4), 0);
    CutWidened(H(5), 0);
    CutWidened(H(6), 0);
    CutWidened(H(7), 0);
  }

  lemma {:induction false} OutputIs(st: State, n: nat)
    requires n <= 8
    ensures Output(SHA256(), st, n) == HashBytes(Loaded(st), n)
  {
    hide Output, Loaded, BigEndian, Cut, Part, SHA256;
    NoOutput(st);
    if n > 0 {
      OutputIs(st, n - 1);
      NextOutput(st, n);
      PartIs(st, n - 1);
    }
  }

  lemma NoOutput(st: State)
    ensures Output(SHA256(), st, 0) == []
  {
  }

  lemma NextOutput(st: State, n: nat)
    requires 0 < n <= 8
    ensures Output(SHA256(), st, n) == Output(SHA256(), st, n - 1) + BigEndian(Cut(st[n - 1]))
  {
    hide Cut, Truncated, Widened, Low, Reversed, InitialState;
    CutWidened(0, st[n - 1]);
  }

  lemma PartIs(st: State, k: nat)
    requires k < 8
    ensures Part(Loaded(st), k) == Cut(st[k])
  {
    hide Cut;
  }

  /** A file hashed with SHA-256 gives the standard's digest, however its reads were cut. */
  method Sha256File(chunks: seq<Chunk>) returns (digest: seq<byte>)
    requires Roomy(SHA256(), chunks)
    ensures digest == StandardDigest(Contents(chunks))
  {
    hide StandardDigest, Digest, Contents, InitialState;
    digest := HashFile(SHA256(), false, chunks);
    DigestIsStandard(Contents(chunks));
  }
}
