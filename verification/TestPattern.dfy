/** The test patterns of badblocks.c: how a pattern fills the buffer of blocks, and the stamp by
    which blocks of fake media are told apart. */
module TestPattern {
  import opened Bytes
  import Padding

  /** The table of patterns: one, two or four passes, and three flash types. */
  function PatternOf(kind: nat, pass: nat): (r: nat) {
    match kind
    case 0 => if pass == 0 then 0x55 else 0
    case 1 => if pass == 0 then 0x55 else if pass == 1 then 0xaa else 0
    case 2 => if pass == 0 then 0 else if pass == 1 then 0xff else if pass == 2 then 0x55 else 0xaa
    case 3 => if pass == 0 then 0 else if pass == 1 then 0xff else if pass == 2 then 0x33 else 0xcc
    case _ => if pass == 0 then 0 else if pass == 1 then 0xff else if pass == 2 then 0x1c71c7 else 0xe38e38
  }

  /** The bytes of a number without leading zeros, lowest first. */
  function LowDigits(p: nat): (r: seq<byte>) {
    if p == 0 then [] else [p % 256] + LowDigits(p / 256)
  }

  /** The bytes of a pattern, highest first; zero has one byte. */
  function PatternBytes(p: nat): (r: seq<byte>)
    ensures |r| > 0
  {
    if p == 0 then [0] else Padding.Reversed(LowDigits(p))
  }

  /** Where position n is in a period of d. */
  function Place(n: nat, d: nat): (r: nat)
    requires d > 0
    ensures r < d
  {
    n % d
  }

  /** The byte that repeating the pattern puts at position n. */
  function Repeated(p: nat, n: nat): (r: byte) {
    var bytes := PatternBytes(p);
    bytes[Place(n, |bytes|)]
  }

  /** n bytes of the repeated pattern from a position on. */
  function FillTo(p: nat, from: nat, n: nat): (r: seq<byte>)
    ensures |r| == n
  {
    if n == 0 then [] else FillTo(p, from, n - 1) + [Repeated(p, from + n - 1)]
  }

  lemma {:induction false} FillAt(p: nat, from: nat, n: nat, k: nat)
    requires k < n
    ensures FillTo(p, from, n)[k] == Repeated(p, from + k)
  {
    hide Repeated;
    if k < n - 1 { FillAt(p, from, n - 1, k); }
  }

  /** A block of the filled buffer. */
  function SlotFill(p: nat, size: nat, slot: nat): (r: seq<byte>)
    ensures |r| == size
  {
    FillTo(p, slot * size, size)
  }

  /** A block with its number written over eight of its bytes, lowest byte first. */
  function Stamp(block: seq<byte>, offset: nat, number: nat): (r: seq<byte>)
    requires offset + 8 <= |block|
    ensures |r| == |block|
  {
    block[..offset] + Padding.Low(number, 8) + block[offset + 8..]
  }

  /** The last stamp is all that remains of stamping. */
  lemma StampAgain(x: seq<byte>, y: seq<byte>, offset: nat, a: nat, b: nat)
    requires |x| == |y| && offset + 8 <= |x| && Stamp(x, offset, a) == Stamp(y, offset, a)
    ensures Stamp(Stamp(x, offset, b), offset, a) == Stamp(x, offset, a)
    ensures Stamp(x, offset, b) == Stamp(y, offset, b)
  {
    var u, v := Stamp(x, offset, a), Stamp(y, offset, a);
    assert x[..offset] == u[..offset] && y[..offset] == v[..offset];
    assert x[offset + 8..] == u[offset + 8..] && y[offset + 8..] == v[offset + 8..];
    var w := Stamp(x, offset, b);
    assert w[..offset] == x[..offset] && w[offset + 8..] == x[offset + 8..];
  }

  /** Blocks with different numbers are told apart by their stamps. */
  lemma StampTells(block: seq<byte>, offset: nat, a: nat, b: nat)
    requires offset + 8 <= |block| && a < Padding.TWO64 && b < Padding.TWO64
    ensures Stamp(block, offset, a) == Stamp(block, offset, b) <==> a == b
  {
    var u, v := Stamp(block, offset, a), Stamp(block, offset, b);
    if u == v {
      assert u[offset..offset + 8] == Padding.Low(a, 8) && v[offset..offset + 8] == Padding.Low(b, 8);
      Padding.LowModulo(a, b, 8);
      Padding.Powers();
    }
  }

  /** The pattern of the first pass has one byte, whatever the flash type. */
  lemma FirstPattern(kind: nat)
    ensures PatternOf(kind, 0) < 256
  {
  }

  /** Filled with a pattern of one byte, all blocks of the buffer are the same. */
  lemma OneByteFill(p: nat, size: nat, i: nat, j: nat)
    requires p < 256
    ensures SlotFill(p, size, i) == SlotFill(p, size, j)
  {
    hide Repeated, FillTo;
    forall k | 0 <= k < size ensures SlotFill(p, size, i)[k] == SlotFill(p, size, j)[k] {
      FillAt(p, i * size, size, k);
      FillAt(p, j * size, size, k);
      OneByteAt(p, i * size + k);
      OneByteAt(p, j * size + k);
    }
  }

  lemma OneByteAt(p: nat, n: nat)
    requires p < 256
    ensures Repeated(p, n) == p
  {
    hide PatternBytes, Place;
    OneByte(p);
  }

  lemma OneByte(p: nat)
    requires p < 256
    ensures PatternBytes(p) == [p]
  {
    assert LowDigits(p) == if p == 0 then [] else [p];
    assert p != 0 ==> Padding.Reversed([p]) == [p];
  }

  /** The two patterns of three bytes fill two blocks alike exactly when these are a multiple
      of three places apart (a block being 512 KB). */
  lemma ThreeByteFill(p: nat, i: nat, j: nat)
    requires p == 0x1c71c7 || p == 0xe38e38
    ensures SlotFill(p, 0x80000, i) == SlotFill(p, 0x80000, j) <==> i % 3 == j % 3
  {
    hide PatternBytes, Place;
    var x, y := SlotFill(p, 0x80000, i), SlotFill(p, 0x80000, j);
    ThreeBytes(p);
    if i % 3 == j % 3 {
      forall k | 0 <= k < 0x80000 ensures x[k] == y[k] {
        FillAt(p, i * 0x80000, 0x80000, k);
        FillAt(p, j * 0x80000, 0x80000, k);
        Phase(i, k);
        Phase(j, k);
      }
    } else {
      FillAt(p, i * 0x80000, 0x80000, 0);
      FillAt(p, j * 0x80000, 0x80000, 0);
      Phase(i, 0);
      Phase(j, 0);
    }
  }

  /** Block i of 512 KB starts at place 2 i of a period of three. */
  lemma Phase(i: nat, k: nat)
    ensures Place(i * 0x80000 + k, 3) == (2 * (i % 3) + k) % 3
  {
    var q, r := i / 3, i % 3;
    assert i * 0x80000 + k == 3 * (0x80000 * q + 174762 * r) + (2 * r + k);
  }

  lemma ThreeBytes(p: nat)
    requires p == 0x1c71c7 || p == 0xe38e38
    ensures var b := PatternBytes(p); |b| == 3 && b[0] != b[1] && b[1] != b[2] && b[0] != b[2]
  {
    assert LowDigits(p / 256 / 256) == [p / 256 / 256];
    assert LowDigits(p / 256) == [p / 256 % 256, p / 256 / 256];
    assert LowDigits(p) == [p % 256, p / 256 % 256, p / 256 / 256];
  }

  // ---- Filling the buffer ----

  /** The pattern's bytes as pattern_fill takes them out of it, lowest first. */
  method SplitPattern(pattern: nat) returns (bytes: seq<byte>)
    requires pattern < 0x1_0000_0000
    ensures 0 < |bytes| <= 4 && Padding.Reversed(bytes) == PatternBytes(pattern)
  {
    bytes := [];
    var p: nat, i := pattern, 0;
    assert Padding.Power(4) == 0x1_0000_0000;
    while i < 4 && p != 0
      invariant i == |bytes| <= 4 && p < Padding.Power(4 - i)
      invariant bytes + LowDigits(p) == LowDigits(pattern)
    {
      NextDigit(bytes, p, 4 - i);
      bytes := bytes + [p % 256];
      p := p / 256;
      i := i + 1;
    }
    assert LowDigits(0) == [];
    if bytes == [] {
      bytes := [0];
    }
    assert Padding.Reversed([0]) == [0];
  }

  lemma NextDigit(bytes: seq<byte>, p: nat, n: nat)
    requires n > 0 && 0 < p < Padding.Power(n)
    ensures p / 256 < Padding.Power(n - 1)
    ensures bytes + LowDigits(p) == bytes + [p % 256] + LowDigits(p / 256)
  {
    assert bytes + ([p % 256] + LowDigits(p / 256)) == bytes + [p % 256] + LowDigits(p / 256);
  }

  /** pattern_fill: block after block, going down the pattern's bytes and around. */
  method PatternFill(buffer: array<seq<byte>>, size: nat, pattern: nat)
    requires pattern < 0x1_0000_0000
    modifies buffer
    ensures forall slot :: 0 <= slot < buffer.Length ==> buffer[slot] == SlotFill(pattern, size, slot)
  {
    hide Place, PatternBytes, FillTo;
    var bytes := SplitPattern(pattern);
    var nb := |bytes| - 1;
    var i := nb;
    ghost var n := 0;
    PlaceZero(|bytes|);
    for slot := 0 to buffer.Length
      invariant n == slot * size && 0 <= i == nb - Place(n, |bytes|)
      invariant forall k :: 0 <= k < slot ==> buffer[k] == SlotFill(pattern, size, k)
    {
      var block;
      block, i := FillBlock(bytes, i, size, pattern, n);
      buffer[slot] := block;
      n := n + size;
    }
  }

  /** The part of pattern_fill for one block, from the pattern's byte i on. */
  method FillBlock(bytes: seq<byte>, start: nat, size: nat, ghost pattern: nat, ghost from: nat)
    returns (block: seq<byte>, i: nat)
    requires 0 < |bytes| <= 4 && Padding.Reversed(bytes) == PatternBytes(pattern)
    requires start == |bytes| - 1 - Place(from, |bytes|)
    ensures block == FillTo(pattern, from, size) && i == |bytes| - 1 - Place(from + size, |bytes|)
  {
    hide Place, PatternBytes;
    var nb := |bytes| - 1;
    block, i := [], start;
    for k := 0 to size
      invariant 0 <= i == nb - Place(from + k, |bytes|)
      invariant block == FillTo(pattern, from, k)
    {
      Around(from + k, |bytes|);
      assert bytes[i] == Padding.Reversed(bytes)[nb - i];
      block := block + [bytes[i]];
      i := if i == 0 then nb else i - 1;
    }
  }

  lemma PlaceZero(d: nat)
    requires d > 0
    ensures Place(0, d) == 0
  {
  }

  lemma Around(n: nat, d: nat)
    requires 0 < d <= 4
    ensures Place(n + 1, d) == if Place(n, d) == d - 1 then 0 else Place(n, d) + 1
  {
    if d == 2 { Halves(n); }
    if d == 3 { Thirds(n); }
    if d == 4 { Quarters(n); }
  }

  lemma Halves(n: nat)
    ensures (n + 1) % 2 == if n % 2 == 1 then 0 else n % 2 + 1
  {
  }

  lemma Thirds(n: nat)
    ensures (n + 1) % 3 == if n % 3 == 2 then 0 else n % 3 + 1
  {
  }

  lemma Quarters(n: nat)
    ensures (n + 1) % 4 == if n % 4 == 3 then 0 else n % 4 + 1
  {
  }
}
