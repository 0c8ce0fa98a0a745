/** Character classes: the 256-bit set of cregex.h and the two readers of bracket
    text, the range check of the parser and the bit-setting loop of the compiler. */
module CharClass {
  import opened Bytes

  type Bitmap = k: seq<bv8> | |k| == 32 witness seq(32, _ => 0 as bv8)

  const BACKSLASH: byte := 0x5C
  const CLOSE_BRACKET: byte := 0x5D
  const DASH: byte := 0x2D
  const CARET: byte := 0x5E

  function NoBits(): (r: Bitmap) { seq(32, _ => 0 as bv8) }

  /** The value of a plain char, which is signed, as an int. */
  function Signed(b: byte): (r: int) {
    if b < 128 then b else b - 256
  }

  /** The conversion of an int to unsigned char. */
  function Unsigned(c: int): (r: byte) {
    c % 256
  }

  function Bit(i: nat): (r: bv8)
    requires i < 8
  {
    (1 as bv8) << i
  }

  predicate Contains(k: Bitmap, b: byte) {
    k[b / 8] & Bit(b % 8) != 0
  }

  function Add(k: Bitmap, b: byte): (r: Bitmap) {
    k[b / 8 := k[b / 8] | Bit(b % 8)]
  }

  lemma BitOps(x: bv8, i: nat, j: nat)
    requires i < 8 && j < 8
    ensures (x | Bit(i)) & Bit(j) != 0 <==> i == j || x & Bit(j) != 0
  {
    assert Bit(0) == 1 && Bit(1) == 2 && Bit(2) == 4 && Bit(3) == 8;
    assert Bit(4) == 16 && Bit(5) == 32 && Bit(6) == 64 && Bit(7) == 128;
  }

  /** Setting one bit adds exactly that byte to the class. */
  lemma AddContains(k: Bitmap, b: byte, d: byte)
    ensures Contains(Add(k, b), d) <==> d == b || Contains(k, d)
  {
    BitOps(k[b / 8], b % 8, d % 8);
  }

  lemma EmptyContains(d: byte)
    ensures !Contains(NoBits(), d)
  {
  }

  /** The bits set by counting the signed value from `c` up to `hi`. */
  function AddRange(k: Bitmap, c: int, hi: int): (r: Bitmap)
    requires -128 <= c && hi < 128
    decreases hi - c
  {
    if hi < c then k else AddRange(Add(k, Unsigned(c)), c + 1, hi)
  }

  lemma {:induction false} AddRangeContains(k: Bitmap, c: int, hi: int, d: byte)
    requires -128 <= c && hi < 128
    ensures Contains(AddRange(k, c, hi), d) <==> Contains(k, d) || c <= Signed(d) <= hi
    decreases hi - c
  {
    if c <= hi {
      AddRangeContains(Add(k, Unsigned(c)), c + 1, hi, d);
      AddContains(k, Unsigned(c), d);
    }
  }

  /** What a range lo-hi of a bracket expression holds once compiled. */
  predicate RangeHas(lo: byte, hi: byte, d: byte) {
    Signed(lo) <= Signed(d) <= Signed(hi)
  }

  /** A range that the parser accepts means "lo up to hi as unsigned bytes" exactly when it
      does not run across 0x80; one that does holds nothing at all. */
  lemma RangeMeaning(lo: byte, hi: byte)
    requires lo <= hi
    ensures (forall d: byte :: RangeHas(lo, hi, d) <==> lo <= d <= hi) <==> !(lo < 128 <= hi)
    ensures lo < 128 <= hi ==> forall d: byte :: !RangeHas(lo, hi, d)
  {
    assert RangeHas(lo, hi, lo) <==> Signed(lo) <= Signed(hi);
  }

  /** One item of bracket text starting at k: its first character, its range end and where
      the next item starts. None where the text is cut short. */
  datatype Item = NoItem | Item(lo: byte, hi: byte, single: bool, next: nat)

  function ItemAt(text: seq<byte>, k: nat): (r: Item)
    ensures r.Item? ==> k < r.next <= |text|
  {
    if k >= |text| then NoItem
    else
      var esc := text[k] == BACKSLASH;
      if esc && k + 1 >= |text| then NoItem
      else
        var ch := if esc then text[k + 1] else text[k];
        var n := if esc then k + 2 else k + 1;
        if n >= |text| then NoItem
        else if text[n] == DASH && n + 1 >= |text| then NoItem
        else if text[n] == DASH && text[n + 1] != CLOSE_BRACKET then Item(ch, text[n + 1], false, n + 2)
        else Item(ch, ch, true, n)
  }

  /** Bracket text that ends with the bracket that closes it, which is the only one that does. */
  predicate WellFormed(text: seq<byte>, k: nat)
    decreases |text| - k
  {
    k < |text| &&
    if text[k] == CLOSE_BRACKET && k > 0 then k + 1 == |text|
    else ItemAt(text, k).Item? && WellFormed(text, ItemAt(text, k).next)
  }

  /** Membership in a bracket expression, read off its text. */
  predicate InClass(text: seq<byte>, k: nat, d: byte)
    requires WellFormed(text, k)
    decreases |text| - k
  {
    !(text[k] == CLOSE_BRACKET && k > 0) &&
    var it := ItemAt(text, k);
    (if it.single then d == it.lo else RangeHas(it.lo, it.hi, d)) || InClass(text, it.next, d)
  }

  /** The bitmap that compiling the text from k on adds to acc. */
  function ClassBits(text: seq<byte>, k: nat, acc: Bitmap): (r: Bitmap)
    requires WellFormed(text, k)
    decreases |text| - k
  {
    if text[k] == CLOSE_BRACKET && k > 0 then acc
    else
      var it := ItemAt(text, k);
      ClassBits(text, it.next,
                if it.single then Add(acc, it.lo) else AddRange(acc, Signed(it.lo), Signed(it.hi)))
  }

  /** The compiled bitmap holds exactly the bytes that the bracket text denotes. */
  lemma {:induction false} ClassBitsContains(text: seq<byte>, k: nat, acc: Bitmap, d: byte)
    requires WellFormed(text, k)
    ensures Contains(ClassBits(text, k, acc), d) <==> Contains(acc, d) || InClass(text, k, d)
    decreases |text| - k
  {
    if !(text[k] == CLOSE_BRACKET && k > 0) {
      var it := ItemAt(text, k);
      if it.single {
        AddContains(acc, it.lo, d);
        ClassBitsContains(text, it.next, Add(acc, it.lo), d);
      } else {
        AddRangeContains(acc, Signed(it.lo), Signed(it.hi), d);
        ClassBitsContains(text, it.next, AddRange(acc, Signed(it.lo), Signed(it.hi)), d);
      }
    }
  }

  function BitmapOf(text: seq<byte>): (r: Bitmap)
    requires WellFormed(text, 0)
  {
    ClassBits(text, 0, NoBits())
  }

  lemma BitmapOfContains(text: seq<byte>, d: byte)
    requires WellFormed(text, 0)
    ensures Contains(BitmapOf(text), d) <==> InClass(text, 0, d)
  {
    ClassBitsContains(text, 0, NoBits(), d);
    EmptyContains(d);
  }

  /** The compiler's loop over bracket text, setting bits in the instruction's class. */
  method CompileCharClass(text: seq<byte>) returns (klass: Bitmap)
    requires WellFormed(text, 0)
    ensures klass == BitmapOf(text)
    ensures forall d: byte :: Contains(klass, d) <==> InClass(text, 0, d)
  {
    hide InClass, Contains, Add, Bit;
    klass := NoBits();
    var sp := 0;
    while true
      invariant WellFormed(text, sp)
      invariant ClassBits(text, sp, klass) == BitmapOf(text)
      decreases |text| - sp
    {
      ghost var it, was := ItemAt(text, sp), klass;
      var ch := text[sp];
      if ch == CLOSE_BRACKET && sp > 0 {
        break;
      }
      sp := sp + 1;
      if ch == BACKSLASH {
        ch := text[sp];
        sp := sp + 1;
      }
      if text[sp] == DASH && text[sp + 1] != CLOSE_BRACKET {
        var c, hi := Signed(ch), Signed(text[sp + 1]);
        while c <= hi
          invariant -128 <= c
          invariant AddRange(klass, c, hi) == AddRange(was, Signed(ch), hi)
          decreases hi - c
        {
          klass := Add(klass, Unsigned(c));
          c := c + 1;
        }
        sp := sp + 2;
      } else {
        klass := Add(klass, ch);
      }
    }
    forall d: byte ensures Contains(klass, d) <==> InClass(text, 0, d) {
      BitmapOfContains(text, d);
    }
  }
}
