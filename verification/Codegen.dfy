/** The program emitted for a parse tree, as a value: what cregex_compile.c leaves in the
    instruction array from a given position on. */
module Codegen {
  import opened CharClass
  import opened Syntax
  import opened Program

  /** count_instructions. */
  function Count(n: Node): (r: nat)
    requires Valid(n)
  {
    match n
    case Epsilon => 0
    case Concatenation(l, r) => Count(l) + Count(r)
    case Alternation(l, r) => 2 + Count(l) + Count(r)
    case Quantifier(nmin, nmax, _, q) =>
      if nmax >= nmin then nmin * Count(q) + (nmax - nmin) * (Count(q) + 1)
      else 1 + if nmin != 0 then nmin * Count(q) else Count(q) + 1
    case Capture(c) => 2 + Count(c)
    case _ => 1
  }

  /** The number of the next capture after compiling n with captures numbered from c. */
  function NextCapture(n: Node, c: nat): (r: nat)
    ensures r >= c
  {
    match n
    case Concatenation(l, r) => NextCapture(r, NextCapture(l, c))
    case Alternation(l, r) => NextCapture(r, NextCapture(l, c))
    case Quantifier(nmin, nmax, _, q) => if nmin == 0 && nmax == 0 then c else NextCapture(q, c)
    case Capture(x) => NextCapture(x, c + 1)
    case _ => c
  }

  /** The preferred branch of a split goes first: staying when greedy, leaving when not. */
  function Order(greedy: bool, stay: nat, leave: nat): (r: Instr) {
    if greedy then Split(stay, leave) else Split(leave, stay)
  }

  /** Two alternatives at b: a split that prefers x, and a jump behind x over y. */
  function Branches(b: nat, x: Code, y: Code): (r: Code)
    ensures |r| == |x| + |y| + 2
  {
    [Split(b + 1, b + 2 + |x|)] + x + [Jump(b + 2 + |x| + |y|)] + y
  }

  lemma Times(k: nat, n: nat)
    requires k > 0
    ensures (k - 1) * n == k * n - n
  {
  }

  /** The code of n placed at b, with captures numbered from c. */
  function CodeOf(n: Node, b: nat, c: nat): (r: Code)
    requires Valid(n)
    ensures |r| == Count(n)
    decreases n, 1
  {
    match n
    case Concatenation(l, r) => Sequence(l, r, b, c)
    case Alternation(l, r) => Choice(l, r, b, c)
    case Quantifier(nmin, nmax, greedy, q) => Repetition(nmin, nmax, greedy, q, b, c)
    case Capture(x) => Group(x, b, c)
    case _ => LeafCode(n)
  }

  function Sequence(l: Node, r: Node, b: nat, c: nat): (code: Code)
    requires Valid(l) && Valid(r)
    ensures |code| == Count(Concatenation(l, r))
    decreases Concatenation(l, r), 0
  {
    CodeOf(l, b, c) + CodeOf(r, b + Count(l), NextCapture(l, c))
  }

  function Choice(l: Node, r: Node, b: nat, c: nat): (code: Code)
    requires Valid(l) && Valid(r)
    ensures |code| == Count(Alternation(l, r))
    decreases Alternation(l, r), 0
  {
    Branches(b, CodeOf(l, b + 1, c), CodeOf(r, b + 2 + Count(l), NextCapture(l, c)))
  }

  function Group(x: Node, b: nat, c: nat): (r: Code)
    requires Valid(x)
    ensures |r| == Count(Capture(x))
    decreases Capture(x), 0
  {
    [Save(2 * c)] + CodeOf(x, b + 1, c + 1) + [Save(2 * c + 1)]
  }

  function LeafCode(n: Node): (r: Code)
    requires Valid(n) && Leaf(n)
    ensures |r| == Count(n)
  {
    match n
    case Epsilon => []
    case Character(ch) => [Char(ch)]
    case AnyCharacter => [AnyChar]
    case Class(negated, text) =>
      [if negated then CharClassNegated(BitmapOf(text)) else CharClass(BitmapOf(text))]
    case AnchorBegin => [AssertBegin]
    case AnchorEnd => [AssertEnd]
  }

  function Repetition(nmin: nat, nmax: int, greedy: bool, q: Node, b: nat, c: nat): (r: Code)
    requires Valid(q) && (nmax == -1 || nmin <= nmax)
    ensures |r| == Count(Quantifier(nmin, nmax, greedy, q))
    decreases q, nmin + nmax + 5
  {
    if nmax > nmin then
      Copies(q, nmin, b, c) + Optionals(q, nmax - nmin, greedy, b + nmin * Count(q), c)
    else if nmax != -1 then Copies(q, nmin, b, c)
    else if nmin == 0 then
      [Order(greedy, b + 1, b + Count(q) + 2)] + CodeOf(q, b + 1, c) + [Jump(b)]
    else
      Copies(q, nmin, b, c) + [Order(greedy, b + (nmin - 1) * Count(q), b + nmin * Count(q) + 1)]
  }

  /** k copies of q one after the other, all numbering their captures from c. */
  function Copies(q: Node, k: nat, b: nat, c: nat): (r: Code)
    requires Valid(q)
    ensures |r| == k * Count(q)
    decreases q, k + 2
  {
    if k == 0 then []
    else
      Times(k, Count(q));
      Copies(q, k - 1, b, c) + CodeOf(q, b + (k - 1) * Count(q), c)
  }

  /** k copies of q, each of which can be skipped. */
  function Optionals(q: Node, k: nat, greedy: bool, b: nat, c: nat): (r: Code)
    requires Valid(q)
    ensures |r| == k * (Count(q) + 1)
    decreases q, k + 2
  {
    if k == 0 then []
    else
      Times(k, Count(q) + 1);
      var at := b + (k - 1) * (Count(q) + 1);
      Optionals(q, k - 1, greedy, b, c) + [Order(greedy, at + 1, at + 1 + Count(q))] + CodeOf(q, at + 1, c)
  }

  // ---- The code of each kind of tree, unfolded once ----

  lemma ConcatenationCode(l: Node, r: Node, b: nat, c: nat)
    requires Valid(l) && Valid(r)
    ensures Count(Concatenation(l, r)) == Count(l) + Count(r)
    ensures NextCapture(Concatenation(l, r), c) == NextCapture(r, NextCapture(l, c))
    ensures CodeOf(Concatenation(l, r), b, c) == CodeOf(l, b, c) + CodeOf(r, b + Count(l), NextCapture(l, c))
  {
    hide CodeOf, WellFormed;
    ByKind(Concatenation(l, r), b, c);
  }

  lemma AlternationCode(l: Node, r: Node, b: nat, c: nat)
    requires Valid(l) && Valid(r)
    ensures Count(Alternation(l, r)) == 2 + Count(l) + Count(r)
    ensures NextCapture(Alternation(l, r), c) == NextCapture(r, NextCapture(l, c))
    ensures CodeOf(Alternation(l, r), b, c) ==
            Branches(b, CodeOf(l, b + 1, c), CodeOf(r, b + 2 + Count(l), NextCapture(l, c)))
  {
    hide CodeOf, WellFormed;
    ByKind(Alternation(l, r), b, c);
  }

  lemma CaptureCode(x: Node, b: nat, c: nat)
    requires Valid(x)
    ensures Count(Capture(x)) == 2 + Count(x) && NextCapture(Capture(x), c) == NextCapture(x, c + 1)
    ensures CodeOf(Capture(x), b, c) == [Save(2 * c)] + CodeOf(x, b + 1, c + 1) + [Save(2 * c + 1)]
  {
    hide CodeOf, WellFormed;
    ByKind(Capture(x), b, c);
  }

  /** The code of a tree by its kind. */
  lemma ByKind(n: Node, b: nat, c: nat)
    requires Valid(n)
    ensures n.Concatenation? ==> CodeOf(n, b, c) == Sequence(n.left, n.right, b, c)
    ensures n.Alternation? ==> CodeOf(n, b, c) == Choice(n.left, n.right, b, c)
    ensures n.Quantifier? ==> CodeOf(n, b, c) == Repetition(n.nmin, n.nmax, n.greedy, n.quantified, b, c)
    ensures n.Capture? ==> CodeOf(n, b, c) == Group(n.captured, b, c)
  {
    hide Count, NextCapture, Sequence, Choice, Repetition, Group, LeafCode, WellFormed;
  }

  lemma RangeCode(nmin: nat, nmax: nat, greedy: bool, q: Node, b: nat, mid: nat, c: nat)
    requires Valid(q) && nmin < nmax && mid == b + nmin * Count(q)
    ensures CodeOf(Quantifier(nmin, nmax, greedy, q), b, c) ==
            Copies(q, nmin, b, c) + Optionals(q, nmax - nmin, greedy, mid, c)
  {
    hide Count, CodeOf, Copies, Optionals;
    ByKind(Quantifier(nmin, nmax, greedy, q), b, c);
  }

  lemma ExactCode(n: nat, greedy: bool, q: Node, b: nat, c: nat)
    requires Valid(q)
    ensures CodeOf(Quantifier(n, n, greedy, q), b, c) == Copies(q, n, b, c)
  {
    hide Count, CodeOf, Copies, Optionals;
    ByKind(Quantifier(n, n, greedy, q), b, c);
  }

  lemma StarCode(greedy: bool, q: Node, b: nat, e: nat, c: nat)
    requires Valid(q) && e == b + Count(q) + 2
    ensures CodeOf(Quantifier(0, -1, greedy, q), b, c) ==
            [Order(greedy, b + 1, e)] + CodeOf(q, b + 1, c) + [Jump(b)]
  {
    hide Count, CodeOf, Copies, Optionals, Order;
    ByKind(Quantifier(0, -1, greedy, q), b, c);
  }

  lemma PlusCode(nmin: nat, greedy: bool, q: Node, b: nat, at: nat, e: nat, c: nat)
    requires Valid(q) && nmin > 0 && e == b + nmin * Count(q) + 1 && at + Count(q) + 1 == e
    ensures CodeOf(Quantifier(nmin, -1, greedy, q), b, c) == Copies(q, nmin, b, c) + [Order(greedy, at, e)]
  {
    hide Count, CodeOf, Copies, Optionals, Order;
    ByKind(Quantifier(nmin, -1, greedy, q), b, c);
    Times(nmin, Count(q));
  }

  lemma NextCopy(q: Node, k: nat, b: nat, at: nat, c: nat)
    requires Valid(q) && at == b + k * Count(q)
    ensures Copies(q, k + 1, b, c) == Copies(q, k, b, c) + CodeOf(q, at, c)
  {
    hide Count, CodeOf, Optionals;
  }

  lemma NextOptional(q: Node, k: nat, greedy: bool, b: nat, at: nat, e: nat, c: nat)
    requires Valid(q) && at == b + k * (Count(q) + 1) && e == at + 1 + Count(q)
    ensures Optionals(q, k + 1, greedy, b, c) ==
            Optionals(q, k, greedy, b, c) + [Order(greedy, at + 1, e)] + CodeOf(q, at + 1, c)
  {
    hide Count, CodeOf, Copies, Order;
  }

  lemma {:induction false} FirstCopy(q: Node, k: nat, b: nat, c: nat)
    requires Valid(q)
    ensures Copies(q, k + 1, b, c) == CodeOf(q, b, c) + Copies(q, k, b + Count(q), c)
  {
    hide *;
    var at := b + k * Count(q);
    NextCopy(q, k, b, at, c);
    if k == 0 {
      NoCopies(q, b, c);
      NoCopies(q, b + Count(q), c);
    } else {
      Times(k, Count(q));
      FirstCopy(q, k - 1, b, c);
      NextCopy(q, k - 1, b + Count(q), at, c);
    }
  }

  lemma NoCopies(q: Node, b: nat, c: nat)
    requires Valid(q)
    ensures Copies(q, 0, b, c) == []
  {
  }

  lemma NoOptionals(q: Node, greedy: bool, b: nat, c: nat)
    requires Valid(q)
    ensures Optionals(q, 0, greedy, b, c) == []
  {
  }

  lemma FourParts(x: Code, y: Code, z: Code, u: Code)
    ensures x + y + z + u == x + (y + z + u)
  {
  }

  lemma {:induction false} FirstOptional(q: Node, k: nat, greedy: bool, b: nat, next: nat, c: nat)
    requires Valid(q) && next == b + 1 + Count(q)
    ensures Optionals(q, k + 1, greedy, b, c) ==
            [Order(greedy, b + 1, next)] + CodeOf(q, b + 1, c) + Optionals(q, k, greedy, next, c)
  {
    hide *;
    var at := b + k * (Count(q) + 1);
    var e := at + 1 + Count(q);
    NextOptional(q, k, greedy, b, at, e, c);
    if k == 0 {
      NoOptionals(q, greedy, b, c);
      NoOptionals(q, greedy, next, c);
    } else {
      Times(k, Count(q) + 1);
      FirstOptional(q, k - 1, greedy, b, next, c);
      NextOptional(q, k - 1, greedy, next, at, e, c);
      FourParts([Order(greedy, b + 1, next)] + CodeOf(q, b + 1, c), Optionals(q, k - 1, greedy, next, c),
              [Order(greedy, at + 1, e)], CodeOf(q, at + 1, c));
    }
  }

  lemma RangeCount(nmin: nat, nmax: nat, greedy: bool, q: Node)
    requires Valid(q) && nmin <= nmax
    ensures Count(Quantifier(nmin, nmax, greedy, q)) == nmin * Count(q) + (nmax - nmin) * (Count(q) + 1)
  {
    hide Valid, CodeOf, WellFormed;
  }

  lemma OpenCount(nmin: nat, greedy: bool, q: Node)
    requires Valid(q)
    ensures Count(Quantifier(nmin, -1, greedy, q)) == if nmin == 0 then Count(q) + 2 else nmin * Count(q) + 1
  {
    hide Valid, CodeOf, WellFormed;
  }

  /** Code to be placed at b only goes to places inside it or to the place right after it. */
  predicate ClosedAt(code: Code, b: nat) {
    forall k :: 0 <= k < |code| ==> code[k] != Match && TargetsIn(code[k], b + k, b, b + |code|)
  }

  lemma ClosedConcat(x: Code, y: Code, b: nat)
    requires ClosedAt(x, b) && ClosedAt(y, b + |x|)
    ensures ClosedAt(x + y, b)
  {
    forall k | 0 <= k < |x + y|
      ensures (x + y)[k] != Match && TargetsIn((x + y)[k], b + k, b, b + |x + y|)
    {
      if k >= |x| { assert (x + y)[k] == y[k - |x|]; }
    }
  }

  lemma AlternationClosed(l: Node, r: Node, b: nat, c: nat)
    requires Valid(l) && Valid(r)
    requires ClosedAt(CodeOf(l, b + 1, c), b + 1)
    requires ClosedAt(CodeOf(r, b + 2 + Count(l), NextCapture(l, c)), b + 2 + Count(l))
    ensures ClosedAt(CodeOf(Alternation(l, r), b, c), b)
  {
    hide *;
    AlternationCode(l, r, b, c);
    BranchesClosed(CodeOf(l, b + 1, c), CodeOf(r, b + 2 + Count(l), NextCapture(l, c)), b);
  }

  lemma BranchesClosed(x: Code, y: Code, b: nat)
    requires ClosedAt(x, b + 1) && ClosedAt(y, b + 2 + |x|)
    ensures ClosedAt(Branches(b, x, y), b)
  {
    var code := Branches(b, x, y);
    forall k | 0 <= k < |code|
      ensures code[k] != Match && TargetsIn(code[k], b + k, b, b + |code|)
    {
      if 1 <= k < 1 + |x| { assert code[k] == x[k - 1]; }
      if k >= 2 + |x| { assert code[k] == y[k - 2 - |x|]; }
    }
  }

  lemma WrapClosed(x: Code, before: Instr, after: Instr, b: nat)
    requires ClosedAt(x, b + 1) && before != Match && after != Match
    requires TargetsIn(before, b, b, b + |x| + 2) && TargetsIn(after, b + |x| + 1, b, b + |x| + 2)
    ensures ClosedAt([before] + x + [after], b)
  {
    var code := [before] + x + [after];
    forall k | 0 <= k < |code|
      ensures code[k] != Match && TargetsIn(code[k], b + k, b, b + |code|)
    {
      if 1 <= k < 1 + |x| { assert code[k] == x[k - 1]; }
    }
  }

  /** Every jump and split target of the emitted code lies inside it or right after it, and
      no Match is among it. */
  lemma {:induction false} CodeClosed(n: Node, b: nat, c: nat)
    requires Valid(n)
    ensures ClosedAt(CodeOf(n, b, c), b)
    decreases n, 1
  {
    hide Count, NextCapture, CodeOf, ClosedAt, WellFormed;
    if n.Concatenation? {
      ConcatenationClosed(n.left, n.right, b, c);
    } else if n.Alternation? {
      CodeClosed(n.left, b + 1, c);
      CodeClosed(n.right, b + 2 + Count(n.left), NextCapture(n.left, c));
      AlternationClosed(n.left, n.right, b, c);
    } else if n.Quantifier? {
      QuantifierClosed(n.nmin, n.nmax, n.greedy, n.quantified, b, c);
    } else if n.Capture? {
      CodeClosed(n.captured, b + 1, c + 1);
      CaptureCode(n.captured, b, c);
      WrapClosed(CodeOf(n.captured, b + 1, c + 1), Save(2 * c), Save(2 * c + 1), b);
    } else {
      LeafClosed(n, b, c);
    }
  }

  lemma {:induction false} ConcatenationClosed(l: Node, r: Node, b: nat, c: nat)
    requires Valid(l) && Valid(r)
    ensures ClosedAt(CodeOf(Concatenation(l, r), b, c), b)
    decreases Concatenation(l, r), 0
  {
    hide *;
    CodeClosed(l, b, c);
    CodeClosed(r, b + Count(l), NextCapture(l, c));
    ConcatenationCode(l, r, b, c);
    ClosedConcat(CodeOf(l, b, c), CodeOf(r, b + Count(l), NextCapture(l, c)), b);
  }

  lemma LeafClosed(n: Node, b: nat, c: nat)
    requires Valid(n) && Leaf(n)
    ensures ClosedAt(CodeOf(n, b, c), b)
  {
  }

  lemma {:induction false} QuantifierClosed(nmin: nat, nmax: int, greedy: bool, q: Node, b: nat, c: nat)
    requires Valid(q) && (nmax == -1 || nmin <= nmax)
    ensures ClosedAt(CodeOf(Quantifier(nmin, nmax, greedy, q), b, c), b)
    decreases q, nmin + nmax + 4
  {
    hide *;
    var mid := b + nmin * Count(q);
    CopiesClosed(q, nmin, b, c);
    if nmax > nmin {
      RangeCode(nmin, nmax, greedy, q, b, mid, c);
      OptionalsClosed(q, nmax - nmin, greedy, mid, c);
      ClosedConcat(Copies(q, nmin, b, c), Optionals(q, nmax - nmin, greedy, mid, c), b);
    } else if nmax == nmin {
      ExactCode(nmin, greedy, q, b, c);
    } else if nmin == 0 {
      StarCode(greedy, q, b, b + Count(q) + 2, c);
      CodeClosed(q, b + 1, c);
      LoopClosed(CodeOf(q, b + 1, c), b, greedy);
    } else {
      Times(nmin, Count(q));
      var at := b + (nmin - 1) * Count(q);
      PlusCode(nmin, greedy, q, b, at, mid + 1, c);
      BackClosed(Copies(q, nmin, b, c), b, greedy, at, mid + 1);
    }
  }

  lemma LoopClosed(x: Code, b: nat, greedy: bool)
    requires ClosedAt(x, b + 1)
    ensures ClosedAt([Order(greedy, b + 1, b + |x| + 2)] + x + [Jump(b)], b)
  {
    WrapClosed(x, Order(greedy, b + 1, b + |x| + 2), Jump(b), b);
  }

  lemma BackClosed(x: Code, b: nat, greedy: bool, at: nat, e: nat)
    requires ClosedAt(x, b) && b <= at <= e == b + |x| + 1
    ensures ClosedAt(x + [Order(greedy, at, e)], b)
  {
  }

  lemma {:induction false} CopiesClosed(q: Node, k: nat, b: nat, c: nat)
    requires Valid(q)
    ensures ClosedAt(Copies(q, k, b, c), b)
    decreases q, k + 1
  {
    hide CodeOf, Optionals, Count;
    if k > 0 {
      var at := b + (k - 1) * Count(q);
      CopiesClosed(q, k - 1, b, c);
      CodeClosed(q, at, c);
      ClosedConcat(Copies(q, k - 1, b, c), CodeOf(q, at, c), b);
    }
  }

  lemma {:induction false} OptionalsClosed(q: Node, k: nat, greedy: bool, b: nat, c: nat)
    requires Valid(q)
    ensures ClosedAt(Optionals(q, k, greedy, b, c), b)
    decreases q, k + 1
  {
    hide CodeOf, Copies, Count, ClosedAt, Order;
    if k == 0 {
      NoneClosed(b);
    } else {
      var at := b + (k - 1) * (Count(q) + 1);
      OptionalsClosed(q, k - 1, greedy, b, c);
      CodeClosed(q, at + 1, c);
      NextOptional(q, k - 1, greedy, b, at, at + 1 + Count(q), c);
      SkipClosed(Optionals(q, k - 1, greedy, b, c), CodeOf(q, at + 1, c), greedy, b, at);
    }
  }

  lemma NoneClosed(b: nat)
    ensures ClosedAt([], b)
  {
  }

  lemma SkipClosed(pre: Code, x: Code, greedy: bool, b: nat, at: nat)
    requires at == b + |pre| && ClosedAt(pre, b) && ClosedAt(x, at + 1)
    ensures ClosedAt(pre + [Order(greedy, at + 1, at + 1 + |x|)] + x, b)
  {
    var sp := [Order(greedy, at + 1, at + 1 + |x|)];
    forall k | 0 <= k < |sp + x|
      ensures (sp + x)[k] != Match && TargetsIn((sp + x)[k], at + k, at, at + |sp + x|)
    {
      if k > 0 { assert (sp + x)[k] == x[k - 1]; }
    }
    ClosedConcat(pre, sp + x, b);
    assert pre + sp + x == pre + (sp + x);
  }

  /** The code stands in program p at b. */
  predicate Placed(p: Code, b: nat, code: Code) {
    b + |code| <= |p| && p[b..b + |code|] == code
  }

  lemma PlacedParts(p: Code, b: nat, x: Code, y: Code)
    requires Placed(p, b, x + y)
    ensures Placed(p, b, x) && Placed(p, b + |x|, y)
  {
    assert p[b..b + |x|] == (x + y)[..|x|];
    assert p[b + |x|..b + |x| + |y|] == (x + y)[|x|..];
  }

  lemma PlacedClosed(p: Code, b: nat, code: Code)
    requires Placed(p, b, code) && ClosedAt(code, b)
    ensures Closed(p, b, b + |code|)
  {
    forall k | b <= k < b + |code| ensures TargetsIn(p[k], k, b, b + |code|) {
      assert p[k] == code[k - b];
    }
  }
}
