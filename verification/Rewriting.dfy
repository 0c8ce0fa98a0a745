/** The parser makes alternatives of which one is empty optional, at every bar. That is a tree
    with the alternatives themselves, an empty one last, but for instructions that lead nowhere
    else. */
module Rewriting {
  import opened Bytes
  import opened CharClass
  import opened Syntax
  import opened Program
  import opened Codegen
  import opened Meaning
  import opened Threads
  import opened Paths
  import opened Precedence
  import opened Parsing
  import opened Simulation

  /** A tree of bars alone, which matches nothing. */
  predicate Hollow(m: Node) {
    m.Epsilon? || (m.Alternation? && Hollow(m.left) && Hollow(m.right))
  }

  /** The tree the parser makes where m has an alternation for every bar. */
  function Rewritten(m: Node): (n: Node) {
    match m
    case Concatenation(l, r) => Concatenation(Rewritten(l), Rewritten(r))
    case Alternation(l, r) => Either(Rewritten(l), Rewritten(r))
    case Quantifier(nmin, nmax, greedy, q) => Quantifier(nmin, nmax, greedy, Rewritten(q))
    case Capture(x) => Capture(Rewritten(x))
    case _ => m
  }

  /** No bar at any depth has an empty left side and a right side that is not empty. */
  predicate EmptyLater(m: Node) {
    match m
    case Concatenation(l, r) => EmptyLater(l) && EmptyLater(r)
    case Alternation(l, r) => (Hollow(l) ==> Hollow(r)) && EmptyLater(l) && EmptyLater(r)
    case Quantifier(_, _, _, q) => EmptyLater(q)
    case Capture(x) => EmptyLater(x)
    case _ => true
  }

  /** The tree with the sides of the other bars exchanged. */
  function EmptyLast(m: Node): (n: Node) {
    match m
    case Concatenation(l, r) => Concatenation(EmptyLast(l), EmptyLast(r))
    case Alternation(l, r) =>
      if Hollow(l) && !Hollow(r) then Alternation(EmptyLast(r), EmptyLast(l)) else Alternation(EmptyLast(l), EmptyLast(r))
    case Quantifier(nmin, nmax, greedy, q) => Quantifier(nmin, nmax, greedy, EmptyLast(q))
    case Capture(x) => Capture(EmptyLast(x))
    case _ => m
  }

  lemma {:induction false} RewrittenHollow(m: Node)
    ensures Rewritten(m) == Epsilon <==> Hollow(m)
  {
    if m.Alternation? {
      RewrittenHollow(m.left);
      RewrittenHollow(m.right);
    }
  }

  lemma {:induction false} RewrittenValid(m: Node)
    requires Valid(m)
    ensures Valid(Rewritten(m))
  {
    match m
    case Concatenation(l, r) => RewrittenValid(l); RewrittenValid(r);
    case Alternation(l, r) => RewrittenValid(l); RewrittenValid(r);
    case Quantifier(_, _, _, q) => RewrittenValid(q);
    case Capture(x) => RewrittenValid(x);
    case _ =>
  }

  /** Exchanging the sides makes no difference to the parser's tree, and leaves no other bars. */
  lemma {:induction false} EmptyLastIs(m: Node)
    ensures Rewritten(EmptyLast(m)) == Rewritten(m) && EmptyLater(EmptyLast(m))
    ensures Hollow(EmptyLast(m)) <==> Hollow(m)
    ensures Valid(m) ==> Valid(EmptyLast(m))
    ensures EmptyLater(m) ==> EmptyLast(m) == m
  {
    RewrittenHollow(m);
    match m
    case Concatenation(l, r) => EmptyLastIs(l); EmptyLastIs(r);
    case Alternation(l, r) =>
      EmptyLastIs(l);
      EmptyLastIs(r);
      RewrittenHollow(l);
      RewrittenHollow(r);
    case Quantifier(_, _, _, q) => EmptyLastIs(q);
    case Capture(x) => EmptyLastIs(x);
    case _ =>
  }

  lemma {:induction false} HollowCaptures(m: Node, c: nat)
    requires Hollow(m)
    ensures NextCapture(m, c) == c
  {
    if m.Alternation? {
      HollowCaptures(m.left, c);
      HollowCaptures(m.right, c);
    }
  }

  /** Captures are numbered alike. */
  lemma {:induction false} RewrittenCaptures(m: Node, c: nat)
    ensures NextCapture(Rewritten(m), c) == NextCapture(m, c)
  {
    match m
    case Concatenation(l, r) => RewrittenCaptures(l, c); RewrittenCaptures(r, NextCapture(l, c));
    case Alternation(l, r) =>
      RewrittenCaptures(l, c);
      RewrittenCaptures(r, NextCapture(l, c));
      RewrittenHollow(l);
      RewrittenHollow(r);
      if Hollow(l) { HollowCaptures(l, c); }
      if Hollow(r) { HollowCaptures(r, NextCapture(l, c)); }
    case Quantifier(_, _, _, q) => RewrittenCaptures(q, c);
    case Capture(x) => RewrittenCaptures(x, c + 1);
    case _ =>
  }

  // ---- The silent instructions ----

  function Times(x: seq<bool>, k: nat): (r: seq<bool>)
    ensures |r| == k * |x|
  {
    if k == 0 then []
    else
      Codegen.Times(k, |x|);
      x + Times(x, k - 1)
  }

  /** Which instructions of the code of m the parser's tree has no counterpart for: the jump over
      an empty second branch, and all of bars alone. */
  function Silents(m: Node): (r: seq<bool>)
    requires Valid(m)
    ensures |r| == Count(m)
    decreases m, 0
  {
    match m
    case Epsilon => []
    case Concatenation(l, r) => Silents(l) + Silents(r)
    case Alternation(l, r) => [Hollow(m)] + Silents(l) + [Hollow(r)] + Silents(r)
    case Quantifier(nmin, nmax, _, q) => QuantifierSilents(nmin, nmax, q)
    case Capture(x) => [false] + Silents(x) + [false]
    case _ => [false]
  }

  function QuantifierSilents(nmin: nat, nmax: int, q: Node): (r: seq<bool>)
    requires Valid(q) && (nmax == -1 || nmin <= nmax)
    ensures |r| == Count(Quantifier(nmin, nmax, true, q))
    decreases q, 1
  {
    if nmax != -1 then Times(Silents(q), nmin) + Times([false] + Silents(q), nmax - nmin)
    else if nmin == 0 then [false] + Silents(q) + [false]
    else Times(Silents(q), nmin) + [false]
  }

  lemma {:induction false} HollowSilents(m: Node)
    requires Valid(m) && Hollow(m)
    ensures forall k :: 0 <= k < Count(m) ==> Silents(m)[k]
  {
    if m.Alternation? {
      HollowSilents(m.left);
      HollowSilents(m.right);
    }
  }

  /** The marks x stand in f from b on. */
  predicate Marks(f: seq<bool>, b: nat, x: seq<bool>) {
    b + |x| <= |f| && f[b..b + |x|] == x
  }

  lemma MarksParts(f: seq<bool>, b: nat, x: seq<bool>, y: seq<bool>)
    requires Marks(f, b, x + y)
    ensures Marks(f, b, x) && Marks(f, b + |x|, y)
  {
    assert f[b..b + |x|] == (x + y)[..|x|];
    assert f[b + |x|..b + |x| + |y|] == (x + y)[|x|..];
  }

  lemma MarksOne(f: seq<bool>, b: nat, x: bool)
    requires Marks(f, b, [x])
    ensures b < |f| && f[b] == x && Kept(f, b + 1) == Kept(f, b) + if x then 0 else 1
  {
    assert f[b] == f[b..b + 1][0];
  }

  predicate Region(p: Code, p': Code, f: seq<bool>, lo: nat, hi: nat) {
    hi < |p| == |f| && forall pc :: lo <= pc < hi ==> Follows(p, p', f, pc)
  }

  lemma RegionOn(p: Code, p': Code, f: seq<bool>, lo: nat, mid: nat, hi: nat)
    requires Region(p, p', f, lo, mid) && Region(p, p', f, mid, hi)
    ensures Region(p, p', f, lo, hi)
  {
    hide Follows;
  }

  lemma RegionOne(p: Code, p': Code, f: seq<bool>, pc: nat)
    requires pc + 1 < |p| == |f| && Follows(p, p', f, pc)
    ensures Region(p, p', f, pc, pc + 1)
  {
    hide Follows;
  }

  // ---- The code of a tree and of the parser's tree ----

  /** The code of m at b in p is the code of the parser's tree at b' in p', but for what is
      silent. */
  predicate Alike(m: Node, p: Code, p': Code, f: seq<bool>, b: nat, e: nat, b': nat)
    requires Valid(m) && Valid(Rewritten(m))
  {
    Region(p, p', f, b, e) && Kept(f, e) == b' + Count(Rewritten(m))
  }

  lemma {:induction false} TreeAlike(m: Node, p: Code, p': Code, f: seq<bool>, b: nat, e: nat, b': nat, c: nat)
    requires Valid(m) && Valid(Rewritten(m)) && EmptyLater(m) && e == b + Count(m) && e < |p| == |f|
    requires Placed(p, b, CodeOf(m, b, c)) && Placed(p', b', CodeOf(Rewritten(m), b', c))
    requires Marks(f, b, Silents(m)) && Kept(f, b) == b'
    ensures Alike(m, p, p', f, b, e, b')
    decreases m, 1, 0
  {
    hide Placed, CodeOf, Count, Valid, Rewritten, EmptyLater, Marks, Silents, Kept, Alike;
    RewrittenHollow(m);
    if Hollow(m) {
      HollowAlike(m, p, p', f, b, e, b', c);
    } else if m.Concatenation? {
      ConcatenationAlike(m.left, m.right, p, p', f, b, e, b', c);
    } else if m.Alternation? {
      AlternationAlike(m.left, m.right, p, p', f, b, e, b', c);
    } else if m.Quantifier? {
      QuantifierAlike(m, p, p', f, b, e, b', c);
    } else if m.Capture? {
      CaptureAlike(m.captured, p, p', f, b, e, b', c);
    } else {
      LeafAlike(m, p, p', f, b, e, b', c);
    }
  }

  lemma LeafAlike(m: Node, p: Code, p': Code, f: seq<bool>, b: nat, e: nat, b': nat, c: nat)
    requires Valid(m) && Leaf(m) && m != Epsilon && e == b + Count(m) && e < |p| == |f|
    requires Valid(Rewritten(m)) && Placed(p, b, CodeOf(m, b, c)) && Placed(p', b', CodeOf(Rewritten(m), b', c))
    requires Marks(f, b, Silents(m)) && Kept(f, b) == b'
    ensures Alike(m, p, p', f, b, e, b')
  {
    hide Kept;
    MarksOne(f, b, false);
    PlacedOne(p, b, CodeOf(m, b, c)[0]);
    PlacedOne(p', b', CodeOf(m, b', c)[0]);
    RegionOne(p, p', f, b);
  }

  lemma ConcatenationParts(l: Node, r: Node)
    requires Valid(Concatenation(l, r)) && Valid(Rewritten(Concatenation(l, r))) && EmptyLater(Concatenation(l, r))
    ensures Valid(l) && Valid(r) && Valid(Rewritten(l)) && Valid(Rewritten(r)) && EmptyLater(l) && EmptyLater(r)
    ensures Rewritten(Concatenation(l, r)) == Concatenation(Rewritten(l), Rewritten(r))
    ensures Silents(Concatenation(l, r)) == Silents(l) + Silents(r)
  {
    hide WellFormed;
  }

  lemma {:induction false} ConcatenationAlike(l: Node, r: Node, p: Code, p': Code, f: seq<bool>, b: nat, e: nat, b': nat, c: nat)
    requires Valid(Concatenation(l, r)) && Valid(Rewritten(Concatenation(l, r))) && EmptyLater(Concatenation(l, r))
    requires e == b + Count(Concatenation(l, r)) && e < |p| == |f|
    requires Placed(p, b, CodeOf(Concatenation(l, r), b, c))
    requires Placed(p', b', CodeOf(Rewritten(Concatenation(l, r)), b', c))
    requires Marks(f, b, Silents(Concatenation(l, r))) && Kept(f, b) == b'
    ensures Alike(Concatenation(l, r), p, p', f, b, e, b')
    decreases Concatenation(l, r), 0, 0
  {
    hide Placed, CodeOf, Count, Valid, Rewritten, EmptyLater, Marks, Silents, Kept, Region;
    ConcatenationParts(l, r);
    var l', r' := Rewritten(l), Rewritten(r);
    var b1, b1', c1 := b + Count(l), b' + Count(l'), NextCapture(l, c);
    RewrittenCaptures(l, c);
    ConcatenationCode(l, r, b, c);
    ConcatenationCode(l', r', b', c);
    PlacedParts(p, b, CodeOf(l, b, c), CodeOf(r, b1, c1));
    PlacedParts(p', b', CodeOf(l', b', c), CodeOf(r', b1', c1));
    MarksParts(f, b, Silents(l), Silents(r));
    TreeAlike(l, p, p', f, b, b1, b', c);
    TreeAlike(r, p, p', f, b1, e, b1', c1);
    RegionOn(p, p', f, b, b1, e);
  }

  lemma {:induction false} CaptureAlike(x: Node, p: Code, p': Code, f: seq<bool>, b: nat, e: nat, b': nat, c: nat)
    requires Valid(Capture(x)) && Valid(Rewritten(Capture(x))) && EmptyLater(Capture(x))
    requires e == b + Count(Capture(x)) && e < |p| == |f|
    requires Placed(p, b, CodeOf(Capture(x), b, c)) && Placed(p', b', CodeOf(Rewritten(Capture(x)), b', c))
    requires Marks(f, b, Silents(Capture(x))) && Kept(f, b) == b'
    ensures Alike(Capture(x), p, p', f, b, e, b')
    decreases Capture(x), 0, 0
  {
    hide Placed, CodeOf, Marks, Kept, Region, Follows, Count, Valid, Rewritten, EmptyLater, Silents;
    CaptureParts(x);
    var x' := Rewritten(x);
    var e' := b' + 2 + Count(x');
    CapturePlaced(x, p, b, e, c);
    CapturePlaced(x', p', b', e', c);
    MarksParts(f, b, [false] + Silents(x), [false]);
    MarksParts(f, b, [false], Silents(x));
    MarksOne(f, b, false);
    TreeAlike(x, p, p', f, b + 1, e - 1, b' + 1, c + 1);
    MarksOne(f, e - 1, false);
    KeptFollows(p, p', f, b, p[b]);
    KeptFollows(p, p', f, e - 1, p[e - 1]);
    RegionOne(p, p', f, b);
    RegionOne(p, p', f, e - 1);
    RegionOn(p, p', f, b, b + 1, e - 1);
    RegionOn(p, p', f, b, e - 1, e);
  }

  lemma CaptureParts(x: Node)
    requires Valid(Capture(x)) && Valid(Rewritten(Capture(x))) && EmptyLater(Capture(x))
    ensures Valid(x) && Valid(Rewritten(x)) && EmptyLater(x) && Rewritten(Capture(x)) == Capture(Rewritten(x))
    ensures Silents(Capture(x)) == [false] + Silents(x) + [false]
    ensures Count(Capture(x)) == 2 + Count(x) && Count(Capture(Rewritten(x))) == 2 + Count(Rewritten(x))
  {
    hide WellFormed;
  }

  /** Bars alone are silent altogether. */
  lemma {:induction false} HollowAlike(m: Node, p: Code, p': Code, f: seq<bool>, b: nat, e: nat, b': nat, c: nat)
    requires Valid(m) && Hollow(m) && Rewritten(m) == Epsilon && e == b + Count(m) && e < |p| == |f|
    requires Placed(p, b, CodeOf(m, b, c)) && Marks(f, b, Silents(m)) && Kept(f, b) == b'
    ensures Alike(m, p, p', f, b, e, b')
  {
    hide Placed, CodeOf, Kept, Region, Follows;
    HollowSilents(m);
    forall k | b <= k < e ensures f[k] { assert f[k] == f[b..e][k - b]; }
    SilentRun(f, b, e);
    HollowFollows(m, p, p', f, b, e, b, e, c);
  }

  lemma {:induction false} SilentRun(f: seq<bool>, b: nat, e: nat)
    requires b <= e <= |f| && forall k :: b <= k < e ==> f[k]
    ensures forall k :: b <= k <= e ==> Kept(f, k) == Kept(f, b)
    decreases e
  {
    if b < e { SilentRun(f, b, e - 1); }
  }

  lemma {:induction false} HollowFollows(m: Node, p: Code, p': Code, f: seq<bool>, lo: nat, hi: nat, b: nat, e: nat, c: nat)
    requires Valid(m) && Hollow(m) && lo <= b && e == b + Count(m) && e <= hi < |p| == |f|
    requires Placed(p, b, CodeOf(m, b, c)) && (forall k :: lo <= k < hi ==> f[k])
    requires forall k :: lo <= k <= hi ==> Kept(f, k) == Kept(f, lo)
    ensures Region(p, p', f, b, e)
    decreases m
  {
    hide Placed, CodeOf, Kept, Follows;
    if m.Alternation? {
      var l, r := m.left, m.right;
      var b2 := b + 2 + Count(l);
      BranchesPlaced(l, r, p, b, b2, e, c);
      HollowFollows(l, p, p', f, lo, hi, b + 1, b2 - 1, c);
      HollowFollows(r, p, p', f, lo, hi, b2, e, NextCapture(l, c));
      SilentFollows(p, p', f, b, b + 1, b2);
      SilentFollows(p, p', f, b2 - 1, e, e);
      RegionOne(p, p', f, b);
      RegionOne(p, p', f, b2 - 1);
      RegionOn(p, p', f, b, b + 1, b2 - 1);
      RegionOn(p, p', f, b, b2 - 1, b2);
      RegionOn(p, p', f, b, b2, e);
    }
  }

  /** A jump or split forward to where nothing is kept in between. */
  lemma SilentFollows(p: Code, p': Code, f: seq<bool>, pc: nat, x: nat, y: nat)
    requires pc < x < |p| == |f| && pc < y < |p| && f[pc] && Kept(f, x) == Kept(f, y) == Kept(f, pc)
    requires p[pc] == Split(x, y) || (p[pc] == Jump(x) && x == y)
    ensures Follows(p, p', f, pc)
  {
    hide Kept;
  }

  lemma KeptFollows(p: Code, p': Code, f: seq<bool>, pc: nat, ins: Instr)
    requires pc < |p| == |f| && !f[pc] && Kept(f, pc) < |p'|
    requires p[pc].Split? ==> p[pc].first < |p| && p[pc].second < |p| &&
                              p'[Kept(f, pc)] == Split(Kept(f, p[pc].first), Kept(f, p[pc].second))
    requires p[pc].Jump? ==> p[pc].target < |p| && p'[Kept(f, pc)] == Jump(Kept(f, p[pc].target))
    requires !p[pc].Split? && !p[pc].Jump? ==> p'[Kept(f, pc)] == p[pc]
    ensures Follows(p, p', f, pc)
  {
    hide Kept;
  }

  lemma {:induction false} AlternationAlike(l: Node, r: Node, p: Code, p': Code, f: seq<bool>, b: nat, e: nat, b': nat, c: nat)
    requires Valid(Alternation(l, r)) && Valid(Rewritten(Alternation(l, r))) && EmptyLater(Alternation(l, r))
    requires !Hollow(Alternation(l, r)) && e == b + Count(Alternation(l, r)) && e < |p| == |f|
    requires Placed(p, b, CodeOf(Alternation(l, r), b, c))
    requires Placed(p', b', CodeOf(Rewritten(Alternation(l, r)), b', c))
    requires Marks(f, b, Silents(Alternation(l, r))) && Kept(f, b) == b'
    ensures Alike(Alternation(l, r), p, p', f, b, e, b')
    decreases Alternation(l, r), 0, 0
  {
    hide Placed, CodeOf, Marks, Kept, Region, Follows, Count, Silents, Rewritten;
    AlternationParts(l, r);
    var l', r' := Rewritten(l), Rewritten(r);
    var b2, c1 := b + 2 + Count(l), NextCapture(l, c);
    BranchesPlaced(l, r, p, b, b2, e, c);
    MarksParts(f, b, [false] + Silents(l) + [Hollow(r)], Silents(r));
    MarksParts(f, b, [false] + Silents(l), [Hollow(r)]);
    MarksParts(f, b, [false], Silents(l));
    MarksOne(f, b, false);
    MarksOne(f, b2 - 1, Hollow(r));
    RewrittenCaptures(l, c);
    if Hollow(r) {
      OptionalTreePlaced(l', p', b', b' + 1 + Count(l'), c);
      TreeAlike(l, p, p', f, b + 1, b2 - 1, b' + 1, c);
      HollowAlike(r, p, p', f, b2, e, b' + 1 + Count(l'), c1);
      SilentFollows(p, p', f, b2 - 1, e, e);
    } else {
      var b2' := b' + 2 + Count(l');
      BranchesPlaced(l', r', p', b', b2', b2' + Count(r'), c);
      TreeAlike(l, p, p', f, b + 1, b2 - 1, b' + 1, c);
      TreeAlike(r, p, p', f, b2, e, b2', c1);
      KeptFollows(p, p', f, b2 - 1, p[b2 - 1]);
    }
    KeptFollows(p, p', f, b, p[b]);
    RegionOne(p, p', f, b);
    RegionOne(p, p', f, b2 - 1);
    RegionOn(p, p', f, b, b + 1, b2 - 1);
    RegionOn(p, p', f, b, b2 - 1, b2);
    RegionOn(p, p', f, b, b2, e);
  }

  lemma AlternationParts(l: Node, r: Node)
    requires Valid(Alternation(l, r)) && Valid(Rewritten(Alternation(l, r))) && EmptyLater(Alternation(l, r))
    requires !Hollow(Alternation(l, r))
    ensures Valid(l) && Valid(r) && Valid(Rewritten(l)) && Valid(Rewritten(r)) && EmptyLater(l) && EmptyLater(r)
    ensures Count(Alternation(l, r)) == 2 + Count(l) + Count(r)
    ensures Silents(Alternation(l, r)) == [false] + Silents(l) + [Hollow(r)] + Silents(r)
    ensures !Hollow(l) && (Hollow(r) ==> Rewritten(r) == Epsilon && Count(Rewritten(r)) == 0)
    ensures Hollow(r) ==> Rewritten(Alternation(l, r)) == Quantifier(0, 1, true, Rewritten(l)) &&
                          Count(Rewritten(Alternation(l, r))) == 1 + Count(Rewritten(l))
    ensures !Hollow(r) ==> Rewritten(Alternation(l, r)) == Alternation(Rewritten(l), Rewritten(r)) &&
                           Count(Rewritten(Alternation(l, r))) == 2 + Count(Rewritten(l)) + Count(Rewritten(r))
  {
    hide WellFormed;
    RewrittenHollow(l);
    RewrittenHollow(r);
    RewrittenValid(l);
    RewrittenValid(r);
  }

  lemma OptionalTreePlaced(q: Node, p: Code, b: nat, e: nat, c: nat)
    requires Valid(q) && e == b + 1 + Count(q) && Placed(p, b, CodeOf(Quantifier(0, 1, true, q), b, c))
    ensures b < |p| && p[b] == Split(b + 1, e) && Placed(p, b + 1, CodeOf(q, b + 1, c))
  {
    hide Placed, CodeOf, Count;
    RangeCount(0, 1, true, q);
    RangeParts(q, 0, 1, true, p, b, e, c);
    RangeOptional(q, 1, true, p, b, e, e, c);
  }

  lemma QuantifierAlikeParts(m: Node)
    requires m.Quantifier? && Valid(m) && Valid(Rewritten(m)) && EmptyLater(m)
    ensures Valid(m.quantified) && Valid(Rewritten(m.quantified)) && EmptyLater(m.quantified)
    ensures m.nmax == -1 || m.nmin <= m.nmax
    ensures m == Quantifier(m.nmin, m.nmax, m.greedy, m.quantified)
    ensures Rewritten(m) == Quantifier(m.nmin, m.nmax, m.greedy, Rewritten(m.quantified))
    ensures Silents(m) == QuantifierSilents(m.nmin, m.nmax, m.quantified)
  {
    hide WellFormed;
  }

  lemma {:induction false} QuantifierAlike(m: Node, p: Code, p': Code, f: seq<bool>, b: nat, e: nat, b': nat, c: nat)
    requires m.Quantifier? && Valid(m) && Valid(Rewritten(m)) && EmptyLater(m) && e == b + Count(m) && e < |p| == |f|
    requires Placed(p, b, CodeOf(m, b, c)) && Placed(p', b', CodeOf(Rewritten(m), b', c))
    requires Marks(f, b, Silents(m)) && Kept(f, b) == b'
    ensures Alike(m, p, p', f, b, e, b')
    decreases m, 0, 0
  {
    hide Placed, CodeOf, Marks, Kept, Region, Follows, Count, Silents, Rewritten, RangePlaced, Valid, EmptyLater, Times, Copies;
    QuantifierAlikeParts(m);
    var nmin, greedy, q, q' := m.nmin, m.greedy, m.quantified, Rewritten(m.quantified);
    var e' := b' + Count(Rewritten(m));
    if m.nmax != -1 {
      RangeParts(q, nmin, m.nmax, greedy, p, b, e, c);
      RangeParts(q', nmin, m.nmax, greedy, p', b', e', c);
      RangeAlike(q, nmin, m.nmax - nmin, greedy, p, p', f, b, e, b', e', c);
    } else if nmin == 0 {
      OpenCount(0, greedy, q);
      OpenCount(0, greedy, q');
      StarAlike(q, greedy, p, p', f, b, e, b', e', c);
    } else {
      OpenCount(nmin, greedy, q);
      OpenCount(nmin, greedy, q');
      var at, at' := b + (nmin - 1) * Count(q), b' + (nmin - 1) * Count(q');
      PlusPlaced(nmin, greedy, q, p, b, at, e, c);
      PlusPlaced(nmin, greedy, q', p', b', at', e', c);
      PlusAlike(q, nmin, greedy, p, p', f, b, at, e, b', at', e', c);
    }
  }

  lemma {:induction false} StarAlike(q: Node, greedy: bool, p: Code, p': Code, f: seq<bool>, b: nat, e: nat, b': nat,
                                     e': nat, c: nat)
    requires Valid(q) && Valid(Rewritten(q)) && EmptyLater(q) && e < |p| == |f|
    requires e == b + Count(q) + 2 && e' == b' + Count(Rewritten(q)) + 2
    requires Placed(p, b, CodeOf(Quantifier(0, -1, greedy, q), b, c))
    requires Placed(p', b', CodeOf(Quantifier(0, -1, greedy, Rewritten(q)), b', c))
    requires Marks(f, b, [false] + Silents(q) + [false]) && Kept(f, b) == b'
    ensures Region(p, p', f, b, e) && Kept(f, e) == e'
    decreases q, 2, 0
  {
    hide Placed, CodeOf, Marks, Kept, Region, Follows, Count, Silents, Rewritten, Valid, EmptyLater;
    StarPlaced(greedy, q, p, b, e, c);
    StarPlaced(greedy, Rewritten(q), p', b', e', c);
    MarksParts(f, b, [false] + Silents(q), [false]);
    MarksParts(f, b, [false], Silents(q));
    MarksOne(f, b, false);
    TreeAlike(q, p, p', f, b + 1, e - 1, b' + 1, c);
    MarksOne(f, e - 1, false);
    KeptFollows(p, p', f, b, p[b]);
    KeptFollows(p, p', f, e - 1, p[e - 1]);
    RegionOne(p, p', f, b);
    RegionOne(p, p', f, e - 1);
    RegionOn(p, p', f, b, b + 1, e - 1);
    RegionOn(p, p', f, b, e - 1, e);
  }

  /** The copies of a bounded quantifier, required and optional. */
  lemma {:induction false} RangeAlike(q: Node, nmin: nat, opt: nat, greedy: bool, p: Code, p': Code, f: seq<bool>,
                                      b: nat, e: nat, b': nat, e': nat, c: nat)
    requires Valid(q) && Valid(Rewritten(q)) && EmptyLater(q) && e < |p| == |f|
    requires RangePlaced(q, nmin, opt, greedy, p, b, e, c) && RangePlaced(Rewritten(q), nmin, opt, greedy, p', b', e', c)
    requires Marks(f, b, Times(Silents(q), nmin) + Times([false] + Silents(q), opt)) && Kept(f, b) == b'
    ensures Region(p, p', f, b, e) && Kept(f, e) == e'
    decreases q, 2, nmin + opt, 0
  {
    hide CodeOf, Marks, Kept, Region, Follows, Count, Silents, Rewritten, RangePlaced, Valid, EmptyLater, Times, Placed;
    if nmin > 0 {
      var next, next' := b + Count(q), b' + Count(Rewritten(q));
      RangeFirst(q, nmin, opt, greedy, p, b, e, next, c);
      RangeFirst(Rewritten(q), nmin, opt, greedy, p', b', e', next', c);
      NextTimes(Silents(q), nmin, Times([false] + Silents(q), opt));
      MarksParts(f, b, Silents(q), Times(Silents(q), nmin - 1) + Times([false] + Silents(q), opt));
      RangeWithin(q, nmin - 1, opt, greedy, p, next, e, c);
      TreeAlike(q, p, p', f, b, next, b', c);
      RangeAlike(q, nmin - 1, opt, greedy, p, p', f, next, e, next', e', c);
      RegionOn(p, p', f, b, next, e);
    } else if opt > 0 {
      OptionalAlike(q, opt, greedy, p, p', f, b, e, b', e', c);
    } else {
      RangeEnd(q, greedy, p, b, e, c);
      RangeEnd(Rewritten(q), greedy, p', b', e', c);
      NoRegion(p, p', f, b);
    }
  }

  lemma NoRegion(p: Code, p': Code, f: seq<bool>, b: nat)
    requires b < |p| == |f|
    ensures Region(p, p', f, b, b)
  {
  }

  lemma RangeWithin(q: Node, nmin: nat, opt: nat, greedy: bool, p: Code, b: nat, e: nat, c: nat)
    requires Valid(q) && RangePlaced(q, nmin, opt, greedy, p, b, e, c)
    ensures b <= e
  {
  }

  lemma NextTimes(x: seq<bool>, k: nat, y: seq<bool>)
    requires k > 0
    ensures Times(x, k) + y == x + (Times(x, k - 1) + y)
  {
  }

  lemma NoTimes(x: seq<bool>, y: seq<bool>)
    ensures Times(x, 0) + y == y
  {
  }

  lemma {:induction false} OptionalAlike(q: Node, opt: nat, greedy: bool, p: Code, p': Code, f: seq<bool>,
                                         b: nat, e: nat, b': nat, e': nat, c: nat)
    requires Valid(q) && Valid(Rewritten(q)) && EmptyLater(q) && e < |p| == |f| && opt > 0
    requires RangePlaced(q, 0, opt, greedy, p, b, e, c) && RangePlaced(Rewritten(q), 0, opt, greedy, p', b', e', c)
    requires Marks(f, b, Times(Silents(q), 0) + Times([false] + Silents(q), opt)) && Kept(f, b) == b'
    ensures Region(p, p', f, b, e) && Kept(f, e) == e'
    decreases q, 2, opt - 1, 1
  {
    hide CodeOf, Marks, Kept, Region, Follows, Count, Silents, Rewritten, RangePlaced, Valid, EmptyLater, Times, Placed;
    var x, next, next' := [false] + Silents(q), b + 1 + Count(q), b' + 1 + Count(Rewritten(q));
    RangeOptional(q, opt, greedy, p, b, e, next, c);
    RangeOptional(Rewritten(q), opt, greedy, p', b', e', next', c);
    NoTimes(Silents(q), Times(x, opt));
    NoTimes(Silents(q), Times(x, opt - 1));
    NextTimes(x, opt, []);
    assert Times(x, opt) + [] == Times(x, opt) && Times(x, opt - 1) + [] == Times(x, opt - 1);
    MarksParts(f, b, x, Times(x, opt - 1));
    MarksParts(f, b, [false], Silents(q));
    MarksOne(f, b, false);
    RangeWithin(q, 0, opt - 1, greedy, p, next, e, c);
    TreeAlike(q, p, p', f, b + 1, next, b' + 1, c);
    KeptFollows(p, p', f, b, p[b]);
    RegionOne(p, p', f, b);
    RegionOn(p, p', f, b, b + 1, next);
    RangeAlike(q, 0, opt - 1, greedy, p, p', f, next, e, next', e', c);
    RegionOn(p, p', f, b, next, e);
  }

  /** The required copies of an open quantifier, and the loop behind them. */
  lemma {:induction false} PlusAlike(q: Node, nmin: nat, greedy: bool, p: Code, p': Code, f: seq<bool>, b: nat, at: nat,
                                     e: nat, b': nat, at': nat, e': nat, c: nat)
    requires Valid(q) && Valid(Rewritten(q)) && EmptyLater(q) && nmin > 0 && e < |p| == |f| && e' <= |p'|
    requires at == b + (nmin - 1) * Count(q) && e == at + Count(q) + 1 && p[e - 1] == Order(greedy, at, e)
    requires at' == b' + (nmin - 1) * Count(Rewritten(q)) && e' == at' + Count(Rewritten(q)) + 1
    requires p'[e' - 1] == Order(greedy, at', e')
    requires Placed(p, b, Copies(q, nmin, b, c)) && Placed(p', b', Copies(Rewritten(q), nmin, b', c))
    requires Marks(f, b, Times(Silents(q), nmin) + [false]) && Kept(f, b) == b'
    ensures Region(p, p', f, b, e) && Kept(f, e) == e' && Kept(f, at) == at'
    decreases q, 2, nmin
  {
    hide CodeOf, Marks, Kept, Region, Follows, Count, Silents, Rewritten, Valid, EmptyLater, Times, Placed, Copies;
    var next, next' := b + Count(q), b' + Count(Rewritten(q));
    FirstCopyPlaced(q, nmin, p, b, next, c);
    FirstCopyPlaced(Rewritten(q), nmin, p', b', next', c);
    NextTimes(Silents(q), nmin, [false]);
    MarksParts(f, b, Silents(q), Times(Silents(q), nmin - 1) + [false]);
    if nmin > 1 {
      Codegen.Times(nmin - 1, Count(q));
      Codegen.Times(nmin - 1, Count(Rewritten(q)));
      CopiesWithin(nmin - 2, Count(q));
      TreeAlike(q, p, p', f, b, next, b', c);
      PlusAlike(q, nmin - 1, greedy, p, p', f, next, at, e, next', at', e', c);
      RegionOn(p, p', f, b, next, e);
    } else {
      TreeAlike(q, p, p', f, b, next, b', c);
      NoTimes(Silents(q), [false]);
      MarksOne(f, next, false);
      KeptFollows(p, p', f, next, p[next]);
      RegionOne(p, p', f, next);
      RegionOn(p, p', f, b, next, e);
    }
  }

  lemma CopiesWithin(k: nat, n: nat)
    ensures k * n >= 0
  {
  }

  // ---- The programs ----

  /** Of a tree whose empty alternatives come last and of the parser's tree for it, the machine
      reports the same. */
  lemma RewrittenResult(m: Node, s: seq<byte>, n: nat)
    requires Valid(m) && EmptyLater(m)
    ensures Valid(Rewritten(m)) && MatchLast(Alone(m)) && MatchLast(Alone(Rewritten(m)))
    ensures Result(Alone(m), s, n) == Result(Alone(Rewritten(m)), s, n)
  {
    hide Placed, CodeOf, Count, Valid, Rewritten, EmptyLater, Marks, Silents, Kept, Region, Follows, Result, MatchLast, Alone;
    RewrittenValid(m);
    var m' := Rewritten(m);
    var p, p', f, e := Alone(m), Alone(m'), Silents(m) + [false], Count(m);
    RunnableAlone(m);
    RunnableAlone(m');
    AloneRuns(m);
    AloneRuns(m');
    EndsInMatch(m);
    EndsInMatch(m');
    MarksWhole(Silents(m));
    TreeAlike(m, p, p', f, 0, e, 0, 0);
    KeptFollows(p, p', f, e, Match);
    WholeSimulates(p, p', f, e);
    SimulatesResult(p, p', f, s, n);
  }

  lemma MarksWhole(x: seq<bool>)
    ensures Marks(x + [false], 0, x) && Kept(x + [false], 0) == 0 && !(x + [false])[|x|]
  {
  }

  lemma WholeSimulates(p: Code, p': Code, f: seq<bool>, e: nat)
    requires Region(p, p', f, 0, e) && |p| == e + 1 && Follows(p, p', f, e)
    ensures Simulates(p, p', f)
  {
    hide Follows;
  }
}
