/** What the machine reports, as a statement about the tree: the captures of the way that has
    precedence over all other ways that never come back to a place at the same position. */
module Precedence {
  import opened Bytes
  import opened Syntax
  import opened Program
  import opened Codegen
  import opened Ways
  import opened Meaning
  import opened Threads
  import opened Priority
  import opened Paths

  // ---- Preference of ways and of paths ----

  /** The preferred of two ways takes the preferred path, whatever follows. */
  lemma {:induction false} WayOrder(n: Node, s: seq<byte>, at: nat, i: nat, x: Way, y: Way, t: seq<bool>, u: seq<bool>)
    requires Valid(n) && Fits(n, s, i, x) && Fits(n, s, i, y)
    ensures Preferred(Choices(Turns(n, at, i, x)) + t, Choices(Turns(n, at, i, y)) + u) <==>
            if x == y then Preferred(t, u) else Better(n, x, y)
    decreases x, n, 1
  {
    hide Preferred, Choices, Fits, Turns, Valid, Better;
    if x == y {
      SamePrefix(Choices(Turns(n, at, i, x)), t, u);
    } else if n.Concatenation? {
      ConcatenationOrder(n.left, n.right, s, at, i, x, y, t, u);
    } else if n.Alternation? {
      AlternationOrder(n.left, n.right, s, at, i, x, y, t, u);
    } else if n.Quantifier? {
      QuantifierOrder(n, s, at, i, x, y, t, u);
    } else if n.Capture? {
      CaptureOrder(n.captured, s, at, i, x, y, t, u);
    } else {
      LeafOrder(n, s, i, x, y);
    }
  }

  lemma {:induction false} SamePrefix(a: seq<bool>, t: seq<bool>, u: seq<bool>)
    ensures Preferred(a + t, a + u) <==> Preferred(t, u)
    decreases |a|
  {
    if a == [] {
      assert a + t == t && a + u == u;
    } else {
      assert (a + t)[1..] == a[1..] + t && (a + u)[1..] == a[1..] + u;
      SamePrefix(a[1..], t, u);
    }
  }

  lemma LeafOrder(n: Node, s: seq<byte>, i: nat, x: Way, y: Way)
    requires Valid(n) && Leaf(n) && Fits(n, s, i, x) && Fits(n, s, i, y)
    ensures x == y
  {
  }

  /** The choices of consecutive turns, with what follows. */
  lemma Regroup(a: seq<Turn>, b: seq<Turn>, t: seq<bool>)
    ensures Choices(a + b) + t == Choices(a) + (Choices(b) + t)
  {
    ChoicesOn(a, b);
  }

  lemma {:induction false} ConcatenationOrder(l: Node, r: Node, s: seq<byte>, at: nat, i: nat, x: Way, y: Way,
                                              t: seq<bool>, u: seq<bool>)
    requires Valid(Concatenation(l, r)) && Fits(Concatenation(l, r), s, i, x) && Fits(Concatenation(l, r), s, i, y)
    requires x != y
    ensures Preferred(Choices(Turns(Concatenation(l, r), at, i, x)) + t, Choices(Turns(Concatenation(l, r), at, i, y)) + u)
            <==> Better(Concatenation(l, r), x, y)
    decreases x, Concatenation(l, r), 0
  {
    hide Preferred, Choices, Fits, Turns, Valid, WayEnd;
    ConcatenationWay(l, r, s, at, 0, i, x, []);
    ConcatenationWay(l, r, s, at, 0, i, y, []);
    var x1, y1 := Turns(l, at, i, x.first), Turns(l, at, i, y.first);
    var x2 := Turns(r, at + Count(l), WayEnd(l, i, x.first), x.second);
    var y2 := Turns(r, at + Count(l), WayEnd(l, i, y.first), y.second);
    Regroup(x1, x2, t);
    Regroup(y1, y2, u);
    WayOrder(l, s, at, i, x.first, y.first, Choices(x2) + t, Choices(y2) + u);
    if x.first == y.first {
      WayOrder(r, s, at + Count(l), WayEnd(l, i, x.first), x.second, y.second, t, u);
    }
  }

  lemma {:induction false} AlternationOrder(l: Node, r: Node, s: seq<byte>, at: nat, i: nat, x: Way, y: Way,
                                            t: seq<bool>, u: seq<bool>)
    requires Valid(Alternation(l, r)) && Fits(Alternation(l, r), s, i, x) && Fits(Alternation(l, r), s, i, y)
    requires x != y
    ensures Preferred(Choices(Turns(Alternation(l, r), at, i, x)) + t, Choices(Turns(Alternation(l, r), at, i, y)) + u)
            <==> Better(Alternation(l, r), x, y)
    decreases x, Alternation(l, r), 0
  {
    hide Preferred, Choices, Fits, Turns, Valid, WayEnd, Go;
    AlternationWay(l, r, s, at, 0, i, x, []);
    AlternationWay(l, r, s, at, 0, i, y, []);
    var x1, y1 := if x.First? then l else r, if y.First? then l else r;
    var xb, yb := if x.First? then at + 1 else at + 2 + Count(l), if y.First? then at + 1 else at + 2 + Count(l);
    var xs, ys := Turns(x1, xb, i, x.way), Turns(y1, yb, i, y.way);
    var xt := if x.First? then [Go(at + 1 + Count(l), WayEnd(l, i, x.way))] else [];
    var yt := if y.First? then [Go(at + 1 + Count(l), WayEnd(l, i, y.way))] else [];
    TurnThen(at, i, !x.First?, xs, xt, t);
    TurnThen(at, i, !y.First?, ys, yt, u);
    FirstDiffers(!x.First?, !y.First?, Choices(xs) + (Choices(xt) + t), Choices(ys) + (Choices(yt) + u));
    if x.First? == y.First? {
      WayOrder(x1, s, xb, i, x.way, y.way, Choices(xt) + t, Choices(yt) + u);
    }
  }

  /** A turn, what follows it, and what comes behind that. */
  lemma TurnThen(at: nat, i: nat, choice: bool, a: seq<Turn>, b: seq<Turn>, t: seq<bool>)
    ensures Choices([Turn(State(at, i), choice)] + a + b) + t == [choice] + (Choices(a) + (Choices(b) + t))
    ensures !choice ==> Go(at, i) == Turn(State(at, i), choice)
    ensures b == [] ==> [Turn(State(at, i), choice)] + a + b == [Turn(State(at, i), choice)] + a
    ensures a == [] ==> [Turn(State(at, i), choice)] + a + b == [Turn(State(at, i), choice)] + b
    ensures a == b == [] ==> [Turn(State(at, i), choice)] + a + b == [Turn(State(at, i), choice)]
  {
    var first := [Turn(State(at, i), choice)];
    assert Choices(first) == [choice];
    ChoicesOn(first + a, b);
    ChoicesOn(first, a);
  }

  lemma NoTurns(b: seq<Turn>, t: seq<bool>)
    ensures Choices([]) + (Choices(b) + t) == Choices(b) + t
    ensures b == [] ==> Choices(b) + t == t
  {
  }

  lemma FirstDiffers(a: bool, b: bool, x: seq<bool>, y: seq<bool>)
    ensures Preferred([a] + x, [b] + y) <==> if a == b then Preferred(x, y) else !a
  {
    assert ([a] + x)[1..] == x && ([b] + y)[1..] == y;
  }

  lemma {:induction false} CaptureOrder(c: Node, s: seq<byte>, at: nat, i: nat, x: Way, y: Way, t: seq<bool>, u: seq<bool>)
    requires Valid(Capture(c)) && Fits(Capture(c), s, i, x) && Fits(Capture(c), s, i, y) && x != y
    ensures Preferred(Choices(Turns(Capture(c), at, i, x)) + t, Choices(Turns(Capture(c), at, i, y)) + u)
            <==> Better(Capture(c), x, y)
    decreases x, Capture(c), 0
  {
    hide Preferred, Choices, Fits, Turns, Valid, WayEnd, Go;
    CaptureWay(c, s, at, 0, i, x, []);
    CaptureWay(c, s, at, 0, i, y, []);
    var xs, ys := Turns(c, at + 1, i, x), Turns(c, at + 1, i, y);
    var xt, yt := [Go(at + 1 + Count(c), WayEnd(c, i, x))], [Go(at + 1 + Count(c), WayEnd(c, i, y))];
    TurnThen(at, i, false, xs, xt, t);
    TurnThen(at, i, false, ys, yt, u);
    FirstDiffers(false, false, Choices(xs) + (Choices(xt) + t), Choices(ys) + (Choices(yt) + u));
    WayOrder(c, s, at + 1, i, x, y, Choices(xt) + t, Choices(yt) + u);
  }

  lemma {:induction false} QuantifierOrder(n: Node, s: seq<byte>, at: nat, i: nat, x: Way, y: Way, t: seq<bool>, u: seq<bool>)
    requires n.Quantifier? && Valid(n) && Fits(n, s, i, x) && Fits(n, s, i, y) && x != y
    ensures Preferred(Choices(Turns(n, at, i, x)) + t, Choices(Turns(n, at, i, y)) + u) <==> Better(n, x, y)
    decreases x, n, 0
  {
    hide Preferred, Choices, RangeTurns, StarTurns, PlusTurns, Counted, AllFit, BetterCopies;
    var nmin, greedy, q := n.nmin, n.greedy, n.quantified;
    if n.nmax != -1 {
      RangeOrder(q, nmin, n.nmax - nmin, greedy, s, at, i, x.copies, y.copies, t, u);
    } else if nmin == 0 {
      StarOrder(q, greedy, s, at, i, x.copies, y.copies, t, u);
    } else {
      PlusOrder(q, nmin, greedy, s, at, i, x.copies, y.copies, t, u);
    }
  }

  lemma {:induction false} RangeOrder(q: Node, nmin: nat, opt: nat, greedy: bool, s: seq<byte>, at: nat, i: nat,
                                      x: Rounds, y: Rounds, t: seq<bool>, u: seq<bool>)
    requires Valid(q) && AllFit(q, s, i, x) && AllFit(q, s, i, y)
    requires Counted(x, nmin, nmin + opt) && Counted(y, nmin, nmin + opt)
    ensures Preferred(Choices(RangeTurns(q, nmin, greedy, at, i, x)) + t, Choices(RangeTurns(q, nmin, greedy, at, i, y)) + u)
            <==> if x == y then Preferred(t, u) else BetterCopies(q, greedy, x, y)
    decreases x, q, 2
  {
    hide Preferred, Choices, Fits, Turns, Valid, WayEnd, Better;
    if x == y {
      SamePrefix(Choices(RangeTurns(q, nmin, greedy, at, i, x)), t, u);
    } else if nmin > 0 {
      var next, x1, y1 := at + Count(q), Turns(q, at, i, x.way), Turns(q, at, i, y.way);
      var x2 := RangeTurns(q, nmin - 1, greedy, next, WayEnd(q, i, x.way), x.rest);
      var y2 := RangeTurns(q, nmin - 1, greedy, next, WayEnd(q, i, y.way), y.rest);
      Regroup(x1, x2, t);
      Regroup(y1, y2, u);
      WayOrder(q, s, at, i, x.way, y.way, Choices(x2) + t, Choices(y2) + u);
      if x.way == y.way {
        RangeOrder(q, nmin - 1, opt, greedy, s, next, WayEnd(q, i, x.way), x.rest, y.rest, t, u);
      }
    } else {
      OptionalOrder(q, opt, greedy, s, at, i, x, y, t, u);
    }
  }

  lemma {:induction false} OptionalOrder(q: Node, opt: nat, greedy: bool, s: seq<byte>, at: nat, i: nat,
                                         x: Rounds, y: Rounds, t: seq<bool>, u: seq<bool>)
    requires Valid(q) && AllFit(q, s, i, x) && AllFit(q, s, i, y) && x != y
    requires Counted(x, 0, opt) && Counted(y, 0, opt)
    ensures Preferred(Choices(RangeTurns(q, 0, greedy, at, i, x)) + t, Choices(RangeTurns(q, 0, greedy, at, i, y)) + u)
            <==> BetterCopies(q, greedy, x, y)
    decreases x, q, 1
  {
    hide Preferred, Choices, Fits, Turns, Valid, Better, RangeTurns;
    var next := at + 1 + Count(q);
    var x1, x2 := OptionalParts(q, greedy, at, i, x, t);
    var y1, y2 := OptionalParts(q, greedy, at, i, y, u);
    FirstDiffers(x.Taken? != greedy, y.Taken? != greedy, Choices(x1) + (Choices(x2) + t), Choices(y1) + (Choices(y2) + u));
    if x.Taken? && y.Taken? {
      WayOrder(q, s, at + 1, i, x.way, y.way, Choices(x2) + t, Choices(y2) + u);
      if x.way == y.way { RangeOrder(q, 0, opt - 1, greedy, s, next, WayEnd(q, i, x.way), x.rest, y.rest, t, u); }
    } else if !x.Taken? && !y.Taken? {
      NoTurns(x2, t);
      NoTurns(y2, u);
      RangeOrder(q, 0, opt - 1, greedy, s, next, i, x.rest, y.rest, t, u);
    }
  }

  /** The turns of an optional copy behind its test, and those of the copies behind it. */
  lemma OptionalParts(q: Node, greedy: bool, at: nat, i: nat, x: Rounds, t: seq<bool>) returns (x1: seq<Turn>, x2: seq<Turn>)
    requires Valid(q) && !x.Done?
    ensures Choices(RangeTurns(q, 0, greedy, at, i, x)) + t == [x.Taken? != greedy] + (Choices(x1) + (Choices(x2) + t))
    ensures x1 == if x.Taken? then Turns(q, at + 1, i, x.way) else []
    ensures x2 == RangeTurns(q, 0, greedy, at + 1 + Count(q), if x.Taken? then WayEnd(q, i, x.way) else i, x.rest)
  {
    hide Choices, Turns, Valid, WayEnd, Count;
    x1 := if x.Taken? then Turns(q, at + 1, i, x.way) else [];
    x2 := RangeTurns(q, 0, greedy, at + 1 + Count(q), if x.Taken? then WayEnd(q, i, x.way) else i, x.rest);
    TurnThen(at, i, x.Taken? != greedy, x1, x2, t);
  }

  lemma {:induction false} StarOrder(q: Node, greedy: bool, s: seq<byte>, at: nat, i: nat, x: Rounds, y: Rounds,
                                     t: seq<bool>, u: seq<bool>)
    requires Valid(q) && AllFit(q, s, i, x) && AllFit(q, s, i, y) && Counted(x, 0, -1) && Counted(y, 0, -1)
    ensures Preferred(Choices(StarTurns(q, greedy, at, i, x)) + t, Choices(StarTurns(q, greedy, at, i, y)) + u)
            <==> if x == y then Preferred(t, u) else BetterCopies(q, greedy, x, y)
    decreases x, q, 2
  {
    hide Preferred, Choices, Fits, Turns, Valid, WayEnd, Better;
    if x == y {
      SamePrefix(Choices(StarTurns(q, greedy, at, i, x)), t, u);
    } else {
      var x1, x2 := StarParts(q, greedy, at, i, x, t);
      var y1, y2 := StarParts(q, greedy, at, i, y, u);
      FirstDiffers(x.Taken? != greedy, y.Taken? != greedy, Choices(x1) + (Choices(x2) + t), Choices(y1) + (Choices(y2) + u));
      if x.Taken? && y.Taken? {
        WayOrder(q, s, at + 1, i, x.way, y.way, Choices(x2) + t, Choices(y2) + u);
        if x.way == y.way {
          var k := WayEnd(q, i, x.way);
          var back := [Go(at + 1 + Count(q), k)];
          Regroup(back, StarTurns(q, greedy, at, k, x.rest), t);
          Regroup(back, StarTurns(q, greedy, at, k, y.rest), u);
          SamePrefix(Choices(back), Choices(StarTurns(q, greedy, at, k, x.rest)) + t,
                     Choices(StarTurns(q, greedy, at, k, y.rest)) + u);
          StarOrder(q, greedy, s, at, k, x.rest, y.rest, t, u);
        }
      }
    }
  }

  /** The turns of the first copy of a loop, and those behind it. */
  lemma StarParts(q: Node, greedy: bool, at: nat, i: nat, x: Rounds, t: seq<bool>) returns (x1: seq<Turn>, x2: seq<Turn>)
    requires Valid(q)
    ensures Choices(StarTurns(q, greedy, at, i, x)) + t == [x.Taken? != greedy] + (Choices(x1) + (Choices(x2) + t))
    ensures x.Taken? ==>
      x1 == Turns(q, at + 1, i, x.way) &&
      x2 == [Go(at + 1 + Count(q), WayEnd(q, i, x.way))] + StarTurns(q, greedy, at, WayEnd(q, i, x.way), x.rest)
  {
    hide Choices, Turns, Valid, WayEnd, Go, Count;
    var first := [Turn(State(at, i), x.Taken? != greedy)];
    if x.Taken? {
      x1 := Turns(q, at + 1, i, x.way);
      x2 := [Go(at + 1 + Count(q), WayEnd(q, i, x.way))] + StarTurns(q, greedy, at, WayEnd(q, i, x.way), x.rest);
    } else {
      x1, x2 := [], [];
    }
    assert StarTurns(q, greedy, at, i, x) == first + x1 + x2;
    TurnThen(at, i, x.Taken? != greedy, x1, x2, t);
  }

  lemma {:induction false} PlusOrder(q: Node, nmin: nat, greedy: bool, s: seq<byte>, at: nat, i: nat, x: Rounds, y: Rounds,
                                     t: seq<bool>, u: seq<bool>)
    requires Valid(q) && nmin > 0 && AllFit(q, s, i, x) && AllFit(q, s, i, y)
    requires Counted(x, nmin, -1) && Counted(y, nmin, -1)
    ensures Preferred(Choices(PlusTurns(q, nmin, greedy, at, i, x)) + t, Choices(PlusTurns(q, nmin, greedy, at, i, y)) + u)
            <==> if x == y then Preferred(t, u) else BetterCopies(q, greedy, x, y)
    decreases x, q, 2
  {
    hide Preferred, Choices, Fits, Turns, Valid, WayEnd, Better;
    if x == y {
      SamePrefix(Choices(PlusTurns(q, nmin, greedy, at, i, x)), t, u);
    } else {
      var x1, y1, next := Turns(q, at, i, x.way), Turns(q, at, i, y.way), at + Count(q);
      var x2, y2 := PlusTail(q, nmin, greedy, at, i, x), PlusTail(q, nmin, greedy, at, i, y);
      PlusParts(q, nmin, greedy, at, i, x);
      PlusParts(q, nmin, greedy, at, i, y);
      Regroup(x1, x2, t);
      Regroup(y1, y2, u);
      WayOrder(q, s, at, i, x.way, y.way, Choices(x2) + t, Choices(y2) + u);
      if x.way == y.way {
        var k := WayEnd(q, i, x.way);
        if nmin > 1 {
          PlusOrder(q, nmin - 1, greedy, s, next, k, x.rest, y.rest, t, u);
        } else {
          LoopOrder(q, greedy, s, at, next, k, x.rest, y.rest, t, u);
        }
      }
    }
  }

  /** The turns behind the first copy. */
  function PlusTail(q: Node, nmin: nat, greedy: bool, at: nat, i: nat, x: Rounds): (r: seq<Turn>)
    requires Valid(q) && x.Taken?
  {
    var j := WayEnd(q, i, x.way);
    if nmin > 1 then PlusTurns(q, nmin - 1, greedy, at + Count(q), j, x.rest)
    else LoopTail(q, greedy, at, at + Count(q), j, x.rest)
  }

  /** The turns from the test behind a copy on. */
  function LoopTail(q: Node, greedy: bool, at: nat, next: nat, j: nat, rest: Rounds): (r: seq<Turn>)
    requires Valid(q)
  {
    if rest.Taken? then [Stay(greedy, next, j)] + PlusTurns(q, 1, greedy, at, j, rest) else [Leave(greedy, next, j)]
  }

  lemma PlusParts(q: Node, nmin: nat, greedy: bool, at: nat, i: nat, x: Rounds)
    requires Valid(q) && x.Taken?
    ensures PlusTurns(q, nmin, greedy, at, i, x) == Turns(q, at, i, x.way) + PlusTail(q, nmin, greedy, at, i, x)
  {
    hide Turns, WayEnd, Valid, Count, Stay, Leave;
  }

  lemma {:induction false} LoopOrder(q: Node, greedy: bool, s: seq<byte>, at: nat, next: nat, k: nat, x: Rounds, y: Rounds,
                                     t: seq<bool>, u: seq<bool>)
    requires Valid(q) && AllFit(q, s, k, x) && AllFit(q, s, k, y) && Counted(x, 0, -1) && Counted(y, 0, -1) && x != y
    ensures Preferred(Choices(LoopTail(q, greedy, at, next, k, x)) + t, Choices(LoopTail(q, greedy, at, next, k, y)) + u)
            <==> BetterCopies(q, greedy, x, y)
    decreases x, q, 3
  {
    hide Preferred, Choices, Fits, Turns, Valid, WayEnd, Better, PlusTurns;
    var x1 := if x.Taken? then PlusTurns(q, 1, greedy, at, k, x) else [];
    var y1 := if y.Taken? then PlusTurns(q, 1, greedy, at, k, y) else [];
    TurnThen(next, k, x.Taken? != greedy, x1, [], t);
    TurnThen(next, k, y.Taken? != greedy, y1, [], u);
    NoTurns([], t);
    NoTurns([], u);
    FirstDiffers(x.Taken? != greedy, y.Taken? != greedy, Choices(x1) + t, Choices(y1) + u);
    if x.Taken? && y.Taken? {
      PlusOrder(q, 1, greedy, s, at, k, x, y, t, u);
    }
  }

  /** Of two different ways, exactly one is preferred. */
  lemma {:induction false} BetterEither(n: Node, s: seq<byte>, i: nat, x: Way, y: Way)
    requires Valid(n) && Fits(n, s, i, x) && Fits(n, s, i, y)
    ensures Better(n, x, y) <==> x != y && !Better(n, y, x)
    decreases x, n
  {
    match n
    case Concatenation(l, r) =>
      BetterEither(l, s, i, x.first, y.first);
      if x.first == y.first { BetterEither(r, s, WayEnd(l, i, x.first), x.second, y.second); }
    case Alternation(l, r) =>
      if x.First? && y.First? { BetterEither(l, s, i, x.way, y.way); }
      if x.Second? && y.Second? { BetterEither(r, s, i, x.way, y.way); }
    case Quantifier(nmin, nmax, greedy, q) => CopiesEither(q, nmin, nmax, greedy, s, i, x.copies, y.copies);
    case Capture(c) => BetterEither(c, s, i, x, y);
    case _ =>
  }

  lemma {:induction false} CopiesEither(q: Node, nmin: nat, nmax: int, greedy: bool, s: seq<byte>, i: nat, x: Rounds, y: Rounds)
    requires Valid(q) && AllFit(q, s, i, x) && AllFit(q, s, i, y) && Counted(x, nmin, nmax) && Counted(y, nmin, nmax)
    ensures BetterCopies(q, greedy, x, y) <==> x != y && !BetterCopies(q, greedy, y, x)
    decreases x, q
  {
    hide Better, Fits;
    var nmin', nmax' := if nmin > 0 then nmin - 1 else 0, if nmax > 0 then nmax - 1 else nmax;
    if x.Taken? && y.Taken? {
      BetterEither(q, s, i, x.way, y.way);
      if x.way == y.way { CopiesEither(q, nmin', nmax', greedy, s, WayEnd(q, i, x.way), x.rest, y.rest); }
    } else if x.Skipped? && y.Skipped? {
      CopiesEither(q, 0, nmax - 1, greedy, s, i, x.rest, y.rest);
    }
  }

  // ---- Clean paths and fresh ways ----

  /** No state of the set stands at a Match. */
  ghost predicate NoMatch(p: Code, avoid: set<State>) {
    forall x :: x in avoid ==> x.pc < |p| && p[x.pc] != Match
  }

  /** A walk that ends at a Match is a path, without repetition exactly if its turns are at
      different places. */
  lemma {:induction false} WalkClean(p: Code, s: seq<byte>, st: State, t: seq<Turn>, m: Slots, end: State, m': Slots,
                                     avoid: set<State>)
    requires Walk(p, s, st, t, m, end, m') && end.pc < |p| && p[end.pc] == Match && NoMatch(p, avoid)
    ensures Path(p, s, st, Choices(t)) && Ending(p, s, st, Choices(t), m) == m'
    ensures Clean(p, s, st, Choices(t), avoid) <==> Distinct(t) && forall k :: 0 <= k < |t| ==> t[k].at !in avoid
    decreases |t|
  {
    if t != [] {
      assert Choices(t)[1..] == Choices(t[1..]);
      assert p[st.pc] != Match;
      WalkClean(p, s, Step(p, s, st, t[0].choice).st, t[1..], Saved(p, st, m), end, m', avoid + {st});
      DistinctCons(t, avoid);
    }
  }

  lemma DistinctCons(t: seq<Turn>, avoid: set<State>)
    requires t != []
    ensures (Distinct(t) && forall k :: 0 <= k < |t| ==> t[k].at !in avoid) <==>
            t[0].at !in avoid && Distinct(t[1..]) && forall k :: 0 <= k < |t[1..]| ==> t[1..][k].at !in avoid + {t[0].at}
  {
    if t[0].at !in avoid && Distinct(t[1..]) && forall k :: 0 <= k < |t[1..]| ==> t[1..][k].at !in avoid + {t[0].at} {
      forall k | 0 < k < |t| ensures t[k].at !in avoid && t[k].at != t[0].at { assert t[k] == t[1..][k - 1]; }
      forall a, b | 0 <= a < b < |t| ensures t[a].at != t[b].at {
        if a > 0 { assert t[a] == t[1..][a - 1] && t[b] == t[1..][b - 1]; }
      }
    }
  }

  /** The program of a tree alone: its code, and a Match. */
  function Alone(n: Node): (r: Code)
    requires Valid(n)
  {
    CodeOf(n, 0, 0) + [Match]
  }

  lemma AloneRuns(n: Node)
    requires Valid(n)
    ensures MatchLast(Alone(n)) && |Alone(n)| == Count(n) + 1 && Placed(Alone(n), 0, CodeOf(n, 0, 0))
  {
    var p, code := Alone(n), CodeOf(n, 0, 0);
    CodeClosed(n, 0, 0);
    assert p[0..|code|] == code;
    PlacedClosed(p, 0, code);
    forall k | 0 <= k < |p| - 1 ensures p[k] != Match { assert p[k] == code[k]; }
  }

  /** Every fitting way is an accepting path of the program, without repetition if it is fresh. */
  lemma WayPath(n: Node, s: seq<byte>, i: nat, w: Way, m: Slots)
    requires Valid(n) && Fits(n, s, i, w)
    ensures var p, ch := Alone(n), Choices(Turns(n, 0, i, w));
            Path(p, s, State(0, i), ch) && Ending(p, s, State(0, i), ch, m) == Captures(n, 0, i, w, m) &&
            (Clean(p, s, State(0, i), ch, {}) <==> Fresh(n, i, w))
  {
    hide Fits, Turns, Captures, Path, Clean, Ending, Valid, Placed, MatchLast, Walk, Count, CodeOf, WayEnd;
    AloneRuns(n);
    EndsInMatch(n);
    WayWalks(n, Alone(n), s, 0, Count(n), 0, i, w, m);
    WalkClean(Alone(n), s, State(0, i), Turns(n, 0, i, w), m, State(Count(n), WayEnd(n, i, w)), Captures(n, 0, i, w, m), {});
  }

  lemma EndsInMatch(n: Node)
    requires Valid(n)
    ensures |Alone(n)| == Count(n) + 1 && Alone(n)[Count(n)] == Match
  {
  }

  /** And every accepting path is a fitting way. */
  lemma PathWay(n: Node, s: seq<byte>, i: nat, ch: seq<bool>) returns (w: Way)
    requires Valid(n) && Path(Alone(n), s, State(0, i), ch)
    ensures Fits(n, s, i, w) && ch == Choices(Turns(n, 0, i, w))
  {
    hide Fits, Turns, Valid, Placed, MatchLast, Count, CodeOf, WayEnd;
    AloneRuns(n);
    EndsInMatch(n);
    var rest;
    w, rest := PathIsWay(n, Alone(n), s, 0, Count(n), 0, i, ch);
    assert rest == [];
    assert Choices(Turns(n, 0, i, w)) + [] == Choices(Turns(n, 0, i, w));
  }

  /** Where some way fits, a fresh one does. */
  lemma FreshFits(n: Node, s: seq<byte>, i: nat, w: Way) returns (x: Way)
    requires Valid(n) && Fits(n, s, i, w)
    ensures Fits(n, s, i, x) && Fresh(n, i, x)
  {
    hide Fits, Fresh, Turns, Valid, Captures, Path, Clean, Ending, Alone, Choices;
    var p, st, ch := Alone(n), State(0, i), Choices(Turns(n, 0, i, w));
    WayPath(n, s, i, w, []);
    AvoidsNothing(p, s, st, ch);
    var y := PathClean(p, s, st, ch, {});
    CleanPath(p, s, st, y, {});
    x := PathWay(n, s, i, y);
    WayPath(n, s, i, x, []);
  }

  /** The preferred path is that of the chosen way. */
  lemma BestIsChosen(n: Node, s: seq<byte>, ch: seq<bool>, m: Slots) returns (w: Way)
    requires Valid(n) && Best(Alone(n), s, State(0, 0), ch, {})
    ensures Chosen(n, s, 0, w) && Ending(Alone(n), s, State(0, 0), ch, m) == Captures(n, 0, 0, w, m)
  {
    hide Fits, Fresh, Turns, Valid, Captures, Path, Clean, Ending, Alone, Choices, Better, Preferred;
    CleanPath(Alone(n), s, State(0, 0), ch, {});
    w := PathWay(n, s, 0, ch);
    WayPath(n, s, 0, w, m);
    forall x | Fits(n, s, 0, x) && Fresh(n, 0, x) && x != w ensures Better(n, w, x) {
      WayPath(n, s, 0, x, m);
      var other := Choices(Turns(n, 0, 0, x));
      assert Preferred(ch, other);
      assert ch + [] == ch && other + [] == other;
      WayOrder(n, s, 0, 0, w, x, [], []);
    }
  }

  /** For every tree and every string, the machine finds something exactly when some way fits,
      and then reports the captures of the chosen way. */
  lemma ResultIsChosen(n: Node, s: seq<byte>, slots: nat)
    requires Valid(n)
    ensures MatchLast(Alone(n))
    ensures Result(Alone(n), s, slots).Found? <==> exists w :: Fits(n, s, 0, w)
    ensures Result(Alone(n), s, slots).Found? ==>
      exists w :: Chosen(n, s, 0, w) && Result(Alone(n), s, slots).m == Captures(n, 0, 0, w, seq(slots, _ => Null))
  {
    hide Fits, Fresh, Turns, Valid, Captures, Path, Clean, Ending, Alone, Choices, Better, Preferred, Result, Best, MatchLast;
    var p, m, st := Alone(n), seq(slots, _ => Null), State(0, 0);
    RunnableAlone(n);
    ResultIsBest(p, s, slots);
    if Result(p, s, slots).Found? {
      var ch :| Best(p, s, st, ch, {}) && Result(p, s, slots).m == Ending(p, s, st, ch, m);
      var w := BestIsChosen(n, s, ch, m);
    }
    if w :| Fits(n, s, 0, w) {
      var x := FreshFits(n, s, 0, w);
      WayPath(n, s, 0, x, m);
    }
  }

  lemma RunnableAlone(n: Node)
    requires Valid(n)
    ensures MatchLast(Alone(n)) && Runnable(Alone(n))
  {
    AloneRuns(n);
  }

  /** There is only one chosen way. */
  lemma ChosenOnce(n: Node, s: seq<byte>, i: nat, x: Way, y: Way)
    requires Valid(n) && Chosen(n, s, i, x) && Chosen(n, s, i, y)
    ensures x == y
  {
    hide Fits, Fresh, Better, Valid;
    if x != y { BetterEither(n, s, i, x, y); }
  }
}
