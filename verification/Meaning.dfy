/** The emitted code means what the tree means: the paths through the code of a tree are
    exactly the turns of the ways in which the tree can match, with the same captures. */
module Meaning {
  import opened Bytes
  import opened CharClass
  import opened Syntax
  import opened Program
  import opened Codegen
  import opened Ways

  /** Taking the turns one by one leads from st to end and turns the slots m into m'. */
  predicate Walk(p: Code, s: seq<byte>, st: State, t: seq<Turn>, m: Slots, end: State, m': Slots)
    decreases |t|
  {
    if t == [] then st == end && m == m'
    else
      t[0].at == st && st.pc < |p| && Step(p, s, st, t[0].choice).To? &&
      Walk(p, s, Step(p, s, st, t[0].choice).st, t[1..], Saved(p, st, m), end, m')
  }

  lemma {:induction false} WalkOn(p: Code, s: seq<byte>, st: State, t: seq<Turn>, m: Slots, mid: State, m1: Slots,
                                  u: seq<Turn>, end: State, m': Slots)
    requires Walk(p, s, st, t, m, mid, m1) && Walk(p, s, mid, u, m1, end, m')
    ensures Walk(p, s, st, t + u, m, end, m')
    decreases |t|
  {
    if t == [] {
      assert t + u == u;
    } else {
      assert (t + u)[1..] == t[1..] + u;
      WalkOn(p, s, Step(p, s, st, t[0].choice).st, t[1..], Saved(p, st, m), mid, m1, u, end, m');
    }
  }

  lemma NoWalk(p: Code, s: seq<byte>, st: State, m: Slots)
    ensures Walk(p, s, st, [], m, st, m)
  {
  }

  lemma WalkOne(p: Code, s: seq<byte>, turn: Turn, m: Slots)
    requires turn.at.pc < |p| && Step(p, s, turn.at, turn.choice).To?
    ensures Walk(p, s, turn.at, [turn], m, Step(p, s, turn.at, turn.choice).st, Saved(p, turn.at, m))
  {
    assert [turn][1..] == [];
  }

  lemma WalkSplit(p: Code, s: seq<byte>, pc: nat, i: nat, second: bool, m: Slots)
    requires pc < |p| && p[pc].Split?
    ensures Walk(p, s, State(pc, i), [Turn(State(pc, i), second)], m,
                 State(if second then p[pc].second else p[pc].first, i), m)
  {
    WalkOne(p, s, Turn(State(pc, i), second), m);
  }

  lemma WalkStay(p: Code, s: seq<byte>, pc: nat, greedy: bool, stay: nat, leave: nat, i: nat, m: Slots)
    requires pc < |p| && p[pc] == Order(greedy, stay, leave)
    ensures Walk(p, s, State(pc, i), [Stay(greedy, pc, i)], m, State(stay, i), m)
  {
    WalkSplit(p, s, pc, i, !greedy, m);
  }

  lemma WalkLeave(p: Code, s: seq<byte>, pc: nat, greedy: bool, stay: nat, leave: nat, i: nat, m: Slots)
    requires pc < |p| && p[pc] == Order(greedy, stay, leave)
    ensures Walk(p, s, State(pc, i), [Leave(greedy, pc, i)], m, State(leave, i), m)
  {
    WalkSplit(p, s, pc, i, greedy, m);
  }

  lemma WalkJump(p: Code, s: seq<byte>, pc: nat, i: nat, m: Slots)
    requires pc < |p| && p[pc].Jump?
    ensures Walk(p, s, State(pc, i), [Go(pc, i)], m, State(p[pc].target, i), m)
  {
    WalkOne(p, s, Go(pc, i), m);
  }

  lemma WalkSave(p: Code, s: seq<byte>, pc: nat, i: nat, m: Slots)
    requires pc < |p| && p[pc].Save?
    ensures Walk(p, s, State(pc, i), [Go(pc, i)], m, State(pc + 1, i), Put(m, p[pc].slot, i))
  {
    WalkOne(p, s, Go(pc, i), m);
  }

  // ---- Where the parts of a tree's code stand ----

  /** Where the parts of an alternation stand in the program. */
  lemma BranchesPlaced(l: Node, r: Node, p: Code, b: nat, b2: nat, e: nat, c: nat)
    requires Valid(l) && Valid(r) && b2 == b + 2 + Count(l) && e == b2 + Count(r)
    requires Placed(p, b, CodeOf(Alternation(l, r), b, c))
    ensures e <= |p| && p[b] == Split(b + 1, b2) && p[b2 - 1] == Jump(e)
    ensures Placed(p, b + 1, CodeOf(l, b + 1, c)) && Placed(p, b2, CodeOf(r, b2, NextCapture(l, c)))
  {
    hide *;
    AlternationCode(l, r, b, c);
    PartsPlaced(p, b, CodeOf(l, b + 1, c), CodeOf(r, b2, NextCapture(l, c)));
  }

  lemma PartsPlaced(p: Code, b: nat, x: Code, y: Code)
    requires Placed(p, b, Branches(b, x, y))
    ensures var b2 := b + 2 + |x|;
            b2 + |y| <= |p| && p[b] == Split(b + 1, b2) && p[b2 - 1] == Jump(b2 + |y|) &&
            Placed(p, b + 1, x) && Placed(p, b2, y)
  {
    hide Placed;
    var sp, jump := Split(b + 1, b + 2 + |x|), Jump(b + 2 + |x| + |y|);
    PlacedParts(p, b, [sp] + x + [jump], y);
    WrapPlaced(p, b, sp, x, jump);
    RoomFor(p, b + 2 + |x|, y);
  }

  lemma RoomFor(p: Code, b: nat, code: Code)
    requires Placed(p, b, code)
    ensures b + |code| <= |p|
  {
  }

  lemma WrapPlaced(p: Code, b: nat, before: Instr, x: Code, after: Instr)
    requires Placed(p, b, [before] + x + [after])
    ensures b + |x| + 2 <= |p|
    ensures p[b] == before && Placed(p, b + 1, x) && p[b + 1 + |x|] == after
  {
    PlacedParts(p, b, [before] + x, [after]);
    PlacedParts(p, b, [before], x);
    assert p[b] == p[b..b + 1][0] && p[b + 1 + |x|] == p[b + 1 + |x|..b + 2 + |x|][0];
  }

  lemma CapturePlaced(x: Node, p: Code, b: nat, e: nat, c: nat)
    requires Valid(x) && e == b + 2 + Count(x) && Placed(p, b, CodeOf(Capture(x), b, c))
    ensures e <= |p| && p[b] == Save(2 * c) && p[e - 1] == Save(2 * c + 1)
    ensures Placed(p, b + 1, CodeOf(x, b + 1, c + 1))
  {
    hide *;
    CaptureCode(x, b, c);
    WrapPlaced(p, b, Save(2 * c), CodeOf(x, b + 1, c + 1), Save(2 * c + 1));
  }

  /** Where the parts of a loop without bounds stand. */
  lemma StarPlaced(greedy: bool, q: Node, p: Code, b: nat, e: nat, c: nat)
    requires Valid(q) && e == b + Count(q) + 2 && Placed(p, b, CodeOf(Quantifier(0, -1, greedy, q), b, c))
    ensures e <= |p| && p[b] == Order(greedy, b + 1, e) && p[e - 1] == Jump(b)
    ensures Placed(p, b + 1, CodeOf(q, b + 1, c))
  {
    hide *;
    StarCode(greedy, q, b, e, c);
    WrapPlaced(p, b, Order(greedy, b + 1, e), CodeOf(q, b + 1, c), Jump(b));
  }

  lemma PlusPlaced(nmin: nat, greedy: bool, q: Node, p: Code, b: nat, at: nat, e: nat, c: nat)
    requires Valid(q) && nmin > 0 && at == b + (nmin - 1) * Count(q) && e == b + nmin * Count(q) + 1
    requires Placed(p, b, CodeOf(Quantifier(nmin, -1, greedy, q), b, c))
    ensures e == at + Count(q) + 1 && e <= |p|
    ensures Placed(p, b, Copies(q, nmin, b, c)) && p[e - 1] == Order(greedy, at, e)
  {
    hide *;
    Times(nmin, Count(q));
    PlusCode(nmin, greedy, q, b, at, e, c);
    assert Copies(q, nmin, b, c) + [Order(greedy, at, e)] + [] == Copies(q, nmin, b, c) + [Order(greedy, at, e)];
    SplitPlaced(p, b, e - 1, Copies(q, nmin, b, c), Order(greedy, at, e), []);
  }

  lemma SplitPlaced(p: Code, b: nat, at: nat, pre: Code, ins: Instr, body: Code)
    requires at == b + |pre| && Placed(p, b, pre + [ins] + body)
    ensures Placed(p, b, pre) && at + 1 + |body| <= |p| && p[at] == ins && Placed(p, at + 1, body)
  {
    PlacedParts(p, b, pre + [ins], body);
    PlacedParts(p, b, pre, [ins]);
    assert p[at] == p[at..at + 1][0];
  }

  /** The first of the required copies, and the others. */
  lemma FirstCopyPlaced(q: Node, k: nat, p: Code, b: nat, next: nat, c: nat)
    requires Valid(q) && k > 0 && next == b + Count(q) && Placed(p, b, Copies(q, k, b, c))
    ensures Placed(p, b, CodeOf(q, b, c)) && Placed(p, next, Copies(q, k - 1, next, c))
  {
    hide *;
    FirstCopy(q, k - 1, b, c);
    PlacedParts(p, b, CodeOf(q, b, c), Copies(q, k - 1, next, c));
  }

  /** The first of the optional copies, with the test before it, and the others. */
  lemma FirstOptionalPlaced(q: Node, k: nat, greedy: bool, p: Code, b: nat, next: nat, c: nat)
    requires Valid(q) && k > 0 && next == b + 1 + Count(q) && Placed(p, b, Optionals(q, k, greedy, b, c))
    ensures b < |p| && p[b] == Order(greedy, b + 1, next) && Placed(p, b + 1, CodeOf(q, b + 1, c))
    ensures Placed(p, next, Optionals(q, k - 1, greedy, next, c))
  {
    hide *;
    FirstOptional(q, k - 1, greedy, b, next, c);
    var ins := [Order(greedy, b + 1, next)];
    PlacedParts(p, b, ins + CodeOf(q, b + 1, c), Optionals(q, k - 1, greedy, next, c));
    PlacedParts(p, b, ins, CodeOf(q, b + 1, c));
    PlacedOne(p, b, Order(greedy, b + 1, next));
  }

  lemma PlacedOne(p: Code, b: nat, ins: Instr)
    requires Placed(p, b, [ins])
    ensures b < |p| && p[b] == ins
  {
    assert p[b] == p[b..b + 1][0];
  }

  /** The parts of a bounded quantifier's code: nmin required copies, then opt optional ones. */
  predicate RangePlaced(q: Node, nmin: nat, opt: nat, greedy: bool, p: Code, b: nat, e: nat, c: nat)
    requires Valid(q)
  {
    var mid := b + nmin * Count(q);
    e == mid + opt * (Count(q) + 1) && Placed(p, b, Copies(q, nmin, b, c)) &&
    Placed(p, mid, Optionals(q, opt, greedy, mid, c))
  }

  lemma RangeParts(q: Node, nmin: nat, nmax: nat, greedy: bool, p: Code, b: nat, e: nat, c: nat)
    requires Valid(q) && nmin <= nmax && e == b + Count(Quantifier(nmin, nmax, greedy, q))
    requires Placed(p, b, CodeOf(Quantifier(nmin, nmax, greedy, q), b, c))
    ensures RangePlaced(q, nmin, nmax - nmin, greedy, p, b, e, c)
  {
    hide Count, CodeOf, Placed, Copies, WellFormed;
    var mid := b + nmin * Count(q);
    RangeCount(nmin, nmax, greedy, q);
    if nmin < nmax {
      RangeCode(nmin, nmax, greedy, q, b, mid, c);
      PlacedParts(p, b, Copies(q, nmin, b, c), Optionals(q, nmax - nmin, greedy, mid, c));
    } else {
      ExactCode(nmin, greedy, q, b, c);
      assert Copies(q, nmin, b, c) + [] == Copies(q, nmin, b, c);
      PlacedParts(p, b, Copies(q, nmin, b, c), []);
    }
  }

  lemma RangeFirst(q: Node, nmin: nat, opt: nat, greedy: bool, p: Code, b: nat, e: nat, next: nat, c: nat)
    requires Valid(q) && nmin > 0 && next == b + Count(q) && RangePlaced(q, nmin, opt, greedy, p, b, e, c)
    ensures Placed(p, b, CodeOf(q, b, c)) && RangePlaced(q, nmin - 1, opt, greedy, p, next, e, c)
  {
    hide Count, CodeOf, Placed, Copies, Optionals, WellFormed, Valid;
    Times(nmin, Count(q));
    FirstCopyPlaced(q, nmin, p, b, next, c);
  }

  lemma RangeOptional(q: Node, opt: nat, greedy: bool, p: Code, b: nat, e: nat, next: nat, c: nat)
    requires Valid(q) && opt > 0 && next == b + 1 + Count(q) && RangePlaced(q, 0, opt, greedy, p, b, e, c)
    ensures b < |p| && p[b] == Order(greedy, b + 1, next) && Placed(p, b + 1, CodeOf(q, b + 1, c))
    ensures RangePlaced(q, 0, opt - 1, greedy, p, next, e, c)
  {
    hide Count, CodeOf, Placed, Optionals, WellFormed, Valid;
    Times(opt, Count(q) + 1);
    FirstOptionalPlaced(q, opt, greedy, p, b, next, c);
    NoCopiesPlaced(q, p, next, Optionals(q, opt - 1, greedy, next, c), c);
  }

  lemma NoCopiesPlaced(q: Node, p: Code, b: nat, code: Code, c: nat)
    requires Valid(q) && Placed(p, b, code)
    ensures Placed(p, b, Copies(q, 0, b, c))
  {
  }

  lemma RangeEnd(q: Node, greedy: bool, p: Code, b: nat, e: nat, c: nat)
    requires Valid(q) && RangePlaced(q, 0, 0, greedy, p, b, e, c)
    ensures b == e
  {
  }

  // ---- Every way has a walk ----

  /** Every way in which n fits is a walk through the code of n, with the captures of the way. */
  lemma {:induction false} WayWalks(n: Node, p: Code, s: seq<byte>, b: nat, e: nat, c: nat, i: nat, w: Way, m: Slots)
    requires Valid(n) && e == b + Count(n) && Placed(p, b, CodeOf(n, b, c)) && Fits(n, s, i, w)
    ensures Walk(p, s, State(b, i), Turns(n, b, i, w), m, State(e, WayEnd(n, i, w)), Captures(n, c, i, w, m))
    decreases w, n, 1
  {
    hide Walk, Placed, CodeOf, Count, Valid, Fits, Turns, WayEnd, Captures;
    if n.Concatenation? {
      ConcatenationWay(n.left, n.right, s, b, c, i, w, m);
      ConcatenationWalks(n.left, n.right, p, s, b, e, c, i, w.first, w.second, m);
    } else if n.Alternation? {
      AlternationWay(n.left, n.right, s, b, c, i, w, m);
      if w.First? {
        FirstWalks(n.left, n.right, p, s, b, e, c, i, w.way, m);
      } else {
        SecondWalks(n.left, n.right, p, s, b, e, c, i, w.way, m);
      }
    } else if n.Quantifier? {
      QuantifierWalks(n, p, s, b, e, c, i, w, m);
    } else if n.Capture? {
      CaptureWay(n.captured, s, b, c, i, w, m);
      CaptureWalks(n.captured, p, s, b, e, c, i, w, m);
    } else {
      LeafWalks(n, p, s, b, e, c, i, w, m);
    }
  }

  lemma LeafWalks(n: Node, p: Code, s: seq<byte>, b: nat, e: nat, c: nat, i: nat, w: Way, m: Slots)
    requires Valid(n) && Leaf(n) && e == b + Count(n) && Placed(p, b, CodeOf(n, b, c)) && Fits(n, s, i, w)
    ensures Walk(p, s, State(b, i), Turns(n, b, i, w), m, State(e, WayEnd(n, i, w)), Captures(n, c, i, w, m))
  {
    hide Walk;
    if n.Epsilon? {
      NoWalk(p, s, State(b, i), m);
    } else {
      assert p[b] == CodeOf(n, b, c)[0];
      if n.Class? { BitmapOfContains(n.text, s[i]); }
      WalkOne(p, s, Go(b, i), m);
    }
  }

  lemma {:induction false} ConcatenationWalks(l: Node, r: Node, p: Code, s: seq<byte>, b: nat, e: nat, c: nat, i: nat,
                                              x: Way, y: Way, m: Slots)
    requires Valid(l) && Valid(r) && e == b + Count(l) + Count(r)
    requires Placed(p, b, CodeOf(Concatenation(l, r), b, c)) && Fits(l, s, i, x) && Fits(r, s, WayEnd(l, i, x), y)
    ensures var k := WayEnd(l, i, x);
            Walk(p, s, State(b, i), Turns(l, b, i, x) + Turns(r, b + Count(l), k, y), m,
                 State(e, WayEnd(r, k, y)), Captures(r, NextCapture(l, c), k, y, Captures(l, c, i, x, m)))
    decreases Both(x, y), l, 0
  {
    hide *;
    var b', c', k, m1 := b + Count(l), NextCapture(l, c), WayEnd(l, i, x), Captures(l, c, i, x, m);
    ConcatenationCode(l, r, b, c);
    PlacedParts(p, b, CodeOf(l, b, c), CodeOf(r, b', c'));
    WayWalks(l, p, s, b, b', c, i, x, m);
    WayWalks(r, p, s, b', e, c', k, y, m1);
    WalkOn(p, s, State(b, i), Turns(l, b, i, x), m, State(b', k), m1,
           Turns(r, b', k, y), State(e, WayEnd(r, k, y)), Captures(r, c', k, y, m1));
  }

  lemma {:induction false} FirstWalks(l: Node, r: Node, p: Code, s: seq<byte>, b: nat, e: nat, c: nat, i: nat,
                                      w: Way, m: Slots)
    requires Valid(l) && Valid(r) && e == b + 2 + Count(l) + Count(r)
    requires Placed(p, b, CodeOf(Alternation(l, r), b, c)) && Fits(l, s, i, w)
    ensures Walk(p, s, State(b, i), [Go(b, i)] + Turns(l, b + 1, i, w) + [Go(b + 1 + Count(l), WayEnd(l, i, w))], m,
                 State(e, WayEnd(l, i, w)), Captures(l, c, i, w, m))
    decreases First(w), l, 0
  {
    hide *;
    var b1, b2, k, m' := b + 1, b + 2 + Count(l), WayEnd(l, i, w), Captures(l, c, i, w, m);
    BranchesPlaced(l, r, p, b, b2, e, c);
    WalkSplit(p, s, b, i, false, m);
    WayWalks(l, p, s, b1, b2 - 1, c, i, w, m);
    WalkOn(p, s, State(b, i), [Turn(State(b, i), false)], m, State(b1, i), m, Turns(l, b1, i, w), State(b2 - 1, k), m');
    WalkJump(p, s, b2 - 1, k, m');
    WalkOn(p, s, State(b, i), [Turn(State(b, i), false)] + Turns(l, b1, i, w), m, State(b2 - 1, k), m',
           [Go(b2 - 1, k)], State(e, k), m');
    GoIs(b, i);
  }

  lemma GoIs(pc: nat, i: nat)
    ensures Go(pc, i) == Turn(State(pc, i), false)
  {
  }

  lemma {:induction false} SecondWalks(l: Node, r: Node, p: Code, s: seq<byte>, b: nat, e: nat, c: nat, i: nat,
                                       w: Way, m: Slots)
    requires Valid(l) && Valid(r) && e == b + 2 + Count(l) + Count(r)
    requires Placed(p, b, CodeOf(Alternation(l, r), b, c)) && Fits(r, s, i, w)
    ensures Walk(p, s, State(b, i), [Turn(State(b, i), true)] + Turns(r, b + 2 + Count(l), i, w), m,
                 State(e, WayEnd(r, i, w)), Captures(r, NextCapture(l, c), i, w, m))
    decreases Second(w), r, 0
  {
    hide *;
    var b2, c' := b + 2 + Count(l), NextCapture(l, c);
    BranchesPlaced(l, r, p, b, b2, e, c);
    WalkSplit(p, s, b, i, true, m);
    WayWalks(r, p, s, b2, e, c', i, w, m);
    WalkOn(p, s, State(b, i), [Turn(State(b, i), true)], m, State(b2, i), m,
           Turns(r, b2, i, w), State(e, WayEnd(r, i, w)), Captures(r, c', i, w, m));
  }

  lemma {:induction false} CaptureWalks(x: Node, p: Code, s: seq<byte>, b: nat, e: nat, c: nat, i: nat, w: Way, m: Slots)
    requires Valid(x) && e == b + 2 + Count(x) && Placed(p, b, CodeOf(Capture(x), b, c)) && Fits(x, s, i, w)
    ensures Walk(p, s, State(b, i), [Go(b, i)] + Turns(x, b + 1, i, w) + [Go(b + 1 + Count(x), WayEnd(x, i, w))], m,
                 State(e, WayEnd(x, i, w)), Put(Captures(x, c + 1, i, w, Put(m, 2 * c, i)), 2 * c + 1, WayEnd(x, i, w)))
    decreases w, x, 2
  {
    hide *;
    CapturePlaced(x, p, b, e, c);
    var k, m1 := WayEnd(x, i, w), Put(m, 2 * c, i);
    var m2 := Captures(x, c + 1, i, w, m1);
    WalkSave(p, s, b, i, m);
    WayWalks(x, p, s, b + 1, e - 1, c + 1, i, w, m1);
    WalkOn(p, s, State(b, i), [Go(b, i)], m, State(b + 1, i), m1, Turns(x, b + 1, i, w), State(e - 1, k), m2);
    WalkSave(p, s, e - 1, k, m2);
    WalkOn(p, s, State(b, i), [Go(b, i)] + Turns(x, b + 1, i, w), m, State(e - 1, k), m2,
           [Go(e - 1, k)], State(e, k), Put(m2, 2 * c + 1, k));
  }

  lemma {:induction false} QuantifierWalks(n: Node, p: Code, s: seq<byte>, b: nat, e: nat, c: nat, i: nat, w: Way, m: Slots)
    requires n.Quantifier? && Valid(n) && e == b + Count(n) && Placed(p, b, CodeOf(n, b, c)) && Fits(n, s, i, w)
    ensures Walk(p, s, State(b, i), Turns(n, b, i, w), m, State(e, WayEnd(n, i, w)), Captures(n, c, i, w, m))
    decreases w, n, 0
  {
    hide Placed, Walk, Count, CodeOf, RoundsEnd, CapturesAfter, Counted, AllFit, RangePlaced, RangeTurns, StarTurns, PlusTurns;
    var nmin, greedy, q := n.nmin, n.greedy, n.quantified;
    if n.nmax != -1 {
      RangeParts(q, nmin, n.nmax, greedy, p, b, e, c);
      RangeWalks(q, nmin, n.nmax - nmin, greedy, p, s, b, e, c, i, w.copies, m);
    } else if nmin == 0 {
      OpenCount(nmin, greedy, q);
      StarPlaced(greedy, q, p, b, e, c);
      StarWalks(q, greedy, p, s, b, e, c, i, w.copies, m);
    } else {
      OpenCount(nmin, greedy, q);
      PlusPlaced(nmin, greedy, q, p, b, b + (nmin - 1) * Count(q), e, c);
      PlusWalks(q, nmin, greedy, p, s, b, b + (nmin - 1) * Count(q), e, c, i, w.copies, m);
    }
  }

  lemma {:induction false} RangeWalks(q: Node, nmin: nat, opt: nat, greedy: bool, p: Code, s: seq<byte>, b: nat,
                                      e: nat, c: nat, i: nat, cs: Rounds, m: Slots)
    requires Valid(q) && RangePlaced(q, nmin, opt, greedy, p, b, e, c)
    requires Counted(cs, nmin, nmin + opt) && AllFit(q, s, i, cs)
    ensures Walk(p, s, State(b, i), RangeTurns(q, nmin, greedy, b, i, cs), m,
                 State(e, RoundsEnd(q, i, cs)), CapturesAfter(q, c, i, cs, m))
    decreases cs, q, 2
  {
    hide Walk, Count, CodeOf, RangePlaced, Placed, Valid, Fits, Turns, WayEnd, Captures, Order;
    match cs
    case Done =>
      RangeEnd(q, greedy, p, b, e, c);
      NoWalk(p, s, State(b, i), m);
    case Skipped(rest) =>
      var next := b + 1 + Count(q);
      RangeOptional(q, opt, greedy, p, b, e, next, c);
      WalkLeave(p, s, b, greedy, b + 1, next, i, m);
      RangeWalks(q, 0, opt - 1, greedy, p, s, next, e, c, i, rest, m);
      WalkOn(p, s, State(b, i), [Leave(greedy, b, i)], m, State(next, i), m,
             RangeTurns(q, 0, greedy, next, i, rest), State(e, RoundsEnd(q, i, rest)), CapturesAfter(q, c, i, rest, m));
    case Taken(w, rest) =>
      if nmin > 0 {
        RequiredWalks(q, nmin, opt, greedy, p, s, b, e, c, i, w, rest, m);
      } else {
        OptionalWalks(q, opt, greedy, p, s, b, e, c, i, w, rest, m);
      }
  }

  lemma {:induction false} RequiredWalks(q: Node, nmin: nat, opt: nat, greedy: bool, p: Code, s: seq<byte>, b: nat,
                                         e: nat, c: nat, i: nat, w: Way, rest: Rounds, m: Slots)
    requires Valid(q) && nmin > 0 && RangePlaced(q, nmin, opt, greedy, p, b, e, c)
    requires Fits(q, s, i, w) && Counted(rest, nmin - 1, nmin - 1 + opt) && AllFit(q, s, WayEnd(q, i, w), rest)
    ensures var k := WayEnd(q, i, w);
            Walk(p, s, State(b, i), Turns(q, b, i, w) + RangeTurns(q, nmin - 1, greedy, b + Count(q), k, rest), m,
                 State(e, RoundsEnd(q, k, rest)), CapturesAfter(q, c, k, rest, Captures(q, c, i, w, m)))
    decreases Taken(w, rest), q, 1
  {
    hide *;
    var k, m1, next := WayEnd(q, i, w), Captures(q, c, i, w, m), b + Count(q);
    RangeFirst(q, nmin, opt, greedy, p, b, e, next, c);
    WayWalks(q, p, s, b, next, c, i, w, m);
    RangeWalks(q, nmin - 1, opt, greedy, p, s, next, e, c, k, rest, m1);
    WalkOn(p, s, State(b, i), Turns(q, b, i, w), m, State(next, k), m1, RangeTurns(q, nmin - 1, greedy, next, k, rest),
           State(e, RoundsEnd(q, k, rest)), CapturesAfter(q, c, k, rest, m1));
  }

  lemma {:induction false} OptionalWalks(q: Node, opt: nat, greedy: bool, p: Code, s: seq<byte>, b: nat,
                                         e: nat, c: nat, i: nat, w: Way, rest: Rounds, m: Slots)
    requires Valid(q) && opt > 0 && RangePlaced(q, 0, opt, greedy, p, b, e, c)
    requires Fits(q, s, i, w) && Counted(rest, 0, opt - 1) && AllFit(q, s, WayEnd(q, i, w), rest)
    ensures var k, next := WayEnd(q, i, w), b + 1 + Count(q);
            Walk(p, s, State(b, i),
                 [Stay(greedy, b, i)] + Turns(q, b + 1, i, w) + RangeTurns(q, 0, greedy, next, k, rest), m,
                 State(e, RoundsEnd(q, k, rest)), CapturesAfter(q, c, k, rest, Captures(q, c, i, w, m)))
    decreases Taken(w, rest), q, 1
  {
    hide *;
    var k, m1, next := WayEnd(q, i, w), Captures(q, c, i, w, m), b + 1 + Count(q);
    RangeOptional(q, opt, greedy, p, b, e, next, c);
    WalkStay(p, s, b, greedy, b + 1, next, i, m);
    WayWalks(q, p, s, b + 1, next, c, i, w, m);
    WalkOn(p, s, State(b, i), [Stay(greedy, b, i)], m, State(b + 1, i), m, Turns(q, b + 1, i, w), State(next, k), m1);
    RangeWalks(q, 0, opt - 1, greedy, p, s, next, e, c, k, rest, m1);
    WalkOn(p, s, State(b, i), [Stay(greedy, b, i)] + Turns(q, b + 1, i, w), m, State(next, k), m1,
           RangeTurns(q, 0, greedy, next, k, rest), State(e, RoundsEnd(q, k, rest)), CapturesAfter(q, c, k, rest, m1));
  }

  lemma {:induction false} StarWalks(q: Node, greedy: bool, p: Code, s: seq<byte>, b: nat, e: nat, c: nat, i: nat,
                                     cs: Rounds, m: Slots)
    requires Valid(q) && e == b + 2 + Count(q) && e <= |p|
    requires p[b] == Order(greedy, b + 1, e) && Placed(p, b + 1, CodeOf(q, b + 1, c)) && p[e - 1] == Jump(b)
    requires Counted(cs, 0, -1) && AllFit(q, s, i, cs)
    ensures Walk(p, s, State(b, i), StarTurns(q, greedy, b, i, cs), m,
                 State(e, RoundsEnd(q, i, cs)), CapturesAfter(q, c, i, cs, m))
    decreases cs, q, 2
  {
    hide Walk, Count, CodeOf, Placed, Valid, Fits, Turns, WayEnd, Captures, Order;
    match cs
    case Done => WalkLeave(p, s, b, greedy, b + 1, e, i, m);
    case Taken(w, rest) =>
      var k, m1 := WayEnd(q, i, w), Captures(q, c, i, w, m);
      WalkStay(p, s, b, greedy, b + 1, e, i, m);
      WayWalks(q, p, s, b + 1, e - 1, c, i, w, m);
      WalkOn(p, s, State(b, i), [Stay(greedy, b, i)], m, State(b + 1, i), m, Turns(q, b + 1, i, w), State(e - 1, k), m1);
      WalkJump(p, s, e - 1, k, m1);
      WalkOn(p, s, State(b, i), [Stay(greedy, b, i)] + Turns(q, b + 1, i, w), m, State(e - 1, k), m1,
             [Go(e - 1, k)], State(b, k), m1);
      StarWalks(q, greedy, p, s, b, e, c, k, rest, m1);
      WalkOn(p, s, State(b, i), [Stay(greedy, b, i)] + Turns(q, b + 1, i, w) + [Go(e - 1, k)], m, State(b, k), m1,
             StarTurns(q, greedy, b, k, rest), State(e, RoundsEnd(q, k, rest)), CapturesAfter(q, c, k, rest, m1));
  }

  lemma {:induction false} PlusWalks(q: Node, nmin: nat, greedy: bool, p: Code, s: seq<byte>, b: nat, at: nat, e: nat,
                                     c: nat, i: nat, cs: Rounds, m: Slots)
    requires Valid(q) && nmin > 0 && at == b + (nmin - 1) * Count(q) && e == at + Count(q) + 1 && e <= |p|
    requires Placed(p, b, Copies(q, nmin, b, c)) && p[e - 1] == Order(greedy, at, e)
    requires Counted(cs, nmin, -1) && AllFit(q, s, i, cs)
    ensures Walk(p, s, State(b, i), PlusTurns(q, nmin, greedy, b, i, cs), m,
                 State(e, RoundsEnd(q, i, cs)), CapturesAfter(q, c, i, cs, m))
    decreases cs, q, 2
  {
    hide Walk, Count, CodeOf, Placed, Valid, Fits, Codegen.Copies, Turns, WayEnd, Captures, Order;
    var w, rest, next := cs.way, cs.rest, b + Count(q);
    var k, m1 := WayEnd(q, i, w), Captures(q, c, i, w, m);
    var end, m' := State(e, RoundsEnd(q, k, rest)), CapturesAfter(q, c, k, rest, m1);
    FirstCopyPlaced(q, nmin, p, b, next, c);
    WayWalks(q, p, s, b, next, c, i, w, m);
    if nmin > 1 {
      Times(nmin - 1, Count(q));
      PlusWalks(q, nmin - 1, greedy, p, s, next, at, e, c, k, rest, m1);
      WalkOn(p, s, State(b, i), Turns(q, b, i, w), m, State(next, k), m1,
             PlusTurns(q, nmin - 1, greedy, next, k, rest), end, m');
    } else if !rest.Taken? {
      WalkLeave(p, s, next, greedy, b, e, k, m1);
      WalkOn(p, s, State(b, i), Turns(q, b, i, w), m, State(next, k), m1, [Leave(greedy, next, k)], end, m');
    } else {
      WalkStay(p, s, next, greedy, b, e, k, m1);
      WalkOn(p, s, State(b, i), Turns(q, b, i, w), m, State(next, k), m1, [Stay(greedy, next, k)], State(b, k), m1);
      PlusWalks(q, 1, greedy, p, s, b, at, e, c, k, rest, m1);
      WalkOn(p, s, State(b, i), Turns(q, b, i, w) + [Stay(greedy, next, k)], m, State(b, k), m1,
             PlusTurns(q, 1, greedy, b, k, rest), end, m');
    }
  }

  // ---- Every path is a way ----

  /** ch begins with the turns t, and goes on from st to a Match with rest. */
  predicate Begins(p: Code, s: seq<byte>, ch: seq<bool>, t: seq<Turn>, st: State, rest: seq<bool>) {
    ch == Choices(t) + rest && Path(p, s, st, rest)
  }

  lemma NoBegin(p: Code, s: seq<byte>, st: State, ch: seq<bool>)
    requires Path(p, s, st, ch)
    ensures Begins(p, s, ch, [], st, ch)
  {
  }

  lemma BeginsOn(p: Code, s: seq<byte>, ch: seq<bool>, t: seq<Turn>, st: State, mid: seq<bool>, u: seq<Turn>, end: State,
                 rest: seq<bool>)
    requires Begins(p, s, ch, t, st, mid) && Begins(p, s, mid, u, end, rest)
    ensures Begins(p, s, ch, t + u, end, rest)
  {
    ChoicesOn(t, u);
  }

  lemma BeginsPath(p: Code, s: seq<byte>, ch: seq<bool>, t: seq<Turn>, st: State, rest: seq<bool>)
    requires Begins(p, s, ch, t, st, rest)
    ensures Path(p, s, st, rest) && |rest| == |ch| - |t|
  {
  }

  lemma BeginsSplit(p: Code, s: seq<byte>, pc: nat, i: nat, ch: seq<bool>)
    requires pc < |p| && p[pc].Split? && Path(p, s, State(pc, i), ch)
    ensures ch != []
    ensures Begins(p, s, ch, [Turn(State(pc, i), ch[0])], State(if ch[0] then p[pc].second else p[pc].first, i), ch[1..])
  {
    SplitPath(p, s, pc, i, ch);
    assert Choices([Turn(State(pc, i), ch[0])]) == [ch[0]];
  }

  lemma BeginsOrder(p: Code, s: seq<byte>, pc: nat, greedy: bool, stay: nat, leave: nat, i: nat, ch: seq<bool>)
    requires pc < |p| && p[pc] == Order(greedy, stay, leave) && Path(p, s, State(pc, i), ch)
    ensures ch != []
    ensures ch[0] == greedy ==> Begins(p, s, ch, [Leave(greedy, pc, i)], State(leave, i), ch[1..])
    ensures ch[0] != greedy ==> Begins(p, s, ch, [Stay(greedy, pc, i)], State(stay, i), ch[1..])
  {
    hide Path, Begins;
    BeginsSplit(p, s, pc, i, ch);
  }

  lemma BeginsJump(p: Code, s: seq<byte>, pc: nat, i: nat, ch: seq<bool>)
    requires pc < |p| && p[pc].Jump? && Path(p, s, State(pc, i), ch)
    ensures ch != [] && Begins(p, s, ch, [Go(pc, i)], State(p[pc].target, i), ch[1..])
  {
    JumpPath(p, s, pc, i, ch);
    assert Choices([Go(pc, i)]) == [false];
  }

  lemma BeginsSave(p: Code, s: seq<byte>, pc: nat, i: nat, ch: seq<bool>)
    requires pc < |p| && p[pc].Save? && Path(p, s, State(pc, i), ch)
    ensures ch != [] && Begins(p, s, ch, [Go(pc, i)], State(pc + 1, i), ch[1..])
  {
    SavePath(p, s, pc, i, ch);
    assert Choices([Go(pc, i)]) == [false];
  }

  /** Every path from the start of the code of n begins with the turns of a way that fits. */
  lemma {:induction false} PathIsWay(n: Node, p: Code, s: seq<byte>, b: nat, e: nat, c: nat, i: nat, ch: seq<bool>)
    returns (w: Way, rest: seq<bool>)
    requires Valid(n) && e == b + Count(n) && Placed(p, b, CodeOf(n, b, c)) && Path(p, s, State(b, i), ch)
    ensures Fits(n, s, i, w) && Begins(p, s, ch, Turns(n, b, i, w), State(e, WayEnd(n, i, w)), rest)
    decreases n, 1, 0
  {
    hide Path, Begins, Placed, CodeOf, Count, Valid, Fits, Turns, WayEnd, Captures;
    if n.Concatenation? {
      w, rest := ConcatenationIsWay(n.left, n.right, p, s, b, e, c, i, ch);
    } else if n.Alternation? {
      w, rest := AlternationIsWay(n.left, n.right, p, s, b, e, c, i, ch);
    } else if n.Quantifier? {
      w, rest := QuantifierIsWay(n, p, s, b, e, c, i, ch);
    } else if n.Capture? {
      w, rest := CaptureIsWay(n.captured, p, s, b, e, c, i, ch);
    } else {
      w, rest := LeafIsWay(n, p, s, b, e, c, i, ch);
    }
  }

  lemma LeafIsWay(n: Node, p: Code, s: seq<byte>, b: nat, e: nat, c: nat, i: nat, ch: seq<bool>)
    returns (w: Way, rest: seq<bool>)
    requires Valid(n) && Leaf(n) && e == b + Count(n) && Placed(p, b, CodeOf(n, b, c)) && Path(p, s, State(b, i), ch)
    ensures Fits(n, s, i, w) && Begins(p, s, ch, Turns(n, b, i, w), State(e, WayEnd(n, i, w)), rest)
  {
    w := Plain;
    if n.Epsilon? {
      rest := ch;
    } else {
      assert p[b] == CodeOf(n, b, c)[0];
      if n.Class? && i < |s| { BitmapOfContains(n.text, s[i]); }
      rest := ch[1..];
      assert Choices([Go(b, i)]) == [false];
    }
  }

  lemma {:induction false} ConcatenationIsWay(l: Node, r: Node, p: Code, s: seq<byte>, b: nat, e: nat, c: nat, i: nat,
                                              ch: seq<bool>)
    returns (w: Way, rest: seq<bool>)
    requires Valid(Concatenation(l, r)) && e == b + Count(Concatenation(l, r))
    requires Placed(p, b, CodeOf(Concatenation(l, r), b, c)) && Path(p, s, State(b, i), ch)
    ensures Fits(Concatenation(l, r), s, i, w)
    ensures Begins(p, s, ch, Turns(Concatenation(l, r), b, i, w), State(e, WayEnd(Concatenation(l, r), i, w)), rest)
    decreases Concatenation(l, r), 0, 0
  {
    hide *;
    ConcatenationWay(l, r, s, b, c, i, Plain, []);
    var b', c' := b + Count(l), NextCapture(l, c);
    ConcatenationCode(l, r, b, c);
    PlacedParts(p, b, CodeOf(l, b, c), CodeOf(r, b', c'));
    var x, mid := PathIsWay(l, p, s, b, b', c, i, ch);
    var k := WayEnd(l, i, x);
    BeginsPath(p, s, ch, Turns(l, b, i, x), State(b', k), mid);
    var y;
    y, rest := PathIsWay(r, p, s, b', e, c', k, mid);
    w := Both(x, y);
    ConcatenationWay(l, r, s, b, c, i, w, []);
    BeginsOn(p, s, ch, Turns(l, b, i, x), State(b', k), mid, Turns(r, b', k, y), State(e, WayEnd(r, k, y)), rest);
  }

  lemma {:induction false} AlternationIsWay(l: Node, r: Node, p: Code, s: seq<byte>, b: nat, e: nat, c: nat, i: nat,
                                            ch: seq<bool>)
    returns (w: Way, rest: seq<bool>)
    requires Valid(Alternation(l, r)) && e == b + Count(Alternation(l, r))
    requires Placed(p, b, CodeOf(Alternation(l, r), b, c)) && Path(p, s, State(b, i), ch)
    ensures Fits(Alternation(l, r), s, i, w)
    ensures Begins(p, s, ch, Turns(Alternation(l, r), b, i, w), State(e, WayEnd(Alternation(l, r), i, w)), rest)
    decreases Alternation(l, r), 0, 0
  {
    hide *;
    AlternationWay(l, r, s, b, c, i, Plain, []);
    var b1, b2 := b + 1, b + 2 + Count(l);
    BranchesPlaced(l, r, p, b, b2, e, c);
    BeginsSplit(p, s, b, i, ch);
    var first := [Turn(State(b, i), ch[0])];
    BeginsPath(p, s, ch, first, State(if ch[0] then b2 else b1, i), ch[1..]);
    if ch[0] {
      var x;
      x, rest := PathIsWay(r, p, s, b2, e, NextCapture(l, c), i, ch[1..]);
      w := Second(x);
      AlternationWay(l, r, s, b, c, i, w, []);
      BeginsOn(p, s, ch, first, State(b2, i), ch[1..], Turns(r, b2, i, x), State(e, WayEnd(r, i, x)), rest);
    } else {
      var x, mid := PathIsWay(l, p, s, b1, b2 - 1, c, i, ch[1..]);
      w := First(x);
      AlternationWay(l, r, s, b, c, i, w, []);
      var k := WayEnd(l, i, x);
      BeginsOn(p, s, ch, first, State(b1, i), ch[1..], Turns(l, b1, i, x), State(b2 - 1, k), mid);
      BeginsPath(p, s, ch[1..], Turns(l, b1, i, x), State(b2 - 1, k), mid);
      BeginsJump(p, s, b2 - 1, k, mid);
      rest := mid[1..];
      BeginsOn(p, s, ch, first + Turns(l, b1, i, x), State(b2 - 1, k), mid, [Go(b2 - 1, k)], State(e, k), rest);
      GoIs(b, i);
    }
  }

  lemma {:induction false} CaptureIsWay(x: Node, p: Code, s: seq<byte>, b: nat, e: nat, c: nat, i: nat, ch: seq<bool>)
    returns (w: Way, rest: seq<bool>)
    requires Valid(Capture(x)) && e == b + Count(Capture(x))
    requires Placed(p, b, CodeOf(Capture(x), b, c)) && Path(p, s, State(b, i), ch)
    ensures Fits(Capture(x), s, i, w)
    ensures Begins(p, s, ch, Turns(Capture(x), b, i, w), State(e, WayEnd(Capture(x), i, w)), rest)
    decreases Capture(x), 0, 0
  {
    hide *;
    CaptureWay(x, s, b, c, i, Plain, []);
    CapturePlaced(x, p, b, e, c);
    BeginsSave(p, s, b, i, ch);
    BeginsPath(p, s, ch, [Go(b, i)], State(b + 1, i), ch[1..]);
    var mid;
    w, mid := PathIsWay(x, p, s, b + 1, e - 1, c + 1, i, ch[1..]);
    CaptureWay(x, s, b, c, i, w, []);
    var k := WayEnd(x, i, w);
    BeginsOn(p, s, ch, [Go(b, i)], State(b + 1, i), ch[1..], Turns(x, b + 1, i, w), State(e - 1, k), mid);
    BeginsPath(p, s, ch[1..], Turns(x, b + 1, i, w), State(e - 1, k), mid);
    BeginsSave(p, s, e - 1, k, mid);
    rest := mid[1..];
    BeginsOn(p, s, ch, [Go(b, i)] + Turns(x, b + 1, i, w), State(e - 1, k), mid, [Go(e - 1, k)], State(e, k), rest);
  }

  lemma {:induction false} QuantifierIsWay(n: Node, p: Code, s: seq<byte>, b: nat, e: nat, c: nat, i: nat, ch: seq<bool>)
    returns (w: Way, rest: seq<bool>)
    requires n.Quantifier? && Valid(n) && e == b + Count(n) && Placed(p, b, CodeOf(n, b, c)) && Path(p, s, State(b, i), ch)
    ensures Fits(n, s, i, w) && Begins(p, s, ch, Turns(n, b, i, w), State(e, WayEnd(n, i, w)), rest)
    decreases n, 0, 0
  {
    hide Placed, Path, Begins, Count, CodeOf, RoundsEnd, Counted, AllFit, RangePlaced, RangeTurns, StarTurns, PlusTurns;
    var nmin, greedy, q := n.nmin, n.greedy, n.quantified;
    var cs;
    if n.nmax != -1 {
      RangeParts(q, nmin, n.nmax, greedy, p, b, e, c);
      cs, rest := RangeIsWay(q, nmin, n.nmax - nmin, greedy, p, s, b, e, c, i, ch);
    } else if nmin == 0 {
      OpenCount(nmin, greedy, q);
      StarPlaced(greedy, q, p, b, e, c);
      cs, rest := StarIsWay(q, greedy, p, s, b, e, c, i, ch);
    } else {
      OpenCount(nmin, greedy, q);
      PlusPlaced(nmin, greedy, q, p, b, b + (nmin - 1) * Count(q), e, c);
      cs, rest := PlusIsWay(q, nmin, greedy, p, s, b, b + (nmin - 1) * Count(q), e, c, i, ch);
    }
    w := Repeated(cs);
  }

  lemma {:induction false} RangeIsWay(q: Node, nmin: nat, opt: nat, greedy: bool, p: Code, s: seq<byte>, b: nat,
                                      e: nat, c: nat, i: nat, ch: seq<bool>)
    returns (cs: Rounds, rest: seq<bool>)
    requires Valid(q) && RangePlaced(q, nmin, opt, greedy, p, b, e, c) && Path(p, s, State(b, i), ch)
    ensures Counted(cs, nmin, nmin + opt) && AllFit(q, s, i, cs)
    ensures Begins(p, s, ch, RangeTurns(q, nmin, greedy, b, i, cs), State(e, RoundsEnd(q, i, cs)), rest)
    decreases q, 2, 2 * (nmin + opt)
  {
    hide Path, Begins, Count, CodeOf, RangePlaced, Placed, Valid, Fits, Turns, WayEnd;
    if nmin == 0 && opt == 0 {
      RangeEnd(q, greedy, p, b, e, c);
      cs, rest := Done, ch;
      NoBegin(p, s, State(b, i), ch);
    } else if nmin > 0 {
      var next := b + Count(q);
      RangeFirst(q, nmin, opt, greedy, p, b, e, next, c);
      var w, mid := PathIsWay(q, p, s, b, next, c, i, ch);
      var k := WayEnd(q, i, w);
      BeginsPath(p, s, ch, Turns(q, b, i, w), State(next, k), mid);
      cs, rest := RangeIsWay(q, nmin - 1, opt, greedy, p, s, next, e, c, k, mid);
      BeginsOn(p, s, ch, Turns(q, b, i, w), State(next, k), mid,
               RangeTurns(q, nmin - 1, greedy, next, k, cs), State(e, RoundsEnd(q, k, cs)), rest);
      cs := Taken(w, cs);
    } else {
      cs, rest := OptionalIsWay(q, opt, greedy, p, s, b, e, c, i, ch);
    }
  }

  lemma {:induction false} OptionalIsWay(q: Node, opt: nat, greedy: bool, p: Code, s: seq<byte>, b: nat,
                                         e: nat, c: nat, i: nat, ch: seq<bool>)
    returns (cs: Rounds, rest: seq<bool>)
    requires Valid(q) && opt > 0 && RangePlaced(q, 0, opt, greedy, p, b, e, c) && Path(p, s, State(b, i), ch)
    ensures Counted(cs, 0, opt) && AllFit(q, s, i, cs)
    ensures Begins(p, s, ch, RangeTurns(q, 0, greedy, b, i, cs), State(e, RoundsEnd(q, i, cs)), rest)
    decreases q, 2, 2 * opt - 1
  {
    hide Path, Begins, Count, CodeOf, RangePlaced, Placed, Valid, Fits, Turns, WayEnd, Order;
    var next := b + 1 + Count(q);
    RangeOptional(q, opt, greedy, p, b, e, next, c);
    BeginsOrder(p, s, b, greedy, b + 1, next, i, ch);
    if ch[0] == greedy {
      BeginsPath(p, s, ch, [Leave(greedy, b, i)], State(next, i), ch[1..]);
      cs, rest := RangeIsWay(q, 0, opt - 1, greedy, p, s, next, e, c, i, ch[1..]);
      BeginsOn(p, s, ch, [Leave(greedy, b, i)], State(next, i), ch[1..],
               RangeTurns(q, 0, greedy, next, i, cs), State(e, RoundsEnd(q, i, cs)), rest);
      cs := Skipped(cs);
    } else {
      BeginsPath(p, s, ch, [Stay(greedy, b, i)], State(b + 1, i), ch[1..]);
      var w, mid := PathIsWay(q, p, s, b + 1, next, c, i, ch[1..]);
      var k := WayEnd(q, i, w);
      BeginsPath(p, s, ch[1..], Turns(q, b + 1, i, w), State(next, k), mid);
      BeginsOn(p, s, ch, [Stay(greedy, b, i)], State(b + 1, i), ch[1..], Turns(q, b + 1, i, w), State(next, k), mid);
      cs, rest := RangeIsWay(q, 0, opt - 1, greedy, p, s, next, e, c, k, mid);
      BeginsOn(p, s, ch, [Stay(greedy, b, i)] + Turns(q, b + 1, i, w), State(next, k), mid,
               RangeTurns(q, 0, greedy, next, k, cs), State(e, RoundsEnd(q, k, cs)), rest);
      cs := Taken(w, cs);
    }
  }

  lemma {:induction false} StarIsWay(q: Node, greedy: bool, p: Code, s: seq<byte>, b: nat, e: nat, c: nat, i: nat,
                                     ch: seq<bool>)
    returns (cs: Rounds, rest: seq<bool>)
    requires Valid(q) && e == b + 2 + Count(q) && e <= |p| && Path(p, s, State(b, i), ch)
    requires p[b] == Order(greedy, b + 1, e) && Placed(p, b + 1, CodeOf(q, b + 1, c)) && p[e - 1] == Jump(b)
    ensures Counted(cs, 0, -1) && AllFit(q, s, i, cs)
    ensures Begins(p, s, ch, StarTurns(q, greedy, b, i, cs), State(e, RoundsEnd(q, i, cs)), rest)
    decreases q, 2, |ch|
  {
    hide Path, Begins, Count, CodeOf, Placed, Valid, Fits, Turns, WayEnd, Order;
    BeginsOrder(p, s, b, greedy, b + 1, e, i, ch);
    if ch[0] == greedy {
      cs, rest := Done, ch[1..];
    } else {
      BeginsPath(p, s, ch, [Stay(greedy, b, i)], State(b + 1, i), ch[1..]);
      var w, mid := PathIsWay(q, p, s, b + 1, e - 1, c, i, ch[1..]);
      var k := WayEnd(q, i, w);
      BeginsPath(p, s, ch[1..], Turns(q, b + 1, i, w), State(e - 1, k), mid);
      BeginsOn(p, s, ch, [Stay(greedy, b, i)], State(b + 1, i), ch[1..], Turns(q, b + 1, i, w), State(e - 1, k), mid);
      BeginsJump(p, s, e - 1, k, mid);
      BeginsPath(p, s, mid, [Go(e - 1, k)], State(b, k), mid[1..]);
      BeginsOn(p, s, ch, [Stay(greedy, b, i)] + Turns(q, b + 1, i, w), State(e - 1, k), mid,
               [Go(e - 1, k)], State(b, k), mid[1..]);
      cs, rest := StarIsWay(q, greedy, p, s, b, e, c, k, mid[1..]);
      BeginsOn(p, s, ch, [Stay(greedy, b, i)] + Turns(q, b + 1, i, w) + [Go(e - 1, k)], State(b, k), mid[1..],
               StarTurns(q, greedy, b, k, cs), State(e, RoundsEnd(q, k, cs)), rest);
      cs := Taken(w, cs);
    }
  }

  lemma {:induction false} PlusIsWay(q: Node, nmin: nat, greedy: bool, p: Code, s: seq<byte>, b: nat, at: nat, e: nat,
                                     c: nat, i: nat, ch: seq<bool>)
    returns (cs: Rounds, rest: seq<bool>)
    requires Valid(q) && nmin > 0 && at == b + (nmin - 1) * Count(q) && e == at + Count(q) + 1 && e <= |p|
    requires Placed(p, b, Copies(q, nmin, b, c)) && p[e - 1] == Order(greedy, at, e) && Path(p, s, State(b, i), ch)
    ensures cs.Taken? && Counted(cs, nmin, -1) && AllFit(q, s, i, cs)
    ensures Begins(p, s, ch, PlusTurns(q, nmin, greedy, b, i, cs), State(e, RoundsEnd(q, i, cs)), rest)
    decreases q, nmin + 2, |ch|
  {
    hide Path, Begins, Count, CodeOf, Placed, Valid, Fits, Codegen.Copies, Turns, WayEnd, Order;
    var next := b + Count(q);
    FirstCopyPlaced(q, nmin, p, b, next, c);
    var w, mid := PathIsWay(q, p, s, b, next, c, i, ch);
    var k := WayEnd(q, i, w);
    BeginsPath(p, s, ch, Turns(q, b, i, w), State(next, k), mid);
    if nmin > 1 {
      Times(nmin - 1, Count(q));
      cs, rest := PlusIsWay(q, nmin - 1, greedy, p, s, next, at, e, c, k, mid);
      BeginsOn(p, s, ch, Turns(q, b, i, w), State(next, k), mid,
               PlusTurns(q, nmin - 1, greedy, next, k, cs), State(e, RoundsEnd(q, k, cs)), rest);
      cs := Taken(w, cs);
    } else {
      BeginsOrder(p, s, next, greedy, b, e, k, mid);
      if mid[0] == greedy {
        cs, rest := Taken(w, Done), mid[1..];
        BeginsOn(p, s, ch, Turns(q, b, i, w), State(next, k), mid, [Leave(greedy, next, k)], State(e, k), rest);
      } else {
        BeginsOn(p, s, ch, Turns(q, b, i, w), State(next, k), mid, [Stay(greedy, next, k)], State(b, k), mid[1..]);
        BeginsPath(p, s, mid, [Stay(greedy, next, k)], State(b, k), mid[1..]);
        cs, rest := PlusIsWay(q, 1, greedy, p, s, b, at, e, c, k, mid[1..]);
        BeginsOn(p, s, ch, Turns(q, b, i, w) + [Stay(greedy, next, k)], State(b, k), mid[1..],
                 PlusTurns(q, 1, greedy, b, k, cs), State(e, RoundsEnd(q, k, cs)), rest);
        cs := Taken(w, cs);
      }
    }
  }

  // ---- The slots that code sets ----

  predicate Sets(code: Code, slot: nat) {
    exists k :: 0 <= k < |code| && code[k] == Save(slot)
  }

  ghost predicate Owned(t: set<(nat, Node)>, slot: nat) {
    exists g :: g in t && g.0 == slot / 2
  }

  /** Code that sets slots of these groups alone. */
  ghost predicate SetsOwned(code: Code, t: set<(nat, Node)>) {
    forall k :: 0 <= k < |code| && code[k].Save? ==> Owned(t, code[k].slot)
  }

  lemma OwnedMore(t: set<(nat, Node)>, u: set<(nat, Node)>, slot: nat)
    requires Owned(t, slot) && t <= u
    ensures Owned(u, slot)
  {
  }

  lemma OwnedOn(x: Code, y: Code, t: set<(nat, Node)>, u: set<(nat, Node)>, v: set<(nat, Node)>)
    requires SetsOwned(x, t) && SetsOwned(y, u) && t <= v && u <= v
    ensures SetsOwned(x + y, v)
  {
    hide Owned;
    forall k | 0 <= k < |x + y| && (x + y)[k].Save? ensures Owned(v, (x + y)[k].slot) {
      if k < |x| { OwnedMore(t, v, x[k].slot); } else { OwnedMore(u, v, y[k - |x|].slot); }
    }
  }

  lemma OwnedNone(x: Code)
    requires forall k :: 0 <= k < |x| ==> !x[k].Save?
    ensures SetsOwned(x, {})
  {
  }

  lemma NothingSet(t: set<(nat, Node)>)
    ensures SetsOwned([], t)
  {
  }

  lemma {:induction false} CodeOwned(n: Node, b: nat, c: nat)
    requires Valid(n)
    ensures SetsOwned(CodeOf(n, b, c), Groups(n, c))
    decreases n, 1, 0
  {
    hide CodeOf, Count, WellFormed, SetsOwned;
    match n
    case Concatenation(l, r) =>
      ConcatenationCode(l, r, b, c);
      CodeOwned(l, b, c);
      CodeOwned(r, b + Count(l), NextCapture(l, c));
      OwnedOn(CodeOf(l, b, c), CodeOf(r, b + Count(l), NextCapture(l, c)), Groups(l, c), Groups(r, NextCapture(l, c)), Groups(n, c));
    case Alternation(l, r) => AlternationOwned(l, r, b, c);
    case Quantifier(nmin, nmax, greedy, q) => QuantifierOwned(nmin, nmax, greedy, q, b, c);
    case Capture(x) => CaptureOwned(x, b, c);
    case _ => LeafOwned(n, b, c);
  }

  lemma LeafOwned(n: Node, b: nat, c: nat)
    requires Valid(n) && Leaf(n)
    ensures SetsOwned(CodeOf(n, b, c), {})
  {
  }

  lemma {:induction false} AlternationOwned(l: Node, r: Node, b: nat, c: nat)
    requires Valid(l) && Valid(r)
    ensures SetsOwned(CodeOf(Alternation(l, r), b, c), Groups(l, c) + Groups(r, NextCapture(l, c)))
    decreases Alternation(l, r), 0, 0
  {
    hide CodeOf, Count, WellFormed, SetsOwned, Groups, NextCapture, Valid;
    var b2, c', all := b + 2 + Count(l), NextCapture(l, c), Groups(l, c) + Groups(r, NextCapture(l, c));
    var x, y := CodeOf(l, b + 1, c), CodeOf(r, b2, c');
    AlternationCode(l, r, b, c);
    CodeOwned(l, b + 1, c);
    CodeOwned(r, b2, c');
    OwnedNone([Split(b + 1, b2)]);
    OwnedNone([Jump(b2 + |y|)]);
    OwnedOn([Split(b + 1, b2)], x, {}, Groups(l, c), all);
    OwnedOn([Split(b + 1, b2)] + x, [Jump(b2 + |y|)], all, {}, all);
    OwnedOn([Split(b + 1, b2)] + x + [Jump(b2 + |y|)], y, all, Groups(r, c'), all);
  }

  lemma {:induction false} CaptureOwned(x: Node, b: nat, c: nat)
    requires Valid(x)
    ensures SetsOwned(CodeOf(Capture(x), b, c), {(c, x)} + Groups(x, c + 1))
    decreases Capture(x), 0, 0
  {
    hide CodeOf, Count, WellFormed, SetsOwned, Groups, NextCapture, Valid;
    var all := {(c, x)} + Groups(x, c + 1);
    CaptureCode(x, b, c);
    CodeOwned(x, b + 1, c + 1);
    OneOwned(x, c, 2 * c);
    OneOwned(x, c, 2 * c + 1);
    OwnedOn([Save(2 * c)], CodeOf(x, b + 1, c + 1), {(c, x)}, Groups(x, c + 1), all);
    OwnedOn([Save(2 * c)] + CodeOf(x, b + 1, c + 1), [Save(2 * c + 1)], all, {(c, x)}, all);
  }

  lemma OneOwned(x: Node, c: nat, slot: nat)
    requires slot / 2 == c
    ensures SetsOwned([Save(slot)], {(c, x)})
  {
    assert (c, x) in {(c, x)} && (c, x).0 == slot / 2;
  }

  lemma {:induction false} QuantifierOwned(nmin: nat, nmax: int, greedy: bool, q: Node, b: nat, c: nat)
    requires Valid(q) && (nmax == -1 || nmin <= nmax)
    ensures SetsOwned(CodeOf(Quantifier(nmin, nmax, greedy, q), b, c), if nmin == 0 && nmax == 0 then {} else Groups(q, c))
    decreases q, 3, 0
  {
    hide CodeOf, Count, WellFormed, SetsOwned, Groups, Valid, Copies, Optionals, Order;
    var g, mid := Groups(q, c), b + nmin * Count(q);
    CopiesOwned(q, nmin, b, c);
    if nmax > nmin {
      RangeCode(nmin, nmax, greedy, q, b, mid, c);
      OptionalsOwned(q, nmax - nmin, greedy, mid, c);
      OwnedOn(Copies(q, nmin, b, c), Optionals(q, nmax - nmin, greedy, mid, c), g, g, g);
    } else if nmax == nmin {
      ExactCode(nmin, greedy, q, b, c);
      if nmin == 0 {
        NothingSet({});
        Codegen.NoCopies(q, b, c);
      }
    } else if nmin == 0 {
      StarCode(greedy, q, b, b + Count(q) + 2, c);
      CodeOwned(q, b + 1, c);
      OrderOwned(greedy, b + 1, b + Count(q) + 2);
      OwnedNone([Jump(b)]);
      OwnedOn([Order(greedy, b + 1, b + Count(q) + 2)], CodeOf(q, b + 1, c), {}, g, g);
      OwnedOn([Order(greedy, b + 1, b + Count(q) + 2)] + CodeOf(q, b + 1, c), [Jump(b)], g, {}, g);
    } else {
      Times(nmin, Count(q));
      var at := b + (nmin - 1) * Count(q);
      PlusCode(nmin, greedy, q, b, at, mid + 1, c);
      OrderOwned(greedy, at, mid + 1);
      OwnedOn(Copies(q, nmin, b, c), [Order(greedy, at, mid + 1)], g, {}, g);
    }
  }

  lemma OrderOwned(greedy: bool, stay: nat, leave: nat)
    ensures SetsOwned([Order(greedy, stay, leave)], {})
  {
  }

  lemma {:induction false} CopiesOwned(q: Node, k: nat, b: nat, c: nat)
    requires Valid(q)
    ensures SetsOwned(Copies(q, k, b, c), Groups(q, c))
    decreases q, 2, k
  {
    hide CodeOf, Count, Copies, SetsOwned, Groups, Valid, Optionals;
    if k == 0 {
      Codegen.NoCopies(q, b, c);
      NothingSet(Groups(q, c));
    } else {
      var at := b + (k - 1) * Count(q);
      NextCopy(q, k - 1, b, at, c);
      CopiesOwned(q, k - 1, b, c);
      CodeOwned(q, at, c);
      OwnedOn(Copies(q, k - 1, b, c), CodeOf(q, at, c), Groups(q, c), Groups(q, c), Groups(q, c));
    }
  }

  lemma {:induction false} OptionalsOwned(q: Node, k: nat, greedy: bool, b: nat, c: nat)
    requires Valid(q)
    ensures SetsOwned(Optionals(q, k, greedy, b, c), Groups(q, c))
    decreases q, 2, k
  {
    hide CodeOf, Count, Copies, SetsOwned, Groups, Valid, Optionals, Order;
    if k == 0 {
      NoOptionals(q, greedy, b, c);
      NothingSet(Groups(q, c));
    } else {
      var at, g := b + (k - 1) * (Count(q) + 1), Groups(q, c);
      var ins := [Order(greedy, at + 1, at + 1 + Count(q))];
      NextOptional(q, k - 1, greedy, b, at, at + 1 + Count(q), c);
      OptionalsOwned(q, k - 1, greedy, b, c);
      CodeOwned(q, at + 1, c);
      OrderOwned(greedy, at + 1, at + 1 + Count(q));
      OwnedOn(Optionals(q, k - 1, greedy, b, c), ins, g, {}, g);
      OwnedOn(Optionals(q, k - 1, greedy, b, c) + ins, CodeOf(q, at + 1, c), g, g, g);
    }
  }

  lemma SetsOn(x: Code, y: Code, slot: nat)
    ensures Sets(x + y, slot) <==> Sets(x, slot) || Sets(y, slot)
  {
    if Sets(x, slot) {
      var k :| 0 <= k < |x| && x[k] == Save(slot);
      assert (x + y)[k] == x[k];
    }
    if Sets(y, slot) {
      var k :| 0 <= k < |y| && y[k] == Save(slot);
      assert (x + y)[|x| + k] == y[k];
    }
  }

  /** Both slots of every group are set somewhere. */
  lemma {:induction false} GroupSet(n: Node, b: nat, c: nat, g: (nat, Node), slot: nat)
    requires Valid(n) && g in Groups(n, c) && slot / 2 == g.0
    ensures Sets(CodeOf(n, b, c), slot)
    decreases n, 1
  {
    hide CodeOf, Count, WellFormed, Sets;
    match n
    case Concatenation(l, r) =>
      ConcatenationCode(l, r, b, c);
      if g in Groups(l, c) { GroupSet(l, b, c, g, slot); } else { GroupSet(r, b + Count(l), NextCapture(l, c), g, slot); }
      SetsOn(CodeOf(l, b, c), CodeOf(r, b + Count(l), NextCapture(l, c)), slot);
    case Alternation(l, r) => AlternationSet(l, r, b, c, g, slot);
    case Quantifier(nmin, nmax, greedy, q) => QuantifierSet(nmin, nmax, greedy, q, b, c, g, slot);
    case Capture(x) =>
      if g.0 != c { GroupSet(x, b + 1, c + 1, g, slot); }
      CaptureSet(x, b, c, slot);
    case _ =>
  }

  lemma {:induction false} AlternationSet(l: Node, r: Node, b: nat, c: nat, g: (nat, Node), slot: nat)
    requires Valid(l) && Valid(r) && g in Groups(l, c) + Groups(r, NextCapture(l, c)) && slot / 2 == g.0
    ensures Sets(CodeOf(Alternation(l, r), b, c), slot)
    decreases Alternation(l, r), 0
  {
    hide CodeOf, Count, Sets, Groups, NextCapture, Valid;
    var b2 := b + 2 + Count(l);
    var x, y := CodeOf(l, b + 1, c), CodeOf(r, b2, NextCapture(l, c));
    AlternationCode(l, r, b, c);
    if g in Groups(l, c) { GroupSet(l, b + 1, c, g, slot); } else { GroupSet(r, b2, NextCapture(l, c), g, slot); }
    SetsOn([Split(b + 1, b2)], x, slot);
    SetsOn([Split(b + 1, b2)] + x, [Jump(b2 + |y|)], slot);
    SetsOn([Split(b + 1, b2)] + x + [Jump(b2 + |y|)], y, slot);
  }

  lemma CaptureSet(x: Node, b: nat, c: nat, slot: nat)
    requires Valid(x) && (slot / 2 == c || Sets(CodeOf(x, b + 1, c + 1), slot))
    ensures Sets(CodeOf(Capture(x), b, c), slot)
  {
    hide CodeOf, Sets, Valid;
    CaptureCode(x, b, c);
    SetsItself(2 * c);
    SetsItself(2 * c + 1);
    SetsOn([Save(2 * c)], CodeOf(x, b + 1, c + 1), slot);
    SetsOn([Save(2 * c)] + CodeOf(x, b + 1, c + 1), [Save(2 * c + 1)], slot);
  }

  lemma {:induction false} QuantifierSet(nmin: nat, nmax: int, greedy: bool, q: Node, b: nat, c: nat, g: (nat, Node), slot: nat)
    requires Valid(q) && (nmax == -1 || nmin <= nmax) && !(nmin == 0 && nmax == 0) && g in Groups(q, c) && slot / 2 == g.0
    ensures Sets(CodeOf(Quantifier(nmin, nmax, greedy, q), b, c), slot)
    decreases q, 2
  {
    hide CodeOf, Count, Sets, Groups, Valid, Copies, Optionals, Order;
    var mid := b + nmin * Count(q);
    if nmin > 0 {
      Times(nmin, Count(q));
      var at := b + (nmin - 1) * Count(q);
      GroupSet(q, at, c, g, slot);
      NextCopy(q, nmin - 1, b, at, c);
      SetsOn(Copies(q, nmin - 1, b, c), CodeOf(q, at, c), slot);
      if nmax > nmin {
        RangeCode(nmin, nmax, greedy, q, b, mid, c);
        SetsOn(Copies(q, nmin, b, c), Optionals(q, nmax - nmin, greedy, mid, c), slot);
      } else if nmax == nmin {
        ExactCode(nmin, greedy, q, b, c);
      } else {
        PlusCode(nmin, greedy, q, b, at, mid + 1, c);
        SetsOn(Copies(q, nmin, b, c), [Order(greedy, at, mid + 1)], slot);
      }
    } else if nmax > 0 {
      var at := b + (nmax - 1) * (Count(q) + 1);
      var rest, ins := Optionals(q, nmax - 1, greedy, b, c), [Order(greedy, at + 1, at + 1 + Count(q))];
      RangeCode(0, nmax, greedy, q, b, b, c);
      GroupSet(q, at + 1, c, g, slot);
      NextOptional(q, nmax - 1, greedy, b, at, at + 1 + Count(q), c);
      SetsOn(rest + ins, CodeOf(q, at + 1, c), slot);
      SetsOn(Copies(q, 0, b, c), Optionals(q, nmax, greedy, b, c), slot);
    } else {
      var e := b + Count(q) + 2;
      StarCode(greedy, q, b, e, c);
      GroupSet(q, b + 1, c, g, slot);
      SetsOn([Order(greedy, b + 1, e)], CodeOf(q, b + 1, c), slot);
      SetsOn([Order(greedy, b + 1, e)] + CodeOf(q, b + 1, c), [Jump(b)], slot);
    }
  }

  lemma SetsItself(slot: nat)
    ensures Sets([Save(slot)], slot)
  {
    assert [Save(slot)][0] == Save(slot);
  }

  /** The SAVE instructions in the code of a tree are those of its groups: a slot is set exactly
      if it is one of the two of a group, and no two groups have a slot in common. */
  lemma SavesAreGroups(n: Node, b: nat, c: nat, slot: nat)
    requires Valid(n)
    ensures Sets(CodeOf(n, b, c), slot) <==> Owned(Groups(n, c), slot)
    ensures forall g, h :: g in Groups(n, c) && h in Groups(n, c) && g.0 == h.0 ==> g == h
  {
    hide CodeOf, Groups, Valid;
    CodeOwned(n, b, c);
    if Owned(Groups(n, c), slot) {
      var g :| g in Groups(n, c) && g.0 == slot / 2;
      GroupSet(n, b, c, g, slot);
    }
    forall g, h | g in Groups(n, c) && h in Groups(n, c) && g.0 == h.0 ensures g == h { OneGroup(n, c, g, h); }
  }
}
