/** What a compiled pattern finds and reports: the chosen way of its tree at the leftmost
    position where one fits. */
module Searching {
  import opened Bytes
  import opened Syntax
  import opened Program
  import opened Codegen
  import opened Ways
  import opened Meaning
  import opened Compiler
  import opened Threads
  import opened Paths
  import opened Precedence

  /** The compiled program can be run, and accepts only at its end. */
  lemma ProgramRuns(root: Node)
    requires Valid(root)
    ensures MatchLast(ProgramOf(root)) && ProgramOf(root) == Alone(Wrapped(root))
  {
    AloneRuns(Wrapped(root));
  }

  // ---- The same way at other places ----

  function Shifted(t: seq<Turn>, d: nat): (r: seq<Turn>)
    ensures |r| == |t|
    ensures forall k :: 0 <= k < |t| ==> r[k] == Turn(State(t[k].at.pc + d, t[k].at.pos), t[k].choice)
  {
    seq(|t|, k requires 0 <= k < |t| => Turn(State(t[k].at.pc + d, t[k].at.pos), t[k].choice))
  }

  lemma ShiftedOn(t: seq<Turn>, u: seq<Turn>, d: nat)
    ensures Shifted(t + u, d) == Shifted(t, d) + Shifted(u, d)
  {
  }

  lemma ShiftedFirst(pc: nat, i: nat, choice: bool, t: seq<Turn>, d: nat)
    ensures Shifted([Turn(State(pc, i), choice)] + t, d) == [Turn(State(pc + d, i), choice)] + Shifted(t, d)
    ensures Shifted([Turn(State(pc, i), choice)], d) == [Turn(State(pc + d, i), choice)]
    ensures Shifted(t + [Turn(State(pc, i), choice)], d) == Shifted(t, d) + [Turn(State(pc + d, i), choice)]
  {
  }

  /** The turns of a way depend on where its tree is placed in the numbers alone. */
  lemma {:induction false} TurnsShift(n: Node, at: nat, d: nat, i: nat, w: Way)
    requires Valid(n)
    ensures Turns(n, at + d, i, w) == Shifted(Turns(n, at, i, w), d)
    decreases w, n, 1
  {
    hide Shifted, WayEnd, Count, Turns, Fits, Captures, Valid;
    if n.Concatenation? {
      ConcatenationWay(n.left, n.right, [], at, 0, i, w, []);
      ConcatenationWay(n.left, n.right, [], at + d, 0, i, w, []);
      if w.Both? { ConcatenationShift(n.left, n.right, at, d, i, w.first, w.second); } else { NoTurnsFor(n, at, d, i, w); }
    } else if n.Alternation? {
      AlternationWay(n.left, n.right, [], at, 0, i, w, []);
      AlternationWay(n.left, n.right, [], at + d, 0, i, w, []);
      if w.First? {
        WrapShift(n.left, at, d, i, w.way);
      } else if w.Second? {
        SecondShift(n.right, at, 2 + Count(n.left), d, i, w.way);
      } else {
        NoTurnsFor(n, at, d, i, w);
      }
    } else if n.Quantifier? {
      QuantifierShift(n, at, d, i, w);
    } else if n.Capture? {
      CaptureWay(n.captured, [], at, 0, i, w, []);
      CaptureWay(n.captured, [], at + d, 0, i, w, []);
      WrapShift(n.captured, at, d, i, w);
    } else {
      LeafShift(n, at, d, i, w);
    }
  }

  lemma LeafShift(n: Node, at: nat, d: nat, i: nat, w: Way)
    requires Valid(n) && Leaf(n)
    ensures Turns(n, at + d, i, w) == Shifted(Turns(n, at, i, w), d)
  {
  }

  /** A way of another kind than its tree has no turns. */
  lemma NoTurnsFor(n: Node, at: nat, d: nat, i: nat, w: Way)
    requires Valid(n) && ((n.Concatenation? && !w.Both?) || (n.Alternation? && !w.First? && !w.Second?))
    ensures Turns(n, at + d, i, w) == Shifted(Turns(n, at, i, w), d)
  {
  }

  lemma {:induction false} SecondShift(r: Node, at: nat, more: nat, d: nat, i: nat, w: Way)
    requires Valid(r)
    ensures [Turn(State(at + d, i), true)] + Turns(r, at + d + more, i, w) ==
            Shifted([Turn(State(at, i), true)] + Turns(r, at + more, i, w), d)
    decreases Second(w), r, 0
  {
    hide *;
    TurnsShift(r, at + more, d, i, w);
    assert at + d + more == at + more + d;
    ShiftedFirst(at, i, true, Turns(r, at + more, i, w), d);
  }

  lemma {:induction false} QuantifierShift(n: Node, at: nat, d: nat, i: nat, w: Way)
    requires Valid(n) && n.Quantifier?
    ensures Turns(n, at + d, i, w) == Shifted(Turns(n, at, i, w), d)
    decreases w, n, 0
  {
    hide RangeTurns, StarTurns, PlusTurns, Count, WayEnd;
    if w.Repeated? {
      if n.nmax != -1 {
        RangeShift(n.quantified, n.nmin, n.greedy, at, d, i, w.copies);
      } else if n.nmin == 0 {
        StarShift(n.quantified, n.greedy, at, d, i, w.copies);
      } else {
        PlusShift(n.quantified, n.nmin, n.greedy, at, d, i, w.copies);
      }
    }
  }

  lemma {:induction false} ConcatenationShift(l: Node, r: Node, at: nat, d: nat, i: nat, x: Way, y: Way)
    requires Valid(l) && Valid(r)
    ensures Turns(l, at + d, i, x) + Turns(r, at + d + Count(l), WayEnd(l, i, x), y) ==
            Shifted(Turns(l, at, i, x) + Turns(r, at + Count(l), WayEnd(l, i, x), y), d)
    decreases Both(x, y), l, 0
  {
    hide *;
    TurnsShift(l, at, d, i, x);
    TurnsShift(r, at + Count(l), d, WayEnd(l, i, x), y);
    assert at + d + Count(l) == at + Count(l) + d;
    ShiftedOn(Turns(l, at, i, x), Turns(r, at + Count(l), WayEnd(l, i, x), y), d);
  }

  /** The turns of a tree between two of its own. */
  lemma {:induction false} WrapShift(x: Node, at: nat, d: nat, i: nat, w: Way)
    requires Valid(x)
    ensures [Go(at + d, i)] + Turns(x, at + d + 1, i, w) + [Go(at + d + 1 + Count(x), WayEnd(x, i, w))] ==
            Shifted([Go(at, i)] + Turns(x, at + 1, i, w) + [Go(at + 1 + Count(x), WayEnd(x, i, w))], d)
    decreases w, x, 2
  {
    hide Shifted, WayEnd, Count, Turns, Valid;
    TurnsShift(x, at + 1, d, i, w);
    assert at + d + 1 == at + 1 + d && at + d + 1 + Count(x) == at + 1 + Count(x) + d;
    ShiftedFirst(at, i, false, Turns(x, at + 1, i, w), d);
    ShiftedFirst(at + 1 + Count(x), WayEnd(x, i, w), false, [Go(at, i)] + Turns(x, at + 1, i, w), d);
  }

  lemma {:induction false} RangeShift(q: Node, nmin: nat, greedy: bool, at: nat, d: nat, i: nat, cs: Rounds)
    requires Valid(q)
    ensures RangeTurns(q, nmin, greedy, at + d, i, cs) == Shifted(RangeTurns(q, nmin, greedy, at, i, cs), d)
    decreases cs, q, 1
  {
    hide Shifted, WayEnd, Count, Turns;
    match cs
    case Done =>
    case Skipped(rest) => SkippedShift(q, greedy, at, 1 + Count(q), d, i, rest);
    case Taken(w, rest) =>
      if nmin > 0 { RequiredShift(q, nmin, greedy, at, d, i, w, rest); } else { OptionalShift(q, greedy, at, d, i, w, rest); }
  }

  lemma {:induction false} SkippedShift(q: Node, greedy: bool, at: nat, more: nat, d: nat, i: nat, rest: Rounds)
    requires Valid(q)
    ensures [Leave(greedy, at + d, i)] + RangeTurns(q, 0, greedy, at + d + more, i, rest) ==
            Shifted([Leave(greedy, at, i)] + RangeTurns(q, 0, greedy, at + more, i, rest), d)
    decreases Skipped(rest), q, 0
  {
    hide Shifted, RangeTurns, Valid;
    RangeShift(q, 0, greedy, at + more, d, i, rest);
    assert at + d + more == at + more + d;
    ShiftedFirst(at, i, greedy, RangeTurns(q, 0, greedy, at + more, i, rest), d);
  }

  lemma {:induction false} RequiredShift(q: Node, nmin: nat, greedy: bool, at: nat, d: nat, i: nat, w: Way, rest: Rounds)
    requires Valid(q) && nmin > 0
    ensures Turns(q, at + d, i, w) + RangeTurns(q, nmin - 1, greedy, at + d + Count(q), WayEnd(q, i, w), rest) ==
            Shifted(Turns(q, at, i, w) + RangeTurns(q, nmin - 1, greedy, at + Count(q), WayEnd(q, i, w), rest), d)
    decreases Taken(w, rest), q, 0
  {
    hide *;
    var k, next := WayEnd(q, i, w), at + Count(q);
    TurnsShift(q, at, d, i, w);
    RangeShift(q, nmin - 1, greedy, next, d, k, rest);
    assert at + d + Count(q) == next + d;
    ShiftedOn(Turns(q, at, i, w), RangeTurns(q, nmin - 1, greedy, next, k, rest), d);
  }

  lemma {:induction false} OptionalShift(q: Node, greedy: bool, at: nat, d: nat, i: nat, w: Way, rest: Rounds)
    requires Valid(q)
    ensures [Stay(greedy, at + d, i)] + Turns(q, at + d + 1, i, w) +
            RangeTurns(q, 0, greedy, at + d + 1 + Count(q), WayEnd(q, i, w), rest) ==
            Shifted([Stay(greedy, at, i)] + Turns(q, at + 1, i, w) +
                    RangeTurns(q, 0, greedy, at + 1 + Count(q), WayEnd(q, i, w), rest), d)
    decreases Taken(w, rest), q, 0
  {
    hide Shifted, WayEnd, Count, Turns, RangeTurns, Valid;
    var k, next := WayEnd(q, i, w), at + 1 + Count(q);
    TurnsShift(q, at + 1, d, i, w);
    RangeShift(q, 0, greedy, next, d, k, rest);
    assert at + d + 1 + Count(q) == next + d && at + d + 1 == at + 1 + d;
    ShiftedFirst(at, i, !greedy, Turns(q, at + 1, i, w), d);
    ShiftedOn([Stay(greedy, at, i)] + Turns(q, at + 1, i, w), RangeTurns(q, 0, greedy, next, k, rest), d);
  }

  lemma {:induction false} StarShift(q: Node, greedy: bool, at: nat, d: nat, i: nat, cs: Rounds)
    requires Valid(q)
    ensures StarTurns(q, greedy, at + d, i, cs) == Shifted(StarTurns(q, greedy, at, i, cs), d)
    decreases cs, q, 1
  {
    hide Shifted, WayEnd, Count, Turns;
    if cs.Taken? {
      var w, rest, k := cs.way, cs.rest, WayEnd(q, i, cs.way);
      TurnsShift(q, at + 1, d, i, w);
      StarShift(q, greedy, at, d, k, rest);
      var body := [Stay(greedy, at, i)] + Turns(q, at + 1, i, w);
      ShiftedFirst(at, i, !greedy, Turns(q, at + 1, i, w), d);
      ShiftedFirst(at + 1 + Count(q), k, false, body, d);
      ShiftedOn(body + [Go(at + 1 + Count(q), k)], StarTurns(q, greedy, at, k, rest), d);
    } else {
      ShiftedFirst(at, i, greedy, [], d);
    }
  }

  lemma {:induction false} PlusShift(q: Node, nmin: nat, greedy: bool, at: nat, d: nat, i: nat, cs: Rounds)
    requires Valid(q)
    ensures PlusTurns(q, nmin, greedy, at + d, i, cs) == Shifted(PlusTurns(q, nmin, greedy, at, i, cs), d)
    decreases cs, q, 1
  {
    hide Shifted, WayEnd, Count, Turns;
    if cs.Taken? {
      var w, rest, k, next := cs.way, cs.rest, WayEnd(q, i, cs.way), at + Count(q);
      var body := Turns(q, at, i, w);
      TurnsShift(q, at, d, i, w);
      if nmin > 1 {
        PlusShift(q, nmin - 1, greedy, next, d, k, rest);
        ShiftedOn(body, PlusTurns(q, nmin - 1, greedy, next, k, rest), d);
      } else if !rest.Taken? {
        ShiftedFirst(next, k, greedy, body, d);
      } else {
        PlusShift(q, 1, greedy, at, d, k, rest);
        ShiftedFirst(next, k, !greedy, body, d);
        ShiftedOn(body + [Stay(greedy, next, k)], PlusTurns(q, 1, greedy, at, k, rest), d);
      }
    }
  }

  // ---- Freshness of the parts of the whole ----

  predicate TurnsIn(t: seq<Turn>, lo: nat, hi: nat) {
    forall k :: 0 <= k < |t| ==> lo <= t[k].at.pc < hi
  }

  lemma {:induction false} WalkInside(p: Code, s: seq<byte>, st: State, t: seq<Turn>, m: Slots, end: State, m': Slots)
    requires MatchLast(p) && Walk(p, s, st, t, m, end, m')
    ensures TurnsIn(t, 0, |p| - 1)
    decreases |t|
  {
    if t != [] {
      WalkInside(p, s, Step(p, s, st, t[0].choice).st, t[1..], Saved(p, st, m), end, m');
      forall k | 0 < k < |t| ensures 0 <= t[k].at.pc < |p| - 1 { assert t[k] == t[1..][k - 1]; }
    }
  }

  /** The turns of a way are at the places of its tree, wherever it is put, and as fresh there. */
  lemma WayInside(n: Node, s: seq<byte>, at: nat, i: nat, w: Way)
    requires Valid(n) && Fits(n, s, i, w)
    ensures TurnsIn(Turns(n, at, i, w), at, at + Count(n))
    ensures Distinct(Turns(n, at, i, w)) <==> Fresh(n, i, w)
  {
    hide Fits, Turns, Captures, Valid, Placed, MatchLast, Walk, Count, CodeOf, WayEnd;
    AloneRuns(n);
    WayWalks(n, Alone(n), s, 0, Count(n), 0, i, w, []);
    WalkInside(Alone(n), s, State(0, i), Turns(n, 0, i, w), [], State(Count(n), WayEnd(n, i, w)), Captures(n, 0, i, w, []));
    TurnsShift(n, 0, at, i, w);
    assert 0 + at == at;
  }

  // ---- Any walk through a fragment ----

  /** A walk depends on its choices alone. */
  lemma {:induction false} SameWalk(p: Code, s: seq<byte>, st: State, m: Slots, t: seq<Turn>, x: State, m1: Slots,
                                    u: seq<Turn>, y: State, m2: Slots)
    requires Walk(p, s, st, t, m, x, m1) && Walk(p, s, st, u, m, y, m2) && Choices(t) == Choices(u)
    ensures t == u && x == y && m1 == m2
    decreases |t|
  {
    assert |t| == |Choices(t)| == |Choices(u)| == |u|;
    if t != [] {
      assert t[0].choice == Choices(t)[0] == Choices(u)[0] == u[0].choice;
      assert Choices(t)[1..] == Choices(t[1..]) && Choices(u)[1..] == Choices(u[1..]);
      SameWalk(p, s, Step(p, s, st, t[0].choice).st, Saved(p, st, m), t[1..], x, m1, u[1..], y, m2);
      assert t == [t[0]] + t[1..] && u == [u[0]] + u[1..];
    }
  }

  /** The program cut behind a fragment, with a Match there. */
  function Cut(p: Code, e: nat): (r: Code)
    requires e <= |p|
  {
    p[..e] + [Match]
  }

  lemma {:induction false} WalkCut(p: Code, s: seq<byte>, st: State, t: seq<Turn>, m: Slots, end: State, m': Slots, lo: nat, e: nat)
    requires Walk(p, s, st, t, m, end, m') && TurnsIn(t, lo, e) && e <= |p|
    ensures Walk(Cut(p, e), s, st, t, m, end, m')
    decreases |t|
  {
    if t != [] {
      assert Cut(p, e)[st.pc] == p[st.pc];
      forall k | 0 <= k < |t[1..]| ensures lo <= t[1..][k].at.pc < e { assert t[1..][k] == t[k + 1]; }
      WalkCut(p, s, Step(p, s, st, t[0].choice).st, t[1..], Saved(p, st, m), end, m', lo, e);
    }
  }

  lemma PlacedCut(p: Code, b: nat, e: nat, code: Code)
    requires Placed(p, b, code) && e == b + |code|
    ensures e <= |p| && Placed(Cut(p, e), b, code) && |Cut(p, e)| == e + 1 && Cut(p, e)[e] == Match
  {
    assert Cut(p, e)[b..e] == p[b..e];
  }

  lemma EndsThere(p: Code, s: seq<byte>, e: nat, j: nat, ch: seq<bool>)
    requires e < |p| && p[e] == Match && Path(p, s, State(e, j), ch)
    ensures ch == []
  {
  }

  /** Every walk through the code of a tree, to its end and nowhere else, is that of a way. */
  lemma WalkIsWay(n: Node, p: Code, s: seq<byte>, b: nat, e: nat, c: nat, i: nat, t: seq<Turn>, m: Slots, j: nat, m': Slots)
    returns (w: Way)
    requires Valid(n) && e == b + Count(n) && Placed(p, b, CodeOf(n, b, c))
    requires Walk(p, s, State(b, i), t, m, State(e, j), m') && TurnsIn(t, b, e)
    ensures Fits(n, s, i, w) && t == Turns(n, b, i, w) && j == WayEnd(n, i, w) && m' == Captures(n, c, i, w, m)
  {
    hide Fits, Turns, Captures, Valid, Placed, Walk, Count, CodeOf, WayEnd, Path, Choices, TurnsIn, Cut;
    PlacedCut(p, b, e, CodeOf(n, b, c));
    var p' := Cut(p, e);
    WalkCut(p, s, State(b, i), t, m, State(e, j), m', b, e);
    WalkClean(p', s, State(b, i), t, m, State(e, j), m', {});
    var rest;
    w, rest := PathIsWay(n, p', s, b, e, c, i, Choices(t));
    EndsThere(p', s, e, WayEnd(n, i, w), rest);
    WayWalks(n, p', s, b, e, c, i, w, m);
    assert Choices(Turns(n, b, i, w)) + [] == Choices(Turns(n, b, i, w));
    SameWalk(p', s, State(b, i), m, t, State(e, j), m', Turns(n, b, i, w), State(e, WayEnd(n, i, w)), Captures(n, c, i, w, m));
  }

  /** There is a walk through the code of a tree from i to j exactly if the tree matches i..j. */
  lemma WalkMatches(n: Node, p: Code, s: seq<byte>, b: nat, e: nat, c: nat, i: nat, m: Slots, j: nat)
    requires Valid(n) && e == b + Count(n) && Placed(p, b, CodeOf(n, b, c))
    ensures Crossed(p, s, b, e, i, m, j) <==> Matches(n, s, i, j)
  {
    hide Fits, Turns, Captures, Valid, Placed, Walk, Count, CodeOf, WayEnd, TurnsIn, Matches;
    if Crossed(p, s, b, e, i, m, j) {
      var t, m' :| TurnsIn(t, b, e) && Walk(p, s, State(b, i), t, m, State(e, j), m');
      var w := WalkIsWay(n, p, s, b, e, c, i, t, m, j, m');
      FitsMatches(n, s, i, w);
    }
    if Matches(n, s, i, j) {
      var w := MatchFits(n, s, i, j);
      WayWalks(n, p, s, b, e, c, i, w, m);
      WayInside(n, s, b, i, w);
    }
  }

  ghost predicate Crossed(p: Code, s: seq<byte>, b: nat, e: nat, i: nat, m: Slots, j: nat) {
    exists t, m' :: TurnsIn(t, b, e) && Walk(p, s, State(b, i), t, m, State(e, j), m')
  }

  // ---- Freshness of the whole ----

  lemma DistinctOn(t: seq<Turn>, u: seq<Turn>, lo: nat, mid: nat, hi: nat)
    requires lo <= mid <= hi && TurnsIn(t, lo, mid) && TurnsIn(u, mid, hi)
    ensures Distinct(t + u) <==> Distinct(t) && Distinct(u)
    ensures TurnsIn(t + u, lo, hi)
  {
    var v := t + u;
    if Distinct(v) {
      forall a, b | 0 <= a < b < |u| ensures u[a].at != u[b].at { assert u[a] == v[|t| + a] && u[b] == v[|t| + b]; }
      forall a, b | 0 <= a < b < |t| ensures t[a].at != t[b].at { assert t[a] == v[a] && t[b] == v[b]; }
    }
  }

  /** The capture around a tree changes nothing in what is chosen. */
  lemma CaptureChosen(x: Node, s: seq<byte>, i: nat, w: Way)
    requires Valid(x)
    ensures Valid(Capture(x)) && (Chosen(Capture(x), s, i, w) <==> Chosen(x, s, i, w))
  {
    hide Fits, Fresh;
    forall y ensures Fits(Capture(x), s, i, y) <==> Fits(x, s, i, y) { CaptureWay(x, s, 0, 0, i, y, []); }
    forall y | Fits(x, s, i, y) ensures Fresh(Capture(x), i, y) <==> Fresh(x, i, y) { CaptureFresh(x, s, i, y); }
    forall y ensures Better(Capture(x), w, y) <==> Better(x, w, y) {}
  }

  lemma CaptureFresh(x: Node, s: seq<byte>, i: nat, w: Way)
    requires Valid(x) && Fits(x, s, i, w)
    ensures Fresh(Capture(x), i, w) <==> Fresh(x, i, w)
  {
    hide Fits, Turns, Distinct, Count, WayEnd, TurnsIn;
    CaptureWay(x, s, 0, 0, i, w, []);
    WayInside(x, s, 1, i, w);
    var e := 1 + Count(x);
    OneTurn(0, i);
    OneTurn(e, WayEnd(x, i, w));
    DistinctOn([Go(0, i)], Turns(x, 1, i, w), 0, 1, e);
    DistinctOn([Go(0, i)] + Turns(x, 1, i, w), [Go(e, WayEnd(x, i, w))], 0, e, e + 1);
  }

  lemma OneTurn(pc: nat, i: nat)
    ensures TurnsIn([Go(pc, i)], pc, pc + 1) && Distinct([Go(pc, i)])
  {
  }

  // ---- The lazy skip ----

  /** The skip's way over k characters. */
  function Skips(k: nat): (r: Rounds) {
    if k == 0 then Done else Taken(Plain, Skips(k - 1))
  }

  function SkipWay(k: nat): (r: Way) {
    Repeated(Skips(k))
  }

  lemma {:induction false} SkipsFit(s: seq<byte>, i: nat, k: nat, m: Slots)
    requires i + k <= |s|
    ensures Counted(Skips(k), 0, -1) && AllFit(AnyCharacter, s, i, Skips(k))
    ensures RoundsEnd(AnyCharacter, i, Skips(k)) == i + k && CapturesAfter(AnyCharacter, 0, i, Skips(k), m) == m
    decreases k
  {
    if k > 0 { SkipsFit(s, i + 1, k - 1, m); }
  }

  lemma {:induction false} OnlySkips(s: seq<byte>, i: nat, cs: Rounds) returns (k: nat)
    requires i <= |s| && Counted(cs, 0, -1) && AllFit(AnyCharacter, s, i, cs)
    ensures cs == Skips(k) && i + k <= |s|
    decreases cs
  {
    if cs == Done {
      k := 0;
    } else {
      k := OnlySkips(s, i + 1, cs.rest);
      k := k + 1;
    }
  }

  /** Turns of the skip from i on: at its three places, never at one twice. */
  predicate SkipsFrom(i: nat, t: seq<Turn>) {
    TurnsIn(t, 0, 3) && Distinct(t) && forall a :: 0 <= a < |t| ==> Behind(i, t[a].at)
  }

  predicate Behind(i: nat, st: State) {
    st.pos > i || (st.pos == i && st.pc != 2)
  }

  lemma {:induction false} SkipTurns(i: nat, k: nat)
    ensures SkipsFrom(i, StarTurns(AnyCharacter, false, 0, i, Skips(k)))
    decreases k
  {
    hide SkipsFrom;
    if k == 0 {
      NoSkip(i);
    } else {
      var rest := StarTurns(AnyCharacter, false, 0, i + 1, Skips(k - 1));
      SkipTurns(i + 1, k - 1);
      SkipOnce(i, rest);
      assert Turns(AnyCharacter, 1, i, Plain) == [Go(1, i)];
      assert [Stay(false, 0, i)] + [Go(1, i)] + [Go(2, i + 1)] + rest == [Stay(false, 0, i), Go(1, i), Go(2, i + 1)] + rest;
    }
  }

  lemma NoSkip(i: nat)
    ensures SkipsFrom(i, [Leave(false, 0, i)])
  {
  }

  lemma SkipOnce(i: nat, rest: seq<Turn>)
    requires SkipsFrom(i + 1, rest)
    ensures SkipsFrom(i, [Stay(false, 0, i), Go(1, i), Go(2, i + 1)] + rest)
  {
    var t := [Stay(false, 0, i), Go(1, i), Go(2, i + 1)] + rest;
    forall a | 0 <= a < |t| ensures 0 <= t[a].at.pc < 3 && Behind(i, t[a].at) {
      if a >= 3 { assert t[a] == rest[a - 3]; }
    }
    forall a, b | 0 <= a < b < |t| ensures t[a].at != t[b].at {
      if b >= 3 { assert t[b] == rest[b - 3]; }
      if a >= 3 { assert t[a] == rest[a - 3]; }
    }
  }

  /** The shorter skip is preferred. */
  lemma {:induction false} ShorterSkip(j: nat, k: nat)
    ensures BetterCopies(AnyCharacter, false, Skips(j), Skips(k)) <==> j < k
    decreases j
  {
    if j > 0 && k > 0 { ShorterSkip(j - 1, k - 1); }
  }

  /** The whole tree with the skip. */
  function Skipping(root: Node): (r: Node) {
    Concatenation(SKIP, Capture(root))
  }

  /** The ways of the whole: some characters are skipped, and then the tree fits. */
  lemma SkippingWay(root: Node, s: seq<byte>, k: nat, x: Way, m: Slots)
    requires Valid(root) && k <= |s|
    ensures Valid(Skipping(root))
    ensures Fits(Skipping(root), s, 0, Both(SkipWay(k), x)) <==> Fits(root, s, k, x)
    ensures Fits(root, s, k, x) ==> (Fresh(Skipping(root), 0, Both(SkipWay(k), x)) <==> Fresh(root, k, x))
    ensures Captures(Skipping(root), 0, 0, Both(SkipWay(k), x), m) == Captures(Capture(root), 0, k, x, m)
  {
    hide Fits, Turns, Captures, Count, WayEnd, TurnsIn, Distinct;
    SkipIs(root, s, k, m);
    ConcatenationWay(SKIP, Capture(root), s, 0, 0, 0, Both(SkipWay(k), x), m);
    CaptureWay(root, s, 3, 0, k, x, m);
    if Fits(root, s, k, x) {
      WayInside(Capture(root), s, 3, k, x);
      CaptureFresh(root, s, k, x);
      SkipTurns(0, k);
      DistinctOn(StarTurns(AnyCharacter, false, 0, 0, Skips(k)), Turns(Capture(root), 3, k, x), 0, 3, 3 + Count(Capture(root)));
    }
  }

  lemma SkipIs(root: Node, s: seq<byte>, k: nat, m: Slots)
    requires Valid(root) && k <= |s|
    ensures Valid(Skipping(root)) && Count(SKIP) == 3 && NextCapture(SKIP, 0) == 0
    ensures Fits(SKIP, s, 0, SkipWay(k)) && WayEnd(SKIP, 0, SkipWay(k)) == k
    ensures Captures(SKIP, 0, 0, SkipWay(k), m) == m
    ensures Turns(SKIP, 0, 0, SkipWay(k)) == StarTurns(AnyCharacter, false, 0, 0, Skips(k))
  {
    hide AllFit, RoundsEnd, CapturesAfter, StarTurns, Counted, Skips;
    SkipsFit(s, 0, k, m);
  }

  /** Every way of the whole is of that form. */
  lemma OnlySkipping(root: Node, s: seq<byte>, w: Way) returns (k: nat, x: Way)
    requires Valid(root) && Valid(Skipping(root)) && Fits(Skipping(root), s, 0, w)
    ensures k <= |s| && w == Both(SkipWay(k), x) && Fits(root, s, k, x)
  {
    hide AllFit, RoundsEnd, Counted, Skips;
    k := OnlySkips(s, 0, w.first.copies);
    x := w.second;
    SkippingWay(root, s, k, x, []);
  }

  /** No way fits before i. */
  ghost predicate NoneBefore(root: Node, s: seq<byte>, i: nat)
    requires Valid(root)
  {
    forall k: nat, x :: k < i ==> !Fits(root, s, k, x)
  }

  /** The whole's chosen way skips to the leftmost start and is the chosen way from there. */
  lemma SkippingChosen(root: Node, s: seq<byte>, w: Way) returns (k: nat, x: Way)
    requires Valid(root) && Valid(Skipping(root)) && Chosen(Skipping(root), s, 0, w)
    ensures k <= |s| && w == Both(SkipWay(k), x) && Chosen(root, s, k, x) && NoneBefore(root, s, k)
  {
    hide Fits, Fresh, Valid, Skips;
    k, x := OnlySkipping(root, s, w);
    SkippingWay(root, s, k, x, []);
    forall k': nat, y | k' < k && Fits(root, s, k', y) ensures false {
      var z := FreshFits(root, s, k', y);
      SkippingWay(root, s, k', z, []);
      SkippingOrder(root, s, k, x, k', z);
    }
    forall y | Fits(root, s, k, y) && Fresh(root, k, y) && y != x ensures Better(root, x, y) {
      SkippingWay(root, s, k, y, []);
      SkippingOrder(root, s, k, x, k, y);
    }
  }

  /** The whole prefers the shorter skip, and then the tree's preferred way. */
  lemma SkippingOrder(root: Node, s: seq<byte>, j: nat, x: Way, k: nat, y: Way)
    requires j <= |s| && k <= |s|
    ensures Both(SkipWay(j), x) == Both(SkipWay(k), y) <==> j == k && x == y
    ensures Better(Skipping(root), Both(SkipWay(j), x), Both(SkipWay(k), y)) <==>
            if j == k then Better(root, x, y) else j < k
  {
    hide Skips, BetterCopies, AllFit, RoundsEnd, CapturesAfter, Counted;
    SkipsFit(s, 0, j, []);
    SkipsFit(s, 0, k, []);
    ShorterSkip(j, k);
    SkippingBetter(root, Skips(j), x, Skips(k), y);
  }

  lemma SkippingBetter(root: Node, j: Rounds, x: Way, k: Rounds, y: Way)
    ensures Better(Skipping(root), Both(Repeated(j), x), Both(Repeated(k), y)) <==>
            if j == k then Better(root, x, y) else BetterCopies(AnyCharacter, false, j, k)
  {
    hide BetterCopies;
    assert Better(Capture(root), x, y) == Better(root, x, y);
    assert Better(SKIP, Repeated(j), Repeated(k)) == BetterCopies(AnyCharacter, false, j, k);
  }

  // ---- What is reported ----

  /** The slots m hold the captures of the way that has precedence over all others from i on. */
  ghost predicate Prefers(root: Node, s: seq<byte>, m: Slots, i: nat, w: Way) {
    Valid(root) && i <= |s| && Chosen(root, s, i, w) &&
    m == Captures(Capture(root), 0, i, w, seq(|m|, _ => Null))
  }

  /** With the skip, something is found exactly when some way fits somewhere. Reported is the
      chosen way at the leftmost start there is. */
  lemma SearchPrefers(root: Node, s: seq<byte>, n: nat)
    requires Valid(root) && !Anchored(root)
    ensures MatchLast(ProgramOf(root))
    ensures var r := Result(ProgramOf(root), s, n);
            (r.Found? <==> exists i: nat, w :: i <= |s| && Fits(root, s, i, w)) &&
            (r.Found? ==> |r.m| == n && exists i: nat, w :: Prefers(root, s, r.m, i, w) && NoneBefore(root, s, i))
  {
    hide Fits, Fresh, Valid, Result, Alone, MatchLast, Chosen, Captures, Skips, SkipWay, NoneBefore;
    var p, m := ProgramOf(root), seq(n, _ => Null);
    SkippingWay(root, s, 0, Plain, m);
    ProgramRuns(root);
    ResultIsChosen(Skipping(root), s, n);
    if Result(p, s, n).Found? {
      var w :| Chosen(Skipping(root), s, 0, w) && Result(p, s, n).m == Captures(Skipping(root), 0, 0, w, m);
      var k, x := SkippingChosen(root, s, w);
      SkippingWay(root, s, k, x, m);
      ChosenFits(root, s, k, x);
      assert Prefers(root, s, Result(p, s, n).m, k, x);
    }
    if i: nat, w :| i <= |s| && Fits(root, s, i, w) {
      SkippingWay(root, s, i, w, m);
      assert Fits(Skipping(root), s, 0, Both(SkipWay(i), w));
    }
  }

  lemma ChosenFits(root: Node, s: seq<byte>, i: nat, w: Way)
    requires Valid(root) && Chosen(root, s, i, w)
    ensures Fits(root, s, i, w)
  {
  }

  lemma CaptureFits(x: Node, s: seq<byte>, i: nat)
    requires Valid(x)
    ensures Valid(Capture(x))
    ensures (exists w :: Fits(Capture(x), s, i, w)) ==> exists w :: Fits(x, s, i, w)
    ensures (exists w :: Fits(Capture(x), s, i, w)) <== exists w :: Fits(x, s, i, w)
  {
    hide Fits;
    forall w ensures Fits(Capture(x), s, i, w) <==> Fits(x, s, i, w) { CaptureWay(x, s, 0, 0, i, w, []); }
    if w :| Fits(Capture(x), s, i, w) { assert Fits(x, s, i, w); }
    if w :| Fits(x, s, i, w) { assert Fits(Capture(x), s, i, w); }
  }

  /** Without it, only the start of the string counts. */
  lemma AnchoredPrefers(root: Node, s: seq<byte>, n: nat)
    requires Valid(root) && Anchored(root)
    ensures MatchLast(ProgramOf(root))
    ensures var r := Result(ProgramOf(root), s, n);
            (r.Found? <==> exists w :: Fits(root, s, 0, w)) &&
            (r.Found? ==> |r.m| == n && exists w :: Prefers(root, s, r.m, 0, w))
  {
    hide Fits, Fresh, Valid, Result, Alone, MatchLast, Chosen, Captures;
    var p, m := ProgramOf(root), seq(n, _ => Null);
    ProgramRuns(root);
    CaptureChosen(root, s, 0, Plain);
    CaptureFits(root, s, 0);
    ResultIsChosen(Capture(root), s, n);
    if Result(p, s, n).Found? {
      var w :| Chosen(Capture(root), s, 0, w) && Result(p, s, n).m == Captures(Capture(root), 0, 0, w, m);
      CaptureChosen(root, s, 0, w);
      ChosenFits(root, s, 0, w);
      assert Prefers(root, s, Result(p, s, n).m, 0, w);
    }
    assert Result(p, s, n).Found? ==> exists w :: Fits(root, s, 0, w);
  }

  /** A good report: the span i..j is a match, slots 0 and 1 hold it, and every other pair of
      slots is unset or holds a match of the body of its group. */
  ghost predicate Reports(root: Node, s: seq<byte>, m: Slots, i: nat, j: nat) {
    Valid(root) && i <= |s| && Matches(root, s, i, j) &&
    (1 < |m| ==> m[0] == At(i) && m[1] == At(j)) &&
    forall g :: g in Groups(root, 1) ==> PairOk(g, s, m)
  }

  /** No match starts before i. */
  ghost predicate Leftmost(root: Node, s: seq<byte>, i: nat)
    requires Valid(root)
  {
    forall i': nat, j: nat :: i' < i ==> !Matches(root, s, i', j)
  }

  /** The captures of a way make a good report. */
  lemma PrefersReports(root: Node, s: seq<byte>, m: Slots, i: nat, w: Way)
    requires Prefers(root, s, m, i, w)
    ensures Reports(root, s, m, i, WayEnd(root, i, w))
    ensures NoneBefore(root, s, i) ==> Leftmost(root, s, i)
  {
    hide Fits, Matches, Fresh, WayEnd;
    var before := seq(|m|, _ => Null);
    CaptureReports(root, s, i, w, before);
    forall g | g in Groups(root, 1) ensures PairOk(g, s, m) { assert PairOk(g, s, before); }
    forall k: nat, j: nat | NoneBefore(root, s, i) && k < i && Matches(root, s, k, j) ensures false {
      var x := MatchFits(root, s, k, j);
    }
  }

  lemma CaptureReports(root: Node, s: seq<byte>, i: nat, w: Way, before: Slots)
    requires Valid(root) && Fits(root, s, i, w)
    ensures var m := Captures(Capture(root), 0, i, w, before);
            Matches(root, s, i, WayEnd(root, i, w)) && (1 < |m| ==> m[0] == At(i) && m[1] == At(WayEnd(root, i, w))) &&
            forall g :: g in Groups(root, 1) && PairOk(g, s, before) ==> PairOk(g, s, m)
  {
    hide Fits, Matches, WayEnd, Captures, PairOk;
    FitsMatches(root, s, i, w);
    CaptureKeeps(root, 0, s, i, w, before);
    assert Groups(root, 1) <= Groups(Capture(root), 0);
  }

  lemma FitsOrMatches(root: Node, s: seq<byte>, i: nat)
    requires Valid(root)
    ensures (exists w :: Fits(root, s, i, w)) ==> exists j: nat :: Matches(root, s, i, j)
    ensures (exists w :: Fits(root, s, i, w)) <== exists j: nat :: Matches(root, s, i, j)
  {
    hide Fits, Matches, WayEnd;
    if w :| Fits(root, s, i, w) { FitsMatches(root, s, i, w); }
    if j: nat :| Matches(root, s, i, j) { var w := MatchFits(root, s, i, j); }
  }

  /** With the prefix, the machine searches: it finds something exactly when some substring
      matches, and then reports a match that starts as far left as any. */
  lemma SearchFinds(root: Node, s: seq<byte>, n: nat)
    requires Valid(root) && !Anchored(root)
    ensures MatchLast(ProgramOf(root))
    ensures var r := Result(ProgramOf(root), s, n);
            (r.Found? <==> exists i: nat, j: nat :: i <= |s| && Matches(root, s, i, j)) &&
            (r.Found? ==> exists i: nat, j: nat :: Reports(root, s, r.m, i, j) && Leftmost(root, s, i))
  {
    hide Fits, Matches, Valid, Result, ProgramOf, Reports, Leftmost, Prefers, NoneBefore;
    SearchPrefers(root, s, n);
    var r := Result(ProgramOf(root), s, n);
    if r.Found? {
      var i: nat, w :| Prefers(root, s, r.m, i, w) && NoneBefore(root, s, i);
      PrefersReports(root, s, r.m, i, w);
    }
    if r.Found? {
      var i: nat, w :| i <= |s| && Fits(root, s, i, w);
      FitsMatches(root, s, i, w);
    }
    if i: nat, j: nat :| i <= |s| && Matches(root, s, i, j) { FitsOrMatches(root, s, i); }
  }

  /** Without the prefix, only matches at the start of the string are found. */
  lemma AnchoredFinds(root: Node, s: seq<byte>, n: nat)
    requires Valid(root) && Anchored(root)
    ensures MatchLast(ProgramOf(root))
    ensures var r := Result(ProgramOf(root), s, n);
            (r.Found? <==> exists j: nat :: Matches(root, s, 0, j)) &&
            (r.Found? ==> exists j: nat :: Reports(root, s, r.m, 0, j))
  {
    hide Fits, Matches, Valid, Result, ProgramOf, Reports, Prefers;
    AnchoredPrefers(root, s, n);
    FitsOrMatches(root, s, 0);
    var r := Result(ProgramOf(root), s, n);
    if r.Found? {
      var w :| Prefers(root, s, r.m, 0, w);
      PrefersReports(root, s, r.m, 0, w);
    }
  }
}
