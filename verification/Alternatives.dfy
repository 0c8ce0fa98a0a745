/** Empty alternatives. The parser makes the other alternative optional, which prefers it: that
    is the written order exactly where the empty alternative comes second. */
module Alternatives {
  import opened Bytes
  import opened Syntax
  import opened Program
  import opened Codegen
  import opened Ways
  import opened Compiler
  import opened Threads
  import opened Paths
  import opened Precedence
  import opened Searching
  import opened Parsing

  /** What is reported of a tree, with n slots. */
  function Report(root: Node, s: seq<byte>, n: nat): (r: Found)
    requires Valid(root)
  {
    ProgramRuns(root);
    Result(ProgramOf(root), s, n)
  }

  /** The captures of a way of the whole pattern from 0 on. */
  function Whole(root: Node, w: Way, n: nat): (r: Slots) {
    Captures(Capture(root), 0, 0, w, seq(n, _ => Null))
  }

  /** Nothing matched, at the start of the string, and no group set. */
  function EmptyReport(n: nat): (r: Slots) {
    Put(Put(seq(n, _ => Null), 0, 0), 1, 0)
  }

  /** A tree with a chosen way at the start of the string reports it. */
  lemma ReportsStart(root: Node, s: seq<byte>, n: nat, w: Way)
    requires Valid(root) && Chosen(root, s, 0, w)
    ensures Report(root, s, n) == Found(Whole(root, w, n))
  {
    hide Fits, Fresh, Valid, Result, ProgramOf, Chosen, Captures, Runnable, Anchored;
    ProgramRuns(root);
    ChosenFits(root, s, 0, w);
    var x := FromStart(root, s, n, w);
    ChosenOnce(root, s, 0, w, x);
  }

  lemma FromStart(root: Node, s: seq<byte>, n: nat, w: Way) returns (x: Way)
    requires Valid(root) && Fits(root, s, 0, w)
    ensures Chosen(root, s, 0, x) && Report(root, s, n) == Found(Whole(root, x, n))
  {
    hide Fits, Valid, Result, ProgramOf, Captures, Anchored, Chosen, Runnable;
    ProgramRuns(root);
    var i: nat;
    if Anchored(root) {
      AnchoredPrefers(root, s, n);
      i, x :| i == 0 && Prefers(root, s, Report(root, s, n).m, i, x);
    } else {
      SearchPrefers(root, s, n);
      i, x :| Prefers(root, s, Report(root, s, n).m, i, x) && NoneBefore(root, s, i);
      NotBefore(root, s, i, 0, w);
    }
    PrefersStart(root, s, Report(root, s, n).m, i, x, n);
  }

  lemma PrefersStart(root: Node, s: seq<byte>, m: Slots, i: nat, x: Way, n: nat)
    requires Prefers(root, s, m, i, x) && i == 0 && |m| == n
    ensures Chosen(root, s, 0, x) && m == Whole(root, x, n)
  {
    hide Chosen, Captures;
  }

  lemma NotBefore(root: Node, s: seq<byte>, i: nat, k: nat, w: Way)
    requires Valid(root) && NoneBefore(root, s, i) && Fits(root, s, k, w)
    ensures i <= k
  {
  }

  // ---- The optional tree that stands for two alternatives ----

  function Optional(q: Node): (r: Node) {
    Quantifier(0, 1, true, q)
  }

  function With(w: Way): (r: Way) {
    Repeated(Taken(w, Done))
  }

  const WITHOUT := Repeated(Skipped(Done))

  /** The ways of an optional tree. */
  lemma OptionalWay(q: Node, s: seq<byte>, i: nat, w: Way)
    requires Valid(q)
    ensures Fits(Optional(q), s, i, w) <==>
            w == WITHOUT || (w.Repeated? && w.copies.Taken? && w.copies.rest.Done? && Fits(q, s, i, w.copies.way))
    ensures Better(Optional(q), With(w), WITHOUT) && !Better(Optional(q), WITHOUT, With(w))
    ensures Fresh(Optional(q), i, WITHOUT)
  {
    assert RangeTurns(q, 0, true, 0 + 1 + Count(q), i, Done) == [];
    assert Turns(Optional(q), 0, i, WITHOUT) == RangeTurns(q, 0, true, 0, i, Skipped(Done));
    assert |Turns(Optional(q), 0, i, WITHOUT)| == 1;
    if w.Repeated? && !w.copies.Done? {
      var rest := w.copies.rest;
      assert Counted(rest, 0, 0) <==> rest.Done?;
      assert rest.Done? && w.copies.Taken? ==> AllFit(q, s, WayEnd(q, i, w.copies.way), rest);
      assert rest.Done? ==> AllFit(q, s, i, rest);
    }
  }

  lemma WithWay(q: Node, s: seq<byte>, i: nat, x: Way, y: Way, n: nat)
    requires Valid(q)
    ensures Better(Optional(q), With(x), With(y)) <==> Better(q, x, y)
    ensures Fits(q, s, i, x) ==> (Fresh(Optional(q), i, With(x)) <==> Fresh(q, i, x))
    ensures Whole(Optional(q), With(x), n) == Whole(q, x, n)
    ensures Whole(Optional(q), WITHOUT, n) == EmptyReport(n)
  {
    hide Fits, Turns, Distinct, Better, Captures, WayEnd, Count;
    WithOrder(q, x, y);
    WithReport(q, x, n);
    if Fits(q, s, i, x) {
      WayInside(q, s, 1, i, x);
      WithTurns(q, i, x);
      TurnAlone(0, i, false);
      DistinctOn([Stay(true, 0, i)], Turns(q, 1, i, x), 0, 1, 1 + Count(q));
    }
  }

  lemma WithOrder(q: Node, x: Way, y: Way)
    ensures Better(Optional(q), With(x), With(y)) <==> Better(q, x, y)
  {
    NotBetter(q, x);
    assert Better(Optional(q), With(x), With(y)) <==> BetterCopies(q, true, Taken(x, Done), Taken(y, Done));
    assert !BetterCopies(q, true, Done, Done);
  }

  lemma {:induction false} NotBetter(n: Node, x: Way)
    ensures !Better(n, x, x)
    decreases x, n
  {
    match n
    case Concatenation(l, r) => if x.Both? { NotBetter(r, x.second); }
    case Alternation(l, r) => if x.First? { NotBetter(l, x.way); } else if x.Second? { NotBetter(r, x.way); }
    case Quantifier(_, _, greedy, q) => if x.Repeated? { NotBetterCopies(q, greedy, x.copies); }
    case Capture(c) => NotBetter(c, x);
    case _ =>
  }

  lemma {:induction false} NotBetterCopies(q: Node, greedy: bool, x: Rounds)
    ensures !BetterCopies(q, greedy, x, x)
    decreases x, q
  {
    if !x.Done? { NotBetterCopies(q, greedy, x.rest); }
  }

  lemma WithReport(q: Node, x: Way, n: nat)
    ensures Whole(Optional(q), With(x), n) == Whole(q, x, n)
    ensures Whole(Optional(q), WITHOUT, n) == EmptyReport(n)
  {
    var m := Put(seq(n, _ => Null), 0, 0);
    var k := WayEnd(q, 0, x);
    assert CapturesAfter(q, 1, k, Done, Captures(q, 1, 0, x, m)) == Captures(q, 1, 0, x, m);
    assert RoundsEnd(q, k, Done) == k;
    assert CapturesAfter(q, 1, 0, Done, m) == m && RoundsEnd(q, 0, Done) == 0;
    assert Captures(Optional(q), 1, 0, With(x), m) == CapturesAfter(q, 1, 0, Taken(x, Done), m);
    assert Captures(Optional(q), 1, 0, WITHOUT, m) == CapturesAfter(q, 1, 0, Skipped(Done), m);
    assert WayEnd(Optional(q), 0, With(x)) == RoundsEnd(q, 0, Taken(x, Done));
    assert WayEnd(Optional(q), 0, WITHOUT) == RoundsEnd(q, 0, Skipped(Done));
  }

  lemma WithTurns(q: Node, i: nat, x: Way)
    requires Valid(q)
    ensures Turns(Optional(q), 0, i, With(x)) == [Stay(true, 0, i)] + Turns(q, 1, i, x)
  {
    hide WayEnd, Count;
    assert RangeTurns(q, 0, true, 0 + 1 + Count(q), WayEnd(q, i, x), Done) == [];
  }

  lemma TurnAlone(pc: nat, i: nat, choice: bool)
    ensures TurnsIn([Turn(State(pc, i), choice)], pc, pc + 1) && Distinct([Turn(State(pc, i), choice)])
  {
  }

  /** The chosen way of an optional tree: that of the tree where it has one. */
  lemma OptionalChosen(q: Node, s: seq<byte>, i: nat, x: Way)
    requires Valid(q)
    ensures Chosen(q, s, i, x) ==> Chosen(Optional(q), s, i, With(x))
    ensures (forall y :: !Fits(q, s, i, y)) ==> Chosen(Optional(q), s, i, WITHOUT)
  {
    hide Fits, Fresh, Better;
    OptionalWay(q, s, i, WITHOUT);
    OptionalWay(q, s, i, With(x));
    WithWay(q, s, i, x, x, 0);
    forall w | Fits(Optional(q), s, i, w) && Fresh(Optional(q), i, w) && Chosen(q, s, i, x) && w != With(x)
      ensures Better(Optional(q), With(x), w)
    {
      OptionalWay(q, s, i, w);
      if w == WITHOUT {
        OptionalWay(q, s, i, x);
      } else {
        WithWay(q, s, i, x, w.copies.way, 0);
        WithWay(q, s, i, w.copies.way, x, 0);
      }
    }
    forall w | Fits(Optional(q), s, i, w) && (forall y :: !Fits(q, s, i, y)) ensures w == WITHOUT {
      OptionalWay(q, s, i, w);
    }
  }

  // ---- The empty alternative second ----

  /** The same way of the two alternatives as written. */
  function AsWritten(w: Way): (r: Way) {
    if w == WITHOUT then Second(Plain)
    else if w.Repeated? && w.copies.Taken? then First(w.copies.way) else Plain
  }

  lemma SecondEmptyWay(l: Node, s: seq<byte>, i: nat, w: Way, n: nat)
    requires Valid(l) && Fits(Optional(l), s, i, w)
    ensures Valid(Alternation(l, Epsilon)) && Fits(Alternation(l, Epsilon), s, i, AsWritten(w))
    ensures Fresh(Alternation(l, Epsilon), i, AsWritten(w)) <==> Fresh(Optional(l), i, w)
    ensures Whole(Alternation(l, Epsilon), AsWritten(w), n) == Whole(Optional(l), w, n)
  {
    hide Fits, Turns, Distinct, Captures, WayEnd, Count, Valid, TurnsIn;
    EmptySecondParts(l, s, i);
    OptionalWay(l, s, i, w);
    AlternationWay(l, Epsilon, s, 0, 0, i, AsWritten(w), []);
    AlternationReport(l, Epsilon, AsWritten(w), n);
    if w == WITHOUT {
      TurnAlone(0, i, true);
      EmptyTurns(i);
      assert [Turn(State(0, i), true)] + [] == [Turn(State(0, i), true)];
      WithReport(l, Plain, n);
      EmptyWhole(n);
    } else {
      var x, e := w.copies.way, 1 + Count(l);
      WithWay(l, s, i, x, x, n);
      WayInside(l, s, 1, i, x);
      TurnAlone(0, i, false);
      TurnAlone(e, WayEnd(l, i, x), false);
      DistinctOn([Go(0, i)], Turns(l, 1, i, x), 0, 1, e);
      DistinctOn([Go(0, i)] + Turns(l, 1, i, x), [Go(e, WayEnd(l, i, x))], 0, e, e + 1);
    }
  }

  lemma EmptySecondParts(l: Node, s: seq<byte>, i: nat)
    requires Valid(l)
    ensures Valid(Epsilon) && Valid(Alternation(l, Epsilon)) && Fits(Epsilon, s, i, Plain)
  {
  }

  lemma EmptyTurns(i: nat)
    ensures forall at: nat :: Turns(Epsilon, at, i, Plain) == []
  {
  }

  lemma EmptyWhole(n: nat)
    ensures Whole(Epsilon, Plain, n) == EmptyReport(n)
  {
  }

  lemma AlternationReport(l: Node, r: Node, w: Way, n: nat)
    ensures w.First? ==> Whole(Alternation(l, r), w, n) == Whole(l, w.way, n)
    ensures w == Second(Plain) && r == Epsilon ==> Whole(Alternation(l, r), w, n) == EmptyReport(n)
  {
    var m := Put(seq(n, _ => Null), 0, 0);
    if w.First? {
      assert Captures(Alternation(l, r), 1, 0, w, m) == Captures(l, 1, 0, w.way, m);
      assert WayEnd(Alternation(l, r), 0, w) == WayEnd(l, 0, w.way);
    }
    if w == Second(Plain) && r == Epsilon {
      assert Captures(Alternation(l, r), 1, 0, w, m) == Captures(Epsilon, NextCapture(l, 1), 0, Plain, m) == m;
      assert WayEnd(Alternation(l, r), 0, w) == WayEnd(Epsilon, 0, Plain) == 0;
    }
  }

  lemma AsWrittenOrder(l: Node, s: seq<byte>, i: nat, x: Way, y: Way)
    requires Valid(l) && Fits(Optional(l), s, i, x) && Fits(Optional(l), s, i, y)
    ensures x == y <==> AsWritten(x) == AsWritten(y)
    ensures Better(Optional(l), x, y) ==> Better(Alternation(l, Epsilon), AsWritten(x), AsWritten(y))
  {
    hide Fits;
    OptionalWay(l, s, i, x);
    OptionalWay(l, s, i, y);
    if x != WITHOUT {
      OptionalWay(l, s, i, x.copies.way);
      if y == WITHOUT {
        assert Better(Alternation(l, Epsilon), First(x.copies.way), Second(Plain));
      } else {
        WithOrder(l, x.copies.way, y.copies.way);
        assert Better(Alternation(l, Epsilon), First(x.copies.way), First(y.copies.way)) == Better(l, x.copies.way, y.copies.way);
      }
    } else if y != WITHOUT {
      OptionalWay(l, s, i, y.copies.way);
    } else {
      NotBetter(Optional(l), x);
    }
  }

  /** Every way of the two alternatives as written is one of the optional tree. */
  lemma OnlyAsWritten(l: Node, s: seq<byte>, i: nat, w: Way) returns (x: Way)
    requires Valid(l) && Valid(Alternation(l, Epsilon)) && Fits(Alternation(l, Epsilon), s, i, w)
    ensures Fits(Optional(l), s, i, x) && AsWritten(x) == w
  {
    hide Fits;
    AlternationWay(l, Epsilon, s, 0, 0, i, w, []);
    if w.First? {
      x := With(w.way);
    } else {
      x := WITHOUT;
      OnlyPlain(s, i, w.way);
    }
    OptionalWay(l, s, i, x);
  }

  lemma OnlyPlain(s: seq<byte>, i: nat, w: Way)
    ensures Valid(Epsilon) && (Fits(Epsilon, s, i, w) <==> w == Plain)
  {
  }

  lemma SecondEmptyChosen(l: Node, s: seq<byte>, i: nat, w: Way)
    requires Valid(l) && Chosen(Optional(l), s, i, w)
    ensures Valid(Alternation(l, Epsilon)) && Chosen(Alternation(l, Epsilon), s, i, AsWritten(w))
  {
    hide Fits, Fresh, Better;
    SecondEmptyWay(l, s, i, w, 0);
    forall y | Fits(Alternation(l, Epsilon), s, i, y) && Fresh(Alternation(l, Epsilon), i, y) && y != AsWritten(w)
      ensures Better(Alternation(l, Epsilon), AsWritten(w), y)
    {
      var x := OnlyAsWritten(l, s, i, y);
      SecondEmptyWay(l, s, i, x, 0);
      AsWrittenOrder(l, s, i, w, x);
    }
  }

  /** An optional tree reports what the tree with an empty alternative behind it does. */
  lemma SecondEmptySame(l: Node, s: seq<byte>, n: nat)
    requires Valid(l)
    ensures Valid(Alternation(l, Epsilon)) && Report(Optional(l), s, n) == Report(Alternation(l, Epsilon), s, n)
  {
    hide Fits, Chosen, Report, Whole, AsWritten;
    OptionalWay(l, s, 0, WITHOUT);
    var w := FromStart(Optional(l), s, n, WITHOUT);
    ChosenFits(Optional(l), s, 0, w);
    SecondEmptyWay(l, s, 0, w, n);
    SecondEmptyChosen(l, s, 0, w);
    ReportsStart(Alternation(l, Epsilon), s, n, AsWritten(w));
  }

  // ---- The empty alternative first ----

  /** As written, an empty first alternative is always taken. */
  lemma FirstEmptyReport(r: Node, s: seq<byte>, n: nat)
    requires Valid(r)
    ensures Valid(Alternation(Epsilon, r)) && Report(Alternation(Epsilon, r), s, n) == Found(EmptyReport(n))
  {
    hide Report, Whole;
    FirstEmptyChosen(r, s, 0);
    ReportsStart(Alternation(Epsilon, r), s, n, First(Plain));
    AlternationReport(Epsilon, r, First(Plain), n);
    EmptyWhole(n);
  }

  lemma FirstEmptyChosen(r: Node, s: seq<byte>, i: nat)
    requires Valid(r)
    ensures Valid(Alternation(Epsilon, r)) && Chosen(Alternation(Epsilon, r), s, i, First(Plain))
  {
    hide Turns;
    EmptyTurns(i);
    OnlyPlain(s, i, Plain);
    AlternationWay(Epsilon, r, s, 0, 0, i, First(Plain), []);
    assert Turns(Alternation(Epsilon, r), 0, i, First(Plain)) == [Go(0, i), Go(1, i)];
    forall x | Fits(Alternation(Epsilon, r), s, i, x) && x != First(Plain)
      ensures Better(Alternation(Epsilon, r), First(Plain), x)
    {
      AlternationWay(Epsilon, r, s, 0, 0, i, x, []);
      if x.First? { OnlyPlain(s, i, x.way); }
    }
  }

  /** ^ before a tree, to have the engine look for it at the start of the string alone. */
  function AtStart(r: Node): (u: Node) {
    Concatenation(AnchorBegin, r)
  }

  lemma AtStartWay(r: Node, s: seq<byte>, w: Way, n: nat)
    requires Valid(r)
    ensures Valid(AtStart(r)) && (Fits(AtStart(r), s, 0, w) <==> w.Both? && w.first.Plain? && Fits(r, s, 0, w.second))
    ensures Fits(AtStart(r), s, 0, w) ==> (Fresh(AtStart(r), 0, w) <==> Fresh(r, 0, w.second))
    ensures w.Both? && w.first.Plain? ==> Whole(AtStart(r), w, n) == Whole(r, w.second, n)
  {
    hide Fits, Fresh, Whole, Turns, Distinct, Count, TurnsIn, Captures, WayEnd;
    ConcatenationWay(AnchorBegin, r, s, 0, 0, 0, w, []);
    if w.Both? { BeginFits(s, w.first); }
    if w.Both? && w.first.Plain? {
      AtStartWhole(r, w.second, n);
      if Fits(r, s, 0, w.second) { AtStartFresh(r, s, w.second); }
    }
  }

  lemma BeginFits(s: seq<byte>, x: Way)
    ensures Valid(AnchorBegin) && (Fits(AnchorBegin, s, 0, x) <==> x.Plain?) && WayEnd(AnchorBegin, 0, x) == 0
  {
  }

  lemma AtStartFresh(r: Node, s: seq<byte>, x: Way)
    requires Valid(r) && Valid(AtStart(r)) && Fits(r, s, 0, x)
    ensures Fresh(AtStart(r), 0, Both(Plain, x)) <==> Fresh(r, 0, x)
  {
    hide Fits, Turns, Distinct, Count, TurnsIn, Captures, WayEnd;
    ConcatenationWay(AnchorBegin, r, s, 0, 0, 0, Both(Plain, x), []);
    BeginFits(s, Plain);
    BeginTurns();
    WayInside(r, s, 1, 0, x);
    OneTurn(0, 0);
    DistinctOn([Go(0, 0)], Turns(r, 1, 0, x), 0, 1, 1 + Count(r));
  }

  lemma BeginTurns()
    ensures Valid(AnchorBegin) && Count(AnchorBegin) == 1 && Turns(AnchorBegin, 0, 0, Plain) == [Go(0, 0)]
  {
  }

  lemma AtStartWhole(r: Node, x: Way, n: nat)
    ensures Whole(AtStart(r), Both(Plain, x), n) == Whole(r, x, n)
  {
    var m := Put(seq(n, _ => Null), 0, 0);
    assert Captures(AtStart(r), 1, 0, Both(Plain, x), m) == Captures(r, 1, 0, x, m);
    assert WayEnd(AtStart(r), 0, Both(Plain, x)) == WayEnd(r, 0, x);
  }

  lemma AtStartChosen(r: Node, s: seq<byte>, x: Way)
    requires Valid(r) && Valid(AtStart(r)) && Chosen(AtStart(r), s, 0, x)
    ensures x.Both? && x.first.Plain? && Chosen(r, s, 0, x.second)
  {
    hide Fits, Fresh;
    AtStartWay(r, s, x, 0);
    forall y | Fits(r, s, 0, y) && Fresh(r, 0, y) && y != x.second ensures Better(r, x.second, y) {
      AtStartWay(r, s, Both(Plain, y), 0);
      assert Better(AtStart(r), x, Both(Plain, y));
    }
  }

  /** What the engine reports of a tree anchored in front, in terms of the tree's ways. */
  lemma AtStartReport(r: Node, s: seq<byte>, n: nat)
    requires Valid(r)
    ensures Valid(AtStart(r))
    ensures Report(AtStart(r), s, n).Nothing? ==> forall y :: !Fits(r, s, 0, y)
    ensures Report(AtStart(r), s, n).Found? ==> exists x :: Chosen(r, s, 0, x) && Report(AtStart(r), s, n).m == Whole(r, x, n)
  {
    hide Fits, Chosen, Whole, Captures, Result, Runnable, MatchLast, ProgramOf;
    AtStartWay(r, s, Plain, n);
    AnchoredPrefers(AtStart(r), s, n);
    ProgramRuns(AtStart(r));
    if Report(AtStart(r), s, n).Found? {
      var x :| Prefers(AtStart(r), s, Report(AtStart(r), s, n).m, 0, x);
      AtStartChosen(r, s, x);
      AtStartWay(r, s, x, n);
      WholeIs(AtStart(r), x, n);
      ChosenFits(AtStart(r), s, 0, x);
    } else {
      forall y | Fits(r, s, 0, y) ensures false {
        AtStartWay(r, s, Both(Plain, y), n);
      }
    }
  }

  lemma WholeIs(r: Node, x: Way, n: nat)
    ensures Whole(r, x, n) == Captures(Capture(r), 0, 0, x, seq(n, _ => Null))
  {
  }

  /** The optional tree reports what the tree anchored in front does, and else nothing matched. */
  lemma OptionalReport(r: Node, s: seq<byte>, n: nat)
    requires Valid(r)
    ensures Valid(AtStart(r))
    ensures Report(Optional(r), s, n) ==
            if Report(AtStart(r), s, n).Found? then Report(AtStart(r), s, n) else Found(EmptyReport(n))
  {
    hide Fits, Chosen, Whole, Report;
    AtStartReport(r, s, n);
    if Report(AtStart(r), s, n).Found? {
      var x :| Chosen(r, s, 0, x) && Report(AtStart(r), s, n).m == Whole(r, x, n);
      OptionalChosen(r, s, 0, x);
      ReportsStart(Optional(r), s, n, With(x));
      WithReport(r, x, n);
    } else {
      OptionalChosen(r, s, 0, Plain);
      ReportsStart(Optional(r), s, n, WITHOUT);
      WithReport(r, Plain, n);
    }
  }

  /** The preferred way of r from the start of the string, if there is one, matches nothing and
      sets no group. */
  ghost predicate PrefersNothing(r: Node, s: seq<byte>, n: nat)
    requires Valid(r)
  {
    forall x :: Chosen(r, s, 0, x) ==> Whole(r, x, n) == EmptyReport(n)
  }

  lemma StartPrefersNothing(r: Node, s: seq<byte>, n: nat)
    requires Valid(r)
    ensures Valid(AtStart(r)) && (Report(AtStart(r), s, n) in {Nothing, Found(EmptyReport(n))} <==> PrefersNothing(r, s, n))
  {
    hide Fits, Chosen, Whole, Report;
    AtStartReport(r, s, n);
    if Report(AtStart(r), s, n).Found? {
      var x :| Chosen(r, s, 0, x) && Report(AtStart(r), s, n).m == Whole(r, x, n);
      forall y | Chosen(r, s, 0, y) ensures y == x { ChosenOnce(r, s, 0, x, y); }
    } else {
      forall y | Chosen(r, s, 0, y) ensures false { ChosenFits(r, s, 0, y); }
    }
  }

  // ---- Both together ----

  /** The tree that the parser makes of two alternatives reports what they report as written,
      in every string and with any number of slots. Where the first alone is empty it does so
      exactly when the second, anchored in front, is not found or reports nothing matched. */
  lemma EitherReports(l: Node, r: Node, s: seq<byte>, n: nat)
    requires Valid(l) && Valid(r)
    ensures Valid(Either(l, r)) && Valid(Alternation(l, r)) && Valid(AtStart(r))
    ensures l != Epsilon || r == Epsilon ==> Report(Either(l, r), s, n) == Report(Alternation(l, r), s, n)
    ensures l == Epsilon && r != Epsilon ==>
      (Report(Either(l, r), s, n) == Report(Alternation(l, r), s, n) <==>
       Report(AtStart(r), s, n) in {Nothing, Found(EmptyReport(n))})
    ensures Report(AtStart(r), s, n) in {Nothing, Found(EmptyReport(n))} <==> PrefersNothing(r, s, n)
  {
    hide Report, PrefersNothing;
    StartPrefersNothing(r, s, n);
    AtStartWay(r, s, Plain, n);
    if l == Epsilon {
      FirstEmptyReport(r, s, n);
      if r == Epsilon {
        EpsilonReport(s, n);
      } else {
        OptionalReport(r, s, n);
      }
    } else if r == Epsilon {
      SecondEmptySame(l, s, n);
    }
  }

  lemma EpsilonReport(s: seq<byte>, n: nat)
    ensures Valid(Epsilon) && Report(Epsilon, s, n) == Found(EmptyReport(n))
  {
    hide Report;
    EmptyTurns(0);
    OnlyPlain(s, 0, Plain);
    assert Chosen(Epsilon, s, 0, Plain);
    ReportsStart(Epsilon, s, n, Plain);
    EmptyWhole(n);
  }

  // ---- A string in which the order shows ----

  const LETTER := Character(0x61)
  const BAR_LETTER: seq<byte> := [0x7C, 0x61]
  const ONE: seq<byte> := [0x61]

  /** |a on "a": the match reported is the letter, where the alternatives as written prefer
      nothing. */
  lemma EmptyFirstPasses()
    ensures IsPattern(BAR_LETTER) && Parse(BAR_LETTER) == Accepted(Either(Epsilon, LETTER), 3)
    ensures Report(Either(Epsilon, LETTER), ONE, 2) == Found([At(0), At(1)])
    ensures Report(Alternation(Epsilon, LETTER), ONE, 2) == Found([At(0), At(0)])
  {
    hide Report;
    LetterParsed();
    LetterChosen();
    OptionalChosen(LETTER, ONE, 0, Plain);
    ReportsStart(Optional(LETTER), ONE, 2, With(Plain));
    WithReport(LETTER, Plain, 2);
    LetterWhole();
    FirstEmptyReport(LETTER, ONE, 2);
  }

  lemma LetterParsed()
    ensures IsPattern(BAR_LETTER) && Parse(BAR_LETTER) == Accepted(Either(Epsilon, LETTER), 3)
  {
    hide Either;
    assert TokenAt(BAR_LETTER, 2, true).Stop?;
    assert Context(BAR_LETTER, 2, 0, [LETTER]) == Accepted(LETTER, 3);
    assert TokenAt(BAR_LETTER, 1, false) == Push(LETTER, 2);
    assert [] + [LETTER] == [LETTER];
    assert Context(BAR_LETTER, 1, 0, []) == Accepted(LETTER, 3);
    assert TokenAt(BAR_LETTER, 0, false) == Token.Alternative;
  }

  lemma LetterChosen()
    ensures Chosen(LETTER, ONE, 0, Plain)
  {
  }

  lemma LetterWhole()
    ensures Whole(LETTER, Plain, 2) == [At(0), At(1)] && EmptyReport(2) == [At(0), At(0)]
  {
  }
}
