/** What the engine reports of a phrase, against the alternatives as they are written: the parser
    puts an empty one last, at every bar, and changes nothing else in what is preferred. */
module Written {
  import opened Bytes
  import opened Syntax
  import opened Codegen
  import opened Program
  import opened Ways
  import opened Compiler
  import opened Threads
  import opened Paths
  import opened Precedence
  import opened Searching
  import opened Parsing
  import opened Grammar
  import opened Rewriting
  import opened Alternatives

  // ---- Phrases with an alternation for every bar ----

  function WrittenTree(re: Regex): (r: Node)
    decreases re, 0
  {
    match re
    case Branch(fs) => Fold(WrittenTrees(fs))
    case Alternatives(fs, rest) => Alternation(Fold(WrittenTrees(fs)), WrittenTree(rest))
  }

  function WrittenTrees(fs: seq<Factor>): (r: seq<Node>)
    ensures |r| == |fs|
    decreases fs, 0
  {
    if fs == [] then [] else WrittenTrees(fs[..|fs| - 1]) + [WrittenFactor(fs[|fs| - 1])]
  }

  function WrittenFactor(f: Factor): (r: Node)
    decreases f, 0
  {
    match f
    case Atom(node, _) => node
    case Parens(body, _) => Capture(WrittenTree(body))
    case Repeat(inner, nmin, nmax, greedy, _) => Quantifier(nmin, nmax, greedy, WrittenFactor(inner))
  }

  function AllRewritten(items: seq<Node>): (r: seq<Node>)
    ensures |r| == |items| && forall k :: 0 <= k < |items| ==> r[k] == Rewritten(items[k])
  {
    seq(|items|, k requires 0 <= k < |items| => Rewritten(items[k]))
  }

  lemma {:induction false} FoldRewritten(items: seq<Node>)
    ensures Rewritten(Fold(items)) == Fold(AllRewritten(items))
  {
    if |items| > 1 {
      FoldRewritten(items[1..]);
      assert AllRewritten(items)[1..] == AllRewritten(items[1..]);
    }
  }

  lemma TokenLeaf(p: seq<byte>, sp: nat, some: bool)
    requires IsPattern(p) && sp <= |p| && TokenAt(p, sp, some).Push?
    ensures Rewritten(TokenAt(p, sp, some).node) == TokenAt(p, sp, some).node
  {
    hide IntervalAt, BracketsAt;
  }

  /** The parser's tree for a phrase is the rewritten one. */
  lemma {:induction false} RegexRewritten(p: seq<byte>, i: nat, re: Regex)
    requires IsPattern(p) && RegexAt(p, i, re)
    ensures Rewritten(WrittenTree(re)) == RegexTree(re)
    decreases re, 0
  {
    hide FactorsAt, Trees, WrittenTrees, Fold, Either;
    FactorsRewritten(p, i, re.factors);
    FoldRewritten(WrittenTrees(re.factors));
    if re.Alternatives? { RegexRewritten(p, End(i, re.factors) + 1, re.rest); }
  }

  lemma {:induction false} FactorsRewritten(p: seq<byte>, i: nat, fs: seq<Factor>)
    requires IsPattern(p) && FactorsAt(p, i, fs)
    ensures AllRewritten(WrittenTrees(fs)) == Trees(fs)
    decreases fs, 0
  {
    hide FactorAt, FactorTree, WrittenFactor, Rewritten;
    if fs != [] {
      var n := |fs| - 1;
      FactorsRewritten(p, i, fs[..n]);
      FactorRewritten(p, End(i, fs[..n]), fs[n], n == 0);
      assert AllRewritten(WrittenTrees(fs)) == AllRewritten(WrittenTrees(fs[..n])) + [FactorTree(fs[n])];
    }
  }

  lemma {:induction false} FactorRewritten(p: seq<byte>, i: nat, f: Factor, first: bool)
    requires IsPattern(p) && FactorAt(p, i, f, first)
    ensures Rewritten(WrittenFactor(f)) == FactorTree(f)
    decreases f, 0
  {
    hide RegexTree, WrittenTree, RegexAt, TokenAt;
    match f
    case Atom(_, _) => TokenLeaf(p, i, !first);
    case Parens(body, _) => RegexRewritten(p, i + 1, body);
    case Repeat(inner, _, _, _, _) => FactorRewritten(p, i, inner, first);
  }

  lemma {:induction false} ValidWritten(m: Node)
    requires Valid(Rewritten(m))
    ensures Valid(m)
  {
    match m
    case Concatenation(l, r) => ValidWritten(l); ValidWritten(r);
    case Alternation(l, r) =>
      ValidWritten(l);
      ValidWritten(r);
    case Quantifier(_, _, _, q) => ValidWritten(q);
    case Capture(x) => ValidWritten(x);
    case _ =>
  }

  // ---- Reports ----

  /** Some match of m starts at the start of s. */
  ghost predicate AtStartOf(m: Node, s: seq<byte>)
    requires Valid(m)
  {
    exists w :: Fits(m, s, 0, w)
  }

  ghost predicate Anywhere(m: Node, s: seq<byte>)
    requires Valid(m)
  {
    exists i: nat, w :: i <= |s| && Fits(m, s, i, w)
  }

  /** What looks anchored still does when rewritten. */
  lemma {:induction false} RewrittenAnchored(m: Node)
    requires Anchored(m)
    ensures Anchored(Rewritten(m))
  {
    match m
    case Concatenation(l, _) => RewrittenAnchored(l);
    case Alternation(l, r) => RewrittenAnchored(l); RewrittenAnchored(r);
    case Quantifier(_, _, _, q) => RewrittenAnchored(q);
    case Capture(x) => RewrittenAnchored(x);
    case _ =>
  }

  lemma WrappedRewritten(m: Node)
    requires Anchored(m) == Anchored(Rewritten(m))
    ensures Wrapped(Rewritten(m)) == Rewritten(Wrapped(m))
    ensures EmptyLater(m) ==> EmptyLater(Wrapped(m)) && EmptyLater(Capture(m))
  {
  }

  /** A tree whose empty alternatives come last, without the skip: the chosen way at the start. */
  lemma WithoutSkip(m: Node, s: seq<byte>, n: nat)
    requires Valid(m) && Valid(Capture(m)) && !Anchored(m)
    ensures MatchLast(Alone(Capture(m)))
    ensures AtStartOf(m, s) ==> Result(Alone(Capture(m)), s, n) == Report(m, s, n) && Report(m, s, n).Found?
    ensures !AtStartOf(m, s) ==> Result(Alone(Capture(m)), s, n) == Nothing
  {
    hide Fits, Chosen, Alone, Report, Captures, Valid, Result;
    ResultIsChosen(Capture(m), s, n);
    CaptureFits(m, s, 0);
    if AtStartOf(m, s) {
      var w :| Fits(m, s, 0, w);
      var x := FromStart(m, s, n, w);
      var y :| Chosen(Capture(m), s, 0, y) &&
               Result(Alone(Capture(m)), s, n).m == Captures(Capture(m), 0, 0, y, seq(n, _ => Null));
      CaptureChosen(m, s, 0, y);
      ChosenOnce(m, s, 0, x, y);
      WholeIs(m, x, n);
    }
  }

  lemma FoundAnywhere(m: Node, s: seq<byte>, n: nat)
    requires Valid(m) && !Anchored(m)
    ensures Report(m, s, n).Found? <==> Anywhere(m, s)
  {
    hide Fits, ProgramOf, Result, Prefers, NoneBefore;
    SearchPrefers(m, s, n);
    if Report(m, s, n).Found? {
      var i: nat, w :| i <= |s| && Fits(m, s, i, w);
      assert Anywhere(m, s);
    }
    if Anywhere(m, s) {
      var i: nat, w :| i <= |s| && Fits(m, s, i, w);
      FoundThere(m, s, n, i, w);
    }
  }

  lemma FoundThere(m: Node, s: seq<byte>, n: nat, i: nat, w: Way)
    requires Valid(m) && !Anchored(m) && i <= |s| && Fits(m, s, i, w)
    ensures Report(m, s, n).Found?
  {
    hide Fits, ProgramOf, Result, Prefers, NoneBefore;
    SearchPrefers(m, s, n);
  }

  /** The parser's tree reports what the tree with its empty alternatives last reports, in every
      string and with any number of slots, unless it is taken for anchored and the other is not;
      then exactly if some match starts at the start of the string or there is none. */
  lemma RewrittenReports(m: Node, s: seq<byte>, n: nat)
    requires Valid(m) && EmptyLater(m)
    ensures Valid(Rewritten(m)) && (Anchored(m) ==> Anchored(Rewritten(m)))
    ensures Report(Rewritten(m), s, n) == Report(m, s, n) <==>
            (Anchored(Rewritten(m)) ==> Anchored(m)) || AtStartOf(m, s) || !Anywhere(m, s)
    ensures Anchored(Rewritten(m)) && !Anchored(m) && !AtStartOf(m, s) ==> Report(Rewritten(m), s, n) == Nothing
  {
    hide Rewritten, EmptyLater, Result, Alone, MatchLast, AtStartOf, Anywhere, Valid, Anchored;
    RewrittenValid(m);
    if Anchored(m) { RewrittenAnchored(m); }
    var m' := Rewritten(m);
    ProgramRuns(m);
    ProgramRuns(m');
    if Anchored(m') == Anchored(m) {
      WrappedRewritten(m);
      RewrittenResult(Wrapped(m), s, n);
    } else {
      CaptureOf(m);
      RewrittenResult(Capture(m), s, n);
      WithoutSkip(m, s, n);
      FoundAnywhere(m, s, n);
    }
  }

  lemma CaptureOf(m: Node)
    requires Valid(m)
    ensures Valid(Capture(m)) && Rewritten(Capture(m)) == Capture(Rewritten(m))
    ensures EmptyLater(m) ==> EmptyLater(Capture(m))
  {
  }

  /** For every phrase, string and number of slots: the engine reports the alternatives as written,
      but for empty ones in front, which it puts last. Where no bar at any depth has an empty left
      side alone, the tree it is compared with is the one as written. */
  lemma PhraseReports(p: seq<byte>, re: Regex, s: seq<byte>, n: nat)
    requires IsPattern(p) && Phrase(p, re)
    ensures var tree, m := RegexTree(re), EmptyLast(WrittenTree(re));
            Parse(p) == Accepted(tree, |p| + 1) && Valid(tree) && Valid(m) && (Anchored(m) ==> Anchored(tree)) &&
            (Report(tree, s, n) == Report(m, s, n) <==>
             (Anchored(tree) ==> Anchored(m)) || AtStartOf(m, s) || !Anywhere(m, s))
    ensures EmptyLater(WrittenTree(re)) ==> EmptyLast(WrittenTree(re)) == WrittenTree(re)
  {
    hide Rewritten, EmptyLater, EmptyLast, Report, AtStartOf, Anywhere, Valid, Anchored, Context, RegexAt, RegexTree, WrittenTree;
    ParserAcceptsPhrases(p);
    ContextValid(p, 0, 0, []);
    RegexRewritten(p, 0, re);
    ValidWritten(WrittenTree(re));
    EmptyLastIs(WrittenTree(re));
    RewrittenReports(EmptyLast(WrittenTree(re)), s, n);
  }

  // ---- Inputs ----

  /** A character before a tree: the chosen way goes on with the tree's. */
  lemma LetterBefore(ch: byte, y: Node, s: seq<byte>, w: Way)
    requires Valid(y) && s != [] && s[0] == ch && Chosen(y, s, 1, w)
    ensures Valid(Concatenation(Character(ch), y)) && Chosen(Concatenation(Character(ch), y), s, 0, Both(Plain, w))
  {
    hide Fits, Fresh, Turns, Valid;
    LetterWay(ch, y, s, Both(Plain, w));
    forall x | Fits(Concatenation(Character(ch), y), s, 0, x) && Fresh(Concatenation(Character(ch), y), 0, x) &&
               x != Both(Plain, w)
      ensures Better(Concatenation(Character(ch), y), Both(Plain, w), x)
    {
      LetterWay(ch, y, s, x);
    }
  }

  lemma LetterWay(ch: byte, y: Node, s: seq<byte>, x: Way)
    requires Valid(y) && s != [] && s[0] == ch
    ensures Valid(Concatenation(Character(ch), y))
    ensures Fits(Concatenation(Character(ch), y), s, 0, x) <==> x.Both? && x.first.Plain? && Fits(y, s, 1, x.second)
    ensures Fits(Concatenation(Character(ch), y), s, 0, x) ==>
      (Fresh(Concatenation(Character(ch), y), 0, x) <==> Fresh(y, 1, x.second))
  {
    hide Fits, Turns, Distinct, TurnsIn, Captures;
    ConcatenationWay(Character(ch), y, s, 0, 0, 0, x, []);
    if x.Both? { OneLetter(ch, s, x.first); }
    if x.Both? && x.first.Plain? && Fits(y, s, 1, x.second) {
      WayInside(y, s, 1, 1, x.second);
      OneTurn(0, 0);
      DistinctOn([Go(0, 0)], Turns(y, 1, 1, x.second), 0, 1, 1 + Count(y));
    }
  }

  lemma OneLetter(ch: byte, s: seq<byte>, x: Way)
    requires s != [] && s[0] == ch
    ensures Valid(Character(ch)) && (Fits(Character(ch), s, 0, x) <==> x.Plain?)
    ensures WayEnd(Character(ch), 0, x) == 1 && Count(Character(ch)) == 1 && Turns(Character(ch), 0, 0, x) == [Go(0, 0)]
  {
  }

  /** b(|a), as the parser has it and as written, on "ba". */
  const B_THEN_BAR: seq<byte> := [0x62, 0x28, 0x7C, 0x61, 0x29]
  const BA: seq<byte> := [0x62, 0x61]
  const PASSED_INSIDE := Concatenation(Character(0x62), Capture(Optional(LETTER)))
  const INSIDE := Concatenation(Character(0x62), Capture(Alternation(Epsilon, LETTER)))

  /** An empty alternative in front is passed in a group as well, where the other alternative,
      looked for at the start of the string, is not even found. */
  lemma EmptyFirstInside()
    ensures Valid(PASSED_INSIDE) && Valid(INSIDE) && Valid(AtStart(LETTER))
    ensures Report(PASSED_INSIDE, BA, 2) == Found([At(0), At(2)])
    ensures Report(INSIDE, BA, 2) == Found([At(0), At(1)])
    ensures Report(AtStart(LETTER), BA, 2) == Nothing
    ensures Rewritten(INSIDE) == PASSED_INSIDE && !EmptyLater(INSIDE)
    ensures IsPattern(B_THEN_BAR) && Parse(B_THEN_BAR) == Accepted(PASSED_INSIDE, 6)
  {
    hide Report, Chosen, Whole, Parse;
    InsideParsed();
    LetterChosenAt(BA, 1);
    OptionalChosen(LETTER, BA, 1, Plain);
    CaptureChosen(Optional(LETTER), BA, 1, With(Plain));
    LetterBefore(0x62, Capture(Optional(LETTER)), BA, With(Plain));
    ReportsStart(PASSED_INSIDE, BA, 2, Both(Plain, With(Plain)));
    FirstEmptyChosen(LETTER, BA, 1);
    CaptureChosen(Alternation(Epsilon, LETTER), BA, 1, First(Plain));
    LetterBefore(0x62, Capture(Alternation(Epsilon, LETTER)), BA, First(Plain));
    ReportsStart(INSIDE, BA, 2, Both(Plain, First(Plain)));
    InsideWhole();
    NoLetterFirst();
  }

  /** The group behind the first character of the pattern. */
  lemma InsideGroup()
    ensures IsPattern(B_THEN_BAR) && Context(B_THEN_BAR, 2, 1, []) == Accepted(Optional(LETTER), 5)
  {
    var p := B_THEN_BAR;
    assert Fold([LETTER]) == LETTER && Fold([]) == Epsilon;
    assert TokenAt(p, 4, true) == Token.Stop(true);
    assert Context(p, 4, 1, [LETTER]) == Accepted(LETTER, 5);
    assert TokenAt(p, 3, false) == Push(LETTER, 4) && [] + [LETTER] == [LETTER];
    assert Context(p, 3, 1, []) == Accepted(LETTER, 5);
    assert TokenAt(p, 2, false) == Token.Alternative;
  }

  lemma InsideParsed()
    ensures IsPattern(B_THEN_BAR) && Parse(B_THEN_BAR) == Accepted(PASSED_INSIDE, 6)
  {
    var p, b, group := B_THEN_BAR, Character(0x62), Capture(Optional(LETTER));
    var items := [b, group];
    InsideGroup();
    assert [b] + [group] == items && items[1..] == [group];
    assert Fold([group]) == group && Fold(items) == PASSED_INSIDE;
    assert TokenAt(p, 5, true) == Token.Stop(false);
    assert Context(p, 5, 0, items) == Accepted(PASSED_INSIDE, 6);
    assert TokenAt(p, 1, true) == Token.Group;
    assert Context(p, 1, 0, [b]) == Accepted(PASSED_INSIDE, 6);
    assert TokenAt(p, 0, false) == Push(b, 1) && [] + [b] == [b];
  }

  lemma LetterChosenAt(s: seq<byte>, i: nat)
    requires i < |s| && s[i] == 0x61
    ensures Valid(LETTER) && Chosen(LETTER, s, i, Plain)
  {
  }

  lemma InsideWhole()
    ensures Whole(PASSED_INSIDE, Both(Plain, With(Plain)), 2) == [At(0), At(2)]
    ensures Whole(INSIDE, Both(Plain, First(Plain)), 2) == [At(0), At(1)]
  {
    hide Captures;
    InsideEnds();
    InsideSlots(Optional(LETTER), With(Plain), 2);
    InsideSlots(Alternation(Epsilon, LETTER), First(Plain), 1);
  }

  lemma InsideEnds()
    ensures WayEnd(Optional(LETTER), 1, With(Plain)) == 2 && WayEnd(Alternation(Epsilon, LETTER), 1, First(Plain)) == 1
  {
    assert RoundsEnd(LETTER, 2, Done) == 2;
  }

  /** With two slots, only the whole match is kept. */
  lemma InsideSlots(y: Node, w: Way, e: nat)
    requires WayEnd(y, 1, w) == e
    ensures Whole(Concatenation(Character(0x62), Capture(y)), Both(Plain, w), 2) == [At(0), At(e)]
  {
    var tree, m := Concatenation(Character(0x62), Capture(y)), [At(0), Null];
    assert Put(seq(2, _ => Null), 0, 0) == m;
    TwoSlots(y, w, m);
    assert Captures(tree, 1, 0, Both(Plain, w), m) == Captures(Capture(y), 1, 1, w, m);
    assert WayEnd(tree, 0, Both(Plain, w)) == e;
  }

  lemma TwoSlots(y: Node, w: Way, m: Slots)
    requires |m| == 2
    ensures Captures(Capture(y), 1, 1, w, m) == m
  {
    LowSlots(y, 2, 1, w, m);
  }

  /** Captures from number 1 on leave the first two slots alone. */
  lemma {:induction false} LowSlots(n: Node, c: nat, i: nat, w: Way, m: Slots)
    requires c >= 1 && |m| == 2
    ensures Captures(n, c, i, w, m) == m
    decreases w, n
  {
    match n
    case Concatenation(l, r) =>
      if w.Both? {
        LowSlots(l, c, i, w.first, m);
        LowSlots(r, NextCapture(l, c), WayEnd(l, i, w.first), w.second, m);
      }
    case Alternation(l, r) =>
      if w.First? { LowSlots(l, c, i, w.way, m); } else if w.Second? { LowSlots(r, NextCapture(l, c), i, w.way, m); }
    case Quantifier(_, _, _, q) => if w.Repeated? { LowRounds(q, c, i, w.copies, m); }
    case Capture(x) => LowSlots(x, c + 1, i, w, m);
    case _ =>
  }

  lemma {:induction false} LowRounds(q: Node, c: nat, i: nat, cs: Rounds, m: Slots)
    requires c >= 1 && |m| == 2
    ensures CapturesAfter(q, c, i, cs, m) == m
    decreases cs, q
  {
    match cs
    case Done =>
    case Skipped(rest) => LowRounds(q, c, i, rest, m);
    case Taken(w, rest) =>
      LowSlots(q, c, i, w, m);
      LowRounds(q, c, WayEnd(q, i, w), rest, m);
  }

  lemma NoLetterFirst()
    ensures Valid(AtStart(LETTER)) && Report(AtStart(LETTER), BA, 2) == Nothing
  {
    hide Report, Chosen, Whole;
    AtStartReport(LETTER, BA, 2);
    if Report(AtStart(LETTER), BA, 2).Found? {
      var x :| Chosen(LETTER, BA, 0, x) && Report(AtStart(LETTER), BA, 2).m == Whole(LETTER, x, 2);
      ChosenFits(LETTER, BA, 0, x);
    }
  }

  /** (^a|)b, as the parser has it and as written, on "xb". */
  const START_OR_BAR: seq<byte> := [0x28, 0x5E, 0x61, 0x7C, 0x29, 0x62]
  const START_LETTER := Concatenation(AnchorBegin, LETTER)
  const LOOKS_ANCHORED := Concatenation(Capture(Optional(START_LETTER)), Character(0x62))
  const NOT_ANCHORED := Concatenation(Capture(Alternation(START_LETTER, Epsilon)), Character(0x62))

  /** Where the rewriting makes a tree look anchored, matches behind the start are missed, although
      the empty alternative comes last. */
  lemma EmptyLastMissed()
    ensures IsPattern(START_OR_BAR) && Parse(START_OR_BAR) == Accepted(LOOKS_ANCHORED, 7)
    ensures Rewritten(NOT_ANCHORED) == LOOKS_ANCHORED && EmptyLater(NOT_ANCHORED)
    ensures Valid(NOT_ANCHORED) && !AtStartOf(NOT_ANCHORED, [0x78, 0x62]) && Anywhere(NOT_ANCHORED, [0x78, 0x62])
    ensures Anchored(LOOKS_ANCHORED) && !Anchored(NOT_ANCHORED)
    ensures Report(LOOKS_ANCHORED, [0x78, 0x62], 2) == Nothing && Report(NOT_ANCHORED, [0x78, 0x62], 2).Found?
  {
    hide Report, Parse;
    StartParsed();
    NotAtStart();
    LaterThere();
    RewrittenReports(NOT_ANCHORED, [0x78, 0x62], 2);
    FoundAnywhere(NOT_ANCHORED, [0x78, 0x62], 2);
  }

  lemma NotAtStart()
    ensures Valid(NOT_ANCHORED) && !AtStartOf(NOT_ANCHORED, [0x78, 0x62])
  {
    hide Captures, Turns;
    var s: seq<byte>, choice, b := [0x78, 0x62], Alternation(START_LETTER, Epsilon), Character(0x62);
    forall w | Fits(NOT_ANCHORED, s, 0, w) ensures false {
      ConcatenationWay(Capture(choice), b, s, 0, 0, 0, w, []);
      CaptureWay(choice, s, 0, 0, 0, w.first, []);
      AlternationWay(START_LETTER, Epsilon, s, 0, 0, 0, w.first, []);
      if w.first.First? {
        ConcatenationWay(AnchorBegin, LETTER, s, 0, 0, 0, w.first.way, []);
      }
    }
  }

  lemma LaterThere()
    ensures Valid(NOT_ANCHORED) && Anywhere(NOT_ANCHORED, [0x78, 0x62])
  {
    var s: seq<byte>, w := [0x78, 0x62], Second(Plain);
    assert Fits(Capture(Alternation(START_LETTER, Epsilon)), s, 1, w);
    assert WayEnd(Capture(Alternation(START_LETTER, Epsilon)), 1, w) == 1;
    assert Fits(NOT_ANCHORED, s, 1, Both(w, Plain));
  }

  /** The group at the start of the pattern. */
  lemma StartGroup()
    ensures IsPattern(START_OR_BAR) && Context(START_OR_BAR, 1, 1, []) == Accepted(Optional(START_LETTER), 5)
  {
    var p, inner: seq<Node> := START_OR_BAR, [AnchorBegin, LETTER];
    assert Fold([]) == Epsilon && inner[1..] == [LETTER] && Fold([LETTER]) == LETTER && Fold(inner) == START_LETTER;
    assert TokenAt(p, 4, false) == Token.Stop(true);
    assert Context(p, 4, 1, []) == Accepted(Epsilon, 5);
    assert TokenAt(p, 3, true) == Token.Alternative;
    assert Context(p, 3, 1, inner) == Accepted(Optional(START_LETTER), 5);
    assert TokenAt(p, 2, true) == Push(LETTER, 3) && [AnchorBegin] + [LETTER] == inner;
    assert Context(p, 2, 1, [AnchorBegin]) == Accepted(Optional(START_LETTER), 5);
    assert TokenAt(p, 1, false) == Push(AnchorBegin, 2) && [] + [AnchorBegin] == [AnchorBegin];
  }

  lemma StartParsed()
    ensures IsPattern(START_OR_BAR) && Parse(START_OR_BAR) == Accepted(LOOKS_ANCHORED, 7)
  {
    var p, b, group := START_OR_BAR, Character(0x62), Capture(Optional(START_LETTER));
    var items := [group, b];
    StartGroup();
    assert items[1..] == [b] && Fold([b]) == b && Fold(items) == LOOKS_ANCHORED;
    assert [group] + [b] == items && [] + [group] == [group];
    assert TokenAt(p, 6, true) == Token.Stop(false);
    assert Context(p, 6, 0, items) == Accepted(LOOKS_ANCHORED, 7);
    assert TokenAt(p, 5, true) == Push(b, 6);
    assert Context(p, 5, 0, [group]) == Accepted(LOOKS_ANCHORED, 7);
    assert TokenAt(p, 0, false) == Token.Group;
  }
}
