/** When leaving out the lazy skip is right: the patterns all of whose matches start at the
    beginning of the string, decided from the tree. */
module Anchoring {
  import opened Bytes
  import opened CharClass
  import opened Syntax
  import opened Codegen
  import opened Ways
  import opened Compiler
  import opened Threads
  import opened Machine
  import opened Paths
  import opened Searching

  /** Some character other than NUL is in the bracket expression, or out of it if negated. */
  ghost predicate Inhabited(negated: bool, text: seq<byte>)
    requires WellFormed(text, 0)
  {
    exists d: byte :: d != 0 && InClass(text, 0, d) != negated
  }

  /** n can match somewhere after the start and before the end of some string. */
  ghost predicate Inside(n: Node)
    requires Valid(n)
  {
    match n
    case Epsilon => true
    case Character(ch) => ch != 0
    case AnyCharacter => true
    case Class(negated, text) => Inhabited(negated, text)
    case Concatenation(l, r) => Inside(l) && Inside(r)
    case Alternation(l, r) => Inside(l) || Inside(r)
    case Quantifier(nmin, _, _, q) => nmin == 0 || Inside(q)
    case AnchorBegin => false
    case AnchorEnd => false
    case Capture(c) => Inside(c)
  }

  /** n can match nothing at the end of a string that is not empty. */
  predicate EmptyAtEnd(n: Node)
    requires Valid(n)
  {
    match n
    case Epsilon => true
    case Concatenation(l, r) => EmptyAtEnd(l) && EmptyAtEnd(r)
    case Alternation(l, r) => EmptyAtEnd(l) || EmptyAtEnd(r)
    case Quantifier(nmin, _, _, q) => nmin == 0 || EmptyAtEnd(q)
    case AnchorEnd => true
    case Capture(c) => EmptyAtEnd(c)
    case _ => false
  }

  /** n can match from after the start of some string up to its end. */
  ghost predicate ToEnd(n: Node)
    requires Valid(n)
  {
    match n
    case Epsilon => true
    case Character(ch) => ch != 0
    case AnyCharacter => true
    case Class(negated, text) => Inhabited(negated, text)
    case Concatenation(l, r) => (Inside(l) && ToEnd(r)) || (ToEnd(l) && EmptyAtEnd(r))
    case Alternation(l, r) => ToEnd(l) || ToEnd(r)
    case Quantifier(nmin, _, _, q) => nmin == 0 || (ToEnd(q) && (nmin == 1 || Inside(q) || EmptyAtEnd(q)))
    case AnchorBegin => false
    case AnchorEnd => true
    case Capture(c) => ToEnd(c)
  }

  lemma {:induction false} InsideToEnd(n: Node)
    requires Valid(n) && Inside(n)
    ensures ToEnd(n)
  {
    match n
    case Concatenation(l, r) => InsideToEnd(l); InsideToEnd(r);
    case Alternation(l, r) => if Inside(l) { InsideToEnd(l); } else { InsideToEnd(r); }
    case Quantifier(nmin, _, _, q) => if nmin > 0 { InsideToEnd(q); }
    case Capture(c) => InsideToEnd(c);
    case _ =>
  }

  // ---- A match after the start is one of the three kinds ----

  lemma {:induction false} LaterMatch(n: Node, s: seq<byte>, i: nat, j: nat)
    requires Valid(n) && IsString(s) && 0 < i <= |s| && Matches(n, s, i, j)
    ensures i <= j <= |s| && (if j < |s| then Inside(n) else ToEnd(n))
    ensures i == |s| ==> EmptyAtEnd(n)
    decreases n, 0
  {
    MatchesSpan(n, s, i, j);
    match n
    case Concatenation(l, r) =>
      var k: nat :| Matches(l, s, i, k) && Matches(r, s, k, j);
      LaterMatch(l, s, i, k);
      LaterMatch(r, s, k, j);
    case Alternation(l, r) =>
      if Matches(l, s, i, j) { LaterMatch(l, s, i, j); } else { LaterMatch(r, s, i, j); }
    case Quantifier(nmin, nmax, _, q) =>
      var c: nat :| nmin <= c && (nmax == -1 || c <= nmax) && Repeats(q, c, s, i, j);
      if c > 0 { LaterRepeats(q, c, s, i, j); }
    case Capture(c) => LaterMatch(c, s, i, j);
    case _ =>
  }

  lemma {:induction false} LaterRepeats(q: Node, c: nat, s: seq<byte>, i: nat, j: nat)
    requires Valid(q) && IsString(s) && 0 < i <= |s| && c > 0 && Repeats(q, c, s, i, j)
    ensures i <= j <= |s| && (if j < |s| then Inside(q) else ToEnd(q) && (c == 1 || Inside(q) || EmptyAtEnd(q)))
    ensures i == |s| ==> EmptyAtEnd(q)
    decreases q, c
  {
    var k: nat :| Matches(q, s, i, k) && Repeats(q, c - 1, s, k, j);
    LaterMatch(q, s, i, k);
    if c > 1 {
      LaterRepeats(q, c - 1, s, k, j);
      if k < |s| { InsideToEnd(q); }
    }
  }

  // ---- Each kind has a string that shows it ----

  ghost predicate InsideBy(n: Node, w: seq<byte>)
    requires Valid(n)
  {
    IsString(w) && forall a, b :: a != [] ==> Matches(n, a + w + b, |a|, |a| + |w|)
  }

  ghost predicate ToEndBy(n: Node, w: seq<byte>)
    requires Valid(n)
  {
    IsString(w) && forall a :: a != [] ==> Matches(n, a + w, |a|, |a| + |w|)
  }

  lemma {:induction false} InsideWord(n: Node) returns (w: seq<byte>)
    requires Valid(n) && Inside(n)
    ensures InsideBy(n, w)
    decreases n, 0
  {
    match n
    case Character(ch) => w := [ch];
    case AnyCharacter => w := [1];
    case Class(negated, text) =>
      var d: byte :| d != 0 && InClass(text, 0, d) != negated;
      w := [d];
      assert forall a: seq<byte>, b: seq<byte> :: (a + w + b)[|a|] == d;
    case Concatenation(l, r) =>
      var x := InsideWord(l);
      var y := InsideWord(r);
      w := x + y;
      forall a, b | a != [] ensures Matches(n, a + w + b, |a|, |a| + |w|) {
        assert a + w + b == a + x + (y + b) && a + w + b == (a + x) + y + b;
        assert Matches(l, a + x + (y + b), |a|, |a| + |x|);
        assert Matches(r, (a + x) + y + b, |a + x|, |a + x| + |y|);
      }
    case Alternation(l, r) => if Inside(l) { w := InsideWord(l); } else { w := InsideWord(r); }
    case Quantifier(nmin, nmax, _, q) =>
      w := InsideWords(q, nmin);
      forall a, b | a != [] ensures Matches(n, a + w + b, |a|, |a| + |w|) {
        assert Repeats(q, nmin, a + w + b, |a|, |a| + |w|);
      }
    case Capture(c) => w := InsideWord(c);
    case _ => w := [];
  }

  lemma {:induction false} InsideWords(q: Node, c: nat) returns (w: seq<byte>)
    requires Valid(q) && (c == 0 || Inside(q))
    ensures IsString(w) && forall a, b :: a != [] ==> Repeats(q, c, a + w + b, |a|, |a| + |w|)
    decreases q, c + 1
  {
    if c == 0 {
      w := [];
    } else {
      var x := InsideWord(q);
      var y := InsideWords(q, c - 1);
      w := x + y;
      forall a, b | a != [] ensures Repeats(q, c, a + w + b, |a|, |a| + |w|) {
        assert a + w + b == a + x + (y + b) && a + w + b == (a + x) + y + b;
        assert Matches(q, a + x + (y + b), |a|, |a| + |x|);
        assert Repeats(q, c - 1, (a + x) + y + b, |a + x|, |a + x| + |y|);
      }
    }
  }

  lemma {:induction false} EmptyWord(n: Node, s: seq<byte>)
    requires Valid(n) && EmptyAtEnd(n) && s != []
    ensures Matches(n, s, |s|, |s|)
    decreases n, 0
  {
    match n
    case Concatenation(l, r) => EmptyWord(l, s); EmptyWord(r, s);
    case Alternation(l, r) => if EmptyAtEnd(l) { EmptyWord(l, s); } else { EmptyWord(r, s); }
    case Quantifier(nmin, nmax, _, q) =>
      EmptyWords(q, nmin, s);
      assert Repeats(q, nmin, s, |s|, |s|);
    case Capture(c) => EmptyWord(c, s);
    case _ =>
  }

  lemma {:induction false} EmptyWords(q: Node, c: nat, s: seq<byte>)
    requires Valid(q) && (c == 0 || EmptyAtEnd(q)) && s != []
    ensures Repeats(q, c, s, |s|, |s|)
    decreases q, c + 1
  {
    if c > 0 {
      EmptyWord(q, s);
      EmptyWords(q, c - 1, s);
    }
  }

  lemma {:induction false} ToEndWord(n: Node) returns (w: seq<byte>)
    requires Valid(n) && ToEnd(n)
    ensures ToEndBy(n, w)
    decreases n, 1
  {
    match n
    case Character(ch) => w := [ch];
    case AnyCharacter => w := [1];
    case Class(negated, text) =>
      var d: byte :| d != 0 && InClass(text, 0, d) != negated;
      w := [d];
      assert forall a: seq<byte> :: (a + w)[|a|] == d;
    case Concatenation(l, r) => w := ToEndConcatenation(l, r);
    case Alternation(l, r) => if ToEnd(l) { w := ToEndWord(l); } else { w := ToEndWord(r); }
    case Quantifier(nmin, nmax, _, q) =>
      if nmin == 0 {
        w := [];
        forall a | a != [] ensures Matches(n, a + w, |a|, |a| + |w|) { assert Repeats(q, 0, a + w, |a|, |a| + |w|); }
      } else {
        w := ToEndWords(q, nmin);
        forall a | a != [] ensures Matches(n, a + w, |a|, |a| + |w|) { assert Repeats(q, nmin, a + w, |a|, |a| + |w|); }
      }
    case Capture(c) => w := ToEndWord(c);
    case _ => w := [];
  }

  lemma {:induction false} ToEndConcatenation(l: Node, r: Node) returns (w: seq<byte>)
    requires Valid(l) && Valid(r) && ToEnd(Concatenation(l, r))
    ensures ToEndBy(Concatenation(l, r), w)
    decreases Concatenation(l, r), 0
  {
    if Inside(l) && ToEnd(r) {
      var x := InsideWord(l);
      var y := ToEndWord(r);
      w := x + y;
      InsideThenToEnd(l, r, x, y);
    } else {
      w := ToEndWord(l);
      ToEndThenEmpty(l, r, w);
    }
  }

  lemma Consecutive(l: Node, r: Node, s: seq<byte>, i: nat, k: nat, j: nat)
    requires Valid(l) && Valid(r) && Matches(l, s, i, k) && Matches(r, s, k, j)
    ensures Matches(Concatenation(l, r), s, i, j)
  {
  }

  lemma InsideThenToEnd(l: Node, r: Node, x: seq<byte>, y: seq<byte>)
    requires Valid(l) && Valid(r) && InsideBy(l, x) && ToEndBy(r, y)
    ensures ToEndBy(Concatenation(l, r), x + y)
  {
    hide Matches;
    forall a | a != [] ensures Matches(Concatenation(l, r), a + (x + y), |a|, |a| + |x + y|) {
      assert a + (x + y) == a + x + y;
      assert Matches(l, a + x + y, |a|, |a| + |x|) && Matches(r, (a + x) + y, |a + x|, |a + x| + |y|);
      Consecutive(l, r, a + (x + y), |a|, |a + x|, |a| + |x + y|);
    }
  }

  lemma ToEndThenEmpty(l: Node, r: Node, w: seq<byte>)
    requires Valid(l) && Valid(r) && ToEndBy(l, w) && EmptyAtEnd(r)
    ensures ToEndBy(Concatenation(l, r), w)
  {
    hide Matches;
    forall a | a != [] ensures Matches(Concatenation(l, r), a + w, |a|, |a| + |w|) {
      EmptyWord(r, a + w);
      Consecutive(l, r, a + w, |a|, |a + w|, |a + w|);
    }
  }

  lemma {:induction false} ToEndWords(q: Node, c: nat) returns (w: seq<byte>)
    requires Valid(q) && c > 0 && ToEnd(q) && (c == 1 || Inside(q) || EmptyAtEnd(q))
    ensures IsString(w) && forall a :: a != [] ==> Repeats(q, c, a + w, |a|, |a| + |w|)
    decreases q, c + 2
  {
    if c > 1 && Inside(q) {
      var x := InsideWord(q);
      var y := ToEndWords(q, c - 1);
      w := x + y;
      forall a | a != [] ensures Repeats(q, c, a + w, |a|, |a| + |w|) {
        assert a + w == a + x + y;
        assert Matches(q, a + x + y, |a|, |a| + |x|) && Repeats(q, c - 1, (a + x) + y, |a + x|, |a + x| + |y|);
      }
    } else {
      w := ToEndWord(q);
      forall a | a != [] ensures Repeats(q, c, a + w, |a|, |a| + |w|) {
        EmptyWords(q, c - 1, a + w);
        assert Matches(q, a + w, |a|, |a| + |w|) && Repeats(q, c - 1, a + w, |a + w|, |a + w|);
      }
    }
  }

  /** Exactly the trees that cannot reach the end of a string from after its start have all
      their matches, in every string, at the start. */
  lemma OnlyAtStart(root: Node)
    requires Valid(root)
    ensures (forall s, i: nat, j: nat :: IsString(s) && i <= |s| && Matches(root, s, i, j) ==> i == 0) <==> !ToEnd(root)
  {
    if ToEnd(root) {
      var w := ToEndWord(root);
      var a: seq<byte> := [1];
      var s := a + w;
      assert Matches(root, a + w, |a|, |a| + |w|);
      assert IsString(s) && |a| <= |s| && Matches(root, s, |a|, |a| + |w|) && |a| != 0;
    } else {
      forall s, i: nat, j: nat | IsString(s) && 0 < i <= |s| && Matches(root, s, i, j) ensures false {
        LaterMatch(root, s, i, j);
        if j < |s| { InsideToEnd(root); }
      }
    }
  }

  /** node_is_anchored is right where every quantifier on the way to its ^ requires a copy. */
  predicate SureSpine(n: Node) {
    match n
    case Concatenation(l, _) => SureSpine(l)
    case Alternation(l, r) => SureSpine(l) && SureSpine(r)
    case Quantifier(nmin, _, _, q) => nmin > 0 && SureSpine(q)
    case Capture(c) => SureSpine(c)
    case _ => true
  }

  lemma {:induction false} SureSpineStarts(n: Node)
    requires Valid(n) && Anchored(n) && SureSpine(n)
    ensures !ToEnd(n) && !Inside(n)
  {
    match n
    case Concatenation(l, _) => SureSpineStarts(l);
    case Alternation(l, r) => SureSpineStarts(l); SureSpineStarts(r);
    case Quantifier(_, _, _, q) => SureSpineStarts(q);
    case Capture(c) => SureSpineStarts(c);
    case _ =>
  }

  /** n can match nothing at the start of a string that is not empty. */
  predicate EmptyAtStart(n: Node)
    requires Valid(n)
  {
    match n
    case Epsilon => true
    case Concatenation(l, r) => EmptyAtStart(l) && EmptyAtStart(r)
    case Alternation(l, r) => EmptyAtStart(l) || EmptyAtStart(r)
    case Quantifier(nmin, _, _, q) => nmin == 0 || EmptyAtStart(q)
    case AnchorBegin => true
    case Capture(c) => EmptyAtStart(c)
    case _ => false
  }

  /** Then it does so at the start of every string, the empty one too. */
  lemma {:induction false} EmptyStart(n: Node, s: seq<byte>)
    requires Valid(n) && EmptyAtStart(n)
    ensures Matches(n, s, 0, 0)
    decreases n, 0
  {
    match n
    case Concatenation(l, r) => EmptyStart(l, s); EmptyStart(r, s);
    case Alternation(l, r) => if EmptyAtStart(l) { EmptyStart(l, s); } else { EmptyStart(r, s); }
    case Quantifier(nmin, nmax, _, q) =>
      EmptyStarts(q, nmin, s);
      assert Repeats(q, nmin, s, 0, 0);
    case Capture(c) => EmptyStart(c, s);
    case _ =>
  }

  lemma {:induction false} EmptyStarts(q: Node, c: nat, s: seq<byte>)
    requires Valid(q) && (c == 0 || EmptyAtStart(q))
    ensures Repeats(q, c, s, 0, 0)
    decreases q, c + 1
  {
    if c > 0 {
      EmptyStart(q, s);
      EmptyStarts(q, c - 1, s);
    }
  }

  /** And no other tree does so at the start of any string that is not empty. */
  lemma {:induction false} StartEmpty(n: Node, s: seq<byte>)
    requires Valid(n) && s != [] && Matches(n, s, 0, 0)
    ensures EmptyAtStart(n)
    decreases n, 0
  {
    match n
    case Concatenation(l, r) =>
      var k: nat :| Matches(l, s, 0, k) && Matches(r, s, k, 0);
      MatchesSpan(l, s, 0, k);
      MatchesSpan(r, s, k, 0);
      StartEmpty(l, s);
      StartEmpty(r, s);
    case Alternation(l, r) => if Matches(l, s, 0, 0) { StartEmpty(l, s); } else { StartEmpty(r, s); }
    case Quantifier(nmin, nmax, _, q) =>
      var c: nat :| nmin <= c && (nmax == -1 || c <= nmax) && Repeats(q, c, s, 0, 0);
      if nmin > 0 {
        var k := RepeatsFirst(q, c, s, 0, 0);
        MatchesSpan(q, s, 0, k);
        RepeatsSpan(q, c - 1, s, k, 0);
        StartEmpty(q, s);
      }
    case Capture(c) => StartEmpty(c, s);
    case _ =>
  }

  /** The trees known to lose nothing: all their matches are at the start, or one always is. */
  ghost predicate KeepsStart(root: Node)
    requires Valid(root)
  {
    !ToEnd(root) || EmptyAtStart(root)
  }

  /** Such a tree matches somewhere only if it matches at the start. */
  lemma StartOrAnywhere(root: Node, s: seq<byte>)
    requires Valid(root) && KeepsStart(root) && IsString(s)
    ensures (exists j: nat :: Matches(root, s, 0, j)) ==> exists i: nat, j: nat :: i <= |s| && Matches(root, s, i, j)
    ensures (exists j: nat :: Matches(root, s, 0, j)) <== exists i: nat, j: nat :: i <= |s| && Matches(root, s, i, j)
  {
    hide Matches, ToEnd, EmptyAtStart;
    if j: nat :| Matches(root, s, 0, j) { assert 0 <= |s| && Matches(root, s, 0, j); }
    if i: nat, j: nat :| i <= |s| && Matches(root, s, i, j) { AlsoAtStart(root, s, i, j); }
  }

  lemma AlsoAtStart(root: Node, s: seq<byte>, i: nat, j: nat)
    requires Valid(root) && KeepsStart(root) && IsString(s) && i <= |s| && Matches(root, s, i, j)
    ensures exists k: nat :: Matches(root, s, 0, k)
  {
    hide Matches, ToEnd, EmptyAtStart;
    OnlyAtStart(root);
    if EmptyAtStart(root) { EmptyStart(root, s); }
  }

  /** Dropping the skip loses nothing where all matches start at the start of the string, or
      where nothing matches there: the program then searches like one that has the skip. */
  lemma DroppedSkipSearches(root: Node, s: seq<byte>, n: nat)
    requires Valid(root) && Anchored(root) && KeepsStart(root) && IsString(s)
    ensures MatchLast(ProgramOf(root))
    ensures var r := Result(ProgramOf(root), s, n);
            (r.Found? <==> exists i: nat, j: nat :: i <= |s| && Matches(root, s, i, j)) &&
            (r.Found? ==> exists j: nat :: Reports(root, s, r.m, 0, j) && Leftmost(root, s, 0))
  {
    hide CodeOf, Count, Valid, Matches, ToEnd, PairOk, Result, EmptyAtStart;
    AnchoredFinds(root, s, n);
    OnlyAtStart(root);
    if EmptyAtStart(root) { EmptyStart(root, s); }
    assert Leftmost(root, s, 0);
    StartOrAnywhere(root, s);
  }

  /** ^*, which can match to the end of a string from anywhere, and is yet found in every
      string: ToEnd alone does not mean that something is lost. */
  const STARRED_START := Quantifier(0, -1, true, AnchorBegin)

  lemma StarredStartFound(s: seq<byte>, n: nat)
    requires IsString(s)
    ensures Valid(STARRED_START) && Anchored(STARRED_START) && ToEnd(STARRED_START) && EmptyAtStart(STARRED_START)
    ensures MatchLast(ProgramOf(STARRED_START))
    ensures var r := Result(ProgramOf(STARRED_START), s, n);
            r.Found? && exists j: nat :: Reports(STARRED_START, s, r.m, 0, j)
  {
    hide ProgramOf, Result, CodeOf, Count, MatchLast, Reports, Matches;
    AnchoredFinds(STARRED_START, s, n);
    EmptyStart(STARRED_START, s);
    assert Matches(STARRED_START, s, 0, 0);
  }

  /** (^a)?b, taken for anchored, and a string in which it matches only after the start. */
  const OPTIONAL_START := Quantifier(0, 1, true, Capture(Concatenation(AnchorBegin, Character(0x61))))
  const MISSED := Concatenation(OPTIONAL_START, Character(0x62))
  const XB: seq<byte> := [0x78, 0x62]

  /** The match of (^a)?b in "xb" is missed. */
  lemma MissedMatch()
    ensures Valid(MISSED) && Anchored(MISSED) && !SureSpine(MISSED) && ToEnd(MISSED) && IsString(XB)
    ensures Matches(MISSED, XB, 1, 2)
    ensures MatchLast(ProgramOf(MISSED)) && Result(ProgramOf(MISSED), XB, 2) == Nothing
  {
    hide ProgramOf, Result, CodeOf, Count, MatchLast, Reports;
    MissedThere();
    AnchoredFinds(MISSED, XB, 2);
    forall j: nat ensures !Matches(MISSED, XB, 0, j) { NotAtStart(j); }
  }

  lemma MissedThere()
    ensures Matches(MISSED, XB, 1, 2)
  {
    assert Repeats(OPTIONAL_START.quantified, 0, XB, 1, 1);
    assert Matches(OPTIONAL_START, XB, 1, 1) && Matches(Character(0x62), XB, 1, 2);
  }

  lemma NotAtStart(j: nat)
    ensures !Matches(MISSED, XB, 0, j)
  {
    var body := OPTIONAL_START.quantified;
    forall k: nat ensures !(Matches(OPTIONAL_START, XB, 0, k) && Matches(Character(0x62), XB, k, j)) {
      if Matches(OPTIONAL_START, XB, 0, k) {
        var c: nat :| 0 <= c && c <= 1 && Repeats(body, c, XB, 0, k);
        if c == 1 { OneRepeat(body, XB, 0, k); }
      }
    }
  }
}
