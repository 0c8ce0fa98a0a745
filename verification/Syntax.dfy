/** Parse trees of cregex.h and what they match. */
module Syntax {
  import opened Bytes
  import opened CharClass

  datatype Node =
    | Epsilon
    | Character(ch: byte)
    | AnyCharacter
    | Class(negated: bool, text: seq<byte>)
    | Concatenation(left: Node, right: Node)
    | Alternation(left: Node, right: Node)
    | Quantifier(nmin: nat, nmax: int, greedy: bool, quantified: Node)
    | AnchorBegin
    | AnchorEnd
    | Capture(captured: Node)

  /** nmax is -1 for "no upper bound". */
  predicate Valid(n: Node) {
    match n
    case Class(_, text) => WellFormed(text, 0)
    case Concatenation(l, r) => Valid(l) && Valid(r)
    case Alternation(l, r) => Valid(l) && Valid(r)
    case Quantifier(nmin, nmax, _, q) => (nmax == -1 || nmin <= nmax) && Valid(q)
    case Capture(c) => Valid(c)
    case _ => true
  }

  /** A tree without subtrees. */
  predicate Leaf(n: Node) {
    !n.Concatenation? && !n.Alternation? && !n.Quantifier? && !n.Capture?
  }

  /** The tree matches the characters i..j of s, anchors being judged by position in s. */
  ghost predicate Matches(n: Node, s: seq<byte>, i: nat, j: nat)
    requires Valid(n)
    decreases n, 0
  {
    match n
    case Epsilon => i == j
    case Character(ch) => i < |s| && s[i] == ch && j == i + 1
    case AnyCharacter => i < |s| && j == i + 1
    case Class(negated, text) => i < |s| && InClass(text, 0, s[i]) != negated && j == i + 1
    case Concatenation(l, r) => exists k: nat :: Matches(l, s, i, k) && Matches(r, s, k, j)
    case Alternation(l, r) => Matches(l, s, i, j) || Matches(r, s, i, j)
    case Quantifier(nmin, nmax, _, q) =>
      exists c: nat :: nmin <= c && (nmax == -1 || c <= nmax) && Repeats(q, c, s, i, j)
    case AnchorBegin => i == j == 0
    case AnchorEnd => i == j == |s|
    case Capture(c) => Matches(c, s, i, j)
  }

  /** c consecutive matches of n. */
  ghost predicate Repeats(n: Node, c: nat, s: seq<byte>, i: nat, j: nat)
    requires Valid(n)
    decreases n, c + 1
  {
    if c == 0 then i == j
    else exists k: nat :: Matches(n, s, i, k) && Repeats(n, c - 1, s, k, j)
  }

  /** Repetitions behind one another add up. */
  lemma {:induction false} RepeatsJoin(n: Node, c: nat, d: nat, s: seq<byte>, i: nat, k: nat, j: nat)
    requires Valid(n)
    requires Repeats(n, c, s, i, k) && Repeats(n, d, s, k, j)
    ensures Repeats(n, c + d, s, i, j)
  {
    if c > 0 {
      var m: nat :| Matches(n, s, i, m) && Repeats(n, c - 1, s, m, k);
      RepeatsJoin(n, c - 1, d, s, m, k, j);
    }
  }

  /** Repetitions can be split anywhere. */
  lemma {:induction false} RepeatsSplit(n: Node, c: nat, d: nat, s: seq<byte>, i: nat, j: nat) returns (k: nat)
    requires Valid(n)
    requires Repeats(n, c + d, s, i, j)
    ensures Repeats(n, c, s, i, k) && Repeats(n, d, s, k, j)
  {
    if c == 0 {
      k := i;
    } else {
      var m: nat :| Matches(n, s, i, m) && Repeats(n, c + d - 1, s, m, j);
      k := RepeatsSplit(n, c - 1, d, s, m, j);
    }
  }

  lemma RepeatsFirst(n: Node, c: nat, s: seq<byte>, i: nat, j: nat) returns (k: nat)
    requires Valid(n) && c > 0 && Repeats(n, c, s, i, j)
    ensures Matches(n, s, i, k) && Repeats(n, c - 1, s, k, j)
  {
    k :| Matches(n, s, i, k) && Repeats(n, c - 1, s, k, j);
  }

  lemma OneRepeat(n: Node, s: seq<byte>, i: nat, j: nat)
    requires Valid(n) && Repeats(n, 1, s, i, j)
    ensures Matches(n, s, i, j)
  {
    var k: nat :| Matches(n, s, i, k) && Repeats(n, 0, s, k, j);
  }

  /** A match is a span of s, wherever it starts inside s. */
  lemma {:induction false} MatchesSpan(n: Node, s: seq<byte>, i: nat, j: nat)
    requires Valid(n) && i <= |s| && Matches(n, s, i, j)
    ensures i <= j <= |s|
    decreases n, 0
  {
    match n
    case Concatenation(l, r) =>
      var k: nat :| Matches(l, s, i, k) && Matches(r, s, k, j);
      MatchesSpan(l, s, i, k);
      MatchesSpan(r, s, k, j);
    case Alternation(l, r) =>
      if Matches(l, s, i, j) { MatchesSpan(l, s, i, j); } else { MatchesSpan(r, s, i, j); }
    case Quantifier(nmin, nmax, _, q) =>
      var c: nat :| nmin <= c && (nmax == -1 || c <= nmax) && Repeats(q, c, s, i, j);
      RepeatsSpan(q, c, s, i, j);
    case Capture(c) => MatchesSpan(c, s, i, j);
    case _ =>
  }

  lemma {:induction false} RepeatsSpan(n: Node, c: nat, s: seq<byte>, i: nat, j: nat)
    requires Valid(n) && i <= |s| && Repeats(n, c, s, i, j)
    ensures i <= j <= |s|
    decreases n, c + 1
  {
    if c > 0 {
      var k: nat :| Matches(n, s, i, k) && Repeats(n, c - 1, s, k, j);
      MatchesSpan(n, s, i, k);
      RepeatsSpan(n, c - 1, s, k, j);
    }
  }
}
