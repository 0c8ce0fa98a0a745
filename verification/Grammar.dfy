/** The grammar of patterns over the parser's tokens, what its phrases denote, and that the
    parser accepts exactly the phrases of the grammar with a tree of the same meaning. */
module Grammar {
  import opened Bytes
  import opened CharClass
  import opened Syntax
  import opened Parsing

  /** Phrases, each with the position behind it:
        Regex  ::= Factor*  |  Factor* '|' Regex
        Factor ::= atom  |  '(' Regex ')'  |  Factor quantifier */
  datatype Regex = Branch(factors: seq<Factor>) | Alternatives(factors: seq<Factor>, rest: Regex)
  datatype Factor =
    | Atom(node: Node, end: nat)
    | Parens(body: Regex, end: nat)
    | Repeat(inner: Factor, nmin: nat, nmax: int, greedy: bool, end: nat)

  function End(i: nat, fs: seq<Factor>): (r: nat) {
    if fs == [] then i else fs[|fs| - 1].end
  }

  function EndOf(i: nat, re: Regex): (r: nat)
    decreases re
  {
    match re
    case Branch(fs) => End(i, fs)
    case Alternatives(fs, rest) => EndOf(End(i, fs) + 1, rest)
  }

  /** The pattern spells the factor from i on; first says that it opens its alternative. */
  predicate FactorAt(p: seq<byte>, i: nat, f: Factor, first: bool)
    requires IsPattern(p)
    decreases f
  {
    i <= |p| &&
    match f
    case Atom(node, end) => TokenAt(p, i, !first) == Push(node, end)
    case Parens(body, end) =>
      TokenAt(p, i, !first) == Group && RegexAt(p, i + 1, body) &&
      EndOf(i + 1, body) <= |p| && Read(p, EndOf(i + 1, body)) == CLOSE && end == EndOf(i + 1, body) + 1
    case Repeat(inner, nmin, nmax, greedy, end) =>
      FactorAt(p, i, inner, first) && inner.end <= |p| &&
      TokenAt(p, inner.end, true) == Requantify(nmin, nmax, greedy, end)
  }

  predicate FactorsAt(p: seq<byte>, i: nat, fs: seq<Factor>)
    requires IsPattern(p)
    decreases fs
  {
    i <= |p| &&
    (fs == [] ||
     var n := |fs| - 1;
     FactorsAt(p, i, fs[..n]) && FactorAt(p, End(i, fs[..n]), fs[n], n == 0))
  }

  predicate RegexAt(p: seq<byte>, i: nat, re: Regex)
    requires IsPattern(p)
    decreases re
  {
    FactorsAt(p, i, re.factors) &&
    (re.Alternatives? ==>
       End(i, re.factors) <= |p| && Read(p, End(i, re.factors)) == BAR && RegexAt(p, End(i, re.factors) + 1, re.rest))
  }

  // ---- The tree of a phrase ----

  function FactorTree(f: Factor): (r: Node) {
    match f
    case Atom(node, _) => node
    case Parens(body, _) => Capture(RegexTree(body))
    case Repeat(inner, nmin, nmax, greedy, _) => Quantifier(nmin, nmax, greedy, FactorTree(inner))
  }

  function Trees(fs: seq<Factor>): (r: seq<Node>)
    ensures |r| == |fs|
  {
    if fs == [] then [] else Trees(fs[..|fs| - 1]) + [FactorTree(fs[|fs| - 1])]
  }

  function RegexTree(re: Regex): (r: Node) {
    match re
    case Branch(fs) => Fold(Trees(fs))
    case Alternatives(fs, rest) => Either(Fold(Trees(fs)), RegexTree(rest))
  }

  // ---- Phrases are accepted ----

  lemma FactorEnds(p: seq<byte>, i: nat, f: Factor, first: bool)
    requires IsPattern(p) && FactorAt(p, i, f, first)
    ensures f.end <= |p|
  {
  }

  lemma FactorsEnd(p: seq<byte>, i: nat, fs: seq<Factor>)
    requires IsPattern(p) && FactorsAt(p, i, fs)
    ensures End(i, fs) <= |p|
  {
  }

  lemma {:induction false} FactorParsed(p: seq<byte>, i: nat, depth: nat, items: seq<Node>, f: Factor)
    requires IsPattern(p) && FactorAt(p, i, f, items == [])
    ensures f.end <= |p|
    ensures Context(p, i, depth, items) == Context(p, f.end, depth, items + [FactorTree(f)])
    decreases f
  {
    hide TokenAt, Context, RegexAt, Read, IsPattern, EndOf, RegexTree, Fold, Either;
    FactorEnds(p, i, f, items == []);
    ContextStep(p, i, depth, items);
    match f
    case Atom(_, _) =>
    case Parens(body, end) =>
      StopAt(p, EndOf(i + 1, body), true);
      RegexParsed(p, i + 1, depth + 1, body);
    case Repeat(inner, nmin, nmax, greedy, end) =>
      FactorParsed(p, i, depth, items, inner);
      var all := items + [FactorTree(inner)];
      ContextStep(p, inner.end, depth, all);
      assert Requantified(all, nmin, nmax, greedy) == items + [FactorTree(f)];
  }

  lemma StopAt(p: seq<byte>, k: nat, some: bool)
    requires IsPattern(p) && k <= |p|
    ensures TokenAt(p, k, some) == Stop(true) <==> Read(p, k) == CLOSE
    ensures TokenAt(p, k, some) == Stop(false) <==> k == |p|
    ensures TokenAt(p, k, some) == Alternative <==> Read(p, k) == BAR
    ensures TokenAt(p, k, some) == Group <==> Read(p, k) == OPEN
  {
  }

  lemma {:induction false} FactorsParsed(p: seq<byte>, i: nat, depth: nat, fs: seq<Factor>)
    requires IsPattern(p) && FactorsAt(p, i, fs)
    ensures End(i, fs) <= |p|
    ensures Context(p, i, depth, []) == Context(p, End(i, fs), depth, Trees(fs))
    decreases fs
  {
    hide TokenAt, FactorAt, Context;
    FactorsEnd(p, i, fs);
    if fs != [] {
      var n := |fs| - 1;
      FactorsParsed(p, i, depth, fs[..n]);
      FactorParsed(p, End(i, fs[..n]), depth, Trees(fs[..n]), fs[n]);
    }
  }

  /** A phrase followed by the end that fits its depth is accepted with the tree of the phrase. */
  lemma {:induction false} RegexParsed(p: seq<byte>, i: nat, depth: nat, re: Regex)
    requires IsPattern(p) && RegexAt(p, i, re)
    requires EndOf(i, re) <= |p| && if depth > 0 then Read(p, EndOf(i, re)) == CLOSE else EndOf(i, re) == |p|
    ensures i <= |p| && Context(p, i, depth, []) == Accepted(RegexTree(re), EndOf(i, re) + 1)
    decreases re
  {
    hide TokenAt, FactorAt, FactorsAt;
    FactorsParsed(p, i, depth, re.factors);
    StopAt(p, End(i, re.factors), re.factors != []);
    if re.Alternatives? {
      RegexParsed(p, End(i, re.factors) + 1, depth, re.rest);
    }
  }

  // ---- Whatever is accepted is a phrase ----

  /** The context's outcome is that of a phrase from i on, of which fs are the first factors. */
  predicate Phrased(p: seq<byte>, i: nat, sp: nat, depth: nat, fs: seq<Factor>, re: Regex)
    requires IsPattern(p)
  {
    sp <= |p| && RegexAt(p, i, re) && EndOf(i, re) <= |p| &&
    (if depth > 0 then Read(p, EndOf(i, re)) == CLOSE else EndOf(i, re) == |p|) &&
    Context(p, sp, depth, Trees(fs)) == Accepted(RegexTree(re), EndOf(i, re) + 1)
  }

  lemma {:induction false} ContextSound(p: seq<byte>, i: nat, sp: nat, depth: nat, fs: seq<Factor>) returns (re: Regex)
    requires IsPattern(p) && FactorsAt(p, i, fs) && End(i, fs) == sp <= |p|
    requires Context(p, sp, depth, Trees(fs)).Accepted?
    ensures RegexAt(p, i, re)
    ensures EndOf(i, re) <= |p| && if depth > 0 then Read(p, EndOf(i, re)) == CLOSE else EndOf(i, re) == |p|
    ensures Context(p, sp, depth, Trees(fs)) == Accepted(RegexTree(re), EndOf(i, re) + 1)
    decreases |p| - sp, 1
  {
    hide Context, TokenAt, FactorsAt, FactorAt, RegexAt, Trees, End, EndOf, RegexTree, Read, IsPattern;
    match TokenAt(p, sp, Trees(fs) != [])
    case Push(node, next) => re := AtomSound(p, i, sp, depth, fs, node, next);
    case Requantify(nmin, nmax, greedy, next) => re := RepeatSound(p, i, sp, depth, fs, nmin, nmax, greedy, next);
    case Alternative => re := AlternativeSound(p, i, sp, depth, fs);
    case Group => re := GroupSound(p, i, sp, depth, fs);
    case Stop(paren) => re := StopSound(p, i, sp, depth, fs, paren);
    case _ => ContextStep(p, sp, depth, Trees(fs));
  }

  lemma {:induction false} AtomSound(p: seq<byte>, i: nat, sp: nat, depth: nat, fs: seq<Factor>, node: Node, next: nat)
    returns (re: Regex)
    requires IsPattern(p) && FactorsAt(p, i, fs) && End(i, fs) == sp <= |p|
    requires Context(p, sp, depth, Trees(fs)).Accepted? && TokenAt(p, sp, Trees(fs) != []) == Push(node, next)
    ensures Phrased(p, i, sp, depth, fs, re)
    decreases |p| - sp, 0
  {
    hide Context, TokenAt, FactorsAt, FactorAt, RegexAt, Trees, End, EndOf, RegexTree, Read, IsPattern;
    ContextStep(p, sp, depth, Trees(fs));
    AtomNext(p, i, fs, node, next);
    re := ContextSound(p, i, next, depth, fs + [Atom(node, next)]);
  }

  lemma {:induction false} RepeatSound(p: seq<byte>, i: nat, sp: nat, depth: nat, fs: seq<Factor>, nmin: nat, nmax: int,
                                       greedy: bool, next: nat)
    returns (re: Regex)
    requires IsPattern(p) && FactorsAt(p, i, fs) && End(i, fs) == sp <= |p|
    requires Context(p, sp, depth, Trees(fs)).Accepted?
    requires TokenAt(p, sp, Trees(fs) != []) == Requantify(nmin, nmax, greedy, next)
    ensures Phrased(p, i, sp, depth, fs, re)
    decreases |p| - sp, 0
  {
    hide Context, TokenAt, FactorsAt, FactorAt, RegexAt, Trees, End, EndOf, RegexTree, Read, IsPattern, Requantified;
    ContextStep(p, sp, depth, Trees(fs));
    var fs' := RepeatNext(p, i, fs, nmin, nmax, greedy, next);
    re := ContextSound(p, i, next, depth, fs');
  }

  lemma {:induction false} AlternativeSound(p: seq<byte>, i: nat, sp: nat, depth: nat, fs: seq<Factor>) returns (re: Regex)
    requires IsPattern(p) && FactorsAt(p, i, fs) && End(i, fs) == sp <= |p|
    requires Context(p, sp, depth, Trees(fs)).Accepted? && TokenAt(p, sp, Trees(fs) != []) == Alternative
    ensures Phrased(p, i, sp, depth, fs, re)
    decreases |p| - sp, 0
  {
    hide Context, TokenAt, FactorsAt, FactorAt, Trees, End, Read, IsPattern, Fold, Either;
    ContextStep(p, sp, depth, Trees(fs));
    StopAt(p, sp, Trees(fs) != []);
    var rest := ContextSound(p, sp + 1, sp + 1, depth, NoFactors(p, sp + 1));
    re := Alternatives(fs, rest);
  }

  lemma {:induction false} GroupSound(p: seq<byte>, i: nat, sp: nat, depth: nat, fs: seq<Factor>) returns (re: Regex)
    requires IsPattern(p) && FactorsAt(p, i, fs) && End(i, fs) == sp <= |p|
    requires Context(p, sp, depth, Trees(fs)).Accepted? && TokenAt(p, sp, Trees(fs) != []) == Group
    ensures Phrased(p, i, sp, depth, fs, re)
    decreases |p| - sp, 0
  {
    hide Context, TokenAt, FactorsAt, FactorAt, RegexAt, Trees, End, EndOf, RegexTree, Read, IsPattern;
    ContextStep(p, sp, depth, Trees(fs));
    var body := ContextSound(p, sp + 1, sp + 1, depth + 1, NoFactors(p, sp + 1));
    ParensNext(p, i, fs, body);
    re := ContextSound(p, i, EndOf(sp + 1, body) + 1, depth, fs + [Parens(body, EndOf(sp + 1, body) + 1)]);
  }

  lemma StopSound(p: seq<byte>, i: nat, sp: nat, depth: nat, fs: seq<Factor>, paren: bool) returns (re: Regex)
    requires IsPattern(p) && FactorsAt(p, i, fs) && End(i, fs) == sp <= |p|
    requires Context(p, sp, depth, Trees(fs)).Accepted? && TokenAt(p, sp, Trees(fs) != []) == Stop(paren)
    ensures Phrased(p, i, sp, depth, fs, re)
  {
    hide Context, TokenAt, FactorsAt, FactorAt, Trees, End, Read, IsPattern, Fold;
    ContextStep(p, sp, depth, Trees(fs));
    StopAt(p, sp, Trees(fs) != []);
    re := Branch(fs);
  }

  function NoFactors(p: seq<byte>, i: nat): (fs: seq<Factor>)
    requires IsPattern(p) && i <= |p|
    ensures fs == [] && FactorsAt(p, i, fs) && End(i, fs) == i && Trees(fs) == []
  {
    []
  }

  lemma AtomNext(p: seq<byte>, i: nat, fs: seq<Factor>, node: Node, next: nat)
    requires IsPattern(p) && FactorsAt(p, i, fs) && End(i, fs) <= |p|
    requires TokenAt(p, End(i, fs), Trees(fs) != []) == Push(node, next)
    ensures var fs' := fs + [Atom(node, next)];
            FactorsAt(p, i, fs') && End(i, fs') == next && Trees(fs') == Trees(fs) + [node]
  {
    FactorsSnoc(p, i, fs, Atom(node, next));
  }

  lemma RepeatNext(p: seq<byte>, i: nat, fs: seq<Factor>, nmin: nat, nmax: int, greedy: bool, next: nat)
    returns (fs': seq<Factor>)
    requires IsPattern(p) && FactorsAt(p, i, fs) && End(i, fs) <= |p|
    requires TokenAt(p, End(i, fs), Trees(fs) != []) == Requantify(nmin, nmax, greedy, next)
    ensures fs != [] && FactorsAt(p, i, fs') && End(i, fs') == next
    ensures Trees(fs') == Requantified(Trees(fs), nmin, nmax, greedy)
  {
    hide TokenAt;
    var init, last := fs[..|fs| - 1], fs[|fs| - 1];
    var f := Repeat(last, nmin, nmax, greedy, next);
    FactorsSnoc(p, i, init, f);
    fs' := init + [f];
    assert Trees(fs)[..|fs| - 1] == Trees(init);
  }

  lemma ParensNext(p: seq<byte>, i: nat, fs: seq<Factor>, body: Regex)
    requires IsPattern(p) && FactorsAt(p, i, fs) && End(i, fs) < |p| && TokenAt(p, End(i, fs), Trees(fs) != []) == Group
    requires RegexAt(p, End(i, fs) + 1, body) && EndOf(End(i, fs) + 1, body) <= |p|
    requires Read(p, EndOf(End(i, fs) + 1, body)) == CLOSE
    ensures var end := EndOf(End(i, fs) + 1, body) + 1;
            var fs' := fs + [Parens(body, end)];
            FactorsAt(p, i, fs') && End(i, fs') == end && Trees(fs') == Trees(fs) + [Capture(RegexTree(body))]
  {
    hide TokenAt;
    FactorsSnoc(p, i, fs, Parens(body, EndOf(End(i, fs) + 1, body) + 1));
  }

  lemma FactorsSnoc(p: seq<byte>, i: nat, fs: seq<Factor>, f: Factor)
    requires IsPattern(p) && FactorsAt(p, i, fs) && FactorAt(p, End(i, fs), f, fs == [])
    ensures FactorsAt(p, i, fs + [f]) && End(i, fs + [f]) == f.end && Trees(fs + [f]) == Trees(fs) + [FactorTree(f)]
  {
    assert (fs + [f])[..|fs|] == fs;
  }

  /** The pattern is a phrase of the grammar. */
  ghost predicate Phrase(p: seq<byte>, re: Regex)
    requires IsPattern(p)
  {
    RegexAt(p, 0, re) && EndOf(0, re) == |p|
  }

  /** cregex_parse accepts exactly the phrases, with their trees. */
  lemma ParserAcceptsPhrases(p: seq<byte>)
    requires IsPattern(p)
    ensures forall re :: Phrase(p, re) ==> Parse(p) == Accepted(RegexTree(re), |p| + 1)
    ensures Parse(p).Accepted? ==> exists re :: Phrase(p, re)
  {
    forall re | Phrase(p, re) ensures Parse(p) == Accepted(RegexTree(re), |p| + 1) { RegexParsed(p, 0, 0, re); }
    if Parse(p).Accepted? {
      var re := ContextSound(p, 0, 0, 0, []);
      assert Phrase(p, re);
    }
  }

  // ---- What phrases denote ----

  ghost predicate RegexDenotes(re: Regex, s: seq<byte>, i: nat, j: nat)
    decreases re, 0
  {
    FactorsDenote(re.factors, s, i, j) || (re.Alternatives? && RegexDenotes(re.rest, s, i, j))
  }

  ghost predicate FactorsDenote(fs: seq<Factor>, s: seq<byte>, i: nat, j: nat)
    decreases fs, 0
  {
    if fs == [] then i == j
    else exists k: nat :: FactorDenotes(fs[0], s, i, k) && FactorsDenote(fs[1..], s, k, j)
  }

  ghost predicate FactorDenotes(f: Factor, s: seq<byte>, i: nat, j: nat)
    decreases f, 0
  {
    match f
    case Atom(node, _) => Valid(node) && Matches(node, s, i, j)
    case Parens(body, _) => RegexDenotes(body, s, i, j)
    case Repeat(inner, nmin, nmax, _, _) =>
      exists c: nat :: nmin <= c && (nmax == -1 || c <= nmax) && FactorRepeats(inner, c, s, i, j)
  }

  ghost predicate FactorRepeats(f: Factor, c: nat, s: seq<byte>, i: nat, j: nat)
    decreases f, c + 1
  {
    if c == 0 then i == j
    else exists k: nat :: FactorDenotes(f, s, i, k) && FactorRepeats(f, c - 1, s, k, j)
  }

  /** The tree of two alternatives matches what either matches, also when one is empty. */
  lemma EitherMatches(l: Node, r: Node, s: seq<byte>, i: nat, j: nat)
    requires Valid(l) && Valid(r)
    ensures Valid(Either(l, r))
    ensures Matches(Either(l, r), s, i, j) <==> Matches(l, s, i, j) || Matches(r, s, i, j)
  {
    if l == Epsilon && r != Epsilon { OptionalMatches(r, s, i, j); }
    if r == Epsilon && l != Epsilon { OptionalMatches(l, s, i, j); }
  }

  lemma OptionalMatches(q: Node, s: seq<byte>, i: nat, j: nat)
    requires Valid(q)
    ensures Matches(Quantifier(0, 1, true, q), s, i, j) <==> i == j || Matches(q, s, i, j)
  {
    if i == j { assert Repeats(q, 0, s, i, j); }
    if Matches(q, s, i, j) {
      assert Repeats(q, 0, s, j, j);
      assert Repeats(q, 1, s, i, j);
    }
    if Matches(Quantifier(0, 1, true, q), s, i, j) {
      var c: nat :| 0 <= c && c <= 1 && Repeats(q, c, s, i, j);
      if c == 1 {
        var k: nat :| Matches(q, s, i, k) && Repeats(q, 0, s, k, j);
      }
    }
  }

  lemma {:induction false} TreesCons(fs: seq<Factor>)
    requires fs != []
    ensures Trees(fs) == [FactorTree(fs[0])] + Trees(fs[1..])
  {
    var n := |fs| - 1;
    if n > 0 {
      TreesCons(fs[..n]);
      assert fs[..n][1..] == fs[1..][..n - 1];
      assert Trees(fs[1..]) == Trees(fs[1..][..n - 1]) + [FactorTree(fs[n])];
    }
  }

  /** The meaning of the tree is the meaning of the phrase. */
  lemma {:induction false} RegexLanguage(re: Regex, s: seq<byte>, i: nat, j: nat)
    requires Valid(RegexTree(re))
    ensures Matches(RegexTree(re), s, i, j) <==> RegexDenotes(re, s, i, j)
    decreases re, 0
  {
    hide Matches, Fold, Either, Trees, FactorsDenote;
    var head := Fold(Trees(re.factors));
    if re.Alternatives? {
      EitherValid(head, RegexTree(re.rest));
      EitherMatches(head, RegexTree(re.rest), s, i, j);
      RegexLanguage(re.rest, s, i, j);
    }
    FactorsLanguage(re.factors, s, i, j);
  }

  lemma EitherValid(l: Node, r: Node)
    requires Valid(Either(l, r))
    ensures Valid(l) && Valid(r)
  {
  }

  lemma {:induction false} FactorsLanguage(fs: seq<Factor>, s: seq<byte>, i: nat, j: nat)
    requires Valid(Fold(Trees(fs)))
    ensures Matches(Fold(Trees(fs)), s, i, j) <==> FactorsDenote(fs, s, i, j)
    decreases fs, 0
  {
    hide FactorDenotes, FactorTree, Fold;
    if fs == [] {
      NoItems();
    } else {
      TreesCons(fs);
      var head, rest := FactorTree(fs[0]), Trees(fs[1..]);
      FoldParts(head, rest);
      if Matches(Fold(Trees(fs)), s, i, j) {
        var k := FoldSplits(head, rest, s, i, j);
        FactorLanguage(fs[0], s, i, k);
        FactorsLanguage(fs[1..], s, k, j);
      }
      if FactorsDenote(fs, s, i, j) {
        var k := FactorsSplit(fs, s, i, j);
        FactorLanguage(fs[0], s, i, k);
        FactorsLanguage(fs[1..], s, k, j);
        FoldJoins(head, rest, s, i, k, j);
      }
    }
  }

  lemma FactorsSplit(fs: seq<Factor>, s: seq<byte>, i: nat, j: nat) returns (k: nat)
    requires fs != [] && FactorsDenote(fs, s, i, j)
    ensures FactorDenotes(fs[0], s, i, k) && FactorsDenote(fs[1..], s, k, j)
  {
    k :| FactorDenotes(fs[0], s, i, k) && FactorsDenote(fs[1..], s, k, j);
  }

  lemma NoItems()
    ensures Fold([]) == Epsilon
  {
  }

  /** A folded context matches its first item and then the rest. */
  lemma FoldSplits(head: Node, rest: seq<Node>, s: seq<byte>, i: nat, j: nat) returns (k: nat)
    requires Valid(Fold([head] + rest)) && Valid(head) && Valid(Fold(rest)) && Matches(Fold([head] + rest), s, i, j)
    ensures Matches(head, s, i, k) && Matches(Fold(rest), s, k, j)
  {
    assert ([head] + rest)[1..] == rest;
    if rest == [] {
      k := j;
    } else {
      k :| Matches(head, s, i, k) && Matches(Fold(rest), s, k, j);
    }
  }

  lemma FoldJoins(head: Node, rest: seq<Node>, s: seq<byte>, i: nat, k: nat, j: nat)
    requires Valid(Fold([head] + rest)) && Valid(head) && Valid(Fold(rest))
    requires Matches(head, s, i, k) && Matches(Fold(rest), s, k, j)
    ensures Matches(Fold([head] + rest), s, i, j)
  {
    assert ([head] + rest)[1..] == rest;
  }

  lemma FoldParts(head: Node, rest: seq<Node>)
    requires Valid(Fold([head] + rest))
    ensures Valid(head) && Valid(Fold(rest))
  {
    assert ([head] + rest)[1..] == rest;
  }

  lemma {:induction false} FactorLanguage(f: Factor, s: seq<byte>, i: nat, j: nat)
    requires Valid(FactorTree(f))
    ensures Matches(FactorTree(f), s, i, j) <==> FactorDenotes(f, s, i, j)
    decreases f, 0
  {
    hide RegexDenotes, Repeats, FactorRepeats, RegexTree;
    match f
    case Atom(_, _) =>
    case Parens(body, _) => RegexLanguage(body, s, i, j);
    case Repeat(inner, nmin, nmax, _, _) =>
      forall c: nat ensures Repeats(FactorTree(inner), c, s, i, j) <==> FactorRepeats(inner, c, s, i, j) {
        RepeatLanguage(inner, c, s, i, j);
      }
  }

  lemma {:induction false} RepeatLanguage(f: Factor, c: nat, s: seq<byte>, i: nat, j: nat)
    requires Valid(FactorTree(f))
    ensures Repeats(FactorTree(f), c, s, i, j) <==> FactorRepeats(f, c, s, i, j)
    decreases f, c + 1
  {
    hide Matches, FactorDenotes, FactorTree;
    if c > 0 {
      var less := c - 1;
      forall k: nat ensures Matches(FactorTree(f), s, i, k) <==> FactorDenotes(f, s, i, k) { FactorLanguage(f, s, i, k); }
      forall k: nat ensures Repeats(FactorTree(f), less, s, k, j) <==> FactorRepeats(f, less, s, k, j) {
        RepeatLanguage(f, less, s, k, j);
      }
    }
  }

  /** For every accepted pattern, the parser's tree matches exactly what the pattern denotes
      as a phrase of the grammar. */
  lemma ParsedMeaning(p: seq<byte>, re: Regex, s: seq<byte>, i: nat, j: nat)
    requires IsPattern(p) && Phrase(p, re)
    ensures Parse(p).Accepted? && Valid(Parse(p).tree)
    ensures Matches(Parse(p).tree, s, i, j) <==> RegexDenotes(re, s, i, j)
  {
    RegexParsed(p, 0, 0, re);
    ContextValid(p, 0, 0, []);
    RegexLanguage(re, s, i, j);
  }

  // ---- Intervals ----

  /** The bound after the lower one: the same, none, or a number. */
  datatype Upper = Same | Unbounded | UpTo(digits: seq<byte>)

  predicate Digits(ds: seq<byte>) {
    forall k :: 0 <= k < |ds| ==> IsDigit(ds[k])
  }

  function Value(ds: seq<byte>): (r: nat)
    requires Digits(ds)
  {
    if ds == [] then 0 else Value(ds[..|ds| - 1]) * 10 + (ds[|ds| - 1] - 0x30)
  }

  /** The text of an interval behind its opening brace. */
  function IntervalText(ds: seq<byte>, upper: Upper): (r: seq<byte>) {
    match upper
    case Same => ds + [CLOSE_BRACE]
    case Unbounded => ds + [COMMA, CLOSE_BRACE]
    case UpTo(es) => ds + [COMMA] + es + [CLOSE_BRACE]
  }

  /** A lower bound may be left out only before an upper one, which must not be below it. */
  predicate GoodInterval(ds: seq<byte>, upper: Upper) {
    Digits(ds) && (ds == [] ==> upper.UpTo?) &&
    (upper.UpTo? ==> upper.digits != [] && Digits(upper.digits) && Value(ds) <= Value(upper.digits))
  }

  function UpperValue(ds: seq<byte>, upper: Upper): (r: int)
    requires GoodInterval(ds, upper)
  {
    match upper
    case Same => Value(ds)
    case Unbounded => -1
    case UpTo(es) => Value(es)
  }

  /** The digits read from k on end at the first character that is none. */
  lemma {:induction false} DigitsRead(p: seq<byte>, from: nat, k: nat, n: nat)
    requires from <= k <= n <= |p| && Digits(p[from..n]) && !IsDigit(Read(p, n))
    ensures Digits(p[from..k]) && DigitsAt(p, k, Value(p[from..k])) == Number(Value(p[from..n]), n)
    decreases n - k
  {
    assert forall x :: from <= x < n ==> p[x] == p[from..n][x - from];
    if k < n {
      DigitsRead(p, from, k + 1, n);
      assert p[from..k + 1][..k - from] == p[from..k];
    }
  }

  lemma {:induction false} DigitsStop(p: seq<byte>, k: nat, acc: nat)
    requires k <= |p|
    ensures Digits(p[k..DigitsAt(p, k, acc).next]) && !IsDigit(Read(p, DigitsAt(p, k, acc).next))
    decreases |p| - k
  {
    if IsDigit(Read(p, k)) {
      DigitsStop(p, k + 1, acc * 10 + (p[k] - 0x30));
      var n := DigitsAt(p, k, acc).next;
      assert p[k..n] == [p[k]] + p[k + 1..n];
    }
  }

  /** The number read at k is the value of its digits. */
  lemma DigitsValue(p: seq<byte>, k: nat)
    requires k <= |p|
    ensures var a := DigitsAt(p, k, 0); Digits(p[k..a.next]) && a.value == Value(p[k..a.next])
  {
    DigitsStop(p, k, 0);
    DigitsRead(p, k, k, DigitsAt(p, k, 0).next);
  }

  /** What the parser takes for an interval is one. */
  lemma IntervalSound(p: seq<byte>, from: nat) returns (ds: seq<byte>, upper: Upper)
    requires from <= |p| && IntervalAt(p, from).Interval?
    ensures GoodInterval(ds, upper) && IntervalAt(p, from).nmin == Value(ds)
    ensures IntervalAt(p, from).nmax == UpperValue(ds, upper)
    ensures p[from..IntervalAt(p, from).next] == IntervalText(ds, upper)
  {
    hide DigitsAt, Value;
    DigitsValue(p, from);
    var a, r := DigitsAt(p, from, 0), IntervalAt(p, from);
    ds := p[from..a.next];
    if Read(p, a.next) == COMMA {
      DigitsValue(p, a.next + 1);
      if Read(p, from) != COMMA && Read(p, a.next + 1) == CLOSE_BRACE {
        upper := Unbounded;
      } else {
        upper := UpTo(p[a.next + 1..DigitsAt(p, a.next + 1, 0).next]);
      }
    } else {
      upper := Same;
    }
  }

  lemma IntervalSame(p: seq<byte>, from: nat, n: nat)
    requires from < n <= |p| && Digits(p[from..n]) && Read(p, n) == CLOSE_BRACE
    ensures IntervalAt(p, from) == Interval(Value(p[from..n]), Value(p[from..n]), n + 1)
  {
    hide DigitsAt, Value;
    DigitsFrom(p, from, n);
    assert IsDigit(p[from..n][0]);
  }

  lemma IntervalOpen(p: seq<byte>, from: nat, n: nat)
    requires from < n < |p| && Digits(p[from..n]) && Read(p, n) == COMMA && Read(p, n + 1) == CLOSE_BRACE
    ensures IntervalAt(p, from) == Interval(Value(p[from..n]), -1, n + 2)
  {
    hide DigitsAt, Value;
    DigitsFrom(p, from, n);
    assert IsDigit(p[from..n][0]);
  }

  lemma IntervalUpTo(p: seq<byte>, from: nat, n: nat, k: nat)
    requires from <= n && n + 1 < k <= |p| && Digits(p[from..n]) && Read(p, n) == COMMA
    requires Digits(p[n + 1..k]) && Read(p, k) == CLOSE_BRACE && Value(p[from..n]) <= Value(p[n + 1..k])
    ensures IntervalAt(p, from) == Interval(Value(p[from..n]), Value(p[n + 1..k]), k + 1)
  {
    hide DigitsAt, Value;
    DigitsFrom(p, from, n);
    DigitsFrom(p, n + 1, k);
    assert IsDigit(p[n + 1..k][0]);
  }

  /** Every interval is taken for one, with its bounds. */
  lemma IntervalComplete(p: seq<byte>, from: nat, ds: seq<byte>, upper: Upper)
    requires GoodInterval(ds, upper) && from + |IntervalText(ds, upper)| <= |p|
    requires p[from..from + |IntervalText(ds, upper)|] == IntervalText(ds, upper)
    ensures IntervalAt(p, from) == Interval(Value(ds), UpperValue(ds, upper), from + |IntervalText(ds, upper)|)
  {
    hide DigitsAt, Value, IsPattern, IntervalAt, IsDigit, Read;
    match upper
    case Same => SameComplete(p, from, ds);
    case Unbounded => OpenComplete(p, from, ds);
    case UpTo(es) => UpToComplete(p, from, ds, es);
  }

  lemma SameComplete(p: seq<byte>, from: nat, ds: seq<byte>)
    requires Digits(ds) && ds != [] && from + |ds| + 1 <= |p|
    requires p[from..from + |ds| + 1] == ds + [CLOSE_BRACE]
    ensures IntervalAt(p, from) == Interval(Value(ds), Value(ds), from + |ds| + 1)
  {
    hide *;
    Within(p, from, from + |ds|, from + |ds| + 1, ds, [CLOSE_BRACE]);
    ReadHere(p, from + |ds|);
    IntervalSame(p, from, from + |ds|);
  }

  lemma OpenComplete(p: seq<byte>, from: nat, ds: seq<byte>)
    requires Digits(ds) && ds != [] && from + |ds| + 2 <= |p|
    requires p[from..from + |ds| + 2] == ds + [COMMA, CLOSE_BRACE]
    ensures IntervalAt(p, from) == Interval(Value(ds), -1, from + |ds| + 2)
  {
    hide *;
    var n := from + |ds|;
    Within(p, from, n, n + 2, ds, [COMMA, CLOSE_BRACE]);
    assert p[n + 1] == p[n..n + 2][1];
    ReadHere(p, n);
    ReadHere(p, n + 1);
    IntervalOpen(p, from, n);
  }

  lemma UpToComplete(p: seq<byte>, from: nat, ds: seq<byte>, es: seq<byte>)
    requires Digits(ds) && Digits(es) && es != [] && Value(ds) <= Value(es) && from + |ds| + |es| + 2 <= |p|
    requires p[from..from + |ds| + |es| + 2] == ds + [COMMA] + es + [CLOSE_BRACE]
    ensures IntervalAt(p, from) == Interval(Value(ds), Value(es), from + |ds| + |es| + 2)
  {
    hide *;
    var n := from + |ds|;
    var k := n + 1 + |es|;
    Within(p, from, k, k + 1, ds + [COMMA] + es, [CLOSE_BRACE]);
    Within(p, from, n + 1, k, ds + [COMMA], es);
    Within(p, from, n, n + 1, ds, [COMMA]);
    ReadHere(p, n);
    ReadHere(p, k);
    IntervalUpTo(p, from, n, k);
  }

  /** The two parts of a text that stands at from. */
  lemma Within(p: seq<byte>, from: nat, k: nat, e: nat, a: seq<byte>, b: seq<byte>)
    requires b != [] && k == from + |a| && e == k + |b| && e <= |p| && p[from..e] == a + b
    ensures p[from..k] == a && p[k..e] == b && p[k] == b[0]
  {
    assert p[from..k] == (a + b)[..|a|];
    assert p[k..e] == (a + b)[|a|..];
    assert p[k] == p[k..e][0];
  }

  lemma ReadHere(p: seq<byte>, i: nat)
    requires i < |p|
    ensures Read(p, i) == p[i]
  {
  }

  lemma DigitsFrom(p: seq<byte>, from: nat, n: nat)
    requires from <= n <= |p| && Digits(p[from..n]) && !IsDigit(Read(p, n))
    ensures DigitsAt(p, from, 0) == Number(Value(p[from..n]), n)
  {
    DigitsRead(p, from, from, n);
  }

  // ---- The end of the pattern ----

  /** Only a pattern that ends in a backslash is read past its end. */
  lemma {:induction false} OverrunEnds(p: seq<byte>, sp: nat, depth: nat, items: seq<Node>)
    requires IsPattern(p) && sp <= |p| && Context(p, sp, depth, items) == Overrun
    ensures p != [] && p[|p| - 1] == BACKSLASH
    decreases |p| - sp
  {
    hide Fold;
    match TokenAt(p, sp, items != [])
    case Push(node, next) => OverrunEnds(p, next, depth, items + [node]);
    case Requantify(nmin, nmax, greedy, next) => OverrunEnds(p, next, depth, Requantified(items, nmin, nmax, greedy));
    case Alternative => OverrunEnds(p, sp + 1, depth, []);
    case Group =>
      var body := Context(p, sp + 1, depth + 1, []);
      if body.Accepted? {
        OverrunEnds(p, body.sp, depth, items + [Capture(body.tree)]);
      } else {
        OverrunEnds(p, sp + 1, depth + 1, []);
      }
    case Cut =>
  }
}
