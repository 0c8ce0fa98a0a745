/** The ways in which a tree can match: the branch every alternation takes and the copies of
    every quantifier, what a way does to the captures, and which of two ways is preferred. */
module Ways {
  import opened Bytes
  import opened CharClass
  import opened Syntax
  import opened Program
  import opened Codegen

  datatype Way =
    | Plain
    | Both(first: Way, second: Way)
    | First(way: Way)
    | Second(way: Way)
    | Repeated(copies: Rounds)

  /** The copies of a quantified tree in order. Only optional copies can be skipped. */
  datatype Rounds = Done | Skipped(rest: Rounds) | Taken(way: Way, rest: Rounds)

  /** Where a way that starts at i ends. */
  function WayEnd(n: Node, i: nat, w: Way): (r: nat)
    decreases w, n
  {
    match n
    case Epsilon => i
    case AnchorBegin => i
    case AnchorEnd => i
    case Concatenation(l, r) => if w.Both? then WayEnd(r, WayEnd(l, i, w.first), w.second) else i
    case Alternation(l, r) => if w.First? then WayEnd(l, i, w.way) else if w.Second? then WayEnd(r, i, w.way) else i
    case Quantifier(_, _, _, q) => if w.Repeated? then RoundsEnd(q, i, w.copies) else i
    case Capture(x) => WayEnd(x, i, w)
    case _ => i + 1
  }

  function RoundsEnd(q: Node, i: nat, cs: Rounds): (r: nat)
    decreases cs, q
  {
    match cs
    case Done => i
    case Skipped(rest) => RoundsEnd(q, i, rest)
    case Taken(w, rest) => RoundsEnd(q, WayEnd(q, i, w), rest)
  }

  /** The copies are as many as the bounds ask for. Between two bounds every copy is there,
      the optional ones taken or skipped each on its own. */
  predicate Counted(cs: Rounds, nmin: nat, nmax: int) {
    match cs
    case Done => nmin == 0 && nmax <= 0
    case Skipped(rest) => nmin == 0 && nmax > 0 && Counted(rest, 0, nmax - 1)
    case Taken(_, rest) =>
      nmax != 0 && Counted(rest, if nmin > 0 then nmin - 1 else 0, if nmax > 0 then nmax - 1 else nmax)
  }

  /** n can match s from i on in this way. */
  predicate Fits(n: Node, s: seq<byte>, i: nat, w: Way)
    requires Valid(n)
    decreases w, n
  {
    match n
    case Epsilon => w.Plain?
    case Character(ch) => w.Plain? && i < |s| && s[i] == ch
    case AnyCharacter => w.Plain? && i < |s|
    case Class(negated, text) => w.Plain? && i < |s| && InClass(text, 0, s[i]) != negated
    case Concatenation(l, r) => w.Both? && Fits(l, s, i, w.first) && Fits(r, s, WayEnd(l, i, w.first), w.second)
    case Alternation(l, r) => (w.First? && Fits(l, s, i, w.way)) || (w.Second? && Fits(r, s, i, w.way))
    case Quantifier(nmin, nmax, _, q) => w.Repeated? && Counted(w.copies, nmin, nmax) && AllFit(q, s, i, w.copies)
    case AnchorBegin => w.Plain? && i == 0
    case AnchorEnd => w.Plain? && i == |s|
    case Capture(x) => Fits(x, s, i, w)
  }

  predicate AllFit(q: Node, s: seq<byte>, i: nat, cs: Rounds)
    requires Valid(q)
    decreases cs, q
  {
    match cs
    case Done => true
    case Skipped(rest) => AllFit(q, s, i, rest)
    case Taken(w, rest) => Fits(q, s, i, w) && AllFit(q, s, WayEnd(q, i, w), rest)
  }

  /** x is preferred to y: at the first difference an alternation takes its first branch, a
      greedy quantifier takes one more copy, and a lazy one does not. */
  predicate Better(n: Node, x: Way, y: Way)
    decreases x, n
  {
    match n
    case Concatenation(l, r) =>
      x.Both? && y.Both? && if x.first == y.first then Better(r, x.second, y.second) else Better(l, x.first, y.first)
    case Alternation(l, r) =>
      if x.First? then y.Second? || (y.First? && Better(l, x.way, y.way))
      else x.Second? && y.Second? && Better(r, x.way, y.way)
    case Quantifier(_, _, greedy, q) => x.Repeated? && y.Repeated? && BetterCopies(q, greedy, x.copies, y.copies)
    case Capture(c) => Better(c, x, y)
    case _ => false
  }

  predicate BetterCopies(q: Node, greedy: bool, x: Rounds, y: Rounds)
    decreases x, q
  {
    if x.Taken? && y.Taken? then
      if x.way == y.way then BetterCopies(q, greedy, x.rest, y.rest) else Better(q, x.way, y.way)
    else if x.Taken? then greedy
    else if y.Taken? then !greedy
    else x.Skipped? && y.Skipped? && BetterCopies(q, greedy, x.rest, y.rest)
  }

  function Put(m: Slots, k: nat, i: nat): (r: Slots)
    ensures |r| == |m|
  {
    if k < |m| then m[k := At(i)] else m
  }

  /** What a way leaves in the slots, the captures of n being numbered from c. */
  function Captures(n: Node, c: nat, i: nat, w: Way, m: Slots): (r: Slots)
    ensures |r| == |m|
    decreases w, n
  {
    match n
    case Concatenation(l, r) =>
      if w.Both? then Captures(r, NextCapture(l, c), WayEnd(l, i, w.first), w.second, Captures(l, c, i, w.first, m)) else m
    case Alternation(l, r) =>
      if w.First? then Captures(l, c, i, w.way, m)
      else if w.Second? then Captures(r, NextCapture(l, c), i, w.way, m) else m
    case Quantifier(_, _, _, q) => if w.Repeated? then CapturesAfter(q, c, i, w.copies, m) else m
    case Capture(x) => Put(Captures(x, c + 1, i, w, Put(m, 2 * c, i)), 2 * c + 1, WayEnd(x, i, w))
    case _ => m
  }

  function CapturesAfter(q: Node, c: nat, i: nat, cs: Rounds, m: Slots): (r: Slots)
    ensures |r| == |m|
    decreases cs, q
  {
    match cs
    case Done => m
    case Skipped(rest) => CapturesAfter(q, c, i, rest, m)
    case Taken(w, rest) => CapturesAfter(q, c, WayEnd(q, i, w), rest, Captures(q, c, i, w, m))
  }

  // ---- Where a way passes ----

  /** A place in the pattern at a position of the string, and whether the second of two
      branches is taken there. */
  datatype Turn = Turn(at: State, choice: bool)

  function Go(pc: nat, i: nat): (r: Turn) {
    Turn(State(pc, i), false)
  }

  /** To go on with one more copy, or not. The preferred of the two is the first branch. */
  function Stay(greedy: bool, pc: nat, i: nat): (r: Turn) {
    Turn(State(pc, i), !greedy)
  }

  function Leave(greedy: bool, pc: nat, i: nat): (r: Turn) {
    Turn(State(pc, i), greedy)
  }

  /** The turns of a way from i on, the places of n being numbered from at. */
  function Turns(n: Node, at: nat, i: nat, w: Way): (r: seq<Turn>)
    requires Valid(n)
    decreases w, n
  {
    match n
    case Epsilon => []
    case Concatenation(l, r) =>
      if w.Both? then Turns(l, at, i, w.first) + Turns(r, at + Count(l), WayEnd(l, i, w.first), w.second) else []
    case Alternation(l, r) =>
      if w.First? then [Go(at, i)] + Turns(l, at + 1, i, w.way) + [Go(at + 1 + Count(l), WayEnd(l, i, w.way))]
      else if w.Second? then [Turn(State(at, i), true)] + Turns(r, at + 2 + Count(l), i, w.way) else []
    case Quantifier(nmin, nmax, greedy, q) =>
      if !w.Repeated? then []
      else if nmax != -1 then RangeTurns(q, nmin, greedy, at, i, w.copies)
      else if nmin == 0 then StarTurns(q, greedy, at, i, w.copies)
      else PlusTurns(q, nmin, greedy, at, i, w.copies)
    case Capture(x) => [Go(at, i)] + Turns(x, at + 1, i, w) + [Go(at + 1 + Count(x), WayEnd(x, i, w))]
    case _ => [Go(at, i)]
  }

  /** nmin copies and then optional ones, each at places of its own. */
  function RangeTurns(q: Node, nmin: nat, greedy: bool, at: nat, i: nat, cs: Rounds): (r: seq<Turn>)
    requires Valid(q)
    decreases cs, q
  {
    match cs
    case Done => []
    case Skipped(rest) => [Leave(greedy, at, i)] + RangeTurns(q, 0, greedy, at + 1 + Count(q), i, rest)
    case Taken(w, rest) =>
      if nmin > 0 then Turns(q, at, i, w) + RangeTurns(q, nmin - 1, greedy, at + Count(q), WayEnd(q, i, w), rest)
      else [Stay(greedy, at, i)] + Turns(q, at + 1, i, w) +
           RangeTurns(q, 0, greedy, at + 1 + Count(q), WayEnd(q, i, w), rest)
  }

  /** All copies at the same places, with a test before each and a way back behind it. */
  function StarTurns(q: Node, greedy: bool, at: nat, i: nat, cs: Rounds): (r: seq<Turn>)
    requires Valid(q)
    decreases cs, q
  {
    match cs
    case Taken(w, rest) =>
      [Stay(greedy, at, i)] + Turns(q, at + 1, i, w) + [Go(at + 1 + Count(q), WayEnd(q, i, w))] +
      StarTurns(q, greedy, at, WayEnd(q, i, w), rest)
    case _ => [Leave(greedy, at, i)]
  }

  /** The copies from the nmin-th on share their places, with a test behind each. */
  function PlusTurns(q: Node, nmin: nat, greedy: bool, at: nat, i: nat, cs: Rounds): (r: seq<Turn>)
    requires Valid(q)
    decreases cs, q
  {
    match cs
    case Taken(w, rest) =>
      var j := WayEnd(q, i, w);
      if nmin > 1 then Turns(q, at, i, w) + PlusTurns(q, nmin - 1, greedy, at + Count(q), j, rest)
      else if !rest.Taken? then Turns(q, at, i, w) + [Leave(greedy, at + Count(q), j)]
      else Turns(q, at, i, w) + [Stay(greedy, at + Count(q), j)] + PlusTurns(q, 1, greedy, at, j, rest)
    case _ => []
  }

  /** The choices alone. */
  function Choices(t: seq<Turn>): (r: seq<bool>)
    ensures |r| == |t| && forall k :: 0 <= k < |t| ==> r[k] == t[k].choice
  {
    seq(|t|, k requires 0 <= k < |t| => t[k].choice)
  }

  lemma ChoicesOn(t: seq<Turn>, u: seq<Turn>)
    ensures Choices(t + u) == Choices(t) + Choices(u)
  {
  }

  /** A way is fresh when it does not come to the same place twice at the same position. */
  predicate Distinct(t: seq<Turn>) {
    forall a, b :: 0 <= a < b < |t| ==> t[a].at != t[b].at
  }

  predicate Fresh(n: Node, i: nat, w: Way)
    requires Valid(n)
  {
    Distinct(Turns(n, 0, i, w))
  }

  /** The way that has precedence over all other ways from i on. */
  ghost predicate Chosen(n: Node, s: seq<byte>, i: nat, w: Way)
    requires Valid(n)
  {
    Fits(n, s, i, w) && Fresh(n, i, w) &&
    forall x :: Fits(n, s, i, x) && Fresh(n, i, x) && x != w ==> Better(n, w, x)
  }

  // ---- Ways of composed trees, unfolded once ----

  lemma ConcatenationWay(l: Node, r: Node, s: seq<byte>, at: nat, c: nat, i: nat, w: Way, m: Slots)
    requires Valid(Concatenation(l, r))
    ensures Valid(l) && Valid(r) && Count(Concatenation(l, r)) == Count(l) + Count(r)
    ensures Fits(Concatenation(l, r), s, i, w) <==>
            w.Both? && Fits(l, s, i, w.first) && Fits(r, s, WayEnd(l, i, w.first), w.second)
    ensures w.Both? ==>
      var k := WayEnd(l, i, w.first);
      WayEnd(Concatenation(l, r), i, w) == WayEnd(r, k, w.second) &&
      Turns(Concatenation(l, r), at, i, w) == Turns(l, at, i, w.first) + Turns(r, at + Count(l), k, w.second) &&
      Captures(Concatenation(l, r), c, i, w, m) ==
      Captures(r, NextCapture(l, c), k, w.second, Captures(l, c, i, w.first, m))
  {
    hide NextCapture, WellFormed, InClass, AllFit, Counted;
  }

  lemma AlternationWay(l: Node, r: Node, s: seq<byte>, at: nat, c: nat, i: nat, w: Way, m: Slots)
    requires Valid(Alternation(l, r))
    ensures Valid(l) && Valid(r) && Count(Alternation(l, r)) == 2 + Count(l) + Count(r)
    ensures Fits(Alternation(l, r), s, i, w) <==>
            (w.First? && Fits(l, s, i, w.way)) || (w.Second? && Fits(r, s, i, w.way))
    ensures w.First? ==>
      WayEnd(Alternation(l, r), i, w) == WayEnd(l, i, w.way) &&
      Turns(Alternation(l, r), at, i, w) ==
      [Go(at, i)] + Turns(l, at + 1, i, w.way) + [Go(at + 1 + Count(l), WayEnd(l, i, w.way))] &&
      Captures(Alternation(l, r), c, i, w, m) == Captures(l, c, i, w.way, m)
    ensures w.Second? ==>
      WayEnd(Alternation(l, r), i, w) == WayEnd(r, i, w.way) &&
      Turns(Alternation(l, r), at, i, w) == [Turn(State(at, i), true)] + Turns(r, at + 2 + Count(l), i, w.way) &&
      Captures(Alternation(l, r), c, i, w, m) == Captures(r, NextCapture(l, c), i, w.way, m)
  {
    hide NextCapture, WellFormed, InClass, AllFit, Counted;
  }

  lemma CaptureWay(x: Node, s: seq<byte>, at: nat, c: nat, i: nat, w: Way, m: Slots)
    requires Valid(Capture(x))
    ensures Valid(x) && Count(Capture(x)) == 2 + Count(x)
    ensures Fits(Capture(x), s, i, w) <==> Fits(x, s, i, w)
    ensures WayEnd(Capture(x), i, w) == WayEnd(x, i, w)
    ensures Turns(Capture(x), at, i, w) == [Go(at, i)] + Turns(x, at + 1, i, w) + [Go(at + 1 + Count(x), WayEnd(x, i, w))]
    ensures Captures(Capture(x), c, i, w, m) ==
            Put(Captures(x, c + 1, i, w, Put(m, 2 * c, i)), 2 * c + 1, WayEnd(x, i, w))
  {
    hide NextCapture, WellFormed, InClass, AllFit, Counted;
  }

  // ---- Ways are matches ----

  lemma {:induction false} FitsMatches(n: Node, s: seq<byte>, i: nat, w: Way)
    requires Valid(n) && Fits(n, s, i, w)
    ensures Matches(n, s, i, WayEnd(n, i, w))
    decreases w, n
  {
    match n
    case Concatenation(l, r) => FitsMatches(l, s, i, w.first); FitsMatches(r, s, WayEnd(l, i, w.first), w.second);
    case Alternation(l, r) => if w.First? { FitsMatches(l, s, i, w.way); } else { FitsMatches(r, s, i, w.way); }
    case Quantifier(nmin, nmax, _, q) => var c := CopiesRepeat(q, nmin, nmax, s, i, w.copies);
    case Capture(x) => FitsMatches(x, s, i, w);
    case _ =>
  }

  lemma {:induction false} CopiesRepeat(q: Node, nmin: nat, nmax: int, s: seq<byte>, i: nat, cs: Rounds)
    returns (c: nat)
    requires Valid(q) && AllFit(q, s, i, cs) && Counted(cs, nmin, nmax) && nmax >= -1
    ensures nmin <= c && (nmax == -1 || c <= nmax) && Repeats(q, c, s, i, RoundsEnd(q, i, cs))
    decreases cs, q
  {
    match cs
    case Done => c := 0;
    case Skipped(rest) => c := CopiesRepeat(q, 0, nmax - 1, s, i, rest);
    case Taken(w, rest) =>
      FitsMatches(q, s, i, w);
      c := CopiesRepeat(q, if nmin > 0 then nmin - 1 else 0, if nmax > 0 then nmax - 1 else nmax, s, WayEnd(q, i, w), rest);
      c := c + 1;
  }

  /** And every match is made in some way. */
  lemma {:induction false} MatchFits(n: Node, s: seq<byte>, i: nat, j: nat) returns (w: Way)
    requires Valid(n) && Matches(n, s, i, j)
    ensures Fits(n, s, i, w) && WayEnd(n, i, w) == j
    decreases n, 0
  {
    match n
    case Concatenation(l, r) =>
      var k: nat :| Matches(l, s, i, k) && Matches(r, s, k, j);
      var x := MatchFits(l, s, i, k);
      var y := MatchFits(r, s, k, j);
      w := Both(x, y);
    case Alternation(l, r) =>
      if Matches(l, s, i, j) {
        w := MatchFits(l, s, i, j);
        w := First(w);
      } else {
        w := MatchFits(r, s, i, j);
        w := Second(w);
      }
    case Quantifier(nmin, nmax, _, q) =>
      var c: nat :| nmin <= c && (nmax == -1 || c <= nmax) && Repeats(q, c, s, i, j);
      var cs := RepeatFits(q, nmin, nmax, c, s, i, j);
      w := Repeated(cs);
    case Capture(x) => w := MatchFits(x, s, i, j);
    case _ => w := Plain;
  }

  lemma {:induction false} RepeatFits(q: Node, nmin: nat, nmax: int, c: nat, s: seq<byte>, i: nat, j: nat)
    returns (cs: Rounds)
    requires Valid(q) && nmin <= c && (nmax == -1 || c <= nmax) && Repeats(q, c, s, i, j)
    ensures Counted(cs, nmin, nmax) && AllFit(q, s, i, cs) && RoundsEnd(q, i, cs) == j
    decreases q, c, nmax
  {
    if c > 0 {
      var k: nat :| Matches(q, s, i, k) && Repeats(q, c - 1, s, k, j);
      var w := MatchFits(q, s, i, k);
      cs := RepeatFits(q, if nmin > 0 then nmin - 1 else 0, if nmax > 0 then nmax - 1 else nmax, c - 1, s, k, j);
      cs := Taken(w, cs);
    } else if nmax > 0 {
      cs := RepeatFits(q, 0, nmax - 1, 0, s, i, j);
      cs := Skipped(cs);
    } else {
      cs := Done;
    }
  }

  // ---- What the captures hold ----

  /** The capture groups of n whose slots its ways set, by number. */
  ghost function Groups(n: Node, c: nat): (r: set<(nat, Node)>)
    requires Valid(n)
    ensures forall x :: x in r ==> c <= x.0 < NextCapture(n, c)
  {
    match n
    case Concatenation(l, r) => Groups(l, c) + Groups(r, NextCapture(l, c))
    case Alternation(l, r) => Groups(l, c) + Groups(r, NextCapture(l, c))
    case Quantifier(nmin, nmax, _, q) => if nmin == 0 && nmax == 0 then {} else Groups(q, c)
    case Capture(x) => {(c, x)} + Groups(x, c + 1)
    case _ => {}
  }

  /** A number belongs to one group: all copies of a quantified group share its slot pair, and no
      other group uses it. */
  lemma {:induction false} OneGroup(n: Node, c: nat, g: (nat, Node), h: (nat, Node))
    requires Valid(n) && g in Groups(n, c) && h in Groups(n, c) && g.0 == h.0
    ensures g == h
    decreases n, 1
  {
    hide NextCapture;
    match n
    case Concatenation(l, r) => OneOfTwo(n, l, r, c, g, h);
    case Alternation(l, r) => OneOfTwo(n, l, r, c, g, h);
    case Quantifier(_, _, _, q) => OneGroup(q, c, g, h);
    case Capture(x) => if g.0 != c { OneGroup(x, c + 1, g, h); }
  }

  lemma {:induction false} OneOfTwo(n: Node, l: Node, r: Node, c: nat, g: (nat, Node), h: (nat, Node))
    requires l < n && r < n && Valid(l) && Valid(r) && g.0 == h.0
    requires g in Groups(l, c) + Groups(r, NextCapture(l, c)) && h in Groups(l, c) + Groups(r, NextCapture(l, c))
    ensures g == h
    decreases n, 0
  {
    hide *;
    if g in Groups(l, c) && h in Groups(l, c) {
      OneGroup(l, c, g, h);
    } else if g in Groups(r, NextCapture(l, c)) && h in Groups(r, NextCapture(l, c)) {
      OneGroup(r, NextCapture(l, c), g, h);
    }
  }

  /** The slot pair of group g is either unset or the ends of a match of the group's body. */
  ghost predicate PairOk(g: (nat, Node), s: seq<byte>, m: Slots) {
    2 * g.0 + 1 < |m| ==>
      var x, y := m[2 * g.0], m[2 * g.0 + 1];
      (x == y == Null) || (x.At? && y.At? && Valid(g.1) && Matches(g.1, s, x.pos, y.pos))
  }

  /** Only slots of captures lo..hi changed, and the groups' pairs stayed good. */
  ghost predicate Keeps(t: set<(nat, Node)>, lo: nat, hi: nat, s: seq<byte>, m: Slots, m': Slots) {
    |m'| == |m| &&
    (forall k :: 0 <= k < |m| && !(2 * lo <= k < 2 * hi) ==> m'[k] == m[k]) &&
    (forall g :: g in t && PairOk(g, s, m) ==> PairOk(g, s, m'))
  }

  lemma KeepsSequence(t: set<(nat, Node)>, u: set<(nat, Node)>, lo: nat, mid: nat, hi: nat, s: seq<byte>,
                      m: Slots, m': Slots, m'': Slots)
    requires lo <= mid <= hi
    requires forall g :: g in t ==> lo <= g.0 < mid
    requires forall g :: g in u ==> mid <= g.0 < hi
    requires Keeps(t, lo, mid, s, m, m') && Keeps(u, mid, hi, s, m', m'')
    ensures Keeps(t + u, lo, hi, s, m, m'')
  {
    forall g | g in t + u && PairOk(g, s, m) ensures PairOk(g, s, m'') {
      if g in t {
        assert PairOk(g, s, m');
      } else {
        assert PairOk(g, s, m');
      }
    }
  }

  lemma KeepsMore(t: set<(nat, Node)>, u: set<(nat, Node)>, lo: nat, hi: nat, lo': nat, hi': nat,
                  s: seq<byte>, m: Slots, m': Slots)
    requires lo <= lo' && hi' <= hi
    requires forall g :: g in u && g !in t ==> g.0 < lo' || g.0 >= hi'
    requires Keeps(t, lo', hi', s, m, m')
    ensures Keeps(u, lo, hi, s, m, m')
  {
  }

  lemma KeepsTwice(t: set<(nat, Node)>, lo: nat, hi: nat, s: seq<byte>, m: Slots, m': Slots, m'': Slots)
    requires Keeps(t, lo, hi, s, m, m') && Keeps(t, lo, hi, s, m', m'')
    ensures Keeps(t, lo, hi, s, m, m'')
  {
    forall g | g in t && PairOk(g, s, m) ensures PairOk(g, s, m'') {
      assert PairOk(g, s, m');
    }
  }

  lemma KeepsAll(t: set<(nat, Node)>, lo: nat, hi: nat, s: seq<byte>, m: Slots)
    ensures Keeps(t, lo, hi, s, m, m)
  {
  }

  /** A way sets slots of its own groups alone, and to the ends of matches of their bodies. */
  lemma {:induction false} WayKeeps(n: Node, c: nat, s: seq<byte>, i: nat, w: Way, m: Slots)
    requires Valid(n) && Fits(n, s, i, w)
    ensures Keeps(Groups(n, c), c, NextCapture(n, c), s, m, Captures(n, c, i, w, m))
    decreases w, n, 1
  {
    hide Keeps, PairOk, Matches;
    match n
    case Concatenation(l, r) =>
      var m1, c' := Captures(l, c, i, w.first, m), NextCapture(l, c);
      WayKeeps(l, c, s, i, w.first, m);
      WayKeeps(r, c', s, WayEnd(l, i, w.first), w.second, m1);
      KeepsSequence(Groups(l, c), Groups(r, c'), c, c', NextCapture(r, c'), s, m, m1, Captures(n, c, i, w, m));
    case Alternation(l, r) =>
      var c', hi, m' := NextCapture(l, c), NextCapture(n, c), Captures(n, c, i, w, m);
      if w.First? {
        WayKeeps(l, c, s, i, w.way, m);
        KeepsMore(Groups(l, c), Groups(n, c), c, hi, c, c', s, m, m');
      } else {
        WayKeeps(r, c', s, i, w.way, m);
        KeepsMore(Groups(r, c'), Groups(n, c), c, hi, c', hi, s, m, m');
      }
    case Quantifier(nmin, nmax, _, q) =>
      if nmin == 0 && nmax == 0 {
        KeepsAll({}, c, c, s, m);
      } else {
        CopiesKeep(q, c, s, i, w.copies, m);
      }
    case Capture(x) => CaptureKeeps(x, c, s, i, w, m);
    case _ => KeepsAll({}, c, c, s, m);
  }

  lemma {:induction false} CopiesKeep(q: Node, c: nat, s: seq<byte>, i: nat, cs: Rounds, m: Slots)
    requires Valid(q) && AllFit(q, s, i, cs)
    ensures Keeps(Groups(q, c), c, NextCapture(q, c), s, m, CapturesAfter(q, c, i, cs, m))
    decreases cs, q, 1
  {
    hide Keeps, PairOk, Groups;
    match cs
    case Done => KeepsAll(Groups(q, c), c, NextCapture(q, c), s, m);
    case Skipped(rest) => CopiesKeep(q, c, s, i, rest, m);
    case Taken(w, rest) =>
      var m1 := Captures(q, c, i, w, m);
      WayKeeps(q, c, s, i, w, m);
      CopiesKeep(q, c, s, WayEnd(q, i, w), rest, m1);
      KeepsTwice(Groups(q, c), c, NextCapture(q, c), s, m, m1, CapturesAfter(q, c, i, cs, m));
  }

  /** A group's pair is set to the ends of the match of its body. */
  lemma {:induction false} CaptureKeeps(x: Node, c: nat, s: seq<byte>, i: nat, w: Way, m: Slots)
    requires Valid(x) && Fits(x, s, i, w)
    ensures Keeps(Groups(Capture(x), c), c, NextCapture(Capture(x), c), s, m, Captures(Capture(x), c, i, w, m))
    ensures 2 * c + 1 < |m| ==>
      Captures(Capture(x), c, i, w, m)[2 * c] == At(i) && Captures(Capture(x), c, i, w, m)[2 * c + 1] == At(WayEnd(x, i, w))
    decreases w, x, 2
  {
    hide Matches, NextCapture;
    var m1 := Put(m, 2 * c, i);
    var mid, m' := Captures(x, c + 1, i, w, m1), Captures(Capture(x), c, i, w, m);
    WayKeeps(x, c + 1, s, i, w, m1);
    FitsMatches(x, s, i, w);
    forall g | g in {(c, x)} + Groups(x, c + 1) && PairOk(g, s, m) ensures PairOk(g, s, m') {
      if g != (c, x) {
        assert PairOk(g, s, m1);
        assert PairOk(g, s, mid);
      }
    }
    NextIs(x, c);
  }

  lemma NextIs(x: Node, c: nat)
    ensures NextCapture(Capture(x), c) == NextCapture(x, c + 1)
  {
  }
}
