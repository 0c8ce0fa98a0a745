/** How the items and quantifiers of a pattern are spelled, independently of the parser, and
    that it reads exactly these spellings as these items and quantifiers. */
module Spelling {
  import opened Bytes
  import opened CharClass
  import opened Syntax
  import opened Parsing
  import opened Grammar

  // ---- Bracket text ----

  /** One character of a bracket expression or a range, the first character escaped or not. */
  datatype Member = One(ch: byte, escaped: bool) | Span(ch: byte, escaped: bool, hi: byte)

  function MemberText(it: Member): (r: seq<byte>)
    ensures r != []
  {
    (if it.escaped then [BACKSLASH, it.ch] else [it.ch]) + (if it.Span? then [DASH, it.hi] else [])
  }

  function Text(items: seq<Member>): (r: seq<byte>) {
    if items == [] then [] else MemberText(items[0]) + Text(items[1..])
  }

  /** A closing bracket stands for itself only in front; ranges are not empty, and do not run
      up to a closing bracket. */
  predicate GoodMember(it: Member, first: bool) {
    it.ch != 0 && (!it.escaped ==> it.ch != BACKSLASH && (it.ch == CLOSE_BRACKET ==> first)) &&
    (it.Span? ==> it.hi != CLOSE_BRACKET && it.ch <= it.hi)
  }

  /** A dash behind a character makes a range, unless it is the last item. */
  predicate MakesRange(rest: seq<Member>) {
    rest != [] && rest[0].ch == DASH && !rest[0].escaped && rest != [One(DASH, false)]
  }

  predicate GoodMembers(items: seq<Member>, first: bool) {
    items == [] ||
    (GoodMember(items[0], first) && (items[0].One? ==> !MakesRange(items[1..])) && GoodMembers(items[1..], false))
  }

  /** The items stand in p from k up to a closing bracket at to. */
  predicate MembersAt(p: seq<byte>, k: nat, to: nat, items: seq<Member>) {
    k <= to < |p| && p[k..to] == Text(items) && p[to] == CLOSE_BRACKET
  }

  lemma FirstMember(p: seq<byte>, k: nat, to: nat, items: seq<Member>)
    requires MembersAt(p, k, to, items) && items != []
    ensures var n := k + |MemberText(items[0])|;
            n <= to && p[k..n] == MemberText(items[0]) && MembersAt(p, n, to, items[1..])
    ensures k < to && p[k] == (if items[0].escaped then BACKSLASH else items[0].ch)
  {
    hide MemberText;
    var n, first, rest := k + |MemberText(items[0])|, MemberText(items[0]), Text(items[1..]);
    assert Text(items) == first + rest;
    Halves(p, k, to, first, rest);
    FirstOf(items[0]);
    assert p[k] == p[k..n][0];
  }

  lemma FirstOf(it: Member)
    ensures MemberText(it)[0] == if it.escaped then BACKSLASH else it.ch
  {
  }

  /** The two parts of a text that stands from k to to. */
  lemma Halves(p: seq<byte>, k: nat, to: nat, a: seq<byte>, b: seq<byte>)
    requires k <= to <= |p| && p[k..to] == a + b
    ensures k + |a| + |b| == to && p[k..k + |a|] == a && p[k + |a|..to] == b
  {
    var n := k + |a|;
    assert |p[k..to]| == |a| + |b|;
    assert p[k..n] == (a + b)[..|a|] by { assert p[k..n] == p[k..to][..|a|]; }
    assert p[n..to] == (a + b)[|a|..] by { assert p[n..to] == p[k..to][|a|..]; }
  }

  lemma MoreMembers(p: seq<byte>, k: nat, n: nat, to: nat, it: Member, rest: seq<Member>)
    requires MembersAt(p, n, to, rest) && k + |MemberText(it)| == n && p[k..n] == MemberText(it)
    ensures MembersAt(p, k, to, [it] + rest)
  {
    assert ([it] + rest)[1..] == rest;
    assert p[k..to] == p[k..n] + p[n..to];
  }

  /** What follows an item, as the parser looks at it. */
  lemma NextMember(p: seq<byte>, n: nat, to: nat, rest: seq<Member>)
    requires MembersAt(p, n, to, rest) && GoodMembers(rest, false)
    ensures MakesRange(rest) <==> n + 1 < |p| && p[n] == DASH && p[n + 1] != CLOSE_BRACKET && n < to
    ensures n == to <==> rest == []
  {
    if rest != [] {
      FirstMember(p, n, to, rest);
      var n' := n + |MemberText(rest[0])|;
      if rest[0].One? && !rest[0].escaped && rest[0].ch == DASH {
        if rest[1..] != [] {
          FirstMember(p, n', to, rest[1..]);
        } else {
          assert rest == [rest[0]];
        }
      } else if rest[0].Span? && !rest[0].escaped && rest[0].ch == DASH {
        assert p[n + 1] == p[n..n'][1];
      }
    }
  }

  /** The characters of one item. */
  lemma MemberRead(p: seq<byte>, k: nat, n: nat, it: Member)
    requires n <= |p| && k + |MemberText(it)| == n && p[k..n] == MemberText(it)
    ensures p[k] == (if it.escaped then BACKSLASH else it.ch)
    ensures it.escaped ==> p[k + 1] == it.ch
    ensures it.Span? ==> p[n - 2] == DASH && p[n - 1] == it.hi
  {
    assert p[k] == p[k..n][0];
    if it.escaped { assert p[k + 1] == p[k..n][1]; }
    if it.Span? { assert p[n - 2] == p[k..n][n - 2 - k] && p[n - 1] == p[k..n][n - 1 - k]; }
  }

  /** Bracket text is read to its closing bracket. */
  lemma {:induction false} MembersRead(p: seq<byte>, from: nat, k: nat, to: nat, items: seq<Member>)
    requires IsPattern(p) && from <= k && MembersAt(p, k, to, items)
    requires GoodMembers(items, k == from) && (k == from ==> items != [])
    ensures BracketEnd(p, from, k) == to
    decreases |items|
  {
    hide BracketEnd, MembersAt, MemberText, GoodMember;
    if items == [] {
      EmptyRead(p, from, k, to);
    } else {
      var it, n := items[0], k + |MemberText(items[0])|;
      FirstMember(p, k, to, items);
      NextMember(p, n, to, items[1..]);
      EndsAt(p, k, to, items);
      StepOver(p, from, k, n, to, it);
      MembersRead(p, from, n, to, items[1..]);
    }
  }

  lemma EmptyRead(p: seq<byte>, from: nat, k: nat, to: nat)
    requires IsPattern(p) && from < k && MembersAt(p, k, to, [])
    ensures BracketEnd(p, from, k) == to
  {
    EmptyMembers(p, k, to);
  }

  lemma EndsAt(p: seq<byte>, k: nat, to: nat, items: seq<Member>)
    requires MembersAt(p, k, to, items)
    ensures k <= to < |p| && p[to] == CLOSE_BRACKET
  {
  }

  /** The parser steps over one item. */
  lemma StepOver(p: seq<byte>, from: nat, k: nat, n: nat, to: nat, it: Member)
    requires IsPattern(p) && from <= k && n <= to < |p| && p[to] == CLOSE_BRACKET && GoodMember(it, k == from)
    requires n == k + |MemberText(it)| && p[k..n] == MemberText(it)
    requires it.One? && n < to ==> !(n + 1 < |p| && p[n] == DASH && p[n + 1] != CLOSE_BRACKET)
    ensures BracketEnd(p, from, k) == BracketEnd(p, from, n)
  {
    MemberRead(p, k, n, it);
  }

  /** The item that the parser steps over at k. */
  function MemberHere(p: seq<byte>, k: nat): (r: Member)
    requires IsPattern(p) && k < |p| && (p[k] == BACKSLASH ==> k + 1 < |p|)
  {
    var esc := p[k] == BACKSLASH;
    var ch := if esc then p[k + 1] else p[k];
    var n := if esc then k + 2 else k + 1;
    if Read(p, n) == DASH && Read(p, n + 1) != CLOSE_BRACKET then Span(ch, esc, Read(p, n + 1)) else One(ch, esc)
  }

  /** And whatever is read to a closing bracket is bracket text. */
  lemma {:induction false} ReadMembers(p: seq<byte>, from: nat, k: nat) returns (items: seq<Member>)
    requires IsPattern(p) && from <= k <= |p| && BracketEnd(p, from, k) != -1
    ensures MembersAt(p, k, BracketEnd(p, from, k), items)
    ensures GoodMembers(items, k == from) && (k == from ==> items != [])
    decreases |p| - k
  {
    var to := BracketEnd(p, from, k);
    if to == k {
      BracketHere(p, from, k);
      items := [];
    } else {
      var it := MemberHere(p, k);
      var n := k + |MemberText(it)|;
      MemberSteps(p, from, k);
      var rest := ReadMembers(p, from, n);
      NextMember(p, n, to, rest);
      MoreMembers(p, k, n, to, it, rest);
      items := [it] + rest;
      assert items[1..] == rest;
    }
  }

  lemma MemberSteps(p: seq<byte>, from: nat, k: nat)
    requires IsPattern(p) && from <= k <= |p| && BracketEnd(p, from, k) != -1 && BracketEnd(p, from, k) != k
    ensures k < |p| && (p[k] == BACKSLASH ==> k + 1 < |p|)
    ensures var it := MemberHere(p, k);
            var n := k + |MemberText(it)|;
            n <= |p| && p[k..n] == MemberText(it) && GoodMember(it, k == from) &&
            BracketEnd(p, from, n) == BracketEnd(p, from, k) &&
            (it.One? ==> !(Read(p, n) == DASH && Read(p, n + 1) != CLOSE_BRACKET))
  {
    hide MemberText, GoodMember;
    var it := MemberHere(p, k);
    MemberLength(it);
    var n := k + |MemberText(it)|;
    assert n <= |p|;
    assert BracketEnd(p, from, n) == BracketEnd(p, from, k);
    HereGood(p, from, k);
    HereText(p, k, n);
  }

  lemma MemberLength(it: Member)
    ensures |MemberText(it)| == (if it.escaped then 2 else 1) + if it.Span? then 2 else 0
  {
  }

  lemma HereGood(p: seq<byte>, from: nat, k: nat)
    requires IsPattern(p) && from <= k < |p| && (p[k] == BACKSLASH ==> k + 1 < |p|)
    requires BracketEnd(p, from, k) != -1 && BracketEnd(p, from, k) != k
    ensures GoodMember(MemberHere(p, k), k == from)
  {
  }

  lemma HereText(p: seq<byte>, k: nat, n: nat)
    requires IsPattern(p) && k < |p| && (p[k] == BACKSLASH ==> k + 1 < |p|)
    requires n == k + |MemberText(MemberHere(p, k))| <= |p|
    ensures p[k..n] == MemberText(MemberHere(p, k))
  {
    var it := MemberHere(p, k);
    var m := if it.escaped then k + 2 else k + 1;
    assert p[k..m] == if it.escaped then [BACKSLASH, it.ch] else [it.ch];
    if it.Span? {
      assert n == m + 2 && p[m..n] == [DASH, it.hi];
      assert p[k..n] == p[k..m] + p[m..n];
    }
  }

  /** A bracket expression behind its opening bracket. */
  predicate BracketsSpelled(p: seq<byte>, sp: nat, negated: bool, items: seq<Member>, to: nat) {
    sp < |p| && items != [] && GoodMembers(items, true) &&
    if negated then p[sp] == CARET && MembersAt(p, sp + 1, to, items)
    else p[sp] != CARET && MembersAt(p, sp, to, items)
  }

  lemma BracketsComplete(p: seq<byte>, sp: nat, negated: bool, items: seq<Member>, to: nat)
    requires IsPattern(p) && BracketsSpelled(p, sp, negated, items, to)
    ensures BracketsAt(p, sp) == Brackets(negated, if negated then sp + 1 else sp, to)
  {
    var from := if negated then sp + 1 else sp;
    MembersRead(p, from, from, to, items);
  }

  lemma BracketsSound(p: seq<byte>, sp: nat) returns (items: seq<Member>)
    requires IsPattern(p) && sp <= |p| && BracketsAt(p, sp).Brackets?
    ensures var b := BracketsAt(p, sp);
            BracketsSpelled(p, sp, b.negated, items, b.to) && b.from == (if b.negated then sp + 1 else sp)
  {
    var b := BracketsAt(p, sp);
    items := ReadMembers(p, b.from, b.from);
  }

  /** The bytes an item holds. */
  predicate MemberHas(it: Member, d: byte) {
    if it.One? then d == it.ch else RangeHas(it.ch, it.hi, d)
  }

  predicate SomeHas(items: seq<Member>, d: byte) {
    exists k :: 0 <= k < |items| && MemberHas(items[k], d)
  }

  /** The compiler reads the same items off the text that is kept. */
  lemma MemberKept(p: seq<byte>, from: nat, k: nat, to: nat, items: seq<Member>)
    requires from <= k && MembersAt(p, k, to, items) && items != [] && GoodMembers(items, k == from)
    ensures var it := items[0];
            ItemAt(p[from..to + 1], k - from) ==
            Item(it.ch, if it.Span? then it.hi else it.ch, it.One?, k + |MemberText(it)| - from)
    ensures !(p[k] == CLOSE_BRACKET && k > from)
  {
    hide Text, IsPattern;
    var it, n, text := items[0], k + |MemberText(items[0])|, p[from..to + 1];
    FirstMember(p, k, to, items);
    MemberRead(p, k, n, it);
    NextMember(p, n, to, items[1..]);
    assert text[k - from] == p[k] && text[n - from] == p[n];
    if it.escaped { assert text[k + 1 - from] == p[k + 1]; }
    if it.Span? {
      assert text[n - 2 - from] == p[n - 2] && text[n - 1 - from] == p[n - 1];
    } else if n < to {
      assert text[n + 1 - from] == p[n + 1];
    }
  }

  /** The class that is kept holds what its items hold. */
  lemma {:induction false} ClassHolds(p: seq<byte>, from: nat, k: nat, to: nat, items: seq<Member>, d: byte)
    requires from <= k && MembersAt(p, k, to, items) && GoodMembers(items, k == from) && (k == from ==> items != [])
    ensures WellFormed(p[from..to + 1], k - from)
    ensures InClass(p[from..to + 1], k - from, d) <==> SomeHas(items, d)
    decreases |items|
  {
    hide ItemAt, MembersAt, Text;
    EndsAt(p, k, to, items);
    var text := p[from..to + 1];
    if items == [] {
      EmptyMembers(p, k, to);
      assert text[k - from] == CLOSE_BRACKET;
    } else {
      var n := k + |MemberText(items[0])|;
      FirstMember(p, k, to, items);
      MemberKept(p, from, k, to, items);
      assert text[k - from] == p[k];
      ClassHolds(p, from, n, to, items[1..], d);
      SomeFirst(items, d);
    }
  }

  lemma EmptyMembers(p: seq<byte>, k: nat, to: nat)
    requires MembersAt(p, k, to, [])
    ensures k == to < |p| && p[to] == CLOSE_BRACKET
  {
    assert |p[k..to]| == 0;
  }

  lemma SomeFirst(items: seq<Member>, d: byte)
    requires items != []
    ensures SomeHas(items, d) <==> MemberHas(items[0], d) || SomeHas(items[1..], d)
  {
    if SomeHas(items[1..], d) {
      var k :| 0 <= k < |items[1..]| && MemberHas(items[1..][k], d);
      assert items[k + 1] == items[1..][k];
    }
    if SomeHas(items, d) && !MemberHas(items[0], d) {
      var k :| 0 <= k < |items| && MemberHas(items[k], d);
      assert items[1..][k - 1] == items[k];
    }
  }

  // ---- Atoms ----

  datatype Symbol =
    | Letter(ch: byte)
    | Escaped(ch: byte)
    | Dot
    | Begin
    | Finish
    | Set(negated: bool, items: seq<Member>)

  /** The text of an interval, from its opening brace to k. */
  predicate IntervalSpelled(p: seq<byte>, i: nat, ds: seq<byte>, upper: Upper, k: nat) {
    i < k <= |p| && p[i] == OPEN_BRACE && GoodInterval(ds, upper) && p[i + 1..k] == IntervalText(ds, upper)
  }

  /** A character that stands for itself; behind an item, those of quantifiers do not. */
  ghost predicate Ordinary(p: seq<byte>, i: nat, some: bool)
    requires i < |p|
  {
    p[i] !in [BACKSLASH, DOT, OPEN_BRACKET, BAR, CARET, DOLLAR, OPEN, CLOSE] &&
    (some ==> p[i] !in [QUESTION, STAR, PLUS] && forall ds, upper, k :: !IntervalSpelled(p, i, ds, upper, k))
  }

  ghost predicate SymbolAt(p: seq<byte>, i: nat, some: bool, a: Symbol, end: nat) {
    i < end <= |p| &&
    match a
    case Letter(ch) => p[i] == ch && end == i + 1 && Ordinary(p, i, some)
    case Escaped(ch) => p[i] == BACKSLASH && end == i + 2 && p[i + 1] == ch
    case Dot => p[i] == DOT && end == i + 1
    case Begin => p[i] == CARET && end == i + 1
    case Finish => p[i] == DOLLAR && end == i + 1
    case Set(negated, items) => p[i] == OPEN_BRACKET && BracketsSpelled(p, i + 1, negated, items, end - 1)
  }

  function SymbolNode(a: Symbol): (r: Node) {
    match a
    case Letter(ch) => Character(ch)
    case Escaped(ch) => Character(ch)
    case Dot => AnyCharacter
    case Begin => AnchorBegin
    case Finish => AnchorEnd
    case Set(negated, items) => Class(negated, Text(items) + [CLOSE_BRACKET])
  }

  /** The parser finds an interval exactly where one is spelled. */
  lemma IntervalHere(p: seq<byte>, i: nat)
    requires i < |p| && p[i] == OPEN_BRACE
    ensures IntervalAt(p, i + 1).Interval? ==>
      exists ds, upper :: IntervalSpelled(p, i, ds, upper, IntervalAt(p, i + 1).next) &&
                          IntervalAt(p, i + 1).nmin == Value(ds) && IntervalAt(p, i + 1).nmax == UpperValue(ds, upper)
    ensures forall ds, upper, k :: IntervalSpelled(p, i, ds, upper, k) ==>
      IntervalAt(p, i + 1) == Interval(Value(ds), UpperValue(ds, upper), k)
  {
    hide IntervalAt, IntervalText, Value, UpperValue;
    if IntervalAt(p, i + 1).Interval? {
      var ds, upper := IntervalSound(p, i + 1);
      assert IntervalSpelled(p, i, ds, upper, IntervalAt(p, i + 1).next);
    }
    forall ds, upper, k: nat | IntervalSpelled(p, i, ds, upper, k)
      ensures IntervalAt(p, i + 1) == Interval(Value(ds), UpperValue(ds, upper), k)
    {
      assert |p[i + 1..k]| == k - (i + 1);
      IntervalComplete(p, i + 1, ds, upper);
    }
  }

  /** Every spelling of an atom is read as that atom. */
  lemma SymbolRead(p: seq<byte>, i: nat, some: bool, a: Symbol, end: nat)
    requires IsPattern(p) && SymbolAt(p, i, some, a, end)
    ensures TokenAt(p, i, some) == Push(SymbolNode(a), end)
  {
    hide IntervalAt, BracketsAt, IntervalSpelled, BracketsSpelled, Text;
    if p[i] == OPEN_BRACE { IntervalHere(p, i); }
    if a.Set? {
      BracketsComplete(p, i + 1, a.negated, a.items, end - 1);
      SetText(p, i + 1, a.negated, a.items, end - 1);
    }
  }

  lemma SetText(p: seq<byte>, sp: nat, negated: bool, items: seq<Member>, to: nat)
    requires BracketsSpelled(p, sp, negated, items, to)
    ensures to < |p| && var from := if negated then sp + 1 else sp; from <= to && p[from..to + 1] == Text(items) + [CLOSE_BRACKET]
  {
    var from := if negated then sp + 1 else sp;
    assert p[from..to + 1] == p[from..to] + [p[to]];
  }

  /** And whatever is read as an atom is a spelling of it. */
  lemma ReadSymbol(p: seq<byte>, i: nat, some: bool) returns (a: Symbol)
    requires IsPattern(p) && i <= |p| && TokenAt(p, i, some).Push?
    ensures SymbolAt(p, i, some, a, TokenAt(p, i, some).next) && TokenAt(p, i, some).node == SymbolNode(a)
  {
    hide IntervalAt, BracketsAt, IntervalSpelled, BracketsSpelled, Text;
    if p[i] == OPEN_BRACE { IntervalHere(p, i); }
    if p[i] == BACKSLASH {
      a := Escaped(p[i + 1]);
    } else if p[i] == DOT {
      a := Dot;
    } else if p[i] == CARET {
      a := Begin;
    } else if p[i] == DOLLAR {
      a := Finish;
    } else if p[i] == OPEN_BRACKET {
      var items := BracketsSound(p, i + 1);
      a := Set(BracketsAt(p, i + 1).negated, items);
      SetText(p, i + 1, a.negated, items, BracketsAt(p, i + 1).to);
    } else {
      a := Letter(p[i]);
      NotInterval(p, i);
    }
  }

  lemma NotInterval(p: seq<byte>, i: nat)
    requires i < |p|
    ensures p[i] != OPEN_BRACE ==> forall ds, upper, k :: !IntervalSpelled(p, i, ds, upper, k)
  {
  }

  // ---- Quantifiers ----

  datatype Times = Maybe | Any | Many | Between(ds: seq<byte>, upper: Upper)

  /** A quantifier from i to k, before the question mark that makes it lazy. */
  predicate TimesAt(p: seq<byte>, i: nat, t: Times, k: nat) {
    i < k <= |p| &&
    match t
    case Maybe => p[i] == QUESTION && k == i + 1
    case Any => p[i] == STAR && k == i + 1
    case Many => p[i] == PLUS && k == i + 1
    case Between(ds, upper) => IntervalSpelled(p, i, ds, upper, k)
  }

  function Least(t: Times): (r: nat)
    requires t.Between? ==> GoodInterval(t.ds, t.upper)
  {
    match t
    case Maybe => 0
    case Any => 0
    case Many => 1
    case Between(ds, upper) => Value(ds)
  }

  function Most(t: Times): (r: int)
    requires t.Between? ==> GoodInterval(t.ds, t.upper)
  {
    match t
    case Maybe => 1
    case Any => -1
    case Many => -1
    case Between(ds, upper) => UpperValue(ds, upper)
  }

  /** Every spelling of a quantifier behind an item is read as that quantifier. */
  lemma TimesRead(p: seq<byte>, i: nat, t: Times, k: nat)
    requires IsPattern(p) && TimesAt(p, i, t, k)
    ensures TokenAt(p, i, true) ==
            if Read(p, k) == QUESTION then Requantify(Least(t), Most(t), false, k + 1) else Requantify(Least(t), Most(t), true, k)
  {
    hide IntervalAt, GoodInterval, IntervalText, Value, UpperValue, BracketsAt;
    if p[i] == OPEN_BRACE {
      IntervalHere(p, i);
      assert IntervalSpelled(p, i, t.ds, t.upper, k);
    }
  }

  /** And whatever is read as a quantifier is a spelling of it, behind an item. */
  lemma ReadTimes(p: seq<byte>, i: nat, some: bool) returns (t: Times, k: nat)
    requires IsPattern(p) && i <= |p| && TokenAt(p, i, some).Requantify?
    ensures some && TimesAt(p, i, t, k)
    ensures TokenAt(p, i, some) ==
            if Read(p, k) == QUESTION then Requantify(Least(t), Most(t), false, k + 1) else Requantify(Least(t), Most(t), true, k)
  {
    hide IntervalAt, IntervalText, Value, UpperValue, BracketsAt;
    k := i + 1;
    if p[i] == QUESTION {
      t := Maybe;
    } else if p[i] == STAR {
      t := Any;
    } else if p[i] == PLUS {
      t := Many;
    } else {
      IntervalHere(p, i);
      k := IntervalAt(p, i + 1).next;
      var ds, upper :| IntervalSpelled(p, i, ds, upper, k) &&
                       IntervalAt(p, i + 1).nmin == Value(ds) && IntervalAt(p, i + 1).nmax == UpperValue(ds, upper);
      t := Between(ds, upper);
    }
  }
}
