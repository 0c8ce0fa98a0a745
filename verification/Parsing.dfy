/** What parse_context makes of a pattern, as a value. */
module Parsing {
  import opened Bytes
  import opened CharClass
  import opened Syntax

  const STAR: byte := 0x2A
  const PLUS: byte := 0x2B
  const QUESTION: byte := 0x3F
  const DOT: byte := 0x2E
  const OPEN: byte := 0x28
  const CLOSE: byte := 0x29
  const BAR: byte := 0x7C
  const DOLLAR: byte := 0x24
  const COMMA: byte := 0x2C
  const OPEN_BRACKET: byte := 0x5B
  const OPEN_BRACE: byte := 0x7B
  const CLOSE_BRACE: byte := 0x7D

  /** A pattern holds no NUL. */
  predicate IsPattern(p: seq<byte>) {
    forall k :: 0 <= k < |p| ==> p[k] != 0
  }

  /** The character at i, or the NUL at the end. */
  function Read(p: seq<byte>, i: nat): (r: byte) {
    if i < |p| then p[i] else 0
  }

  predicate IsDigit(c: byte) {
    0x30 <= c <= 0x39
  }

  /** Overrun: the pattern ends in a backslash that escapes its NUL, and the source goes on
      reading behind it. */
  datatype Parsed = Accepted(tree: Node, sp: nat) | Rejected | Overrun

  // ---- Lexical pieces ----

  datatype Brackets = NoBrackets | Brackets(negated: bool, from: nat, to: nat)

  /** The end of bracket text that starts at from, read at k: the position of its bracket. */
  function BracketEnd(p: seq<byte>, from: nat, k: nat): (r: int)
    requires IsPattern(p) && from <= k <= |p|
    ensures r == -1 || k <= r < |p|
    decreases |p| - k
  {
    var ch := Read(p, k);
    if ch == 0 then -1
    else if ch == CLOSE_BRACKET && k > from then k
    else if ch == BACKSLASH && Read(p, k + 1) == 0 then -1
    else
      var n := if ch == BACKSLASH then k + 2 else k + 1;
      var c := if ch == BACKSLASH then p[k + 1] else ch;
      if Read(p, n) == DASH && Read(p, n + 1) != CLOSE_BRACKET then
        if Read(p, n + 1) < c then -1 else BracketEnd(p, from, n + 2)
      else BracketEnd(p, from, n)
  }

  /** One turn of the loop over bracket text. */
  lemma BracketTurn(p: seq<byte>, from: nat, k: nat)
    requires IsPattern(p) && from <= k <= |p|
    ensures var ch := Read(p, k);
            var esc := ch == BACKSLASH;
            var c := if esc then Read(p, k + 1) else ch;
            var n := if esc then k + 2 else k + 1;
            BracketEnd(p, from, k) ==
            if ch == 0 then -1
            else if ch == CLOSE_BRACKET && k > from then k
            else if esc && c == 0 then -1
            else if Read(p, n) == DASH && Read(p, n + 1) != CLOSE_BRACKET then
              if Read(p, n + 1) < c then -1 else BracketEnd(p, from, n + 2)
            else BracketEnd(p, from, n)
  {
  }

  /** Bracket text after an opening bracket. */
  function BracketsAt(p: seq<byte>, sp: nat): (r: Brackets)
    requires IsPattern(p) && sp <= |p|
    ensures r.Brackets? ==> sp <= r.from <= r.to < |p|
  {
    var negated := Read(p, sp) == CARET;
    var from := if negated then sp + 1 else sp;
    var to := BracketEnd(p, from, from);
    if to == -1 then NoBrackets else Brackets(negated, from, to)
  }

  datatype Number = Number(value: nat, next: nat)

  function DigitsAt(p: seq<byte>, k: nat, acc: nat): (r: Number)
    requires k <= |p|
    ensures k <= r.next <= |p|
    decreases |p| - k
  {
    if IsDigit(Read(p, k)) then DigitsAt(p, k + 1, acc * 10 + (Read(p, k) - 0x30)) else Number(acc, k)
  }

  datatype Interval = NoInterval | Interval(nmin: nat, nmax: int, next: nat)

  /** An interval after an opening brace; next is behind its closing brace. */
  function IntervalAt(p: seq<byte>, from: nat): (r: Interval)
    requires from <= |p|
    ensures r.Interval? ==> from < r.next <= |p| && (r.nmax == -1 || r.nmin <= r.nmax)
  {
    var a := DigitsAt(p, from, 0);
    if Read(p, a.next) == COMMA then
      var k := a.next + 1;
      if Read(p, from) != COMMA && Read(p, k) == CLOSE_BRACE then Interval(a.value, -1, k + 1)
      else
        var b := DigitsAt(p, k, 0);
        if b.next == k || Read(p, b.next) != CLOSE_BRACE || b.value < a.value then NoInterval
        else Interval(a.value, b.value, b.next + 1)
    else if Read(p, from) != CLOSE_BRACE && Read(p, a.next) == CLOSE_BRACE then Interval(a.value, a.value, a.next + 1)
    else NoInterval
  }

  // ---- Trees from the items of a context ----

  /** The items of a context as one tree, nested to the right. */
  function Fold(items: seq<Node>): (r: Node) {
    if items == [] then Epsilon
    else if |items| == 1 then items[0]
    else Concatenation(items[0], Fold(items[1..]))
  }

  /** The tree for two alternatives; an empty one makes the other optional. */
  function Either(l: Node, r: Node): (u: Node) {
    if l == Epsilon && r == Epsilon then Epsilon
    else if l == Epsilon then Quantifier(0, 1, true, r)
    else if r == Epsilon then Quantifier(0, 1, true, l)
    else Alternation(l, r)
  }

  function Requantified(items: seq<Node>, nmin: nat, nmax: int, greedy: bool): (r: seq<Node>)
    requires items != []
  {
    items[..|items| - 1] + [Quantifier(nmin, nmax, greedy, items[|items| - 1])]
  }

  /** What the pattern has at a position: an item, a quantifier for the item before it, or a
      bar, parenthesis or end. */
  datatype Token =
    | Push(node: Node, next: nat)
    | Requantify(nmin: nat, nmax: int, greedy: bool, next: nat)
    | Alternative
    | Group
    | Stop(paren: bool)
    | Bad
    | Cut

  /** A quantifier that ends before k, made lazy by a question mark there. */
  function Quantify(p: seq<byte>, nmin: nat, nmax: int, k: nat): (r: Token)
    ensures r.Requantify? && r.nmin == nmin && r.nmax == nmax
    ensures r.next == (if Read(p, k) == QUESTION then k + 1 else k) && r.greedy == (Read(p, k) != QUESTION)
  {
    if Read(p, k) == QUESTION then Requantify(nmin, nmax, false, k + 1) else Requantify(nmin, nmax, true, k)
  }

  /** The token at sp; some says whether the context has an item that can be quantified. */
  function TokenAt(p: seq<byte>, sp: nat, some: bool): (r: Token)
    requires IsPattern(p) && sp <= |p|
    ensures r.Push? ==> sp < r.next <= |p|
    ensures r.Requantify? ==> some && sp < r.next <= |p| && (r.nmax == -1 || r.nmin <= r.nmax)
    ensures r.Alternative? || r.Group? || (r.Stop? && r.paren) ==> sp < |p|
    ensures r.Stop? && !r.paren ==> sp == |p|
  {
    var ch := Read(p, sp);
    if ch == 0 then Stop(false)
    else if ch == CLOSE then Stop(true)
    else if ch == BACKSLASH then if sp + 1 == |p| then Cut else Push(Character(p[sp + 1]), sp + 2)
    else if ch == DOT then Push(AnyCharacter, sp + 1)
    else if ch == OPEN_BRACKET then
      var b := BracketsAt(p, sp + 1);
      if b.NoBrackets? then Bad else Push(Class(b.negated, p[b.from..b.to + 1]), b.to + 1)
    else if ch == BAR then Alternative
    else if ch == QUESTION && some then Quantify(p, 0, 1, sp + 1)
    else if ch == STAR && some then Quantify(p, 0, -1, sp + 1)
    else if ch == PLUS && some then Quantify(p, 1, -1, sp + 1)
    else if ch == OPEN_BRACE && some && IntervalAt(p, sp + 1).Interval? then
      var b := IntervalAt(p, sp + 1);
      Quantify(p, b.nmin, b.nmax, b.next)
    else if ch == CARET then Push(AnchorBegin, sp + 1)
    else if ch == DOLLAR then Push(AnchorEnd, sp + 1)
    else if ch == OPEN then Group
    else Push(Character(ch), sp + 1)
  }

  /** Parsing on in a context at sp that has the given items, depth parentheses being open. */
  function Context(p: seq<byte>, sp: nat, depth: nat, items: seq<Node>): (r: Parsed)
    requires IsPattern(p) && sp <= |p|
    ensures r.Accepted? ==> sp < r.sp && (if depth > 0 then r.sp <= |p| else r.sp == |p| + 1)
    decreases |p| - sp
  {
    match TokenAt(p, sp, items != [])
    case Push(node, next) => Context(p, next, depth, items + [node])
    case Requantify(nmin, nmax, greedy, next) => Context(p, next, depth, Requantified(items, nmin, nmax, greedy))
    case Alternative =>
      var right := Context(p, sp + 1, depth, []);
      if right.Accepted? then Accepted(Either(Fold(items), right.tree), right.sp) else right
    case Group =>
      var body := Context(p, sp + 1, depth + 1, []);
      if body.Accepted? then Context(p, body.sp, depth, items + [Capture(body.tree)]) else body
    case Stop(paren) => if paren == (depth > 0) then Accepted(Fold(items), sp + 1) else Rejected
    case Bad => Rejected
    case Cut => Overrun
  }

  /** One step of parsing on, by the token at sp. */
  lemma ContextStep(p: seq<byte>, sp: nat, depth: nat, items: seq<Node>)
    requires IsPattern(p) && sp <= |p|
    ensures match TokenAt(p, sp, items != [])
            case Push(node, next) => Context(p, sp, depth, items) == Context(p, next, depth, items + [node])
            case Requantify(nmin, nmax, greedy, next) =>
              Context(p, sp, depth, items) == Context(p, next, depth, Requantified(items, nmin, nmax, greedy))
            case Alternative =>
              var right := Context(p, sp + 1, depth, []);
              Context(p, sp, depth, items) ==
              if right.Accepted? then Accepted(Either(Fold(items), right.tree), right.sp) else right
            case Group =>
              var body := Context(p, sp + 1, depth + 1, []);
              Context(p, sp, depth, items) ==
              if body.Accepted? then Context(p, body.sp, depth, items + [Capture(body.tree)]) else body
            case Stop(paren) =>
              Context(p, sp, depth, items) == if paren == (depth > 0) then Accepted(Fold(items), sp + 1) else Rejected
            case Bad => Context(p, sp, depth, items) == Rejected
            case Cut => Context(p, sp, depth, items) == Overrun
  {
  }

  /** cregex_parse. */
  function Parse(p: seq<byte>): (r: Parsed)
    requires IsPattern(p)
  {
    Context(p, 0, 0, [])
  }

  // ---- Parsed trees are valid ----

  /** One item of bracket text, as the parser steps over it and as the compiler reads it. */
  lemma BracketStep(p: seq<byte>, from: nat, k: nat)
    requires IsPattern(p) && from <= k <= |p| && BracketEnd(p, from, k) != -1 && BracketEnd(p, from, k) != k
    ensures var to := BracketEnd(p, from, k);
            var it := ItemAt(p[from..to + 1], k - from);
            k < to && it.Item? && !(p[k] == CLOSE_BRACKET && k > from) && BracketEnd(p, from, from + it.next) == to
  {
    var to, ch := BracketEnd(p, from, k), p[k];
    var n := if ch == BACKSLASH then k + 2 else k + 1;
    var text := p[from..to + 1];
    assert n <= to;
    assert text[k - from] == ch && text[n - from] == p[n];
    if ch == BACKSLASH { assert text[k + 1 - from] == p[k + 1]; }
    if p[n] == DASH { assert n < to; assert text[n + 1 - from] == p[n + 1]; }
  }

  /** Bracket text that the parser accepts can be compiled: it ends at its own bracket. */
  lemma {:induction false} BracketText(p: seq<byte>, from: nat, k: nat)
    requires IsPattern(p) && from <= k <= |p| && BracketEnd(p, from, k) != -1
    ensures WellFormed(p[from..BracketEnd(p, from, k) + 1], k - from)
    decreases |p| - k
  {
    hide BracketEnd, ItemAt;
    var to := BracketEnd(p, from, k);
    var text := p[from..to + 1];
    if to == k {
      BracketHere(p, from, k);
    } else {
      BracketStep(p, from, k);
      assert text[k - from] == p[k];
      BracketText(p, from, from + ItemAt(text, k - from).next);
    }
  }

  lemma BracketHere(p: seq<byte>, from: nat, k: nat)
    requires IsPattern(p) && from <= k <= |p| && BracketEnd(p, from, k) == k
    ensures k > from && k < |p| && p[k] == CLOSE_BRACKET
  {
  }

  predicate AllValid(items: seq<Node>) {
    forall k :: 0 <= k < |items| ==> Valid(items[k])
  }

  lemma {:induction false} FoldValid(items: seq<Node>)
    requires AllValid(items)
    ensures Valid(Fold(items))
  {
    if |items| > 1 { FoldValid(items[1..]); }
  }

  lemma TokenValid(p: seq<byte>, sp: nat, some: bool)
    requires IsPattern(p) && sp <= |p| && TokenAt(p, sp, some).Push?
    ensures Valid(TokenAt(p, sp, some).node)
  {
    hide IntervalAt, BracketEnd, WellFormed;
    if Read(p, sp) == OPEN_BRACKET {
      var b := BracketsAt(p, sp + 1);
      BracketText(p, b.from, b.from);
    }
  }

  /** Every tree the parser returns can be compiled. */
  lemma {:induction false} ContextValid(p: seq<byte>, sp: nat, depth: nat, items: seq<Node>)
    requires IsPattern(p) && sp <= |p| && AllValid(items) && Context(p, sp, depth, items).Accepted?
    ensures Valid(Context(p, sp, depth, items).tree)
    decreases |p| - sp
  {
    hide TokenAt, Fold;
    match TokenAt(p, sp, items != [])
    case Push(node, next) =>
      TokenValid(p, sp, items != []);
      ContextValid(p, next, depth, items + [node]);
    case Requantify(nmin, nmax, greedy, next) =>
      ContextValid(p, next, depth, Requantified(items, nmin, nmax, greedy));
    case Alternative =>
      FoldValid(items);
      ContextValid(p, sp + 1, depth, []);
    case Group =>
      ContextValid(p, sp + 1, depth + 1, []);
      var body := Context(p, sp + 1, depth + 1, []);
      ContextValid(p, body.sp, depth, items + [Capture(body.tree)]);
    case Stop(_) => FoldValid(items);
  }
}
