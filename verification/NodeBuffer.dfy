/** The one buffer of cregex_parse.c that holds a stack of nodes growing up from its start and
    the finished nodes growing down from its end, linked by position. */
module NodeBuffer {
  import opened Bytes
  import opened CharClass
  import opened Syntax
  import opened Parsing

  datatype Cell =
    | Leaf(node: Node)
    | Pair(alternation: bool, left: nat, right: nat)
    | Quantified(nmin: nat, nmax: int, greedy: bool, child: nat)
    | Captured(child: nat)

  /** The children of c are finished nodes, at out or above. */
  predicate Above(c: Cell, k: nat, out: nat) {
    match c
    case Leaf(_) => true
    case Pair(_, l, r) => l >= out && r >= out && l > k && r > k
    case Quantified(_, _, _, x) => x >= out && x > k
    case Captured(x) => x >= out && x > k
  }

  /** The cell at k is the root of a tree whose other cells lie at out or above. */
  predicate Hangs(buf: seq<Cell>, k: nat, out: nat)
    decreases |buf| - k
  {
    k < |buf| && Above(buf[k], k, out) &&
    match buf[k]
    case Leaf(_) => true
    case Pair(_, l, r) => Hangs(buf, l, out) && Hangs(buf, r, out)
    case Quantified(_, _, _, x) => Hangs(buf, x, out)
    case Captured(x) => Hangs(buf, x, out)
  }

  /** The tree that the cell at k denotes. */
  function TreeAt(buf: seq<Cell>, k: nat): (r: Node)
    requires Hangs(buf, k, 0)
    decreases |buf| - k
  {
    match buf[k]
    case Leaf(n) => n
    case Pair(alternation, l, r) =>
      if alternation then Alternation(TreeAt(buf, l), TreeAt(buf, r)) else Concatenation(TreeAt(buf, l), TreeAt(buf, r))
    case Quantified(nmin, nmax, greedy, x) => Quantifier(nmin, nmax, greedy, TreeAt(buf, x))
    case Captured(x) => Capture(TreeAt(buf, x))
  }

  /** A tree is untouched by writes below the finished nodes, other than to its root. */
  lemma {:induction false} Untouched(buf: seq<Cell>, buf': seq<Cell>, k: nat, k': nat, out: nat, out': nat)
    requires Hangs(buf, k, out) && |buf'| == |buf| && k' < |buf| && buf'[k'] == buf[k] && out' <= out && k' < out
    requires forall x :: out <= x < |buf| ==> buf'[x] == buf[x]
    ensures Hangs(buf', k', out') && Hangs(buf', k', 0) && Hangs(buf, k, 0) && TreeAt(buf', k') == TreeAt(buf, k)
    decreases |buf| - k
  {
    match buf[k]
    case Leaf(_) =>
    case Pair(_, l, r) =>
      Finished(buf, buf', l, out, out');
      Finished(buf, buf', r, out, out');
    case Quantified(_, _, _, x) => Finished(buf, buf', x, out, out');
    case Captured(x) => Finished(buf, buf', x, out, out');
  }

  lemma {:induction false} Finished(buf: seq<Cell>, buf': seq<Cell>, k: nat, out: nat, out': nat)
    requires Hangs(buf, k, out) && |buf'| == |buf| && out' <= out <= k
    requires forall x :: out <= x < |buf| ==> buf'[x] == buf[x]
    ensures Hangs(buf', k, out') && Hangs(buf', k, 0) && Hangs(buf, k, 0) && TreeAt(buf', k) == TreeAt(buf, k)
    decreases |buf| - k
  {
    match buf[k]
    case Leaf(_) =>
    case Pair(_, l, r) =>
      Finished(buf, buf', l, out, out');
      Finished(buf, buf', r, out, out');
    case Quantified(_, _, _, x) => Finished(buf, buf', x, out, out');
    case Captured(x) => Finished(buf, buf', x, out, out');
  }

  lemma {:induction false} Loosen(buf: seq<Cell>, k: nat, out: nat)
    requires Hangs(buf, k, out)
    ensures Hangs(buf, k, 0)
    decreases |buf| - k
  {
    match buf[k]
    case Leaf(_) =>
    case Pair(_, l, r) => Loosen(buf, l, out); Loosen(buf, r, out);
    case Quantified(_, _, _, x) => Loosen(buf, x, out);
    case Captured(x) => Loosen(buf, x, out);
  }

  /** A new root for finished trees. */
  predicate Rooted(buf: seq<Cell>, c: Cell, out: nat) {
    match c
    case Leaf(_) => true
    case Pair(_, l, r) => l >= out && r >= out && Hangs(buf, l, out) && Hangs(buf, r, out)
    case Quantified(_, _, _, x) => x >= out && Hangs(buf, x, out)
    case Captured(x) => x >= out && Hangs(buf, x, out)
  }

  function RootTree(buf: seq<Cell>, c: Cell, out: nat): (r: Node)
    requires Rooted(buf, c, out)
  {
    match c
    case Leaf(n) => n
    case Pair(alternation, l, r) =>
      Loosen(buf, l, out); Loosen(buf, r, out);
      if alternation then Alternation(TreeAt(buf, l), TreeAt(buf, r)) else Concatenation(TreeAt(buf, l), TreeAt(buf, r))
    case Quantified(nmin, nmax, greedy, x) => Loosen(buf, x, out); Quantifier(nmin, nmax, greedy, TreeAt(buf, x))
    case Captured(x) => Loosen(buf, x, out); Capture(TreeAt(buf, x))
  }

  /** Writing the new root below the finished nodes makes a tree of it. */
  lemma NewRoot(buf: seq<Cell>, buf': seq<Cell>, k: nat, c: Cell, out: nat)
    requires Rooted(buf, c, out) && k < out <= |buf| == |buf'| && buf'[k] == c
    requires forall x :: out <= x < |buf| ==> buf'[x] == buf[x]
    ensures Hangs(buf', k, out) && Hangs(buf', k, 0) && TreeAt(buf', k) == RootTree(buf, c, out)
  {
    match c
    case Leaf(_) =>
    case Pair(_, l, r) =>
      Finished(buf, buf', l, out, out);
      Finished(buf, buf', r, out, out);
    case Quantified(_, _, _, x) => Finished(buf, buf', x, out, out);
    case Captured(x) => Finished(buf, buf', x, out, out);
  }

  /** The trees at the first n cells, all of whose other cells lie at out or above. */
  predicate AllHang(buf: seq<Cell>, n: nat, out: nat) {
    forall k :: 0 <= k < n ==> Hangs(buf, k, out)
  }

  function TreesAt(buf: seq<Cell>, n: nat, out: nat): (r: seq<Node>)
    requires AllHang(buf, n, out)
    ensures |r| == n
  {
    if n == 0 then [] else Loosen(buf, n - 1, out); TreesAt(buf, n - 1, out) + [TreeAt(buf, n - 1)]
  }

  lemma {:induction false} StackUntouched(buf: seq<Cell>, buf': seq<Cell>, n: nat, out: nat, out': nat)
    requires AllHang(buf, n, out) && |buf'| == |buf| && n <= out <= |buf| && out' <= out
    requires forall k :: 0 <= k < n ==> buf'[k] == buf[k]
    requires forall x :: out <= x < |buf| ==> buf'[x] == buf[x]
    ensures AllHang(buf', n, out') && TreesAt(buf', n, out') == TreesAt(buf, n, out)
  {
    forall k | 0 <= k < n ensures Hangs(buf', k, out') { Untouched(buf, buf', k, k, out, out'); }
    if n > 0 {
      StackUntouched(buf, buf', n - 1, out, out');
      Untouched(buf, buf', n - 1, n - 1, out, out');
    }
  }

  datatype Outcome = Success | Failure | PastEnd

  class ParseContext {
    const p: seq<byte>
    const nodes: array<Cell>
    var sp: nat
    var stack: nat
    var output: nat

    ghost predicate Valid()
      reads this, nodes
    {
      IsPattern(p) && nodes.Length == 2 * |p| + 1 && sp <= |p| + 1 &&
      stack <= output <= nodes.Length && AllHang(nodes[..], stack, output)
    }

    /** The trees on the stack. */
    ghost function Stack(): (r: seq<Node>)
      requires Valid()
      reads this, nodes
      ensures |r| == stack
    {
      TreesAt(nodes[..], stack, output)
    }

    /** The cells in use at both ends. */
    ghost function Used(): (r: int)
      reads this
    {
      stack + nodes.Length - output
    }

    /** estimate_nodes decides the size of the buffer. */
    constructor (pattern: seq<byte>)
      requires IsPattern(pattern)
      ensures Valid() && fresh(nodes) && p == pattern && sp == 0 && stack == 0 && output == nodes.Length
    {
      p := pattern;
      nodes := new Cell[2 * |pattern| + 1](_ => Leaf(Epsilon));
      sp, stack, output := 0, 0, 2 * |pattern| + 1;
    }

    method Push(c: Cell)
      requires Valid() && stack < output && Rooted(nodes[..], c, output)
      modifies this`stack, nodes
      ensures Valid() && stack == old(stack) + 1
      ensures Stack() == old(Stack()) + [old(RootTree(nodes[..], c, output))]
      ensures forall x :: output <= x < nodes.Length ==> nodes[x] == old(nodes[x])
    {
      hide Hangs, Above, RootTree, Rooted;
      ghost var buf := nodes[..];
      nodes[stack] := c;
      stack := stack + 1;
      NewRoot(buf, nodes[..], stack - 1, c, output);
      StackUntouched(buf, nodes[..], stack - 1, output, output);
    }

    method Drop()
      requires Valid() && stack > 0
      modifies this`stack
      ensures Valid() && stack == old(stack) - 1 && Stack() == old(Stack())[..stack]
    {
      stack := stack - 1;
    }

    /** Moves the top of the stack to the finished nodes. */
    method Consume() returns (at: nat)
      requires Valid() && stack > 0
      modifies this`stack, this`output, nodes
      ensures Valid() && stack == old(stack) - 1 && at == output == old(output) - 1
      ensures forall x :: old(output) <= x < nodes.Length ==> nodes[x] == old(nodes[x])
      ensures Stack() == old(Stack())[..stack]
      ensures Hangs(nodes[..], at, output) && Hangs(nodes[..], at, 0)
      ensures TreeAt(nodes[..], at) == old(Stack())[stack]
    {
      hide Hangs, Above;
      ghost var buf := nodes[..];
      Loosen(buf, stack - 1, output);
      output := output - 1;
      stack := stack - 1;
      nodes[output] := nodes[stack];
      at := output;
      Untouched(buf, nodes[..], stack, at, at + 1, at);
      StackUntouched(buf, nodes[..], stack, at + 1, at);
    }

    /** Replaces the two topmost trees by a tree over both. */
    method Join(alternation: bool)
      requires Valid() && stack >= 2 && Used() < nodes.Length
      modifies this`stack, this`output, nodes
      ensures Valid() && stack == old(stack) - 1 && Used() == old(Used()) + 1
      ensures var was := old(Stack());
              var l, r := was[|was| - 2], was[|was| - 1];
              Stack() == was[..|was| - 2] + [if alternation then Alternation(l, r) else Concatenation(l, r)]
    {
      hide Hangs, Above;
      var right := Consume();
      ghost var buf := nodes[..];
      var left := Consume();
      Finished(buf, nodes[..], right, right, left);
      Push(Pair(alternation, left, right));
    }

    method Requantify(nmin: nat, nmax: int, greedy: bool)
      requires Valid() && stack > 0 && Used() < nodes.Length
      modifies this`stack, this`output, nodes
      ensures Valid() && stack == old(stack) && Used() == old(Used()) + 1
      ensures Stack() == old(Requantified(Stack(), nmin, nmax, greedy))
    {
      hide Hangs, Above;
      var child := Consume();
      Push(Quantified(nmin, nmax, greedy, child));
    }

    method Group()
      requires Valid() && stack > 0 && Used() < nodes.Length
      modifies this`stack, this`output, nodes
      ensures Valid() && stack == old(stack) && Used() == old(Used()) + 1
      ensures Stack() == old(Stack())[..stack - 1] + [Capture(old(Stack())[stack - 1])]
    {
      hide Hangs, Above;
      var child := Consume();
      Push(Captured(child));
    }

    method PushLeaf(node: Node, ghost bottom: nat)
      requires Valid() && stack < output && bottom <= stack
      modifies this`stack, nodes
      ensures Valid() && stack == old(stack) + 1
      ensures Stack()[..bottom] == old(Stack()[..bottom]) && Stack()[bottom..] == old(Stack()[bottom..]) + [node]
    {
      hide Hangs, Above, AllHang, TreesAt;
      LeafRooted(nodes[..], node, output);
      Push(Leaf(node));
    }

    method RequantifyLast(nmin: nat, nmax: int, greedy: bool, ghost bottom: nat)
      requires Valid() && bottom < stack && Used() < nodes.Length
      modifies this`stack, this`output, nodes
      ensures Valid() && stack == old(stack) && Used() == old(Used()) + 1
      ensures Stack()[..bottom] == old(Stack()[..bottom])
      ensures Stack()[bottom..] == old(Requantified(Stack()[bottom..], nmin, nmax, greedy))
    {
      hide Hangs, Above, AllHang, TreesAt;
      Requantify(nmin, nmax, greedy);
    }

    /** concatenate: the items above bottom become one tree. */
    method Concatenate(bottom: nat)
      requires Valid() && bottom <= stack && Used() + (if stack == bottom then 1 else stack - bottom - 1) <= nodes.Length
      modifies this`stack, this`output, nodes
      ensures Valid() && stack == bottom + 1
      ensures Used() == old(Used()) + (if old(stack) == bottom then 1 else old(stack) - bottom - 1)
      ensures Stack() == old(Stack())[..bottom] + [Fold(old(Stack())[bottom..])]
    {
      hide Hangs, Above, AllHang, TreesAt;
      if stack == bottom {
        LeafRooted(nodes[..], Epsilon, output);
        Push(Leaf(Epsilon));
      } else {
        ghost var was := Stack();
        while stack - 1 > bottom
          invariant Valid() && bottom < stack <= |was|
          invariant Used() + (stack - bottom - 1) == old(Used() + (stack - bottom - 1))
          invariant Stack()[..bottom] == was[..bottom]
          invariant Fold(Stack()[bottom..]) == Fold(was[bottom..])
        {
          ghost var xs := Stack();
          FoldLast(xs[bottom..]);
          Join(false);
          assert Stack()[bottom..] == xs[bottom..][..|xs| - bottom - 2] +
                 [Concatenation(xs[|xs| - 2], xs[|xs| - 1])];
        }
        assert Stack()[bottom..] == [Stack()[bottom]];
        assert Stack() == was[..bottom] + [Fold(was[bottom..])];
      }
    }

    // ---- Reading the pattern ----

    /** parse_char_class: steps over bracket text to behind its closing bracket. */
    method ParseCharClass() returns (r: Brackets)
      requires Valid() && sp <= |p|
      modifies this`sp
      ensures Valid() && r == BracketsAt(p, old(sp)) && (r.Brackets? ==> sp == r.to + 1)
    {
      hide Hangs, AllHang, TreesAt, BracketEnd;
      var negated := Read(p, sp) == CARET;
      if negated {
        sp := sp + 1;
      }
      var from := sp;
      var to := ParseBracketText();
      r := if to == -1 then NoBrackets else Brackets(negated, from, to);
    }

    method ParseBracketText() returns (to: int)
      requires Valid() && sp <= |p|
      modifies this`sp
      ensures Valid() && to == BracketEnd(p, old(sp), old(sp)) && (to != -1 ==> sp == to + 1)
    {
      hide Hangs, AllHang, TreesAt, BracketEnd;
      var from := sp;
      while true
        invariant from <= sp <= |p| && BracketEnd(p, from, sp) == BracketEnd(p, from, from)
        decreases |p| - sp
      {
        BracketTurn(p, from, sp);
        var ch := Read(p, sp);
        if ch == 0 {
          return -1;
        }
        sp := sp + 1;
        if ch == CLOSE_BRACKET && sp - 1 > from {
          return sp - 1;
        }
        if ch == BACKSLASH {
          ch := Read(p, sp);
          if ch == 0 {
            return -1;
          }
          sp := sp + 1;
        }
        if Read(p, sp) == DASH && Read(p, sp + 1) != CLOSE_BRACKET {
          if Read(p, sp + 1) < ch {
            return -1;
          }
          sp := sp + 2;
        }
      }
    }

    method ParseDigits() returns (value: nat)
      requires Valid() && sp <= |p|
      modifies this`sp
      ensures Valid() && sp <= |p| && DigitsAt(p, old(sp), 0) == Number(value, sp)
    {
      value := 0;
      while IsDigit(Read(p, sp))
        invariant sp <= |p| && DigitsAt(p, sp, value) == DigitsAt(p, old(sp), 0)
        decreases |p| - sp
      {
        value := value * 10 + (Read(p, sp) - 0x30);
        sp := sp + 1;
      }
    }

    /** parse_interval up to its closing brace; without an interval it goes back to where it was. */
    method ParseInterval() returns (r: Interval)
      requires Valid() && sp <= |p|
      modifies this`sp
      ensures Valid() && r == IntervalAt(p, old(sp)) && sp == if r.Interval? then r.next else old(sp)
    {
      hide DigitsAt;
      var from := sp;
      var nmin := ParseDigits();
      var nmax: int;
      if Read(p, sp) == COMMA {
        sp := sp + 1;
        if Read(p, from) != COMMA && Read(p, sp) == CLOSE_BRACE {
          nmax := -1;
        } else {
          var comma := sp;
          nmax := ParseDigits();
          if sp == comma || Read(p, sp) != CLOSE_BRACE || nmax < nmin {
            sp := from;
            return NoInterval;
          }
        }
      } else if Read(p, from) != CLOSE_BRACE && Read(p, sp) == CLOSE_BRACE {
        nmax := nmin;
      } else {
        sp := from;
        return NoInterval;
      }
      sp := sp + 1;
      return Interval(nmin, nmax, sp);
    }

    /** The question mark that makes a quantifier lazy. */
    method ParseGreedy() returns (greedy: bool)
      requires Valid() && sp <= |p|
      modifies this`sp
      ensures Valid() && greedy == (Read(p, old(sp)) != QUESTION)
      ensures sp == if greedy then old(sp) else old(sp) + 1
    {
      greedy := true;
      if Read(p, sp) == QUESTION {
        sp := sp + 1;
        greedy := false;
      }
    }

    /** The token at sp, and sp behind it. */
    method NextToken(some: bool) returns (r: Token)
      requires Valid() && sp <= |p|
      modifies this`sp
      ensures Valid() && r == TokenAt(p, old(sp), some)
      ensures r.Push? || r.Requantify? ==> sp == r.next
      ensures r.Alternative? || r.Group? || r.Stop? ==> sp == old(sp) + 1
    {
      hide BracketEnd, DigitsAt, Hangs;
      var ch := Read(p, sp);
      if ch == 0 {
        sp := sp + 1;
        return Stop(false);
      }
      sp := sp + 1;
      if ch == BACKSLASH {
        if sp == |p| {
          return Cut;
        }
        sp := sp + 1;
        return Token.Push(Character(p[sp - 1]), sp);
      } else if ch == DOT {
        return Token.Push(AnyCharacter, sp);
      } else if ch == OPEN_BRACKET {
        var b := ParseCharClass();
        if b.NoBrackets? {
          return Bad;
        }
        return Token.Push(Class(b.negated, p[b.from..b.to + 1]), sp);
      } else if ch == BAR {
        return Alternative;
      } else if (ch == QUESTION || ch == STAR || ch == PLUS) && some {
        var greedy := ParseGreedy();
        return Token.Requantify(if ch == PLUS then 1 else 0, if ch == QUESTION then 1 else -1, greedy, sp);
      } else if ch == CARET {
        return Token.Push(AnchorBegin, sp);
      } else if ch == DOLLAR {
        return Token.Push(AnchorEnd, sp);
      } else if ch == OPEN {
        return Token.Group;
      } else if ch == CLOSE {
        return Stop(true);
      }
      if ch == OPEN_BRACE && some {
        var b := ParseInterval();
        if b.Interval? {
          var greedy := ParseGreedy();
          return Token.Requantify(b.nmin, b.nmax, greedy, sp);
        }
      }
      return Token.Push(Character(ch), sp);
    }

    // ---- The parser ----

    /** Empty alternatives, told by the type of the topmost nodes. */
    method TopEmpty() returns (left: bool, right: bool)
      requires Valid() && stack >= 2
      ensures left == (Stack()[stack - 2] == Epsilon) && right == (Stack()[stack - 1] == Epsilon)
    {
      hide AllHang;
      TopTrees(nodes[..], stack, output);
      left, right := nodes[stack - 2] == Leaf(Epsilon), nodes[stack - 1] == Leaf(Epsilon);
    }

    /** The two alternatives on top of the stack become one tree. */
    method Alternate()
      requires Valid() && stack >= 2 && Used() < nodes.Length
      modifies this`stack, this`output, nodes
      ensures Valid() && stack == old(stack) - 1 && Used() <= old(Used()) + 1
      ensures var was := old(Stack()); Stack() == was[..|was| - 2] + [Either(was[|was| - 2], was[|was| - 1])]
    {
      hide Hangs, Above, AllHang, TreesAt;
      ghost var was := Stack();
      var leftEmpty, rightEmpty := TopEmpty();
      if leftEmpty && rightEmpty {
        Drop();
      } else if leftEmpty {
        var right := Consume();
        Drop();
        Push(Quantified(0, 1, true, right));
      } else if rightEmpty {
        Drop();
        var left := Consume();
        Push(Quantified(0, 1, true, left));
      } else {
        Join(true);
      }
    }

    /** The bar: what is there is one alternative, and the rest of the context the other. */
    method ParseAlternative(depth: nat, bottom: nat, ghost owed: nat) returns (r: Outcome)
      requires Valid() && sp <= |p| && bottom <= stack && Used() + (stack - bottom) + owed <= 2 * sp - 2
      modifies this`sp, this`stack, this`output, nodes
      ensures var right := Context(p, old(sp), depth, []);
              (r == Success <==> right.Accepted?) && (r == Failure <==> right.Rejected?) && (r == PastEnd <==> right.Overrun?)
      ensures r == Success ==>
        var right := Context(p, old(sp), depth, []);
        Valid() && sp == right.sp && Used() + owed <= 2 * sp - 1 &&
        Stack() == old(Stack())[..bottom] + [Either(Fold(old(Stack())[bottom..]), right.tree)]
      decreases |p| - sp, 1
    {
      hide Hangs, Above, AllHang, TreesAt, Context, TokenAt, Fold, Either;
      Concatenate(bottom);
      r := ParseInContext(depth, owed + 1);
      if r == Success {
        Alternate();
      }
    }

    /** The opening parenthesis: a context of its own up to the closing one, as a capture. */
    method ParseGroup(depth: nat, ghost owed: nat) returns (r: Outcome)
      requires Valid() && sp <= |p| && Used() + owed <= 2 * sp && owed > 0
      modifies this`sp, this`stack, this`output, nodes
      ensures var body := Context(p, old(sp), depth + 1, []);
              (r == Success <==> body.Accepted?) && (r == Failure <==> body.Rejected?) && (r == PastEnd <==> body.Overrun?)
      ensures r == Success ==>
        var body := Context(p, old(sp), depth + 1, []);
        Valid() && sp == body.sp && Used() + owed <= 2 * sp && Stack() == old(Stack()) + [Capture(body.tree)]
      decreases |p| - sp, 1
    {
      hide Hangs, Above, AllHang, TreesAt, Context;
      r := ParseInContext(depth + 1, owed);
      if r == Success {
        Group();
      }
    }

    /** parse_context: leaves the tree of the context on the stack, above what was there. The
        room counted in owed is left for the contexts around it, so that at no push the
        stack has grown up to the finished nodes. */
    method ParseInContext(depth: nat, ghost owed: nat) returns (r: Outcome)
      requires Valid() && sp <= |p| && Used() + owed <= 2 * sp
      modifies this`sp, this`stack, this`output, nodes
      ensures var spec := Context(p, old(sp), depth, []);
              (r == Success <==> spec.Accepted?) && (r == Failure <==> spec.Rejected?) && (r == PastEnd <==> spec.Overrun?)
      ensures r == Success ==>
        var spec := Context(p, old(sp), depth, []);
        Valid() && sp == spec.sp && Stack() == old(Stack()) + [spec.tree] && Used() + owed <= 2 * sp - 1
      decreases |p| - sp, 0
    {
      hide Hangs, Above, AllHang, TreesAt, Context, TokenAt, Fold, Requantified, Either;
      ghost var below := Stack();
      var bottom := stack;
      assert Stack()[bottom..] == [];
      while true
        invariant Valid() && old(sp) <= sp <= |p| && bottom <= stack && Stack()[..bottom] == below
        invariant Used() + (stack - bottom) + owed <= 2 * sp
        invariant Context(p, old(sp), depth, []) == Context(p, sp, depth, Stack()[bottom..])
        decreases |p| - sp
      {
        ghost var items := Stack()[bottom..];
        ContextStep(p, sp, depth, items);
        var token := NextToken(stack > bottom);
        match token {
          case Push(node, _) =>
            PushLeaf(node, bottom);
          case Requantify(nmin, nmax, greedy, _) =>
            RequantifyLast(nmin, nmax, greedy, bottom);
          case Alternative =>
            r := ParseAlternative(depth, bottom, owed);
            return r;
          case Group =>
            r := ParseGroup(depth, owed + (stack - bottom) + 1);
            if r != Success {
              return r;
            }
            assert Stack()[bottom..] == items + [Stack()[stack - 1]];
          case Stop(paren) =>
            if paren != (depth > 0) {
              return Failure;
            }
            Concatenate(bottom);
            return Success;
          case Bad => return Failure;
          case Cut => return PastEnd;
        }
      }
    }
  }

  lemma LeafRooted(buf: seq<Cell>, n: Node, out: nat)
    ensures Rooted(buf, Leaf(n), out) && RootTree(buf, Leaf(n), out) == n
  {
  }

  /** Joining the last two items first does not change the tree of the whole. */
  lemma {:induction false} FoldLast(items: seq<Node>)
    requires |items| >= 2
    ensures var n := |items| - 2; Fold(items[..n] + [Concatenation(items[n], items[n + 1])]) == Fold(items)
  {
    var n := |items| - 2;
    if n > 0 {
      FoldLast(items[1..]);
      assert items[1..][..n - 1] == items[1..n];
      assert (items[..n] + [Concatenation(items[n], items[n + 1])])[1..] ==
             items[1..n] + [Concatenation(items[n], items[n + 1])];
    } else {
      assert items[1..] == [items[1]];
    }
  }

  /** A node is empty exactly when its tree is. */
  lemma TopTrees(buf: seq<Cell>, n: nat, out: nat)
    requires AllHang(buf, n, out) && n >= 2
    ensures n <= |buf|
    ensures TreesAt(buf, n, out)[n - 1] == Epsilon <==> buf[n - 1] == Leaf(Epsilon)
    ensures TreesAt(buf, n, out)[n - 2] == Epsilon <==> buf[n - 2] == Leaf(Epsilon)
  {
    assert Hangs(buf, n - 1, out) && Hangs(buf, n - 2, out);
    Loosen(buf, n - 1, out);
    Loosen(buf, n - 2, out);
    assert TreesAt(buf, n - 1, out)[n - 2] == TreeAt(buf, n - 2);
  }

  /** cregex_parse: the tree hangs from the first cell of the buffer, the only one on the stack. */
  method ParsePattern(p: seq<byte>) returns (r: Outcome, context: ParseContext)
    requires IsPattern(p)
    ensures fresh(context) && fresh(context.nodes)
    ensures (r == Success <==> Parse(p).Accepted?) && (r == Failure <==> Parse(p).Rejected?) &&
            (r == PastEnd <==> Parse(p).Overrun?)
    ensures r == Success ==>
      context.Valid() && context.stack == 1 && Hangs(context.nodes[..], 0, 0) &&
      TreeAt(context.nodes[..], 0) == Parse(p).tree
  {
    hide Hangs, Above, Context;
    context := new ParseContext(p);
    assert context.Stack() == [];
    r := context.ParseInContext(0, 0);
    if r == Success {
      Loosen(context.nodes[..], 0, context.output);
      assert context.Stack() == [Parse(p).tree];
      assert TreesAt(context.nodes[..], 1, context.output)[0] == TreeAt(context.nodes[..], 0);
    }
  }
}
