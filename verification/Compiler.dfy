/** The compiler of cregex_compile.c: a context that emits into an instruction array and
    patches jump and split targets once they are known. */
module Compiler {
  import opened CharClass
  import opened Syntax
  import opened Program
  import opened Codegen

  /** node_is_anchored: it looks through quantifiers whatever their lower bound. */
  predicate Anchored(n: Node) {
    match n
    case Concatenation(l, _) => Anchored(l)
    case Alternation(l, r) => Anchored(l) && Anchored(r)
    case Quantifier(_, _, _, q) => Anchored(q)
    case AnchorBegin => true
    case Capture(c) => Anchored(c)
    case _ => false
  }

  /** The lazy skip that is put before patterns that are not anchored. */
  const SKIP := Quantifier(0, -1, false, AnyCharacter)

  /** The tree that is compiled: the whole match as capture 0, after the lazy skip if needed. */
  function Wrapped(root: Node): (r: Node)
    ensures Valid(root) ==> Valid(r)
  {
    if Anchored(root) then Capture(root) else Concatenation(SKIP, Capture(root))
  }

  function EstimateInstructions(root: Node): (r: nat)
    requires Valid(root)
  {
    Count(root) + (if Anchored(root) then 0 else 3) + 2 + 1
  }

  /** The finished program for a tree. */
  function ProgramOf(root: Node): (r: Code)
    requires Valid(root)
    ensures |r| == EstimateInstructions(root)
  {
    EstimateIs(root);
    CodeOf(Wrapped(root), 0, 0) + [Match]
  }

  lemma EstimateIs(root: Node)
    requires Valid(root)
    ensures Count(Wrapped(root)) + 1 == EstimateInstructions(root)
  {
    if !Anchored(root) { OpenCount(0, false, AnyCharacter); }
  }

  class Emitter {
    const code: array<Instr>
    var pc: nat
    var ncaptures: nat

    constructor (size: nat)
      ensures pc == 0 && ncaptures == 0 && fresh(code) && code.Length == size
    {
      code := new Instr[size](_ => Match);
      pc, ncaptures := 0, 0;
    }

    method Emit(ins: Instr) returns (at: nat)
      requires pc < code.Length
      modifies this`pc, code
      ensures at == old(pc) && pc == old(pc) + 1
      ensures code[..pc] == old(code[..pc]) + [ins]
    {
      code[pc] := ins;
      at := pc;
      pc := pc + 1;
    }

    /** Changing one emitted instruction through the pointer kept to it. */
    method Patch(at: nat, ins: Instr)
      requires at < pc <= code.Length
      modifies code
      ensures code[..pc] == old(code[..pc])[at := ins]
    {
      code[at] := ins;
    }

    /** compile_context: emits exactly the code of the tree after what is already there. */
    method CompileContext(n: Node) returns (bottom: nat)
      requires Valid(n) && pc + Count(n) <= code.Length
      modifies this`pc, this`ncaptures, code
      ensures bottom == old(pc) && pc == old(pc) + Count(n)
      ensures ncaptures == NextCapture(n, old(ncaptures))
      ensures code[..pc] == old(code[..pc]) + CodeOf(n, old(pc), old(ncaptures))
      decreases n, 1
    {
      hide Count, NextCapture, CodeOf, WellFormed;
      bottom := pc;
      if n.Concatenation? {
        CompileConcatenation(n.left, n.right);
      } else if n.Alternation? {
        CompileAlternation(n.left, n.right);
      } else if n.Quantifier? {
        CompileQuantifier(n.nmin, n.nmax, n.greedy, n.quantified);
      } else if n.Capture? {
        CompileCapture(n.captured);
      } else {
        CompileLeaf(n);
      }
    }

    /** The cases that emit at most one instruction. */
    method CompileLeaf(n: Node)
      requires Leaf(n) && Valid(n) && pc + Count(n) <= code.Length
      modifies this`pc, code
      ensures pc == old(pc) + Count(n) && ncaptures == NextCapture(n, ncaptures)
      ensures code[..pc] == old(code[..pc]) + CodeOf(n, old(pc), ncaptures)
    {
      hide Copies, Optionals, WellFormed, InClass, Contains, ClassBits, Branches, Order, BitmapOf;
      match n {
        case Character(ch) => var _ := Emit(Char(ch));
        case AnyCharacter => var _ := Emit(AnyChar);
        case Class(negated, text) =>
          var klass := CompileCharClass(text);
          var _ := Emit(if negated then CharClassNegated(klass) else CharClass(klass));
        case AnchorBegin => var _ := Emit(AssertBegin);
        case AnchorEnd => var _ := Emit(AssertEnd);
        case Epsilon =>
      }
    }

    method CompileConcatenation(l: Node, r: Node)
      requires Valid(l) && Valid(r) && pc + Count(Concatenation(l, r)) <= code.Length
      modifies this`pc, this`ncaptures, code
      ensures pc == old(pc) + Count(Concatenation(l, r))
      ensures ncaptures == NextCapture(Concatenation(l, r), old(ncaptures))
      ensures code[..pc] == old(code[..pc]) + CodeOf(Concatenation(l, r), old(pc), old(ncaptures))
      decreases Concatenation(l, r), 0
    {
      hide *;
      ConcatenationCode(l, r, pc, ncaptures);
      var _ := CompileContext(l);
      var _ := CompileContext(r);
    }

    method CompileCapture(x: Node)
      requires Valid(x) && pc + Count(Capture(x)) <= code.Length
      modifies this`pc, this`ncaptures, code
      ensures pc == old(pc) + Count(Capture(x))
      ensures ncaptures == NextCapture(Capture(x), old(ncaptures))
      ensures code[..pc] == old(code[..pc]) + CodeOf(Capture(x), old(pc), old(ncaptures))
      decreases Capture(x), 0
    {
      hide *;
      CaptureCode(x, pc, ncaptures);
      var capture := ncaptures * 2;
      ncaptures := ncaptures + 1;
      var _ := Emit(Save(capture));
      var _ := CompileContext(x);
      var _ := Emit(Save(capture + 1));
    }

    method CompileAlternation(l: Node, r: Node)
      requires Valid(l) && Valid(r) && pc + Count(Alternation(l, r)) <= code.Length
      modifies this`pc, this`ncaptures, code
      ensures pc == old(pc) + Count(Alternation(l, r))
      ensures ncaptures == NextCapture(Alternation(l, r), old(ncaptures))
      ensures code[..pc] == old(code[..pc]) + CodeOf(Alternation(l, r), old(pc), old(ncaptures))
      decreases Alternation(l, r), 0
    {
      hide *;
      ghost var b, c, pre := pc, ncaptures, code[..pc];
      ghost var x, y := CodeOf(l, b + 1, c), CodeOf(r, b + 2 + Count(l), NextCapture(l, c));
      AlternationCode(l, r, b, c);
      var split := Emit(Split(0, 0));
      var first := CompileContext(l);
      Patched(pre, Split(0, 0), x, Split(first, 0));
      Patch(split, Split(first, 0));
      var jump := Emit(Jump(0));
      var second := CompileContext(r);
      PatchedTwice(pre, Split(first, 0), x, Jump(0), y, Split(first, second), Jump(pc));
      Patch(split, Split(first, second));
      Patch(jump, Jump(pc));
      Regroup(pre, b, x, y);
    }

    method CompileQuantifier(nmin: nat, nmax: int, greedy: bool, q: Node)
      requires Valid(q) && (nmax == -1 || nmin <= nmax)
      requires pc + Count(Quantifier(nmin, nmax, greedy, q)) <= code.Length
      modifies this`pc, this`ncaptures, code
      ensures pc == old(pc) + Count(Quantifier(nmin, nmax, greedy, q))
      ensures ncaptures == NextCapture(Quantifier(nmin, nmax, greedy, q), old(ncaptures))
      ensures code[..pc] == old(code[..pc]) + CodeOf(Quantifier(nmin, nmax, greedy, q), old(pc), old(ncaptures))
      decreases Quantifier(nmin, nmax, greedy, q), 0
    {
      hide *;
      if nmax > nmin {
        CompileRange(nmin, nmax, greedy, q);
      } else if nmax != -1 {
        CompileExactly(nmin, greedy, q);
      } else if nmin == 0 {
        CompileStar(greedy, q);
      } else {
        CompilePlus(nmin, greedy, q);
      }
    }

    method CompileRange(nmin: nat, nmax: nat, greedy: bool, q: Node)
      requires Valid(q) && nmin < nmax && pc + Count(Quantifier(nmin, nmax, greedy, q)) <= code.Length
      modifies this`pc, this`ncaptures, code
      ensures pc == old(pc) + Count(Quantifier(nmin, nmax, greedy, q))
      ensures ncaptures == NextCapture(Quantifier(nmin, nmax, greedy, q), old(ncaptures))
      ensures code[..pc] == old(code[..pc]) + CodeOf(Quantifier(nmin, nmax, greedy, q), old(pc), old(ncaptures))
      decreases q, 3
    {
      hide *;
      ghost var b, mid := pc, pc + nmin * Count(q);
      var first := ncaptures;
      RangeCount(nmin, nmax, greedy, q);
      RangeCode(nmin, nmax, greedy, q, b, mid, first);
      QuantifierCaptures(nmin, nmax, greedy, q, first);
      var _ := CompileCopies(q, nmin);
      CompileOptionals(q, nmax - nmin, greedy, first);
    }

    method CompileExactly(n: nat, greedy: bool, q: Node)
      requires Valid(q) && pc + Count(Quantifier(n, n, greedy, q)) <= code.Length
      modifies this`pc, this`ncaptures, code
      ensures pc == old(pc) + Count(Quantifier(n, n, greedy, q))
      ensures ncaptures == NextCapture(Quantifier(n, n, greedy, q), old(ncaptures))
      ensures code[..pc] == old(code[..pc]) + CodeOf(Quantifier(n, n, greedy, q), old(pc), old(ncaptures))
      decreases q, 3
    {
      hide *;
      RangeCount(n, n, greedy, q);
      ExactCode(n, greedy, q, pc, ncaptures);
      QuantifierCaptures(n, n, greedy, q, ncaptures);
      var _ := CompileCopies(q, n);
    }

    method CompilePlus(nmin: nat, greedy: bool, q: Node)
      requires Valid(q) && nmin > 0 && pc + Count(Quantifier(nmin, -1, greedy, q)) <= code.Length
      modifies this`pc, this`ncaptures, code
      ensures pc == old(pc) + Count(Quantifier(nmin, -1, greedy, q))
      ensures ncaptures == NextCapture(Quantifier(nmin, -1, greedy, q), old(ncaptures))
      ensures code[..pc] == old(code[..pc]) + CodeOf(Quantifier(nmin, -1, greedy, q), old(pc), old(ncaptures))
      decreases q, 3
    {
      hide *;
      OpenCount(nmin, greedy, q);
      ghost var b, c := pc, ncaptures;
      QuantifierCaptures(nmin, -1, greedy, q, c);
      var last := CompileCopies(q, nmin);
      PlusCode(nmin, greedy, q, b, last, pc + 1, c);
      CompileLoopBack(greedy, last);
    }

    /** The split after the required copies, back to the last of them. */
    method CompileLoopBack(greedy: bool, last: nat)
      requires pc < code.Length
      modifies this`pc, code
      ensures pc == old(pc) + 1 && code[..pc] == old(code[..pc]) + [Order(greedy, last, old(pc) + 1)]
    {
      var split := Emit(Split(0, 0));
      Patch(split, if greedy then Split(last, pc) else Split(pc, last));
    }

    /** The loop of a quantifier without bounds. */
    method CompileStar(greedy: bool, q: Node)
      requires Valid(q) && pc + Count(Quantifier(0, -1, greedy, q)) <= code.Length
      modifies this`pc, this`ncaptures, code
      ensures pc == old(pc) + Count(Quantifier(0, -1, greedy, q))
      ensures ncaptures == NextCapture(Quantifier(0, -1, greedy, q), old(ncaptures))
      ensures code[..pc] == old(code[..pc]) + CodeOf(Quantifier(0, -1, greedy, q), old(pc), old(ncaptures))
      decreases q, 3
    {
      hide *;
      ghost var b, pre, x := pc, code[..pc], CodeOf(q, pc + 1, ncaptures);
      OpenCount(0, greedy, q);
      StarCode(greedy, q, b, b + Count(q) + 2, ncaptures);
      QuantifierCaptures(0, -1, greedy, q, ncaptures);
      var split := Emit(Split(0, 0));
      var stay := CompileContext(q);
      Patched(pre, Split(0, 0), x, Split(stay, 0));
      Patch(split, Split(stay, 0));
      var jump := Emit(Jump(0));
      OrderIs(greedy, stay, pc);
      PatchedTwice(pre, Split(stay, 0), x, Jump(0), [], Order(greedy, stay, pc), Jump(split));
      Bracketed(pre, Order(greedy, stay, pc), x, Jump(split));
      Patch(split, if greedy then Split(stay, pc) else Split(pc, stay));
      Patch(jump, Jump(split));
    }

    /** The nmin required copies, each numbering its captures from the same number; last is
        where the last of them starts. */
    method CompileCopies(q: Node, nmin: nat) returns (last: nat)
      requires Valid(q) && pc + nmin * Count(q) <= code.Length
      modifies this`pc, this`ncaptures, code
      ensures pc == old(pc) + nmin * Count(q)
      ensures nmin > 0 ==> last + Count(q) == pc
      ensures ncaptures == if nmin == 0 then old(ncaptures) else NextCapture(q, old(ncaptures))
      ensures code[..pc] == old(code[..pc]) + Copies(q, nmin, old(pc), old(ncaptures))
      decreases q, 2
    {
      hide *;
      ghost var b, pre := pc, code[..pc];
      var first := ncaptures;
      last := 0;
      NoCopy(q, pc, first);
      for i := 0 to nmin
        invariant pc == b + i * Count(q)
        invariant i > 0 ==> last + Count(q) == pc
        invariant ncaptures == if i == 0 then first else NextCapture(q, first)
        invariant code[..pc] == pre + Copies(q, i, b, first)
      {
        MoreRoom(i, nmin, Count(q));
        NextCopy(q, i, b, pc, first);
        Reassociate(pre, Copies(q, i, b, first), CodeOf(q, pc, first));
        ncaptures := first;
        last := CompileContext(q);
      }
    }

    method CompileOptionals(q: Node, k: nat, greedy: bool, first: nat)
      requires Valid(q) && pc + k * (Count(q) + 1) <= code.Length && k > 0
      modifies this`pc, this`ncaptures, code
      ensures pc == old(pc) + k * (Count(q) + 1)
      ensures ncaptures == NextCapture(q, first)
      ensures code[..pc] == old(code[..pc]) + Optionals(q, k, greedy, old(pc), first)
      decreases q, 2
    {
      hide *;
      ghost var b, pre := pc, code[..pc];
      NoOptional(q, greedy, pc, first);
      for i := 0 to k
        invariant pc == b + i * (Count(q) + 1)
        invariant i > 0 ==> ncaptures == NextCapture(q, first)
        invariant code[..pc] == pre + Optionals(q, i, greedy, b, first)
      {
        MoreRoom(i, k, Count(q) + 1);
        ncaptures := first;
        ghost var now := code[..pc];
        var split := Emit(Split(0, 0));
        var stay := CompileContext(q);
        OrderIs(greedy, stay, pc);
        Patched(now, Split(0, 0), CodeOf(q, stay, first), Order(greedy, stay, pc));
        Patch(split, if greedy then Split(stay, pc) else Split(pc, stay));
        NextOptional(q, i, greedy, b, split, pc, first);
      }
    }
  }

  // ---- How the pieces emitted by each case make up the code of the tree ----

  lemma Reassociate(x: Code, y: Code, z: Code)
    ensures x + y + z == x + (y + z)
  {
  }

  lemma Patched(pre: Code, was: Instr, rest: Code, ins: Instr)
    ensures (pre + [was] + rest)[|pre| := ins] == pre + [ins] + rest
  {
  }

  lemma PatchedTwice(pre: Code, a: Instr, x: Code, b: Instr, y: Code, a': Instr, b': Instr)
    ensures var code := pre + [a] + x + [b] + y;
            code[|pre| := a'][|pre| + 1 + |x| := b'] == pre + [a'] + x + [b'] + y
  {
    Patched(pre, a, x + [b] + y, a');
    assert pre + [a] + x + [b] + y == pre + [a] + (x + [b] + y);
    assert pre + [a'] + x + [b] + y == pre + [a'] + (x + [b] + y);
    Patched(pre + [a'] + x, b, y, b');
  }

  lemma Bracketed(pre: Code, a: Instr, x: Code, b: Instr)
    ensures pre + [a] + x + [b] + [] == pre + ([a] + x + [b])
  {
  }

  lemma Regroup(pre: Code, b: nat, x: Code, y: Code)
    ensures pre + [Split(b + 1, b + 2 + |x|)] + x + [Jump(b + 2 + |x| + |y|)] + y == pre + Branches(b, x, y)
  {
  }

  lemma QuantifierCaptures(nmin: nat, nmax: int, greedy: bool, q: Node, c: nat)
    ensures NextCapture(Quantifier(nmin, nmax, greedy, q), c) == if nmin == 0 && nmax == 0 then c else NextCapture(q, c)
  {
  }

  lemma OrderIs(greedy: bool, stay: nat, leave: nat)
    ensures Order(greedy, stay, leave) == if greedy then Split(stay, leave) else Split(leave, stay)
  {
  }

  lemma NoCopy(q: Node, b: nat, c: nat)
    requires Valid(q)
    ensures Copies(q, 0, b, c) == []
  {
  }

  lemma NoOptional(q: Node, greedy: bool, b: nat, c: nat)
    requires Valid(q)
    ensures Optionals(q, 0, greedy, b, c) == []
  {
  }

  lemma MoreRoom(i: nat, k: nat, n: nat)
    requires i < k
    ensures i * n + n <= k * n && (i + 1) * n == i * n + n
  {
  }

  /** cregex_compile_node: the estimate is exactly the room the program needs. */
  method CompileNode(root: Node) returns (program: array<Instr>)
    requires Valid(root)
    ensures program[..] == ProgramOf(root)
  {
    hide *;
    WrappedCount(root);
    var context := new Emitter(EstimateInstructions(root));
    var _ := context.CompileContext(Wrapped(root));
    var _ := context.Emit(Match);
    program := context.code;
    assert program[..] == program[..context.pc];
  }

  lemma WrappedCount(root: Node)
    requires Valid(root)
    ensures Count(Wrapped(root)) + 1 == EstimateInstructions(root)
    ensures ProgramOf(root) == CodeOf(Wrapped(root), 0, 0) + [Match]
  {
    hide CodeOf, WellFormed;
    EstimateIs(root);
  }
}
