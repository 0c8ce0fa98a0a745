/** The patterns that are read past their end: exactly those in which the last character is a
    backslash that the parser comes to as the start of an item. */
module PastEnd {
  import opened Bytes
  import opened CharClass
  import opened Syntax
  import opened Parsing

  /** The pattern with an opening bracket and k closing parentheses behind it: the bracket is an
      item of its own only if the pattern escapes it. */
  function Extended(p: seq<byte>, k: nat): (e: seq<byte>)
    ensures |e| == |p| + 1 + k && e[..|p|] == p && e[|p|] == OPEN_BRACKET
    ensures forall i :: |p| < i < |e| ==> e[i] == CLOSE
  {
    p + [OPEN_BRACKET] + seq(k, _ => CLOSE)
  }

  lemma ExtendedPattern(p: seq<byte>, k: nat)
    requires IsPattern(p)
    ensures IsPattern(Extended(p, k))
    ensures forall i :: 0 <= i < |p| ==> Extended(p, k)[i] == p[i]
  {
    var e := Extended(p, k);
    forall i | 0 <= i < |p| ensures e[i] == p[i] { assert e[..|p|][i] == p[i]; }
  }

  /** e begins with p and goes on without a closing bracket, question mark, comma, brace or digit
      right behind it. */
  predicate Longer(p: seq<byte>, e: seq<byte>) {
    |p| < |e| && (forall i :: 0 <= i < |p| ==> e[i] == p[i]) && e[|p|] == OPEN_BRACKET &&
    forall i :: |p| < i < |e| ==> e[i] == CLOSE
  }

  /** Brackets that are closed in p are so in e, and no others. */
  lemma {:induction false} BracketsSame(p: seq<byte>, e: seq<byte>, from: nat, k: nat)
    requires IsPattern(p) && IsPattern(e) && Longer(p, e) && from <= k <= |p|
    ensures BracketEnd(e, from, k) == BracketEnd(p, from, k)
    decreases |p| - k
  {
    hide BracketEnd;
    BracketTurn(p, from, k);
    BracketTurn(e, from, k);
    if k == |p| {
      NeverClosed(p, e, from, k);
    } else {
      var n := if p[k] == BACKSLASH then k + 2 else k + 1;
      if n <= |p| { BracketsSame(p, e, from, n); } else { NeverClosed(p, e, from, n); }
      if n + 2 <= |p| { BracketsSame(p, e, from, n + 2); } else if n + 2 <= |e| { NeverClosed(p, e, from, n + 2); }
    }
  }

  /** Behind p no bracket is closed. */
  lemma {:induction false} NeverClosed(p: seq<byte>, e: seq<byte>, from: nat, k: nat)
    requires IsPattern(e) && Longer(p, e) && from <= k <= |e| && k >= |p|
    ensures BracketEnd(e, from, k) == -1
    decreases |e| - k
  {
    hide BracketEnd;
    BracketTurn(e, from, k);
    if k < |e| {
      NeverClosed(p, e, from, k + 1);
      if k + 3 <= |e| { NeverClosed(p, e, from, k + 3); }
    }
  }

  lemma {:induction false} DigitsSame(p: seq<byte>, e: seq<byte>, k: nat, acc: nat)
    requires Longer(p, e) && k <= |p|
    ensures DigitsAt(e, k, acc) == DigitsAt(p, k, acc)
    decreases |p| - k
  {
    if k < |p| && IsDigit(p[k]) { DigitsSame(p, e, k + 1, acc * 10 + (p[k] - 0x30)); }
  }

  lemma IntervalsSame(p: seq<byte>, e: seq<byte>, from: nat)
    requires Longer(p, e) && from <= |p|
    ensures IntervalAt(e, from) == IntervalAt(p, from)
  {
    hide DigitsAt;
    DigitsSame(p, e, from, 0);
    var a := DigitsAt(p, from, 0);
    if a.next < |p| { DigitsSame(p, e, a.next + 1, 0); }
  }

  /** Every token inside p is the same, but for a backslash at its end, which escapes the bracket. */
  lemma TokenSame(p: seq<byte>, e: seq<byte>, sp: nat, some: bool)
    requires IsPattern(p) && IsPattern(e) && Longer(p, e) && sp < |p|
    ensures TokenAt(p, sp, some) != Cut ==> TokenAt(e, sp, some) == TokenAt(p, sp, some)
    ensures TokenAt(p, sp, some) == Cut ==> sp + 1 == |p| && TokenAt(e, sp, some) == Push(Character(OPEN_BRACKET), |p| + 1)
  {
    hide IntervalAt, BracketEnd;
    if p[sp] == OPEN_BRACKET {
      BracketsSame(p, e, sp + 1, sp + 1);
      if sp + 2 <= |p| { BracketsSame(p, e, sp + 2, sp + 2); } else { NeverClosed(p, e, sp + 2, sp + 2); }
      var b := BracketsAt(p, sp + 1);
      if b.Brackets? { assert e[b.from..b.to + 1] == p[b.from..b.to + 1]; }
    }
    if p[sp] == OPEN_BRACE { IntervalsSame(p, e, sp + 1); }
  }

  lemma EndToken(p: seq<byte>, e: seq<byte>, some: bool)
    requires IsPattern(e) && Longer(p, e)
    ensures TokenAt(e, |p|, some) == Bad
  {
    hide BracketEnd;
    NeverClosed(p, e, |p| + 1, |p| + 1);
  }

  // ---- Where p is not read past its end, its extensions are refused ----

  /** A context of p that ends inside p ends so in e; one that does not is refused. */
  lemma {:induction false} NotPast(p: seq<byte>, e: seq<byte>, sp: nat, depth: nat, items: seq<Node>)
    requires IsPattern(p) && IsPattern(e) && Longer(p, e) && sp <= |p| && !Context(p, sp, depth, items).Overrun?
    ensures Context(e, sp, depth, items) ==
            if depth > 0 && Context(p, sp, depth, items).Accepted? then Context(p, sp, depth, items) else Rejected
    decreases |p| - sp
  {
    hide TokenAt, Longer, Fold, Either, Requantified, Context;
    ContextStep(p, sp, depth, items);
    LongerIs(p, e);
    ContextStep(e, sp, depth, items);
    if sp == |p| {
      EndToken(p, e, items != []);
      LastToken(p, items != []);
    } else {
      TokenSame(p, e, sp, items != []);
      match TokenAt(p, sp, items != []) {
        case Push(node, next) => NotPast(p, e, next, depth, items + [node]);
        case Requantify(nmin, nmax, greedy, next) => NotPast(p, e, next, depth, Requantified(items, nmin, nmax, greedy));
        case Alternative => NotPast(p, e, sp + 1, depth, []);
        case Group =>
          NotPast(p, e, sp + 1, depth + 1, []);
          var body := Context(p, sp + 1, depth + 1, []);
          if body.Accepted? { NotPast(p, e, body.sp, depth, items + [Capture(body.tree)]); }
        case _ =>
      }
    }
  }

  lemma LongerIs(p: seq<byte>, e: seq<byte>)
    requires Longer(p, e)
    ensures |p| < |e|
  {
  }

  lemma LastToken(p: seq<byte>, some: bool)
    requires IsPattern(p)
    ensures TokenAt(p, |p|, some) == Stop(false)
  {
  }

  // ---- Where it is, one extension is accepted ----

  /** D parentheses are open where the backslash stands. */
  lemma {:induction false} Past(p: seq<byte>, sp: nat, depth: nat, items: seq<Node>) returns (d: nat)
    requires IsPattern(p) && sp <= |p| && Context(p, sp, depth, items).Overrun?
    ensures d >= depth && IsPattern(Extended(p, d))
    ensures var r := Context(Extended(p, d), sp, depth, items); r.Accepted? && r.sp == |p| + 2 + d - depth
    decreases |p| - sp
  {
    hide TokenAt, Longer, Fold, Either, Requantified, Context, Extended;
    ContextStep(p, sp, depth, items);
    LastToken(p, items != []);
    match TokenAt(p, sp, items != []) {
      case Push(node, next) =>
        d := Past(p, next, depth, items + [node]);
        SameStep(p, d, sp, depth, items);
      case Requantify(nmin, nmax, greedy, next) =>
        d := Past(p, next, depth, Requantified(items, nmin, nmax, greedy));
        SameStep(p, d, sp, depth, items);
      case Alternative =>
        d := Past(p, sp + 1, depth, []);
        SameStep(p, d, sp, depth, items);
      case Group =>
        var body := Context(p, sp + 1, depth + 1, []);
        if body.Accepted? {
          d := Past(p, body.sp, depth, items + [Capture(body.tree)]);
          SameStep(p, d, sp, depth, items);
          ExtendedLonger(p, d);
          NotPast(p, Extended(p, d), sp + 1, depth + 1, []);
        } else {
          d := Past(p, sp + 1, depth + 1, []);
          SameStep(p, d, sp, depth, items);
          var inner := Context(Extended(p, d), sp + 1, depth + 1, []);
          Closes(p, d, depth, items + [Capture(inner.tree)]);
        }
      case Cut =>
        d := depth;
        SameStep(p, d, sp, depth, items);
        Closes(p, d, depth, items + [Character(OPEN_BRACKET)]);
    }
  }

  lemma ExtendedLonger(p: seq<byte>, d: nat)
    requires IsPattern(p)
    ensures IsPattern(Extended(p, d)) && Longer(p, Extended(p, d))
  {
    ExtendedPattern(p, d);
  }

  lemma SameStep(p: seq<byte>, d: nat, sp: nat, depth: nat, items: seq<Node>)
    requires IsPattern(p) && sp < |p|
    ensures IsPattern(Extended(p, d)) && |p| < |Extended(p, d)|
    ensures var t, e := TokenAt(p, sp, items != []), Extended(p, d);
            var u := TokenAt(e, sp, items != []);
            (if t == Cut then u == Push(Character(OPEN_BRACKET), |p| + 1) else u == t) &&
            match u
            case Push(node, next) => Context(e, sp, depth, items) == Context(e, next, depth, items + [node])
            case Requantify(nmin, nmax, greedy, next) =>
              Context(e, sp, depth, items) == Context(e, next, depth, Requantified(items, nmin, nmax, greedy))
            case Alternative =>
              var right := Context(e, sp + 1, depth, []);
              Context(e, sp, depth, items) ==
              if right.Accepted? then Accepted(Either(Fold(items), right.tree), right.sp) else right
            case Group =>
              var body := Context(e, sp + 1, depth + 1, []);
              Context(e, sp, depth, items) ==
              if body.Accepted? then Context(e, body.sp, depth, items + [Capture(body.tree)]) else body
            case _ => true
  {
    hide TokenAt, Longer, Fold, Either, Requantified, Context, Extended;
    ExtendedLonger(p, d);
    LongerIs(p, Extended(p, d));
    TokenSame(p, Extended(p, d), sp, items != []);
    ContextStep(Extended(p, d), sp, depth, items);
  }

  /** Behind d - depth closing parentheses, a context is closed by the next one, or ends. */
  lemma Closes(p: seq<byte>, d: nat, depth: nat, items: seq<Node>)
    requires IsPattern(p) && depth <= d && items != []
    ensures IsPattern(Extended(p, d)) && |p| + 1 + d - depth <= |Extended(p, d)|
    ensures Context(Extended(p, d), |p| + 1 + d - depth, depth, items) == Accepted(Fold(items), |p| + 2 + d - depth)
  {
    hide Fold, Context;
    ExtendedPattern(p, d);
    ContextStep(Extended(p, d), |p| + 1 + d - depth, depth, items);
  }

  /** A pattern is read past its end exactly if some number of closing parentheses completes it
      behind an opening bracket. */
  lemma OverrunExactly(p: seq<byte>)
    requires IsPattern(p)
    ensures forall k: nat :: IsPattern(Extended(p, k))
    ensures Parse(p).Overrun? <==> exists k: nat :: Completes(p, k)
  {
    hide Context, Extended, Longer;
    forall k: nat ensures IsPattern(Extended(p, k)) { ExtendedPattern(p, k); }
    if Parse(p).Overrun? {
      var d := Past(p, 0, 0, []);
      assert Completes(p, d);
    }
    if k: nat :| Completes(p, k) {
      ExtendedLonger(p, k);
      if !Parse(p).Overrun? { NotPast(p, Extended(p, k), 0, 0, []); }
    }
  }

  predicate Completes(p: seq<byte>, k: nat) {
    IsPattern(Extended(p, k)) && Parse(Extended(p, k)).Accepted?
  }

  /** Not every final backslash is one: in brackets, behind an unmatched parenthesis, or escaped
      itself it is not read past. */
  lemma FinalBackslashes()
    ensures IsPattern([BACKSLASH]) && Parse([BACKSLASH]) == Overrun
    ensures IsPattern([BACKSLASH, BACKSLASH]) && Parse([BACKSLASH, BACKSLASH]) == Accepted(Character(BACKSLASH), 3)
    ensures IsPattern([OPEN_BRACKET, BACKSLASH]) && Parse([OPEN_BRACKET, BACKSLASH]) == Rejected
    ensures IsPattern([CLOSE, BACKSLASH]) && Parse([CLOSE, BACKSLASH]) == Rejected
  {
    var escaped, ch: seq<byte> := [BACKSLASH, BACKSLASH], [];
    assert TokenAt(escaped, 0, false) == Push(Character(BACKSLASH), 2);
    assert [] + [Character(BACKSLASH)] == [Character(BACKSLASH)];
    assert TokenAt(escaped, 2, true) == Stop(false);
    assert Context(escaped, 2, 0, [Character(BACKSLASH)]) == Accepted(Character(BACKSLASH), 3);
    assert BracketEnd([OPEN_BRACKET, BACKSLASH], 1, 1) == -1;
    assert TokenAt([OPEN_BRACKET, BACKSLASH], 0, false) == Bad;
    assert TokenAt([CLOSE, BACKSLASH], 0, false) == Stop(true);
    assert TokenAt([BACKSLASH], 0, false) == Cut;
  }
}
