/** Which match is reported: backtracking finds the first, in the order of preference of the
    choices at splits, of all accepting paths that never come back to the same instruction at
    the same position. */
module Priority {
  import opened Bytes
  import opened CharClass
  import opened Program
  import opened Threads
  import opened Backtrack

  /** An accepting path from st that visits no state of avoid and none twice. */
  predicate Clean(p: Code, s: seq<byte>, st: State, ch: seq<bool>, avoid: set<State>)
    decreases |ch|
  {
    st.pc < |p| && st !in avoid &&
    if ch == [] then p[st.pc] == Match
    else Step(p, s, st, ch[0]).To? && Clean(p, s, Step(p, s, st, ch[0]).st, ch[1..], avoid + {st})
  }

  /** The slots at the end of a path. */
  function Ending(p: Code, s: seq<byte>, st: State, ch: seq<bool>, m: Slots): (r: Slots)
    decreases |ch|
  {
    if ch == [] || st.pc >= |p| || Step(p, s, st, ch[0]).Stuck? then m
    else Ending(p, s, Step(p, s, st, ch[0]).st, ch[1..], Saved(p, st, m))
  }

  /** x is preferred to y: at the first difference x takes the first branch. */
  predicate Preferred(x: seq<bool>, y: seq<bool>)
    decreases |x|
  {
    x == [] || (y != [] && (if x[0] == y[0] then Preferred(x[1..], y[1..]) else !x[0]))
  }

  ghost predicate Best(p: Code, s: seq<byte>, st: State, ch: seq<bool>, avoid: set<State>) {
    Clean(p, s, st, ch, avoid) && forall y :: Clean(p, s, st, y, avoid) ==> Preferred(ch, y)
  }

  /** No state of b that is not in a has an accepting path around a. */
  ghost predicate AllDead(p: Code, s: seq<byte>, a: set<State>, b: set<State>) {
    forall x, ch :: x in b && x !in a ==> !Clean(p, s, x, ch, a)
  }

  lemma {:induction false} AvoidFewer(p: Code, s: seq<byte>, st: State, ch: seq<bool>, a: set<State>, b: set<State>)
    requires Clean(p, s, st, ch, b) && a <= b
    ensures Clean(p, s, st, ch, a)
    decreases |ch|
  {
    if ch != [] { AvoidFewer(p, s, Step(p, s, st, ch[0]).st, ch[1..], a + {st}, b + {st}); }
  }

  /** An accepting path around a never meets a state that has none. */
  lemma {:induction false} AvoidDead(p: Code, s: seq<byte>, st: State, ch: seq<bool>, a: set<State>, b: set<State>,
                                     c: set<State>)
    requires AllDead(p, s, a, b) && Clean(p, s, st, ch, a + c)
    ensures Clean(p, s, st, ch, b + c)
    decreases |ch|
  {
    AvoidFewer(p, s, st, ch, a, a + c);
    if ch != [] {
      assert a + c + {st} == a + (c + {st}) && b + c + {st} == b + (c + {st});
      AvoidDead(p, s, Step(p, s, st, ch[0]).st, ch[1..], a, b, c + {st});
    }
  }

  lemma DeadTogether(p: Code, s: seq<byte>, a: set<State>, b: set<State>, c: set<State>)
    requires AllDead(p, s, a, b) && AllDead(p, s, b, c) && a <= b
    ensures AllDead(p, s, a, c)
  {
    forall x, ch | x in c && x !in a && Clean(p, s, x, ch, a) ensures false {
      assert a + {} == a && b + {} == b;
      AvoidDead(p, s, x, ch, a, b, {});
    }
  }

  /** The states tried at position i and beyond. */
  function Seen(i: nat, here: set<nat>, deep: seq<set<nat>>): (r: set<State>)
    ensures forall st :: st in r ==> st.pos >= i
    ensures forall pc :: State(pc, i) in r <==> pc in here
    decreases |deep|
  {
    (set pc | pc in here :: State(pc, i)) + if deep == [] then {} else Seen(i + 1, deep[0], deep[1..])
  }

  /** What a search from st has to come out with, having gone from the tried states a to b. */
  ghost predicate Right(p: Code, s: seq<byte>, st: State, m: Slots, a: set<State>, found: Found, b: set<State>) {
    match found
    case Nothing => AllDead(p, s, a, b) && st in b && a <= b
    case Found(m') => exists ch :: Best(p, s, st, ch, a) && m' == Ending(p, s, st, ch, m)
  }

  /** The same after a step that may be stuck. */
  ghost predicate RightNext(p: Code, s: seq<byte>, next: Next, m: Slots, a: set<State>, found: Found, b: set<State>) {
    match next
    case Stuck => found == Nothing && a == b
    case To(st) => Right(p, s, st, m, a, found, b)
  }

  lemma FirstBranch(p: Code, s: seq<byte>, st: State, m: Slots, a: set<State>, found: Found, b: set<State>)
    requires st.pc < |p| && st !in a && p[st.pc] != Match && found.Found?
    requires RightNext(p, s, Step(p, s, st, false), Saved(p, st, m), a + {st}, found, b)
    ensures Right(p, s, st, m, a, found, b)
  {
    var n1 := Step(p, s, st, false).st;
    var ch :| Best(p, s, n1, ch, a + {st}) && found.m == Ending(p, s, n1, ch, Saved(p, st, m));
    var all := [false] + ch;
    assert all[1..] == ch;
    assert Clean(p, s, st, all, a);
    forall y | Clean(p, s, st, y, a) ensures Preferred(all, y) {
      if !y[0] { assert Clean(p, s, n1, y[1..], a + {st}); }
    }
    assert Best(p, s, st, all, a);
  }

  lemma NotFirst(p: Code, s: seq<byte>, st: State, y: seq<bool>, m: Slots, a: set<State>, b: set<State>)
    requires st.pc < |p| && p[st.pc] != Match
    requires RightNext(p, s, Step(p, s, st, false), Saved(p, st, m), a + {st}, Nothing, b)
    ensures Clean(p, s, st, y, a) ==> y != [] && y[0]
  {
    var n1 := Step(p, s, st, false);
    if y != [] && n1.To? {
      assert !Clean(p, s, n1.st, y[1..], a + {st});
    }
  }

  /** Nothing through the first branch: the second decides. */
  lemma SecondBranch(p: Code, s: seq<byte>, st: State, m: Slots, a: set<State>, b: set<State>, found: Found, c: set<State>)
    requires st.pc < |p| && st !in a && p[st.pc] != Match
    requires RightNext(p, s, Step(p, s, st, false), Saved(p, st, m), a + {st}, Nothing, b)
    requires RightNext(p, s, Step(p, s, st, true), Saved(p, st, m), b, found, c)
    ensures Right(p, s, st, m, a, found, c)
  {
    var a1, n1, n2 := a + {st}, Step(p, s, st, false), Step(p, s, st, true);
    assert a1 + {} == a1 && b + {} == b;
    forall y | Clean(p, s, st, y, a) ensures y != [] && y[0] && n2.To? && Clean(p, s, n2.st, y[1..], b) {
      NotFirst(p, s, st, y, m, a, b);
      assert Clean(p, s, n2.st, y[1..], a1);
      AvoidDead(p, s, n2.st, y[1..], a1, b, {});
    }
    match found {
      case Found(m') =>
        var ch :| Best(p, s, n2.st, ch, b) && m' == Ending(p, s, n2.st, ch, Saved(p, st, m));
        var all := [true] + ch;
        assert all[1..] == ch;
        AvoidFewer(p, s, n2.st, ch, a1, b);
        assert Clean(p, s, st, all, a);
        assert Best(p, s, st, all, a);
      case Nothing =>
        assert AllDead(p, s, a, a1);
        DeadTogether(p, s, a, a1, b);
        DeadTogether(p, s, a, b, c);
    }
  }

  /** Backtracking comes out right, whatever was tried before at earlier positions. */
  lemma {:induction false} SearchRight(p: Code, s: seq<byte>, pc: nat, i: nat, m: Slots, here: set<nat>,
                                       deep: seq<set<nat>>, before: set<State>)
    requires Runnable(p) && pc < |p| && i + |deep| == |s| && here <= Pcs(p) && Within(p, deep)
    requires forall st :: st in before ==> st.pos < i
    ensures var r := Search(p, s, pc, i, m, here, deep);
            Right(p, s, State(pc, i), m, before + Seen(i, here, deep), r.found, before + Seen(i, r.here, r.deep))
    decreases |deep|, Pcs(p) - here, 0
  {
    hide Clean, Best, AllDead, Ending, RightNext, Right, Within, Seen, Go, Contains;
    var st, a := State(pc, i), before + Seen(i, here, deep);
    if pc in here {
      TriedRight(p, s, st, m, a);
    } else if p[pc] == Match {
      SeenMore(i, here, pc, deep);
      assert before + Seen(i, here + {pc}, deep) == a + {st};
      MatchRight(p, s, st, m, a);
    } else {
      var m', b := Saved(p, st, m), here + {pc};
      SeenMore(i, here, pc, deep);
      assert before + Seen(i, b, deep) == a + {st};
      var r := Go(p, s, Step(p, s, st, false), i, m', b, deep);
      GoRight(p, s, Step(p, s, st, false), i, m', b, deep, before);
      if r.found.Found? {
        FirstBranch(p, s, st, m, a, r.found, before + Seen(i, r.here, r.deep));
      } else if p[pc].Split? {
        var r2 := Go(p, s, Step(p, s, st, true), i, m', r.here, r.deep);
        GoRight(p, s, Step(p, s, st, true), i, m', r.here, r.deep, before);
        SecondBranch(p, s, st, m, a, before + Seen(i, r.here, r.deep), r2.found, before + Seen(i, r2.here, r2.deep));
      } else {
        StuckRight(p, s, m', before + Seen(i, r.here, r.deep));
        SecondBranch(p, s, st, m, a, before + Seen(i, r.here, r.deep), Nothing, before + Seen(i, r.here, r.deep));
      }
    }
  }

  lemma {:induction false} GoRight(p: Code, s: seq<byte>, next: Next, i: nat, m: Slots, here: set<nat>,
                                   deep: seq<set<nat>>, before: set<State>)
    requires Runnable(p) && i + |deep| == |s| && here <= Pcs(p) && Within(p, deep)
    requires next.To? ==> next.st.pc < |p| && (next.st.pos == i || (next.st.pos == i + 1 && i < |s|))
    requires forall st :: st in before ==> st.pos < i
    ensures var r := Go(p, s, next, i, m, here, deep);
            RightNext(p, s, next, m, before + Seen(i, here, deep), r.found, before + Seen(i, r.here, r.deep))
    decreases |deep|, Pcs(p) - here, 1
  {
    hide Clean, Best, AllDead, Ending, Right, Pcs, Search;
    if next.To? {
      if next.st.pos == i {
        SearchRight(p, s, next.st.pc, i, m, here, deep, before);
      } else {
        var before' := before + set pc | pc in here :: State(pc, i);
        var r := Search(p, s, next.st.pc, i + 1, m, deep[0], deep[1..]);
        SearchRight(p, s, next.st.pc, i + 1, m, deep[0], deep[1..], before');
        assert before + Seen(i, here, deep) == before' + Seen(i + 1, deep[0], deep[1..]);
        assert ([r.here] + r.deep)[1..] == r.deep;
        assert before + Seen(i, here, [r.here] + r.deep) == before' + Seen(i + 1, r.here, r.deep);
      }
    }
  }

  lemma SeenMore(i: nat, here: set<nat>, pc: nat, deep: seq<set<nat>>)
    ensures Seen(i, here + {pc}, deep) == Seen(i, here, deep) + {State(pc, i)}
  {
  }

  lemma TriedRight(p: Code, s: seq<byte>, st: State, m: Slots, a: set<State>)
    requires st in a
    ensures Right(p, s, st, m, a, Nothing, a)
  {
  }

  lemma StuckRight(p: Code, s: seq<byte>, m: Slots, a: set<State>)
    ensures RightNext(p, s, Stuck, m, a, Nothing, a)
  {
  }

  lemma MatchRight(p: Code, s: seq<byte>, st: State, m: Slots, a: set<State>)
    requires st.pc < |p| && st !in a && p[st.pc] == Match
    ensures Right(p, s, st, m, a, Found(m), a + {st})
  {
    assert Best(p, s, st, [], a) && m == Ending(p, s, st, [], m);
  }

  /** What the machine reports: the slots of the most preferred of the accepting paths without
      repetition, and nothing if there is none. */
  lemma ResultIsBest(p: Code, s: seq<byte>, n: nat)
    requires Runnable(p)
    ensures Result(p, s, n).Nothing? ==> forall ch :: !Clean(p, s, State(0, 0), ch, {})
    ensures Result(p, s, n).Found? ==>
      exists ch :: Best(p, s, State(0, 0), ch, {}) && Result(p, s, n).m == Ending(p, s, State(0, 0), ch, seq(n, _ => Null))
  {
    ResultBacktracks(p, s, n);
    var m := seq(n, _ => Null);
    SearchRight(p, s, 0, 0, m, {}, Untried(|s|), {});
    NothingSeen(0, |s|);
    var r := Search(p, s, 0, 0, m, {}, Untried(|s|));
    if r.found.Nothing? {
      forall ch ensures !Clean(p, s, State(0, 0), ch, {}) {
        assert {} + Seen(0, {}, Untried(|s|)) == {};
      }
    }
  }

  lemma {:induction false} NothingSeen(i: nat, n: nat)
    ensures Seen(i, {}, Untried(n)) == {}
    decreases n
  {
    if n > 0 {
      assert Untried(n)[1..] == Untried(n - 1);
      NothingSeen(i + 1, n - 1);
    }
  }

  /** The most preferred path is unique. */
  lemma {:induction false} PreferredOnce(x: seq<bool>, y: seq<bool>)
    requires Preferred(x, y) && Preferred(y, x)
    ensures x == y
    decreases |x|
  {
    if x != [] && y != [] {
      PreferredOnce(x[1..], y[1..]);
      assert x == [x[0]] + x[1..] && y == [y[0]] + y[1..];
    }
  }
}
