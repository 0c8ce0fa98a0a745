/** The machine against a backtracking search: depth first, first branch of a split before the
    second, giving up on an instruction already tried at the same position. */
module Backtrack {
  import opened Bytes
  import opened Program
  import opened Threads

  /** What a search found, and the instructions tried so far at its position and beyond. */
  datatype Tried = Tried(found: Found, here: set<nat>, deep: seq<set<nat>>)

  predicate Within(p: Code, deep: seq<set<nat>>) {
    forall k :: 0 <= k < |deep| ==> deep[k] <= Pcs(p)
  }

  /** Backtracking from pc at position i; here holds what was tried at i, deep[k] what was
      tried at i + 1 + k. */
  function Search(p: Code, s: seq<byte>, pc: nat, i: nat, m: Slots, here: set<nat>, deep: seq<set<nat>>): (r: Tried)
    requires Runnable(p) && pc < |p| && i + |deep| == |s| && here <= Pcs(p) && Within(p, deep)
    ensures here + {pc} <= r.here <= Pcs(p) && |r.deep| == |deep| && Within(p, r.deep)
    decreases |deep|, Pcs(p) - here, 0
  {
    if pc in here then Tried(Nothing, here, deep)
    else if p[pc] == Match then Tried(Found(m), here + {pc}, deep)
    else
      var m' := Saved(p, State(pc, i), m);
      var r := Go(p, s, Step(p, s, State(pc, i), false), i, m', here + {pc}, deep);
      if r.found.Found? || !p[pc].Split? then r
      else Go(p, s, Step(p, s, State(pc, i), true), i, m', r.here, r.deep)
  }

  /** Backtracking from the state after a step. */
  function Go(p: Code, s: seq<byte>, next: Next, i: nat, m: Slots, here: set<nat>, deep: seq<set<nat>>): (r: Tried)
    requires Runnable(p) && i + |deep| == |s| && here <= Pcs(p) && Within(p, deep)
    requires next.To? ==> next.st.pc < |p| && (next.st.pos == i || (next.st.pos == i + 1 && i < |s|))
    ensures here <= r.here <= Pcs(p) && |r.deep| == |deep| && Within(p, r.deep)
    decreases |deep|, Pcs(p) - here, 1
  {
    if next.Stuck? then Tried(Nothing, here, deep)
    else if next.st.pos == i then Search(p, s, next.st.pc, i, m, here, deep)
    else
      var r := Search(p, s, next.st.pc, i + 1, m, deep[0], deep[1..]);
      Tried(r.found, here, [r.here] + r.deep)
  }

  /** Nothing tried yet at any of n positions. */
  function Untried(n: nat): (r: seq<set<nat>>) {
    seq(n, _ => {})
  }

  /** The backtracking search of a whole string. */
  function Backtracked(p: Code, s: seq<byte>, n: nat): (r: Found)
    requires Runnable(p)
  {
    Search(p, s, 0, 0, seq(n, _ => Null), {}, Untried(|s|)).found
  }

  // ---- The machine finds what backtracking finds ----

  /** Backtracking from each of a list of waiting threads in turn. */
  function SearchList(p: Code, s: seq<byte>, i: nat, threads: seq<Thread>, n: nat, deep: seq<set<nat>>): (r: Tried)
    requires Runnable(p) && Waits(p, threads, n) && i + |deep| == |s| && Within(p, deep)
    ensures |r.deep| == |deep| && Within(p, r.deep)
    decreases |threads|
  {
    if threads == [] then Tried(Nothing, {}, deep)
    else
      var t := threads[0];
      if p[t.pc] == Match then Tried(Found(t.m), {}, deep)
      else if i < |s| && Eats(p[t.pc], s[i]) then
        var r := Search(p, s, t.pc + 1, i + 1, t.m, deep[0], deep[1..]);
        if r.found.Found? then Tried(r.found, {}, [r.here] + r.deep)
        else SearchList(p, s, i, threads[1..], n, [r.here] + r.deep)
      else SearchList(p, s, i, threads[1..], n, deep)
  }

  lemma {:induction false} SearchListAppend(p: Code, s: seq<byte>, i: nat, x: seq<Thread>, y: seq<Thread>, n: nat,
                                            deep: seq<set<nat>>)
    requires Runnable(p) && Waits(p, x, n) && Waits(p, y, n) && i + |deep| == |s| && Within(p, deep)
    ensures Waits(p, x + y, n)
    ensures var r := SearchList(p, s, i, x, n, deep);
            SearchList(p, s, i, x + y, n, deep) == if r.found.Found? then r else SearchList(p, s, i, y, n, r.deep)
    decreases |x|
  {
    hide Search, Eats, Pcs;
    if x == [] {
      assert x + y == y;
    } else {
      assert (x + y)[1..] == x[1..] + y && (x + y)[0] == x[0];
      var t := x[0];
      if p[t.pc] != Match {
        if i < |s| && Eats(p[t.pc], s[i]) {
          var r := Search(p, s, t.pc + 1, i + 1, t.m, deep[0], deep[1..]);
          SearchListAppend(p, s, i, x[1..], y, n, [r.here] + r.deep);
        } else {
          SearchListAppend(p, s, i, x[1..], y, n, deep);
        }
      }
    }
  }

  lemma SearchListOne(p: Code, s: seq<byte>, i: nat, t: Thread, n: nat, deep: seq<set<nat>>)
    requires Runnable(p) && Waiting(p, t.pc) && |t.m| == n && i + |deep| == |s| && Within(p, deep)
    ensures Waits(p, [t], n)
    ensures SearchList(p, s, i, [], n, deep) == Tried(Nothing, {}, deep)
    ensures SearchList(p, s, i, [t], n, deep) ==
            if p[t.pc] == Match then Tried(Found(t.m), {}, deep)
            else if i < |s| && Eats(p[t.pc], s[i]) then
              var r := Search(p, s, t.pc + 1, i + 1, t.m, deep[0], deep[1..]);
              Tried(r.found, {}, [r.here] + r.deep)
            else Tried(Nothing, {}, deep)
  {
    assert [t][1..] == [];
  }

  /** Backtracking through the instructions at one position tries the waiting ones in the order
      in which the machine lists them. */
  lemma {:induction false} Level(p: Code, s: seq<byte>, pc: nat, i: nat, m: Slots, a: Adding, deep: seq<set<nat>>)
    requires Runnable(p) && pc < |p| && Proper(p, a, |m|) && i + |deep| == |s| && Within(p, deep)
    ensures var c := Close(p, i == |s|, pc, i, m, a);
            var r, l := Search(p, s, pc, i, m, a.marked, deep), SearchList(p, s, i, c.threads[|a.threads|..], |m|, deep);
            r.found == l.found && (r.found.Nothing? ==> r.here == c.marked && r.deep == l.deep)
    decreases Pcs(p) - a.marked
  {
    hide SearchList, Proper, Waits, Within, Pcs;
    if pc in a.marked {
      assert a.threads[|a.threads|..] == [];
      SearchListNone(p, s, i, |m|, deep);
    } else {
      var ins := p[pc];
      MarkedProper(p, pc, a, |m|);
      if ins.Split? {
        CloseSplit(p, i == |s|, pc, i, m, a);
        LevelSplit(p, s, pc, i, m, a, deep);
      } else if ins.Jump? || ins.AssertBegin? || ins.AssertEnd? || ins.Save? {
        LevelOn(p, s, pc, i, m, a, deep);
      } else {
        CloseHere(p, i == |s|, pc, i, m, a);
        SearchListOne(p, s, i, Thread(pc, m), |m|, deep);
        assert (a.threads + [Thread(pc, m)])[|a.threads|..] == [Thread(pc, m)];
      }
    }
  }

  lemma SearchListNone(p: Code, s: seq<byte>, i: nat, n: nat, deep: seq<set<nat>>)
    requires Runnable(p) && i + |deep| == |s| && Within(p, deep)
    ensures SearchList(p, s, i, [], n, deep) == Tried(Nothing, {}, deep)
  {
  }

  lemma {:induction false} LevelOn(p: Code, s: seq<byte>, pc: nat, i: nat, m: Slots, a: Adding, deep: seq<set<nat>>)
    requires Runnable(p) && pc < |p| && Proper(p, a, |m|) && i + |deep| == |s| && Within(p, deep)
    requires pc !in a.marked && (p[pc].Jump? || p[pc].AssertBegin? || p[pc].AssertEnd? || p[pc].Save?)
    ensures var c := Close(p, i == |s|, pc, i, m, a);
            var r, l := Search(p, s, pc, i, m, a.marked, deep), SearchList(p, s, i, c.threads[|a.threads|..], |m|, deep);
            r.found == l.found && (r.found.Nothing? ==> r.here == c.marked && r.deep == l.deep)
    decreases Pcs(p) - a.marked, 0
  {
    hide SearchList, Proper, Waits, Within, Pcs, Close, Search;
    var b, m', next := a.(marked := a.marked + {pc}), Saved(p, State(pc, i), m), Step(p, s, State(pc, i), false);
    if p[pc].Save? { CloseSave(p, i == |s|, pc, i, m, a); } else { CloseOn(p, i == |s|, pc, i, m, a); }
    SearchOn(p, s, pc, i, m, a.marked, deep);
    if next.To? {
      Level(p, s, next.st.pc, i, m', b, deep);
    } else {
      assert b.threads[|a.threads|..] == [];
      SearchListNone(p, s, i, |m|, deep);
    }
  }

  /** One step of the search where control goes on to a single instruction, or stops. */
  lemma SearchOn(p: Code, s: seq<byte>, pc: nat, i: nat, m: Slots, here: set<nat>, deep: seq<set<nat>>)
    requires Runnable(p) && pc < |p| && i + |deep| == |s| && here <= Pcs(p) && Within(p, deep)
    requires pc !in here && (p[pc].Jump? || p[pc].AssertBegin? || p[pc].AssertEnd? || p[pc].Save?)
    ensures here + {pc} <= Pcs(p)
    ensures var next := Step(p, s, State(pc, i), false);
            next.To? ==>
              next.st.pc < |p| &&
              Search(p, s, pc, i, m, here, deep) ==
                Search(p, s, next.st.pc, i, Saved(p, State(pc, i), m), here + {pc}, deep)
    ensures Step(p, s, State(pc, i), false).Stuck? ==> Search(p, s, pc, i, m, here, deep) == Tried(Nothing, here + {pc}, deep)
  {
    hide Within;
  }

  lemma {:induction false} LevelSplit(p: Code, s: seq<byte>, pc: nat, i: nat, m: Slots, a: Adding, deep: seq<set<nat>>)
    requires Runnable(p) && pc < |p| && Proper(p, a, |m|) && i + |deep| == |s| && Within(p, deep)
    requires pc !in a.marked && p[pc].Split?
    ensures var c := Close(p, i == |s|, pc, i, m, a);
            var r, l := Search(p, s, pc, i, m, a.marked, deep), SearchList(p, s, i, c.threads[|a.threads|..], |m|, deep);
            r.found == l.found && (r.found.Nothing? ==> r.here == c.marked && r.deep == l.deep)
    decreases Pcs(p) - a.marked, 0
  {
    hide SearchList, Proper, Close, Within, Pcs;
    CloseSplit(p, i == |s|, pc, i, m, a);
    var n, b := |m|, a.(marked := a.marked + {pc});
    var c1 := Close(p, i == |s|, p[pc].first, i, m, b);
    var c2 := Close(p, i == |s|, p[pc].second, i, m, c1);
    var new1, new2 := c1.threads[|a.threads|..], c2.threads[|c1.threads|..];
    Level(p, s, p[pc].first, i, m, b, deep);
    var r1 := Search(p, s, p[pc].first, i, m, b.marked, deep);
    ProperWaits(p, c2, n);
    assert Waits(p, new1, n) && Waits(p, new2, n);
    SearchListAppend(p, s, i, new1, new2, n, deep);
    assert c2.threads[|a.threads|..] == new1 + new2;
    if r1.found.Nothing? {
      Level(p, s, p[pc].second, i, m, c1, r1.deep);
    }
  }

  /** Backtracking from a list at i is backtracking from the list fed to i + 1, and then the
      first thread that matches at i. */
  lemma {:induction false} FeedLevel(p: Code, s: seq<byte>, i: nat, threads: seq<Thread>, n: nat, a: Adding,
                                     deep: seq<set<nat>>)
    requires Runnable(p) && Waits(p, threads, n) && Proper(p, a, n) && i < |s|
    requires i + |deep| == |s| && Within(p, deep) && deep[0] == a.marked
    ensures var c := Feed(p, s, i, threads, n, a);
            var l := SearchList(p, s, i, threads, n, deep);
            var l2 := SearchList(p, s, i + 1, c.threads[|a.threads|..], n, deep[1..]);
            l.found == OrElse(l2.found, Hit(p, threads)) &&
            (l.found.Nothing? ==> l.deep == [c.marked] + l2.deep)
    decreases |threads|
  {
    hide Proper, Close, Within, Pcs, Search, Feed;
    if threads == [] {
      FeedEnd(p, s, i, n, a);
    } else {
      var t := threads[0];
      FeedStep(p, s, i, threads, n, a);
      if p[t.pc] != Match {
        if Eats(p[t.pc], s[i]) {
          FeedEating(p, s, i, threads, n, a, deep);
        } else {
          FeedLevel(p, s, i, threads[1..], n, a, deep);
        }
      }
    }
  }

  lemma {:induction false} FeedEating(p: Code, s: seq<byte>, i: nat, threads: seq<Thread>, n: nat, a: Adding,
                                      deep: seq<set<nat>>)
    requires Runnable(p) && Waits(p, threads, n) && Proper(p, a, n) && i < |s|
    requires i + |deep| == |s| && Within(p, deep) && deep[0] == a.marked
    requires threads != [] && Eating(p[threads[0].pc]) && Eats(p[threads[0].pc], s[i])
    ensures var c := Feed(p, s, i, threads, n, a);
            var l := SearchList(p, s, i, threads, n, deep);
            var l2 := SearchList(p, s, i + 1, c.threads[|a.threads|..], n, deep[1..]);
            l.found == OrElse(l2.found, Hit(p, threads)) &&
            (l.found.Nothing? ==> l.deep == [c.marked] + l2.deep)
    decreases |threads|, 0
  {
    hide Proper, Close, Pcs, Search, Feed;
    var t, rest := threads[0], deep[1..];
    FeedStep(p, s, i, threads, n, a);
    var a1 := Close(p, i + 1 == |s|, t.pc + 1, i + 1, t.m, a);
    var r := Search(p, s, t.pc + 1, i + 1, t.m, a.marked, rest);
    Level(p, s, t.pc + 1, i + 1, t.m, a, rest);
    var c := Feed(p, s, i, threads, n, a);
    var new1, new2 := a1.threads[|a.threads|..], c.threads[|a1.threads|..];
    ProperWaits(p, c, n);
    assert Waits(p, new1, n) && Waits(p, new2, n);
    assert c.threads[|a.threads|..] == new1 + new2;
    SearchListAppend(p, s, i + 1, new1, new2, n, rest);
    if r.found.Nothing? {
      var deep' := [r.here] + r.deep;
      assert deep'[1..] == r.deep;
      FeedLevel(p, s, i, threads[1..], n, a1, deep');
    }
  }

  lemma {:induction false} LastList(p: Code, s: seq<byte>, threads: seq<Thread>, n: nat)
    requires Runnable(p) && Waits(p, threads, n)
    ensures SearchList(p, s, |s|, threads, n, []).found == Hit(p, threads)
    decreases |threads|
  {
    if threads != [] { LastList(p, s, threads[1..], n); }
  }

  lemma {:induction false} PikeBacktracks(p: Code, s: seq<byte>, i: nat, threads: seq<Thread>, n: nat)
    requires Runnable(p) && Waits(p, threads, n) && i <= |s|
    ensures Within(p, Untried(|s| - i))
    ensures Pike(p, s, i, threads, n) == SearchList(p, s, i, threads, n, Untried(|s| - i)).found
    decreases |s| - i
  {
    hide Feed, SearchList, Hit;
    var deep := Untried(|s| - i);
    if i == |s| {
      LastList(p, s, threads, n);
      assert deep == [];
    } else {
      FeedLevel(p, s, i, threads, n, Adding({}, []), deep);
      assert deep[1..] == Untried(|s| - (i + 1));
      var fed := Feed(p, s, i, threads, n, Adding({}, [])).threads;
      assert fed[0..] == fed;
      PikeBacktracks(p, s, i + 1, fed, n);
      PikeStep(p, s, i, threads, n);
    }
  }

  /** The lock-step machine and backtracking find the same slots, or both find nothing. */
  lemma ResultBacktracks(p: Code, s: seq<byte>, n: nat)
    requires Runnable(p)
    ensures Result(p, s, n) == Backtracked(p, s, n)
  {
    var m, a, deep := seq(n, _ => Null), Adding({}, []), Untried(|s|);
    Level(p, s, 0, 0, m, a, deep);
    var threads := Close(p, |s| == 0, 0, 0, m, a).threads;
    assert threads[0..] == threads;
    PikeBacktracks(p, s, 0, threads, n);
  }
}
