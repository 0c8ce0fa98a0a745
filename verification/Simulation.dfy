/** Programs that differ by instructions which lead nowhere else: jumps and splits whose targets
    all stand for the instruction behind them. The machine reports the same for both. */
module Simulation {
  import opened Bytes
  import opened Program
  import opened Threads
  import opened Backtrack

  /** How many of the first k instructions are not silent: where instruction k is without them. */
  function Kept(f: seq<bool>, k: nat): (r: nat)
    requires k <= |f|
    ensures r <= k
  {
    if k == 0 then 0 else Kept(f, k - 1) + if f[k - 1] then 0 else 1
  }

  /** Instruction pc of p is silent if f says so, and else stands in q with its targets moved. */
  predicate Follows(p: Code, q: Code, f: seq<bool>, pc: nat)
    requires |f| == |p| && pc < |p|
  {
    var at := Kept(f, pc);
    if f[pc] then
      match p[pc]
      case Jump(t) => pc < t < |p| && Kept(f, t) == at
      case Split(x, y) => pc < x < |p| && pc < y < |p| && Kept(f, x) == Kept(f, y) == at
      case _ => false
    else
      at < |q| &&
      match p[pc]
      case Jump(t) => t < |p| && q[at] == Jump(Kept(f, t))
      case Split(x, y) => x < |p| && y < |p| && q[at] == Split(Kept(f, x), Kept(f, y))
      case ins => q[at] == ins
  }

  /** q is p without the silent instructions. */
  predicate Simulates(p: Code, q: Code, f: seq<bool>) {
    |f| == |p| && forall pc :: 0 <= pc < |p| ==> Follows(p, q, f, pc)
  }

  lemma {:induction false} KeptMore(f: seq<bool>, x: nat, y: nat)
    requires x <= y <= |f|
    ensures Kept(f, x) <= Kept(f, y)
    ensures x < y && !f[x] ==> Kept(f, x) < Kept(f, y)
    decreases y
  {
    if x < y { KeptMore(f, x, y - 1); }
  }

  /** Two instructions that are kept are kept apart. */
  lemma KeptApart(f: seq<bool>, x: nat, y: nat)
    requires x < |f| && y < |f| && !f[x] && !f[y] && Kept(f, x) == Kept(f, y)
    ensures x == y
  {
    if x < y { KeptMore(f, x, y); }
    if y < x { KeptMore(f, y, x); }
  }

  /** What was tried in the two programs: the same kept instructions, and silent ones only where
      what they stand for was tried, or is about to be from a silent one before pc. */
  ghost predicate RelatedAt(f: seq<bool>, v: set<nat>, w: set<nat>, at: nat, pc: nat) {
    (forall x :: x in v ==> x < |f|) &&
    (forall x :: x in v && !f[x] ==> Kept(f, x) in w) &&
    (forall y :: y in w ==> Preimage(f, v, y)) &&
    (forall x :: x in v && f[x] ==> Kept(f, x) in w || (Kept(f, x) == at && x < pc))
  }

  ghost predicate Preimage(f: seq<bool>, v: set<nat>, y: nat) {
    exists x :: x in v && x < |f| && !f[x] && Kept(f, x) == y
  }

  ghost predicate Related(f: seq<bool>, v: set<nat>, w: set<nat>) {
    RelatedAt(f, v, w, 0, 0)
  }

  ghost predicate AllRelated(f: seq<bool>, v: seq<set<nat>>, w: seq<set<nat>>) {
    |v| == |w| && forall k :: 0 <= k < |v| ==> Related(f, v[k], w[k])
  }

  /** An instruction that was tried: so was what it stands for. */
  lemma TriedBoth(f: seq<bool>, v: set<nat>, w: set<nat>, pc: nat)
    requires pc < |f| && RelatedAt(f, v, w, Kept(f, pc), pc)
    ensures pc in v ==> Kept(f, pc) in w
    ensures Kept(f, pc) in w ==> Related(f, v, w)
    ensures !f[pc] && Kept(f, pc) in w ==> pc in v
  {
    if !f[pc] && Kept(f, pc) in w {
      assert Preimage(f, v, Kept(f, pc));
      var x :| x in v && x < |f| && !f[x] && Kept(f, x) == Kept(f, pc);
      KeptApart(f, x, pc);
    }
  }

  lemma TryKept(f: seq<bool>, v: set<nat>, w: set<nat>, pc: nat)
    requires pc < |f| && !f[pc] && RelatedAt(f, v, w, Kept(f, pc), pc)
    ensures Related(f, v + {pc}, w + {Kept(f, pc)})
  {
    forall y | y in w + {Kept(f, pc)} ensures Preimage(f, v + {pc}, y) {
      if y in w {
        var x :| x in v && x < |f| && !f[x] && Kept(f, x) == y;
        assert x in v + {pc};
      } else {
        assert pc in v + {pc};
      }
    }
  }

  lemma TrySilent(f: seq<bool>, v: set<nat>, w: set<nat>, pc: nat, t: nat)
    requires pc < t < |f| && f[pc] && Kept(f, t) == Kept(f, pc) && RelatedAt(f, v, w, Kept(f, pc), pc)
    ensures RelatedAt(f, v + {pc}, w, Kept(f, t), t)
  {
    forall y | y in w ensures Preimage(f, v + {pc}, y) {
      var x :| x in v && x < |f| && !f[x] && Kept(f, x) == y;
      assert x in v + {pc};
    }
  }

  lemma RelatedAnywhere(f: seq<bool>, v: set<nat>, w: set<nat>, at: nat, pc: nat)
    requires Related(f, v, w)
    ensures RelatedAt(f, v, w, at, pc)
  {
  }

  /** Backtracking finds the same from an instruction of p and from what it stands for in q. */
  lemma {:induction false} SearchSame(p: Code, q: Code, f: seq<bool>, s: seq<byte>, pc: nat, i: nat, m: Slots,
                                      here: set<nat>, deep: seq<set<nat>>, here': set<nat>, deep': seq<set<nat>>)
    requires Runnable(p) && Runnable(q) && Simulates(p, q, f) && pc < |p| && Kept(f, pc) < |q|
    requires i + |deep| == |s| && here <= Pcs(p) && Within(p, deep) && here' <= Pcs(q) && Within(q, deep')
    requires RelatedAt(f, here, here', Kept(f, pc), pc) && AllRelated(f, deep, deep')
    ensures var r, r' := Search(p, s, pc, i, m, here, deep), Search(q, s, Kept(f, pc), i, m, here', deep');
            r.found == r'.found &&
            (r.found.Nothing? ==> Related(f, r.here, r'.here) && AllRelated(f, r.deep, r'.deep))
    decreases |deep|, Pcs(p) - here, 2
  {
    hide Simulates, Follows, Kept, RelatedAt, AllRelated, Within, Go, Runnable, Pcs;
    FollowsAt(p, q, f, pc);
    TriedBoth(f, here, here', pc);
    if pc in here {
    } else if f[pc] {
      SilentSame(p, q, f, s, pc, i, m, here, deep, here', deep');
    } else {
      KeptSame(p, q, f, s, pc, i, m, here, deep, here', deep');
    }
  }

  lemma FollowsAt(p: Code, q: Code, f: seq<bool>, pc: nat)
    requires Simulates(p, q, f) && pc < |p|
    ensures |f| == |p| && Follows(p, q, f, pc)
  {
  }

  lemma SearchJump(p: Code, s: seq<byte>, pc: nat, i: nat, m: Slots, here: set<nat>, deep: seq<set<nat>>)
    requires Runnable(p) && pc < |p| && i + |deep| == |s| && here <= Pcs(p) && Within(p, deep)
    requires pc !in here && p[pc].Jump? && p[pc].target < |p|
    ensures here + {pc} <= Pcs(p)
    ensures Search(p, s, pc, i, m, here, deep) == Search(p, s, p[pc].target, i, m, here + {pc}, deep)
  {
  }

  lemma SearchSplit(p: Code, s: seq<byte>, pc: nat, i: nat, m: Slots, here: set<nat>, deep: seq<set<nat>>)
    requires Runnable(p) && pc < |p| && i + |deep| == |s| && here <= Pcs(p) && Within(p, deep)
    requires pc !in here && p[pc].Split? && p[pc].first < |p| && p[pc].second < |p|
    ensures here + {pc} <= Pcs(p)
    ensures var r := Search(p, s, p[pc].first, i, m, here + {pc}, deep);
            Search(p, s, pc, i, m, here, deep) ==
            if r.found.Found? then r else Search(p, s, p[pc].second, i, m, r.here, r.deep)
  {
  }

  lemma SearchTried(p: Code, s: seq<byte>, pc: nat, i: nat, m: Slots, here: set<nat>, deep: seq<set<nat>>)
    requires Runnable(p) && pc < |p| && i + |deep| == |s| && here <= Pcs(p) && Within(p, deep) && pc in here
    ensures Search(p, s, pc, i, m, here, deep) == Tried(Nothing, here, deep)
  {
  }

  /** A silent instruction comes to what the instruction it stands for comes to. */
  lemma {:induction false} SilentSame(p: Code, q: Code, f: seq<bool>, s: seq<byte>, pc: nat, i: nat, m: Slots,
                                      here: set<nat>, deep: seq<set<nat>>, here': set<nat>, deep': seq<set<nat>>)
    requires Runnable(p) && Runnable(q) && Simulates(p, q, f) && pc < |p| && Kept(f, pc) < |q|
    requires i + |deep| == |s| && here <= Pcs(p) && Within(p, deep) && here' <= Pcs(q) && Within(q, deep')
    requires RelatedAt(f, here, here', Kept(f, pc), pc) && AllRelated(f, deep, deep')
    requires |f| == |p| && f[pc] && pc !in here
    ensures var r, r' := Search(p, s, pc, i, m, here, deep), Search(q, s, Kept(f, pc), i, m, here', deep');
            r.found == r'.found &&
            (r.found.Nothing? ==> Related(f, r.here, r'.here) && AllRelated(f, r.deep, r'.deep))
    decreases |deep|, Pcs(p) - here, 1
  {
    hide Simulates, Kept, RelatedAt, Within, Search, Runnable, Pcs, Related;
    FollowsAt(p, q, f, pc);
    match p[pc] {
      case Jump(t) =>
        SearchJump(p, s, pc, i, m, here, deep);
        TrySilent(f, here, here', pc, t);
        SearchSame(p, q, f, s, t, i, m, here + {pc}, deep, here', deep');
      case Split(x, y) =>
        SearchSplit(p, s, pc, i, m, here, deep);
        TrySilent(f, here, here', pc, x);
        SearchSame(p, q, f, s, x, i, m, here + {pc}, deep, here', deep');
        var r, r' := Search(p, s, x, i, m, here + {pc}, deep), Search(q, s, Kept(f, pc), i, m, here', deep');
        if r.found.Nothing? {
          RelatedAnywhere(f, r.here, r'.here, Kept(f, y), y);
          SearchSame(p, q, f, s, y, i, m, r.here, r.deep, r'.here, r'.deep);
          SearchTried(q, s, Kept(f, pc), i, m, r'.here, r'.deep);
        }
    }
  }

  /** The states after a step of p and of q. */
  predicate SameNext(f: seq<bool>, x: Next, y: Next) {
    match x
    case Stuck => y.Stuck?
    case To(st) => st.pc < |f| && y == To(State(Kept(f, st.pc), st.pos))
  }

  lemma StepSame(p: Code, q: Code, f: seq<bool>, s: seq<byte>, pc: nat, i: nat, choice: bool, m: Slots)
    requires |f| == |p| && pc + 1 < |p| && Follows(p, q, f, pc) && !f[pc] && p[pc] != Match
    ensures Kept(f, pc) < |q| && q[Kept(f, pc)] != Match && (q[Kept(f, pc)].Split? <==> p[pc].Split?)
    ensures SameNext(f, Step(p, s, State(pc, i), choice), Step(q, s, State(Kept(f, pc), i), choice))
    ensures Saved(p, State(pc, i), m) == Saved(q, State(Kept(f, pc), i), m)
  {
    assert Kept(f, pc + 1) == Kept(f, pc) + 1;
  }

  lemma StepIn(p: Code, s: seq<byte>, pc: nat, i: nat)
    requires Runnable(p) && pc < |p| && p[pc] != Match
    ensures forall choice :: var next := Step(p, s, State(pc, i), choice);
              next.To? ==> next.st.pc < |p| && (next.st.pos == i || (next.st.pos == i + 1 && i < |s|))
  {
  }

  lemma KeepsOn(p: Code, q: Code, f: seq<bool>, pc: nat)
    requires Runnable(p) && Simulates(p, q, f) && pc < |p|
    ensures Kept(f, pc) < |q| && (p[pc] != Match ==> pc + 1 < |p|)
    ensures !f[pc] && p[pc] == Match ==> q[Kept(f, pc)] == Match
    decreases |p| - pc
  {
    FollowsAt(p, q, f, pc);
    if f[pc] {
      var t := if p[pc].Jump? then p[pc].target else p[pc].first;
      KeepsOn(p, q, f, t);
    }
  }

  lemma {:induction false} KeptSame(p: Code, q: Code, f: seq<bool>, s: seq<byte>, pc: nat, i: nat, m: Slots,
                                    here: set<nat>, deep: seq<set<nat>>, here': set<nat>, deep': seq<set<nat>>)
    requires Runnable(p) && Runnable(q) && Simulates(p, q, f) && pc < |p| && Kept(f, pc) < |q|
    requires i + |deep| == |s| && here <= Pcs(p) && Within(p, deep) && here' <= Pcs(q) && Within(q, deep')
    requires RelatedAt(f, here, here', Kept(f, pc), pc) && AllRelated(f, deep, deep')
    requires |f| == |p| && !f[pc] && pc !in here
    ensures var r, r' := Search(p, s, pc, i, m, here, deep), Search(q, s, Kept(f, pc), i, m, here', deep');
            r.found == r'.found &&
            (r.found.Nothing? ==> Related(f, r.here, r'.here) && AllRelated(f, r.deep, r'.deep))
    decreases |deep|, Pcs(p) - here, 1
  {
    hide Simulates, Kept, RelatedAt, Within, Go, Runnable, Related, Follows, Step, Saved, SameNext;
    var at := Kept(f, pc);
    FollowsAt(p, q, f, pc);
    TriedBoth(f, here, here', pc);
    TryKept(f, here, here', pc);
    KeepsOn(p, q, f, pc);
    if p[pc] != Match {
      StepSame(p, q, f, s, pc, i, false, m);
      StepSame(p, q, f, s, pc, i, true, m);
      StepIn(p, s, pc, i);
      StepIn(q, s, at, i);
      var m' := Saved(p, State(pc, i), m);
      var x, y := Step(p, s, State(pc, i), false), Step(q, s, State(at, i), false);
      GoSame(p, q, f, s, x, y, i, m', here + {pc}, deep, here' + {at}, deep');
      var r, r' := Go(p, s, x, i, m', here + {pc}, deep), Go(q, s, y, i, m', here' + {at}, deep');
      if r.found.Nothing? && p[pc].Split? {
        GoSame(p, q, f, s, Step(p, s, State(pc, i), true), Step(q, s, State(at, i), true), i, m',
               r.here, r.deep, r'.here, r'.deep);
      }
    }
  }

  lemma {:induction false} GoSame(p: Code, q: Code, f: seq<bool>, s: seq<byte>, x: Next, y: Next, i: nat, m: Slots,
                                  here: set<nat>, deep: seq<set<nat>>, here': set<nat>, deep': seq<set<nat>>)
    requires Runnable(p) && Runnable(q) && Simulates(p, q, f) && SameNext(f, x, y)
    requires i + |deep| == |s| && here <= Pcs(p) && Within(p, deep) && here' <= Pcs(q) && Within(q, deep')
    requires x.To? ==> x.st.pc < |p| && (x.st.pos == i || (x.st.pos == i + 1 && i < |s|))
    requires y.To? ==> y.st.pc < |q| && (y.st.pos == i || (y.st.pos == i + 1 && i < |s|))
    requires Related(f, here, here') && AllRelated(f, deep, deep')
    ensures var r, r' := Go(p, s, x, i, m, here, deep), Go(q, s, y, i, m, here', deep');
            r.found == r'.found &&
            (r.found.Nothing? ==> Related(f, r.here, r'.here) && AllRelated(f, r.deep, r'.deep))
    decreases |deep|, Pcs(p) - here, 3
  {
    hide Simulates, Kept, RelatedAt, Search, Runnable, Related, Pcs;
    if x.To? {
      if x.st.pos == i {
        RelatedAnywhere(f, here, here', Kept(f, x.st.pc), x.st.pc);
        SearchSame(p, q, f, s, x.st.pc, i, m, here, deep, here', deep');
      } else {
        RelatedAnywhere(f, deep[0], deep'[0], Kept(f, x.st.pc), x.st.pc);
        SearchSame(p, q, f, s, x.st.pc, i + 1, m, deep[0], deep[1..], deep'[0], deep'[1..]);
      }
    }
  }

  /** The machine reports the same of both programs. */
  lemma SimulatesResult(p: Code, q: Code, f: seq<bool>, s: seq<byte>, n: nat)
    requires Runnable(p) && Runnable(q) && Simulates(p, q, f)
    ensures Result(p, s, n) == Result(q, s, n)
  {
    hide Runnable, Simulates, Search;
    ResultBacktracks(p, s, n);
    ResultBacktracks(q, s, n);
    SearchSame(p, q, f, s, 0, 0, seq(n, _ => Null), {}, Untried(|s|), {}, Untried(|s|));
  }
}
