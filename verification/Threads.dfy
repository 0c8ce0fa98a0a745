/** What adding threads to the machine's lists computes, as values: the instructions marked
    at a position and the threads waiting there, in order of preference. */
module Threads {
  import opened Bytes
  import opened Program

  datatype Thread = Thread(pc: nat, m: Slots)
  datatype Adding = Adding(marked: set<nat>, threads: seq<Thread>)
  datatype Found = Nothing | Found(m: Slots)

  function Below(n: nat): (r: set<nat>)
    ensures forall x: nat :: x in r <==> x < n
    ensures |r| == n
  {
    if n == 0 then {} else Below(n - 1) + {n - 1}
  }

  /** The instructions of a program, by index. */
  function Pcs(p: Code): (r: set<nat>) {
    Below(|p|)
  }

  /** A waiting instruction: one that a thread in a list can stand at. */
  predicate Waiting(p: Code, pc: nat) {
    pc < |p| && (p[pc] == Match || Eating(p[pc]))
  }

  predicate Waits(p: Code, threads: seq<Thread>, n: nat) {
    forall k :: 0 <= k < |threads| ==> Waiting(p, threads[k].pc) && |threads[k].m| == n
  }

  /** A list as the machine builds it: at most one thread for each marked instruction. */
  predicate Proper(p: Code, a: Adding, n: nat) {
    a.marked <= Pcs(p) && |a.threads| <= |a.marked| && Waits(p, a.threads, n) &&
    (forall k :: 0 <= k < |a.threads| ==> a.threads[k].pc in a.marked) &&
    (forall k, l :: 0 <= k < l < |a.threads| ==> a.threads[k].pc != a.threads[l].pc)
  }

  /** Follow control from pc to the waiting instructions it reaches, once each. */
  function Close(p: Code, atEnd: bool, pc: nat, i: nat, m: Slots, a: Adding): (r: Adding)
    requires Runnable(p) && pc < |p| && Proper(p, a, |m|)
    ensures Proper(p, r, |m|) && a.marked + {pc} <= r.marked && a.threads <= r.threads
    decreases Pcs(p) - a.marked
  {
    if pc in a.marked then a
    else
      var b := a.(marked := a.marked + {pc});
      MarkedProper(p, pc, a, |m|);
      hide Proper;
      match p[pc]
      case Split(f, g) => Close(p, atEnd, g, i, m, Close(p, atEnd, f, i, m, b))
      case Jump(t) => Close(p, atEnd, t, i, m, b)
      case AssertBegin => if i == 0 then Close(p, atEnd, pc + 1, i, m, b) else b
      case AssertEnd => if atEnd then Close(p, atEnd, pc + 1, i, m, b) else b
      case Save(_) => Close(p, atEnd, pc + 1, i, Saved(p, State(pc, i), m), b)
      case _ => ListedProper(p, pc, a, m); b.(threads := b.threads + [Thread(pc, m)])
  }

  /** Marking an unmarked instruction leaves a proper list with room for one more thread. */
  lemma MarkedProper(p: Code, pc: nat, a: Adding, n: nat)
    requires pc < |p| && Proper(p, a, n) && pc !in a.marked
    ensures Proper(p, a.(marked := a.marked + {pc}), n) && |a.threads| < |p|
    ensures Pcs(p) - (a.marked + {pc}) < Pcs(p) - a.marked
  {
    ListFits(p, a, n);
    assert pc in Pcs(p) - a.marked;
  }

  /** And if it is a waiting one, its thread can be that one. */
  lemma ListedProper(p: Code, pc: nat, a: Adding, m: Slots)
    requires Proper(p, a, |m|) && pc !in a.marked && Waiting(p, pc)
    ensures Proper(p, Adding(a.marked + {pc}, a.threads + [Thread(pc, m)]), |m|)
  {
  }

  /** One step of Close where control goes on to a single instruction, or stops. */
  lemma CloseOn(p: Code, atEnd: bool, pc: nat, i: nat, m: Slots, a: Adding)
    requires Runnable(p) && pc < |p| && Proper(p, a, |m|) && pc !in a.marked
    requires p[pc].Jump? || p[pc].AssertBegin? || p[pc].AssertEnd?
    ensures var b := a.(marked := a.marked + {pc});
            var next := if p[pc].Jump? then p[pc].target else pc + 1;
            next < |p| && Proper(p, b, |m|) &&
            Close(p, atEnd, pc, i, m, a) ==
            if p[pc].Jump? || (p[pc].AssertBegin? && i == 0) || (p[pc].AssertEnd? && atEnd)
            then Close(p, atEnd, next, i, m, b) else b
  {
  }

  lemma CloseMarked(p: Code, atEnd: bool, pc: nat, i: nat, m: Slots, a: Adding)
    requires Runnable(p) && pc < |p| && Proper(p, a, |m|) && pc in a.marked
    ensures Close(p, atEnd, pc, i, m, a) == a
  {
  }

  lemma CloseSplit(p: Code, atEnd: bool, pc: nat, i: nat, m: Slots, a: Adding)
    requires Runnable(p) && pc < |p| && Proper(p, a, |m|) && pc !in a.marked && p[pc].Split?
    ensures var b := a.(marked := a.marked + {pc});
            p[pc].first < |p| && p[pc].second < |p| && Proper(p, b, |m|) &&
            Close(p, atEnd, pc, i, m, a) ==
            Close(p, atEnd, p[pc].second, i, m, Close(p, atEnd, p[pc].first, i, m, b))
  {
  }

  lemma CloseSave(p: Code, atEnd: bool, pc: nat, i: nat, m: Slots, a: Adding)
    requires Runnable(p) && pc < |p| && Proper(p, a, |m|) && pc !in a.marked && p[pc].Save?
    ensures var b := a.(marked := a.marked + {pc});
            pc + 1 < |p| && Proper(p, b, |m|) &&
            Close(p, atEnd, pc, i, m, a) ==
            Close(p, atEnd, pc + 1, i, if p[pc].slot < |m| then m[p[pc].slot := At(i)] else m, b)
  {
  }

  lemma CloseHere(p: Code, atEnd: bool, pc: nat, i: nat, m: Slots, a: Adding)
    requires Runnable(p) && pc < |p| && Proper(p, a, |m|) && pc !in a.marked && Waiting(p, pc)
    ensures Close(p, atEnd, pc, i, m, a) == Adding(a.marked + {pc}, a.threads + [Thread(pc, m)])
  {
  }

  /** A list never holds more threads than the program has instructions. */
  lemma ListFits(p: Code, a: Adding, n: nat)
    requires Proper(p, a, n)
    ensures |a.threads| <= |p|
    ensures a.marked != Pcs(p) ==> |a.threads| < |p|
  {
    var rest := Pcs(p) - a.marked;
    assert Pcs(p) == a.marked + rest;
  }

  /** The slots of the first thread standing at Match. */
  function Hit(p: Code, threads: seq<Thread>): (r: Found)
    requires forall k :: 0 <= k < |threads| ==> threads[k].pc < |p|
  {
    if threads == [] then Nothing
    else if p[threads[0].pc] == Match then Found(threads[0].m)
    else Hit(p, threads[1..])
  }

  /** The list for the next position: the threads in order, up to the first at Match, that
      accept the character at i. */
  function Feed(p: Code, s: seq<byte>, i: nat, threads: seq<Thread>, n: nat, a: Adding): (r: Adding)
    requires Runnable(p) && Waits(p, threads, n) && Proper(p, a, n) && i < |s|
    ensures Proper(p, r, n) && a.marked <= r.marked && a.threads <= r.threads
    decreases |threads|
  {
    if threads == [] || p[threads[0].pc] == Match then a
    else
      Feed(p, s, i, threads[1..], n,
           if Eats(p[threads[0].pc], s[i])
           then Close(p, i + 1 == |s|, threads[0].pc + 1, i + 1, threads[0].m, a) else a)
  }

  /** The machine from position i on: what later positions find comes from threads preferred
      to the one that matches here, so it wins. */
  function Pike(p: Code, s: seq<byte>, i: nat, threads: seq<Thread>, n: nat): (r: Found)
    requires Runnable(p) && Waits(p, threads, n) && i <= |s|
    decreases |s| - i
  {
    if i == |s| then Hit(p, threads)
    else
      var later := Pike(p, s, i + 1, Feed(p, s, i, threads, n, Adding({}, [])).threads, n);
      if later.Found? then later else Hit(p, threads)
  }

  /** The machine on a whole string, all n slots unset to begin with. */
  function Result(p: Code, s: seq<byte>, n: nat): (r: Found)
    requires Runnable(p)
  {
    var m := seq(n, _ => Null);
    Pike(p, s, 0, Close(p, |s| == 0, 0, 0, m, Adding({}, [])).threads, n)
  }

  lemma {:induction false} PikeNone(p: Code, s: seq<byte>, i: nat, n: nat)
    requires Runnable(p) && i <= |s|
    ensures Pike(p, s, i, [], n) == Nothing
    decreases |s| - i
  {
    if i < |s| { PikeNone(p, s, i + 1, n); }
  }

  /** The first of two outcomes that is a match. */
  function OrElse(x: Found, y: Found): (r: Found) {
    if x.Found? then x else y
  }

  lemma HitStep(p: Code, threads: seq<Thread>, n: nat)
    requires Waits(p, threads, n) && threads != []
    ensures Waits(p, threads[1..], n)
    ensures Hit(p, threads) == if p[threads[0].pc] == Match then Found(threads[0].m) else Hit(p, threads[1..])
  {
  }

  lemma FeedStep(p: Code, s: seq<byte>, i: nat, threads: seq<Thread>, n: nat, a: Adding)
    requires Runnable(p) && Waits(p, threads, n) && Proper(p, a, n) && i < |s| && threads != []
    ensures Waits(p, threads[1..], n)
    ensures p[threads[0].pc] == Match ==> Feed(p, s, i, threads, n, a) == a
    ensures p[threads[0].pc] != Match ==>
      threads[0].pc + 1 < |p| &&
      var b := if Eats(p[threads[0].pc], s[i])
               then Close(p, i + 1 == |s|, threads[0].pc + 1, i + 1, threads[0].m, a) else a;
      Proper(p, b, n) && Feed(p, s, i, threads, n, a) == Feed(p, s, i, threads[1..], n, b)
  {
  }

  lemma FeedEnd(p: Code, s: seq<byte>, i: nat, n: nat, a: Adding)
    requires Runnable(p) && Proper(p, a, n) && i < |s|
    ensures Feed(p, s, i, [], n, a) == a
  {
  }

  lemma HitEnd(p: Code)
    ensures Hit(p, []) == Nothing
  {
  }

  lemma EatingGoesOn(p: Code, pc: nat)
    requires Runnable(p) && Waiting(p, pc) && p[pc] != Match
    ensures Eating(p[pc]) && pc + 1 < |p|
  {
  }

  lemma PikeStep(p: Code, s: seq<byte>, i: nat, threads: seq<Thread>, n: nat)
    requires Runnable(p) && Waits(p, threads, n) && i <= |s|
    ensures i == |s| ==> Pike(p, s, i, threads, n) == Hit(p, threads)
    ensures i < |s| ==>
      Proper(p, Adding({}, []), n) &&
      var fed := Feed(p, s, i, threads, n, Adding({}, []));
      Waits(p, fed.threads, n) &&
      Pike(p, s, i, threads, n) == OrElse(Pike(p, s, i + 1, fed.threads, n), Hit(p, threads)) &&
      (fed.threads == [] ==> Pike(p, s, i, threads, n) == Hit(p, threads))
  {
    if i < |s| { PikeNone(p, s, i + 1, n); }
  }

  lemma {:induction false} HitLength(p: Code, threads: seq<Thread>, n: nat)
    requires Waits(p, threads, n) && Hit(p, threads).Found?
    ensures |Hit(p, threads).m| == n
  {
    if p[threads[0].pc] != Match { HitLength(p, threads[1..], n); }
  }

  lemma ProperWaits(p: Code, a: Adding, n: nat)
    requires Proper(p, a, n)
    ensures Waits(p, a.threads, n)
  {
  }

  lemma StartList(p: Code, s: seq<byte>, n: nat, m: Slots)
    requires Runnable(p) && m == seq(n, _ => Null)
    ensures |p| > 0 && Proper(p, Adding({}, []), n)
    ensures var a := Close(p, |s| == 0, 0, 0, m, Adding({}, []));
            Waits(p, a.threads, n) && Result(p, s, n) == Pike(p, s, 0, a.threads, n)
  {
  }

  lemma {:induction false} PikeLength(p: Code, s: seq<byte>, i: nat, threads: seq<Thread>, n: nat)
    requires Runnable(p) && Waits(p, threads, n) && i <= |s| && Pike(p, s, i, threads, n).Found?
    ensures |Pike(p, s, i, threads, n).m| == n
    decreases |s| - i
  {
    hide Feed, Hit;
    PikeStep(p, s, i, threads, n);
    if Hit(p, threads).Found? { HitLength(p, threads, n); }
    if i < |s| {
      var fed := Feed(p, s, i, threads, n, Adding({}, [])).threads;
      if Pike(p, s, i + 1, fed, n).Found? { PikeLength(p, s, i + 1, fed, n); }
    }
  }

  /** As many slots are found as a thread carries. */
  lemma ResultLength(p: Code, s: seq<byte>, n: nat)
    requires Runnable(p) && Result(p, s, n).Found?
    ensures |Result(p, s, n).m| == n
  {
    var m := seq(n, _ => Null);
    PikeLength(p, s, 0, Close(p, |s| == 0, 0, 0, m, Adding({}, [])).threads, n);
  }
}
