/** The virtual machine of cregex_vm.c on its own arrays: visited marks that are never
    cleared, thread lists that are swapped, and capture arrays changed and restored in place. */
module Machine {
  import opened Bytes
  import opened CharClass
  import opened Program
  import opened Threads

  const MAX_MATCHES := 64

  /** The number of capture slots a thread carries. */
  function Carried(nmatches: nat): (r: nat) {
    if nmatches <= MAX_MATCHES then nmatches else MAX_MATCHES
  }

  /** A string holds no NUL. */
  predicate IsString(s: seq<byte>) {
    forall k :: 0 <= k < |s| ==> s[k] != 0
  }

  /** What reading the string at i gives: the NUL at its end, and past that whatever lies there. */
  function Peek(s: seq<byte>, i: nat, beyond: byte): (r: byte) {
    if i < |s| then s[i] else if i == |s| then 0 else beyond
  }

  class ThreadList {
    var nthreads: nat
    /** How often a thread was ever added. */
    ghost var pushes: nat
    const visited: array<int>
    const pcs: array<nat>
    const matches: array<seq<Slot>>

    ghost predicate Valid(p: Code)
      reads this
    {
      visited.Length == pcs.Length == matches.Length == |p| && nthreads <= |p| &&
      visited as object != pcs as object
    }

    /** The instructions that carry the mark. */
    ghost function Marked(mark: int): (r: set<nat>)
      reads visited
    {
      set pc: nat | pc < visited.Length && visited[pc] == mark
    }

    ghost function Threads(): (r: seq<Thread>)
      requires nthreads <= pcs.Length && nthreads <= matches.Length
      reads this, pcs, matches
      ensures |r| == nthreads
    {
      seq(nthreads, k requires 0 <= k < nthreads && nthreads <= pcs.Length && nthreads <= matches.Length
                      reads this, pcs, matches => Thread(pcs[k], matches[k]))
    }

    ghost function List(mark: int): (r: Adding)
      requires nthreads <= pcs.Length && nthreads <= matches.Length
      reads this, visited, pcs, matches
    {
      Adding(Marked(mark), Threads())
    }

    constructor (n: nat)
      ensures nthreads == 0 && visited.Length == pcs.Length == matches.Length == n
      ensures fresh(visited) && fresh(pcs) && fresh(matches) && visited as object != pcs as object
      ensures forall k :: 0 <= k < n ==> visited[k] == 0
    {
      nthreads, pushes := 0, 0;
      visited := new int[n](_ => 0);
      pcs := new nat[n](_ => 0);
      matches := new seq<Slot>[n](_ => []);
    }

    method Mark(p: Code, pc: nat, mark: int)
      requires Valid(p) && pc < |p|
      modifies visited
      ensures Valid(p) && List(mark) == old(List(mark)).(marked := old(Marked(mark)) + {pc})
      ensures forall q :: 0 <= q < |p| && q != pc ==> visited[q] == old(visited[q])
      ensures visited[pc] == mark
    {
      visited[pc] := mark;
    }

    /** Append a thread with a copy of the carried slots. */
    method Push(p: Code, pc: nat, m: Slots, ghost mark: int)
      requires Valid(p) && nthreads < |p|
      modifies this`nthreads, this`pushes, pcs, matches
      ensures pushes == old(pushes) + 1
      ensures Valid(p) && List(mark) == old(List(mark)).(threads := old(Threads()) + [Thread(pc, m)])
    {
      pcs[nthreads] := pc;
      matches[nthreads] := m;
      nthreads, pushes := nthreads + 1, pushes + 1;
      assert Threads()[..nthreads - 1] == old(Threads());
    }

    /** vm_add_thread: extends the list exactly as Close does, and gives the caller's slots
        back as they were. */
    method AddThread(p: Code, pc: nat, s: seq<byte>, sp: nat, buf: array<seq<Slot>>, row: nat, nmatches: nat, beyond: byte)
      requires Runnable(p) && pc < |p| && Valid(p) && buf != matches && row < buf.Length
      requires |buf[row]| >= Carried(nmatches) && (|buf[row]| == nmatches || |buf[row]| == Carried(nmatches))
      requires Proper(p, List(sp + 1), Carried(nmatches))
      modifies this`nthreads, this`pushes, visited, pcs, matches, buf
      ensures Valid(p) && buf[..] == old(buf[..]) && pushes - nthreads == old(pushes - nthreads)
      ensures List(sp + 1) == Close(p, Peek(s, sp, beyond) == 0, pc, sp, old(buf[row][..Carried(nmatches)]), old(List(sp + 1)))
      ensures forall q :: 0 <= q < |p| ==> visited[q] == old(visited[q]) || visited[q] == sp + 1
      decreases Pcs(p) - Marked(sp + 1), 0
    {
      hide Close, Proper, Runnable, Marked, Threads, Peek, Carried, Pcs;
      ghost var m, atEnd := buf[row][..Carried(nmatches)], Peek(s, sp, beyond) == 0;
      ghost var was := List(sp + 1);
      MarkedBy(p, pc, sp + 1);
      if visited[pc] == sp + 1 {
        CloseMarked(p, atEnd, pc, sp, m, was);
        return;
      }
      MarkedProper(p, pc, was, |m|);
      Mark(p, pc, sp + 1);
      var ins := p[pc];
      if ins.Split? {
        CloseSplit(p, atEnd, pc, sp, m, was);
        AddBoth(p, ins.first, ins.second, s, sp, buf, row, nmatches, beyond);
      } else if ins.Save? {
        CloseSave(p, atEnd, pc, sp, m, was);
        AddSave(p, pc, ins.slot, s, sp, buf, row, nmatches, beyond);
      } else if ins.Jump? || ins.AssertBegin? || ins.AssertEnd? {
        CloseOn(p, atEnd, pc, sp, m, was);
        if ins.Jump? {
          AddThread(p, ins.target, s, sp, buf, row, nmatches, beyond);
        } else if ins.AssertBegin? {
          if sp == 0 {
            AddThread(p, pc + 1, s, sp, buf, row, nmatches, beyond);
          }
        } else if Peek(s, sp, beyond) == 0 {
          AddThread(p, pc + 1, s, sp, buf, row, nmatches, beyond);
        }
      } else {
        CloseHere(p, atEnd, pc, sp, m, was);
        Push(p, pc, buf[row][..Carried(nmatches)], sp + 1);
      }
    }

    /** The mark on an instruction is its membership in the set of marked ones. */
    lemma MarkedBy(p: Code, pc: nat, mark: int)
      requires Valid(p) && pc < |p|
      ensures pc < visited.Length && List(mark).marked == Marked(mark)
      ensures pc in List(mark).marked <==> visited[pc] == mark
    {
    }

    /** The SPLIT case: everything reached through the first branch comes first. */
    method AddBoth(p: Code, first: nat, second: nat, s: seq<byte>, sp: nat, buf: array<seq<Slot>>, row: nat,
                   nmatches: nat, beyond: byte)
      requires Runnable(p) && first < |p| && second < |p| && Valid(p) && buf != matches && row < buf.Length
      requires |buf[row]| >= Carried(nmatches) && (|buf[row]| == nmatches || |buf[row]| == Carried(nmatches))
      requires Proper(p, List(sp + 1), Carried(nmatches))
      modifies this`nthreads, this`pushes, visited, pcs, matches, buf
      ensures Valid(p) && buf[..] == old(buf[..]) && pushes - nthreads == old(pushes - nthreads)
      ensures var m := old(buf[row][..Carried(nmatches)]);
              List(sp + 1) == Close(p, Peek(s, sp, beyond) == 0, second, sp, m,
                                    Close(p, Peek(s, sp, beyond) == 0, first, sp, m, old(List(sp + 1))))
      ensures forall q :: 0 <= q < |p| ==> visited[q] == old(visited[q]) || visited[q] == sp + 1
      decreases Pcs(p) - Marked(sp + 1), 1
    {
      hide Close, Proper, Runnable;
      AddThread(p, first, s, sp, buf, row, nmatches, beyond);
      AddThread(p, second, s, sp, buf, row, nmatches, beyond);
    }

    /** The SAVE case: the slot is set in the caller's array for the threads added from here. */
    method AddSave(p: Code, pc: nat, slot: nat, s: seq<byte>, sp: nat, buf: array<seq<Slot>>, row: nat, nmatches: nat,
                   beyond: byte)
      requires Runnable(p) && pc + 1 < |p| && Valid(p) && buf != matches && row < buf.Length
      requires |buf[row]| >= Carried(nmatches) && (|buf[row]| == nmatches || |buf[row]| == Carried(nmatches))
      requires Proper(p, List(sp + 1), Carried(nmatches))
      modifies this`nthreads, this`pushes, visited, pcs, matches, buf
      ensures Valid(p) && buf[..] == old(buf[..]) && pushes - nthreads == old(pushes - nthreads)
      ensures var m := old(buf[row][..Carried(nmatches)]);
              List(sp + 1) == Close(p, Peek(s, sp, beyond) == 0, pc + 1, sp,
                                    if slot < |m| then m[slot := At(sp)] else m, old(List(sp + 1)))
      ensures forall q :: 0 <= q < |p| ==> visited[q] == old(visited[q]) || visited[q] == sp + 1
      decreases Pcs(p) - Marked(sp + 1), 1
    {
      hide Close, Proper, Runnable;
      if slot < nmatches && slot < MAX_MATCHES {
        ghost var before := buf[..];
        var saved := buf[row][slot];
        buf[row] := buf[row][slot := At(sp)];
        ghost var during := buf[..];
        AddThread(p, pc + 1, s, sp, buf, row, nmatches, beyond);
        assert during == before[row := before[row][slot := At(sp)]];
        buf[row] := buf[row][slot := saved];
        assert during[row][slot := saved] == before[row];
        assert buf[..] == during[row := before[row]];
      } else {
        AddThread(p, pc + 1, s, sp, buf, row, nmatches, beyond);
      }
    }
  }

  /** Two lists on separate storage, and an array that is not y's. */
  ghost predicate Apart(x: ThreadList, y: ThreadList, buf: array<seq<Slot>>)
  {
    x != y && x.visited != y.visited && x.pcs != y.pcs && x.matches != y.matches &&
    x.visited as object != y.pcs as object && y.visited as object != x.pcs as object &&
    buf != y.matches
  }

  /** The thread at a waiting instruction accepts what the string holds at its position. */
  predicate Accepts(ins: Instr, c: byte)
    requires Eating(ins)
  {
    match ins
    case Char(ch) => c == ch
    case AnyChar => c != 0
    case CharClass(k) => Contains(k, c)
    case CharClassNegated(k) => !Contains(k, c)
  }

  lemma AcceptsEats(ins: Instr, s: seq<byte>, sp: nat, beyond: byte)
    requires Eating(ins) && IsString(s) && sp < |s|
    ensures Accepts(ins, Peek(s, sp, beyond)) <==> Eats(ins, s[sp])
  {
  }

  lemma PeekEnd(s: seq<byte>, i: nat, beyond: byte)
    requires IsString(s) && i <= |s|
    ensures Peek(s, i, beyond) == 0 <==> i == |s|
  {
  }

  /** The loop over the current list at one position: feeds the next list and stops at the
      first thread that matches, whose slots it hands to the caller. */
  method RunPosition(p: Code, s: seq<byte>, sp: nat, current: ThreadList, next: ThreadList,
                     matches: array<seq<Slot>>, nmatches: nat, beyond: byte)
    returns (hit: bool)
    requires Runnable(p) && IsString(s) && sp <= |s|
    requires Apart(current, next, matches) && Apart(next, current, matches) && matches.Length == 1
    requires current.Valid(p) && next.Valid(p) && |matches[0]| == nmatches
    requires Waits(p, current.Threads(), Carried(nmatches))
    requires next.nthreads == 0 && forall q :: 0 <= q < |p| ==> next.visited[q] < sp + 2
    modifies current`nthreads, current.matches, next`nthreads, next`pushes, next.visited, next.pcs, next.matches, matches
    ensures next.pushes == old(next.pushes) + next.nthreads
    ensures next.Valid(p) && Proper(p, next.List(sp + 2), Carried(nmatches))
    ensures forall q :: 0 <= q < |p| ==> next.visited[q] <= sp + 2
    ensures sp < |s| ==>
      next.List(sp + 2) == Feed(p, s, sp, old(current.Threads()), Carried(nmatches), Adding({}, []))
    ensures hit <==> Hit(p, old(current.Threads())).Found?
    ensures hit ==> matches[0] == Hit(p, old(current.Threads())).m + old(matches[0][Carried(nmatches)..])
    ensures !hit ==> matches[0] == old(matches[0])
  {
    hide Close, Feed, Hit, Proper, Runnable, ThreadList.Marked, Pcs, Peek, Accepts;
    ghost var all, n := current.Threads(), Carried(nmatches);
    hit := false;
    var i := 0;
    NothingMarked(p, next, sp + 2, n);
    assert all[0..] == all;
    while i < current.nthreads
      invariant current.Valid(p) && next.Valid(p) && next.pushes == old(next.pushes) + next.nthreads
      invariant Proper(p, next.List(sp + 2), n)
      invariant forall q :: 0 <= q < |p| ==> next.visited[q] <= sp + 2
      invariant !hit ==> i <= |all| && current.Threads() == all && matches[0] == old(matches[0])
      invariant !hit ==> Waits(p, all[i..], n) && Hit(p, all) == Hit(p, all[i..])
      invariant !hit && sp < |s| ==> Feed(p, s, sp, all, n, Adding({}, [])) == Feed(p, s, sp, all[i..], n, next.List(sp + 2))
      invariant hit ==> current.nthreads == 0 && Hit(p, all).Found? && matches[0] == Hit(p, all).m + old(matches[0][n..])
      invariant hit && sp < |s| ==> Feed(p, s, sp, all, n, Adding({}, [])) == next.List(sp + 2)
      decreases current.nthreads - i
    {
      assert all[i..][1..] == all[i + 1..];
      hit := RunOne(p, s, sp, current, i, next, matches, nmatches, beyond, all[i..]);
      i := i + 1;
    }
    if !hit {
      assert all[i..] == [];
      HitEnd(p);
      if sp < |s| { FeedEnd(p, s, sp, n, next.List(sp + 2)); }
    }
  }

  /** The thread at i, the first of the rest of the list. */
  method RunOne(p: Code, s: seq<byte>, sp: nat, current: ThreadList, i: nat, next: ThreadList,
                matches: array<seq<Slot>>, nmatches: nat, beyond: byte, ghost rest: seq<Thread>)
    returns (hit: bool)
    requires Runnable(p) && IsString(s) && sp <= |s|
    requires Apart(current, next, matches) && Apart(next, current, matches) && matches.Length == 1
    requires current.Valid(p) && next.Valid(p) && |matches[0]| == nmatches && i < current.nthreads
    requires rest == current.Threads()[i..] && Waits(p, rest, Carried(nmatches))
    requires Proper(p, next.List(sp + 2), Carried(nmatches))
    modifies current`nthreads, current.matches, next`nthreads, next`pushes, next.visited, next.pcs, next.matches, matches
    ensures current.Valid(p) && next.Valid(p) && Proper(p, next.List(sp + 2), Carried(nmatches))
    ensures next.pushes - next.nthreads == old(next.pushes - next.nthreads)
    ensures forall q :: 0 <= q < |p| ==> next.visited[q] == old(next.visited[q]) || next.visited[q] == sp + 2
    ensures Waits(p, rest[1..], Carried(nmatches))
    ensures hit ==> current.nthreads == 0 && Hit(p, rest).Found?
    ensures hit ==> matches[0] == Hit(p, rest).m + old(matches[0][Carried(nmatches)..])
    ensures !hit ==> current.Threads() == old(current.Threads()) && matches[0] == old(matches[0])
    ensures !hit ==> Hit(p, rest) == Hit(p, rest[1..])
    ensures sp < |s| ==>
      Feed(p, s, sp, rest, Carried(nmatches), old(next.List(sp + 2))) ==
      if hit then next.List(sp + 2) else Feed(p, s, sp, rest[1..], Carried(nmatches), next.List(sp + 2))
  {
    hide Close, Feed, Hit, Proper, Runnable, ThreadList.Marked, Pcs, Peek, Accepts;
    ghost var n := Carried(nmatches);
    assert rest[0] == Thread(current.pcs[i], current.matches[i]);
    HitStep(p, rest, n);
    if sp < |s| { FeedStep(p, s, sp, rest, n, next.List(sp + 2)); }
    hit := p[current.pcs[i]] == Match;
    if hit {
      TakeMatch(current, i, matches, nmatches);
    } else {
      EatingGoesOn(p, current.pcs[i]);
      RunThread(p, s, sp, current, i, next, nmatches, beyond);
    }
  }

  /** The MATCH case: the threads behind are dropped and the slots handed over. */
  method TakeMatch(current: ThreadList, i: nat, matches: array<seq<Slot>>, nmatches: nat)
    requires i < current.matches.Length && matches.Length == 1 && matches != current.matches
    requires |matches[0]| == nmatches && |current.matches[i]| == Carried(nmatches)
    modifies current`nthreads, matches
    ensures current.nthreads == 0 && matches[0] == current.matches[i] + old(matches[0][Carried(nmatches)..])
  {
    current.nthreads := 0;
    matches[0] := current.matches[i][..Carried(nmatches)] + matches[0][Carried(nmatches)..];
  }

  /** The character test of one waiting thread, and its move to the next list. */
  method RunThread(p: Code, s: seq<byte>, sp: nat, current: ThreadList, i: nat, next: ThreadList, nmatches: nat,
                   beyond: byte)
    requires Runnable(p) && IsString(s) && sp <= |s| && Apart(current, next, current.matches)
    requires current.Valid(p) && next.Valid(p) && i < current.nthreads
    requires current.pcs[i] + 1 < |p| && Eating(p[current.pcs[i]]) && |current.matches[i]| == Carried(nmatches)
    requires Proper(p, next.List(sp + 2), Carried(nmatches))
    modifies next`nthreads, next`pushes, next.visited, next.pcs, next.matches, current.matches
    ensures next.Valid(p) && Proper(p, next.List(sp + 2), Carried(nmatches))
    ensures next.pushes - next.nthreads == old(next.pushes - next.nthreads)
    ensures current.matches[..] == old(current.matches[..])
    ensures forall q :: 0 <= q < |p| ==> next.visited[q] == old(next.visited[q]) || next.visited[q] == sp + 2
    ensures sp < |s| ==>
      next.List(sp + 2) ==
      if Eats(p[current.pcs[i]], s[sp])
      then Close(p, sp + 1 == |s|, current.pcs[i] + 1, sp + 1, old(current.matches[i]), old(next.List(sp + 2)))
      else old(next.List(sp + 2))
  {
    hide Close, Proper, Runnable, ThreadList.Marked, Pcs;
    if sp < |s| {
      AcceptsEats(p[current.pcs[i]], s, sp, beyond);
      PeekEnd(s, sp + 1, beyond);
    }
    assert current.matches[i][..Carried(nmatches)] == current.matches[i];
    if Accepts(p[current.pcs[i]], Peek(s, sp, beyond)) {
      next.AddThread(p, current.pcs[i] + 1, s, sp + 1, current.matches, i, nmatches, beyond);
    }
  }

  lemma NothingMarked(p: Code, list: ThreadList, mark: nat, n: nat)
    requires list.Valid(p) && list.nthreads == 0 && forall q :: 0 <= q < |p| ==> list.visited[q] < mark
    ensures list.List(mark) == Adding({}, []) && Proper(p, list.List(mark), n)
  {
  }

  /** The outcome held by the caller's array. */
  function Held(matched: bool, m: Slots, n: nat): (r: Found)
    requires n <= |m|
  {
    if matched then Found(m[..n]) else Nothing
  }

  /** One round at sp: what is still to come from the next list, before what is held now, is
      what was to come from the current list, before what was held. */
  method RunRound(p: Code, s: seq<byte>, sp: nat, current: ThreadList, next: ThreadList,
                  matches: array<seq<Slot>>, nmatches: nat, beyond: byte, was: bool)
    returns (matched: bool)
    requires Runnable(p) && IsString(s) && sp <= |s|
    requires Apart(current, next, matches) && Apart(next, current, matches) && matches.Length == 1
    requires current.Valid(p) && next.Valid(p) && |matches[0]| == nmatches
    requires Waits(p, current.Threads(), Carried(nmatches))
    requires next.nthreads == 0 && forall q :: 0 <= q < |p| ==> next.visited[q] < sp + 2
    modifies current`nthreads, current.matches, next`nthreads, next`pushes, next.visited, next.pcs, next.matches, matches
    ensures next.pushes == old(next.pushes) + next.nthreads
    ensures next.Valid(p) && Waits(p, next.Threads(), Carried(nmatches)) && |matches[0]| == nmatches
    ensures forall q :: 0 <= q < |p| ==> next.visited[q] <= sp + 2
    ensures matches[0][Carried(nmatches)..] == old(matches[0][Carried(nmatches)..])
    ensures was ==> matched
    ensures !matched ==> matches[0] == old(matches[0])
    ensures OrElse(Pike(p, s, sp, old(current.Threads()), Carried(nmatches)), Held(was, old(matches[0]), Carried(nmatches)))
         == if sp < |s| && next.nthreads > 0
            then OrElse(Pike(p, s, sp + 1, next.Threads(), Carried(nmatches)), Held(matched, matches[0], Carried(nmatches)))
            else Held(matched, matches[0], Carried(nmatches))
  {
    hide Close, Feed, Hit, Pike, Proper, Runnable, ThreadList.Marked, ThreadList.Threads, Pcs, Peek;
    ghost var n, threads, m := Carried(nmatches), current.Threads(), matches[0];
    PikeStep(p, s, sp, threads, n);
    matched := RunPosition(p, s, sp, current, next, matches, nmatches, beyond);
    if matched {
      HitLength(p, threads, n);
      assert matches[0][..n] == Hit(p, threads).m && matches[0][n..] == m[n..];
    }
    ProperWaits(p, next.List(sp + 2), n);
    matched := matched || was;
  }

  /** vm_run: reports a match exactly when there is a result, and leaves its slots, followed by
      unset ones, in the caller's array. Nothing depends on what lies beyond the string. */
  method Run(p: Code, s: seq<byte>, matches: array<seq<Slot>>, nmatches: nat, beyond: byte) returns (matched: bool)
    requires Runnable(p) && IsString(s) && matches.Length == 1
    modifies matches
    ensures matched <==> Result(p, s, Carried(nmatches)).Found?
    ensures matched ==>
      matches[0] == Result(p, s, Carried(nmatches)).m + seq(nmatches - Carried(nmatches), _ => Null)
    ensures !matched ==> matches[0] == seq(nmatches, _ => Null)
  {
    hide Result, Runnable, IsString;
    var current := new ThreadList(|p|);
    var next := new ThreadList(|p|);
    matched := RunWithThreads(p, s, matches, nmatches, current, next, beyond);
  }

  /** vm_run_with_threads, on two lists that are empty and unmarked. Over the whole run, no more
      threads are added than there are instructions times positions, and one list more. */
  method RunWithThreads(p: Code, s: seq<byte>, matches: array<seq<Slot>>, nmatches: nat, list: ThreadList,
                        other: ThreadList, beyond: byte)
    returns (matched: bool)
    requires Runnable(p) && IsString(s) && matches.Length == 1
    requires Apart(list, other, matches) && Apart(other, list, matches) && Unused(p, list) && Unused(p, other)
    modifies matches, list, list.visited, list.pcs, list.matches, other, other.visited, other.pcs, other.matches
    ensures matched <==> Result(p, s, Carried(nmatches)).Found?
    ensures matched ==>
      matches[0] == Result(p, s, Carried(nmatches)).m + seq(nmatches - Carried(nmatches), _ => Null)
    ensures !matched ==> matches[0] == seq(nmatches, _ => Null)
    ensures list.pushes + other.pushes <= old(list.pushes + other.pushes) + |p| * (|s| + 2)
  {
    hide Close, Pike, Result, Proper, Runnable, ThreadList.Marked, ThreadList.Threads, Pcs, Peek, Waits, Total;
    ghost var n := Carried(nmatches);
    ghost var unset, rest := seq(nmatches, _ => Null), seq(nmatches - n, _ => Null);
    var current, next := list, other;
    AddFirst(p, s, matches, nmatches, current, next, beyond);
    matched := false;
    var sp := 0;
    ghost var start, most := old(list.pushes + other.pushes), |p|;
    OneMoreRound(|p|, 0, |s| + 2);
    assert matches[0][n..] == rest;
    while true
      invariant sp <= |s| && ((current == list && next == other) || (current == other && next == list))
      invariant current.Valid(p) && next.Valid(p) && next.nthreads == 0
      invariant forall q :: 0 <= q < |p| ==> current.visited[q] <= sp + 1
      invariant forall q :: 0 <= q < |p| ==> next.visited[q] < sp + 2
      invariant Waits(p, current.Threads(), n)
      invariant current.pushes + next.pushes <= start + most
      invariant most == Total(|p|, sp + 1)
      invariant |matches[0]| == nmatches && matches[0][n..] == rest && (!matched ==> matches[0] == unset)
      invariant Result(p, s, n) == OrElse(Pike(p, s, sp, current.Threads(), n), Held(matched, matches[0], n))
      decreases |s| - sp
    {
      matched := RunRound(p, s, sp, current, next, matches, nmatches, beyond, matched);
      PeekEnd(s, sp, beyond);
      most := most + |p|;
      OneMoreRound(|p|, sp + 1, |s| + 2);
      current, next := next, current;
      next.nthreads := 0;
      if current.nthreads == 0 || Peek(s, sp, beyond) == 0 {
        break;
      }
      sp := sp + 1;
    }
  }

  /** The unset slots, and the threads at the start of the string. */
  method AddFirst(p: Code, s: seq<byte>, matches: array<seq<Slot>>, nmatches: nat, list: ThreadList, other: ThreadList,
                  beyond: byte)
    requires Runnable(p) && IsString(s) && matches.Length == 1
    requires Apart(list, other, matches) && Apart(other, list, matches) && Unused(p, list)
    modifies matches, list`nthreads, list`pushes, list.visited, list.pcs, list.matches
    ensures matches[0] == seq(nmatches, _ => Null)
    ensures list.Valid(p) && Waits(p, list.Threads(), Carried(nmatches))
    ensures list.pushes <= old(list.pushes) + |p|
    ensures forall q :: 0 <= q < |p| ==> list.visited[q] <= 1
    ensures Result(p, s, Carried(nmatches)) == Pike(p, s, 0, list.Threads(), Carried(nmatches))
  {
    hide Close, Pike, Result, Proper, Runnable, ThreadList.Marked, ThreadList.Threads, Pcs, Peek, Waits;
    ghost var n := Carried(nmatches);
    matches[0] := seq(nmatches, _ => Null);
    assert matches[0][..n] == seq(n, _ => Null);
    StartList(p, s, n, matches[0][..n]);
    NothingMarked(p, list, 1, n);
    PeekEnd(s, 0, beyond);
    list.AddThread(p, 0, s, 0, matches, 0, nmatches, beyond);
  }

  lemma OneMoreRound(n: nat, k: nat, rounds: nat)
    requires k < rounds
    ensures Total(n, k + 1) == Total(n, k) + n && Total(n, k + 1) <= n * rounds && Total(n, 0) == 0
  {
  }

  /** The threads that k lists can hold. */
  ghost function Total(n: nat, k: nat): (r: nat) {
    n * k
  }

  /** A list as it is after clearing: no threads, no marks. */
  ghost predicate Unused(p: Code, list: ThreadList)
    reads list, list.visited
  {
    list.Valid(p) && list.nthreads == 0 && forall k :: 0 <= k < |p| ==> list.visited[k] == 0
  }
}
