/** Accepting paths without repetition, against paths that may come back to where they were. */
module Paths {
  import opened Bytes
  import opened Program
  import opened Priority

  /** Match stands only at the end of the program. */
  predicate MatchLast(p: Code) {
    Runnable(p) && forall k :: 0 <= k < |p| - 1 ==> p[k] != Match
  }

  lemma {:induction false} CleanPath(p: Code, s: seq<byte>, st: State, ch: seq<bool>, avoid: set<State>)
    requires Clean(p, s, st, ch, avoid)
    ensures Path(p, s, st, ch)
    decreases |ch|
  {
    if ch != [] { CleanPath(p, s, Step(p, s, st, ch[0]).st, ch[1..], avoid + {st}); }
  }

  /** The states visited lie outside avoid. */
  predicate Avoids(p: Code, s: seq<byte>, st: State, ch: seq<bool>, avoid: set<State>)
    decreases |ch|
  {
    st !in avoid &&
    (ch != [] && st.pc < |p| && Step(p, s, st, ch[0]).To? ==> Avoids(p, s, Step(p, s, st, ch[0]).st, ch[1..], avoid))
  }

  lemma {:induction false} AvoidsNothing(p: Code, s: seq<byte>, st: State, ch: seq<bool>)
    ensures Avoids(p, s, st, ch, {})
    decreases |ch|
  {
    if ch != [] && st.pc < |p| && Step(p, s, st, ch[0]).To? {
      AvoidsNothing(p, s, Step(p, s, st, ch[0]).st, ch[1..]);
    }
  }

  /** A path that meets x goes on from x to a Match. */
  lemma {:induction false} Revisit(p: Code, s: seq<byte>, st: State, ch: seq<bool>, avoid: set<State>, x: State)
    returns (k: nat)
    requires Path(p, s, st, ch) && Avoids(p, s, st, ch, avoid) && !Avoids(p, s, st, ch, avoid + {x})
    ensures k <= |ch| && Path(p, s, x, ch[k..]) && Avoids(p, s, x, ch[k..], avoid)
    decreases |ch|
  {
    if st == x {
      k := 0;
      assert ch[0..] == ch;
    } else {
      k := Revisit(p, s, Step(p, s, st, ch[0]).st, ch[1..], avoid, x);
      assert ch[1..][k..] == ch[k + 1..];
      k := k + 1;
    }
  }

  /** Cutting the loops out of an accepting path leaves one without repetition. */
  lemma {:induction false} PathClean(p: Code, s: seq<byte>, st: State, ch: seq<bool>, avoid: set<State>)
    returns (y: seq<bool>)
    requires Path(p, s, st, ch) && Avoids(p, s, st, ch, avoid)
    ensures Clean(p, s, st, y, avoid)
    decreases |ch|
  {
    if ch == [] {
      y := [];
    } else {
      var next := Step(p, s, st, ch[0]).st;
      if Avoids(p, s, next, ch[1..], avoid + {st}) {
        var z := PathClean(p, s, next, ch[1..], avoid + {st});
        y := [ch[0]] + z;
        assert y[1..] == z;
      } else {
        var k := Revisit(p, s, next, ch[1..], avoid, st);
        y := PathClean(p, s, st, ch[1..][k..], avoid);
      }
    }
  }
}
