/** The whole engine: a pattern parsed, compiled and run on a string. */
module Engine {
  import opened Bytes
  import opened CharClass
  import opened Syntax
  import opened Program
  import opened Compiler
  import opened Threads
  import opened Machine
  import opened Paths
  import opened Searching
  import opened Anchoring
  import opened Parsing
  import opened NodeBuffer
  import opened Grammar
  import opened PastEnd

  /** Some substring is denoted by the phrase. */
  ghost predicate Occurs(re: Regex, s: seq<byte>) {
    exists i: nat, j: nat :: i <= |s| && RegexDenotes(re, s, i, j)
  }

  /** Some prefix is. */
  ghost predicate OccursAtStart(re: Regex, s: seq<byte>) {
    exists j: nat :: RegexDenotes(re, s, 0, j)
  }

  /** Where a report starts: as far left as any way fits, and at 0 without the skip. */
  ghost predicate StartsAt(root: Node, s: seq<byte>, i: nat)
    requires Valid(root)
  {
    if Anchored(root) then i == 0 else NoneBefore(root, s, i)
  }

  lemma OccursMatches(p: seq<byte>, re: Regex, s: seq<byte>)
    requires IsPattern(p) && Phrase(p, re) && Parse(p).Accepted? && Valid(Parse(p).tree)
    ensures Occurs(re, s) <==> exists i: nat, j: nat :: i <= |s| && Matches(Parse(p).tree, s, i, j)
    ensures OccursAtStart(re, s) <==> exists j: nat :: Matches(Parse(p).tree, s, 0, j)
  {
    hide Context, RegexDenotes, Matches, Phrase;
    if Occurs(re, s) {
      var i: nat, j: nat :| i <= |s| && RegexDenotes(re, s, i, j);
      ParsedMeaning(p, re, s, i, j);
    }
    if i: nat, j: nat :| i <= |s| && Matches(Parse(p).tree, s, i, j) { ParsedMeaning(p, re, s, i, j); }
    if OccursAtStart(re, s) {
      var j: nat :| RegexDenotes(re, s, 0, j);
      ParsedMeaning(p, re, s, 0, j);
    }
    if j: nat :| Matches(Parse(p).tree, s, 0, j) { ParsedMeaning(p, re, s, 0, j); }
  }

  /** What the compiled pattern finds, in terms of the grammar: all the occurrences count,
      unless the skip is dropped for a pattern that can match later. */
  lemma FindsOccurrences(p: seq<byte>, re: Regex, s: seq<byte>, n: nat)
    requires IsPattern(p) && IsString(s) && Phrase(p, re)
    ensures Parse(p).Accepted? && Valid(Parse(p).tree) && MatchLast(ProgramOf(Parse(p).tree))
    ensures var tree := Parse(p).tree;
            var found := Result(ProgramOf(tree), s, n).Found?;
            (!Anchored(tree) || KeepsStart(tree) ==> (found <==> Occurs(re, s))) &&
            (Anchored(tree) ==> (found <==> OccursAtStart(re, s)))
  {
    hide Context, RegexDenotes, Matches, ProgramOf, Result, MatchLast, Reports, Leftmost, Anchored, KeepsStart;
    hide RegexTree, Valid, Phrase;
    ParsedMeaning(p, re, s, 0, 0);
    var tree := Parse(p).tree;
    OccursMatches(p, re, s);
    if Anchored(tree) {
      AnchoredFinds(tree, s, n);
      if KeepsStart(tree) { DroppedSkipSearches(tree, s, n); }
    } else {
      SearchFinds(tree, s, n);
    }
  }

  /** Parse, compile and run. A pattern that is not accepted leaves the captures alone. */
  method Find(p: seq<byte>, s: seq<byte>, matches: array<seq<Slot>>, nmatches: nat, beyond: byte)
    returns (parsed: Outcome, matched: bool)
    requires IsPattern(p) && IsString(s) && matches.Length == 1
    modifies matches
    ensures parsed == Success <==> exists re :: Phrase(p, re)
    ensures parsed == PastEnd ==> p != [] && p[|p| - 1] == BACKSLASH
    ensures parsed == PastEnd <==> exists k: nat :: Completes(p, k)
    ensures parsed != Success ==> !matched && matches[..] == old(matches[..])
    ensures parsed == Success ==>
      Parse(p).Accepted? && Valid(Parse(p).tree) && |matches[0]| == nmatches &&
      (forall re :: Phrase(p, re) ==>
         (!Anchored(Parse(p).tree) || KeepsStart(Parse(p).tree) ==> (matched <==> Occurs(re, s))) &&
         (Anchored(Parse(p).tree) ==> (matched <==> OccursAtStart(re, s)))) &&
      (matched ==> exists i: nat, j: nat :: Reports(Parse(p).tree, s, matches[0][..Carried(nmatches)], i, j)) &&
      (matched ==> exists i: nat, w :: Prefers(Parse(p).tree, s, matches[0][..Carried(nmatches)], i, w) &&
                                       StartsAt(Parse(p).tree, s, i)) &&
      (!matched ==> matches[0] == seq(nmatches, _ => Null))
  {
    hide Context, ProgramOf, Result, Reports, Prefers, StartsAt, Anchored, KeepsStart, Valid, Phrase, Hangs, TreeAt, Occurs, OccursAtStart, Completes;
    ParserAcceptsPhrases(p);
    OverrunExactly(p);
    matched := false;
    var context;
    parsed, context := ParsePattern(p);
    if parsed == PastEnd { OverrunEnds(p, 0, 0, []); }
    if parsed == Success {
      var tree := TreeAt(context.nodes[..], 0);
      ContextValid(p, 0, 0, []);
      var program := CompileNode(tree);
      ProgramRuns(tree);
      var code := program[..];
      matched := Machine.Run(code, s, matches, nmatches, beyond);
      forall re | Phrase(p, re)
        ensures (!Anchored(tree) || KeepsStart(tree) ==> (matched <==> Occurs(re, s))) &&
                (Anchored(tree) ==> (matched <==> OccursAtStart(re, s)))
      {
        FindsOccurrences(p, re, s, Carried(nmatches));
      }
      if matched {
        ReportsFound(tree, s, Carried(nmatches));
        assert matches[0][..Carried(nmatches)] == Result(code, s, Carried(nmatches)).m;
      }
    }
  }

  /** Whatever is found is reported well, and is the chosen way from where it starts. */
  lemma ReportsFound(root: Node, s: seq<byte>, n: nat)
    requires Valid(root) && MatchLast(ProgramOf(root)) && Result(ProgramOf(root), s, n).Found?
    ensures |Result(ProgramOf(root), s, n).m| == n
    ensures exists i: nat, j: nat :: Reports(root, s, Result(ProgramOf(root), s, n).m, i, j)
    ensures exists i: nat, w :: Prefers(root, s, Result(ProgramOf(root), s, n).m, i, w) && StartsAt(root, s, i)
  {
    hide ProgramOf, Reports, Leftmost, Valid, Prefers, NoneBefore;
    ResultLength(ProgramOf(root), s, n);
    if Anchored(root) {
      AnchoredFinds(root, s, n);
      AnchoredPrefers(root, s, n);
    } else {
      SearchFinds(root, s, n);
      SearchPrefers(root, s, n);
    }
  }
}
