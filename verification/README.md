# Verified models of Rufus

Rufus writes bootable drives. This project models four of its parts in Dafny, each in the form
the program gives it, and proves what each is for:

* **The regular expression engine** (`cregex_parse.c`, `cregex_compile.c`, `cregex_vm.c`): a
  shunting-yard parser in one buffer used from both ends, a compiler to SPLIT/JUMP/SAVE programs,
  and a machine that runs all threads in lock-step.
* **Hashing** (`hash.c`): message blocks gathered over any sequence of writes, the rolling-window
  SHA-256 block function, and the reader and workers with three buffers.
* **The bad block check** (`badblocks.c`): write and read passes with recovery over arbitrary
  media, and the detection of fake media.
* **Disk arithmetic** (`format.c`, `format_fat32.c`, `drive.c`): the sector-wise image writer, the
  FAT32 layout and the partition table.

`dafny verify dfyconfig.toml` checks everything.

## How it is put together

| files | what they hold |
|---|---|
| `Bytes`, `CharClass`, `Syntax` | bytes, the 256-bit character classes, parse trees and the positions they match |
| `Parsing`, `Grammar`, `Spelling`, `PastEnd`, `NodeBuffer` | the parser as a function on text, a grammar it is proved equal to, how its items are spelled, which patterns are read past their end, and the parser on its node buffer |
| `Ways` | the ways in which a tree can match, which of two is preferred, and what each leaves in the captures |
| `Program`, `Codegen`, `Meaning`, `Compiler` | programs and paths through them, the code of a tree as a value, its paths against the tree's ways, and the emitting compiler |
| `Threads`, `Machine` | one machine step as a function on thread lists, and the machine on its arrays |
| `Backtrack`, `Priority`, `Paths`, `Precedence` | the machine against backtracking, against the preferred path, and against the preferred way of the tree |
| `Searching`, `Anchoring` | the skip and the leftmost start, and patterns without the skip |
| `Alternatives`, `Simulation`, `Rewriting`, `Written` | an empty alternative that is the whole pattern's, programs that differ by instructions that lead nowhere else, and the rewriting of empty alternatives at every depth |
| `Engine` | all stages together |
| `Padding`, `Hashing`, `Sha256Constants`, `Sha256`, `HashPipeline` | padding and digests, the contexts, SHA-256 against its standard, and the threads |
| `BadBlockList`, `TestPattern`, `Media`, `Passes`, `BadBlocks` | the list, the patterns, media of any behaviour, what the calls of a pass say of each block, and the test |
| `SectorWriter`, `Fat32`, `Partitions` | the disk arithmetic |

Functions describe what the imperative classes and methods are proved to do; the lemmas about
those functions are then about the program's own loops and updates.

### Choices of the model

* A string ends at a NUL. A negated character class accepts that NUL, so the machine can read one
  position further; what lies there is the parameter `beyond`, on which no result depends.
* The caller's capture array is row 0 of an array of slot sequences, because the machine passes
  either that array or a thread's own copy to the same routine.
* A pattern is read past its end by the program if its last character is a backslash that stands
  where an item begins; the model stops there with the outcome `PastEnd` (`Overrun`). A bracket put
  behind such a backslash would be an item, so that is so exactly if the pattern with an opening
  bracket and some number of closing parentheses behind it is accepted (`OverrunExactly`): of `\`
  and `[\`, it is so of the first alone, as the second is refused for its bracket
  (`FinalBackslashes`).
* Bracket text is kept by value in the tree where the program keeps two pointers into the pattern.
* The block function of a digest is a parameter of the streaming context; SHA-256's is the one
  modelled, and its constants are proved to be what FIPS 180-4 says they are.
* Time-outs, failing system calls and failing allocations end the program's routines early; they
  are not part of the models, except where a device's answers are the subject.
* Media, underlying writes and the user's cancelling are functions of the moment, so they stand
  for every behaviour in time. A write that fails may leave anything in the blocks it was for.
* What is preferred among the ways of a tree is stated on the tree (`Better`): the first branch of
  an alternation, one more copy of a greedy quantifier, one less of a lazy one, the first
  difference deciding. A way is fresh if it never comes to the same place of the pattern at the
  same position twice; the places are numbered as the instructions of the tree's code are.

### Where the code does not do what it seems to

* The skip `.*?` is left out for patterns that look anchored, and the look goes through
  quantifiers whatever their lower bound: `(^a)?b` is not found in `xb` (`MissedMatch`).
  `OnlyAtStart` says exactly, from the tree, when all matches start at the start of the string;
  then nothing is lost. Nothing is lost either where the tree matches nothing at the start, like
  `^*`, which is found in every string (`DroppedSkipSearches`, `StarredStartFound`). For the other
  trees, that nothing is lost means that every string with a match has one at its start, which is
  an inclusion of languages and is not decided here.
* A character range that runs from below 0x80 to 0x80 or above is accepted and holds nothing
  (`RangeMeaning`).
* An empty alternative in front, as in `|a`, becomes the greedy `a?`. That keeps the language
  (`EitherMatches`) but prefers the other alternative: `|a` on `a` reports the letter, and its
  alternatives as written report nothing matched (`EmptyFirstPasses`). So it does inside a group:
  `b(|a)` on `ba` reports both letters, and as written `b` alone (`EmptyFirstInside`). Of every
  phrase, the tree to compare with is the one that has an alternation for each bar at any depth,
  with its sides exchanged where the left one alone is empty; if there is no such bar it is the
  phrase as written. For all strings and slots the report is that of this tree, unless the parser's
  tree looks anchored and this one does not; and then it is exactly if some match starts at the
  start of the string, or there is none (`PhraseReports`). Rewriting can make a tree look anchored:
  `(^a|)b` is not found in `xb`, and as written it would be (`EmptyLastMissed`). For two
  alternatives that are the whole pattern, `EitherReports` says what exchanging them means: with
  the first alone empty, the report is that of the alternatives as written exactly if, at the start
  of the string, the second does not match or prefers to match nothing and set nothing.
* Patterns of three bytes fill the blocks of the test buffer differently from slot to slot
  (`ThreeByteFill`), and after a recovery a block can be compared with another slot than the one it
  was written from. On a medium that keeps what it is given, whatever fails, a block is reported as
  corrupt exactly if those two slots differ, by a number that is no multiple of three
  (`RunPass`, `ThreeBytesDecide`); with patterns of one byte none is (`OneByteNeverDiffers`). If
  writes of several blocks fail and those of single ones do not, two of three good blocks are
  reported, by the third pass alone (`FalseReports`) and by the whole test as it is called
  (`FalseReportsOfTest`).
* A short write of a completed sector that happens to take as many bytes as the caller passed is
  answered as success, and the bytes that were waiting are lost in number (`LossUnnoticed`,
  `CoincidenceReached`). That takes a write that ends inside a sector; where every write takes
  whole sectors or fails, as writes to a raw drive do, it cannot happen (`NoCoincidence`).
* Volumes in the first megabyte of a range of sizes below 8 GB are refused with their own default
  cluster size, with sectors of 512, 1024, 2048 and 4096 bytes alike (`DefaultRefused`). The
  default is asked for, as cluster size 0, where an image is written as an EFI system partition or
  no size of at least 0x200 is chosen (`format.c`, lines 1797 and 1798); volumes as small as these
  come to this formatter in the first case, which sets `FP_LARGE_FAT32`, or if the user forces it
  (`format.c`, lines 673 and 1806).

Two more things the code would do wrong are never asked of it.

A number of sectors per cluster whose low byte is 0 gives FATs of half the volume each (`ZeroByte`).
A check or a failing write refuses it, unless the number of sectors is so close to 2^32 that sums
wrap (`Format`, `SlipsNear`, `SlipsThere`); no such cluster size is offered (`RequestedHeld`).

`LargeClusterOverlap` shows that an offset taken down to a cluster can reach into the partition in
front if clusters are larger than the start of a partition is aligned to. The program never gets
there: partitions in front are made for Windows To Go alone (`format.c`, lines 1478 and 1479), which
is refused unless the file system is NTFS (`rufus.c`, line 1590), whose clusters are 4 KB to 64 KB
(`rufus.c`, line 536). For what callers ask for, the partitions are always in order
(`RequestedTidy`, `CreatePartition`).

## Model

| member | source | states |
|---|---|---|
| CharClass.AddContains | src/cregex.h:77-96 | adding a byte to the bit set adds that byte and no other |
| CharClass.RangeMeaning | src/cregex_compile.c:117-120 | a range means its unsigned bytes exactly when it does not run across 0x80; one that does holds nothing |
| CharClass.BitmapOfContains | src/cregex_compile.c:99-127 | the compiled bit set holds exactly what the bracket text denotes, item by item |
| CharClass.CompileCharClass | src/cregex_compile.c:99-127 | the bit-setting loop ends with the set the text denotes, for escapes, ranges and a leading bracket |
| Syntax.RepeatsJoin | src/cregex_compile.c:179-223 | repetitions behind one another add up |
| Syntax.RepeatsSplit | src/cregex_compile.c:179-223 | repetitions of a tree can be split anywhere |
| Syntax.MatchesSpan | src/cregex.h:38-54 | a match that begins inside the string ends inside it, not before it began |
| Parsing.BracketText | src/cregex_parse.c:53-89 | the text a bracket expression keeps is one that the compiler reads to its closing bracket |
| Parsing.ContextValid | src/cregex_parse.c:130-248 | an accepted tree is well-formed: bounds in order and bracket texts closed |
| Grammar.RegexParsed | src/cregex_parse.c:130-248 | every phrase of the grammar is accepted with its own tree, at any depth of parentheses |
| Grammar.ContextSound | src/cregex_parse.c:130-248 | whatever is accepted is a phrase of the grammar, with that tree |
| Grammar.ParserAcceptsPhrases | src/cregex_parse.c:130-248 | the parser accepts a pattern exactly when it is a phrase, and gives the phrase's tree |
| Grammar.EitherMatches | src/cregex_parse.c:157-191 | rewriting an empty alternative to an optional one keeps the language |
| Alternatives.EitherReports | src/cregex_parse.c:156-189 | for two alternatives that are the whole pattern, the report is that of the alternatives as written, in every string, unless the first alone is empty; then exactly when the second, at the start of the string, does not match or prefers to match nothing and set nothing |
| Alternatives.SecondEmptySame | src/cregex_parse.c:172-180 | where two alternatives are the whole pattern, an empty second one is kept as written, captures included |
| Alternatives.EmptyFirstPasses | src/cregex_parse.c:163-171 | the pattern of a bar and a letter reports the letter, where as written nothing would be preferred |
| Written.RegexRewritten | src/cregex_parse.c:156-189 | the parser's tree of a phrase is the one with an alternation for every bar, at any depth, with its empty sides rewritten |
| Rewriting.EmptyLastIs | src/cregex_parse.c:163-180 | bars with the left side alone empty are rewritten as their exchanged ones are, and a tree without them stays itself |
| Rewriting.RewrittenResult | src/cregex_parse.c:156-189 | where no bar at any depth has the left side alone empty, the rewritten tree's code finds in every string what the tree's own code finds, captures included |
| Simulation.SimulatesResult | src/cregex_vm.c:122-203 | two programs that differ by instructions that lead to one place alone give the same result in every string |
| Written.RewrittenReports | src/cregex_parse.c:156-189 | so does the whole program, skip and all, unless rewriting makes the tree look anchored; then exactly if a match starts at the start of the string or there is none |
| Written.PhraseReports | src/cregex_parse.c:156-189 | that holds of every phrase the parser accepts, its bars at all depths, compared with the phrase as written but for exchanged bars |
| Written.EmptyFirstInside | src/cregex_parse.c:163-171 | an empty alternative in front is passed inside a group too, where the other is not even found at the start of the string |
| Written.EmptyLastMissed | src/cregex_compile.c:73-74 | a match is missed because an empty second alternative was made a quantifier |
| Grammar.RegexLanguage | src/cregex_parse.c:130-248 | the tree of a phrase matches exactly what the phrase denotes |
| Grammar.ParsedMeaning | src/cregex_parse.c:130-277 | the tree of a pattern matches exactly what the pattern denotes in the grammar |
| Grammar.IntervalSound | src/cregex_parse.c:91-128 | what is taken for an interval is one, with these bounds and this text |
| Grammar.IntervalComplete | src/cregex_parse.c:91-128 | every interval is taken for one, with its bounds |
| Grammar.OverrunEnds | src/cregex_parse.c:138-144 | a pattern that is read past its end ends in a backslash |
| PastEnd.OverrunExactly | src/cregex_parse.c:138-144 | a pattern is read past its end exactly if an opening bracket and some closing parentheses behind it make it one that is accepted |
| PastEnd.FinalBackslashes | src/cregex_parse.c:138-144 | a lone backslash is read past; escaped, in brackets or behind an unmatched parenthesis it is not |
| Spelling.BracketsSound | src/cregex_parse.c:53-89 | bracket text is read only where characters, escapes and ranges are spelled up to a closing bracket |
| Spelling.BracketsComplete | src/cregex_parse.c:53-89 | and wherever they are, with that end and negation |
| Spelling.ClassHolds | src/cregex_compile.c:99-127 | the class kept for bracket text holds exactly what its characters and ranges hold |
| Spelling.SymbolRead | src/cregex_parse.c:135-150 | every spelling of an atom is read as that atom |
| Spelling.ReadSymbol | src/cregex_parse.c:135-150 | whatever is read as an atom is spelled as one, and a character that stands for itself is no other item |
| Spelling.TimesRead | src/cregex_parse.c:192-216 | every spelling of a quantifier behind an item is read as it, lazy before a question mark |
| Spelling.ReadTimes | src/cregex_parse.c:192-216 | whatever is read as a quantifier is spelled as one, behind an item |
| NodeBuffer.Untouched | src/cregex_parse.c:16-33 | a tree in the buffer stays what it is when cells outside it change |
| NodeBuffer.ParseContext.Push | src/cregex_parse.c:16-22 | a push adds one cell below the output and leaves every finished tree as it was |
| NodeBuffer.ParseContext.Consume | src/cregex_parse.c:29-33 | the top of the stack moves to the output with the tree it stood for |
| NodeBuffer.ParseContext.Concatenate | src/cregex_parse.c:35-51 | the items above the bottom become one tree, nested to the right, or an empty one |
| NodeBuffer.ParseContext.ParseCharClass | src/cregex_parse.c:53-89 | the loop over bracket text finds the end the specification finds, or fails with it |
| NodeBuffer.ParseContext.ParseInterval | src/cregex_parse.c:91-128 | the loop over an interval reads the bounds of the specification and steps back on failure |
| NodeBuffer.ParseContext.ParseInContext | src/cregex_parse.c:130-248 | the parser on its buffer does what the functional parser does, and stack and output never meet |
| NodeBuffer.ParsePattern | src/cregex_parse.c:250-286 | two nodes per character and one more suffice for every pattern; the only item left is the tree at the start of the buffer |
| Codegen.CodeClosed | src/cregex_compile.c:129-245 | every split and jump target lies inside the code of its tree or right behind it |
| Compiler.Emitter.CompileContext | src/cregex_compile.c:129-245 | emitting with patched targets leaves exactly the code of the tree, as many instructions as counted, and the next capture number |
| Compiler.Emitter.CompileAlternation | src/cregex_compile.c:164-175 | both targets of the split and the jump's are patched to where the branches and the end came to be |
| Compiler.Emitter.CompileCopies | src/cregex_compile.c:180-183 | the required copies all number their captures from the same number |
| Compiler.Emitter.CompileOptionals | src/cregex_compile.c:184-199 | each optional copy has a split over it, turned around when not greedy |
| Compiler.CompileNode | src/cregex_compile.c:254-324 | the estimate is exactly the room that the whole program takes |
| Ways.OneGroup | src/cregex_compile.c:179-241 | a capture number belongs to one group of the tree |
| Meaning.SavesAreGroups | src/cregex_compile.c:179-241 | the code of a tree sets exactly the slot pairs of its groups' numbers, so all copies of a quantified capture write the same pair and nothing else writes it |
| Ways.FitsMatches | src/cregex.h:38-54 | a way that fits is a match of the tree, up to where the way ends |
| Ways.MatchFits | src/cregex.h:38-54 | every match of the tree is made in some way |
| Ways.WayKeeps | src/cregex_compile.c:179-243 | a way sets slots of its own groups alone, each pair to the ends of a match of its group |
| Meaning.WayWalks | src/cregex_compile.c:129-245 | every way in which a tree fits is a walk through its code to its end, with the captures of the way |
| Meaning.PathIsWay | src/cregex_compile.c:129-245 | every path from the start of a tree's code on to a match begins with the turns of a way that fits |
| Searching.WalkIsWay | src/cregex_compile.c:129-245 | every walk inside the code of a tree, wherever it stands, from its start to its end is a way that fits, with its turns, its end and its captures |
| Searching.WalkMatches | src/cregex_compile.c:129-245 | the code of a tree can be crossed from one position to another exactly if the tree matches between them |
| Ways.CaptureKeeps | src/cregex_compile.c:234-243 | a capture sets its slot pair to the ends of the match of its body |
| Threads.Close | src/cregex_vm.c:37-97 | following control from an instruction marks it, only adds to the list, and keeps the list proper |
| Threads.ListFits | src/cregex_vm.c:100-103 | a proper list has distinct instructions and never more threads than the program has instructions |
| Threads.ResultLength | src/cregex_vm.c:122-203 | a result carries as many slots as were asked for |
| Machine.ThreadList.AddThread | src/cregex_vm.c:37-97 | marks, list and restored captures change exactly as the specification says; it ends on every program, cycles included |
| Machine.ThreadList.AddSave | src/cregex_vm.c:86-95 | the slot is set for the threads added behind it and given back after |
| Machine.RunPosition | src/cregex_vm.c:140-187 | the loop at one position feeds the next list and stops at the first thread that matches, whose slots it hands over |
| Machine.RunWithThreads | src/cregex_vm.c:122-203 | marks of earlier positions never collide after swaps, the answer is the specification's, and no more threads are added than instructions times positions, and one list more |
| Machine.Run | src/cregex_vm.c:105-120 | the machine reports the specification's result with its slots, whatever lies behind the string |
| Backtrack.Level | src/cregex_vm.c:66-84 | backtracking at one position tries the waiting instructions in the order of the machine's list |
| Backtrack.PikeBacktracks | src/cregex_vm.c:122-203 | from any list on, the machine finds what backtracking from its threads in turn finds |
| Backtrack.ResultBacktracks | src/cregex_vm.c:122-203 | the machine finds what a backtracking search finds that tries first branches first and gives up where it has been |
| Priority.SearchRight | src/cregex_vm.c:66-95 | backtracking finds the preferred path that avoids what was tried, and nothing exactly when there is none |
| Priority.ResultIsBest | src/cregex_vm.c:122-203 | the result is that of the most preferred accepting path without repeated states, captures included; none means there is no such path |
| Priority.PreferredOnce | src/cregex_vm.c:66-84 | of two different paths only one is preferred |
| Paths.PathClean | src/cregex_vm.c:45-47 | leaving out repeated states, every accepting path becomes one without |
| Precedence.WayOrder | src/cregex_compile.c:164-223 | of two ways the code prefers the one that the tree prefers: first branches, more copies if greedy, fewer if lazy |
| Precedence.BetterEither | src/cregex_compile.c:164-223 | of two different ways exactly one is preferred |
| Precedence.FreshFits | src/cregex_vm.c:45-47 | where a way fits, one fits that never comes to the same place at the same position twice |
| Precedence.ResultIsChosen | src/cregex_vm.c:122-203 | for every tree and string, something is found exactly when a way fits, and reported are the captures of the way preferred to all other fresh ones |
| Searching.ProgramRuns | src/cregex_compile.c:254-292 | the compiled program never leaves itself and ends in its one match instruction |
| Searching.SkippingChosen | src/cregex_compile.c:262-280 | the lazy skip goes to the leftmost start there is, and from there the preferred way of the tree is taken |
| Searching.SearchPrefers | src/cregex_compile.c:254-292 | with the skip, what is reported are the captures of the preferred way from the leftmost start |
| Searching.AnchoredPrefers | src/cregex_compile.c:254-292 | without the skip, those of the preferred way from the start of the string |
| Searching.PrefersReports | src/cregex_compile.c:254-292 | these captures hold the span of a match in slots 0 and 1, and a match of its group or nothing in every other pair |
| Searching.SearchFinds | src/cregex_compile.c:254-292 | with the skip, something is found exactly when a substring matches, and a leftmost match is reported |
| Searching.AnchoredFinds | src/cregex_compile.c:254-292 | without the skip, exactly the matches at the start of the string are found |
| Anchoring.OnlyAtStart | src/cregex_compile.c:53-89 | all matches start at the start of the string exactly when the tree has no match to the end of a string from later on |
| Anchoring.StartEmpty | src/cregex_compile.c:53-89 | a tree that matches nothing at the start of one string that is not empty is seen to do so from the tree |
| Anchoring.EmptyStart | src/cregex_compile.c:53-89 | and does so at the start of every string |
| Anchoring.SureSpineStarts | src/cregex_compile.c:73-74 | that is so whenever every quantifier looked through has a lower bound of at least 1 |
| Anchoring.DroppedSkipSearches | src/cregex_compile.c:262-280 | leaving the skip out loses nothing where all matches are at the start or nothing is matched there |
| Anchoring.StarredStartFound | src/cregex_compile.c:73-74 | matches elsewhere do not mean a loss: a starred ^ is found in every string, at its start |
| Anchoring.MissedMatch | src/cregex_compile.c:73-74 | matches can be missed: (^a)?b in xb |
| Engine.FindsOccurrences | src/cregex_vm.c:205-211 | in terms of the grammar, the compiled pattern is found exactly when it occurs |
| Engine.Find | src/cregex_parse.c:271-286 | parse, compile and run: patterns outside the grammar are refused, others are found exactly where they occur, and reported are the captures of the preferred way |
| Padding.FewestZeros | src/hash.c:1319-1331 | the zero padding is the least that ends where the length field goes, in bits as section 5.1 of FIPS 180-4 has it |
| Padding.FoldConcat | src/hash.c:1181-1187 | blocks can be absorbed in any number of steps |
| Padding.CountWraps | src/hash.c:1317-1320 | a byte count modulo 2^64 gives the right length field always with 8 bytes, and with 16 exactly below 2^64 bytes |
| Padding.LengthHalves | src/hash.c:1406-1441 | the 64-bit halves written last are the length field |
| Hashing.HashContext.ShaWrite | src/hash.c:1143-1279 | a write extends the message by its bytes, however full the buffer was |
| Hashing.HashContext.Md5Write | src/hash.c:1282-1314 | so does MD5's, although a short chunk is copied with what lies behind it |
| Hashing.HashContext.Transform | src/hash.c:1161-1163 | a full buffer is absorbed as the next block |
| Hashing.HashContext.Store | src/hash.c:1334-1341 | the low-order bytes of a count, in the algorithm's order, at their place in the buffer |
| Hashing.HashContext.ShaFinal | src/hash.c:1317-1460 | padding in place, over a block boundary or not, gives the digest of the message |
| Hashing.HashContext.Md5Final | src/hash.c:1462-1514 | so does MD5's way of padding |
| Hashing.HashFile | src/hash.c:1529-1574 | however a file is cut into reads, the digest is the digest of its contents |
| Sha256Constants.RoundConstants | src/hash.c:209-219 | each round constant is the first 32 bits of the fraction of the cube root of its prime |
| Sha256Constants.InitialWords | src/hash.c:264-275 | each initial word is the first 32 bits of the fraction of the square root of its prime |
| Sha256.S0Is | src/hash.c:665-666 | nested rotations compute the standard's large sigma 0 |
| Sha256.S1Is | src/hash.c:665-667 | and its large sigma 1 |
| Sha256.ChIs | src/hash.c:203-206 | the shorter choice is the standard's |
| Sha256.MaIs | src/hash.c:203-207 | the shorter majority is the standard's |
| Sha256.NextWord | src/hash.c:670-671 | the 16-word circular window always holds the latest words of the message schedule |
| Sha256.RoundStep | src/hash.c:672-675 | one use of the round macro is one round of the standard |
| Sha256.RX8 | src/hash.c:676-684 | eight uses with permuted registers are eight rounds |
| Sha256.Transform | src/hash.c:652-723 | the block function does what its specification says to the chaining words |
| Sha256.BlockCompresses | src/hash.c:701-723 | on the lower halves of 64-bit chaining words, that is section 6.2.2 of FIPS 180-4 |
| Sha256.DigestIsStandard | src/hash.c:1360-1403 | the digest of every message is the one of section 6.2 of FIPS 180-4 |
| Sha256.Sha256File | src/hash.c:1529-1574 | a file gives the standard's SHA-256, however it was read |
| HashPipeline.StepKeeps | src/hash.c:1966-2106 | every step of the reader, a worker or the read in flight keeps the protocol's invariant |
| HashPipeline.Separate | src/hash.c:2067-2092 | while a worker is at a chunk, the read in flight goes elsewhere and no other chunk is about to be published |
| HashPipeline.Prefix | src/hash.c:1977-1987 | at every moment of every interleaving, a worker has hashed a beginning of the file |
| HashPipeline.AllConsumed | src/hash.c:2100-2106 | when the reader finishes, every worker has hashed the file, whole and in order |
| HashPipeline.NoLostSignal | src/hash.c:2076-2098 | no event is set that is still set |
| HashPipeline.NoDeadlock | src/hash.c:2053-2106 | until the reader finishes, some thread can move |
| HashPipeline.MovesBounded | src/hash.c:2053-2106 | every interleaving comes to an end |
| BadBlockList.InsertMembers | src/badblocks.c:95-139 | inserting keeps the list ascending and adds exactly the block |
| BadBlockList.List.Add | src/badblocks.c:95-139 | appending, scanning and shifting in a growing array is insertion |
| BadBlockList.List.Find | src/badblocks.c:150-179 | bisection behind a look at both ends finds exactly the members |
| TestPattern.PatternFill | src/badblocks.c:329-361 | each block of the buffer gets its part of the repeated pattern |
| TestPattern.OneByteFill | src/badblocks.c:341-360 | a pattern of one byte fills all blocks alike |
| TestPattern.ThreeByteFill | src/rufus.h:111-112 | a pattern of three bytes fills two blocks alike exactly when they are a multiple of three apart |
| Passes.OneByteNeverDiffers | src/badblocks.c:546-556 | with a pattern of one byte no block that a trusty medium took is reported as corrupt |
| Passes.ThreeBytesDecide | src/badblocks.c:546-556 | with one of three bytes such a block is reported exactly if its slots in the two calls are no multiple of three apart |
| Passes.TracksDecide | src/badblocks.c:465-560 | on a trusty medium, whatever calls fail, a report of corruption is decided by the slot a block was written from and the one it was compared with |
| Passes.WriteTrackStep | src/badblocks.c:488-503 | a call that fails, and may spoil what it was for, leaves what earlier calls wrote |
| Passes.JudgeStep | src/badblocks.c:530-556 | each read adds to the reports of corruption exactly its disagreements with blocks not reported before |
| TestPattern.StampTells | src/badblocks.c:479-487 | stamped blocks are equal exactly when their numbers are |
| BadBlocks.Checker.Report | src/badblocks.c:254-287 | the list gains the block, and its length is the sum of the three counters |
| BadBlocks.Checker.WritePass | src/badblocks.c:465-504 | for any device, a pass that is not given up ends, with every block written or reported, and the threshold passed by less than a group |
| BadBlocks.Checker.ReadPass | src/badblocks.c:506-560 | for any device, every block is compared, reported, or among those of a read that was cut short; reported as corrupt are exactly the blocks not reported before that a whole read disagreed about |
| Passes.NothingPassed | src/badblocks.c:530-545 | with reads that get all or nothing, no block is passed over |
| Passes.MismatchOverwritten | src/badblocks.c:546-556 | without errors only a block whose cell a later block overwrote reads back wrong |
| Passes.OverwrittenMismatch | src/badblocks.c:479-487 | and with stamps every such block does |
| BadBlocks.RunPass | src/badblocks.c:421-562 | for any device every new report is of corruption or of a block that failed alone; on a trusty one the slots decide which blocks are corrupt, and none is with a pattern of one byte |
| BadBlocks.TestRw | src/badblocks.c:407-567 | if it looks for fakes, fake media without errors have exactly their overwritten blocks reported unless the test is given up; genuine media have none; a medium that keeps what it is given has no corruption reported with patterns of one byte, whatever fails, and if group writes alone fail, all its blocks off the first slot modulo three with the patterns of three bytes |
| BadBlocks.FalseReports | src/badblocks.c:488-556 | a device that fails a group and takes its blocks one by one gets two of three good blocks reported by the third pass for flash of three levels |
| BadBlocks.FalseReportsOfTest | src/format.c:1639 | so it does by the whole test for such flash as it is called, with four passes and fakes looked for |
| SectorWriter.Writer.Write | src/format.c:1092-1148 | the count is answered exactly for accepted bytes, but for one coincidence in which some are lost; with complete writes the disk gets whole sectors |
| SectorWriter.WriteImage | src/format.c:1298-1310 | with complete writes the disk begins with all the pieces, in whole sectors, with less than a sector behind them |
| SectorWriter.LossUnnoticed | src/format.c:1121-1123 | in the coincidence the answer is the count asked for, and as many bytes are missing as were waiting |
| SectorWriter.CoincidenceReached | src/format.c:1092-1148 | writes alone lead to the coincidence |
| SectorWriter.NoCoincidence | src/format.c:1121-1123 | it never occurs where every write takes whole sectors or fails |
| Fat32.LayoutFits | src/format_fat32.c:307-319 | nothing underflows, the reserved sectors fit 16 bits, and the data area begins on an aligned sector |
| Fat32.DataAligned | src/format_fat32.c:313-317 | in bytes, the data area begins on a whole megabyte of the volume |
| Fat32.FatsHoldAll | src/format_fat32.c:134-146 | each FAT has an entry for every cluster and the two reserved ones |
| Fat32.TooFew | src/format_fat32.c:376-391 | with sectors of 512 to 4096 bytes there are 65536 clusters exactly from a megabyte above their size on |
| Fat32.DefaultRefused | src/format_fat32.c:261-281 | with such sectors the default cluster size is refused to exactly the volumes in the first megabyte of a range below 8 GB |
| Fat32.ZeroByte | src/format_fat32.c:298-308 | a number of sectors per cluster whose low byte is zero makes the FATs larger than the volume |
| Fat32.SlipsNear | src/format_fat32.c:311-413 | such FATs are noticed by the checks or by a failing write, where the number of sectors is not close to 2^32 |
| Fat32.SlipsThere | src/format_fat32.c:311-413 | close to it they can pass all checks and writes |
| Fat32.RequestedHeld | src/rufus.c:505-518 | no cluster size that is offered, nor the default, has a low byte of zero |
| Fat32.Format | src/format_fat32.c:240-451 | for every volume and cluster size, which are refused and why; that the FATs hold all clusters and nothing wraps, and what every sector of the volume holds afterwards; with a low byte of zero, exactly when FATs that do not fit are not noticed |
| Partitions.StaysBehind | src/drive.c:2343-2347 | an offset taken up to a track and down to a cluster stays behind what is in front exactly when the next cluster is not behind the next track |
| Partitions.AlignedStays | src/drive.c:2343-2347 | it does behind a partition that ends on a cluster |
| Partitions.LargeClusterOverlap | src/drive.c:2343-2347 | with 32 MB clusters, which no caller asks for with a partition in front, it would not |
| Partitions.RequestedTidy | src/format.c:1478-1479 | with what callers ask for, it always does |
| Partitions.CreatePartition | src/drive.c:2314-2426 | every combination gives partitions from the main one on in order, all of them for what callers ask for, inside the disk and apart from GPT's backup, with little lost behind the main one; only small disks are refused |

## Left out

- Engine.Find: interval bounds and instruction counts are unbounded integers, so the overflow of long digit strings is not modelled.
- Engine.Find: a failing allocation, which the program answers with its own code, is not modelled.
- HashPipeline.StepKeeps: time-outs, read errors and the user's cancelling, which end the threads early, are not steps of the model.
- Hashing.HashContext.ShaWrite: the block functions of MD5, SHA-1 and SHA-512 are parameters, because they are further instances of what is proved for SHA-256; so are the x86 instructions for SHA-1 and SHA-256, taken to compute the portable functions.
- BadBlocks.TestRw: the buffer is an array of blocks rather than of bytes, and the random pattern that no table uses is not modelled.
- Partitions.CreatePartition: the program's assertions about room for a partition are refusals here; partition names, types and the calls that write the table are not modelled.
- Fat32.TooFew: sector sizes other than 512, 1024, 2048 and 4096 bytes, which drives do not have.
- Machine.Run: that nothing depends on the byte behind the string is proved; when exactly it is read is not stated.
- Fat32.Format: the contents of the boot sector and of the FS info sector, the volume's identifier and label; a write that fails leaves the volume as it was.
- SectorWriter.Writer.Write: the file offset of the handle is the length of what was written.
- The Windows, VDS and setup calls, dialogs, localization, device enumeration and scripts: input and output or user interface.
- PE images, certificates, revocation lists and the MD5 sum editing of ISO images.
- Boot records, NTFS and ext formatting, image extraction and the lookup tables.
