/** What the passes of badblocks.c write and read: the contents of blocks, what a medium's cells
    hold after calls to it, and what the log of the calls says about each block. */
module Passes {
  import opened Bytes
  import opened Media
  import opened TestPattern
  import Padding

  /** ~0 as a block number, for "nowhere to recover at". */
  const NOWHERE := 0xFFFF_FFFF_FFFF_FFFF

  const PB := 0x4_0000_0000_0000

  /** A test: block size, blocks at once, where stamps go, the range, when to give up (0 for
      never), whether to look for fakes, and when the user cancels. */
  datatype Test = Test(size: nat, atOnce: nat, offset: nat, first: nat, last: nat, maxBad: nat, detect: bool,
                       cancel: nat -> bool)

  predicate Sane(c: Test) {
    c.atOnce > 0 && c.offset + 8 <= c.size && c.first * c.size <= PB && c.last * c.size <= PB
  }

  lemma SmallNumbers(c: Test)
    requires Sane(c)
    ensures c.last < NOWHERE && c.first < NOWHERE
  {
    AtLeast(c.last, c.size);
    AtLeast(c.first, c.size);
  }

  lemma AtLeast(a: nat, n: nat)
    requires n > 0
    ensures a <= a * n
  {
    assert a * n == a + a * (n - 1);
  }

  /** What a pass writes to block b from slot k of the buffer. */
  function Content(c: Test, pattern: nat, stamped: bool, b: nat, k: nat): (r: seq<byte>)
    requires Sane(c)
  {
    if stamped then Stamp(SlotFill(pattern, c.size, k), c.offset, b) else SlotFill(pattern, c.size, k)
  }

  /** The slot from which an undisturbed pass writes block b. */
  function Slot(c: Test, b: nat): (r: nat)
    requires Sane(c) && c.first <= b
  {
    (b - c.first) % c.atOnce
  }

  /** The cells after an undisturbed pass has written all blocks below upto. */
  function Written(c: Test, m: Medium, pattern: nat, stamped: bool, cells: Cells, upto: nat): (r: Cells)
    requires Sane(c)
  {
    if upto <= c.first then cells
    else
      var b := upto - 1;
      Written(c, m, pattern, stamped, cells, b)[m.cellOf(b) := Content(c, pattern, stamped, b, Slot(c, b))]
  }

  lemma SlotInGroup(c: Test, at: nat, k: nat)
    requires Sane(c) && c.first <= at && Slot(c, at) == 0 && k < c.atOnce
    ensures Slot(c, at + k) == k
  {
    Padding.Remainder(at - c.first + k, c.atOnce, (at - c.first) / c.atOnce, k);
  }

  lemma NextGroup(c: Test, at: nat)
    requires Sane(c) && c.first <= at && Slot(c, at) == 0
    ensures Slot(c, at + c.atOnce) == 0
  {
    Padding.Whole(at - c.first, 1, c.atOnce);
  }

  /** Writing a group from the start of the buffer is the pass's next part. */
  lemma {:induction false} GroupWritten(c: Test, m: Medium, pattern: nat, stamped: bool, cells: Cells, at: nat,
                                        data: seq<seq<byte>>)
    requires Sane(c) && c.first <= at && Slot(c, at) == 0 && |data| <= c.atOnce
    requires forall k :: 0 <= k < |data| ==> data[k] == Content(c, pattern, stamped, at + k, k)
    ensures Stored(m, Written(c, m, pattern, stamped, cells, at), at, data)
         == Written(c, m, pattern, stamped, cells, at + |data|)
  {
    hide Content, Slot;
    if data != [] {
      var n := |data| - 1;
      GroupWritten(c, m, pattern, stamped, cells, at, data[..n]);
      SlotInGroup(c, at, n);
    }
  }

  lemma GroupEnds(c: Test, at: nat, n: nat)
    requires Sane(c) && c.first <= at && at + n <= c.last
    ensures Slot(c, at) == 0 && n == c.atOnce ==> Slot(c, at + n) == 0
    ensures at + n < NOWHERE
  {
    if Slot(c, at) == 0 { NextGroup(c, at); }
    SmallNumbers(c);
  }

  /** A later block of the range leads to the same cell. */
  ghost predicate Overwritten(c: Test, m: Medium, b: nat) {
    exists x: nat :: b < x < c.last && m.cellOf(x) == m.cellOf(b)
  }

  /** What a cell holds after a pass is what the last block leading to it was given. */
  lemma {:induction false} LastWins(c: Test, m: Medium, pattern: nat, stamped: bool, cells: Cells, upto: nat, b: nat)
    returns (x: nat)
    requires Sane(c) && c.first <= b < upto
    ensures b <= x < upto && m.cellOf(x) == m.cellOf(b)
    ensures forall y :: x < y < upto ==> m.cellOf(y) != m.cellOf(b)
    ensures Holds(Written(c, m, pattern, stamped, cells, upto), m.cellOf(b)) == Content(c, pattern, stamped, x, Slot(c, x))
  {
    hide Content, Slot;
    x := upto - 1;
    if m.cellOf(x) != m.cellOf(b) {
      x := LastWins(c, m, pattern, stamped, cells, x, b);
    }
  }

  /** After an undisturbed pass, block b does not read back as it was written. */
  predicate Mismatch(c: Test, m: Medium, pattern: nat, stamped: bool, cells: Cells, b: nat)
    requires Sane(c) && c.first <= b
  {
    Holds(Written(c, m, pattern, stamped, cells, c.last), m.cellOf(b)) != Content(c, pattern, stamped, b, Slot(c, b))
  }

  /** Only an overwritten block mismatches. */
  lemma MismatchOverwritten(c: Test, m: Medium, pattern: nat, stamped: bool, cells: Cells, b: nat)
    requires Sane(c) && c.first <= b < c.last && Mismatch(c, m, pattern, stamped, cells, b)
    ensures Overwritten(c, m, b)
  {
    hide Content, Slot;
    var x := LastWins(c, m, pattern, stamped, cells, c.last, b);
    assert x != b;
  }

  /** With stamps over a pattern of one byte, every overwritten block mismatches. */
  lemma OverwrittenMismatch(c: Test, m: Medium, pattern: nat, cells: Cells, b: nat)
    requires Sane(c) && c.first <= b < c.last && pattern < 256 && Overwritten(c, m, b)
    ensures Mismatch(c, m, pattern, true, cells, b)
  {
    hide Slot, SlotFill, Stamp;
    var x := LastWins(c, m, pattern, true, cells, c.last, b);
    var y: nat :| b < y < c.last && m.cellOf(y) == m.cellOf(b);
    assert x != b;
    OneByteFill(pattern, c.size, Slot(c, x), Slot(c, b));
    SmallNumbers(c);
    StampTells(SlotFill(pattern, c.size, Slot(c, b)), c.offset, x, b);
  }

  /** Some read since a moment got all it asked for, and found block b as it was written. */
  ghost predicate Compared(c: Test, m: Medium, cells: Cells, pattern: nat, stamped: bool, log: seq<Call>, from: nat, b: nat)
    requires Sane(c)
  {
    exists i: nat :: from <= i < |log| && Agrees(c, m, cells, pattern, stamped, log, i, b)
  }

  predicate Agrees(c: Test, m: Medium, cells: Cells, pattern: nat, stamped: bool, log: seq<Call>, i: nat, b: nat)
    requires Sane(c) && i < |log|
  {
    log[i].reading && log[i].got == log[i].n && log[i].start <= b < log[i].start + log[i].got &&
    Seen(m, cells, i, b) == Content(c, pattern, stamped, b, b - log[i].start)
  }

  /** Some read since a moment got some of what it asked for, and block b with it: such blocks
      are passed over. */
  ghost predicate PassedOver(m: Medium, log: seq<Call>, from: nat, b: nat) {
    exists i: nat :: from <= i < |log| && CutShort(m, log, i, b)
  }

  predicate CutShort(m: Medium, log: seq<Call>, i: nat, b: nat)
    requires i < |log|
  {
    log[i].reading && log[i].got == m.fetched(i, log[i].start, log[i].n) < log[i].n &&
    log[i].start <= b < log[i].start + log[i].got
  }

  /** Nothing is passed over where reads get all they ask for or nothing. */
  lemma NothingPassed(m: Medium, log: seq<Call>, from: nat, b: nat)
    requires forall t: nat, x: nat, n: nat :: m.fetched(t, x, n) == 0 || m.fetched(t, x, n) >= n
    ensures !PassedOver(m, log, from, b)
  {
  }

  /** What a read pass has done about block b, unless it is reported. */
  ghost predicate Examined(c: Test, m: Medium, cells: Cells, pattern: nat, stamped: bool, log: seq<Call>, from: nat, b: nat)
    requires Sane(c)
  {
    Compared(c, m, cells, pattern, stamped, log, from, b) || PassedOver(m, log, from, b)
  }

  lemma StillExamined(c: Test, m: Medium, cells: Cells, pattern: nat, stamped: bool, log: seq<Call>, more: seq<Call>,
                      from: nat, later: nat, b: nat)
    requires Sane(c) && log <= more && from <= later
    requires Examined(c, m, cells, pattern, stamped, log, later, b)
    ensures Examined(c, m, cells, pattern, stamped, more, from, b)
  {
    hide Content, Seen;
    if Compared(c, m, cells, pattern, stamped, log, later, b) {
      var i: nat :| later <= i < |log| && Agrees(c, m, cells, pattern, stamped, log, i, b);
      assert more[i] == log[i];
      assert Agrees(c, m, cells, pattern, stamped, more, i, b);
    } else {
      var i: nat :| later <= i < |log| && CutShort(m, log, i, b);
      assert more[i] == log[i];
      assert CutShort(m, more, i, b);
    }
  }

  /** Some call since a moment wrote block b. */
  ghost predicate Acknowledged(log: seq<Call>, from: nat, b: nat) {
    exists i: nat :: from <= i < |log| && !log[i].reading && log[i].start <= b < log[i].start + log[i].got
  }

  lemma StillAcknowledged(log: seq<Call>, more: seq<Call>, from: nat, b: nat)
    requires log <= more && Acknowledged(log, from, b)
    ensures Acknowledged(more, from, b)
  {
    var i: nat :| from <= i < |log| && !log[i].reading && log[i].start <= b < log[i].start + log[i].got;
    assert more[i] == log[i];
  }

  lemma LaterAcknowledged(log: seq<Call>, from: nat, later: nat, b: nat)
    requires from <= later && Acknowledged(log, later, b)
    ensures Acknowledged(log, from, b)
  {
  }

  lemma StartOfPass(c: Test, m: Medium, pattern: nat, stamped: bool, cells: Cells)
    requires Sane(c)
    ensures Slot(c, c.first) == 0 && Written(c, m, pattern, stamped, cells, c.first) == cells
    ensures c.last <= c.first ==> Written(c, m, pattern, stamped, cells, c.last) == cells
  {
  }

  // ---- Media that keep what they are given ----

  /** Different blocks of the range lead to different cells. */
  ghost predicate Genuine(c: Test, m: Medium) {
    forall a: nat, b: nat :: c.first <= a < b < c.last ==> m.cellOf(a) != m.cellOf(b)
  }

  /** And reads that go through give back the cells. Writes and reads may fail at any time. */
  ghost predicate Trusty(c: Test, m: Medium) {
    Genuine(c, m) && forall t: nat, b: nat :: m.noise(t, b).None?
  }

  lemma CellsApart(c: Test, m: Medium, a: nat, b: nat)
    requires Genuine(c, m) && c.first <= a < c.last && c.first <= b < c.last && a != b
    ensures m.cellOf(a) != m.cellOf(b)
  {
    if a < b { assert m.cellOf(a) != m.cellOf(b); } else { assert m.cellOf(b) != m.cellOf(a); }
  }

  /** A write leaves its blocks in their cells, and the cells of the others alone. */
  lemma {:induction false} StoredHolds(c: Test, m: Medium, cells: Cells, start: nat, data: seq<seq<byte>>, b: nat)
    requires Genuine(c, m) && c.first <= start && start + |data| <= c.last && c.first <= b < c.last
    ensures Holds(Stored(m, cells, start, data), m.cellOf(b)) ==
            if start <= b < start + |data| then data[b - start] else Holds(cells, m.cellOf(b))
    decreases |data|
  {
    if data != [] {
      var n := |data| - 1;
      StoredHolds(c, m, cells, start, data[..n], b);
      if b != start + n { CellsApart(c, m, b, start + n); }
    }
  }

  lemma {:induction false} SpoiltHolds(c: Test, m: Medium, cells: Cells, moment: nat, lo: nat, hi: nat, b: nat)
    requires Genuine(c, m) && c.first <= lo && hi <= c.last && c.first <= b < c.last && !(lo <= b < hi)
    ensures Holds(Spoilt(m, cells, moment, lo, hi), m.cellOf(b)) == Holds(cells, m.cellOf(b))
    decreases hi
  {
    if lo < hi {
      SpoiltHolds(c, m, cells, moment, lo, hi - 1, b);
      CellsApart(c, m, b, hi - 1);
    }
  }

  // ---- The calls of a write pass ----

  /** Call i wrote block b. */
  predicate Wrote(log: seq<Call>, i: nat, b: nat) {
    i < |log| && !log[i].reading && log[i].start <= b < log[i].start + log[i].got
  }

  /** Call i was for block b alone and failed. */
  predicate FailedAlone(log: seq<Call>, i: nat, b: nat) {
    i < |log| && log[i].start == b && log[i].n == 1 && log[i].got == 0
  }

  /** The medium's answers since a moment are what the log says. */
  ghost predicate Honest(m: Medium, log: seq<Call>, from: nat) {
    forall i :: from <= i < |log| ==>
      log[i].got == Least(if log[i].reading then m.fetched(i, log[i].start, log[i].n)
                          else m.written(i, log[i].start, log[i].n), log[i].n)
  }

  /** The slot of the buffer that call i had block b in. */
  function SlotAt(log: seq<Call>, i: nat, b: nat): (r: nat) {
    if i < |log| && log[i].start <= b then b - log[i].start else 0
  }

  /** The calls since a moment are writes of blocks below cur. */
  ghost predicate WritesBelow(log: seq<Call>, from: nat, first: nat, cur: nat) {
    from <= |log| && (forall i :: from <= i < |log| ==> !log[i].reading) &&
    forall i: nat, b: nat :: from <= i && Wrote(log, i, b) ==> first <= b < cur
  }

  /** Every new report is of a block that failed alone and was not written. */
  ghost predicate OnlyFailed(log: seq<Call>, bad: seq<nat>, was: seq<nat>, from: nat, cur: nat) {
    forall b: nat :: b in bad && b !in was ==> b < cur && ReportedAlone(log, from, b) && NotWritten(log, from, b)
  }

  /** The cells hold what each call wrote. */
  ghost predicate Holding(c: Test, m: Medium, pattern: nat, stamped: bool, log: seq<Call>, cells: Cells, from: nat)
    requires Sane(c)
  {
    forall i: nat, b: nat :: from <= i && Wrote(log, i, b) ==>
      Holds(cells, m.cellOf(b)) == Content(c, pattern, stamped, b, SlotAt(log, i, b))
  }

  /** Where a write pass stands. */
  ghost predicate WriteTrack(c: Test, m: Medium, pattern: nat, stamped: bool, log: seq<Call>, cells: Cells,
                             bad: seq<nat>, was: seq<nat>, from: nat, cur: nat)
    requires Sane(c)
  {
    WritesBelow(log, from, c.first, cur) && Honest(m, log, from) && OnlyFailed(log, bad, was, from, cur) &&
    (Trusty(c, m) ==> Holding(c, m, pattern, stamped, log, cells, from))
  }

  ghost predicate ReportedAlone(log: seq<Call>, from: nat, b: nat) {
    exists i: nat :: from <= i && FailedAlone(log, i, b)
  }

  ghost predicate NotWritten(log: seq<Call>, from: nat, b: nat) {
    forall i: nat :: from <= i ==> !Wrote(log, i, b)
  }

  lemma NewCall(log: seq<Call>, call: Call, i: nat, b: nat)
    ensures i < |log| ==> (Wrote(log + [call], i, b) <==> Wrote(log, i, b)) &&
                          (FailedAlone(log + [call], i, b) <==> FailedAlone(log, i, b)) &&
                          SlotAt(log + [call], i, b) == SlotAt(log, i, b)
    ensures i == |log| ==> (Wrote(log + [call], i, b) <==> !call.reading && call.start <= b < call.start + call.got) &&
                           (FailedAlone(log + [call], i, b) <==> call.start == b && call.n == 1 && call.got == 0) &&
                           (call.start <= b ==> SlotAt(log + [call], i, b) == b - call.start)
    ensures i > |log| ==> !Wrote(log + [call], i, b) && !FailedAlone(log + [call], i, b)
  {
  }

  /** One more write. */
  lemma WriteTrackStep(c: Test, m: Medium, pattern: nat, stamped: bool, log: seq<Call>, cells: Cells, bad: seq<nat>,
                       was: seq<nat>, from: nat, cur: nat, n: nat, data: seq<seq<byte>>, cells': Cells,
                       bad': seq<nat>, cur': nat)
    requires Sane(c) && WriteTrack(c, m, pattern, stamped, log, cells, bad, was, from, cur)
    requires c.first <= cur && cur + n <= c.last && |data| == Least(m.written(|log|, cur, n), n)
    requires forall k :: 0 <= k < |data| ==> data[k] == Content(c, pattern, stamped, cur + k, k)
    requires cells' == Spoilt(m, Stored(m, cells, cur, data), |log|, cur + |data|, cur + n)
    requires forall b :: b in bad' <==> b in bad || (b == cur && |data| == 0 && n == 1)
    requires cur' == cur + if |data| == 0 && n == 1 then 1 else |data|
    ensures WriteTrack(c, m, pattern, stamped, log + [Call(false, cur, n, |data|)], cells', bad', was, from, cur')
  {
    hide Content, Wrote, Stored, Spoilt, Trusty, Honest, Holding, WritesBelow, OnlyFailed, Holds;
    var call := Call(false, cur, n, |data|);
    HonestStep(m, log, from, call);
    BelowStep(log, call, from, c.first, cur, cur');
    FailedStep(log, call, bad, bad', was, from, c.first, cur, cur');
    if Trusty(c, m) { HoldingStep(c, m, pattern, stamped, log, cells, from, cur, n, data); }
  }

  lemma BelowStep(log: seq<Call>, call: Call, from: nat, first: nat, cur: nat, cur': nat)
    requires WritesBelow(log, from, first, cur) && first <= call.start && call.start + call.got <= cur' && cur <= cur'
    requires !call.reading
    ensures WritesBelow(log + [call], from, first, cur')
  {
    hide Wrote;
    forall i: nat, b: nat | from <= i && Wrote(log + [call], i, b) ensures first <= b < cur' { NewCall(log, call, i, b); }
  }

  lemma FailedStep(log: seq<Call>, call: Call, bad: seq<nat>, bad': seq<nat>, was: seq<nat>, from: nat, first: nat,
                   cur: nat, cur': nat)
    requires WritesBelow(log, from, first, cur) && OnlyFailed(log, bad, was, from, cur) && !call.reading && call.start == cur
    requires forall b :: b in bad' <==> b in bad || (b == cur && call.got == 0 && call.n == 1)
    requires cur <= cur' && (call.got == 0 && call.n == 1 ==> cur < cur')
    ensures OnlyFailed(log + [call], bad', was, from, cur')
  {
    hide Wrote, FailedAlone, WritesBelow, ReportedAlone, NotWritten;
    forall b: nat | b in bad' && b !in was
      ensures b < cur' && ReportedAlone(log + [call], from, b) && NotWritten(log + [call], from, b)
    {
      ReportStep(log, call, from, first, cur, b);
    }
  }

  lemma HoldingStep(c: Test, m: Medium, pattern: nat, stamped: bool, log: seq<Call>, cells: Cells, from: nat, cur: nat,
                    n: nat, data: seq<seq<byte>>)
    requires Sane(c) && Trusty(c, m) && WritesBelow(log, from, c.first, cur)
    requires Holding(c, m, pattern, stamped, log, cells, from)
    requires c.first <= cur && cur + n <= c.last && |data| <= n
    requires forall k :: 0 <= k < |data| ==> data[k] == Content(c, pattern, stamped, cur + k, k)
    ensures Holding(c, m, pattern, stamped, log + [Call(false, cur, n, |data|)],
                    Spoilt(m, Stored(m, cells, cur, data), |log|, cur + |data|, cur + n), from)
  {
    hide Content, Wrote, Stored, Spoilt, Holds, SlotAt, Genuine;
    var call, cells' := Call(false, cur, n, |data|), Spoilt(m, Stored(m, cells, cur, data), |log|, cur + |data|, cur + n);
    forall i: nat, b: nat | from <= i && Wrote(log + [call], i, b)
      ensures Holds(cells', m.cellOf(b)) == Content(c, pattern, stamped, b, SlotAt(log + [call], i, b))
    {
      NewCall(log, call, i, b);
      KeptCell(c, m, cells, |log|, cur, n, data, b);
      if i == |log| { assert data[b - cur] == Content(c, pattern, stamped, cur + (b - cur), b - cur); }
    }
  }

  lemma WriteTrackStart(c: Test, m: Medium, pattern: nat, stamped: bool, log: seq<Call>, cells: Cells, bad: seq<nat>)
    requires Sane(c)
    ensures WriteTrack(c, m, pattern, stamped, log, cells, bad, bad, |log|, c.first)
  {
  }

  lemma HonestStep(m: Medium, log: seq<Call>, from: nat, call: Call)
    requires Honest(m, log, from)
    requires call.got == Least(if call.reading then m.fetched(|log|, call.start, call.n)
                               else m.written(|log|, call.start, call.n), call.n)
    ensures Honest(m, log + [call], from)
  {
  }

  lemma ReportStep(log: seq<Call>, call: Call, from: nat, first: nat, cur: nat, b: nat)
    requires WritesBelow(log, from, first, cur) && call.start == cur && !call.reading
    requires (b < cur && ReportedAlone(log, from, b) && NotWritten(log, from, b)) || (b == cur && call.got == 0 && call.n == 1)
    ensures ReportedAlone(log + [call], from, b) && NotWritten(log + [call], from, b)
  {
    hide Wrote, FailedAlone;
    var log' := log + [call];
    if b < cur {
      var i: nat :| from <= i && FailedAlone(log, i, b);
      FailedInLog(log, i, b);
      NewCall(log, call, i, b);
      assert FailedAlone(log', i, b);
    } else {
      NewCall(log, call, |log|, b);
      assert FailedAlone(log', |log|, b);
    }
    forall i: nat | from <= i ensures !Wrote(log', i, b) { NewCall(log, call, i, b); }
  }

  lemma FailedInLog(log: seq<Call>, i: nat, b: nat)
    ensures FailedAlone(log, i, b) ==> i < |log|
  {
  }

  /** A call that may fail for some of its blocks leaves those it writes in their cells, and the
      cells of the blocks before it alone. */
  lemma KeptCell(c: Test, m: Medium, cells: Cells, moment: nat, start: nat, n: nat, data: seq<seq<byte>>, b: nat)
    requires Genuine(c, m) && c.first <= start && start + n <= c.last && |data| <= n && c.first <= b < start + |data|
    ensures Holds(Spoilt(m, Stored(m, cells, start, data), moment, start + |data|, start + n), m.cellOf(b)) ==
            if start <= b then data[b - start] else Holds(cells, m.cellOf(b))
  {
    hide Holds, Stored, Spoilt, Genuine;
    SpoiltHolds(c, m, Stored(m, cells, start, data), moment, start + |data|, start + n, b);
    StoredHolds(c, m, cells, start, data, b);
  }

  // ---- The calls of a read pass ----

  /** Call i read all it asked for, and block b with it. */
  predicate ReadWhole(log: seq<Call>, i: nat, b: nat) {
    i < |log| && log[i].reading && log[i].got == log[i].n && log[i].start <= b < log[i].start + log[i].got
  }

  /** And found something else than what the buffer had for the block. */
  predicate Disagrees(c: Test, m: Medium, cells: Cells, pattern: nat, stamped: bool, log: seq<Call>, i: nat, b: nat)
    requires Sane(c)
  {
    ReadWhole(log, i, b) && Seen(m, cells, i, b) != Content(c, pattern, stamped, b, SlotAt(log, i, b))
  }

  ghost predicate Disagreed(c: Test, m: Medium, cells: Cells, pattern: nat, stamped: bool, log: seq<Call>, from: nat, b: nat)
    requires Sane(c)
  {
    exists i: nat :: from <= i && Disagrees(c, m, cells, pattern, stamped, log, i, b)
  }

  /** Only disagreements with blocks that were not reported before are reported as corruption. */
  ghost predicate Justified(c: Test, m: Medium, cells: Cells, pattern: nat, stamped: bool, log: seq<Call>, from: nat,
                            corrupt: set<nat>, was: seq<nat>, before: set<nat>)
    requires Sane(c)
  {
    forall b: nat :: b in corrupt ==> b in before || (b !in was && Disagreed(c, m, cells, pattern, stamped, log, from, b))
  }

  /** And all of these are. */
  ghost predicate Complete(c: Test, m: Medium, cells: Cells, pattern: nat, stamped: bool, log: seq<Call>, from: nat,
                           corrupt: set<nat>, was: seq<nat>)
    requires Sane(c)
  {
    forall b: nat :: b !in was && Disagreed(c, m, cells, pattern, stamped, log, from, b) ==> b in corrupt
  }

  /** Where the calls of a read pass stand: one after the other, below cur. */
  ghost predicate ReadTrack(c: Test, m: Medium, log: seq<Call>, bad: seq<nat>, was: seq<nat>, from: nat, cur: nat) {
    from <= |log| && Honest(m, log, from) &&
    (forall i :: from <= i < |log| ==> log[i].reading && c.first <= log[i].start && log[i].start + log[i].got <= cur) &&
    (forall i, j :: from <= i < j < |log| ==> log[i].start + log[i].got <= log[j].start) &&
    (forall b: nat :: b in bad && b !in was ==> b < cur)
  }

  lemma ReadTrackStart(c: Test, m: Medium, cells: Cells, pattern: nat, stamped: bool, log: seq<Call>, bad: seq<nat>,
                       corrupt: set<nat>)
    requires Sane(c)
    ensures Judged(c, m, cells, pattern, stamped, log, bad, corrupt, bad, |log|, corrupt, c.first, true)
  {
  }

  /** The first call of a read pass is for a group at the start of the range. */
  predicate FirstRead(c: Test, log: seq<Call>, from: nat) {
    from < |log| && log[from].reading && log[from].start == c.first && log[from].n == if c.first + c.atOnce <= c.last then c.atOnce else c.last - c.first
  }

  lemma ReadTrackStep(c: Test, m: Medium, log: seq<Call>, bad: seq<nat>, was: seq<nat>, from: nat, cur: nat,
                      n: nat, got: nat, bad': seq<nat>, cur': nat)
    requires ReadTrack(c, m, log, bad, was, from, cur) && c.first <= cur && got == Least(m.fetched(|log|, cur, n), n)
    requires cur + got <= cur' && forall b :: b in bad' ==> b in bad || b < cur'
    ensures ReadTrack(c, m, log + [Call(true, cur, n, got)], bad', was, from, cur')
  {
    hide Honest;
    HonestStep(m, log, from, Call(true, cur, n, got));
  }

  lemma ReadTrackBad(c: Test, m: Medium, log: seq<Call>, bad: seq<nat>, was: seq<nat>, from: nat, cur: nat)
    requires ReadTrack(c, m, log, bad, was, from, cur)
    ensures from <= |log| && forall b :: b in bad && b !in was ==> b < cur
  {
  }

  /** A block is read whole once in a pass. */
  lemma ReadOnce(c: Test, m: Medium, log: seq<Call>, bad: seq<nat>, was: seq<nat>, from: nat, cur: nat, i: nat, j: nat, b: nat)
    requires ReadTrack(c, m, log, bad, was, from, cur) && from <= i && from <= j
    requires ReadWhole(log, i, b) && ReadWhole(log, j, b)
    ensures i == j
  {
  }

  lemma DisagreesThen(c: Test, m: Medium, cells: Cells, pattern: nat, stamped: bool, log: seq<Call>, call: Call, i: nat, b: nat)
    requires Sane(c)
    ensures i < |log| ==> (Disagrees(c, m, cells, pattern, stamped, log + [call], i, b) <==>
                           Disagrees(c, m, cells, pattern, stamped, log, i, b))
    ensures i > |log| ==> !Disagrees(c, m, cells, pattern, stamped, log + [call], i, b)
  {
    hide Content, Seen;
  }

  /** A new call may add a disagreement of its own. */
  lemma DisagreedStep(c: Test, m: Medium, cells: Cells, pattern: nat, stamped: bool, log: seq<Call>, call: Call,
                      from: nat, b: nat)
    requires Sane(c) && from <= |log|
    ensures Disagreed(c, m, cells, pattern, stamped, log + [call], from, b) <==>
            Disagreed(c, m, cells, pattern, stamped, log, from, b) ||
            Disagrees(c, m, cells, pattern, stamped, log + [call], |log|, b)
  {
    hide Disagrees;
    if Disagreed(c, m, cells, pattern, stamped, log + [call], from, b) {
      var i: nat :| from <= i && Disagrees(c, m, cells, pattern, stamped, log + [call], i, b);
      DisagreesThen(c, m, cells, pattern, stamped, log, call, i, b);
    }
    if Disagreed(c, m, cells, pattern, stamped, log, from, b) {
      var i: nat :| from <= i && Disagrees(c, m, cells, pattern, stamped, log, i, b);
      DisagreesIn(c, m, cells, pattern, stamped, log, i, b);
      DisagreesThen(c, m, cells, pattern, stamped, log, call, i, b);
      assert Disagrees(c, m, cells, pattern, stamped, log + [call], i, b);
    }
  }

  /** One more read, and the reports after it. */
  lemma JudgeStep(c: Test, m: Medium, cells: Cells, pattern: nat, stamped: bool, log: seq<Call>, call: Call, from: nat,
                  bad: seq<nat>, corrupt: set<nat>, corrupt': set<nat>, was: seq<nat>, before: set<nat>)
    requires Sane(c) && corrupt <= corrupt'
    requires forall b :: b in corrupt' ==>
               (b in corrupt || (b !in bad && Disagrees(c, m, cells, pattern, stamped, log + [call], |log|, b)))
    ensures from <= |log| && (forall b :: b in was ==> b in bad) &&
            Justified(c, m, cells, pattern, stamped, log, from, corrupt, was, before) ==>
      Justified(c, m, cells, pattern, stamped, log + [call], from, corrupt', was, before)
    ensures from <= |log| && (forall b :: b in bad && b !in was ==> b < call.start) &&
            Complete(c, m, cells, pattern, stamped, log, from, corrupt, was) &&
            (forall b :: b !in bad && Disagrees(c, m, cells, pattern, stamped, log + [call], |log|, b) ==> b in corrupt') ==>
      Complete(c, m, cells, pattern, stamped, log + [call], from, corrupt', was)
  {
    hide Disagrees, Disagreed;
    if from <= |log| {
      forall b: nat
        ensures Disagreed(c, m, cells, pattern, stamped, log + [call], from, b) <==>
                Disagreed(c, m, cells, pattern, stamped, log, from, b) ||
                Disagrees(c, m, cells, pattern, stamped, log + [call], |log|, b)
        ensures Disagrees(c, m, cells, pattern, stamped, log + [call], |log|, b) ==> b >= call.start
      {
        DisagreedStep(c, m, cells, pattern, stamped, log, call, from, b);
        DisagreesFrom(c, m, cells, pattern, stamped, log, call, b);
      }
    }
  }

  lemma DisagreesFrom(c: Test, m: Medium, cells: Cells, pattern: nat, stamped: bool, log: seq<Call>, call: Call, b: nat)
    requires Sane(c)
    ensures Disagrees(c, m, cells, pattern, stamped, log + [call], |log|, b) ==> b >= call.start
  {
    hide Content, Seen;
  }

  lemma DisagreesIn(c: Test, m: Medium, cells: Cells, pattern: nat, stamped: bool, log: seq<Call>, i: nat, b: nat)
    requires Sane(c) && Disagrees(c, m, cells, pattern, stamped, log, i, b)
    ensures i < |log| && ReadWhole(log, i, b)
    ensures Seen(m, cells, i, b) != Content(c, pattern, stamped, b, SlotAt(log, i, b))
  {
  }

  // ---- A whole pass on a trusty medium ----

  /** What a pass that wrote up to mid and read behind it says of a block. The block is reported
      as corrupt exactly if the slot it was written from and the slot it was compared with differ. */
  ghost predicate SlotsDecide(c: Test, pattern: nat, stamped: bool, log: seq<Call>, from: nat, corrupt: set<nat>, was: seq<nat>)
    requires Sane(c)
  {
    forall b: nat, w: nat, i: nat :: b !in was && from <= w && from <= i && Wrote(log, w, b) && ReadWhole(log, i, b) ==>
      (b in corrupt <==> Content(c, pattern, stamped, b, SlotAt(log, w, b)) != Content(c, pattern, stamped, b, SlotAt(log, i, b)))
  }

  /** New reports of corruption are of blocks that were written from one slot and compared with a
      slot of other content. */
  ghost predicate SlotsExplain(c: Test, pattern: nat, stamped: bool, log: seq<Call>, from: nat, corrupt: set<nat>,
                               before: set<nat>)
    requires Sane(c)
  {
    forall b: nat :: b in corrupt && b !in before ==> SlotsDiffer(c, pattern, stamped, log, from, b)
  }

  ghost predicate SlotsDiffer(c: Test, pattern: nat, stamped: bool, log: seq<Call>, from: nat, b: nat)
    requires Sane(c)
  {
    exists w: nat, i: nat :: from <= w && from <= i && Wrote(log, w, b) && ReadWhole(log, i, b) &&
      Content(c, pattern, stamped, b, SlotAt(log, w, b)) != Content(c, pattern, stamped, b, SlotAt(log, i, b))
  }

  /** Patterns of one byte leave no difference between slots. */
  lemma OneByteNeverDiffers(c: Test, pattern: nat, stamped: bool, log: seq<Call>, from: nat, corrupt: set<nat>, before: set<nat>)
    requires Sane(c) && pattern < 256 && SlotsExplain(c, pattern, stamped, log, from, corrupt, before)
    ensures corrupt <= before
  {
    hide SlotFill, Stamp;
    forall b | b in corrupt ensures b in before {
      if b !in before {
        var w: nat, i: nat :| from <= w && from <= i && Wrote(log, w, b) && ReadWhole(log, i, b) &&
          Content(c, pattern, stamped, b, SlotAt(log, w, b)) != Content(c, pattern, stamped, b, SlotAt(log, i, b));
        OneByteFill(pattern, c.size, SlotAt(log, w, b), SlotAt(log, i, b));
      }
    }
  }

  lemma NothingNew(c: Test, pattern: nat, stamped: bool, log: seq<Call>, from: nat, corrupt: set<nat>)
    requires Sane(c)
    ensures SlotsExplain(c, pattern, stamped, log, from, corrupt, corrupt)
  {
  }

  /** Patterns of three bytes differ exactly between slots that are no multiple of three apart. */
  lemma ThreeBytesDecide(c: Test, pattern: nat, log: seq<Call>, from: nat, corrupt: set<nat>, was: seq<nat>)
    requires Sane(c) && c.size == 0x80000 && (pattern == 0x1c71c7 || pattern == 0xe38e38)
    requires SlotsDecide(c, pattern, false, log, from, corrupt, was)
    ensures forall b: nat, w: nat, i: nat ::
      b !in was && from <= w && from <= i && Wrote(log, w, b) && ReadWhole(log, i, b) ==>
      (b in corrupt <==> SlotAt(log, w, b) % 3 != SlotAt(log, i, b) % 3)
  {
    hide SlotFill;
    forall b: nat, w: nat, i: nat | b !in was && from <= w && from <= i && Wrote(log, w, b) && ReadWhole(log, i, b)
      ensures b in corrupt <==> SlotAt(log, w, b) % 3 != SlotAt(log, i, b) % 3
    {
      ThreeByteFill(pattern, SlotAt(log, w, b), SlotAt(log, i, b));
    }
  }

  /** From the two passes' tracks to what the slots say. */
  lemma TracksDecide(c: Test, m: Medium, pattern: nat, stamped: bool, from: nat, mid: nat, log1: seq<Call>, cells: Cells,
                     bad1: seq<nat>, was: seq<nat>, cur1: nat, log: seq<Call>, bad: seq<nat>, corrupt: set<nat>,
                     before: set<nat>, cur: nat)
    requires Sane(c) && Trusty(c, m) && mid == |log1| && log1 <= log && from <= mid
    requires WriteTrack(c, m, pattern, stamped, log1, cells, bad1, was, from, cur1)
    requires forall b :: c.first <= b < c.last ==> Acknowledged(log1, from, b) || b in bad1
    requires ReadTrack(c, m, log, bad, bad1, mid, cur) && (cur <= c.last || |log| == mid)
    requires Justified(c, m, cells, pattern, stamped, log, mid, corrupt, bad1, before)
    requires forall b :: b in before ==> b in was
    requires forall b :: b in was ==> b in bad1
    ensures SlotsExplain(c, pattern, stamped, log, from, corrupt, before)
    ensures Complete(c, m, cells, pattern, stamped, log, mid, corrupt, bad1) ==>
      SlotsDecide(c, pattern, stamped, log, from, corrupt, was)
  {
    hide Content, Wrote, ReadWhole, Seen, Trusty, Acknowledged, WriteTrack, ReadTrack;
    forall b | b in corrupt && b !in before ensures SlotsDiffer(c, pattern, stamped, log, from, b) {
      var i: nat :| mid <= i && Disagrees(c, m, cells, pattern, stamped, log, i, b);
      ReadInRange(c, m, log, bad, bad1, mid, cur, i, b);
      var w := WroteSome(log1, from, b);
      HeldAsWritten(c, m, pattern, stamped, from, mid, log1, cells, bad1, was, cur1, log, w, i, b);
      assert SlotsDiffer(c, pattern, stamped, log, from, b);
    }
    if Complete(c, m, cells, pattern, stamped, log, mid, corrupt, bad1) {
      forall b: nat, w: nat, i: nat | b !in was && from <= w && from <= i && Wrote(log, w, b) && ReadWhole(log, i, b)
        ensures b in corrupt <==>
                Content(c, pattern, stamped, b, SlotAt(log, w, b)) != Content(c, pattern, stamped, b, SlotAt(log, i, b))
      {
        WritesThenReads(c, m, pattern, stamped, from, mid, log1, cells, bad1, was, cur1, log, bad, cur, w, i, b);
        HeldAsWritten(c, m, pattern, stamped, from, mid, log1, cells, bad1, was, cur1, log, w, i, b);
        if b in corrupt {
          var j: nat :| mid <= j && Disagrees(c, m, cells, pattern, stamped, log, j, b);
          DisagreesIn(c, m, cells, pattern, stamped, log, j, b);
          ReadOnce(c, m, log, bad, bad1, mid, cur, i, j, b);
        } else {
          assert !Disagrees(c, m, cells, pattern, stamped, log, i, b);
        }
      }
    }
  }

  lemma WroteSome(log: seq<Call>, from: nat, b: nat) returns (w: nat)
    requires Acknowledged(log, from, b)
    ensures from <= w && Wrote(log, w, b)
  {
    w :| from <= w < |log| && !log[w].reading && log[w].start <= b < log[w].start + log[w].got;
  }

  lemma ReadInRange(c: Test, m: Medium, log: seq<Call>, bad: seq<nat>, was: seq<nat>, from: nat, cur: nat, i: nat, b: nat)
    requires ReadTrack(c, m, log, bad, was, from, cur) && from <= i && ReadWhole(log, i, b)
    ensures c.first <= b < cur && |log| > from
  {
  }

  /** Before mid there are writes alone, and behind it reads; what was written is not reported. */
  lemma WritesThenReads(c: Test, m: Medium, pattern: nat, stamped: bool, from: nat, mid: nat, log1: seq<Call>, cells: Cells,
                        bad1: seq<nat>, was: seq<nat>, cur1: nat, log: seq<Call>, bad: seq<nat>, cur: nat, w: nat, i: nat, b: nat)
    requires Sane(c) && mid == |log1| && log1 <= log && from <= mid && from <= w && from <= i
    requires WriteTrack(c, m, pattern, stamped, log1, cells, bad1, was, from, cur1)
    requires ReadTrack(c, m, log, bad, bad1, mid, cur) && Wrote(log, w, b) && ReadWhole(log, i, b) && b !in was
    ensures w < mid <= i && Wrote(log1, w, b) && b !in bad1
  {
    hide Content, Honest;
    assert w < mid && log1[w] == log[w];
    assert Wrote(log1, w, b);
  }

  /** What a read sees is what the call that wrote the block had in its slot. */
  lemma HeldAsWritten(c: Test, m: Medium, pattern: nat, stamped: bool, from: nat, mid: nat, log1: seq<Call>, cells: Cells,
                      bad1: seq<nat>, was: seq<nat>, cur1: nat, log: seq<Call>, w: nat, i: nat, b: nat)
    requires Sane(c) && Trusty(c, m) && mid == |log1| && log1 <= log && from <= w < mid && Wrote(log1, w, b)
    requires WriteTrack(c, m, pattern, stamped, log1, cells, bad1, was, from, cur1)
    ensures Wrote(log, w, b)
    ensures Seen(m, cells, i, b) == Content(c, pattern, stamped, b, SlotAt(log, w, b))
  {
    hide Content, Honest;
  }

  /** Every new report is of corruption or of a block that failed alone. */
  ghost predicate Explained(log: seq<Call>, bad: seq<nat>, was: seq<nat>, from: nat, corrupt: set<nat>) {
    forall b: nat :: b in bad && b !in was ==> b in corrupt || ReportedAlone(log, from, b)
  }

  lemma ExplainStep(log: seq<Call>, call: Call, bad: seq<nat>, bad': seq<nat>, was: seq<nat>, from: nat,
                    corrupt: set<nat>, corrupt': set<nat>)
    requires corrupt <= corrupt'
    requires forall b :: b in bad' ==> (b in bad || b in corrupt' || (b == call.start && call.n == 1 && call.got == 0))
    ensures from <= |log| && Explained(log, bad, was, from, corrupt) ==> Explained(log + [call], bad', was, from, corrupt')
  {
    hide FailedAlone;
    if from <= |log| {
      forall b: nat | ReportedAlone(log, from, b) ensures ReportedAlone(log + [call], from, b) {
        LongerAlone(log, log + [call], from, b);
      }
      NewCall(log, call, |log|, call.start);
    }
  }

  lemma LongerAlone(log: seq<Call>, more: seq<Call>, from: nat, b: nat)
    requires log <= more && ReportedAlone(log, from, b)
    ensures ReportedAlone(more, from, b)
  {
    var i: nat :| from <= i && FailedAlone(log, i, b);
    assert more[i] == log[i];
    assert FailedAlone(more, i, b);
  }

  /** What a write pass says on its own. */
  lemma WriteTold(c: Test, m: Medium, pattern: nat, stamped: bool, log: seq<Call>, cells: Cells, bad: seq<nat>,
                  was: seq<nat>, from: nat, cur: nat, corrupt: set<nat>)
    requires Sane(c) && WriteTrack(c, m, pattern, stamped, log, cells, bad, was, from, cur)
    requires cur <= c.last || |log| == from
    ensures Honest(m, log, from) && (Trusty(c, m) ==> Holding(c, m, pattern, stamped, log, cells, from))
    ensures Explained(log, bad, was, from, corrupt) && forall b :: b in bad ==> b in was || b < c.last
  {
    hide Honest, Holding;
    forall b: nat | b in bad && b !in was ensures b < c.last {
      var i: nat :| from <= i && FailedAlone(log, i, b);
    }
  }

  /** And with the read pass behind it. */
  lemma ReadTold(c: Test, m: Medium, pattern: nat, stamped: bool, log1: seq<Call>, log: seq<Call>, cells: Cells,
                 bad1: seq<nat>, bad: seq<nat>, was: seq<nat>, from: nat, cur1: nat, cur: nat, corrupt: set<nat>)
    requires Sane(c) && WriteTrack(c, m, pattern, stamped, log1, cells, bad1, was, from, cur1)
    requires cur1 <= c.last || |log1| == from
    requires log1 <= log && ReadTrack(c, m, log, bad, bad1, |log1|, cur) && (cur <= c.last || |log| == |log1|)
    requires Explained(log, bad, bad1, |log1|, corrupt) && (|log| == |log1| ==> bad == bad1)
    ensures Honest(m, log, from) && (Trusty(c, m) ==> Holding(c, m, pattern, stamped, log, cells, from))
    ensures Explained(log, bad, was, from, corrupt) && forall b :: b in bad ==> b in was || b < c.last
  {
    hide Content, Trusty;
    WriteTold(c, m, pattern, stamped, log1, cells, bad1, was, from, cur1, corrupt);
    forall i | from <= i < |log1| ensures log[i] == log1[i] {}
    forall b: nat | ReportedAlone(log1, from, b) ensures ReportedAlone(log, from, b) { LongerAlone(log1, log, from, b); }
    if Trusty(c, m) {
      forall i: nat, b: nat | from <= i && Wrote(log, i, b)
        ensures Holds(cells, m.cellOf(b)) == Content(c, pattern, stamped, b, SlotAt(log, i, b))
      {
        assert Wrote(log1, i, b) && SlotAt(log, i, b) == SlotAt(log1, i, b);
      }
    }
  }

  // ---- Devices that write single blocks alone ----

  /** Every read gets all it asks for. */
  ghost predicate FetchesAll(m: Medium) {
    forall t: nat, b: nat, n: nat :: m.fetched(t, b, n) >= n
  }

  lemma FetchedWhole(m: Medium, t: nat, b: nat, n: nat)
    ensures FetchesAll(m) ==> Least(m.fetched(t, b, n), n) == n
  {
  }

  /** A pass stands at the start of a group, or at the end of the range. */
  predicate AlignedAt(c: Test, cur: nat, tryout: nat)
    requires Sane(c)
  {
    c.first <= cur && (cur >= c.last || (Slot(c, cur) == 0 && (tryout == c.atOnce || cur + tryout == c.last)))
  }

  /** The reads since a moment start at groups and stay in them. */
  ghost predicate Aligned(c: Test, log: seq<Call>, from: nat)
    requires Sane(c)
  {
    forall i :: from <= i < |log| && log[i].reading ==>
      c.first <= log[i].start && Slot(c, log[i].start) == 0 && log[i].n <= c.atOnce
  }

  /** Where a read pass stands on a device whose reads get through. */
  ghost predicate OnGroups(c: Test, m: Medium, log: seq<Call>, from: nat, cur: nat, tryout: nat)
    requires Sane(c)
  {
    FetchesAll(m) ==> AlignedAt(c, cur, tryout) && Aligned(c, log, from)
  }

  lemma OnGroupsStart(c: Test, m: Medium, log: seq<Call>)
    requires Sane(c)
    ensures OnGroups(c, m, log, |log|, c.first, c.atOnce)
  {
  }

  lemma OnGroupsCut(c: Test, m: Medium, log: seq<Call>, from: nat, cur: nat, tryout: nat)
    requires Sane(c) && cur < c.last && OnGroups(c, m, log, from, cur, tryout)
    ensures OnGroups(c, m, log, from, cur, if cur + tryout > c.last then c.last - cur else tryout)
    ensures FetchesAll(m) ==> Aligned(c, log, from)
  {
    hide Slot, Aligned, FetchesAll;
  }

  lemma OnGroupsEnd(c: Test, m: Medium, log: seq<Call>, from: nat, cur: nat, tryout: nat)
    requires Sane(c) && OnGroups(c, m, log, from, cur, tryout)
    ensures FetchesAll(m) ==> Aligned(c, log, from)
  {
  }

  /** A read that gets through, and what is tried next. */
  lemma OnGroupsStep(c: Test, m: Medium, log: seq<Call>, from: nat, at: nat, n: nat, got: nat, cur: nat, next: nat)
    requires Sane(c) && OnGroups(c, m, log, from, at, n) && c.first <= at && at + n <= c.last && 0 < n <= c.atOnce
    requires got == Least(m.fetched(|log|, at, n), n)
    requires got == n ==> cur == at + n && (next == n || next == c.atOnce)
    ensures OnGroups(c, m, log + [Call(true, at, n, got)], from, cur, next)
  {
    hide Slot, FetchesAll;
    FetchedWhole(m, |log|, at, n);
    GroupEnds(c, at, n);
  }

  ghost predicate WholeSomewhere(log: seq<Call>, from: nat, b: nat) {
    exists i: nat :: from <= i && ReadWhole(log, i, b)
  }

  /** A block that a pass compared was read whole. */
  lemma ExaminedWhole(c: Test, m: Medium, cells: Cells, pattern: nat, stamped: bool, log: seq<Call>, from: nat, b: nat)
    requires Sane(c) && FetchesAll(m) && Examined(c, m, cells, pattern, stamped, log, from, b)
    ensures WholeSomewhere(log, from, b)
  {
    hide Content, Seen;
    if Compared(c, m, cells, pattern, stamped, log, from, b) {
      var i: nat :| from <= i < |log| && Agrees(c, m, cells, pattern, stamped, log, i, b);
      assert ReadWhole(log, i, b);
    }
  }

  /** What the reads of a pass say of the whole pass. */
  lemma ReadsTold(c: Test, m: Medium, pattern: nat, stamped: bool, log1: seq<Call>, log: seq<Call>, cells: Cells,
                  bad1: seq<nat>, was: seq<nat>, from: nat, cur1: nat)
    requires Sane(c) && FetchesAll(m) && log1 <= log && Aligned(c, log, |log1|)
    requires WriteTrack(c, m, pattern, stamped, log1, cells, bad1, was, from, cur1)
    ensures Aligned(c, log, from)
    ensures forall b: nat :: Examined(c, m, cells, pattern, stamped, log, |log1|, b) ==> WholeSomewhere(log, from, b)
  {
    hide Slot, Examined, WholeSomewhere, Honest, Holding, OnlyFailed;
    forall i | from <= i < |log| && log[i].reading
      ensures c.first <= log[i].start && Slot(c, log[i].start) == 0 && log[i].n <= c.atOnce
    {
    }
    forall b: nat | Examined(c, m, cells, pattern, stamped, log, |log1|, b) ensures WholeSomewhere(log, from, b) {
      ExaminedWhole(c, m, cells, pattern, stamped, log, |log1|, b);
      EarlierWhole(log, from, |log1|, b);
    }
  }

  lemma EarlierWhole(log: seq<Call>, from: nat, later: nat, b: nat)
    requires from <= later && WholeSomewhere(log, later, b)
    ensures WholeSomewhere(log, from, b)
  {
  }

  lemma NoReads(c: Test, m: Medium, pattern: nat, stamped: bool, log: seq<Call>, cells: Cells, bad: seq<nat>,
                was: seq<nat>, from: nat, cur: nat)
    requires Sane(c) && WriteTrack(c, m, pattern, stamped, log, cells, bad, was, from, cur)
    ensures Aligned(c, log, from)
  {
  }

  /** Writes get through for single blocks alone, reads always, and the medium keeps what it takes:
      blocks of 512 KB. */
  ghost predicate SinglesKept(c: Test, m: Medium) {
    Trusty(c, m) && FetchesAll(m) && c.size == 0x80000 &&
    forall t: nat, b: nat, n: nat :: m.written(t, b, n) == if n == 1 then 1 else 0
  }

  /** A block of the range whose slot does not have the fill of slot 0. */
  predicate OffSlot(c: Test, b: nat) {
    Sane(c) && c.first <= b < c.last && Slot(c, b) % 3 != 0
  }

  lemma SinglesAre(c: Test, m: Medium)
    requires SinglesKept(c, m)
    ensures Trusty(c, m) && FetchesAll(m) && c.size == 0x80000
  {
  }

  lemma NoneAlone(c: Test, m: Medium, log: seq<Call>, from: nat, b: nat)
    requires SinglesKept(c, m) && Honest(m, log, from)
    ensures !ReportedAlone(log, from, b)
  {
    hide Trusty;
  }

  /** Writes were from slot 0, and reads with the block's own slot. */
  lemma SinglesSlots(c: Test, m: Medium, log: seq<Call>, from: nat, w: nat, i: nat, b: nat)
    requires Sane(c) && SinglesKept(c, m) && Honest(m, log, from) && Aligned(c, log, from) && from <= w && from <= i
    requires Wrote(log, w, b) && ReadWhole(log, i, b)
    ensures SlotAt(log, w, b) == 0 && c.first <= b && SlotAt(log, i, b) == Slot(c, b)
  {
    hide Trusty, Slot;
    assert log[w].got == Least(m.written(w, log[w].start, log[w].n), log[w].n);
    SlotInGroup(c, log[i].start, b - log[i].start);
  }

  /** With patterns of one byte nothing new is reported. */
  lemma SinglesQuiet(c: Test, m: Medium, log: seq<Call>, bad: seq<nat>, was: seq<nat>, from: nat, corrupt: set<nat>,
                     before: set<nat>, b: nat)
    requires SinglesKept(c, m) && Honest(m, log, from) && Explained(log, bad, was, from, corrupt)
    requires corrupt == before && (forall x :: x in before ==> x in was) && b !in was
    ensures b !in bad
  {
    hide Honest, SinglesKept;
    NoneAlone(c, m, log, from, b);
  }

  /** With patterns of three bytes, the blocks off slot 0's fill are. */
  lemma SinglesPass(c: Test, m: Medium, pattern: nat, log: seq<Call>, bad: seq<nat>, was: seq<nat>, from: nat,
                    corrupt: set<nat>, before: set<nat>, b: nat)
    requires Sane(c) && SinglesKept(c, m) && Honest(m, log, from) && Explained(log, bad, was, from, corrupt)
    requires (pattern == 0x1c71c7 || pattern == 0xe38e38) && Aligned(c, log, from) && b !in was
    requires (forall x :: x in before ==> x in was) && (forall x :: x in corrupt ==> x in bad)
    requires SlotsExplain(c, pattern, false, log, from, corrupt, before)
    requires SlotsDecide(c, pattern, false, log, from, corrupt, was)
    requires c.first <= b < c.last ==> (Acknowledged(log, from, b) || b in bad) && (b in bad || WholeSomewhere(log, from, b))
    requires b in bad ==> b < c.last
    ensures b in bad <==> OffSlot(c, b)
  {
    hide SlotFill, Honest, SinglesKept, Acknowledged, WholeSomewhere, Slot, Wrote, ReadWhole, SlotAt, SlotsExplain, SlotsDecide;
    NoneAlone(c, m, log, from, b);
    if b in bad {
      var w, i := DifferingCalls(c, pattern, log, from, corrupt, before, b);
      SinglesSlots(c, m, log, from, w, i, b);
      SinglesAre(c, m);
      ThreeByteFill(pattern, SlotAt(log, w, b), SlotAt(log, i, b));
    } else if OffSlot(c, b) {
      var w := WroteSome(log, from, b);
      var i := WholeSome(log, from, b);
      SinglesSlots(c, m, log, from, w, i, b);
      SinglesAre(c, m);
      ThreeBytesDecide(c, pattern, log, from, corrupt, was);
    }
  }

  lemma WholeSome(log: seq<Call>, from: nat, b: nat) returns (i: nat)
    requires WholeSomewhere(log, from, b)
    ensures from <= i && ReadWhole(log, i, b)
  {
    i :| from <= i && ReadWhole(log, i, b);
  }

  lemma DifferingCalls(c: Test, pattern: nat, log: seq<Call>, from: nat, corrupt: set<nat>, before: set<nat>, b: nat)
    returns (w: nat, i: nat)
    requires Sane(c) && SlotsExplain(c, pattern, false, log, from, corrupt, before) && b in corrupt && b !in before
    ensures from <= w && from <= i && Wrote(log, w, b) && ReadWhole(log, i, b)
    ensures SlotFill(pattern, c.size, SlotAt(log, w, b)) != SlotFill(pattern, c.size, SlotAt(log, i, b))
  {
    hide SlotFill, Wrote, ReadWhole, SlotAt;
    w, i :| from <= w && from <= i && Wrote(log, w, b) && ReadWhole(log, i, b) &&
      Content(c, pattern, false, b, SlotAt(log, w, b)) != Content(c, pattern, false, b, SlotAt(log, i, b));
  }

  // ---- The reports of a read pass ----

  /** Where the reports of a read pass stand: nothing but disagreements with blocks not reported
      before the pass has been added as corrupt, and if the comparisons are done all of them. */
  ghost predicate Judged(c: Test, m: Medium, cells: Cells, pattern: nat, stamped: bool, log: seq<Call>, bad: seq<nat>,
                         corrupt: set<nat>, was: seq<nat>, from: nat, before: set<nat>, cur: nat, done: bool)
    requires Sane(c)
  {
    ReadTrack(c, m, log, bad, was, from, cur) && (forall b :: b in was ==> b in bad) &&
    Explained(log, bad, was, from, corrupt) && Justified(c, m, cells, pattern, stamped, log, from, corrupt, was, before) &&
    (done ==> Complete(c, m, cells, pattern, stamped, log, from, corrupt, was))
  }

  lemma JudgedSofar(c: Test, m: Medium, cells: Cells, pattern: nat, stamped: bool, log: seq<Call>, bad: seq<nat>,
                    corrupt: set<nat>, was: seq<nat>, from: nat, before: set<nat>, cur: nat)
    requires Sane(c) && Judged(c, m, cells, pattern, stamped, log, bad, corrupt, was, from, before, cur, true)
    ensures Judged(c, m, cells, pattern, stamped, log, bad, corrupt, was, from, before, cur, false)
  {
  }

  lemma JudgedIs(c: Test, m: Medium, cells: Cells, pattern: nat, stamped: bool, log: seq<Call>, bad: seq<nat>,
                 corrupt: set<nat>, was: seq<nat>, from: nat, before: set<nat>, cur: nat, done: bool)
    requires Sane(c) && Judged(c, m, cells, pattern, stamped, log, bad, corrupt, was, from, before, cur, done)
    ensures ReadTrack(c, m, log, bad, was, from, cur) && Explained(log, bad, was, from, corrupt)
    ensures Justified(c, m, cells, pattern, stamped, log, from, corrupt, was, before)
    ensures done ==> Complete(c, m, cells, pattern, stamped, log, from, corrupt, was)
  {
  }

  /** One more read. */
  lemma JudgedStep(c: Test, m: Medium, cells: Cells, pattern: nat, stamped: bool, log: seq<Call>, bad: seq<nat>,
                   corrupt: set<nat>, was: seq<nat>, from: nat, before: set<nat>, at: nat, n: nat, got: nat,
                   bad': seq<nat>, corrupt': set<nat>, cur: nat, done: bool)
    requires Sane(c) && Judged(c, m, cells, pattern, stamped, log, bad, corrupt, was, from, before, at, true)
    requires c.first <= at && got == Least(m.fetched(|log|, at, n), n) && at + got <= cur && corrupt <= corrupt'
    requires forall b :: b in bad ==> b in bad'
    requires forall b :: b in bad' ==> b in bad || (b < cur && (b in corrupt' || (b == at && n == 1 && got == 0)))
    requires forall b :: b in corrupt' ==>
      (b in corrupt || (b !in bad && Disagrees(c, m, cells, pattern, stamped, log + [Call(true, at, n, got)], |log|, b)))
    requires done ==> forall b ::
      (b !in bad && Disagrees(c, m, cells, pattern, stamped, log + [Call(true, at, n, got)], |log|, b)) ==> b in corrupt'
    ensures Judged(c, m, cells, pattern, stamped, log + [Call(true, at, n, got)], bad', corrupt', was, from, before, cur, done)
  {
    hide ReadTrack, Explained, Justified, Complete, Disagrees;
    var call := Call(true, at, n, got);
    ReadTrackStep(c, m, log, bad, was, from, at, n, got, bad', cur);
    ReadTrackBad(c, m, log, bad, was, from, at);
    JudgeStep(c, m, cells, pattern, stamped, log, call, from, bad, corrupt, corrupt', was, before);
    ExplainStep(log, call, bad, bad', was, from, corrupt, corrupt');
  }
}
