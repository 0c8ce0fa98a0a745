/** The destructive test of badblocks.c: write passes and read passes over a range of blocks, in
    groups that shrink to single blocks after an error and grow again behind it. */
module BadBlocks {
  import opened Bytes
  import opened Media
  import opened TestPattern
  import opened Passes
  import L = BadBlockList

  datatype Kind = ReadError | WriteError | Corruption

  class Checker {
    const c: Test
    const dev: Device
    const list: L.List
    const buffer: array<seq<byte>>
    var cur: nat
    var recover: nat
    var count: nat
    var readErrors: nat
    var writeErrors: nat
    var corruptions: nat
    /** The blocks reported as corrupt. */
    ghost var corrupt: set<nat>

    /** bb_count is the length of the list and the sum of the three counters. */
    ghost predicate Valid()
      reads this, list, list.list
    {
      Sane(c) && buffer.Length == c.atOnce && list.Valid() &&
      count == list.num == readErrors + writeErrors + corruptions && Tally()
    }

    /** The blocks reported as corrupt are in the list, and as many as are counted. */
    ghost predicate Tally()
      requires list.Valid()
      reads this`corruptions, this`corrupt, list, list.list
    {
      corruptions == |corrupt| && forall b :: b in corrupt ==> b in list.Contents()
    }

    ghost function Bad(): (r: seq<nat>)
      requires Valid()
      reads this, list, list.list
    {
      list.Contents()
    }

    constructor (c: Test, m: Medium)
      requires Sane(c)
      ensures Valid() && Bad() == [] && this.c == c && dev.m == m && dev.log == [] && recover == NOWHERE
      ensures readErrors == writeErrors == corruptions == 0 && corrupt == {}
      ensures fresh(dev) && fresh(list) && fresh(list.list) && fresh(buffer)
    {
      this.c := c;
      dev := new Device(m);
      list := new L.List(0);
      buffer := new seq<byte>[c.atOnce](_ => []);
      cur, recover, count, readErrors, writeErrors, corruptions := c.first, NOWHERE, 0, 0, 0, 0;
      corrupt := {};
    }

    /** bb_output, and adding its answer to bb_count. */
    method Report(bad: nat, kind: Kind)
      requires Valid()
      modifies this`count, this`readErrors, this`writeErrors, this`corruptions, this`corrupt, list, list.list
      ensures Valid() && (list.list == old(list.list) || fresh(list.list))
      ensures forall b :: b in Bad() <==> b in old(Bad()) || b == bad
      ensures count == old(count) + if bad in old(Bad()) then 0 else 1
      ensures kind != ReadError ==> readErrors == old(readErrors)
      ensures kind != WriteError ==> writeErrors == old(writeErrors)
      ensures kind != Corruption ==> corruptions == old(corruptions)
      ensures forall b :: b in corrupt <==> b in old(corrupt) || (kind == Corruption && b == bad && bad !in old(Bad()))
    {
      hide L.Insert, L.Ascending, Tally;
      ghost var s := Bad();
      L.InsertMembers(s, bad);
      Tallied();
      var at := list.Find(bad);
      if at >= 0 {
        L.Present(s, at);
        return;
      }
      list.Add(bad);
      Count(bad, kind);
    }

    lemma Tallied()
      requires list.Valid() && Tally()
      ensures corruptions == |corrupt| && forall b :: b in corrupt ==> b in list.Contents()
    {
    }

    /** The counters, for a block that is new in the list. */
    method Count(ghost bad: nat, kind: Kind)
      requires list.Valid() && bad in list.Contents() && bad !in corrupt
      requires corruptions == |corrupt| && forall b :: b in corrupt ==> b in list.Contents()
      modifies this`count, this`readErrors, this`writeErrors, this`corruptions, this`corrupt
      ensures list.Valid() && Tally() && count == old(count) + 1
      ensures readErrors == old(readErrors) + if kind == ReadError then 1 else 0
      ensures writeErrors == old(writeErrors) + if kind == WriteError then 1 else 0
      ensures corruptions == old(corruptions) + if kind == Corruption then 1 else 0
      ensures corrupt == old(corrupt) + if kind == Corruption then {bad} else {}
    {
      match kind {
        case ReadError => readErrors := readErrors + 1;
        case WriteError => writeErrors := writeErrors + 1;
        case Corruption =>
          corruptions := corruptions + 1;
          corrupt := corrupt + {bad};
      }
      count := count + 1;
    }

    /** The buffer holds the pattern, but for stamps if there are any. */
    ghost predicate Filled(pattern: nat, stamped: bool)
      requires Sane(c)
      reads buffer
    {
      buffer.Length == c.atOnce && forall k :: 0 <= k < c.atOnce ==> Slotted(pattern, stamped, k)
    }

    ghost predicate Slotted(pattern: nat, stamped: bool, k: nat)
      requires Sane(c) && k < buffer.Length
      reads buffer
    {
      |buffer[k]| == c.size &&
      if stamped then Stamp(buffer[k], c.offset, 0) == Stamp(SlotFill(pattern, c.size, k), c.offset, 0)
      else buffer[k] == SlotFill(pattern, c.size, k)
    }

    /** The block numbers from cur on into the buffer's blocks. */
    method PutStamps(pattern: nat)
      requires Sane(c) && Filled(pattern, true)
      modifies buffer
      ensures Filled(pattern, true)
      ensures forall k :: 0 <= k < c.atOnce ==> buffer[k] == Content(c, pattern, true, cur + k, k)
    {
      hide SlotFill, Stamp;
      for i := 0 to c.atOnce
        invariant forall k :: i <= k < c.atOnce ==> buffer[k] == old(buffer[k])
        invariant forall k :: 0 <= k < i ==> Slotted(pattern, true, k) && buffer[k] == Content(c, pattern, true, cur + k, k)
      {
        assert old(Slotted(pattern, true, i));
        StampAgain(buffer[i], SlotFill(pattern, c.size, i), c.offset, 0, cur + i);
        buffer[i] := Stamp(buffer[i], c.offset, cur + i);
      }
    }

    /** What every iteration of a pass does before its call: the buffer's blocks get the
        contents of the blocks from cur on. */
    method Prepare(pattern: nat, stamped: bool)
      requires Sane(c) && Filled(pattern, stamped)
      modifies buffer
      ensures Filled(pattern, stamped)
      ensures forall k :: 0 <= k < c.atOnce ==> buffer[k] == Content(c, pattern, stamped, cur + k, k)
    {
      hide SlotFill, Stamp;
      if stamped {
        PutStamps(pattern);
      } else {
        forall k | 0 <= k < c.atOnce ensures buffer[k] == Content(c, pattern, stamped, cur + k, k) {
          assert Slotted(pattern, false, k);
        }
      }
    }

    /** After a call: single blocks behind an error, whole groups again from recover on. */
    method Adjust(got: nat, tryout: nat) returns (next: nat)
      requires got <= tryout && got <= cur
      modifies this`recover
      ensures next == if got != tryout then 1 else if cur == old(recover) then c.atOnce else tryout
      ensures recover == if got != tryout then (if old(recover) == NOWHERE then cur - got + c.atOnce else old(recover))
                         else if cur == old(recover) then NOWHERE else old(recover)
    {
      next := tryout;
      if got != tryout {
        next := 1;
        if recover == NOWHERE {
          recover := cur - got + c.atOnce;
        }
      } else if cur == recover {
        next := c.atOnce;
        recover := NOWHERE;
      }
    }

    /** After a call: a single block that failed is reported, and cur moves on. */
    method Advance(got: nat, tryout: nat, kind: Kind) returns (next: nat)
      requires Valid() && got <= tryout && 0 < tryout <= c.atOnce && cur + tryout <= c.last
      modifies this, list, list.list
      ensures Valid() && (list.list == old(list.list) || fresh(list.list)) && count <= old(count) + 1
      ensures cur == old(cur) + if got == 0 && tryout == 1 then 1 else got
      ensures 0 < next <= c.atOnce && (cur == old(cur) ==> next < tryout)
      ensures forall b :: b in Bad() <==> b in old(Bad()) || (b == old(cur) && got == 0 && tryout == 1)
      ensures got == tryout ==> Bad() == old(Bad()) && count == old(count) && readErrors == old(readErrors)
      ensures kind != ReadError ==> readErrors == old(readErrors)
      ensures kind != WriteError ==> writeErrors == old(writeErrors)
      ensures kind != Corruption ==> corruptions == old(corruptions) && forall b :: b in corrupt <==> b in old(corrupt)
      ensures next == if got != tryout then 1 else if cur == old(recover) then c.atOnce else tryout
      ensures recover == if got != tryout then (if old(recover) == NOWHERE then cur - got + c.atOnce else old(recover))
                         else if cur == old(recover) then NOWHERE else old(recover)
    {
      hide L.Insert, L.Ascending, Tally;
      if got == 0 && tryout == 1 {
        Report(cur, kind);
        cur := cur + 1;
      }
      cur := cur + got;
      next := Adjust(got, tryout);
    }

    /** The state of a pass that no error has disturbed. */
    ghost predicate Smooth(pattern: nat, stamped: bool, tryout: nat, cells: Cells)
      requires Sane(c)
      reads this, dev
    {
      recover == NOWHERE && c.first <= cur && dev.cells == Written(c, dev.m, pattern, stamped, cells, cur) &&
      (cur >= c.last || (Slot(c, cur) == 0 && (tryout == c.atOnce || cur + tryout == c.last)))
    }

    /** Where a pass can be. */
    predicate InRange()
      reads this`cur
    {
      if c.first <= c.last then c.first <= cur <= c.last else cur == c.first
    }

    /** One write of a pass: to the group at cur, cut at the end of the range. */
    method WriteGroup(pattern: nat, stamped: bool, tryout: nat, ghost cells: Cells, ghost was: seq<nat>, ghost from: nat)
      returns (next: nat)
      requires Valid() && Filled(pattern, stamped) && c.first <= cur < c.last && 0 < tryout <= c.atOnce
      requires cur + tryout <= c.last
      modifies this, list, list.list, dev, buffer
      ensures Valid() && Filled(pattern, stamped) && (list.list == old(list.list) || fresh(list.list))
      ensures old(cur) <= cur <= c.last && 0 < next <= c.atOnce && (cur == old(cur) ==> next < tryout)
      ensures count <= old(count) + 1 && forall b :: b in old(Bad()) ==> b in Bad()
      ensures |dev.log| == |old(dev.log)| + 1 && old(dev.log) <= dev.log
      ensures readErrors == old(readErrors) && corruptions == old(corruptions) && corrupt == old(corrupt)
      ensures old(WriteTrack(c, dev.m, pattern, stamped, dev.log, dev.cells, Bad(), was, from, cur)) ==>
        WriteTrack(c, dev.m, pattern, stamped, dev.log, dev.cells, Bad(), was, from, cur)
      ensures forall b :: old(cur) <= b < cur ==> Acknowledged(dev.log, |old(dev.log)|, b) || b in Bad()
      ensures ErrorFree(dev.m) && old(Smooth(pattern, stamped, tryout, cells)) ==>
        Smooth(pattern, stamped, next, cells) && Bad() == old(Bad())
    {
      hide Content, Written, Slot, Stored, Spoilt, L.Insert, L.Ascending, Tally, Slotted, WriteTrack;
      ghost var at, moment, log, cells0, bad := cur, |dev.log|, dev.log, dev.cells, Bad();
      Prepare(pattern, stamped);
      var got := dev.Write(cur, buffer, tryout);
      GroupAcknowledged(at, tryout, got, moment);
      next := Advance(got, tryout, WriteError);
      if WriteTrack(c, dev.m, pattern, stamped, log, cells0, bad, was, from, at) {
        WriteTrackStep(c, dev.m, pattern, stamped, log, cells0, bad, was, from, at, tryout, buffer[..got], dev.cells, Bad(), cur);
      }
      NothingSpoilt(dev.m, Stored(dev.m, cells0, at, buffer[..got]), moment, at + got);
      if ErrorFree(dev.m) && old(Smooth(pattern, stamped, tryout, cells)) {
        GroupWritten(c, dev.m, pattern, stamped, cells, at, buffer[..got]);
        GroupEnds(c, at, tryout);
      }
    }

    lemma NothingSpoilt(m: Medium, cells: Cells, moment: nat, at: nat)
      ensures Spoilt(m, cells, moment, at, at) == cells
    {
    }

    lemma GroupAcknowledged(at: nat, n: nat, got: nat, moment: nat)
      requires |dev.log| == moment + 1 && dev.log[moment] == Call(false, at, n, got)
      ensures forall b :: at <= b < at + got ==> Acknowledged(dev.log, moment, b)
    {
      assert !dev.log[moment].reading;
    }

    /** The threshold, if there is one, is passed by less than a group. */
    predicate Bounded()
      reads this`count
    {
      c.maxBad == 0 || count <= c.maxBad - 1 + c.atOnce
    }

    /** Why a pass may be given up: the user, too many bad blocks, or a mismatch at the very end of
        the largest possible range, where an assertion of the program fails. */
    ghost predicate GaveUp()
      reads this`count
    {
      (exists t: nat :: c.cancel(t)) || (c.maxBad != 0 && count >= c.maxBad) || c.last * c.size >= PB
    }

    /** What was read for block b is not what the buffer has for it. */
    predicate Differs(at: nat, data: seq<seq<byte>>, b: nat)
      requires |data| <= buffer.Length
      reads buffer
    {
      at <= b < at + |data| && data[b - at] != buffer[b - at]
    }

    /** The comparison of what a read got, behind which cur already stands. */
    method CompareGroup(ghost at: nat, data: seq<seq<byte>>) returns (aborted: bool)
      requires Valid() && cur == at + |data| && |data| <= c.atOnce
      modifies this`count, this`readErrors, this`writeErrors, this`corruptions, this`corrupt, list, list.list
      ensures Valid() && (list.list == old(list.list) || fresh(list.list)) && count <= old(count) + |data|
      ensures aborted ==> cur * c.size >= PB
      ensures readErrors == old(readErrors) && writeErrors == old(writeErrors)
      ensures Compares(at, data, at + |data|, old(Bad()), old(corrupt), !aborted)
    {
      hide L.Insert, L.Ascending, Differs, Tally, Compares;
      ghost var was, before := Bad(), corrupt;
      var got := |data|;
      ComparesNone(at, data);
      for i := 0 to got
        invariant Valid() && (list.list == old(list.list) || fresh(list.list)) && count <= old(count) + i
        invariant readErrors == old(readErrors) && writeErrors == old(writeErrors)
        invariant Compares(at, data, at + i, was, before, true)
      {
        aborted := CompareOne(at, data, i, was, before);
        if aborted {
          ComparesPart(at, data, at + i + 1, at + got, was, before);
          return;
        }
      }
      aborted := false;
    }

    /** What a comparison up to a block has reported: blocks that differ alone, and if it is done
        all of them; as corrupt those that were not reported before. */
    ghost predicate Compares(at: nat, data: seq<seq<byte>>, upto: nat, was: seq<nat>, before: set<nat>, done: bool)
      requires Valid() && |data| <= buffer.Length
      reads this, list, list.list, buffer
    {
      (forall b :: b in was ==> b in Bad()) &&
      (forall b :: b in Bad() ==> b in was || Differs(at, data, b)) &&
      (forall b :: b in corrupt <==> b in before || (b in Bad() && b !in was)) &&
      (done ==> forall b: nat :: b < upto && Differs(at, data, b) ==> b in Bad())
    }

    lemma ComparesNone(at: nat, data: seq<seq<byte>>)
      requires Valid() && |data| <= buffer.Length
      ensures Compares(at, data, at, Bad(), corrupt, true)
    {
    }

    lemma ComparesPart(at: nat, data: seq<seq<byte>>, upto: nat, end: nat, was: seq<nat>, before: set<nat>)
      requires Valid() && |data| <= buffer.Length && Compares(at, data, upto, was, before, false)
      ensures Compares(at, data, end, was, before, false)
    {
    }

    /** The comparison of one block. */
    method CompareOne(ghost at: nat, data: seq<seq<byte>>, i: nat, ghost was: seq<nat>, ghost before: set<nat>)
      returns (aborted: bool)
      requires Valid() && cur == at + |data| && i < |data| <= c.atOnce && Compares(at, data, at + i, was, before, true)
      modifies this`count, this`readErrors, this`writeErrors, this`corruptions, this`corrupt, list, list.list
      ensures Valid() && (list.list == old(list.list) || fresh(list.list)) && count <= old(count) + 1
      ensures aborted ==> cur * c.size >= PB
      ensures readErrors == old(readErrors) && writeErrors == old(writeErrors)
      ensures Compares(at, data, at + i + 1, was, before, !aborted)
    {
      hide L.Insert, L.Ascending, Differs, Tally;
      DiffersAt(at, data, i);
      if data[i] != buffer[i] {
        if cur * c.size >= PB {
          return true;
        }
        Report(cur + i - |data|, Corruption);
      }
      aborted := false;
    }

    lemma DiffersAt(at: nat, data: seq<seq<byte>>, k: nat)
      requires k < |data| <= buffer.Length
      ensures Differs(at, data, at + k) <==> data[k] != buffer[k]
    {
    }

    /** A write pass. */
    method WritePass(pattern: nat, stamped: bool) returns (aborted: bool)
      requires Valid() && Filled(pattern, stamped) && Bounded()
      modifies this, list, list.list, dev, buffer
      ensures Valid() && Filled(pattern, stamped) && Bounded() && (list.list == old(list.list) || fresh(list.list))
      ensures forall b :: b in old(Bad()) ==> b in Bad()
      ensures aborted ==> GaveUp()
      ensures readErrors == old(readErrors) && corruptions == old(corruptions) && corrupt == old(corrupt)
      ensures old(dev.log) <= dev.log && (cur <= c.last || |dev.log| == |old(dev.log)|)
      ensures WriteTrack(c, dev.m, pattern, stamped, dev.log, dev.cells, Bad(), old(Bad()), |old(dev.log)|, cur)
      ensures !aborted ==>
        forall b :: c.first <= b < c.last ==> Acknowledged(dev.log, |old(dev.log)|, b) || b in Bad()
      ensures ErrorFree(dev.m) && old(recover) == NOWHERE ==>
        recover == NOWHERE && Bad() == old(Bad()) &&
        (!aborted ==> dev.cells == Written(c, dev.m, pattern, stamped, old(dev.cells), c.last))
    {
      hide Content, Slot, Stored, L.Insert, L.Ascending, Tally, ErrorFree, Written, Acknowledged, Slotted, WriteTrack;
      ghost var moment, cells, was := |dev.log|, dev.cells, Bad();
      cur := c.first;
      var tryout := c.atOnce;
      WriteTrackStart(c, dev.m, pattern, stamped, dev.log, dev.cells, was);
      StartOfPass(c, dev.m, pattern, stamped, cells);
      while cur < c.last
        invariant Valid() && Filled(pattern, stamped) && Bounded() && (list.list == old(list.list) || fresh(list.list))
        invariant 0 < tryout <= c.atOnce && InRange() && moment <= |dev.log| && old(dev.log) <= dev.log
        invariant forall b :: b in was ==> b in Bad()
        invariant readErrors == old(readErrors) && corruptions == old(corruptions) && corrupt == old(corrupt)
        invariant WriteTrack(c, dev.m, pattern, stamped, dev.log, dev.cells, Bad(), was, moment, cur)
        invariant cur <= c.last || |dev.log| == moment
        invariant forall b :: c.first <= b < cur ==> Acknowledged(dev.log, moment, b) || b in Bad()
        invariant ErrorFree(dev.m) && old(recover) == NOWHERE ==> Smooth(pattern, stamped, tryout, cells) && Bad() == was
        decreases c.last - cur, tryout
      {
        if c.cancel(|dev.log|) {
          return true;
        }
        if c.maxBad != 0 && count >= c.maxBad {
          return true;
        }
        if cur + tryout > c.last {
          tryout := c.last - cur;
        }
        ghost var log := dev.log;
        tryout := WriteGroup(pattern, stamped, tryout, cells, was, moment);
        forall b | Acknowledged(log, moment, b) ensures Acknowledged(dev.log, moment, b) {
          StillAcknowledged(log, dev.log, moment, b);
        }
        forall b | Acknowledged(dev.log, |log|, b) ensures Acknowledged(dev.log, moment, b) {
          LaterAcknowledged(dev.log, moment, |log|, b);
        }
      }
      aborted := false;
    }

    /** Everything reported since the list was was a mismatch. */
    ghost predicate OnlyMismatches(pattern: nat, stamped: bool, cells: Cells, was: seq<nat>)
      requires Valid()
      reads this, list, list.list
    {
      forall b :: b in Bad() && b !in was ==> c.first <= b < c.last && Mismatch(c, dev.m, pattern, stamped, cells, b)
    }

    /** The state of a read pass that no error has disturbed: exactly the mismatches below cur
        have been added to the list. */
    ghost predicate SmoothRead(pattern: nat, stamped: bool, tryout: nat, cells: Cells, was: seq<nat>)
      requires Valid()
      reads this, list, list.list, dev
    {
      recover == NOWHERE && c.first <= cur && dev.cells == Written(c, dev.m, pattern, stamped, cells, c.last) &&
      (cur >= c.last || (Slot(c, cur) == 0 && (tryout == c.atOnce || cur + tryout == c.last))) &&
      OnlyMismatches(pattern, stamped, cells, was) &&
      forall b :: c.first <= b < cur && Mismatch(c, dev.m, pattern, stamped, cells, b) ==> b in Bad()
    }

    /** One read of a pass, and the comparison of its blocks if all of them were read. */
    method ReadGroup(pattern: nat, stamped: bool, tryout: nat, ghost cells: Cells, ghost was: seq<nat>, ghost from: nat,
                     ghost before: set<nat>)
      returns (aborted: bool, next: nat)
      requires Valid() && Filled(pattern, stamped) && c.first <= cur < c.last && 0 < tryout <= c.atOnce
      requires cur + tryout <= c.last
      modifies this, list, list.list, dev`log, buffer
      ensures Valid() && Filled(pattern, stamped) && (list.list == old(list.list) || fresh(list.list))
      ensures old(cur) <= cur <= c.last && 0 < next <= c.atOnce && (cur == old(cur) ==> next < tryout)
      ensures count <= old(count) + c.atOnce && forall b :: b in old(Bad()) ==> b in Bad()
      ensures |dev.log| == |old(dev.log)| + 1 && old(dev.log) <= dev.log
      ensures dev.log[|old(dev.log)|].reading && dev.log[|old(dev.log)|].start == old(cur) && dev.log[|old(dev.log)|].n == tryout
      ensures old(Judged(c, dev.m, dev.cells, pattern, stamped, dev.log, Bad(), corrupt, was, from, before, cur, true)) ==>
        Judged(c, dev.m, dev.cells, pattern, stamped, dev.log, Bad(), corrupt, was, from, before, cur, !aborted)
      ensures old(OnGroups(c, dev.m, dev.log, from, cur, tryout)) ==> OnGroups(c, dev.m, dev.log, from, cur, next)
      ensures aborted ==> cur * c.size >= PB
      ensures writeErrors == old(writeErrors) && old(corrupt) <= corrupt
      ensures !aborted ==> forall b :: old(cur) <= b < cur ==>
        b in Bad() || Examined(c, dev.m, dev.cells, pattern, stamped, dev.log, |old(dev.log)|, b)
      ensures ErrorFree(dev.m) && old(SmoothRead(pattern, stamped, tryout, cells, was)) ==>
        OnlyMismatches(pattern, stamped, cells, was) && readErrors == old(readErrors) &&
        (!aborted ==> SmoothRead(pattern, stamped, next, cells, was))
    {
      hide Content, Written, Slot, Stored, L.Insert, L.Ascending, Tally, Slotted, Seen, Mismatch, Examined, Differs;
      hide Disagrees, OnGroups, Judged;
      ghost var at, moment, log, bad, corrupt0 := cur, |dev.log|, dev.log, Bad(), corrupt;
      Prepare(pattern, stamped);
      var got, data := dev.Read(cur, tryout);
      assert dev.log[moment] == Call(true, at, tryout, got);
      aborted := false;
      next := Advance(got, tryout, ReadError);
      if got == tryout {
        aborted := WholeGroup(pattern, stamped, at, data, moment, cells);
        GroupEnds(c, at, tryout);
      } else {
        GroupPassed(pattern, stamped, at, tryout, got, moment);
        NotWhole(pattern, stamped, at, tryout, got, moment);
      }
      if OnGroups(c, dev.m, log, from, at, tryout) { OnGroupsStep(c, dev.m, log, from, at, tryout, got, cur, next); }
      if Judged(c, dev.m, dev.cells, pattern, stamped, log, bad, corrupt0, was, from, before, at, true) {
        JudgedStep(c, dev.m, dev.cells, pattern, stamped, log, bad, corrupt0, was, from, before, at, tryout, got,
                   Bad(), corrupt, cur, !aborted);
      }
    }

    lemma NotWhole(pattern: nat, stamped: bool, at: nat, n: nat, got: nat, moment: nat)
      requires Sane(c) && |dev.log| == moment + 1 && dev.log[moment] == Call(true, at, n, got) && got != n
      ensures forall b :: !Disagrees(c, dev.m, dev.cells, pattern, stamped, dev.log, moment, b)
    {
    }

    /** The comparison of a group that was read whole, in terms of what the pass wrote. */
    method WholeGroup(pattern: nat, stamped: bool, ghost at: nat, data: seq<seq<byte>>, ghost moment: nat,
                      ghost cells: Cells)
      returns (aborted: bool)
      requires Valid() && cur == at + |data| && |data| <= c.atOnce && c.first <= at
      requires |dev.log| == moment + 1 && dev.log[moment] == Call(true, at, |data|, |data|)
      requires forall k :: 0 <= k < |data| ==> data[k] == Seen(dev.m, dev.cells, moment, at + k)
      requires forall k :: 0 <= k < |data| ==> buffer[k] == Content(c, pattern, stamped, at + k, k)
      modifies this`count, this`readErrors, this`writeErrors, this`corruptions, this`corrupt, list, list.list
      ensures Valid() && (list.list == old(list.list) || fresh(list.list)) && count <= old(count) + |data|
      ensures aborted ==> cur * c.size >= PB
      ensures readErrors == old(readErrors) && writeErrors == old(writeErrors) && old(corrupt) <= corrupt
      ensures forall b :: b in Bad() ==> b in old(Bad()) || (b < cur && b in corrupt)
      ensures forall b :: b in corrupt ==>
        (b in old(corrupt) || (b !in old(Bad()) && Disagrees(c, dev.m, dev.cells, pattern, stamped, dev.log, moment, b)))
      ensures !aborted ==>
        forall b :: (b !in old(Bad()) && Disagrees(c, dev.m, dev.cells, pattern, stamped, dev.log, moment, b)) ==> b in corrupt
      ensures forall b :: b in old(Bad()) ==> b in Bad()
      ensures !aborted ==> forall b :: at <= b < cur ==>
        b in Bad() || Examined(c, dev.m, dev.cells, pattern, stamped, dev.log, moment, b)
      ensures Calm(pattern, stamped, at, cells) ==>
        (forall b :: b in Bad() ==> b in old(Bad()) || (at <= b < cur && Mismatch(c, dev.m, pattern, stamped, cells, b))) &&
        (!aborted ==> forall b :: at <= b < cur && Mismatch(c, dev.m, pattern, stamped, cells, b) ==> b in Bad())
    {
      hide Content, Slot, Seen, Mismatch, Examined, Differs, Disagrees, L.Insert, L.Ascending, Tally, ErrorFree, Written;
      GroupExamined(pattern, stamped, at, |data|, data, moment);
      GroupDisagrees(pattern, stamped, at, data, moment);
      if Calm(pattern, stamped, at, cells) {
        GroupMismatches(pattern, stamped, at, data, moment, cells);
      }
      Outside(at, data);
      aborted := CompareGroup(at, data);
    }

    /** What differs is what the call disagrees about. */
    lemma GroupDisagrees(pattern: nat, stamped: bool, at: nat, data: seq<seq<byte>>, moment: nat)
      requires Sane(c) && |data| <= c.atOnce == buffer.Length
      requires |dev.log| == moment + 1 && dev.log[moment] == Call(true, at, |data|, |data|)
      requires forall k :: 0 <= k < |data| ==> data[k] == Seen(dev.m, dev.cells, moment, at + k)
      requires forall k :: 0 <= k < |data| ==> buffer[k] == Content(c, pattern, stamped, at + k, k)
      ensures forall b: nat :: Differs(at, data, b) <==> Disagrees(c, dev.m, dev.cells, pattern, stamped, dev.log, moment, b)
    {
      hide Content, Seen;
      forall b: nat
        ensures Differs(at, data, b) <==> Disagrees(c, dev.m, dev.cells, pattern, stamped, dev.log, moment, b)
      {
        if at <= b < at + |data| {
          assert data[b - at] == Seen(dev.m, dev.cells, moment, at + (b - at));
          assert buffer[b - at] == Content(c, pattern, stamped, at + (b - at), b - at);
        }
      }
    }

    lemma Outside(at: nat, data: seq<seq<byte>>)
      requires |data| <= buffer.Length
      ensures forall b: nat :: Differs(at, data, b) ==> at <= b < at + |data|
    {
    }

    /** No error is possible, and the cells are as the pass left them. */
    ghost predicate Calm(pattern: nat, stamped: bool, at: nat, cells: Cells)
      requires Sane(c)
      reads dev
    {
      ErrorFree(dev.m) && c.first <= at && Slot(c, at) == 0 &&
      dev.cells == Written(c, dev.m, pattern, stamped, cells, c.last)
    }

    /** What was read whole and does not differ is compared. */
    lemma GroupExamined(pattern: nat, stamped: bool, at: nat, n: nat, data: seq<seq<byte>>, moment: nat)
      requires Sane(c) && n == |data| <= c.atOnce == buffer.Length
      requires |dev.log| == moment + 1 && dev.log[moment] == Call(true, at, n, n)
      requires forall k :: 0 <= k < n ==> data[k] == Seen(dev.m, dev.cells, moment, at + k)
      requires forall k :: 0 <= k < n ==> buffer[k] == Content(c, pattern, stamped, at + k, k)
      ensures forall b :: at <= b < at + n && !Differs(at, data, b) ==>
        Examined(c, dev.m, dev.cells, pattern, stamped, dev.log, moment, b)
    {
      hide Content, Seen;
      forall b | at <= b < at + n && !Differs(at, data, b)
        ensures Examined(c, dev.m, dev.cells, pattern, stamped, dev.log, moment, b)
      {
        assert data[b - at] == Seen(dev.m, dev.cells, moment, at + (b - at));
        assert Agrees(c, dev.m, dev.cells, pattern, stamped, dev.log, moment, b);
      }
    }

    /** What was read of a group that was not read whole is passed over. */
    lemma GroupPassed(pattern: nat, stamped: bool, at: nat, n: nat, got: nat, moment: nat)
      requires Sane(c) && got < n && |dev.log| == moment + 1 && dev.log[moment] == Call(true, at, n, got)
      requires got == dev.m.fetched(moment, at, n)
      ensures forall b :: at <= b < at + got ==> Examined(c, dev.m, dev.cells, pattern, stamped, dev.log, moment, b)
    {
      forall b | at <= b < at + got ensures PassedOver(dev.m, dev.log, moment, b) {
        assert CutShort(dev.m, dev.log, moment, b);
      }
    }

    /** Without errors, what differs is what mismatches. */
    lemma GroupMismatches(pattern: nat, stamped: bool, at: nat, data: seq<seq<byte>>, moment: nat, cells: Cells)
      requires Sane(c) && |data| <= c.atOnce == buffer.Length && Calm(pattern, stamped, at, cells)
      requires forall k :: 0 <= k < |data| ==> data[k] == Seen(dev.m, dev.cells, moment, at + k)
      requires forall k :: 0 <= k < |data| ==> buffer[k] == Content(c, pattern, stamped, at + k, k)
      ensures forall b :: at <= b < at + |data| ==>
        (Differs(at, data, b) <==> Mismatch(c, dev.m, pattern, stamped, cells, b))
    {
      hide Content, Written, Slot;
      forall b | at <= b < at + |data|
        ensures Differs(at, data, b) <==> Mismatch(c, dev.m, pattern, stamped, cells, b)
      {
        SlotInGroup(c, at, b - at);
        assert data[b - at] == Seen(dev.m, dev.cells, moment, at + (b - at));
        assert buffer[b - at] == Content(c, pattern, stamped, at + (b - at), b - at);
      }
    }

    /** A read pass. */
    method ReadPass(pattern: nat, stamped: bool, ghost cells: Cells) returns (aborted: bool)
      requires Valid() && Filled(pattern, stamped) && Bounded()
      modifies this, list, list.list, dev`log, buffer
      ensures Valid() && Filled(pattern, stamped) && Bounded() && (list.list == old(list.list) || fresh(list.list))
      ensures forall b :: b in old(Bad()) ==> b in Bad()
      ensures aborted ==> GaveUp()
      ensures writeErrors == old(writeErrors) && old(corrupt) <= corrupt && old(dev.log) <= dev.log
      ensures Judged(c, dev.m, dev.cells, pattern, stamped, dev.log, Bad(), corrupt, old(Bad()), |old(dev.log)|, old(corrupt),
                     cur, !aborted)
      ensures cur <= c.last || |dev.log| == |old(dev.log)|
      ensures |dev.log| == |old(dev.log)| ==> Bad() == old(Bad())
      ensures !aborted && c.first < c.last ==> FirstRead(c, dev.log, |old(dev.log)|)
      ensures FetchesAll(dev.m) ==> Aligned(c, dev.log, |old(dev.log)|)
      ensures !aborted ==> forall b :: c.first <= b < c.last ==>
        b in Bad() || Examined(c, dev.m, dev.cells, pattern, stamped, dev.log, |old(dev.log)|, b)
      ensures ErrorFree(dev.m) && old(recover) == NOWHERE &&
              dev.cells == Written(c, dev.m, pattern, stamped, cells, c.last) ==>
        OnlyMismatches(pattern, stamped, cells, old(Bad())) && readErrors == old(readErrors) &&
        (!aborted ==> recover == NOWHERE) &&
        (!aborted ==> forall b :: c.first <= b < c.last && Mismatch(c, dev.m, pattern, stamped, cells, b) ==> b in Bad())
    {
      hide Content, Slot, Stored, L.Insert, L.Ascending, Tally, ErrorFree, Written, Examined, Slotted, Mismatch, ReadTrack;
      hide Justified, Complete, Explained, OnGroups, Aligned, Judged;
      ghost var moment, was, before := |dev.log|, Bad(), corrupt;
      cur := c.first;
      var tryout := c.atOnce;
      ReadTrackStart(c, dev.m, dev.cells, pattern, stamped, dev.log, was, before);
      OnGroupsStart(c, dev.m, dev.log);
      StartOfPass(c, dev.m, pattern, stamped, cells);
      while cur < c.last
        invariant Valid() && Filled(pattern, stamped) && Bounded() && (list.list == old(list.list) || fresh(list.list))
        invariant 0 < tryout <= c.atOnce && InRange() && moment <= |dev.log| && old(dev.log) <= dev.log
        invariant forall b :: b in was ==> b in Bad()
        invariant Looked(pattern, stamped, moment)
        invariant ErrorFree(dev.m) && old(recover) == NOWHERE &&
                  dev.cells == Written(c, dev.m, pattern, stamped, cells, c.last) ==>
          SmoothRead(pattern, stamped, tryout, cells, was) && readErrors == old(readErrors)
        invariant writeErrors == old(writeErrors) && old(corrupt) <= corrupt
        invariant Judged(c, dev.m, dev.cells, pattern, stamped, dev.log, Bad(), corrupt, was, moment, before, cur, true)
        invariant cur <= c.last || |dev.log| == moment
        invariant |dev.log| == moment ==> Bad() == was
        invariant OnGroups(c, dev.m, dev.log, moment, cur, tryout)
        invariant if |dev.log| == moment then cur == c.first && tryout == c.atOnce else FirstRead(c, dev.log, moment)
        decreases c.last - cur, tryout
      {
        OnGroupsEnd(c, dev.m, dev.log, moment, cur, tryout);
        if c.cancel(|dev.log|) || (c.maxBad != 0 && count >= c.maxBad) {
          JudgedSofar(c, dev.m, dev.cells, pattern, stamped, dev.log, Bad(), corrupt, was, moment, before, cur);
          return true;
        }
        aborted, tryout := ReadNext(pattern, stamped, tryout, cells, was, moment, before);
        OnGroupsEnd(c, dev.m, dev.log, moment, cur, tryout);
        if aborted {
          AtLimit(cur, c.last, c.size);
          return;
        }
      }
      OnGroupsEnd(c, dev.m, dev.log, moment, cur, tryout);
      aborted := false;
    }

    /** Every block below cur is reported, or examined since a moment. */
    ghost predicate Looked(pattern: nat, stamped: bool, from: nat)
      requires Valid()
      reads this, list, list.list, dev
    {
      forall b :: c.first <= b < cur ==> b in Bad() || Examined(c, dev.m, dev.cells, pattern, stamped, dev.log, from, b)
    }

    /** One turn of a read pass: the group at cur, cut at the end of the range. */
    method ReadNext(pattern: nat, stamped: bool, tryout: nat, ghost cells: Cells, ghost was: seq<nat>, ghost from: nat,
                    ghost before: set<nat>)
      returns (aborted: bool, next: nat)
      requires Valid() && Filled(pattern, stamped) && c.first <= cur < c.last && 0 < tryout <= c.atOnce
      requires from <= |dev.log| && Looked(pattern, stamped, from)
      requires Judged(c, dev.m, dev.cells, pattern, stamped, dev.log, Bad(), corrupt, was, from, before, cur, true)
      requires OnGroups(c, dev.m, dev.log, from, cur, tryout)
      requires |dev.log| == from ==> cur == c.first && tryout == c.atOnce
      requires |dev.log| > from ==> FirstRead(c, dev.log, from)
      modifies this, list, list.list, dev`log, buffer
      ensures Valid() && Filled(pattern, stamped) && (list.list == old(list.list) || fresh(list.list))
      ensures old(cur) <= cur <= c.last && 0 < next <= c.atOnce && (cur == old(cur) ==> next < tryout)
      ensures count <= old(count) + c.atOnce && forall b :: b in old(Bad()) ==> b in Bad()
      ensures |dev.log| > from && old(dev.log) <= dev.log && FirstRead(c, dev.log, from)
      ensures aborted ==> cur * c.size >= PB
      ensures writeErrors == old(writeErrors) && old(corrupt) <= corrupt
      ensures Judged(c, dev.m, dev.cells, pattern, stamped, dev.log, Bad(), corrupt, was, from, before, cur, !aborted)
      ensures OnGroups(c, dev.m, dev.log, from, cur, next) && (!aborted ==> Looked(pattern, stamped, from))
      ensures ErrorFree(dev.m) && old(SmoothRead(pattern, stamped, tryout, cells, was)) ==>
        OnlyMismatches(pattern, stamped, cells, was) && readErrors == old(readErrors) &&
        (!aborted ==> SmoothRead(pattern, stamped, next, cells, was))
    {
      hide Content, Slot, Stored, L.Insert, L.Ascending, Tally, ErrorFree, Written, Examined, Slotted, Mismatch;
      hide Judged, OnGroups, Filled;
      ghost var log := dev.log;
      OnGroupsCut(c, dev.m, dev.log, from, cur, tryout);
      var n := if cur + tryout > c.last then c.last - cur else tryout;
      aborted, next := ReadGroup(pattern, stamped, n, cells, was, from, before);
      forall b | Examined(c, dev.m, dev.cells, pattern, stamped, log, from, b) ||
                 Examined(c, dev.m, dev.cells, pattern, stamped, dev.log, |log|, b)
        ensures Examined(c, dev.m, dev.cells, pattern, stamped, dev.log, from, b)
      {
        if Examined(c, dev.m, dev.cells, pattern, stamped, log, from, b) {
          StillExamined(c, dev.m, dev.cells, pattern, stamped, log, dev.log, from, from, b);
        } else {
          StillExamined(c, dev.m, dev.cells, pattern, stamped, dev.log, dev.log, from, |log|, b);
        }
      }
    }

    lemma AtLimit(a: nat, b: nat, n: nat)
      requires a <= b && a * n >= PB
      ensures b * n >= PB
    {
      assert b * n == a * n + (b - a) * n;
    }
  }

  // ---- The whole test ----

  datatype Result = Result(aborted: bool, bad: seq<nat>, count: nat, readErrors: nat, writeErrors: nat, corruptions: nat)

  /** Every report is of a block that a later one overwrote. */
  ghost predicate AllOverwritten(c: Test, m: Medium, bad: seq<nat>) {
    forall b :: b in bad ==> c.first <= b < c.last && Overwritten(c, m, b)
  }

  /** Every block that a later one overwrote is reported. */
  ghost predicate NoneMissed(c: Test, m: Medium, bad: seq<nat>) {
    forall b :: c.first <= b < c.last && Overwritten(c, m, b) ==> b in bad
  }

  /** All mismatches of a pass are reported. */
  ghost predicate AllMismatches(k: Checker, pattern: nat, stamped: bool, cells: Cells)
    requires k.Valid()
    reads k, k.list, k.list.list
  {
    forall b :: k.c.first <= b < k.c.last && Mismatch(k.c, k.dev.m, pattern, stamped, cells, b) ==> b in k.Bad()
  }

  /** One pass: on media without errors, exactly the mismatches of the pass are reported. */
  method RunPass(k: Checker, pattern: nat, stamped: bool) returns (aborted: bool)
    requires k.Valid() && k.Bounded() && pattern < 0x1_0000_0000
    modifies k, k.list, k.list.list, k.dev, k.buffer
    ensures k.Valid() && k.Bounded() && (k.list.list == old(k.list.list) || fresh(k.list.list))
    ensures forall b :: b in old(k.Bad()) ==> b in k.Bad()
    ensures aborted ==> k.GaveUp()
    ensures ErrorFree(k.dev.m) && old(k.recover) == NOWHERE ==>
      k.OnlyMismatches(pattern, stamped, old(k.dev.cells), old(k.Bad())) &&
      k.readErrors == old(k.readErrors) && k.writeErrors == old(k.writeErrors) &&
      (!aborted ==> k.recover == NOWHERE) &&
      (!aborted ==> AllMismatches(k, pattern, stamped, old(k.dev.cells)))
    ensures old(k.corrupt) <= k.corrupt
    ensures Trusty(k.c, k.dev.m) ==>
      SlotsExplain(k.c, pattern, stamped, k.dev.log, |old(k.dev.log)|, k.corrupt, old(k.corrupt))
    ensures Trusty(k.c, k.dev.m) && !aborted ==>
      SlotsDecide(k.c, pattern, stamped, k.dev.log, |old(k.dev.log)|, k.corrupt, old(k.Bad()))
    ensures Trusty(k.c, k.dev.m) && pattern < 256 ==> k.corrupt == old(k.corrupt) && k.corruptions == old(k.corruptions)
    ensures old(k.dev.log) <= k.dev.log && Honest(k.dev.m, k.dev.log, |old(k.dev.log)|)
    ensures forall b :: b in k.Bad() ==> b in old(k.Bad()) || b < k.c.last
    ensures Explained(k.dev.log, k.Bad(), old(k.Bad()), |old(k.dev.log)|, k.corrupt)
    ensures !aborted ==>
      forall b :: k.c.first <= b < k.c.last ==> Acknowledged(k.dev.log, |old(k.dev.log)|, b) || b in k.Bad()
    ensures !aborted && k.c.first < k.c.last ==>
      exists mid: nat :: |old(k.dev.log)| <= mid && FirstRead(k.c, k.dev.log, mid)
    ensures FetchesAll(k.dev.m) ==> Aligned(k.c, k.dev.log, |old(k.dev.log)|)
    ensures FetchesAll(k.dev.m) && !aborted ==>
      forall b :: k.c.first <= b < k.c.last ==> b in k.Bad() || WholeSomewhere(k.dev.log, |old(k.dev.log)|, b)
    ensures Trusty(k.c, k.dev.m) ==>
      Holding(k.c, k.dev.m, pattern, stamped, k.dev.log, k.dev.cells, |old(k.dev.log)|)
  {
    hide Mismatch, Written, ErrorFree, SlotFill, Acknowledged, Examined, Trusty, WriteTrack, ReadTrack, Justified, Complete, Judged;
    hide SlotsExplain, SlotsDecide, Honest, Holding, Explained, FirstRead, FetchesAll, Aligned, WholeSomewhere;
    hide L.Ascending, Slot, Checker.GaveUp, Checker.Bounded, Checker.Slotted;
    ghost var cells, from, was, before := k.dev.cells, |k.dev.log|, k.Bad(), k.corrupt;
    PatternFill(k.buffer, k.c.size, pattern);
    FilledSlots(k, pattern, stamped);
    aborted := k.WritePass(pattern, stamped);
    WriteTold(k.c, k.dev.m, pattern, stamped, k.dev.log, k.dev.cells, k.Bad(), was, from, k.cur, k.corrupt);
    if !aborted {
      ghost var log, bad, held, cur := k.dev.log, k.Bad(), k.dev.cells, k.cur;
      aborted := k.ReadPass(pattern, stamped, cells);
      JudgedIs(k.c, k.dev.m, k.dev.cells, pattern, stamped, k.dev.log, k.Bad(), k.corrupt, bad, |log|, before, k.cur, !aborted);
      ReadTold(k.c, k.dev.m, pattern, stamped, log, k.dev.log, held, bad, k.Bad(), was, from, cur, k.cur, k.corrupt);
      forall b | Acknowledged(log, from, b) ensures Acknowledged(k.dev.log, from, b) {
        StillAcknowledged(log, k.dev.log, from, b);
      }
      if FetchesAll(k.dev.m) {
        ReadsTold(k.c, k.dev.m, pattern, stamped, log, k.dev.log, held, bad, was, from, cur);
      }
      if Trusty(k.c, k.dev.m) {
        TracksDecide(k.c, k.dev.m, pattern, stamped, from, |log|, log, held, bad, was, cur, k.dev.log, k.Bad(), k.corrupt,
                     before, k.cur);
      }
    } else {
      NothingNew(k.c, pattern, stamped, k.dev.log, from, k.corrupt);
      NoReads(k.c, k.dev.m, pattern, stamped, k.dev.log, k.dev.cells, k.Bad(), was, from, k.cur);
    }
    if Trusty(k.c, k.dev.m) && pattern < 256 {
      OneByteNeverDiffers(k.c, pattern, stamped, k.dev.log, from, k.corrupt, before);
    }
  }

  lemma FilledSlots(k: Checker, pattern: nat, stamped: bool)
    requires Sane(k.c) && k.buffer.Length == k.c.atOnce
    requires forall i :: 0 <= i < k.buffer.Length ==> k.buffer[i] == SlotFill(pattern, k.c.size, i)
    ensures k.Filled(pattern, stamped)
  {
    hide SlotFill;
    forall i | 0 <= i < k.c.atOnce ensures k.Slotted(pattern, stamped, i) {
      assert k.buffer[i] == SlotFill(pattern, k.c.size, i);
    }
  }

  lemma SmallPatterns(kind: nat, pass: nat)
    ensures PatternOf(kind, pass) < 0x1_0000_0000
    ensures kind < 4 || pass < 2 ==> PatternOf(kind, pass) < 256
  {
  }

  /** What a pass reports, in terms of overwritten blocks. */
  lemma PassReports(k: Checker, pattern: nat, stamped: bool, cells: Cells, was: seq<nat>)
    requires k.Valid() && k.OnlyMismatches(pattern, stamped, cells, was) && AllOverwritten(k.c, k.dev.m, was)
    ensures AllOverwritten(k.c, k.dev.m, k.Bad())
    ensures stamped && pattern < 256 && AllMismatches(k, pattern, stamped, cells) ==> NoneMissed(k.c, k.dev.m, k.Bad())
  {
    hide Mismatch, Overwritten;
    forall b | b in k.Bad() ensures k.c.first <= b < k.c.last && Overwritten(k.c, k.dev.m, b) {
      if b !in was { MismatchOverwritten(k.c, k.dev.m, pattern, stamped, cells, b); }
    }
    if stamped && pattern < 256 {
      forall b | k.c.first <= b < k.c.last && Overwritten(k.c, k.dev.m, b)
        ensures Mismatch(k.c, k.dev.m, pattern, stamped, cells, b)
      {
        OverwrittenMismatch(k.c, k.dev.m, pattern, cells, b);
      }
    }
  }

  /** test_rw with its list of bad blocks, on any medium. On one without errors it reports
      nothing but overwritten blocks, all of them if it looks for fakes and is not given up; on a
      genuine one without errors it reports nothing and is given up by the user alone (or at the
      largest size there is). */
  method TestRw(c: Test, m: Medium, kind: nat, passes: nat) returns (r: Result)
    requires c.atOnce > 0 && c.offset + 8 <= c.size
    ensures r.count == |r.bad| == r.readErrors + r.writeErrors + r.corruptions && L.Ascending(r.bad)
    ensures c.maxBad != 0 ==> r.count <= c.maxBad - 1 + c.atOnce
    ensures kind >= 5 || passes < 1 || passes > 4 || !Sane(c) ==> r.aborted && r.bad == []
    ensures ErrorFree(m) ==> AllOverwritten(c, m, r.bad) && r.readErrors == r.writeErrors == 0
    ensures ErrorFree(m) && c.detect && !r.aborted ==> NoneMissed(c, m, r.bad)
    ensures Trusty(c, m) && (kind < 4 || passes <= 2) ==> r.corruptions == 0
    ensures SinglesKept(c, m) && kind == 4 && 3 <= passes <= 4 && Sane(c) && !r.aborted ==>
      forall b :: b in r.bad <==> OffSlot(c, b)
    ensures forall b :: b in r.bad ==> b < c.last
    ensures r.aborted ==> kind >= 5 || passes < 1 || passes > 4 || !Sane(c) || (exists t: nat :: c.cancel(t)) ||
                          (c.maxBad != 0 && r.count >= c.maxBad) || c.last * c.size >= PB
    ensures ErrorFree(m) && Genuine(c, m) ==> r.bad == []
    ensures ErrorFree(m) && Genuine(c, m) && kind < 5 && 1 <= passes <= 4 && Sane(c) && c.last * c.size < PB &&
              (forall t: nat :: !c.cancel(t)) ==>
              !r.aborted
  {
    hide Mismatch, ErrorFree, Overwritten, NoneMissed, AllOverwritten, Genuine, Trusty, SinglesKept, OffSlot;
    NothingMissed(c, m);
    if kind >= 5 || passes < 1 || passes > 4 || c.first * c.size > PB || c.last * c.size > PB {
      return Result(true, [], 0, 0, 0, 0);
    }
    var k := new Checker(c, m);
    var aborted := false;
    var pass := 0;
    while pass < passes && !aborted
      invariant pass <= passes && k.Valid() && k.Bounded() && k.c == c && k.dev.m == m
      invariant fresh(k) && fresh(k.dev) && fresh(k.list) && fresh(k.list.list) && fresh(k.buffer)
      invariant aborted ==> k.GaveUp()
      invariant ErrorFree(m) ==> AllOverwritten(c, m, k.Bad()) && (!aborted ==> k.recover == NOWHERE)
      invariant ErrorFree(m) ==> k.readErrors == k.writeErrors == 0
      invariant Trusty(c, m) && (kind < 4 || passes <= 2) ==> k.corruptions == 0
      invariant SinglesKept(c, m) && kind == 4 && !aborted ==> forall b :: b in k.Bad() <==> pass >= 3 && OffSlot(c, b)
      invariant forall b :: b in k.Bad() ==> b < c.last
      invariant ErrorFree(m) && c.detect && !aborted && pass > 0 ==> NoneMissed(c, m, k.Bad())
      decreases passes - pass, !aborted
    {
      if c.cancel(|k.dev.log|) {
        aborted := true;
      } else {
        aborted := NextPass(k, kind, pass);
        pass := pass + 1;
      }
    }
    r := Result(aborted, k.list.list[..k.list.num], k.count, k.readErrors, k.writeErrors, k.corruptions);
    assert r.bad == k.Bad();
    GenuineClean(c, m, r.bad);
  }

  /** The pass with a number, stamped if it is the first and fakes are looked for. */
  method NextPass(k: Checker, kind: nat, pass: nat) returns (aborted: bool)
    requires k.Valid() && k.Bounded()
    modifies k, k.list, k.list.list, k.dev, k.buffer
    ensures k.Valid() && k.Bounded() && (k.list.list == old(k.list.list) || fresh(k.list.list))
    ensures aborted ==> k.GaveUp()
    ensures Trusty(k.c, k.dev.m) && (kind < 4 || pass < 2) ==> k.corruptions == old(k.corruptions)
    ensures SinglesKept(k.c, k.dev.m) && kind == 4 && !aborted ==>
      forall b :: b in k.Bad() <==> b in old(k.Bad()) || (pass >= 2 && OffSlot(k.c, b))
    ensures forall b :: b in k.Bad() ==> b in old(k.Bad()) || b < k.c.last
    ensures ErrorFree(k.dev.m) && old(k.recover) == NOWHERE && AllOverwritten(k.c, k.dev.m, old(k.Bad())) ==>
      AllOverwritten(k.c, k.dev.m, k.Bad()) && (!aborted ==> k.recover == NOWHERE) &&
      k.readErrors == old(k.readErrors) && k.writeErrors == old(k.writeErrors) &&
      (k.c.detect && !aborted && (pass == 0 || NoneMissed(k.c, k.dev.m, old(k.Bad()))) ==> NoneMissed(k.c, k.dev.m, k.Bad()))
  {
    hide Mismatch, ErrorFree, Overwritten, Trusty, Honest, Holding, Explained, FirstRead, SlotsExplain, SlotsDecide;
    hide SinglesKept, FetchesAll, OffSlot, Aligned, WholeSomewhere, Acknowledged;
    ghost var cells, was, from, before := k.dev.cells, k.Bad(), |k.dev.log|, k.corrupt;
    k.Tallied();
    var pattern, stamped := PatternOf(kind, pass), k.c.detect && pass == 0;
    SmallPatterns(kind, pass);
    FirstPattern(kind);
    aborted := RunPass(k, pattern, stamped);
    if ErrorFree(k.dev.m) && old(k.recover) == NOWHERE && AllOverwritten(k.c, k.dev.m, was) {
      PassReports(k, pattern, stamped, cells, was);
    }
    if SinglesKept(k.c, k.dev.m) && kind == 4 && !aborted {
      SinglesAre(k.c, k.dev.m);
      k.Tallied();
      forall b ensures b in k.Bad() <==> b in was || (pass >= 2 && OffSlot(k.c, b)) {
        if b !in was {
          if pass < 2 {
            SinglesQuiet(k.c, k.dev.m, k.dev.log, k.Bad(), was, from, k.corrupt, before, b);
          } else {
            LastPatterns(pass);
            SinglesPass(k.c, k.dev.m, pattern, k.dev.log, k.Bad(), was, from, k.corrupt, before, b);
          }
        }
      }
    }
  }

  lemma LastPatterns(pass: nat)
    requires pass >= 2
    ensures PatternOf(4, pass) == 0x1c71c7 || PatternOf(4, pass) == 0xe38e38
  {
  }

  lemma NothingMissed(c: Test, m: Medium)
    ensures AllOverwritten(c, m, [])
  {
  }

  /** On genuine media no block is overwritten. */
  lemma GenuineClean(c: Test, m: Medium, bad: seq<nat>)
    ensures Genuine(c, m) && AllOverwritten(c, m, bad) ==> bad == []
  {
    if AllOverwritten(c, m, bad) && bad != [] {
      var b := bad[0];
      assert Overwritten(c, m, b);
      var x: nat :| b < x < c.last && m.cellOf(x) == m.cellOf(b);
      assert !Genuine(c, m);
    }
  }

  // ---- A good block reported ----

  /** A device that fails to write groups and takes every single block, and keeps what it takes. */
  const SINGLE_WRITES := Medium(b => b, (t, b, n) => if n == 1 then 1 else 0, (t, b, n) => n, (t, b) => None, (t, b) => None)

  /** The third pass over flash with three levels, with its groups of 64 blocks of 512 KB. */
  const THIRD_PASS := Test(0x80000, 64, 0, 0, 64, 256, false, t => false)

  lemma KeepsSingles()
    ensures Sane(THIRD_PASS) && Trusty(THIRD_PASS, SINGLE_WRITES)
  {
  }

  lemma NeverAlone(log: seq<Call>, b: nat)
    requires Honest(SINGLE_WRITES, log, 0)
    ensures !ReportedAlone(log, 0, b)
  {
  }

  /** Each block was written by a call of its own. */
  lemma WrittenAlone(pattern: nat, log: seq<Call>, bad: seq<nat>, corrupt: set<nat>, b: nat) returns (w: nat)
    requires Sane(THIRD_PASS) && Honest(SINGLE_WRITES, log, 0) && Explained(log, bad, [], 0, corrupt)
    requires SlotsExplain(THIRD_PASS, pattern, false, log, 0, corrupt, {}) && (Acknowledged(log, 0, b) || b in bad)
    ensures Wrote(log, w, b) && SlotAt(log, w, b) == 0
  {
    hide SlotFill;
    NeverAlone(log, b);
    if !Acknowledged(log, 0, b) {
      assert false;
    }
    w := WroteSome(log, 0, b);
    assert log[w].got == Least(SINGLE_WRITES.written(w, log[w].start, log[w].n), log[w].n);
  }

  /** And all blocks were read by the same call. */
  lemma ReadTogether(log: seq<Call>, mid: nat, b: nat)
    requires Honest(SINGLE_WRITES, log, 0) && FirstRead(THIRD_PASS, log, mid) && b < 64
    ensures ReadWhole(log, mid, b) && SlotAt(log, mid, b) == b
  {
  }

  /** Every block is then written from slot 0 and compared with its own slot: two of three are
      reported, though every one holds what was written to it. */
  method FalseReports() returns (bad: seq<nat>, cells: Cells)
    ensures forall b: nat :: b in bad <==> b < 64 && b % 3 != 0
    ensures forall b: nat :: b < 64 ==> Holds(cells, SINGLE_WRITES.cellOf(b)) == SlotFill(PatternOf(4, 2), 0x80000, 0)
  {
    hide SlotFill, Acknowledged, Honest, Holding, Explained, SlotsExplain, SlotsDecide, Trusty, L.Ascending, Holds;
    var c, m := THIRD_PASS, SINGLE_WRITES;
    var k := new Checker(c, m);
    KeepsSingles();
    var aborted := RunPass(k, PatternOf(4, 2), false);
    bad, cells := k.list.list[..k.list.num], k.dev.cells;
    L.AscendingFew(bad, 64);
    k.Tallied();
    assert !aborted;
    ghost var mid: nat :| FirstRead(c, k.dev.log, mid);
    forall b: nat | b < 64
      ensures b in bad <==> b % 3 != 0
      ensures Holds(cells, m.cellOf(b)) == SlotFill(PatternOf(4, 2), 0x80000, 0)
    {
      BlockTold(PatternOf(4, 2), k.dev.log, cells, bad, k.corrupt, mid, b);
    }
  }

  lemma BlockTold(pattern: nat, log: seq<Call>, cells: Cells, bad: seq<nat>, corrupt: set<nat>, mid: nat, b: nat)
    requires Sane(THIRD_PASS) && Honest(SINGLE_WRITES, log, 0) && Explained(log, bad, [], 0, corrupt) && b < 64
    requires pattern == 0x1c71c7 && (forall x :: x in corrupt ==> x in bad)
    requires SlotsExplain(THIRD_PASS, pattern, false, log, 0, corrupt, {})
    requires SlotsDecide(THIRD_PASS, pattern, false, log, 0, corrupt, [])
    requires Holding(THIRD_PASS, SINGLE_WRITES, pattern, false, log, cells, 0)
    requires Acknowledged(log, 0, b) || b in bad
    requires FirstRead(THIRD_PASS, log, mid)
    ensures b in bad <==> b % 3 != 0
    ensures Holds(cells, SINGLE_WRITES.cellOf(b)) == SlotFill(pattern, 0x80000, 0)
  {
    hide SlotFill, Honest, SlotsExplain, SlotsDecide, FirstRead, Wrote, ReadWhole, SlotAt, ReportedAlone, Acknowledged, Holds;
    NeverAlone(log, b);
    var w := WrittenAlone(pattern, log, bad, corrupt, b);
    ReadTogether(log, mid, b);
    ThreeBytesDecide(THIRD_PASS, pattern, log, 0, corrupt, []);
    assert b in corrupt <==> SlotAt(log, w, b) % 3 != SlotAt(log, mid, b) % 3;
  }

  /** The whole test for such flash, as the program calls it, on that device: fakes are looked for,
      there are four passes, and the good blocks of three bytes' patterns are reported. */
  method FalseReportsOfTest() returns (r: Result)
    ensures !r.aborted && forall b: nat :: b in r.bad <==> b < 64 && b % 3 != 0
  {
    hide Trusty, L.Ascending;
    var c, m := THIRD_PASS.(detect := true), SINGLE_WRITES;
    KeepsSingles();
    SinglesHere(c);
    r := TestRw(c, m, 4, 4);
    L.AscendingFew(r.bad, 64);
  }

  lemma SinglesHere(c: Test)
    requires c == THIRD_PASS.(detect := true)
    ensures Sane(c) && SinglesKept(c, SINGLE_WRITES)
    ensures forall b: nat :: OffSlot(c, b) <==> b < 64 && b % 3 != 0
  {
    assert forall b: nat :: b < 64 ==> Slot(c, b) == b;
  }
}
