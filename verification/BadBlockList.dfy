/** The in-memory list of bad blocks of badblocks.c: an ascending array that is grown and shifted
    in place, and searched by bisection. */
module BadBlockList {

  predicate Ascending(s: seq<nat>) {
    forall i, j :: 0 <= i < j < |s| ==> s[i] < s[j]
  }

  /** The list with b in its place, once. */
  function Insert(s: seq<nat>, b: nat): (r: seq<nat>) {
    if s == [] then [b]
    else if s[0] == b then s
    else if s[0] > b then [b] + s
    else [s[0]] + Insert(s[1..], b)
  }

  /** Inserting keeps the list ascending and adds exactly b to its members. */
  lemma {:induction false} InsertMembers(s: seq<nat>, b: nat)
    requires Ascending(s)
    ensures Ascending(Insert(s, b))
    ensures forall x :: x in Insert(s, b) <==> x in s || x == b
    ensures |Insert(s, b)| == |s| + if b in s then 0 else 1
  {
    if s != [] && s[0] < b {
      var r := Insert(s[1..], b);
      InsertMembers(s[1..], b);
      assert s == [s[0]] + s[1..];
      forall i, j | 0 <= i < j < |r| + 1 ensures ([s[0]] + r)[i] < ([s[0]] + r)[j] {
        if i == 0 { assert r[j - 1] in r; }
      }
    }
  }

  /** An ascending list of numbers below n has at most n. */
  lemma AscendingFew(s: seq<nat>, n: nat)
    requires Ascending(s) && forall b :: b in s ==> b < n
    ensures |s| <= n
  {
    if s != [] {
      AtLeastPlace(s, |s| - 1);
      assert s[|s| - 1] in s;
    }
  }

  lemma {:induction false} AtLeastPlace(s: seq<nat>, i: nat)
    requires Ascending(s) && i < |s|
    ensures s[i] >= i
  {
    if i > 0 { AtLeastPlace(s, i - 1); }
  }

  /** Inserting behind a part that is below b leaves that part. */
  lemma {:induction false} InsertBehind(x: seq<nat>, y: seq<nat>, b: nat)
    requires forall k :: 0 <= k < |x| ==> x[k] < b
    ensures Insert(x + y, b) == x + Insert(y, b)
  {
    if x == [] {
      assert x + y == y;
    } else {
      InsertBehind(x[1..], y, b);
      assert (x + y)[1..] == x[1..] + y;
      assert [x[0]] + (x[1..] + Insert(y, b)) == x + Insert(y, b);
    }
  }

  class List {
    var list: array<nat>
    var num: nat

    ghost predicate Valid()
      reads this, list
    {
      num <= list.Length && Ascending(list[..num])
    }

    ghost function Contents(): (r: seq<nat>)
      requires num <= list.Length
      reads this, list
    {
      list[..num]
    }

    constructor (size: nat)
      ensures Valid() && Contents() == [] && fresh(list)
    {
      list := new nat[if size != 0 then size else 10](_ => 0);
      num := 0;
    }

    /** realloc to 100 more entries. */
    method Grow()
      requires Valid()
      modifies this`list
      ensures Valid() && Contents() == old(Contents()) && num < list.Length && fresh(list)
    {
      var more := new nat[list.Length + 100](_ => 0);
      forall k | 0 <= k < list.Length { more[k] := list[k]; }
      list := more;
    }

    /** bb_u64_list_add. */
    method Add(blk: nat)
      requires Valid()
      modifies this, list
      ensures Valid() && (list == old(list) || fresh(list))
      ensures Contents() == Insert(old(Contents()), blk)
    {
      hide Insert;
      InsertMembers(Contents(), blk);
      if num >= list.Length { Grow(); }
      AddToRoom(blk);
    }

    method AddToRoom(blk: nat)
      requires Valid() && num < list.Length
      modifies this`num, list
      ensures num <= list.Length && Contents() == Insert(old(Contents()), blk)
    {
      hide Insert;
      ghost var s := Contents();
      if num != 0 && list[num - 1] == blk {
        Present(s, num - 1);
      } else if num == 0 || list[num - 1] < blk {
        Behind(s, num, blk);
        list[num] := blk;
        num := num + 1;
        assert list[..num - 1] == s;
      } else {
        var j := Place(blk);
        if list[j] == blk {
          Present(s, j);
        } else {
          Behind(s, j, blk);
          Shift(j, blk);
        }
      }
    }

    /** The first entry that is not below blk. */
    method Place(blk: nat) returns (j: nat)
      requires Valid() && num > 0 && list[num - 1] > blk
      ensures j < num && list[j] >= blk && forall k :: 0 <= k < j ==> list[k] < blk
    {
      j := num;
      for i := 0 to num
        invariant j == num
        invariant forall k :: 0 <= k < i ==> list[k] < blk
      {
        if list[i] == blk {
          return i;
        }
        if list[i] > blk {
          j := i;
          break;
        }
      }
    }

    /** The entries from j on moved up by one, and blk put at j. */
    method Shift(j: nat, blk: nat)
      requires num < list.Length && j < num
      modifies this`num, list
      ensures num == old(num) + 1 && num <= list.Length
      ensures list[..num] == old(list[..j]) + [blk] + old(list[j..num])
    {
      var i := num;
      while i > j
        invariant j <= i <= num == old(num)
        invariant forall k :: 0 <= k <= i && k < num ==> list[k] == old(list[k])
        invariant forall k :: i < k <= num ==> list[k] == old(list[k - 1])
      {
        list[i] := list[i - 1];
        i := i - 1;
      }
      list[j] := blk;
      num := num + 1;
    }

    /** bb_u64_list_find: looks at both ends, then bisects between them. */
    method Find(blk: nat) returns (at: int)
      requires Valid()
      ensures at >= 0 <==> blk in Contents()
      ensures at >= 0 ==> at < num && list[at] == blk
      ensures at >= -1
    {
      if num == 0 {
        return -1;
      }
      var low, high := 0, num - 1;
      if blk == list[low] {
        return low;
      }
      if blk == list[high] {
        return high;
      }
      ghost var s := Contents();
      while low < high
        invariant 0 <= low <= high < num && list[..num] == s
        invariant forall k :: 0 <= k <= low || high <= k < num ==> s[k] != blk
        invariant blk in s ==> s[low] < blk < s[high]
        decreases high - low
      {
        var mid := (low + high) / 2;
        if mid == low || mid == high {
          break;
        }
        if blk == list[mid] {
          return mid;
        }
        if blk < list[mid] {
          high := mid;
        } else {
          low := mid;
        }
      }
      at := -1;
    }
  }

  lemma {:induction false} Present(s: seq<nat>, j: nat)
    requires Ascending(s) && j < |s|
    ensures Insert(s, s[j]) == s
  {
    if j > 0 {
      assert s[0] < s[j];
      assert s[1..][j - 1] == s[j];
      Present(s[1..], j - 1);
      assert [s[0]] + s[1..] == s;
    }
  }

  lemma Behind(s: seq<nat>, j: nat, b: nat)
    requires j <= |s| && (forall k :: 0 <= k < j ==> s[k] < b) && (j < |s| ==> s[j] > b)
    ensures Insert(s, b) == s[..j] + [b] + s[j..]
  {
    InsertBehind(s[..j], s[j..], b);
    assert s[..j] + s[j..] == s;
  }
}
