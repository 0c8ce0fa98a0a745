/** The write override of format.c: a stream of any pieces reaches the disk in whole sectors,
    what is left of each piece waiting in a sector buffer. */
module SectorWriter {
  import opened Bytes
  import Padding

  const MAX_SECTOR := 0x1_0000
  const MAX_COUNT := 0x4000_0000

  /** What the underlying write answers: how many bytes of n it took at its k-th call, or a
      negative error. */
  type Answers = (nat, nat) -> int

  function Taken(answers: Answers, k: nat, n: nat): (r: int)
    ensures r <= n
  {
    var a := answers(k, n);
    if a <= n then a else n
  }

  /** Every write takes all it is given. */
  ghost predicate Reliable(answers: Answers) {
    forall k: nat, n: nat :: answers(k, n) >= n
  }

  /** n bytes are whole sectors. */
  predicate Whole(n: nat, size: nat)
    requires size > 0
  {
    n % size == 0
  }

  /** The bytes of the whole sectors in n bytes. */
  function Sectors(n: nat, size: nat): (r: nat)
    requires size > 0
  {
    n / size * size
  }

  class Writer {
    const size: nat
    const answers: Answers
    const buf: array<byte>
    var pos: nat
    var calls: nat
    /** The bytes that reached the disk. */
    var disk: seq<byte>

    ghost predicate Valid()
      reads this
    {
      0 < size <= MAX_SECTOR && buf.Length == size && pos < size
    }

    /** Everything accepted so far: on the disk, or waiting. */
    ghost function Stream(): (r: seq<byte>)
      requires Valid()
      reads this, buf
    {
      disk + buf[..pos]
    }

    /** A drive that states no sector size has sectors of 512 bytes. */
    constructor (sectorSize: nat, answers: Answers)
      requires sectorSize <= MAX_SECTOR
      ensures Valid() && Stream() == [] && disk == [] && calls == 0 && this.answers == answers && fresh(buf)
      ensures size == if sectorSize == 0 then 512 else sectorSize
    {
      size := if sectorSize == 0 then 512 else sectorSize;
      this.answers := answers;
      buf := new byte[if sectorSize == 0 then 512 else sectorSize](_ => 0);
      pos, calls, disk := 0, 0, [];
    }

    /** _write. */
    method Put(data: seq<byte>) returns (written: int)
      modifies this`disk, this`calls
      ensures written == Taken(answers, old(calls), |data|) && calls == old(calls) + 1
      ensures disk == old(disk) + if written > 0 then data[..written] else []
    {
      written := Taken(answers, calls, |data|);
      calls := calls + 1;
      if written > 0 {
        disk := disk + data[..written];
      }
    }

    /** _write of whole sectors. */
    method PutWhole(data: seq<byte>) returns (written: int)
      requires size > 0 && Whole(|data|, size)
      modifies this`disk, this`calls
      ensures written == Taken(answers, old(calls), |data|) && calls == old(calls) + 1
      ensures disk == old(disk) + if written > 0 then data[..written] else []
      ensures Reliable(answers) ==> written == |data| && disk == old(disk) + data
      ensures Reliable(answers) && Whole(old(|disk|), size) ==> Whole(|disk|, size)
    {
      hide Whole;
      if Whole(|disk|, size) { MoreSectors(|disk|, |data|, size); }
      written := Put(data);
    }

    /** The write of a completed sector fell short by just so much that its answer is the count
        the caller waits for. */
    predicate Coincidence(count: nat)
      reads this
    {
      0 < pos < size && pos + count >= size && count < size && Taken(answers, calls, size) == count
    }

    /** sector_write. Its answer is the caller's count exactly when the bytes were accepted, but
        for one coincidence, in which some are lost. */
    method Write(data: seq<byte>) returns (r: int)
      requires Valid()
      modifies this`pos, this`disk, this`calls, buf
      ensures Valid()
      ensures r == |data| ==> (Stream() == old(Stream()) + data <==> !old(Coincidence(|data|)))
      ensures old(Coincidence(|data|)) ==> r == |data| && |disk| == |old(disk)| + |data| && pos == 0
      ensures old(pos) == 0 && 0 < |data| < size && Taken(answers, old(calls), 0) == 0 ==>
        r == |data| && pos == |data| && calls == old(calls) + 1
      ensures Reliable(answers) && |data| <= MAX_COUNT ==>
        r == |data| && Stream() == old(Stream()) + data && (Whole(old(|disk|), size) ==> Whole(|disk|, size))
    {
      hide Whole, Sectors, Taken;
      SmallWhole(|data|, size);
      r := -1;
      if |data| > MAX_COUNT {
        return;
      }
      if pos == 0 && Whole(|data|, size) {
        r := PutWhole(data);
        return;
      }
      var fill := 0;
      if pos > 0 {
        fill := if size - pos < |data| then size - pos else |data|;
        Gather(data[..fill]);
        if pos < size {
          return |data|;
        }
        pos := 0;
        OneSector(size);
        r := PutWhole(buf[..]);
        if r != size {
          return;
        }
      }
      r := WriteSectors(data, fill);
    }

    /** memcpy into the sector buffer. */
    method Gather(data: seq<byte>)
      requires buf.Length == size && pos + |data| <= size
      modifies this`pos, buf
      ensures pos == old(pos) + |data| && buf[..pos] == old(buf[..pos]) + data
    {
      forall k | 0 <= k < |data| { buf[pos + k] := data[k]; }
      pos := pos + |data|;
    }

    /** As many whole sectors as the data holds behind its first bytes, and the rest into the
        buffer. */
    method WriteSectors(data: seq<byte>, fill: nat) returns (r: int)
      requires Valid() && pos == 0 && fill <= |data|
      modifies this`pos, this`disk, this`calls, buf
      ensures Valid()
      ensures r == |data| ==> Stream() == old(disk) + data[fill..]
      ensures r <= |data|
      ensures |data| - fill < size && Taken(answers, old(calls), 0) == 0 ==>
        r == |data| && pos == |data| - fill && calls == old(calls) + 1
      ensures Reliable(answers) ==> r == |data| && (Whole(old(|disk|), size) ==> Whole(|disk|, size))
    {
      hide Whole, Sectors, Taken, Reliable;
      var n := Sectors(|data| - fill, size);
      SectorsFit(|data| - fill, size);
      var written := PutWhole(data[fill..fill + n]);
      if written < 0 {
        return written;
      }
      if written != n {
        return fill + written;
      }
      ghost var there := disk;
      Gather(data[fill + n..]);
      assert buf[..0] == [];
      TwoPieces(old(disk), there, data, fill, n);
      r := |data|;
    }

    lemma TwoPieces(was: seq<byte>, there: seq<byte>, data: seq<byte>, fill: nat, n: nat)
      requires fill + n <= |data| && there == was + data[fill..fill + n]
      ensures there + ([] + data[fill + n..]) == was + data[fill..]
    {
      assert data[fill..fill + n] + data[fill + n..] == data[fill..];
    }

    /** The last, partial sector, written whole; nobody looks at the answer. */
    method Flush()
      requires Valid()
      modifies this`disk, this`calls
      ensures Reliable(answers) ==> old(Stream()) <= disk && |disk| < |old(Stream())| + size
      ensures Reliable(answers) && Whole(old(|disk|), size) ==> Whole(|disk|, size)
    {
      hide Whole;
      if pos != 0 {
        OneSector(size);
        var _ := PutWhole(buf[..]);
      }
    }
  }

  // ---- A whole stream ----

  function Concat(pieces: seq<seq<byte>>): (r: seq<byte>) {
    if pieces == [] then [] else Concat(pieces[..|pieces| - 1]) + pieces[|pieces| - 1]
  }

  predicate Moderate(pieces: seq<seq<byte>>) {
    forall i :: 0 <= i < |pieces| ==> |pieces[i]| <= MAX_COUNT
  }

  /** A decompressed image written piece by piece, with the flush of what is left: the disk holds
      the image, in whole sectors, with less than a sector behind it. */
  method WriteImage(sectorSize: nat, answers: Answers, pieces: seq<seq<byte>>) returns (ok: bool, disk: seq<byte>)
    requires sectorSize <= MAX_SECTOR
    ensures Reliable(answers) && Moderate(pieces) ==> ok
    ensures Reliable(answers) && Moderate(pieces) ==>
      var size := if sectorSize == 0 then 512 else sectorSize;
      Concat(pieces) <= disk && Whole(|disk|, size) && |disk| < |Concat(pieces)| + size
  {
    hide Whole, Concat;
    var w := new Writer(sectorSize, answers);
    ok := true;
    var i := 0;
    NoPieces(w.size);
    assert pieces[..0] == [];
    while ok && i < |pieces|
      invariant w.Valid() && w.answers == answers && w.size == (if sectorSize == 0 then 512 else sectorSize)
      invariant fresh(w) && fresh(w.buf) && i <= |pieces|
      invariant Reliable(answers) && Moderate(pieces) ==>
        ok && w.Stream() == Concat(pieces[..i]) && Whole(|w.disk|, w.size)
      decreases |pieces| - i
    {
      NextPiece(pieces, i);
      var r := w.Write(pieces[i]);
      ok := r == |pieces[i]|;
      i := i + 1;
    }
    assert pieces[..|pieces|] == pieces;
    if ok { w.Flush(); }
    disk := w.disk;
  }

  lemma NoPieces(size: nat)
    requires size > 0
    ensures Concat([]) == [] && Whole(0, size)
  {
  }

  lemma NextPiece(pieces: seq<seq<byte>>, i: nat)
    requires i < |pieces|
    ensures Concat(pieces[..i + 1]) == Concat(pieces[..i]) + pieces[i]
  {
    assert pieces[..i + 1][..i] == pieces[..i];
  }

  /** In the coincidence the answer says that all is well, and as many bytes as were waiting are
      lost. */
  method LossUnnoticed(w: Writer, data: seq<byte>) returns (r: int)
    requires w.Valid() && w.Coincidence(|data|)
    modifies w`pos, w`disk, w`calls, w.buf
    ensures w.Valid() && r == |data|
    ensures |w.Stream()| == |old(w.Stream())| + |data| - old(w.pos) < |old(w.Stream())| + |data|
  {
    r := w.Write(data);
  }

  /** It can be reached: after a write of 412 bytes to a drive that takes 100 at most at a call,
      100 more bytes complete the sector. */
  method CoincidenceReached() returns (w: Writer, r: int)
    ensures fresh(w) && fresh(w.buf) && w.Valid() && r == 412 == |w.Stream()| && w.Coincidence(100)
  {
    w := new Writer(512, (k, n) => 100);
    r := w.Write(seq(412, _ => 0));
  }

  /** Every write takes whole sectors or fails. */
  ghost predicate WholeAnswers(answers: Answers, size: nat)
    requires size > 0
  {
    forall k: nat, n: nat :: Taken(answers, k, n) <= 0 || Whole(Taken(answers, k, n), size)
  }

  /** Then the coincidence never occurs. */
  lemma NoCoincidence(w: Writer, count: nat)
    requires w.Valid() && WholeAnswers(w.answers, w.size)
    ensures !w.Coincidence(count)
  {
    if w.Coincidence(count) { SmallWhole(count, w.size); }
  }

  lemma SmallWhole(n: nat, size: nat)
    requires size > 0
    ensures Whole(n, size) ==> n == 0 || n >= size
  {
  }

  lemma SectorsFit(n: nat, size: nat)
    requires size > 0
    ensures Sectors(n, size) <= n && n - Sectors(n, size) < size && Whole(Sectors(n, size), size)
    ensures Whole(n, size) ==> Sectors(n, size) == n
    ensures n < size ==> Sectors(n, size) == 0
  {
    var q := n / size;
    assert n == size * q + n % size;
    assert q * size == size * q;
    Padding.Remainder(q * size, size, q, 0);
  }

  lemma MoreSectors(a: nat, b: nat, size: nat)
    requires size > 0 && Whole(a, size) && Whole(b, size)
    ensures Whole(a + b, size)
  {
    Padding.Whole(a, b / size, size);
  }

  lemma OneSector(size: nat)
    requires size > 0
    ensures Whole(size, size) && Whole(0, size)
  {
    Padding.Remainder(size, size, 1, 0);
    Padding.Remainder(0, size, 0, 0);
  }
}
