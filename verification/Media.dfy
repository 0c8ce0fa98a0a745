/** Block devices as badblocks.c meets them: any number of blocks may be taken at a call, what is
    read may be anything, and different block numbers may lead to the same storage. */
module Media {
  import opened Bytes

  datatype Option<T> = None | Some(value: T)

  /** How a device behaves: which cell a block number leads to, how many blocks a write or a
      read at a moment gets through, what a write that fails leaves in the cells of the other
      blocks it was for, and what a read gives instead of the cell's content. */
  datatype Medium = Medium(cellOf: nat -> nat, written: (nat, nat, nat) -> nat, fetched: (nat, nat, nat) -> nat,
                           spoilt: (nat, nat) -> Option<seq<byte>>, noise: (nat, nat) -> Option<seq<byte>>)

  type Cells = map<nat, seq<byte>>

  /** A call to the device: blocks start to start + n, of which got went through. */
  datatype Call = Call(reading: bool, start: nat, n: nat, got: nat)

  function Least(a: nat, b: nat): (r: nat) {
    if a < b then a else b
  }

  function Holds(cells: Cells, cell: nat): (r: seq<byte>) {
    if cell in cells then cells[cell] else []
  }

  /** The cells after writing blocks one after the other from start on. */
  function Stored(m: Medium, cells: Cells, start: nat, data: seq<seq<byte>>): (r: Cells) {
    if data == [] then cells
    else
      var n := |data| - 1;
      Stored(m, cells, start, data[..n])[m.cellOf(start + n) := data[n]]
  }

  /** The cells after a write at a moment has failed for the blocks from lo up to hi: any of them
      may have been changed. */
  function Spoilt(m: Medium, cells: Cells, moment: nat, lo: nat, hi: nat): (r: Cells) {
    if hi <= lo then cells
    else
      var less := Spoilt(m, cells, moment, lo, hi - 1);
      if m.spoilt(moment, hi - 1).Some? then less[m.cellOf(hi - 1) := m.spoilt(moment, hi - 1).value] else less
  }

  /** What reading block b at a moment gives. */
  function Seen(m: Medium, cells: Cells, moment: nat, b: nat): (r: seq<byte>) {
    if m.noise(moment, b).Some? then m.noise(moment, b).value else Holds(cells, m.cellOf(b))
  }

  /** Every call goes through, and reads give back the cells. */
  ghost predicate ErrorFree(m: Medium) {
    (forall t: nat, b: nat, n: nat :: m.written(t, b, n) >= n) &&
    (forall t: nat, b: nat, n: nat :: m.fetched(t, b, n) >= n) &&
    (forall t: nat, b: nat :: m.noise(t, b).None?)
  }

  class Device {
    const m: Medium
    var cells: Cells
    var log: seq<Call>

    constructor (m: Medium)
      ensures this.m == m && log == []
    {
      this.m := m;
      cells, log := map[], [];
    }

    /** write_sectors: the number of whole blocks written. */
    method Write(start: nat, buffer: array<seq<byte>>, n: nat) returns (got: nat)
      requires n <= buffer.Length
      modifies this`cells, this`log
      ensures got == Least(m.written(|old(log)|, start, n), n) <= n
      ensures log == old(log) + [Call(false, start, n, got)]
      ensures cells == Spoilt(m, Stored(m, old(cells), start, buffer[..got]), |old(log)|, start + got, start + n)
    {
      hide Spoilt;
      got := Least(m.written(|log|, start, n), n);
      for k := 0 to got
        invariant cells == Stored(m, old(cells), start, buffer[..k]) && log == old(log)
      {
        assert buffer[..k + 1][..k] == buffer[..k];
        cells := cells[m.cellOf(start + k) := buffer[k]];
      }
      Spoil(start + got, start + n);
      log := log + [Call(false, start, n, got)];
    }

    /** What the part of a write that failed does. */
    method Spoil(lo: nat, hi: nat)
      requires lo <= hi
      modifies this`cells
      ensures cells == Spoilt(m, old(cells), |log|, lo, hi)
    {
      for b := lo to hi
        invariant cells == Spoilt(m, old(cells), |log|, lo, b)
      {
        if m.spoilt(|log|, b).Some? {
          cells := cells[m.cellOf(b) := m.spoilt(|log|, b).value];
        }
      }
    }

    /** read_sectors: the whole blocks read. */
    method Read(start: nat, n: nat) returns (got: nat, data: seq<seq<byte>>)
      modifies this`log
      ensures got == Least(m.fetched(|old(log)|, start, n), n) <= n
      ensures log == old(log) + [Call(true, start, n, got)]
      ensures |data| == got && forall k :: 0 <= k < got ==> data[k] == Seen(m, cells, |old(log)|, start + k)
    {
      got := Least(m.fetched(|log|, start, n), n);
      data := [];
      for k := 0 to got
        invariant |data| == k && log == old(log)
        invariant forall j :: 0 <= j < k ==> data[j] == Seen(m, cells, |old(log)|, start + j)
      {
        data := data + [Seen(m, cells, |log|, start + k)];
      }
      log := log + [Call(true, start, n, got)];
    }
  }
}
