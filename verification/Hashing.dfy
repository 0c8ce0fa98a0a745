/** The contexts of hash.c: message bytes are gathered in a block buffer between calls, and the
    padding is written into that buffer in place. */
module Hashing {
  import opened Bytes
  import opened Padding

  const MAX_BLOCKSIZE := 128

  class HashContext {
    const alg: Algorithm
    const buf: array<byte>
    var state: State
    var bytecount: nat
    /** What has been absorbed into the state, and what is gathered in the buffer. */
    ghost var done: seq<byte>
    ghost var tail: seq<byte>

    ghost predicate Holding()
      reads this, buf
    {
      Sound(alg) && buf.Length == MAX_BLOCKSIZE && Blocks(alg, |done|) && |tail| <= alg.block &&
      state == Fold(alg, alg.init, done) && buf[..|tail|] == tail
    }

    ghost function Message(): (r: seq<byte>)
      reads this
    {
      done + tail
    }

    /** Between calls the buffer is not full, and bytecount counts modulo 2^64. */
    ghost predicate Valid()
      reads this, buf
    {
      Holding() && |tail| < alg.block && bytecount == |Message()| % TWO64
    }

    constructor (a: Algorithm)
      requires Sound(a)
      ensures Valid() && Message() == [] && alg == a && fresh(buf)
    {
      alg := a;
      buf := new byte[MAX_BLOCKSIZE](_ => 0);
      state, bytecount, done, tail := a.init, 0, [], [];
    }

    /** memcpy into the buffer behind what is gathered; only the bytes x of it are meant. */
    method Gather(at: nat, copied: seq<byte>, ghost x: seq<byte>)
      requires Holding() && at == |tail| && at + |copied| <= alg.block && x <= copied
      modifies this`tail, buf
      ensures Holding() && tail == old(tail) + x
    {
      forall k | 0 <= k < |copied| { buf[at + k] := copied[k]; }
      tail := tail + x;
      assert buf[..at] == old(buf[..at]);
    }

    /** The block function on the full buffer. */
    method Transform()
      requires Holding() && |tail| == alg.block
      modifies this`state, this`done, this`tail
      ensures Holding() && tail == [] && done == old(done + tail)
    {
      Absorb(alg, done, tail);
      state := alg.transform(state, buf[..alg.block]);
      done, tail := done + tail, [];
    }

    /** The block completed by what it still has room for. */
    method FillBlock(at: nat, x: seq<byte>)
      requires Holding() && at == |tail| && at + |x| == alg.block
      modifies this`state, this`done, this`tail, buf
      ensures Holding() && tail == [] && done == old(done + tail) + x
    {
      hide Fold;
      assert done + (tail + x) == done + tail + x;
      Gather(at, x, x);
      Transform();
    }

    /** The whole blocks of the data from a position on, and the rest into the buffer. */
    method WriteBlocks(data: seq<byte>, from: nat)
      requires Holding() && tail == [] && from <= |data|
      modifies this`state, this`done, this`tail, buf
      ensures Holding() && |tail| < alg.block && done + tail == old(done) + data[from..]
    {
      hide Fold;
      var at := from;
      assert data[from..at] == [];
      while |data| - at >= alg.block
        invariant from <= at <= |data| && Holding() && tail == [] && done == old(done) + data[from..at]
      {
        Absorb(alg, done, data[at..at + alg.block]);
        state := alg.transform(state, data[at..at + alg.block]);
        assert data[from..at] + data[at..at + alg.block] == data[from..at + alg.block];
        done := done + data[at..at + alg.block];
        at := at + alg.block;
      }
      Gather(0, data[at..], data[at..]);
      assert data[from..at] + data[at..] == data[from..];
    }

    /** The rest of a write once it is known to reach the end of a begun block. */
    method WriteThrough(data: seq<byte>, num: nat)
      requires Holding() && num == |tail| < alg.block && (num != 0 ==> alg.block - num <= |data|)
      modifies this`state, this`done, this`tail, buf
      ensures Holding() && |tail| < alg.block && Message() == old(Message()) + data
    {
      hide Fold, Blocks;
      var room := 0;
      if num != 0 {
        room := alg.block - num;
        FillBlock(num, data[..room]);
      }
      WriteBlocks(data, room);
      assert old(done + tail) + data[..room] + data[room..] == old(done + tail) + data;
    }

    /** sha1_write, sha256_write and sha512_write, which differ in their block size only. */
    method ShaWrite(data: seq<byte>)
      requires Valid()
      modifies this`state, this`bytecount, this`done, this`tail, buf
      ensures Valid() && Message() == old(Message()) + data
    {
      hide Fold, Blocks;
      var num := bytecount % alg.block;
      CountPending(alg, |done|, |tail|, |data|);
      bytecount := (bytecount + |data|) % TWO64;
      if num != 0 && |data| < alg.block - num {
        Gather(num, data, data);
      } else {
        WriteThrough(data, num);
      }
    }

    /** md5_write: a chunk too short to fill the block is copied as if it did fill it, with what
        lies behind it in memory. */
    method Md5Write(memory: seq<byte>, len: nat)
      requires Valid() && len <= |memory|
      requires var num := bytecount % alg.block; num != 0 ==> alg.block - num <= |memory|
      modifies this`state, this`bytecount, this`done, this`tail, buf
      ensures Valid() && Message() == old(Message()) + memory[..len]
    {
      hide Fold, Blocks;
      var num := bytecount % alg.block;
      CountPending(alg, |done|, |tail|, len);
      bytecount := (bytecount + len) % TWO64;
      if num != 0 && len < alg.block - num {
        Gather(num, memory[..alg.block - num], memory[..len]);
      } else {
        WriteThrough(memory[..len], num);
      }
    }

    /** One padding byte. */
    method Put(at: nat, b: byte)
      requires Holding() && at == |tail| < alg.block
      modifies this`tail, buf
      ensures Holding() && tail == old(tail) + [b]
    {
      buf[at] := b;
      tail := tail + [b];
      assert buf[..at] == old(buf[..at]);
    }

    /** The n low-order bytes of x, shifted out one by one, in the algorithm's byte order. */
    method Store(at: nat, x: nat, n: nat)
      requires at + n <= buf.Length
      modifies buf
      ensures buf[..] == old(buf[..at]) + Ordered(alg, Low(x, n)) + old(buf[at + n..])
    {
      hide Low, Reversed;
      if alg.bigEndian { StoreBig(at, x, n); } else { StoreLittle(at, x, n); }
    }

    method StoreLittle(at: nat, x: nat, n: nat)
      requires at + n <= buf.Length
      modifies buf
      ensures buf[..] == old(buf[..at]) + Low(x, n) + old(buf[at + n..])
    {
      hide Low;
      ghost var bytes := Low(x, n);
      var rest := x;
      for k := 0 to n
        invariant forall i :: 0 <= i < at || at + n <= i < buf.Length ==> buf[i] == old(buf[i])
        invariant bytes[k..] == Low(rest, n - k)
        invariant forall i :: 0 <= i < k ==> buf[at + i] == bytes[i]
      {
        LowNext(rest, n - k);
        assert bytes[k] == bytes[k..][0] && bytes[k + 1..] == bytes[k..][1..];
        buf[at + k] := rest % 256;
        rest := rest / 256;
      }
    }

    method StoreBig(at: nat, x: nat, n: nat)
      requires at + n <= buf.Length
      modifies buf
      ensures buf[..] == old(buf[..at]) + Reversed(Low(x, n)) + old(buf[at + n..])
    {
      hide Low, Reversed;
      ghost var bytes := Low(x, n);
      var rest := x;
      for k := 0 to n
        invariant forall i :: 0 <= i < at || at + n <= i < buf.Length ==> buf[i] == old(buf[i])
        invariant bytes[k..] == Low(rest, n - k)
        invariant forall i :: at + n - k <= i < at + n ==> buf[i] == bytes[at + n - 1 - i]
      {
        LowNext(rest, n - k);
        assert bytes[k] == bytes[k..][0] && bytes[k + 1..] == bytes[k..][1..];
        buf[at + n - 1 - k] := rest % 256;
        rest := rest / 256;
      }
    }

    /** The message length in bits at the end of the block; the upper half of a 128-bit one
        comes from the top bits of the byte count. */
    method StoreLength(count: nat)
      requires Sound(alg) && buf.Length == MAX_BLOCKSIZE && count < TWO64
      modifies buf
      ensures buf[..] == old(buf[..alg.block - alg.lengthBytes]) + LengthField(alg, count) + old(buf[alg.block..])
    {
      hide Low, Ordered, LengthField;
      LengthHalves(alg, count);
      Store(alg.block - 8, 8 * count % TWO64, 8);
      if alg.lengthBytes == 16 {
        Store(alg.block - 16, count / 0x2000_0000_0000_0000, 8);
      }
    }

    /** The last block, and the digest into the buffer. */
    method Finish(ghost m: seq<byte>, count: nat)
      requires Holding() && |tail| == alg.block - alg.lengthBytes && count < TWO64
      requires done + tail == m + [0x80] + Zeros(ZeroCount(alg, |m|))
      modifies this`state, this`done, this`tail, buf
      ensures buf[..alg.words * alg.wordBytes] == DigestWith(alg, m, count)
    {
      hide Fold, LengthField, Zeros, ZeroCount, Output, Blocks;
      StoreLength(count);
      tail := tail + LengthField(alg, count);
      assert buf[..alg.block] == tail;
      Transform();
      assert done == PaddedWith(alg, m, count);
      WriteOutput();
    }

    /** The chaining words as bytes at the start of the buffer. */
    method WriteOutput()
      requires Sound(alg) && buf.Length == MAX_BLOCKSIZE
      modifies buf
      ensures buf[..alg.words * alg.wordBytes] == Output(alg, state, alg.words)
    {
      hide Low, Ordered, Truncated;
      var p := 0;
      for i := 0 to alg.words
        invariant p == i * alg.wordBytes && buf[..p] == Output(alg, state, i)
      {
        Store(p, Truncated(state[i], alg.wordBytes) as nat, alg.wordBytes);
        p := p + alg.wordBytes;
      }
    }

    /** sha1_final, sha256_final and sha512_final. */
    method ShaFinal()
      requires Valid()
      modifies this`state, this`done, this`tail, buf
      ensures buf[..alg.words * alg.wordBytes] == DigestWith(alg, old(Message()), bytecount)
    {
      hide Fold, Blocks, Zeros, ZeroCount, Gap;
      ghost var m, z := Message(), 0;
      CountPending(alg, |done|, |tail|, 0);
      var pos := bytecount % alg.block;
      ZerosNeeded(alg, |done|, |tail|);
      Put(pos, 0x80);
      pos := pos + 1;
      assert [0x80] + Zeros(0) == [0x80] by { NextZero(0); }
      while pos != alg.block - alg.lengthBytes
        invariant Holding() && |tail| == pos && 0 < pos <= alg.block
        invariant done + tail == m + [0x80] + Zeros(z)
        invariant ZeroCount(alg, |m|) == z + Gap(alg, pos)
        decreases Gap(alg, pos)
      {
        GapNext(alg, pos);
        NextZero(z);
        pos := PadOne(pos);
        z := z + 1;
      }
      GapDone(alg, pos);
      Finish(m, bytecount);
    }

    /** A zero behind the padding so far, in the next block if this one is full. */
    method PadOne(at: nat) returns (pos: nat)
      requires Holding() && |tail| == at && 0 < at <= alg.block
      modifies this`state, this`done, this`tail, buf
      ensures Holding() && |tail| == pos && 0 < pos <= alg.block && pos == at % alg.block + 1
      ensures done + tail == old(done + tail) + [0]
    {
      hide Fold, Blocks;
      pos := at % alg.block;
      if pos == 0 { Transform(); }
      Put(pos, 0);
      pos := pos + 1;
    }

    /** md5_final. */
    method Md5Final()
      requires Valid() && alg.lengthBytes == 8
      modifies this`state, this`done, this`tail, buf
      ensures buf[..alg.words * alg.wordBytes] == DigestWith(alg, old(Message()), bytecount)
    {
      hide Fold, Blocks, Zeros;
      ghost var m := Message();
      CountPending(alg, |done|, |tail|, 0);
      var pos := bytecount % alg.block;
      ZerosNeeded(alg, |done|, |tail|);
      Put(pos, 0x80);
      var count := alg.block - 1 - pos;
      if count < 8 {
        ZerosConcat(count, alg.block - 8);
        Gather(pos + 1, Zeros(count), Zeros(count));
        Transform();
        Gather(0, Zeros(alg.block - 8), Zeros(alg.block - 8));
      } else {
        Gather(pos + 1, Zeros(count - 8), Zeros(count - 8));
      }
      Finish(m, bytecount);
    }
  }

  /** How many bytes are missing from pos to the next place for a length field. */
  function Gap(a: Algorithm, pos: nat): (r: nat)
    requires Sound(a) && pos <= a.block
  {
    var place := a.block - a.lengthBytes;
    if pos <= place then place - pos else a.block - pos + place
  }

  lemma GapNext(a: Algorithm, pos: nat)
    requires Sound(a) && 0 < pos <= a.block && pos != a.block - a.lengthBytes
    ensures pos % a.block + 1 <= a.block && Gap(a, pos) == Gap(a, pos % a.block + 1) + 1
  {
  }

  lemma GapDone(a: Algorithm, pos: nat)
    requires Sound(a) && pos == a.block - a.lengthBytes
    ensures Gap(a, pos) == 0
  {
  }

  lemma NextZero(z: nat)
    ensures Zeros(0) == [] && Zeros(z + 1) == Zeros(z) + [0]
  {
  }

  lemma ZerosNeeded(a: Algorithm, done: nat, tail: nat)
    requires Sound(a) && Blocks(a, done) && tail < a.block
    ensures ZeroCount(a, done + tail) == Gap(a, tail + 1)
  {
    assert (done + tail) % a.block == tail by { if a.block == 64 { } else { } }
  }

  lemma {:induction false} ZerosConcat(x: nat, y: nat)
    ensures Zeros(x) + Zeros(y) == Zeros(x + y)
  {
    if y > 0 {
      ZerosConcat(x, y - 1);
      assert Zeros(x) + (Zeros(y - 1) + [0]) == Zeros(x) + Zeros(y - 1) + [0];
    }
  }

  lemma LowNext(x: nat, n: nat)
    requires n > 0
    ensures Low(x, n)[0] == x % 256 && Low(x, n)[1..] == Low(x / 256, n - 1)
  {
  }

  lemma Absorb(a: Algorithm, x: seq<byte>, b: seq<byte>)
    requires Sound(a) && Blocks(a, |x|) && |b| == a.block
    ensures Blocks(a, |x + b|) && Fold(a, a.init, x + b) == a.transform(Fold(a, a.init, x), b)
  {
    FoldConcat(a, a.init, x, b);
    FoldOne(a, Fold(a, a.init, x), b);
  }

  /** The number of gathered bytes read off the wrapped counter. */
  lemma CountPending(a: Algorithm, done: nat, tail: nat, more: nat)
    requires Sound(a) && Blocks(a, done) && tail < a.block
    ensures (done + tail) % TWO64 % a.block == tail
    ensures ((done + tail) % TWO64 + more) % TWO64 == (done + tail + more) % TWO64
  {
    if a.block == 64 { Pending64(done, tail); } else { Pending128(done, tail); }
  }

  lemma Pending64(done: nat, tail: nat)
    requires done % 64 == 0 && tail < 64
    ensures (done + tail) % TWO64 % 64 == tail
  {
  }

  lemma Pending128(done: nat, tail: nat)
    requires done % 128 == 0 && tail < 128
    ensures (done + tail) % TWO64 % 128 == tail
  {
  }

  // ---- Whole messages ----

  /** A read into a buffer: its first len bytes are new, the rest is whatever was there. */
  datatype Read = Read(memory: seq<byte>, len: nat)
  type Chunk = r: Read | r.len <= |r.memory| witness Read([], 0)

  function Contents(chunks: seq<Chunk>): (r: seq<byte>) {
    if chunks == [] then []
    else
      var c := chunks[|chunks| - 1];
      Contents(chunks[..|chunks| - 1]) + c.memory[..c.len]
  }

  /** The buffers that are read into hold at least a block. */
  predicate Roomy(a: Algorithm, chunks: seq<Chunk>) {
    forall i :: 0 <= i < |chunks| ==> a.block <= |chunks[i].memory|
  }

  /** HashFile: however the message is cut into reads, and whatever lies behind each of them,
      the digest is the digest of the message. */
  method HashFile(a: Algorithm, md5: bool, chunks: seq<Chunk>) returns (digest: seq<byte>)
    requires Sound(a) && (md5 ==> a.lengthBytes == 8)
    requires Roomy(a, chunks) && (a.lengthBytes == 8 || |Contents(chunks)| < TWO64)
    ensures digest == Digest(a, Contents(chunks))
  {
    hide Sound, Digest, DigestWith, Contents;
    var ctx := new HashContext(a);
    NoContents();
    assert chunks[..0] == [];
    for i := 0 to |chunks|
      invariant ctx.Valid() && ctx.alg == a && fresh(ctx) && fresh(ctx.buf)
      invariant ctx.Message() == Contents(chunks[..i])
    {
      NextContents(chunks, i);
      WriteChunk(ctx, md5, chunks[i]);
    }
    assert chunks[..|chunks|] == chunks;
    DigestCounted(a, ctx.Message(), ctx.bytecount);
    if md5 { ctx.Md5Final(); } else { ctx.ShaFinal(); }
    digest := ctx.buf[..a.words * a.wordBytes];
  }

  method WriteChunk(ctx: HashContext, md5: bool, c: Chunk)
    requires ctx.Valid() && ctx.alg.block <= |c.memory|
    modifies ctx, ctx.buf
    ensures ctx.Valid() && ctx.Message() == old(ctx.Message()) + c.memory[..c.len]
  {
    hide Fold;
    if md5 {
      EnoughMemory(ctx.alg, ctx.bytecount);
      ctx.Md5Write(c.memory, c.len);
    } else {
      ctx.ShaWrite(c.memory[..c.len]);
    }
  }

  lemma NoContents()
    ensures Contents([]) == []
  {
  }

  lemma NextContents(chunks: seq<Chunk>, i: nat)
    requires i < |chunks|
    ensures Contents(chunks[..i + 1]) == Contents(chunks[..i]) + chunks[i].memory[..chunks[i].len]
  {
    assert chunks[..i + 1][..i] == chunks[..i];
  }

  lemma EnoughMemory(a: Algorithm, n: nat)
    requires Sound(a)
    ensures a.block > 0 && a.block - n % a.block <= a.block && a.words * a.wordBytes <= MAX_BLOCKSIZE
  {
    if a.wordBytes == 4 { } else { }
  }

  lemma DigestCounted(a: Algorithm, m: seq<byte>, count: nat)
    requires Sound(a) && count == |m| % TWO64 && (a.lengthBytes == 8 || |m| < TWO64)
    ensures DigestWith(a, m, count) == Digest(a, m) && a.words * a.wordBytes <= MAX_BLOCKSIZE
  {
    hide Fold, Output, LengthField, Zeros, ZeroCount;
    EnoughMemory(a, 0);
    CountWraps(a, |m|);
  }
}
