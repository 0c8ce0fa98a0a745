/** The parallel hashing of hash.c as a step system: one reader with three buffers, filled by an
    asynchronous read, and several workers, each with a pair of auto-reset events. Any thread,
    and the read in flight, may take the next step. */
module HashPipeline {
  import opened Bytes

  const NUM_BUFFERS := 3

  /** Where the reader is in its loop. */
  datatype Reader =
    | AwaitRead
    | Switch
    | Launch
    | AwaitReady
    | Publish
    | Signal(next: nat)
    | Test
    | AwaitExit
    | Finished

  /** Where a worker is: Hashing(k) has passed k bytes of its chunk to its digest. */
  datatype Worker = Starting | Waiting | Woken | Hashing(done: nat) | Reporting | Finalised

  /** sizes and buffers are what the reader last read into each buffer; position is the file
      offset of the next read. consumed is what each worker's digest was given. */
  datatype State = State(
    reader: Reader, inFlight: bool, readBuf: nat, procBuf: nat, position: nat,
    buffers: seq<seq<byte>>, sizes: seq<nat>,
    workers: seq<Worker>, dataReady: seq<bool>, threadReady: seq<bool>, consumed: seq<seq<byte>>)

  datatype System = System(file: seq<byte>, bufferSize: nat, threads: nat)

  /** The types of everything: three buffers, one entry per worker. */
  predicate Shaped(c: System, s: State) {
    c.bufferSize > 0 && s.readBuf < NUM_BUFFERS && s.procBuf < NUM_BUFFERS && s.position <= |c.file| &&
    |s.buffers| == |s.sizes| == NUM_BUFFERS && (forall b :: 0 <= b < NUM_BUFFERS ==> |s.buffers[b]| == c.bufferSize) &&
    |s.workers| == |s.dataReady| == |s.threadReady| == |s.consumed| == c.threads &&
    (s.reader.Signal? ==> s.reader.next <= c.threads)
  }

  /** The first read is launched into buffer 0, and buffer 1 pretends to hold something. */
  predicate Init(c: System, s: State) {
    Shaped(c, s) && s.reader == AwaitRead && s.inFlight && s.readBuf == 0 && s.procBuf == 1 && s.position == 0 &&
    s.sizes[1] == 1 &&
    forall w :: 0 <= w < c.threads ==>
      s.workers[w] == Starting && !s.dataReady[w] && !s.threadReady[w] && s.consumed[w] == []
  }

  // ---- The reader's steps ----

  /** The read in flight may change its buffer at any time. */
  predicate Disturb(c: System, s: State, t: State)
    requires Shaped(c, s)
  {
    s.inFlight && |t.buffers| == NUM_BUFFERS && |t.buffers[s.readBuf]| == c.bufferSize &&
    t == s.(buffers := s.buffers[s.readBuf := t.buffers[s.readBuf]])
  }

  /** WaitFileAsync and GetSizeAsync: some of what is left of the file, nothing only at its end. */
  predicate Complete(c: System, s: State, t: State)
    requires Shaped(c, s)
  {
    s.reader == AwaitRead && s.inFlight && |t.sizes| == NUM_BUFFERS && |t.buffers| == NUM_BUFFERS &&
    var b, n := s.readBuf, t.sizes[s.readBuf];
    n <= c.bufferSize && n <= |c.file| - s.position && (n == 0 ==> s.position == |c.file|) &&
    |t.buffers[b]| == c.bufferSize && t.buffers[b][..n] == c.file[s.position..s.position + n] &&
    t == s.(reader := Switch, inFlight := false, position := s.position + n,
            sizes := s.sizes[b := n], buffers := s.buffers[b := t.buffers[b]])
  }

  predicate SwitchBuffer(c: System, s: State, t: State)
    requires Shaped(c, s)
  {
    s.reader == Switch && t == s.(reader := Launch, readBuf := (s.readBuf + 1) % NUM_BUFFERS)
  }

  predicate LaunchRead(c: System, s: State, t: State)
    requires Shaped(c, s)
  {
    s.reader == Launch && t == s.(reader := AwaitReady, inFlight := true)
  }

  /** WaitForMultipleObjects: all the thread_ready events at once, which resets them. */
  predicate AllReady(c: System, s: State, t: State)
    requires Shaped(c, s)
  {
    s.reader == AwaitReady && (forall w :: 0 <= w < c.threads ==> s.threadReady[w]) &&
    t == s.(reader := Publish, threadReady := seq(c.threads, _ => false))
  }

  predicate PublishBuffer(c: System, s: State, t: State)
    requires Shaped(c, s)
  {
    s.reader == Publish &&
    t == s.(reader := Signal(0), procBuf := (s.readBuf + NUM_BUFFERS - 1) % NUM_BUFFERS)
  }

  predicate SignalOne(c: System, s: State, t: State)
    requires Shaped(c, s)
  {
    s.reader.Signal? && s.reader.next < c.threads &&
    t == s.(reader := Signal(s.reader.next + 1), dataReady := s.dataReady[s.reader.next := true])
  }

  predicate SignalledAll(c: System, s: State, t: State)
    requires Shaped(c, s)
  {
    s.reader == Signal(c.threads) && t == s.(reader := Test)
  }

  predicate LoopTest(c: System, s: State, t: State)
    requires Shaped(c, s)
  {
    s.reader == Test && t == s.(reader := if s.sizes[s.procBuf] != 0 then AwaitRead else AwaitExit)
  }

  predicate Exit(c: System, s: State, t: State)
    requires Shaped(c, s)
  {
    s.reader == AwaitExit && (forall w :: 0 <= w < c.threads ==> s.workers[w] == Finalised) &&
    t == s.(reader := Finished)
  }

  // ---- A worker's steps ----

  predicate Start(c: System, s: State, t: State, w: nat)
    requires Shaped(c, s) && w < c.threads
  {
    s.workers[w] == Starting &&
    t == s.(workers := s.workers[w := Waiting], threadReady := s.threadReady[w := true])
  }

  predicate Wake(c: System, s: State, t: State, w: nat)
    requires Shaped(c, s) && w < c.threads
  {
    s.workers[w] == Waiting && s.dataReady[w] &&
    t == s.(workers := s.workers[w := Woken], dataReady := s.dataReady[w := false])
  }

  predicate Look(c: System, s: State, t: State, w: nat)
    requires Shaped(c, s) && w < c.threads
  {
    s.workers[w] == Woken &&
    t == s.(workers := s.workers[w := if s.sizes[s.procBuf] != 0 then Hashing(0) else Finalised])
  }

  /** One byte of hash_write, read from the shared buffer when it gets there. */
  predicate HashByte(c: System, s: State, t: State, w: nat)
    requires Shaped(c, s) && w < c.threads
  {
    s.workers[w].Hashing? && s.workers[w].done < s.sizes[s.procBuf] && s.workers[w].done < c.bufferSize &&
    var k := s.workers[w].done;
    t == s.(workers := s.workers[w := Hashing(k + 1)],
            consumed := s.consumed[w := s.consumed[w] + [s.buffers[s.procBuf][k]]])
  }

  predicate HashEnd(c: System, s: State, t: State, w: nat)
    requires Shaped(c, s) && w < c.threads
  {
    s.workers[w].Hashing? && s.workers[w].done >= s.sizes[s.procBuf] && t == s.(workers := s.workers[w := Reporting])
  }

  predicate Report(c: System, s: State, t: State, w: nat)
    requires Shaped(c, s) && w < c.threads
  {
    s.workers[w] == Reporting &&
    t == s.(workers := s.workers[w := Waiting], threadReady := s.threadReady[w := true])
  }

  predicate ReaderStep(c: System, s: State, t: State)
    requires Shaped(c, s)
  {
    Disturb(c, s, t) || Complete(c, s, t) || SwitchBuffer(c, s, t) || LaunchRead(c, s, t) || AllReady(c, s, t) ||
    PublishBuffer(c, s, t) || SignalOne(c, s, t) || SignalledAll(c, s, t) || LoopTest(c, s, t) || Exit(c, s, t)
  }

  predicate WorkerStep(c: System, s: State, t: State, w: nat)
    requires Shaped(c, s) && w < c.threads
  {
    Start(c, s, t, w) || Wake(c, s, t, w) || Look(c, s, t, w) || HashByte(c, s, t, w) || HashEnd(c, s, t, w) ||
    Report(c, s, t, w)
  }

  ghost predicate Step(c: System, s: State, t: State)
    requires Shaped(c, s)
  {
    ReaderStep(c, s, t) || exists w: nat :: w < c.threads && WorkerStep(c, s, t, w)
  }

  // ---- The invariant ----

  function Before(b: nat): (r: nat) {
    (b + NUM_BUFFERS - 1) % NUM_BUFFERS
  }

  /** Buffer b holds the chunk of the file from start on; only an empty one ends the file. */
  predicate Chunk(c: System, s: State, b: nat, start: nat)
    requires Shaped(c, s) && b < NUM_BUFFERS
  {
    var n := s.sizes[b];
    n <= c.bufferSize && start + n <= |c.file| && s.buffers[b][..n] == c.file[start..start + n] &&
    (n == 0 ==> start == |c.file|)
  }

  /** Where the published chunk ends; before the first one, the start of the file. */
  function End(c: System, s: State, published: bool, start: nat): (r: nat)
    requires Shaped(c, s)
  {
    if published then start + s.sizes[s.procBuf] else 0
  }

  /** What the reader knows at each place of its loop. */
  predicate ReaderOk(c: System, s: State, published: bool, start: nat)
    requires Shaped(c, s)
  {
    var end := End(c, s, published, start);
    (published ==> Chunk(c, s, s.procBuf, start)) &&
    match s.reader
    case AwaitRead =>
      s.inFlight && s.position == end &&
      if published then s.procBuf == Before(s.readBuf) && s.sizes[s.procBuf] != 0 else s.readBuf == 0 && s.procBuf == 1
    case Switch =>
      !s.inFlight && Chunk(c, s, s.readBuf, end) && s.position == end + s.sizes[s.readBuf] &&
      if published then s.procBuf == Before(s.readBuf) && s.sizes[s.procBuf] != 0 else s.readBuf == 0 && s.procBuf == 1
    case Launch => !s.inFlight && ReadAhead(c, s, published, end)
    case AwaitReady => s.inFlight && ReadAhead(c, s, published, end)
    case Publish => s.inFlight && ReadAhead(c, s, published, end)
    case Signal(_) => s.inFlight && published && s.procBuf == Before(s.readBuf) && s.position == end
    case Test => s.inFlight && published && s.procBuf == Before(s.readBuf) && s.position == end
    case AwaitExit => s.inFlight && published && s.procBuf == Before(s.readBuf) && s.sizes[s.procBuf] == 0
    case Finished => s.inFlight && published && s.procBuf == Before(s.readBuf) && s.sizes[s.procBuf] == 0
  }

  /** One chunk is read ahead of the published one, and the next buffer is neither's. */
  predicate ReadAhead(c: System, s: State, published: bool, end: nat)
    requires Shaped(c, s)
  {
    var b := Before(s.readBuf);
    Chunk(c, s, b, end) && s.position == end + s.sizes[b] &&
    if published then s.procBuf == Before(b) && s.sizes[s.procBuf] != 0 else s.readBuf == 1 && s.procBuf == 1
  }

  /** What is known of one worker: which part of the published chunk it has consumed. */
  predicate WorkerOk(c: System, s: State, published: bool, start: nat, w: nat)
    requires Shaped(c, s) && w < c.threads
  {
    var size, x := s.sizes[s.procBuf], s.workers[w];
    (s.reader == Finished ==> x == Finalised) &&
    if s.reader == Publish then
      x == Waiting && !s.threadReady[w] && !s.dataReady[w] && Upto(c, s, w, End(c, s, published, start))
    else if !published then
      !s.dataReady[w] && s.consumed[w] == [] &&
      if s.threadReady[w] then x == Waiting else x == Starting
    else if s.reader.Signal? && w >= s.reader.next then
      x == Waiting && !s.threadReady[w] && !s.dataReady[w] && Upto(c, s, w, start)
    else if s.dataReady[w] then
      x == Waiting && !s.threadReady[w] && Upto(c, s, w, start)
    else
      s.threadReady[w] == (x == Waiting) &&
      match x
      case Starting => false
      case Waiting => size != 0 && Upto(c, s, w, start + size)
      case Woken => Upto(c, s, w, start)
      case Hashing(k) => k <= size && size != 0 && Upto(c, s, w, start + k)
      case Reporting => size != 0 && Upto(c, s, w, start + size)
      case Finalised => size == 0 && Upto(c, s, w, start)
  }

  /** The worker's digest was given exactly the first n bytes of the file. */
  predicate Upto(c: System, s: State, w: nat, n: nat)
    requires Shaped(c, s) && w < c.threads
  {
    n <= |c.file| && s.consumed[w] == c.file[..n]
  }

  predicate Ok(c: System, s: State, published: bool, start: nat) {
    Shaped(c, s) && ReaderOk(c, s, published, start) &&
    forall w :: 0 <= w < c.threads ==> WorkerOk(c, s, published, start, w)
  }

  ghost predicate Invariant(c: System, s: State) {
    exists published: bool, start: nat :: Ok(c, s, published, start)
  }

  lemma InitOk(c: System, s: State)
    requires Init(c, s)
    ensures Ok(c, s, false, 0)
  {
  }

  lemma DisturbOk(c: System, s: State, t: State, published: bool, start: nat)
    requires Ok(c, s, published, start) && Disturb(c, s, t)
    ensures Ok(c, t, published, start)
  {
    DisturbShape(c, s, t);
    DisturbReader(c, s, t, published, start);
    forall w | 0 <= w < c.threads ensures WorkerOk(c, t, published, start, w) {
      DisturbWorker(c, s, t, published, start, w);
    }
  }

  lemma DisturbShape(c: System, s: State, t: State)
    requires Shaped(c, s) && Disturb(c, s, t)
    ensures Shaped(c, t)
  {
  }

  lemma DisturbReader(c: System, s: State, t: State, published: bool, start: nat)
    requires Shaped(c, s) && Shaped(c, t) && ReaderOk(c, s, published, start) && Disturb(c, s, t)
    ensures ReaderOk(c, t, published, start)
  {
    hide Shaped, Chunk;
    if published { OtherChunk(c, s, t, s.procBuf, start); }
    OtherChunk(c, s, t, Before(s.readBuf), End(c, s, published, start));
  }

  lemma OtherChunk(c: System, s: State, t: State, b: nat, start: nat)
    requires Shaped(c, s) && Shaped(c, t) && Disturb(c, s, t) && b < NUM_BUFFERS && b != s.readBuf
    ensures Chunk(c, t, b, start) == Chunk(c, s, b, start)
  {
  }

  lemma DisturbWorker(c: System, s: State, t: State, published: bool, start: nat, w: nat)
    requires Shaped(c, s) && Shaped(c, t) && Disturb(c, s, t) && w < c.threads && WorkerOk(c, s, published, start, w)
    ensures WorkerOk(c, t, published, start, w)
  {
    hide Shaped;
  }

  lemma CompleteOk(c: System, s: State, t: State, published: bool, start: nat)
    requires Ok(c, s, published, start) && Complete(c, s, t)
    ensures Ok(c, t, published, start)
  {
    hide WorkerOk;
    forall w | 0 <= w < c.threads ensures WorkerOk(c, t, published, start, w) {
      CompleteWorker(c, s, t, published, start, w);
    }
  }

  lemma CompleteWorker(c: System, s: State, t: State, published: bool, start: nat, w: nat)
    requires Ok(c, s, published, start) && Complete(c, s, t) && w < c.threads && WorkerOk(c, s, published, start, w)
    requires Shaped(c, t)
    ensures WorkerOk(c, t, published, start, w)
  {
  }

  lemma SwitchOk(c: System, s: State, t: State, published: bool, start: nat)
    requires Ok(c, s, published, start) && SwitchBuffer(c, s, t)
    ensures Ok(c, t, published, start)
  {
    hide WorkerOk;
    forall w | 0 <= w < c.threads ensures WorkerOk(c, t, published, start, w) {
      SwitchWorker(c, s, t, published, start, w);
    }
  }

  lemma SwitchWorker(c: System, s: State, t: State, published: bool, start: nat, w: nat)
    requires Ok(c, s, published, start) && SwitchBuffer(c, s, t) && w < c.threads && WorkerOk(c, s, published, start, w)
    requires Shaped(c, t)
    ensures WorkerOk(c, t, published, start, w)
  {
  }

  lemma LaunchOk(c: System, s: State, t: State, published: bool, start: nat)
    requires Ok(c, s, published, start) && LaunchRead(c, s, t)
    ensures Ok(c, t, published, start)
  {
    forall w | 0 <= w < c.threads ensures WorkerOk(c, t, published, start, w) {
      assert WorkerOk(c, s, published, start, w);
    }
  }

  lemma AllReadyOk(c: System, s: State, t: State, published: bool, start: nat)
    requires Ok(c, s, published, start) && AllReady(c, s, t)
    ensures Ok(c, t, published, start)
  {
    forall w | 0 <= w < c.threads ensures WorkerOk(c, t, published, start, w) {
      assert WorkerOk(c, s, published, start, w);
    }
  }

  lemma PublishOk(c: System, s: State, t: State, published: bool, start: nat)
    requires Ok(c, s, published, start) && PublishBuffer(c, s, t)
    ensures Ok(c, t, true, End(c, s, published, start))
  {
    forall w | 0 <= w < c.threads ensures WorkerOk(c, t, true, End(c, s, published, start), w) {
      assert WorkerOk(c, s, published, start, w);
    }
  }

  lemma SignalOk(c: System, s: State, t: State, published: bool, start: nat)
    requires Ok(c, s, published, start) && (SignalOne(c, s, t) || SignalledAll(c, s, t) || LoopTest(c, s, t) || Exit(c, s, t))
    ensures Ok(c, t, published, start)
  {
    forall w | 0 <= w < c.threads ensures WorkerOk(c, t, published, start, w) {
      assert WorkerOk(c, s, published, start, w);
    }
  }

  /** t is s but for what belongs to worker w. */
  predicate OnlyWorker(c: System, s: State, t: State, w: nat)
    requires Shaped(c, s) && w < c.threads
  {
    Shaped(c, t) &&
    t == s.(workers := s.workers[w := t.workers[w]], dataReady := s.dataReady[w := t.dataReady[w]],
            threadReady := s.threadReady[w := t.threadReady[w]], consumed := s.consumed[w := t.consumed[w]])
  }

  lemma WorkerFrame(c: System, s: State, t: State, published: bool, start: nat, w: nat)
    requires Ok(c, s, published, start) && w < c.threads && OnlyWorker(c, s, t, w) && WorkerOk(c, t, published, start, w)
    ensures Ok(c, t, published, start)
  {
    hide WorkerOk;
    forall v | 0 <= v < c.threads && v != w ensures WorkerOk(c, t, published, start, v) {
      OtherWorker(c, s, t, published, start, w, v);
    }
  }

  lemma OtherWorker(c: System, s: State, t: State, published: bool, start: nat, w: nat, v: nat)
    requires Ok(c, s, published, start) && w < c.threads && OnlyWorker(c, s, t, w)
    requires v < c.threads && v != w && WorkerOk(c, s, published, start, v)
    ensures WorkerOk(c, t, published, start, v)
  {
  }

  lemma StartOk(c: System, s: State, t: State, published: bool, start: nat, w: nat)
    requires Ok(c, s, published, start) && w < c.threads && Start(c, s, t, w)
    ensures OnlyWorker(c, s, t, w) && WorkerOk(c, t, published, start, w)
  {
    assert WorkerOk(c, s, published, start, w);
  }

  lemma WakeOk(c: System, s: State, t: State, published: bool, start: nat, w: nat)
    requires Ok(c, s, published, start) && w < c.threads && Wake(c, s, t, w)
    ensures OnlyWorker(c, s, t, w) && WorkerOk(c, t, published, start, w)
  {
    assert WorkerOk(c, s, published, start, w);
  }

  lemma LookOk(c: System, s: State, t: State, published: bool, start: nat, w: nat)
    requires Ok(c, s, published, start) && w < c.threads && Look(c, s, t, w)
    ensures OnlyWorker(c, s, t, w) && WorkerOk(c, t, published, start, w)
  {
    assert WorkerOk(c, s, published, start, w);
  }

  lemma HashByteOk(c: System, s: State, t: State, published: bool, start: nat, w: nat)
    requires Ok(c, s, published, start) && w < c.threads && HashByte(c, s, t, w)
    ensures OnlyWorker(c, s, t, w) && WorkerOk(c, t, published, start, w)
  {
    assert WorkerOk(c, s, published, start, w);
  }

  lemma HashEndOk(c: System, s: State, t: State, published: bool, start: nat, w: nat)
    requires Ok(c, s, published, start) && w < c.threads && HashEnd(c, s, t, w)
    ensures OnlyWorker(c, s, t, w) && WorkerOk(c, t, published, start, w)
  {
    assert WorkerOk(c, s, published, start, w);
  }

  lemma ReportOk(c: System, s: State, t: State, published: bool, start: nat, w: nat)
    requires Ok(c, s, published, start) && w < c.threads && Report(c, s, t, w)
    ensures OnlyWorker(c, s, t, w) && WorkerOk(c, t, published, start, w)
  {
    assert WorkerOk(c, s, published, start, w);
  }

  lemma WorkerStepOk(c: System, s: State, t: State, published: bool, start: nat, w: nat)
    requires Ok(c, s, published, start) && w < c.threads && WorkerStep(c, s, t, w)
    ensures Ok(c, t, published, start)
  {
    hide Ok, Shaped, WorkerOk, OnlyWorker, Start, Wake, Look, HashByte, HashEnd, Report;
    OkShape(c, s, published, start);
    if Start(c, s, t, w) {
      StartOk(c, s, t, published, start, w);
    } else if Wake(c, s, t, w) {
      WakeOk(c, s, t, published, start, w);
    } else if Look(c, s, t, w) {
      LookOk(c, s, t, published, start, w);
    } else if HashByte(c, s, t, w) {
      HashByteOk(c, s, t, published, start, w);
    } else if HashEnd(c, s, t, w) {
      HashEndOk(c, s, t, published, start, w);
    } else {
      ReportOk(c, s, t, published, start, w);
    }
    WorkerFrame(c, s, t, published, start, w);
  }

  lemma OkShape(c: System, s: State, published: bool, start: nat)
    requires Ok(c, s, published, start)
    ensures Shaped(c, s)
  {
  }

  /** Every step of any thread keeps the invariant. */
  lemma StepKeeps(c: System, s: State, t: State)
    requires Invariant(c, s) && Shaped(c, s) && Step(c, s, t)
    ensures Invariant(c, t)
  {
    hide Ok, Shaped, Disturb, Complete, SwitchBuffer, LaunchRead, AllReady, PublishBuffer, SignalOne;
    hide SignalledAll, LoopTest, Exit, WorkerStep;
    var published: bool, start: nat :| Ok(c, s, published, start);
    if Disturb(c, s, t) {
      DisturbOk(c, s, t, published, start);
    } else if Complete(c, s, t) {
      CompleteOk(c, s, t, published, start);
    } else if SwitchBuffer(c, s, t) {
      SwitchOk(c, s, t, published, start);
    } else if LaunchRead(c, s, t) {
      LaunchOk(c, s, t, published, start);
    } else if AllReady(c, s, t) {
      AllReadyOk(c, s, t, published, start);
    } else if PublishBuffer(c, s, t) {
      PublishOk(c, s, t, published, start);
    } else if SignalOne(c, s, t) || SignalledAll(c, s, t) || LoopTest(c, s, t) || Exit(c, s, t) {
      SignalOk(c, s, t, published, start);
    } else {
      var w: nat :| w < c.threads && WorkerStep(c, s, t, w);
      WorkerStepOk(c, s, t, published, start, w);
    }
  }

  // ---- Runs ----

  /** A run: any sequence of states, each a step after the one before. */
  ghost predicate IsRun(c: System, r: seq<State>) {
    |r| > 0 && Init(c, r[0]) && forall i :: 0 < i < |r| ==> StepAt(c, r, i)
  }

  ghost predicate StepAt(c: System, r: seq<State>, i: nat)
    requires 0 < i < |r|
  {
    Shaped(c, r[i - 1]) && Step(c, r[i - 1], r[i])
  }

  lemma {:induction false} RunKeeps(c: System, r: seq<State>)
    requires IsRun(c, r)
    ensures Shaped(c, r[|r| - 1]) && Invariant(c, r[|r| - 1])
  {
    hide Init, Shaped, Step, Ok;
    if |r| == 1 {
      InitOk(c, r[0]);
      OkShape(c, r[0], false, 0);
    } else {
      var p := r[..|r| - 1];
      forall i | 0 < i < |p| ensures StepAt(c, p, i) {
        assert StepAt(c, r, i);
      }
      assert StepAt(c, r, |r| - 1);
      RunKeeps(c, p);
      StepKeeps(c, p[|p| - 1], r[|r| - 1]);
      var published: bool, start: nat :| Ok(c, r[|r| - 1], published, start);
      OkShape(c, r[|r| - 1], published, start);
    }
  }

  /** A worker that may be looking at the published buffer or its size. */
  predicate Busy(s: State, w: nat)
    requires w < |s.workers|
  {
    s.workers[w].Woken? || s.workers[w].Hashing?
  }

  /** While a worker is at the published chunk, the read in flight goes to another buffer, and
      the reader is not about to publish another one. */
  lemma Separate(c: System, s: State, w: nat)
    requires Shaped(c, s) && Invariant(c, s) && w < c.threads && Busy(s, w)
    ensures (s.inFlight ==> s.readBuf != s.procBuf) && s.reader != Publish
  {
    var published: bool, start: nat :| Ok(c, s, published, start);
    assert WorkerOk(c, s, published, start, w);
  }

  /** What a worker's digest was given is always a beginning of the file. */
  lemma Prefix(c: System, s: State, w: nat)
    requires Shaped(c, s) && Invariant(c, s) && w < c.threads
    ensures s.consumed[w] <= c.file
  {
    var published: bool, start: nat :| Ok(c, s, published, start);
    assert WorkerOk(c, s, published, start, w);
  }

  /** Once the reader has finished, every worker has finalised, and its digest was given the
      file, whole and in order. */
  lemma AllConsumed(c: System, s: State, w: nat)
    requires Shaped(c, s) && Invariant(c, s) && s.reader == Finished && w < c.threads
    ensures s.workers[w] == Finalised && s.consumed[w] == c.file
  {
    var published: bool, start: nat :| Ok(c, s, published, start);
    assert WorkerOk(c, s, published, start, w);
  }

  /** No event is set while it is still set, so no signal is ever lost. */
  lemma NoLostSignal(c: System, s: State, t: State, w: nat)
    requires Shaped(c, s) && Invariant(c, s) && w < c.threads
    ensures Start(c, s, t, w) || Report(c, s, t, w) ==> !s.threadReady[w]
    ensures SignalOne(c, s, t) && w == s.reader.next ==> !s.dataReady[w]
  {
    var published: bool, start: nat :| Ok(c, s, published, start);
    assert WorkerOk(c, s, published, start, w);
  }

  // ---- Progress ----

  /** A worker that the reader waits for can move. */
  lemma WorkerMoves(c: System, s: State, published: bool, start: nat, w: nat) returns (t: State)
    requires Ok(c, s, published, start) && w < c.threads && (s.reader == AwaitReady || s.reader == AwaitExit)
    requires !s.threadReady[w] && s.workers[w] != Finalised
    ensures WorkerStep(c, s, t, w) && t.workers != s.workers
  {
    assert WorkerOk(c, s, published, start, w);
    var x := s.workers[w];
    if x == Starting || x == Reporting {
      t := s.(workers := s.workers[w := Waiting], threadReady := s.threadReady[w := true]);
    } else if x == Waiting {
      t := s.(workers := s.workers[w := Woken], dataReady := s.dataReady[w := false]);
    } else if x == Woken {
      t := s.(workers := s.workers[w := if s.sizes[s.procBuf] != 0 then Hashing(0) else Finalised]);
    } else if x.done < s.sizes[s.procBuf] {
      t := s.(workers := s.workers[w := Hashing(x.done + 1)],
              consumed := s.consumed[w := s.consumed[w] + [s.buffers[s.procBuf][x.done]]]);
    } else {
      t := s.(workers := s.workers[w := Reporting]);
    }
    assert t.workers[w] != s.workers[w];
  }

  /** A read that is waited for can complete. */
  lemma ReadCompletes(c: System, s: State, published: bool, start: nat) returns (t: State)
    requires Ok(c, s, published, start) && s.reader == AwaitRead
    ensures Complete(c, s, t)
  {
    var b, rest := s.readBuf, |c.file| - s.position;
    var n := if rest < c.bufferSize then rest else c.bufferSize;
    var chunk := c.file[s.position..s.position + n] + s.buffers[b][n..];
    t := s.(reader := Switch, inFlight := false, position := s.position + n, sizes := s.sizes[b := n],
            buffers := s.buffers[b := chunk]);
  }

  /** As long as the reader has not finished, some thread can take a step. */
  lemma NoDeadlock(c: System, s: State) returns (t: State)
    requires Shaped(c, s) && Invariant(c, s) && s.reader != Finished
    ensures Step(c, s, t) && (t.reader != s.reader || t.workers != s.workers)
  {
    hide Ok, WorkerOk, ReaderOk, WorkerStep;
    var published: bool, start: nat :| Ok(c, s, published, start);
    match s.reader
    case AwaitRead => t := ReadCompletes(c, s, published, start);
    case Switch => t := s.(reader := Launch, readBuf := (s.readBuf + 1) % NUM_BUFFERS);
    case Launch => t := s.(reader := AwaitReady, inFlight := true);
    case AwaitReady =>
      if w: nat :| w < c.threads && !s.threadReady[w] {
        NotFinal(c, s, published, start, w);
        t := WorkerMoves(c, s, published, start, w);
      } else {
        t := s.(reader := Publish, threadReady := seq(c.threads, _ => false));
      }
    case Publish => t := s.(reader := Signal(0), procBuf := (s.readBuf + NUM_BUFFERS - 1) % NUM_BUFFERS);
    case Signal(i) =>
      t := if i < c.threads then s.(reader := Signal(i + 1), dataReady := s.dataReady[i := true]) else s.(reader := Test);
    case Test => t := s.(reader := if s.sizes[s.procBuf] != 0 then AwaitRead else AwaitExit);
    case AwaitExit =>
      if w: nat :| w < c.threads && s.workers[w] != Finalised {
        NotReady(c, s, published, start, w);
        t := WorkerMoves(c, s, published, start, w);
      } else {
        t := s.(reader := Finished);
      }
  }

  lemma NotFinal(c: System, s: State, published: bool, start: nat, w: nat)
    requires Ok(c, s, published, start) && s.reader == AwaitReady && w < c.threads
    ensures s.workers[w] != Finalised
  {
    assert WorkerOk(c, s, published, start, w);
  }

  lemma NotReady(c: System, s: State, published: bool, start: nat, w: nat)
    requires Ok(c, s, published, start) && s.reader == AwaitExit && w < c.threads && s.workers[w] != Finalised
    ensures !s.threadReady[w]
  {
    assert WorkerOk(c, s, published, start, w);
  }

  // ---- Runs end ----

  /** How many steps a worker still has before it waits again or ends. */
  function Energy(c: System, x: Worker, ready: bool): (r: nat) {
    match x
    case Starting => 1
    case Waiting => if ready then c.bufferSize + 4 else 0
    case Woken => c.bufferSize + 3
    case Hashing(k) => 2 + if k < c.bufferSize then c.bufferSize - k else 0
    case Reporting => 1
    case Finalised => 0
  }

  function TotalEnergy(c: System, s: State, n: nat): (r: nat)
    requires Shaped(c, s) && n <= c.threads
  {
    if n == 0 then 0 else TotalEnergy(c, s, n - 1) + Energy(c, s.workers[n - 1], s.dataReady[n - 1])
  }

  /** The passes of the reader's loop still to begin. */
  function Passes(c: System, s: State): (r: nat)
    requires Shaped(c, s)
  {
    var rest := |c.file| - s.position;
    match s.reader
    case AwaitRead => rest + 1
    case Switch => if s.sizes[s.readBuf] != 0 then rest + 1 else 0
    case Launch => if s.sizes[Before(s.readBuf)] != 0 then rest + 1 else 0
    case AwaitReady => if s.sizes[Before(s.readBuf)] != 0 then rest + 1 else 0
    case Publish => if s.sizes[Before(s.readBuf)] != 0 then rest + 1 else 0
    case Signal(_) => if s.sizes[s.procBuf] != 0 then rest + 1 else 0
    case Test => if s.sizes[s.procBuf] != 0 then rest + 1 else 0
    case _ => 0
  }

  function Phase(c: System, x: Reader): (r: nat) {
    match x
    case AwaitRead => 0
    case Switch => c.threads + 7
    case Launch => c.threads + 6
    case AwaitReady => c.threads + 5
    case Publish => c.threads + 4
    case Signal(i) => 3 + if i < c.threads then c.threads - i else 0
    case Test => 2
    case AwaitExit => 1
    case Finished => 0
  }

  /** The reader's steps still to come, and all steps still to come, at most. */
  function ReaderSteps(c: System, s: State): (r: nat)
    requires Shaped(c, s)
  {
    Passes(c, s) * (c.threads + 8) + Phase(c, s.reader)
  }

  function StepsLeft(c: System, s: State): (r: nat)
    requires Shaped(c, s)
  {
    ReaderSteps(c, s) * (c.bufferSize + 5) + TotalEnergy(c, s, c.threads)
  }

  lemma {:induction false} SameEnergy(c: System, s: State, t: State, n: nat)
    requires Shaped(c, s) && Shaped(c, t) && n <= c.threads && s.workers == t.workers && s.dataReady == t.dataReady
    ensures TotalEnergy(c, s, n) == TotalEnergy(c, t, n)
  {
    if n > 0 { SameEnergy(c, s, t, n - 1); }
  }

  /** Changing one worker changes the total by its own change. */
  lemma {:induction false} OneEnergy(c: System, s: State, t: State, n: nat, w: nat)
    requires Shaped(c, s) && Shaped(c, t) && n <= c.threads && w < c.threads
    requires forall v :: 0 <= v < c.threads && v != w ==> s.workers[v] == t.workers[v] && s.dataReady[v] == t.dataReady[v]
    ensures TotalEnergy(c, t, n) - TotalEnergy(c, s, n) ==
            if w < n then Energy(c, t.workers[w], t.dataReady[w]) - Energy(c, s.workers[w], s.dataReady[w]) else 0
  {
    if n > 0 { OneEnergy(c, s, t, n - 1, w); }
  }

  /** A worker's step uses up some of its energy. */
  lemma WorkerShrinks(c: System, s: State, t: State, published: bool, start: nat, w: nat)
    requires Ok(c, s, published, start) && w < c.threads && WorkerStep(c, s, t, w)
    ensures OnlyWorker(c, s, t, w)
    ensures Energy(c, t.workers[w], t.dataReady[w]) < Energy(c, s.workers[w], s.dataReady[w])
  {
    assert WorkerOk(c, s, published, start, w);
  }

  /** A completed read begins a pass; every other step of the reader moves on in its pass. */
  lemma CompleteShrinks(c: System, s: State, t: State, published: bool, start: nat)
    requires Ok(c, s, published, start) && Complete(c, s, t) && Shaped(c, t)
    ensures Passes(c, t) < Passes(c, s) && Phase(c, t.reader) < c.threads + 8 && Phase(c, s.reader) == 0
  {
  }

  lemma PhaseShrinks(c: System, s: State, t: State, published: bool, start: nat)
    requires Ok(c, s, published, start) && Shaped(c, t)
    requires SwitchBuffer(c, s, t) || LaunchRead(c, s, t) || AllReady(c, s, t) || PublishBuffer(c, s, t) ||
             SignalOne(c, s, t) || SignalledAll(c, s, t) || LoopTest(c, s, t) || Exit(c, s, t)
    ensures Passes(c, t) == Passes(c, s) && Phase(c, t.reader) < Phase(c, s.reader)
  {
    hide WorkerOk, Chunk;
  }

  /** The reader's step, but for the disturbances of the read, brings it nearer its end. */
  lemma ReaderShrinks(c: System, s: State, t: State, published: bool, start: nat)
    requires Ok(c, s, published, start) && ReaderStep(c, s, t) && !Disturb(c, s, t) && Shaped(c, t)
    ensures ReaderSteps(c, t) < ReaderSteps(c, s)
  {
    hide Ok, Shaped, Complete, Disturb, SwitchBuffer, LaunchRead, AllReady, PublishBuffer, SignalOne;
    hide SignalledAll, LoopTest, Exit, Passes, Phase;
    OkShape(c, s, published, start);
    if Complete(c, s, t) {
      CompleteShrinks(c, s, t, published, start);
      FewerTimes(Passes(c, t), Passes(c, s), c.threads + 8);
    } else {
      PhaseShrinks(c, s, t, published, start);
    }
  }

  lemma FewerTimes(a: nat, b: nat, n: nat)
    requires a < b
    ensures a * n + n <= b * n
  {
    var k := b - a - 1;
    assert b * n == a * n + n + k * n;
  }

  /** Every step but a disturbance leaves fewer steps to come; a disturbance costs nothing. */
  lemma StepShrinks(c: System, s: State, t: State)
    requires Shaped(c, s) && Shaped(c, t) && Invariant(c, s) && Step(c, s, t)
    ensures if Disturb(c, s, t) then StepsLeft(c, t) == StepsLeft(c, s) else StepsLeft(c, t) < StepsLeft(c, s)
  {
    hide Ok, Shaped, ReaderStep, WorkerStep, Energy, TotalEnergy, OnlyWorker, ReaderSteps;
    var published: bool, start: nat :| Ok(c, s, published, start);
    if Disturb(c, s, t) {
      DisturbSame(c, s, t);
    } else if ReaderStep(c, s, t) {
      ReaderShrinks(c, s, t, published, start);
      FewerTimes(ReaderSteps(c, t), ReaderSteps(c, s), c.bufferSize + 5);
      ReaderEnergy(c, s, t);
    } else {
      var w: nat :| w < c.threads && WorkerStep(c, s, t, w);
      WorkerShrinks(c, s, t, published, start, w);
      WorkerOnly(c, s, t, w);
    }
  }

  lemma DisturbSame(c: System, s: State, t: State)
    requires Shaped(c, s) && Shaped(c, t) && Disturb(c, s, t)
    ensures StepsLeft(c, t) == StepsLeft(c, s)
  {
    SameEnergy(c, s, t, c.threads);
  }

  /** Signalling one worker is all the energy a step of the reader gives. */
  lemma ReaderEnergy(c: System, s: State, t: State)
    requires Shaped(c, s) && Shaped(c, t) && ReaderStep(c, s, t)
    ensures TotalEnergy(c, t, c.threads) <= TotalEnergy(c, s, c.threads) + c.bufferSize + 4
  {
    if SignalOne(c, s, t) {
      OneEnergy(c, s, t, c.threads, s.reader.next);
    } else {
      SameEnergy(c, s, t, c.threads);
    }
  }

  lemma WorkerOnly(c: System, s: State, t: State, w: nat)
    requires Shaped(c, s) && Shaped(c, t) && w < c.threads && OnlyWorker(c, s, t, w)
    requires Energy(c, t.workers[w], t.dataReady[w]) < Energy(c, s.workers[w], s.dataReady[w])
    ensures ReaderSteps(c, t) == ReaderSteps(c, s) && TotalEnergy(c, t, c.threads) < TotalEnergy(c, s, c.threads)
  {
    OneEnergy(c, s, t, c.threads, w);
  }

  /** How many steps of a run were more than a disturbance of the buffer being read into. */
  ghost function Moves(c: System, r: seq<State>): (u: nat)
    requires IsRun(c, r)
    decreases |r|
  {
    if |r| == 1 then 0
    else
      RunPrefix(c, r);
      Moves(c, r[..|r| - 1]) + if Disturb(c, r[|r| - 2], r[|r| - 1]) then 0 else 1
  }

  lemma RunPrefix(c: System, r: seq<State>)
    requires IsRun(c, r) && |r| > 1
    ensures IsRun(c, r[..|r| - 1]) && Shaped(c, r[|r| - 2]) && StepAt(c, r, |r| - 1)
  {
    hide Init, Shaped, Step;
    var p := r[..|r| - 1];
    forall i | 0 < i < |p| ensures StepAt(c, p, i) {
      assert StepAt(c, r, i);
    }
    assert StepAt(c, r, |r| - 1);
  }

  /** Every run comes to an end: it has at most this many moves, whatever the interleaving. */
  lemma {:induction false} MovesBounded(c: System, r: seq<State>)
    requires IsRun(c, r)
    ensures Shaped(c, r[0]) && Shaped(c, r[|r| - 1])
    ensures Moves(c, r) + StepsLeft(c, r[|r| - 1]) <= StepsLeft(c, r[0])
  {
    hide Init, Shaped, Step, Disturb, StepsLeft, Invariant;
    RunKeeps(c, r);
    if |r| > 1 {
      RunPrefix(c, r);
      var p := r[..|r| - 1];
      RunKeeps(c, p);
      MovesBounded(c, p);
      StepShrinks(c, r[|r| - 2], r[|r| - 1]);
    } else {
      assert Moves(c, r) == 0;
    }
  }
}
