/** The reads of PrefetchRace taken as one step each, which is how the prefetcher of
    installer/internal/oras/repository/upload.go is modelled in Prefetch. */
module PrefetchAtomic {
  import opened Wrappers
  import opened UploadEnv
  import opened PrefetchRace

  datatype AtomicLoop =
    | Resting | Awaiting(offset: nat, size: nat) | Fetching(offset: nat, size: nat)
    | Holding(offset: nat, size: nat, bytes: Bytes) | HandedOut(offset: nat, size: nat, bytes: Bytes)
    | AwaitingLast | Over

  datatype AtomicWorker =
    | NotStarted | Started(offset: nat, size: nat) | Result(offset: nat, size: nat, bytes: Option<Bytes>)

  /** The two threads when a read of the source takes one step and yields exactly its range. */
  datatype Atomic = Atomic(loop: AtomicLoop, worker: AtomicWorker)

  ghost predicate AtomicNext(t: Atomic, t': Atomic, source: Bytes) {
    match t.loop
    case Resting =>
      || WorkerReads(t, t', source)
      || (t' == t.(loop := if t.worker.NotStarted? then Over else AwaitingLast))
      || (&& (if t.worker.NotStarted? then t'.loop.Fetching? else t'.loop.Awaiting?)
          && t'.worker == t.worker && t'.loop.offset + t'.loop.size <= |source|)
    case Awaiting(offset, size) =>
      || WorkerReads(t, t', source)
      || (t.worker.Result? && t.worker.bytes.Some? && t.worker.offset == offset && t.worker.size == size
          && t' == Atomic(Holding(offset, size, t.worker.bytes.value), NotStarted))
      || (t.worker.Result? && t' == Atomic(Fetching(offset, size), NotStarted)
          && !(t.worker.bytes.Some? && t.worker.offset == offset && t.worker.size == size))
    case Fetching(offset, size) =>
      && t.worker.NotStarted? && t'.worker.NotStarted? && offset + size <= |source|
      && (t'.loop == Holding(offset, size, source[offset..offset + size]) || t'.loop == Resting)
    case Holding(offset, size, bytes) =>
      && t'.loop == HandedOut(offset, size, bytes)
      && (t'.worker == t.worker
          || (t'.worker.Started? && t'.worker.offset == offset + size && offset + size + t'.worker.size <= |source|))
    case HandedOut(_, _, _) =>
      WorkerReads(t, t', source) || t' == t.(loop := Resting)
    case AwaitingLast =>
      WorkerReads(t, t', source) || (t.worker.Result? && t' == Atomic(Over, NotStarted))
    case Over => false
  }

  /** The goroutine's read: the whole range at once, or a failure. */
  ghost predicate WorkerReads(t: Atomic, t': Atomic, source: Bytes) {
    && t.worker.Started? && t'.loop == t.loop && t.worker.offset + t.worker.size <= |source|
    && (|| t'.worker == Result(t.worker.offset, t.worker.size,
                               Some(source[t.worker.offset..t.worker.offset + t.worker.size]))
        || t'.worker == Result(t.worker.offset, t.worker.size, None))
  }

  function BytesOf(s: State, file: nat): Bytes {
    if file in s.files then s.files[file] else []
  }

  /** Forgets how far a read has come. */
  function AsAtomic(s: State): Atomic {
    var loop := match s.loop
      case Idle => Resting
      case Draining(offset, size) => Awaiting(offset, size)
      case Preparing(offset, size) => Fetching(offset, size)
      case Reading(spool) => Fetching(spool.offset, spool.size)
      case Fetched(offset, size, file) => Holding(offset, size, BytesOf(s, file))
      case Sending(offset, size, file) => HandedOut(offset, size, BytesOf(s, file))
      case Closing => AwaitingLast
      case Closed => Over;
    var worker := match s.worker
      case NoWorker => NotStarted
      case Launched(offset, size) => Started(offset, size)
      case Copying(spool) => Started(spool.offset, spool.size)
      case Buffered(offset, size, file) =>
        Result(offset, size, if file.Some? then Some(BytesOf(s, file.value)) else None);
    Atomic(loop, worker)
  }

  /** What a step of the two threads is for the machine whose reads take one step. */
  ghost predicate Refines(s: State, s': State, source: Bytes) {
    AsAtomic(s') == AsAtomic(s) || AtomicNext(AsAtomic(s), AsAtomic(s'), source)
  }

  lemma WorkerRefines(s: State, s': State, a: Action, source: Bytes)
    requires Inv(s, source) && Next(s, s', a, source)
    requires a.WorkerSeek? || a.WorkerCopy? || a.WorkerFail? || a.WorkerDone?
    ensures Refines(s, s', source)
  {
    if a.WorkerCopy? { CopyKeepsPlace(s, source, s.worker.spool, a.n); }
  }

  lemma LoopReadRefines(s: State, s': State, a: Action, source: Bytes)
    requires Inv(s, source) && Next(s, s', a, source)
    requires a.LoopSeek? || a.LoopCopy? || a.LoopFail?
    ensures Refines(s, s', source)
  {
    if a.LoopCopy? { CopyKeepsPlace(s, source, s.loop.spool, a.n); }
  }

  lemma HandoverRefines(s: State, s': State, a: Action, source: Bytes)
    requires Inv(s, source) && Next(s, s', a, source)
    requires a.BeginFetch? || a.TakeHit? || a.TakeMiss? || a.Launch? || a.NoLaunch?
    ensures Refines(s, s', source)
  {
  }

  lemma EndRefines(s: State, s': State, a: Action, source: Bytes)
    requires Inv(s, source) && Next(s, s', a, source)
    requires a.Release? || a.BeginClose? || a.EndClose?
    ensures Refines(s, s', source)
  {
  }

  /** Interleaved inside a chunk or not, the two threads do what they would do if every read took
      one step: each step of theirs is one of the atomic machine, or changes nothing there. */
  lemma EveryRunIsAtomic(states: seq<State>, actions: seq<Action>, source: Bytes, i: nat)
    requires IsRun(states, actions, source) && i < |actions|
    ensures AsAtomic(states[0]) == Atomic(Resting, NotStarted)
    ensures Refines(states[i], states[i + 1], source)
  {
    EveryStateKeepsInv(states, actions, source, i);
    var s, s', a := states[i], states[i + 1], actions[i];
    match a {
      case WorkerSeek | WorkerCopy(_) | WorkerFail | WorkerDone => WorkerRefines(s, s', a, source);
      case LoopSeek | LoopCopy(_) | LoopFail => LoopReadRefines(s, s', a, source);
      case Release | BeginClose | EndClose => EndRefines(s, s', a, source);
      case _ => HandoverRefines(s, s', a, source);
    }
  }
}
