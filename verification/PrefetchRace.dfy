/** The push loop and the prefetch goroutine of installer/internal/oras/repository/upload.go as
    two threads over one source with one seek position. Every step below is atomic; reads move
    any number of bytes at a time, so the two threads interleave inside a chunk. */
module PrefetchRace {
  import opened Wrappers
  import opened UploadEnv

  /** A spool in progress: which range, into which file, and how much of it is copied. */
  datatype Spool = Spool(offset: nat, size: nat, file: nat, copied: nat)

  datatype Loop =
    | Idle                                     // between two chunks
    | Draining(offset: nat, size: nat)         // fetch waits for the pending prefetch
    | Preparing(offset: nat, size: nat)        // fetch is about to read the source itself
    | Reading(spool: Spool)                    // and is reading it
    | Fetched(offset: nat, size: nat, file: nat)   // about to start the next prefetch
    | Sending(offset: nat, size: nat, file: nat)   // the chunk is handed out
    | Closing                                  // close waits for the pending prefetch
    | Closed

  datatype Worker =
    | NoWorker
    | Launched(offset: nat, size: nat)
    | Copying(spool: Spool)
    | Buffered(offset: nat, size: nat, file: Option<nat>)  // the result sits in the channel

  datatype State = State(loop: Loop, worker: Worker, cursor: int, files: map<nat, Bytes>, nextFile: nat)

  datatype Action =
    | BeginFetch(offset: nat, size: nat)
    | TakeHit | TakeMiss
    | LoopSeek | LoopCopy(n: nat) | LoopFail
    | Launch(ahead: nat) | NoLaunch
    | Release
    | BeginClose | EndClose
    | WorkerSeek | WorkerCopy(n: nat) | WorkerFail | WorkerDone

  const INITIAL := State(Idle, NoWorker, 0, map[], 0)

  function WithoutFile(s: State, file: Option<nat>): map<nat, Bytes> {
    if file.Some? then s.files - {file.value} else s.files
  }

  /** What a copy of n bytes from the shared position appends. */
  function Appended(s: State, source: Bytes, spool: Spool, n: nat): map<nat, Bytes>
    requires spool.file in s.files && 0 <= s.cursor && s.cursor + n <= |source|
  {
    s.files[spool.file := s.files[spool.file] + source[s.cursor..s.cursor + n]]
  }

  predicate CanCopy(s: State, source: Bytes, spool: Spool, n: nat) {
    && spool.file in s.files && 0 <= s.cursor && s.cursor + n <= |source| && spool.copied + n <= spool.size
  }

  predicate Next(s: State, s': State, a: Action, source: Bytes) {
    match a
    case BeginFetch(offset, size) =>
      && s.loop.Idle? && 0 < size && offset + size <= |source|
      && s' == s.(loop := if s.worker.NoWorker? then Preparing(offset, size) else Draining(offset, size))
    case TakeHit =>
      && s.loop.Draining? && s.worker.Buffered? && s.worker.file.Some?
      && s.worker.offset == s.loop.offset && s.worker.size == s.loop.size
      && s' == s.(loop := Fetched(s.loop.offset, s.loop.size, s.worker.file.value), worker := NoWorker)
    case TakeMiss =>
      && s.loop.Draining? && s.worker.Buffered?
      && !(s.worker.file.Some? && s.worker.offset == s.loop.offset && s.worker.size == s.loop.size)
      && s' == s.(loop := Preparing(s.loop.offset, s.loop.size), worker := NoWorker,
                  files := WithoutFile(s, s.worker.file))
    case LoopSeek =>
      && s.loop.Preparing?
      && s' == s.(loop := Reading(Spool(s.loop.offset, s.loop.size, s.nextFile, 0)), cursor := s.loop.offset,
                  files := s.files[s.nextFile := []], nextFile := s.nextFile + 1)
    case LoopCopy(n) =>
      && s.loop.Reading? && CanCopy(s, source, s.loop.spool, n)
      && var spool := s.loop.spool.(copied := s.loop.spool.copied + n);
         s' == s.(cursor := s.cursor + n, files := Appended(s, source, s.loop.spool, n),
                  loop := if spool.copied < spool.size then Reading(spool)
                          else Fetched(spool.offset, spool.size, spool.file))
    case LoopFail =>
      && (s.loop.Preparing? || s.loop.Reading?)
      && s' == s.(loop := Idle, files := if s.loop.Reading? then s.files - {s.loop.spool.file} else s.files)
    case Launch(ahead) =>
      && s.loop.Fetched? && 0 < ahead && s.loop.offset + s.loop.size + ahead <= |source|
      && s' == s.(loop := Sending(s.loop.offset, s.loop.size, s.loop.file),
                  worker := Launched(s.loop.offset + s.loop.size, ahead))
    case NoLaunch =>
      && s.loop.Fetched? && s' == s.(loop := Sending(s.loop.offset, s.loop.size, s.loop.file))
    case Release =>
      && s.loop.Sending? && s' == s.(loop := Idle, files := s.files - {s.loop.file})
    case BeginClose =>
      && s.loop.Idle? && s' == s.(loop := if s.worker.NoWorker? then Closed else Closing)
    case EndClose =>
      && s.loop.Closing? && s.worker.Buffered?
      && s' == s.(loop := Closed, worker := NoWorker, files := WithoutFile(s, s.worker.file))
    case WorkerSeek =>
      && s.worker.Launched?
      && s' == s.(worker := Copying(Spool(s.worker.offset, s.worker.size, s.nextFile, 0)), cursor := s.worker.offset,
                  files := s.files[s.nextFile := []], nextFile := s.nextFile + 1)
    case WorkerCopy(n) =>
      && s.worker.Copying? && CanCopy(s, source, s.worker.spool, n)
      && s' == s.(cursor := s.cursor + n, files := Appended(s, source, s.worker.spool, n),
                  worker := Copying(s.worker.spool.(copied := s.worker.spool.copied + n)))
    case WorkerFail =>
      && (s.worker.Launched? || s.worker.Copying?)
      && s' == (if s.worker.Launched? then s.(worker := Buffered(s.worker.offset, s.worker.size, None))
                else s.(worker := Buffered(s.worker.spool.offset, s.worker.spool.size, None),
                        files := s.files - {s.worker.spool.file}))
    case WorkerDone =>
      && s.worker.Copying? && s.worker.spool.copied == s.worker.spool.size
      && s' == s.(worker := Buffered(s.worker.spool.offset, s.worker.spool.size, Some(s.worker.spool.file)))
  }

  // ----- the invariant -----

  /** The file a thread works on or hands over. */
  function LoopFile(s: State): set<nat> {
    match s.loop
    case Reading(spool) => {spool.file}
    case Fetched(_, _, file) => {file}
    case Sending(_, _, file) => {file}
    case _ => {}
  }

  function WorkerFile(s: State): set<nat> {
    match s.worker
    case Copying(spool) => {spool.file}
    case Buffered(_, _, Some(file)) => {file}
    case _ => {}
  }

  ghost predicate FileHolds(s: State, source: Bytes, file: nat, offset: nat, size: nat) {
    offset + size <= |source| && file in s.files && s.files[file] == source[offset..offset + size]
  }

  /** The source stands exactly where this spool will go on. */
  ghost predicate InPlace(s: State, source: Bytes, spool: Spool) {
    && spool.copied <= spool.size && spool.offset + spool.size <= |source|
    && s.cursor == spool.offset + spool.copied
    && FileHolds(s, source, spool.file, spool.offset, spool.copied)
  }

  ghost predicate LoopUsesSource(s: State) {
    s.loop.Preparing? || s.loop.Reading?
  }

  ghost predicate WorkerUsesSource(s: State) {
    s.worker.Launched? || s.worker.Copying?
  }

  /** The push loop waits for the pending prefetch. */
  ghost predicate Waits(s: State) {
    s.loop.Draining? || s.loop.Closing?
  }

  ghost predicate Inv(s: State, source: Bytes) {
    && !(LoopUsesSource(s) && WorkerUsesSource(s))
    && (LoopUsesSource(s) || s.loop.Fetched? || s.loop.Closed? ==> s.worker.NoWorker?)
    && (Waits(s) ==> !s.worker.NoWorker?)
    && s.files.Keys == LoopFile(s) + WorkerFile(s) && LoopFile(s) !! WorkerFile(s)
    && (forall f :: f in s.files ==> f < s.nextFile)
    && (match s.loop
        case Draining(offset, size) => 0 < size && offset + size <= |source|
        case Preparing(offset, size) => 0 < size && offset + size <= |source|
        case Reading(spool) => InPlace(s, source, spool)
        case Fetched(offset, size, file) => FileHolds(s, source, file, offset, size)
        case Sending(offset, size, file) => FileHolds(s, source, file, offset, size)
        case _ => true)
    && (match s.worker
        case Launched(offset, size) => offset + size <= |source|
        case Copying(spool) => InPlace(s, source, spool)
        case Buffered(offset, size, Some(file)) => FileHolds(s, source, file, offset, size)
        case _ => true)
  }

  lemma CopyKeepsPlace(s: State, source: Bytes, spool: Spool, n: nat)
    requires InPlace(s, source, spool) && CanCopy(s, source, spool, n)
    ensures Appended(s, source, spool, n)[spool.file] == source[spool.offset..spool.offset + spool.copied + n]
  {
  }

  lemma WorkerSeekKeepsInv(s: State, s': State, a: Action, source: Bytes)
    requires Inv(s, source) && Next(s, s', a, source) && a.WorkerSeek?
    ensures Inv(s', source)
  {
  }

  lemma WorkerCopyKeepsInv(s: State, s': State, a: Action, source: Bytes)
    requires Inv(s, source) && Next(s, s', a, source) && a.WorkerCopy?
    ensures Inv(s', source)
  {
    CopyKeepsPlace(s, source, s.worker.spool, a.n);
  }

  lemma WorkerFailKeepsInv(s: State, s': State, a: Action, source: Bytes)
    requires Inv(s, source) && Next(s, s', a, source) && a.WorkerFail?
    ensures Inv(s', source)
  {
  }

  lemma WorkerDoneKeepsInv(s: State, s': State, a: Action, source: Bytes)
    requires Inv(s, source) && Next(s, s', a, source) && a.WorkerDone?
    ensures Inv(s', source)
  {
  }

  lemma LoopSeekKeepsInv(s: State, s': State, a: Action, source: Bytes)
    requires Inv(s, source) && Next(s, s', a, source) && a.LoopSeek?
    ensures Inv(s', source)
  {
  }

  lemma LoopCopyKeepsInv(s: State, s': State, a: Action, source: Bytes)
    requires Inv(s, source) && Next(s, s', a, source) && a.LoopCopy?
    ensures Inv(s', source)
  {
    CopyKeepsPlace(s, source, s.loop.spool, a.n);
  }

  lemma LoopFailKeepsInv(s: State, s': State, a: Action, source: Bytes)
    requires Inv(s, source) && Next(s, s', a, source) && a.LoopFail?
    ensures Inv(s', source)
  {
  }

  lemma NextKeepsInv(s: State, s': State, a: Action, source: Bytes)
    requires Inv(s, source) && Next(s, s', a, source)
    ensures Inv(s', source)
  {
    match a {
      case WorkerSeek => WorkerSeekKeepsInv(s, s', a, source);
      case WorkerCopy(_) => WorkerCopyKeepsInv(s, s', a, source);
      case WorkerFail => WorkerFailKeepsInv(s, s', a, source);
      case WorkerDone => WorkerDoneKeepsInv(s, s', a, source);
      case LoopSeek => LoopSeekKeepsInv(s, s', a, source);
      case LoopCopy(_) => LoopCopyKeepsInv(s, s', a, source);
      case LoopFail => LoopFailKeepsInv(s, s', a, source);
      case _ =>
    }
  }

  // ----- every run -----

  /** A run: any interleaving of the two threads, from the prefetcher's creation. */
  ghost predicate IsRun(states: seq<State>, actions: seq<Action>, source: Bytes) {
    && |states| == |actions| + 1 && states[0] == INITIAL
    && forall i :: 0 <= i < |actions| ==> Next(states[i], states[i + 1], actions[i], source)
  }

  lemma {:induction false} EveryStateKeepsInv(states: seq<State>, actions: seq<Action>, source: Bytes, i: nat)
    requires IsRun(states, actions, source) && i < |states|
    ensures Inv(states[i], source)
  {
    if i > 0 {
      EveryStateKeepsInv(states, actions, source, i - 1);
      NextKeepsInv(states[i - 1], states[i], actions[i - 1], source);
    }
  }

  /** In every state of every run the source has at most one reader, a chunk handed out holds
      exactly the bytes asked for, at most two temp files exist, and closing leaves none. */
  lemma RaceFree(states: seq<State>, actions: seq<Action>, source: Bytes, i: nat)
    requires IsRun(states, actions, source) && i < |states|
    ensures !(LoopUsesSource(states[i]) && WorkerUsesSource(states[i]))
    ensures states[i].loop.Sending? ==>
              var sending := states[i].loop; FileHolds(states[i], source, sending.file, sending.offset, sending.size)
    ensures |states[i].files| <= 2
    ensures states[i].loop.Closed? ==> states[i].files == map[] && states[i].worker.NoWorker?
  {
    EveryStateKeepsInv(states, actions, source, i);
    var s := states[i];
    var files := LoopFile(s) + WorkerFile(s);
    assert |LoopFile(s)| <= 1 && |WorkerFile(s)| <= 1;
    assert |files| <= |LoopFile(s)| + |WorkerFile(s)|;
    assert |s.files| == |s.files.Keys| == |files|;
  }

  /** The range handed out is the range of the fetch that handed it out: between beginning a
      fetch and sending, the range never changes. */
  lemma FetchServesItsRange(s: State, s': State, a: Action, source: Bytes)
    requires Inv(s, source) && Next(s, s', a, source)
    ensures Range(s).Some? && Range(s').Some? ==> Range(s') == Range(s)
    ensures Range(s).None? && Range(s').Some? ==> a.BeginFetch? && Range(s') == Some((a.offset, a.size))
  {
  }

  /** The range the loop is fetching or sending. */
  function Range(s: State): Option<(nat, nat)> {
    match s.loop
    case Draining(offset, size) => Some((offset, size))
    case Preparing(offset, size) => Some((offset, size))
    case Reading(spool) => Some((spool.offset, spool.size))
    case Fetched(offset, size, _) => Some((offset, size))
    case Sending(offset, size, _) => Some((offset, size))
    case _ => None
  }

  /** Draining is what keeps the readers apart: had fetch gone on to read while a prefetch was
      under way, a chunk of the wrong bytes could be handed out. */
  lemma WithoutDrainingTheBytesMix(source: Bytes) returns (s: State, s1: State, s2: State, s3: State)
    requires |source| == 2 && source[0] != source[1]
    ensures s.loop.Preparing? && WorkerUsesSource(s)
    ensures Next(s, s1, LoopSeek, source) && Next(s1, s2, WorkerSeek, source) && Next(s2, s3, LoopCopy(1), source)
    ensures s3.loop.Fetched? && !FileHolds(s3, source, s3.loop.file, s3.loop.offset, s3.loop.size)
  {
    s := State(Preparing(0, 1), Launched(1, 1), 0, map[], 0);
    s1 := s.(loop := Reading(Spool(0, 1, 0, 0)), files := map[0 := []], nextFile := 1);
    s2 := s1.(worker := Copying(Spool(1, 1, 1, 0)), cursor := 1, files := s1.files[1 := []], nextFile := 2);
    s3 := s2.(cursor := 2, files := Appended(s2, source, s2.loop.spool, 1), loop := Fetched(0, 1, 0));
    assert s3.files[0] == [source[1]] && source[0..1] == [source[0]];
  }

  // ----- waiting ends -----

  /** How many more steps the goroutine can take until its result is in the channel. */
  function WorkerSteps(s: State): nat {
    match s.worker
    case NoWorker => 0
    case Launched(_, size) => size + 2
    case Copying(spool) => if spool.copied <= spool.size then spool.size - spool.copied + 1 else 0
    case Buffered(_, _, _) => 0
  }

  /** While the loop waits, every step either ends the wait or brings the result closer, copies
      of no bytes at all aside. */
  lemma WaitingGetsCloser(s: State, s': State, a: Action, source: Bytes)
    requires Inv(s, source) && Waits(s) && Next(s, s', a, source)
    ensures !Waits(s') || (s'.loop == s.loop && WorkerSteps(s') <= WorkerSteps(s))
    ensures !Waits(s') || a == WorkerCopy(0) || WorkerSteps(s') < WorkerSteps(s)
  {
  }

  /** And there always is such a step, one that is no failure. */
  lemma WaitingIsNeverStuck(s: State, source: Bytes) returns (a: Action, s': State)
    requires Inv(s, source) && Waits(s)
    ensures Next(s, s', a, source) && (!Waits(s') || WorkerSteps(s') < WorkerSteps(s))
    ensures a != WorkerFail && a != LoopFail
  {
    match s.worker {
      case Launched(offset, size) =>
        a := WorkerSeek;
        s' := s.(worker := Copying(Spool(offset, size, s.nextFile, 0)), cursor := offset,
                 files := s.files[s.nextFile := []], nextFile := s.nextFile + 1);
      case Copying(spool) =>
        if spool.copied < spool.size {
          a := WorkerCopy(1);
          s' := s.(cursor := s.cursor + 1, files := Appended(s, source, spool, 1),
                   worker := Copying(spool.(copied := spool.copied + 1)));
        } else {
          a, s' := WorkerDone, s.(worker := Buffered(spool.offset, spool.size, Some(spool.file)));
        }
      case Buffered(offset, size, file) =>
        if s.loop.Closing? {
          a, s' := EndClose, s.(loop := Closed, worker := NoWorker, files := WithoutFile(s, file));
        } else if file.Some? && offset == s.loop.offset && size == s.loop.size {
          a, s' := TakeHit, s.(loop := Fetched(offset, size, file.value), worker := NoWorker);
        } else {
          a := TakeMiss;
          s' := s.(loop := Preparing(s.loop.offset, s.loop.size), worker := NoWorker, files := WithoutFile(s, file));
        }
    }
  }

  // ----- a fetch gets to its end -----

  /** How many more steps the loop needs for the range it fetches. */
  function LoopSteps(s: State): nat {
    match s.loop
    case Preparing(_, size) => size + 2
    case Reading(spool) => if spool.copied <= spool.size then spool.size - spool.copied + 1 else 0
    case _ => 0
  }

  /** Any range of the source can be asked for. */
  lemma AnyRangeCanBeFetched(s: State, offset: nat, size: nat, source: Bytes) returns (s': State)
    requires s.loop.Idle? && 0 < size && offset + size <= |source|
    ensures Next(s, s', BeginFetch(offset, size), source) && Range(s') == Some((offset, size))
    ensures s'.loop.Preparing? || Waits(s')
  {
    s' := s.(loop := if s.worker.NoWorker? then Preparing(offset, size) else Draining(offset, size));
  }

  /** While the loop reads, a step is open to it that brings its range closer or hands it out; and
      the reading may fail. */
  lemma FetchGoesOn(s: State, source: Bytes) returns (a: Action, s': State, failed: State)
    requires Inv(s, source) && (s.loop.Preparing? || s.loop.Reading?)
    ensures Next(s, s', a, source) && Range(s') == Range(s) && !a.LoopFail?
    ensures s'.loop.Fetched? || (s'.loop.Reading? && LoopSteps(s') < LoopSteps(s))
    ensures Next(s, failed, LoopFail, source) && failed.loop.Idle?
  {
    match s.loop {
      case Preparing(offset, size) =>
        a := LoopSeek;
        s' := s.(loop := Reading(Spool(offset, size, s.nextFile, 0)), cursor := offset,
                 files := s.files[s.nextFile := []], nextFile := s.nextFile + 1);
        failed := s.(loop := Idle);
      case Reading(spool) =>
        var n := if spool.copied < spool.size then 1 else 0;
        var further := spool.(copied := spool.copied + n);
        a := LoopCopy(n);
        s' := s.(cursor := s.cursor + n, files := Appended(s, source, spool, n),
                 loop := if further.copied < further.size then Reading(further)
                         else Fetched(spool.offset, spool.size, spool.file));
        failed := s.(loop := Idle, files := s.files - {spool.file});
    }
  }

  /** Whatever is left of the source after a chunk can be read ahead, all of it or less. */
  lemma TheRestCanBeReadAhead(s: State, ahead: nat, source: Bytes)
    requires s.loop.Fetched? && 0 < ahead
    ensures (exists s' :: Next(s, s', Launch(ahead), source)) <==> s.loop.offset + s.loop.size + ahead <= |source|
  {
    if s.loop.offset + s.loop.size + ahead <= |source| {
      var s' := s.(loop := Sending(s.loop.offset, s.loop.size, s.loop.file),
                   worker := Launched(s.loop.offset + s.loop.size, ahead));
      assert Next(s, s', Launch(ahead), source);
    }
  }
}
