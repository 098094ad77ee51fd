/** The chunk prefetcher of installer/internal/oras/repository/upload.go:27-229, with the
    goroutine's read taken as one step: PrefetchRace shows that it never overlaps another read,
    and PrefetchAtomic that an interleaved read does what a read in one step does. */
module Prefetch {
  import opened Wrappers
  import opened UploadEnv

  datatype ChunkContent = Direct(offset: nat, size: nat) | Spooled(file: nat, bytes: Bytes)

  datatype FetchError = InvalidChunk | SourceFailed

  datatype PrefetchResult = PrefetchResult(offset: int, size: int, content: Result<ChunkContent, FetchError>)

  datatype Interval = Interval(start: nat, size: nat)

  /** The intervals follow each other from one position to another: every byte between the
      two is covered by exactly one of them, and no other byte is. */
  ghost predicate Chained(spans: seq<Interval>, from: nat, to: nat) {
    if spans == [] then from == to
    else spans[0].start == from && Chained(spans[1..], from + spans[0].size, to)
  }

  lemma {:induction false} ChainedAppend(spans: seq<Interval>, from: nat, to: nat, size: nat)
    requires Chained(spans, from, to)
    ensures Chained(spans + [Interval(to, size)], from, to + size)
  {
    var longer := spans + [Interval(to, size)];
    if spans == [] {
      assert longer[1..] == [];
    } else {
      ChainedAppend(spans[1..], from + spans[0].size, to, size);
      assert longer[1..] == spans[1..] + [Interval(to, size)];
    }
  }

  /** A fetch of the chunk at next reads it, unless that was done ahead, and then reads ahead. */
  lemma ChainContinues(before: seq<Interval>, from: nat, next: nat, size: nat, readAhead: bool, ahead: nat)
    requires Chained(before, from, if readAhead then next + size else next)
    ensures Chained(before
                    + ((if readAhead then [] else [Interval(next, size)])
                       + (if ahead > 0 then [Interval(next + size, ahead)] else [])),
                    from, next + size + ahead)
  {
    var mine := if readAhead then before else before + [Interval(next, size)];
    if !readAhead {
      ChainedAppend(before, from, next, size);
    }
    if ahead > 0 {
      ChainedAppend(mine, from, next + size, ahead);
      assert mine + [Interval(next + size, ahead)]
          == before + ((if readAhead then [] else [Interval(next, size)]) + [Interval(next + size, ahead)]);
    } else {
      assert mine == before + ((if readAhead then [] else [Interval(next, size)]) + []);
    }
  }

  /** How many of the reads cover position p. */
  ghost function TimesRead(spans: seq<Interval>, p: nat): nat {
    if spans == [] then 0
    else (if spans[0].start <= p < spans[0].start + spans[0].size then 1 else 0) + TimesRead(spans[1..], p)
  }

  lemma {:induction false} ChainedReadsEachByteOnce(spans: seq<Interval>, from: nat, to: nat, p: nat)
    requires Chained(spans, from, to)
    ensures from <= to && TimesRead(spans, p) == if from <= p < to then 1 else 0
  {
    if spans != [] {
      ChainedReadsEachByteOnce(spans[1..], from + spans[0].size, to, p);
    }
  }

  class ChunkPrefetcher {
    const source: Bytes
    const spool: bool
    const chunkSize: int
    var pending: Option<PrefetchResult>
    var tempFiles: set<nat>
    var nextFile: nat
    /** The reads of the source so far, and how many of them failed. */
    ghost var spans: seq<Interval>
    ghost var failures: nat

    constructor (source: Bytes, chunkSize: int, spool: bool)
      ensures this.source == source && this.chunkSize == chunkSize && this.spool == spool
      ensures Valid() && pending == None && tempFiles == {} && spans == [] && failures == 0
    {
      this.source, this.chunkSize, this.spool := source, chunkSize, spool;
      pending, tempFiles, nextFile := None, {}, 0;
      spans, failures := [], 0;
    }

    /** The temp file a result still owns. */
    static function FileOf(content: ChunkContent): set<nat> {
      match content
      case Direct(_, _) => {}
      case Spooled(file, _) => {file}
    }

    ghost function PendingFile(): set<nat>
      reads this
    {
      if pending.Some? && pending.value.content.Ok? then FileOf(pending.value.content.value) else {}
    }

    /** What opening a chunk's content spans. */
    ghost predicate Holds(content: ChunkContent, offset: int, size: int)
    {
      && 0 <= offset && 0 < size && offset + size <= |source|
      && match content
         case Direct(o, n) => o == offset && n == size
         case Spooled(_, bytes) => bytes == source[offset..offset + size]
    }

    ghost predicate Valid()
      reads this
    {
      && (forall f :: f in tempFiles ==> f < nextFile)
      && PendingFile() <= tempFiles
      && (pending.Some? ==>
            && spool && chunkSize > 0
            && 0 <= pending.value.offset < |source|
            && pending.value.size == Min(chunkSize, |source| - pending.value.offset)
            && (pending.value.content.Ok? ==>
                  Holds(pending.value.content.value, pending.value.offset, pending.value.size)))
    }

    /** The reads so far cover from..next and the chunk read ahead from there, once each. */
    ghost predicate InChain(from: nat, next: int)
      requires 0 <= next && Valid()
      reads this
    {
      && (pending.Some? ==> pending.value.content.Ok? && pending.value.offset == next)
      && (spool ==> Chained(spans, from, next + if pending.Some? then pending.value.size else 0))
    }

    /** spoolChunkToTempFile: no file is left behind when it fails. */
    method Spool(offset: int, size: int) returns (r: Result<ChunkContent, FetchError>)
      requires Valid() && pending == None
      requires 0 <= offset && offset + size <= |source|
      modifies this`tempFiles, this`nextFile, this`spans, this`failures
      ensures Valid() && old(failures) <= failures
      ensures r.Ok? ==>
                && Holds(r.value, offset, size) && r.value.Spooled? && r.value.file !in old(tempFiles)
                && tempFiles == old(tempFiles) + {r.value.file}
                && spans == old(spans) + [Interval(offset, size)]
      ensures r.Err? ==> tempFiles == old(tempFiles)
      ensures size > 0 && failures == old(failures) ==> r.Ok?
      ensures r.Ok? ==> failures == old(failures)
    {
      if size <= 0 { return Err(InvalidChunk); }
      var fails: bool := *;
      if fails {
        failures := failures + 1;
        return Err(SourceFailed);
      }
      var file := nextFile;
      nextFile := nextFile + 1;
      tempFiles := tempFiles + {file};
      spans := spans + [Interval(offset, size)];
      r := Ok(Spooled(file, source[offset..offset + size]));
    }

    method Cleanup(content: ChunkContent)
      requires Valid() && FileOf(content) !! PendingFile()
      modifies this`tempFiles
      ensures Valid() && tempFiles == old(tempFiles) - FileOf(content)
    {
      match content {
        case Direct(_, _) =>
        case Spooled(file, _) => tempFiles := tempFiles - {file};
      }
    }

    method Take() returns (result: Option<PrefetchResult>)
      requires Valid()
      modifies this`pending
      ensures Valid() && pending == None && result == old(pending)
    {
      result := pending;
      pending := None;
    }

    method Start(offset: int)
      requires Valid() && pending == None && 0 <= offset
      modifies this`pending, this`tempFiles, this`nextFile, this`spans, this`failures
      ensures Valid() && old(failures) <= failures
      ensures tempFiles == old(tempFiles) + PendingFile() && PendingFile() !! old(tempFiles)
      ensures pending.Some? <==> spool && chunkSize > 0 && offset < |source|
      ensures pending.Some? ==> pending.value.offset == offset
      ensures failures == old(failures) ==>
                && (pending.Some? ==> pending.value.content.Ok?)
                && spans == old(spans) + if pending.Some? then [Interval(offset, pending.value.size)] else []
    {
      if !spool || chunkSize <= 0 || offset >= |source| { return; }
      var size := chunkSize;
      var remaining := |source| - offset;
      if remaining < size { size := remaining; }
      var content := Spool(offset, size);
      pending := Some(PrefetchResult(offset, size, content));
    }

    /** prepareChunkContent */
    method Prepare(offset: int, size: int) returns (r: Result<ChunkContent, FetchError>)
      requires Valid() && pending == None
      requires 0 <= offset && offset + size <= |source|
      modifies this`tempFiles, this`nextFile, this`spans, this`failures
      ensures Valid() && old(failures) <= failures
      ensures r.Ok? ==>
                && Holds(r.value, offset, size) && FileOf(r.value) !! old(tempFiles)
                && tempFiles == old(tempFiles) + FileOf(r.value)
                && spans == old(spans) + if spool then [Interval(offset, size)] else []
      ensures r.Err? ==> tempFiles == old(tempFiles)
      ensures size > 0 && failures == old(failures) ==> r.Ok?
      ensures r.Ok? ==> failures == old(failures) && r.value.Spooled? == spool
    {
      if spool {
        r := Spool(offset, size);
      } else if size <= 0 {
        r := Err(InvalidChunk);
      } else {
        r := Ok(Direct(offset, size));
      }
    }

    /** What fetch hands out and what it keeps: the exact range, one file more than the one
        handed out at most, and the next chunk, which it has started on. */
    ghost predicate Served(content: ChunkContent, offset: int, size: int)
      reads this
    {
      && Holds(content, offset, size)
      && FileOf(content) !! PendingFile() && tempFiles == FileOf(content) + PendingFile()
      && (pending.Some? ==> pending.value.offset == offset + size)
    }

    /** The reads a fetch adds when nothing fails: the chunk, unless it was read ahead, and
        the chunk after it. */
    ghost function NewReads(offset: int, size: int, readAhead: bool): seq<Interval>
      requires 0 <= offset && 0 < size && Valid()
      reads this
    {
      (if spool && !readAhead then [Interval(offset, size)] else [])
      + if pending.Some? then [Interval(pending.value.offset, pending.value.size)] else []
    }

    /** The range was not read ahead: read it now. */
    method Reload(offset: int, size: int) returns (r: Result<ChunkContent, FetchError>)
      requires Valid() && pending == None && tempFiles == {}
      requires 0 <= offset && offset + size <= |source|
      modifies this
      ensures Valid() && old(failures) <= failures
      ensures r.Ok? ==> Served(r.value, offset, size) && r.value.Spooled? == spool
      ensures r.Err? ==> tempFiles == {} && pending == None
      ensures size > 0 && failures == old(failures) ==>
                && r.Ok?
                && (pending.Some? <==> spool && chunkSize > 0 && offset + size < |source|)
                && (pending.Some? ==> pending.value.content.Ok?)
                && spans == old(spans) + NewReads(offset, size, false)
    {
      r := Prepare(offset, size);
      if r.Err? { return; }
      Start(offset + size);
    }

    /** Whether the pending result is the range asked for. */
    ghost predicate ReadAhead(offset: int, size: int)
      reads this
    {
      pending.Some? && pending.value.content.Ok? && pending.value.offset == offset && pending.value.size == size
    }

    /** fetch */
    method Fetch(offset: int, size: int) returns (r: Result<ChunkContent, FetchError>)
      requires Valid() && tempFiles == PendingFile()
      requires 0 <= offset && offset + size <= |source|
      modifies this
      ensures Valid() && old(failures) <= failures
      ensures r.Ok? ==> Served(r.value, offset, size)
      ensures r.Err? ==> tempFiles == {} && pending == None
      ensures size > 0 && failures == old(failures) ==>
                && r.Ok?
                && (pending.Some? <==> spool && chunkSize > 0 && offset + size < |source|)
                && (pending.Some? ==> pending.value.content.Ok?)
                && spans == old(spans) + NewReads(offset, size, old(ReadAhead(offset, size)))
    {
      var pendingResult := Take();
      if pendingResult.Some? {
        var found := pendingResult.value;
        if found.content.Ok? && found.offset == offset && found.size == size {
          Start(offset + size);
          return Ok(found.content.value);
        }
        if found.content.Ok? {
          Cleanup(found.content.value);
        }
      }
      r := Reload(offset, size);
    }

    /** A fetch of the next chunk in line: in the absence of failures, the reads since
        position from stay a chain. */
    method FetchNext(offset: int, size: int, ghost from: nat) returns (r: Result<ChunkContent, FetchError>)
      requires Valid() && tempFiles == PendingFile()
      requires 0 <= offset && size == Min(chunkSize, |source| - offset) > 0
      modifies this
      ensures Valid() && old(failures) <= failures
      ensures r.Ok? ==> Served(r.value, offset, size)
      ensures r.Err? ==> tempFiles == {} && pending == None && old(failures) < failures
      ensures failures == old(failures) && old(InChain(from, offset)) ==> InChain(from, offset + size)
    {
      if spool && InChain(from, offset) {
        var ahead := if offset + size < |source| then Min(chunkSize, |source| - (offset + size)) else 0;
        ChainContinues(spans, from, offset, size, pending.Some?, ahead);
      }
      r := Fetch(offset, size);
    }

    /** At most two chunks are on disk while one is being sent. */
    lemma AtMostTwoFiles(content: ChunkContent, offset: int, size: int)
      requires Served(content, offset, size)
      ensures |tempFiles| <= 2
    {
      assert |FileOf(content)| <= 1 && |PendingFile()| <= 1;
    }

    /** close leaves no temp file behind. */
    method Close()
      requires Valid() && tempFiles == PendingFile()
      modifies this`pending, this`tempFiles
      ensures Valid() && pending == None && tempFiles == {}
    {
      var pendingResult := Take();
      if pendingResult.Some? && pendingResult.value.content.Ok? {
        Cleanup(pendingResult.value.content.value);
      }
    }

    /** What opening the chunk yields. */
    function Open(content: ChunkContent, ghost offset: int, ghost size: int): (bytes: Bytes)
      requires Holds(content, offset, size)
      ensures bytes == source[offset..offset + size]
    {
      match content
      case Direct(o, n) => source[o..o + n]
      case Spooled(_, bytes) => bytes
    }
  }

  function Min(a: int, b: int): int {
    if a < b then a else b
  }
}
