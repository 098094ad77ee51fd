/** The resumable chunked push of installer/internal/oras/repository/upload.go, against the
    unreliable world of UploadEnv. */
module Upload {
  import opened Wrappers
  import opened GoText
  import opened RangeHeader
  import opened Progress
  import opened UploadEnv
  import opened Prefetch

  datatype Chunk = Chunk(location: Location, offset: int, size: int, end: int)

  datatype Failure =
    | StateFailure | StartFailure | Canceled | NoRangeLeft | OffsetOutOfRange
    | StatusFailure | MovedBackwards | PastEnd | RestartFailure | AttemptsExhausted | FinalizeFailure

  function NextChunk(location: Location, offset: int, totalSize: int, chunkSize: int): Chunk {
    var size := Min(chunkSize, totalSize - offset);
    Chunk(location, offset, size, offset + size - 1)
  }

  /** validUploadState: a record of this blob for this repository. */
  ghost predicate ValidUploadState(state: UploadState, target: Target) {
    state.target == target && state.location != NoLocation
  }

  // ----- invariants -----

  /** What survives every run: sessions of ours hold a prefix of the blob, and a record the
      next run would resume names one of them. */
  ghost predicate Durable(w: World, blob: Bytes, target: Target) {
    && Numbered(w)
    && (forall u :: u in w.ours && u in w.sessions ==> w.sessions[u] <= blob)
    && (w.file.Record? && ValidUploadState(w.file.state, target) ==> OursAt(w, w.file.state.location))
  }

  ghost predicate OursAt(w: World, at: Location) {
    at.Url? && at.session in w.ours
  }

  ghost predicate Live(w: World, at: Location) {
    at.Url? && at.session in w.sessions
  }

  /** The session at a location holds exactly the first offset bytes, unless it is gone. */
  ghost predicate HoldsExactly(w: World, blob: Bytes, at: Location, offset: int) {
    && OursAt(w, at) && 0 <= offset <= |blob|
    && (Live(w, at) ==> w.sessions[at.session] == blob[..offset])
  }

  /** The same when the outcome of a PATCH from offset is not known yet. */
  ghost predicate HoldsAtLeast(w: World, blob: Bytes, at: Location, offset: int) {
    && OursAt(w, at) && 0 <= offset <= |blob|
    && (Live(w, at) ==> offset <= |w.sessions[at.session]| && w.sessions[at.session] <= blob)
  }

  /** A PATCH carries the blob's bytes for its range to a session that ends where the range
      starts; the finalizing PUT goes to a session that holds the whole blob. */
  ghost predicate SafeRequest(e: Request, blob: Bytes) {
    match e
    case PatchSent(at, offset, body, held) =>
      && 0 <= offset && 0 < |body| && offset + |body| <= |blob|
      && body == blob[offset..offset + |body|]
      && (held.Some? ==> held.value == blob[..offset])
    case PutSent(at, held) =>
      held.Some? ==> held.value == blob
  }

  ghost predicate SafeLog(log: seq<Request>, blob: Bytes) {
    forall e :: e in log ==> SafeRequest(e, blob)
  }

  lemma SafeLogGrows(before: seq<Request>, log: seq<Request>, blob: Bytes)
    requires SafeLog(before, blob)
    requires |log| == |before| + 1 && log[..|before|] == before && SafeRequest(log[|before|], blob)
    ensures SafeLog(log, blob)
  {
    forall e | e in log ensures SafeRequest(e, blob) {
      var i :| 0 <= i < |log| && log[i] == e;
      if i < |before| { assert e == before[i]; }
    }
  }

  /** The finalizing PUT was sent to a session that was gone by then. */
  ghost predicate LostBeforePut(log: seq<Request>) {
    log != [] && log[|log| - 1].PutSent? && log[|log| - 1].held.None?
  }

  lemma DurableBackground(w: World, w': World, blob: Bytes, target: Target)
    requires Durable(w, blob, target) && Background(w, w')
    ensures Durable(w', blob, target)
  {
  }

  /** Saving where the push stands, or failing half way through it, keeps the record resumable. */
  lemma DurableSaved(w: World, w': World, blob: Bytes, target: Target, state: UploadState)
    requires Durable(w, blob, target) && Saved(w, w', state) && OursAt(w, state.location)
    ensures Durable(w', blob, target)
  {
    DurableBackground(w.(file := w'.file), w', blob, target);
  }

  lemma DurableOpened(w: World, w': World, blob: Bytes, target: Target)
    requires Durable(w, blob, target) && Opened(w, w')
    ensures Durable(w', blob, target)
  {
  }

  /** Whatever part of the chunk is accepted, and whether or not the reply arrives, the session
      keeps holding exactly a prefix of the blob. */
  lemma PatchExtendsPrefix(w: World, w': World, blob: Bytes, target: Target, at: Location, offset: int,
                           body: Bytes, accepted: nat)
    requires Durable(w, blob, target) && HoldsExactly(w, blob, at, offset)
    requires offset + |body| <= |blob| && body == blob[offset..offset + |body|]
    requires Patched(w, w', at.session, offset, body, accepted)
    ensures Durable(w', blob, target)
    ensures HoldsExactly(w', blob, at, offset + accepted)
    ensures HoldsAtLeast(w', blob, at, offset)
  {
    assert blob[..offset] + body[..accepted] == blob[..offset + accepted];
    if Live(w', at) {
      assert w'.sessions[at.session] == blob[..offset + accepted];
    }
  }

  // ----- progress -----

  /** setReportedOffset of pushBlobChunked: tells the tracker how far the upload is. */
  class OffsetReporter {
    const tracker: Tracker?
    var reported: int
    /** What the tracker showed before this push. */
    ghost const prior: int

    constructor (tracker: Tracker?)
      requires tracker != null ==> tracker.Valid()
      ensures this.tracker == tracker && reported == 0
      ensures tracker != null ==> prior == tracker.event.bytes
      ensures Valid()
    {
      this.tracker, this.reported := tracker, 0;
      this.prior := if tracker == null then 0 else tracker.event.bytes;
    }

    ghost predicate Valid()
      reads this, if tracker == null then {} else {tracker}
    {
      tracker != null ==> tracker.Valid() && prior >= 0
    }

    /** Whether the tracker's total leaves room for a blob of this size. */
    ghost predicate Covers(size: int)
      reads if tracker == null then {} else {tracker}
    {
      tracker != null ==>
        !tracker.stopped && (tracker.event.totalBytes <= 0 || prior + size <= tracker.event.totalBytes)
    }

    /** The tracker shows the prior bytes plus the reported offset. */
    ghost predicate InStep()
      reads this, if tracker == null then {} else {tracker}
    {
      tracker != null ==> tracker.event.bytes == prior + reported
    }

    method Set(offset: int, ghost size: int)
      requires Valid() && 0 <= offset <= size
      modifies this`reported, if tracker == null then {} else {tracker}
      ensures Valid() && reported == offset
      ensures Covers(size) == old(Covers(size))
      ensures old(Covers(size) && InStep()) ==> InStep()
    {
      var delta := offset - reported;
      if delta == 0 { return; }
      if tracker != null {
        DeltaIsExactIff(tracker.event, delta);
        tracker.AddBytes(delta);
      }
      reported := offset;
    }
  }

  /** Whether a tracker's total leaves room for a blob on top of what it shows already. */
  ghost predicate Room(tracker: Tracker, size: int)
    reads tracker
  {
    !tracker.stopped && (tracker.event.totalBytes <= 0 || tracker.event.bytes + size <= tracker.event.totalBytes)
  }

  // ----- the client -----

  class Repository {
    const env: Env
    const target: Target
    const chunkSize: int
    const maxAttempts: nat

    /** New fills in the default number of attempts. */
    constructor (env: Env, target: Target, chunkSize: int, maxChunkAttempts: int)
      ensures this.env == env && this.target == target && this.chunkSize == chunkSize
      ensures maxAttempts == if maxChunkAttempts <= 0 then 5 else maxChunkAttempts
    {
      this.env, this.target, this.chunkSize := env, target, chunkSize;
      this.maxAttempts := if maxChunkAttempts <= 0 then 5 else maxChunkAttempts;
    }

    ghost predicate Ready(blob: Bytes)
      reads env
    {
      && |blob| == target.size <= MAX_INT64
      && Durable(env.world, blob, target)
      && SafeLog(env.log, blob)
    }

    method Save(location: Location, offset: int, ghost blob: Bytes) returns (r: Step<Result<(), ()>>)
      requires Ready(blob) && OursAt(env.world, location)
      modifies env`world, env`faults, env`troubles
      ensures Ready(blob) && old(env.faults) <= env.faults && old(env.troubles) <= env.troubles
      ensures Background(old(env.world).(file := env.world.file), env.world)
      ensures r.Alive? && r.value.Ok? ==>
                env.world.file == Record(UploadState(target, location, offset))
      ensures env.faults == old(env.faults) ==>
                r.Alive? && r.value.Ok? && Calm(old(env.world).(file := env.world.file), env.world)
      ensures env.troubles == old(env.troubles) ==> r.Alive? && r.value.Ok?
    {
      var state := UploadState(target, location, offset);
      r := env.SaveState(state);
      DurableSaved(old(env.world), env.world, blob, target, state);
    }

    /** patchBlobUpload: sends the range and reads the next offset off the reply. */
    method PatchBlobUpload(at: Location, offset: int, body: Bytes, ghost blob: Bytes)
      returns (r: Step<Result<(int, Location), ErrorKind>>, ghost accepted: nat)
      requires Ready(blob) && HoldsExactly(env.world, blob, at, offset)
      requires 0 < |body| && offset + |body| <= |blob| && body == blob[offset..offset + |body|]
      modifies env
      ensures Ready(blob)
      ensures old(env.faults) <= env.faults && old(env.troubles) <= env.troubles && env.losses == old(env.losses)
      ensures old(env.patches) <= env.patches <= old(env.patches) + 1 && accepted <= |body|
      ensures env.world.file == old(env.world).file
      ensures HoldsExactly(env.world, blob, at, offset + accepted)
      ensures r.Alive? && r.value.Ok? ==>
                && r.value.value.0 == offset + accepted
                && HoldsExactly(env.world, blob, r.value.value.1, offset + accepted)
                && (Live(env.world, at) ==> Live(env.world, r.value.value.1))
      ensures env.faults == old(env.faults) && old(Live(env.world, at)) ==>
                && r.Alive? && r.value.Ok? && accepted == |body| && Live(env.world, at)
                && env.patches == old(env.patches) + 1
      ensures (r.Alive? ==> env.patches == old(env.patches) + 1) && env.pauses == old(env.pauses)
      ensures env.troubles == old(env.troubles) ==>
                r.Alive? && if r.value.Ok? then accepted == |body| else !Live(env.world, at)
    {
      ghost var before := env.log;
      var reply;
      reply, accepted := env.Patch(at, offset, body);
      PatchExtendsPrefix(old(env.world), env.world, blob, target, at, offset, body, accepted);
      if env.patches > old(env.patches) { SafeLogGrows(before, env.log, blob); }
      match reply {
        case Died => return Died, accepted;
        case Alive(Err(kind)) => return Alive(Err(kind)), accepted;
        case Alive(Ok(answer)) =>
          ReadsCommitted(answer, at, offset + accepted);
          match NextOffsetFromRange(answer.range) {
            case Err(_) => return Alive(Err(OtherError)), accepted;
            case Ok(next) => return Alive(Ok((next, answer.location))), accepted;
          }
      }
    }

    /** getBlobUpload: how much a session holds, asked of the registry. A session that holds
        nothing has no range to answer with, and never yields an offset. */
    method GetBlobUpload(at: Location, ghost blob: Bytes)
      returns (r: Step<Result<(int, Location), ErrorKind>>)
      requires Ready(blob) && OursAt(env.world, at)
      modifies env`world, env`faults, env`troubles, env`losses
      ensures Ready(blob) && Background(old(env.world), env.world)
      ensures old(env.faults) <= env.faults && old(env.troubles) <= env.troubles && env.losses <= old(env.losses)
      ensures r == Alive(Err(UploadUnknown)) <==> env.losses < old(env.losses)
      ensures r.Alive? && r.value.Ok? ==>
                && old(Live(env.world, at)) && r.value.value.0 == |old(env.world).sessions[at.session]| > 0
                && HoldsExactly(env.world, blob, r.value.value.1, r.value.value.0)
                && r.value.value.1.Url? && r.value.value.1.session == at.session
      ensures env.faults == old(env.faults) ==>
                && r.Alive? && Calm(old(env.world), env.world)
                && (old(Live(env.world, at)) ==>
                      if |old(env.world).sessions[at.session]| > 0 then r.value.Ok? else r.value == Err(OtherError))
      ensures env.troubles == old(env.troubles) ==>
                r.Alive? && (!old(Live(env.world, at)) ==> r.value == Err(UploadUnknown))
    {
      var reply :- env.Status(at);
      match reply {
        case Err(kind) => return Alive(Err(kind));
        case Ok(answer) =>
          ReadsCommitted(answer, at, |old(env.world).sessions[at.session]|);
          match NextOffsetFromRange(answer.range) {
            case Err(_) => return Alive(Err(OtherError));
            case Ok(offset) => return Alive(Ok((offset, answer.location)));
          }
      }
    }

    /** loadUploadState */
    method LoadUploadState(ghost blob: Bytes) returns (r: Step<Result<Option<UploadState>, ()>>)
      requires Ready(blob)
      modifies env`world, env`faults, env`troubles
      ensures Ready(blob) && Background(old(env.world), env.world)
      ensures old(env.faults) <= env.faults && old(env.troubles) <= env.troubles
      ensures r.Alive? && r.value.Ok? && r.value.value.Some? ==>
                && old(env.world).file == Record(r.value.value.value)
                && ValidUploadState(r.value.value.value, target)
      ensures r.Alive? && r.value == Ok(None) ==> !Resumable(old(env.world))
      ensures old(env.world).file == Unreadable ==> (r.Died? || r.value.Err?) && env.world.file == Unreadable
      ensures env.faults == old(env.faults) ==>
                r.Alive? && (r.value.Err? ==> old(env.world).file == Unreadable) && Calm(old(env.world), env.world)
      ensures env.troubles == old(env.troubles) ==> r.Alive? && (r.value.Err? ==> old(env.world).file == Unreadable)
    {
      var loaded :- env.LoadState();
      if loaded.Ok? && loaded.value.Some? {
        var state := loaded.value.value;
        if state.target != target || state.location == NoLocation { return Alive(Ok(None)); }
      }
      return Alive(loaded);
    }

    /** Whether the state file names an upload of this blob to this repository. */
    ghost predicate Resumable(w: World) {
      w.file.Record? && ValidUploadState(w.file.state, target)
    }

    /** The session a run without faults continues: the recorded one, if it holds anything. */
    ghost function ResumeOffset(w: World): nat {
      if Resumable(w) && Live(w, w.file.state.location) then |w.sessions[w.file.state.location.session]| else 0
    }

    /** postBlobUpload, and recording the new session. */
    method StartUpload(ghost blob: Bytes) returns (r: Step<Result<Chunk, Failure>>)
      requires Ready(blob)
      modifies env`world, env`faults, env`troubles
      ensures Ready(blob) && old(env.faults) <= env.faults && old(env.troubles) <= env.troubles
      ensures r.Alive? && r.value.Err? ==> r.value.error == StateFailure || r.value.error == StartFailure
      ensures r.Alive? && r.value.Ok? ==>
                && r.value.value.offset == 0 && HoldsExactly(env.world, blob, r.value.value.location, 0)
                && env.world.file == Record(UploadState(target, r.value.value.location, 0))
      ensures env.faults == old(env.faults) ==>
                r.Alive? && r.value.Ok? && Live(env.world, r.value.value.location)
      ensures env.troubles == old(env.troubles) ==> r.Alive? && r.value.Ok?
    {
      var posted :- env.Post();
      DurableOpened(old(env.world), env.world, blob, target);
      if posted.Err? { return Alive(Err(StartFailure)); }
      var location := posted.value;
      assert blob[..0] == [];
      var saved :- Save(location, 0, blob);
      if saved.Err? { return Alive(Err(StateFailure)); }
      return Alive(Ok(Chunk(location, 0, 0, 0)));
    }

    /** startOrResumeBlobUpload: the recorded offset is never trusted; only the registry's
        answer is. An unreadable record stops every run before it sends anything. */
    method StartOrResumeBlobUpload(ghost blob: Bytes) returns (r: Step<Result<Chunk, Failure>>)
      requires Ready(blob)
      modifies env`world, env`faults, env`troubles, env`losses
      ensures Ready(blob)
      ensures old(env.faults) <= env.faults && old(env.troubles) <= env.troubles && env.losses <= old(env.losses)
      ensures r.Alive? && r.value.Ok? ==>
                && HoldsExactly(env.world, blob, r.value.value.location, r.value.value.offset)
                && env.world.file == Record(UploadState(target, r.value.value.location, r.value.value.offset))
      ensures r.Alive? && r.value.Err? ==> r.value.error == StateFailure || r.value.error == StartFailure
      ensures old(env.world).file == Unreadable ==>
                (r.Died? || r.value == Err(StateFailure)) && env.world.file == Unreadable
      ensures env.faults == old(env.faults) && old(env.world).file != Unreadable ==>
                && r.Alive? && r.value.Ok? && Live(env.world, r.value.value.location)
                && r.value.value.offset == ResumeOffset(old(env.world))
      ensures env.troubles == old(env.troubles) && old(env.world).file != Unreadable ==> r.Alive? && r.value.Ok?
    {
      var loaded :- LoadUploadState(blob);
      if loaded.Err? { return Alive(Err(StateFailure)); }
      if loaded.value.Some? {
        var state := loaded.value.value;
        var status :- GetBlobUpload(state.location, blob);
        if status.Ok? {
          var (offset, location) := status.value;
          var saved :- Save(location, offset, blob);
          if saved.Err? { return Alive(Err(StateFailure)); }
          return Alive(Ok(Chunk(location, offset, 0, 0)));
        }
        ghost var before := env.world;
        var deleted :- env.DeleteState();
        DurableBackground(before.(file := env.world.file), env.world, blob, target);
        if deleted.Err? { return Alive(Err(StateFailure)); }
      }
      r := StartUpload(blob);
    }

    /** recoverChunk: LostSession is the only answer a restart is the remedy for. */
    method RecoverChunk(current: Chunk, start: int, blobSize: int, ghost blob: Bytes)
      returns (r: Step<Result<bool, RecoverError>>, next: Chunk)
      requires Ready(blob) && blobSize == |blob| && HoldsAtLeast(env.world, blob, current.location, start)
      modifies env`world, env`faults, env`troubles, env`losses
      ensures Ready(blob) && Background(old(env.world), env.world)
      ensures old(env.faults) <= env.faults && old(env.troubles) <= env.troubles && env.losses <= old(env.losses)
      ensures r == Alive(Err(LostSession)) <==> env.losses < old(env.losses)
      ensures r.Alive? && r.value.Err? ==>
                next == current && (r.value.error == LostSession || r.value.error == Broken(StatusFailure))
      ensures r.Alive? && r.value.Ok? ==>
                && HoldsExactly(env.world, blob, next.location, next.offset) && start <= next.offset
                && next == current.(location := next.location, offset := next.offset)
                && (r.value.value <==> next.offset > start)
                && next.offset > 0
      ensures env.faults == old(env.faults) && old(Live(env.world, current.location)) ==>
                var held := |old(env.world).sessions[current.location.session]|;
                r == Alive(if held == 0 then Err(Broken(StatusFailure)) else Ok(held > start))
      ensures env.troubles == old(env.troubles) && !old(Live(env.world, current.location)) ==>
                r == Alive(Err(LostSession))
    {
      next := current;
      var status :- GetBlobUpload(current.location, blob);
      if status.Err? {
        return Alive(Err(if status.error == UploadUnknown then LostSession else Broken(StatusFailure))), current;
      }
      var (offset, location) := status.value;
      if offset < start { return Alive(Err(Broken(MovedBackwards))), current; }
      if offset > blobSize { return Alive(Err(Broken(PastEnd))), current; }
      next := current.(offset := offset, location := location);
      r := Alive(Ok(offset > start));
    }

    /** recoverOrRestartChunk: settles what an unanswered PATCH did before anything is resent. */
    method RecoverOrRestartChunk(current: Chunk, attemptOffset: int, reporter: OffsetReporter, ghost blob: Bytes)
      returns (r: Step<Result<bool, Failure>>, next: Chunk)
      requires Ready(blob) && HoldsAtLeast(env.world, blob, current.location, attemptOffset)
      requires current == NextChunk(current.location, attemptOffset, |blob|, chunkSize) && reporter.Valid()
      modifies env`world, env`faults, env`troubles, env`losses
      modifies reporter`reported, if reporter.tracker == null then {} else {reporter.tracker}
      ensures Ready(blob)
      ensures old(env.faults) <= env.faults && old(env.troubles) <= env.troubles && env.losses <= old(env.losses)
      ensures reporter.Valid() && reporter.Covers(|blob|) == old(reporter.Covers(|blob|))
      ensures old(reporter.Covers(|blob|) && reporter.InStep()) ==> reporter.InStep()
      ensures r.Alive? && r.value.Err? ==> r.value.error in {StatusFailure, StateFailure, RestartFailure}
      ensures r.Alive? && r.value.Ok? ==> HoldsExactly(env.world, blob, next.location, next.offset)
      ensures r == Alive(Ok(true)) ==>
                && next.offset > attemptOffset && env.losses == old(env.losses)
                && reporter.reported == old(reporter.reported)
      ensures r == Alive(Ok(false)) ==>
                && next == NextChunk(next.location, next.offset, |blob|, chunkSize)
                && (|| (env.losses == old(env.losses) && next.offset == attemptOffset > 0
                        && reporter.reported == old(reporter.reported))
                    || (env.losses < old(env.losses) && next.offset == 0 && reporter.reported == 0))
      ensures env.faults == old(env.faults) && old(Live(env.world, current.location)) ==>
                var held := |old(env.world).sessions[current.location.session]|;
                r == Alive(if held == 0 then Err(StatusFailure) else Ok(held > attemptOffset))
      ensures env.losses < old(env.losses) && env.faults == old(env.faults) ==>
                r == Alive(Ok(false)) && Live(env.world, next.location)
      ensures env.losses < old(env.losses) && env.troubles == old(env.troubles) ==> r == Alive(Ok(false))
      ensures env.troubles == old(env.troubles) && !old(Live(env.world, current.location)) ==>
                env.losses < old(env.losses)
    {
      var recovered;
      recovered, next := RecoverChunk(current, attemptOffset, target.size, blob);
      match recovered {
        case Died => return Died, next;
        case Alive(Ok(moved)) =>
          var saved :- Save(next.location, next.offset, blob);
          return Alive(if saved.Err? then Err(StateFailure) else Ok(moved)), next;
        case Alive(Err(Broken(why))) => return Alive(Err(why)), next;
        case Alive(Err(LostSession)) =>
          var restarted;
          restarted, next := RestartUpload(next, reporter, blob);
          if restarted.Died? { return Died, next; }
          return Alive(if restarted.value.Err? then Err(restarted.value.error) else Ok(false)), next;
      }
    }

    /** The session is gone: a new one starts from the beginning, and so does the progress. */
    method RestartUpload(current: Chunk, reporter: OffsetReporter, ghost blob: Bytes)
      returns (r: Step<Result<(), Failure>>, next: Chunk)
      requires Ready(blob) && reporter.Valid()
      modifies env`world, env`faults, env`troubles
      modifies reporter`reported, if reporter.tracker == null then {} else {reporter.tracker}
      ensures Ready(blob) && old(env.faults) <= env.faults && old(env.troubles) <= env.troubles
      ensures reporter.Valid() && reporter.Covers(|blob|) == old(reporter.Covers(|blob|))
      ensures old(reporter.Covers(|blob|) && reporter.InStep()) ==> reporter.InStep()
      ensures r.Alive? && r.value.Err? ==> r.value.error == RestartFailure || r.value.error == StateFailure
      ensures r.Alive? && r.value.Ok? ==>
                && HoldsExactly(env.world, blob, next.location, 0) && reporter.reported == 0
                && next == NextChunk(next.location, 0, |blob|, chunkSize)
      ensures env.faults == old(env.faults) ==> r == Alive(Ok(())) && Live(env.world, next.location)
      ensures env.troubles == old(env.troubles) ==> r == Alive(Ok(()))
    {
      next := current;
      ghost var before := env.world;
      var posted :- env.Post();
      DurableOpened(before, env.world, blob, target);
      if posted.Err? { return Alive(Err(RestartFailure)), next; }
      reporter.Set(0, |blob|);
      next := NextChunk(posted.value, 0, target.size, chunkSize);
      assert blob[..0] == [];
      var saved :- Save(next.location, next.offset, blob);
      r := Alive(if saved.Err? then Err(StateFailure) else Ok(()));
    }

    /** waitForChunkRetry */
    method WaitForChunkRetry(ghost blob: Bytes) returns (r: Step<Result<(), Failure>>)
      requires Ready(blob)
      modifies env`world, env`faults, env`troubles, env`pauses
      ensures Ready(blob) && Background(old(env.world), env.world)
      ensures old(env.faults) <= env.faults && old(env.troubles) <= env.troubles
      ensures r.Alive? && r.value.Err? ==> r.value.error == Canceled
      ensures env.faults == old(env.faults) || env.troubles == old(env.troubles) ==> r == Alive(Ok(()))
      ensures env.pauses == old(env.pauses) + 1
    {
      var cancelled :- env.Pause();
      return Alive(if cancelled then Err(Canceled) else Ok(()));
    }

    /** The prefetcher serves this blob and holds no file but its pending one. */
    ghost predicate Serves(prefetcher: ChunkPrefetcher, blob: Bytes)
      reads prefetcher
    {
      && prefetcher.Valid() && prefetcher.source == blob && prefetcher.chunkSize == chunkSize
      && prefetcher.tempFiles == prefetcher.PendingFile()
    }

    /** One attempt of uploadChunkWithRetry: the range from the current offset is sent once, and
        an ambiguous outcome is settled before the next attempt. */
    method AttemptChunk(start: Chunk, prefetcher: ChunkPrefetcher, reporter: OffsetReporter, lastAttempt: bool,
                        ghost blob: Bytes, ghost from: nat)
      returns (r: Step<Attempt>, current: Chunk)
      requires Ready(blob) && HoldsExactly(env.world, blob, start.location, start.offset)
      requires start.offset < |blob| && start == NextChunk(start.location, start.offset, |blob|, chunkSize)
      requires Serves(prefetcher, blob) && reporter.Valid()
      modifies env, prefetcher, reporter`reported, if reporter.tracker == null then {} else {reporter.tracker}
      ensures Ready(blob)
      ensures old(env.faults) <= env.faults && old(env.troubles) <= env.troubles && env.losses <= old(env.losses)
      ensures old(env.patches) <= env.patches <= old(env.patches) + 1
      ensures old(prefetcher.failures) <= prefetcher.failures
      ensures r.Alive? ==> Serves(prefetcher, blob)
      ensures reporter.Valid() && reporter.Covers(|blob|) == old(reporter.Covers(|blob|))
      ensures old(reporter.Covers(|blob|) && reporter.InStep()) ==> reporter.InStep()
      ensures r.Alive? ==> AttemptOutcome(r.value, start, current, env.losses == old(env.losses), blob)
      ensures Undisturbed(old(env.faults), old(prefetcher.failures), prefetcher)
              && old(Live(env.world, start.location)) && chunkSize > 0 ==>
                && r == Alive(Uploaded) && Live(env.world, current.location)
                && current.offset == start.end + 1 && env.patches == old(env.patches) + 1
                && (old(prefetcher.InChain(from, start.offset)) ==> prefetcher.InChain(from, current.offset))
      ensures r == Alive(Again) ==>
                old(env.patches) + old(prefetcher.failures) < env.patches + prefetcher.failures
      ensures OnlyLosses(old(env.troubles), old(prefetcher.failures), prefetcher) ==>
                r == Alive(Uploaded) || (r == Alive(Again) && env.losses < old(env.losses))
      ensures old(env.pauses) <= env.pauses <= old(env.pauses) + PausesAfter(lastAttempt)
      ensures r == Alive(Again) ==> env.pauses == old(env.pauses) + PausesAfter(lastAttempt)
    {
      current := start;
      var cancelled :- env.Cancelled();
      if cancelled { return Alive(Failed(Canceled)), current; }
      if current.end - current.offset + 1 <= 0 { return Alive(Failed(NoRangeLeft)), current; }
      r, current := SendAndSettle(start, prefetcher, reporter, lastAttempt, blob, from);
    }

    /** The attempt proper. */
    method SendAndSettle(start: Chunk, prefetcher: ChunkPrefetcher, reporter: OffsetReporter, lastAttempt: bool,
                         ghost blob: Bytes, ghost from: nat)
      returns (r: Step<Attempt>, current: Chunk)
      requires Ready(blob) && HoldsExactly(env.world, blob, start.location, start.offset)
      requires start.offset < |blob| && start == NextChunk(start.location, start.offset, |blob|, chunkSize)
      requires 0 < start.size
      requires Serves(prefetcher, blob) && reporter.Valid()
      modifies env, prefetcher, reporter`reported, if reporter.tracker == null then {} else {reporter.tracker}
      ensures Ready(blob)
      ensures old(env.faults) <= env.faults && old(env.troubles) <= env.troubles && env.losses <= old(env.losses)
      ensures old(env.patches) <= env.patches <= old(env.patches) + 1
      ensures old(prefetcher.failures) <= prefetcher.failures
      ensures r.Alive? ==> Serves(prefetcher, blob)
      ensures reporter.Valid() && reporter.Covers(|blob|) == old(reporter.Covers(|blob|))
      ensures old(reporter.Covers(|blob|) && reporter.InStep()) ==> reporter.InStep()
      ensures r.Alive? ==> AttemptOutcome(r.value, start, current, env.losses == old(env.losses), blob)
      ensures Undisturbed(old(env.faults), old(prefetcher.failures), prefetcher)
              && old(Live(env.world, start.location)) && chunkSize > 0 ==>
                && r == Alive(Uploaded) && Live(env.world, current.location)
                && current.offset == start.end + 1 && env.patches == old(env.patches) + 1
                && (old(prefetcher.InChain(from, start.offset)) ==> prefetcher.InChain(from, current.offset))
      ensures r == Alive(Again) ==>
                old(env.patches) + old(prefetcher.failures) < env.patches + prefetcher.failures
      ensures OnlyLosses(old(env.troubles), old(prefetcher.failures), prefetcher) ==>
                r == Alive(Uploaded) || (r == Alive(Again) && env.losses < old(env.losses))
      ensures old(env.pauses) <= env.pauses <= old(env.pauses) + PausesAfter(lastAttempt)
      ensures r == Alive(Again) ==> env.pauses == old(env.pauses) + PausesAfter(lastAttempt)
    {
      current := start;
      var sent;
      ghost var accepted;
      sent, accepted := SendChunk(current, prefetcher, blob, from);
      match sent {
        case Died => return Died, current;
        case Alive(None) => r := BeforeRetry(lastAttempt, blob);
        case Alive(Some(patched)) =>
          r, current := SettlePatch(patched, current, reporter, lastAttempt, blob, accepted);
      }
    }

    /** Fetches the chunk and sends it once; None when the source could not be read. */
    method SendChunk(current: Chunk, prefetcher: ChunkPrefetcher, ghost blob: Bytes, ghost from: nat)
      returns (r: Step<Option<Result<(int, Location), ErrorKind>>>, ghost accepted: nat)
      requires Ready(blob) && HoldsExactly(env.world, blob, current.location, current.offset)
      requires current.offset < |blob| && current == NextChunk(current.location, current.offset, |blob|, chunkSize)
      requires 0 < current.size && Serves(prefetcher, blob)
      modifies env, prefetcher
      ensures Ready(blob)
      ensures old(env.faults) <= env.faults && old(env.troubles) <= env.troubles && env.losses == old(env.losses)
      ensures old(env.patches) <= env.patches <= old(env.patches) + 1
      ensures old(prefetcher.failures) <= prefetcher.failures
      ensures r.Alive? ==> Serves(prefetcher, blob) && accepted <= current.size
      ensures r == Alive(None) ==> accepted == 0 && old(prefetcher.failures) < prefetcher.failures
      ensures (r.Alive? && r.value.Some? ==> env.patches == old(env.patches) + 1) && env.pauses == old(env.pauses)
      ensures r.Alive? ==> HoldsExactly(env.world, blob, current.location, current.offset + accepted)
      ensures r.Alive? && r.value.Some? && r.value.value.Ok? ==>
                && r.value.value.value.0 == current.offset + accepted
                && HoldsExactly(env.world, blob, r.value.value.value.1, current.offset + accepted)
      ensures Undisturbed(old(env.faults), old(prefetcher.failures), prefetcher)
              && old(Live(env.world, current.location)) ==>
                && r.Alive? && r.value.Some? && r.value.value.Ok? && accepted == current.size
                && Live(env.world, r.value.value.value.1) && env.patches == old(env.patches) + 1
                && (old(prefetcher.InChain(from, current.offset)) ==>
                      prefetcher.InChain(from, current.offset + current.size))
      ensures OnlyLosses(old(env.troubles), old(prefetcher.failures), prefetcher) ==>
                && r.Alive? && r.value.Some?
                && if r.value.value.Ok? then accepted == current.size else !Live(env.world, current.location)
    {
      var fetched := prefetcher.FetchNext(current.offset, current.size, from);
      if fetched.Err? { return Alive(None), 0; }
      var body := prefetcher.Open(fetched.value, current.offset, current.size);
      var patched;
      patched, accepted := PatchBlobUpload(current.location, current.offset, body, blob);
      if patched.Died? { return Died, accepted; }
      prefetcher.Cleanup(fetched.value);
      return Alive(Some(patched.value)), accepted;
    }

    /** What an attempt leaves the push with. */
    ghost predicate AttemptOutcome(outcome: Attempt, start: Chunk, current: Chunk, kept: bool, blob: Bytes)
      reads env
    {
      match outcome
      case Failed(why) => why != MovedBackwards && why != PastEnd && why != AttemptsExhausted
      case Uploaded =>
        HoldsExactly(env.world, blob, current.location, current.offset) && current.offset > start.offset && kept
      case Again =>
        && HoldsExactly(env.world, blob, current.location, current.offset)
        && current == NextChunk(current.location, current.offset, |blob|, chunkSize)
        && (if kept then current.offset == start.offset else current.offset == 0)
    }

    /** Between two attempts there is a pause; after the last there is none. */
    ghost function PausesAfter(lastAttempt: bool): nat {
      if lastAttempt then 0 else 1
    }

    method BeforeRetry(lastAttempt: bool, ghost blob: Bytes) returns (r: Step<Attempt>)
      requires Ready(blob)
      modifies env`world, env`faults, env`troubles, env`pauses
      ensures Ready(blob) && Background(old(env.world), env.world)
      ensures old(env.faults) <= env.faults && old(env.troubles) <= env.troubles
      ensures r.Alive? ==> r.value == Again || r.value == Failed(Canceled)
      ensures env.faults == old(env.faults) || env.troubles == old(env.troubles) ==> r == Alive(Again)
      ensures old(env.pauses) <= env.pauses <= old(env.pauses) + PausesAfter(lastAttempt)
      ensures r == Alive(Again) ==> env.pauses == old(env.pauses) + PausesAfter(lastAttempt)
    {
      if !lastAttempt {
        var waited :- WaitForChunkRetry(blob);
        if waited.Err? { return Alive(Failed(waited.error)); }
      }
      r := Alive(Again);
    }

    /** What the answer to a PATCH, or its absence, means for the chunk. */
    method SettlePatch(patched: Result<(int, Location), ErrorKind>, start: Chunk, reporter: OffsetReporter,
                       lastAttempt: bool, ghost blob: Bytes, ghost accepted: nat)
      returns (r: Step<Attempt>, current: Chunk)
      requires Ready(blob) && start == NextChunk(start.location, start.offset, |blob|, chunkSize)
      requires 0 <= start.offset && HoldsExactly(env.world, blob, start.location, start.offset + accepted)
      requires patched.Ok? ==>
                 && patched.value.0 == start.offset + accepted
                 && HoldsExactly(env.world, blob, patched.value.1, start.offset + accepted)
      requires reporter.Valid()
      modifies env`world, env`faults, env`troubles, env`pauses, env`losses
      modifies reporter`reported, if reporter.tracker == null then {} else {reporter.tracker}
      ensures Ready(blob)
      ensures old(env.faults) <= env.faults && old(env.troubles) <= env.troubles && env.losses <= old(env.losses)
      ensures reporter.Valid() && reporter.Covers(|blob|) == old(reporter.Covers(|blob|))
      ensures old(reporter.Covers(|blob|) && reporter.InStep()) ==> reporter.InStep()
      ensures r.Alive? ==> AttemptOutcome(r.value, start, current, env.losses == old(env.losses), blob)
      ensures env.faults == old(env.faults) && patched.Ok? && accepted > 0 ==>
                && r == Alive(Uploaded) && current.offset == start.offset + accepted
                && current.location == patched.value.1
                && (old(Live(env.world, patched.value.1)) ==> Live(env.world, current.location))
      ensures env.troubles == old(env.troubles) && patched.Ok? && accepted > 0 ==> r == Alive(Uploaded)
      ensures env.troubles == old(env.troubles) && patched.Err? && !old(Live(env.world, start.location)) ==>
                r == Alive(Again) && env.losses < old(env.losses)
      ensures old(env.pauses) <= env.pauses <= old(env.pauses) + PausesAfter(lastAttempt)
      ensures r == Alive(Again) ==> env.pauses == old(env.pauses) + PausesAfter(lastAttempt)
    {
      if patched.Err? {
        r, current := SettleFailedPatch(start, reporter, lastAttempt, blob);
        return;
      }
      current := start;
      var (nextOffset, nextLocation) := patched.value;
      if nextOffset <= current.offset || nextOffset > target.size {
        return Alive(Failed(OffsetOutOfRange)), current;
      }
      current := current.(offset := nextOffset, location := nextLocation);
      var saved :- Save(current.location, current.offset, blob);
      return Alive(if saved.Err? then Failed(StateFailure) else Uploaded), current;
    }

    /** A failed PATCH is retried from the same offset only when the session holds something: an
        empty session has no range to answer the status check with, so a first chunk of which
        nothing arrived ends the run unless the session is gone. If nothing else goes wrong, what a
        living session holds decides. */
    method SettleFailedPatch(start: Chunk, reporter: OffsetReporter, lastAttempt: bool, ghost blob: Bytes)
      returns (r: Step<Attempt>, current: Chunk)
      requires Ready(blob) && HoldsAtLeast(env.world, blob, start.location, start.offset)
      requires start == NextChunk(start.location, start.offset, |blob|, chunkSize) && reporter.Valid()
      modifies env`world, env`faults, env`troubles, env`pauses, env`losses
      modifies reporter`reported, if reporter.tracker == null then {} else {reporter.tracker}
      ensures Ready(blob)
      ensures old(env.faults) <= env.faults && old(env.troubles) <= env.troubles && env.losses <= old(env.losses)
      ensures reporter.Valid() && reporter.Covers(|blob|) == old(reporter.Covers(|blob|))
      ensures old(reporter.Covers(|blob|) && reporter.InStep()) ==> reporter.InStep()
      ensures r.Alive? ==> AttemptOutcome(r.value, start, current, env.losses == old(env.losses), blob)
      ensures r == Alive(Again) && env.losses == old(env.losses) ==> start.offset > 0
      ensures env.faults == old(env.faults) && old(Live(env.world, start.location)) ==>
                var held := |old(env.world).sessions[start.location.session]|;
                r == Alive(if held == 0 then Failed(StatusFailure)
                           else if held > start.offset then Uploaded else Again)
      ensures env.troubles == old(env.troubles) && !old(Live(env.world, start.location)) ==>
                r == Alive(Again) && env.losses < old(env.losses)
      ensures old(env.pauses) <= env.pauses <= old(env.pauses) + PausesAfter(lastAttempt)
      ensures r == Alive(Again) ==> env.pauses == old(env.pauses) + PausesAfter(lastAttempt)
    {
      var recovered;
      recovered, current := RecoverOrRestartChunk(start, start.offset, reporter, blob);
      if recovered.Died? { return Died, current; }
      if recovered.value.Err? { return Alive(Failed(recovered.value.error)), current; }
      if recovered.value.value { return Alive(Uploaded), current; }
      r := BeforeRetry(lastAttempt, blob);
    }

    /** uploadChunkWithRetry: sends at most maxAttempts PATCH requests, and when it succeeds
        either the offset rose or the session was lost and the upload restarted. */
    method UploadChunkWithRetry(start: Chunk, prefetcher: ChunkPrefetcher, reporter: OffsetReporter,
                                ghost blob: Bytes, ghost from: nat)
      returns (r: Step<Result<(), Failure>>, current: Chunk)
      requires Ready(blob) && HoldsExactly(env.world, blob, start.location, start.offset)
      requires start.offset < |blob| && start == NextChunk(start.location, start.offset, |blob|, chunkSize)
      requires Serves(prefetcher, blob) && reporter.Valid()
      modifies env, prefetcher, reporter`reported, if reporter.tracker == null then {} else {reporter.tracker}
      ensures Ready(blob)
      ensures old(env.faults) <= env.faults && old(env.troubles) <= env.troubles && env.losses <= old(env.losses)
      ensures old(env.patches) <= env.patches <= old(env.patches) + maxAttempts
      ensures old(prefetcher.failures) <= prefetcher.failures
      ensures r.Alive? ==> Serves(prefetcher, blob)
      ensures reporter.Valid() && reporter.Covers(|blob|) == old(reporter.Covers(|blob|))
      ensures old(reporter.Covers(|blob|) && reporter.InStep()) ==> reporter.InStep()
      ensures r.Alive? && r.value.Err? ==> r.value.error != MovedBackwards && r.value.error != PastEnd
      ensures r.Alive? && r.value.Ok? ==>
                && HoldsExactly(env.world, blob, current.location, current.offset)
                && (if env.losses == old(env.losses) then current.offset > start.offset else current.offset > 0)
      ensures Undisturbed(old(env.faults), old(prefetcher.failures), prefetcher)
              && old(Live(env.world, start.location)) && chunkSize > 0 && maxAttempts > 0 ==>
                && r.Alive? && r.value.Ok? && Live(env.world, current.location)
                && current.offset == start.end + 1 && env.patches == old(env.patches) + 1
                && (old(prefetcher.InChain(from, start.offset)) ==> prefetcher.InChain(from, current.offset))
      ensures r == Alive(Err(AttemptsExhausted)) ==>
                env.patches + prefetcher.failures >= old(env.patches) + old(prefetcher.failures) + maxAttempts
      ensures OnlyLosses(old(env.troubles), old(prefetcher.failures), prefetcher) ==>
                r.Alive? && (r.value.Err? ==> Exhausted(r.value.error, old(env.losses)))
      ensures r == Alive(Err(AttemptsExhausted)) && maxAttempts > 0 ==> env.pauses == old(env.pauses) + maxAttempts - 1
    {
      current := start;
      for attempt := 1 to maxAttempts + 1
        invariant Ready(blob) && HoldsExactly(env.world, blob, current.location, current.offset)
        invariant current.offset < |blob| && current == NextChunk(current.location, current.offset, |blob|, chunkSize)
        invariant Serves(prefetcher, blob) && reporter.Valid()
        invariant old(env.faults) <= env.faults && old(env.troubles) <= env.troubles && env.losses <= old(env.losses)
        invariant old(env.patches) <= env.patches <= old(env.patches) + attempt - 1
        invariant old(prefetcher.failures) <= prefetcher.failures
        invariant reporter.Covers(|blob|) == old(reporter.Covers(|blob|))
        invariant old(reporter.Covers(|blob|) && reporter.InStep()) ==> reporter.InStep()
        invariant if env.losses == old(env.losses) then current.offset == start.offset else current.offset == 0
        invariant attempt == 1 ==> unchanged(env) && unchanged(prefetcher) && current == start
        invariant attempt > 1 && old(Live(env.world, start.location)) && chunkSize > 0 ==>
                    !Undisturbed(old(env.faults), old(prefetcher.failures), prefetcher)
        invariant env.pauses ==
                  old(env.pauses) + if 1 < attempt && attempt > maxAttempts then attempt - 2 else attempt - 1
        invariant env.patches + prefetcher.failures >= old(env.patches) + old(prefetcher.failures) + attempt - 1
        invariant OnlyLosses(old(env.troubles), old(prefetcher.failures), prefetcher) ==>
                    env.losses + attempt - 1 <= old(env.losses)
      {
        var attempted;
        attempted, current := AttemptChunk(current, prefetcher, reporter, attempt == maxAttempts, blob, from);
        match attempted {
          case Died => return Died, current;
          case Alive(Failed(why)) => return Alive(Err(why)), current;
          case Alive(Uploaded) => return Alive(Ok(())), current;
          case Alive(Again) =>
        }
      }
      r := Alive(Err(AttemptsExhausted));
    }

    /** One turn of pushBlobChunked's loop, with what it costs. */
    method PushChunk(start: Chunk, prefetcher: ChunkPrefetcher, reporter: OffsetReporter,
                     ghost blob: Bytes, ghost from: nat)
      returns (r: Step<Result<(), Failure>>, current: Chunk)
      requires Ready(blob) && HoldsExactly(env.world, blob, start.location, start.offset) && start.offset < |blob|
      requires Serves(prefetcher, blob) && reporter.Valid()
      modifies env, prefetcher, reporter`reported, if reporter.tracker == null then {} else {reporter.tracker}
      ensures Ready(blob)
      ensures old(env.faults) <= env.faults && old(env.troubles) <= env.troubles && env.losses <= old(env.losses)
      ensures old(prefetcher.failures) <= prefetcher.failures
      ensures r.Alive? ==> Serves(prefetcher, blob)
      ensures reporter.Valid() && reporter.Covers(|blob|) == old(reporter.Covers(|blob|))
      ensures old(reporter.Covers(|blob|) && reporter.InStep()) ==> reporter.InStep()
      ensures r.Alive? && r.value.Err? ==> r.value.error != MovedBackwards && r.value.error != PastEnd
      ensures env.patches <= old(env.patches) + maxAttempts
      ensures maxAttempts <= maxAttempts * Potential(old(env.losses), |blob|, start.offset)
      ensures r.Alive? && r.value.Ok? ==>
                && HoldsExactly(env.world, blob, current.location, current.offset)
                && reporter.reported == current.offset
                && (env.losses < old(env.losses) || current.offset > start.offset)
                && maxAttempts + maxAttempts * Potential(env.losses, |blob|, current.offset)
                   <= maxAttempts * Potential(old(env.losses), |blob|, start.offset)
      ensures CleanRun(old(env.faults), old(prefetcher.failures), prefetcher, old(env.world), start) ==>
                && r.Alive? && r.value.Ok? && Live(env.world, current.location)
                && env.patches == old(env.patches) + 1
                && ChunksIn(|blob| - start.offset, chunkSize) == 1 + ChunksIn(|blob| - current.offset, chunkSize)
                && (old(prefetcher.InChain(from, start.offset)) ==> prefetcher.InChain(from, current.offset))
      ensures OnlyLosses(old(env.troubles), old(prefetcher.failures), prefetcher) ==>
                r.Alive? && (r.value.Err? ==> Exhausted(r.value.error, old(env.losses)))
    {
      current := NextChunk(start.location, start.offset, target.size, chunkSize);
      r, current := UploadChunkWithRetry(current, prefetcher, reporter, blob, from);
      PotentialBounds(maxAttempts, env.losses, old(env.losses), |blob|, start.offset, current.offset);
      if r.Died? || r.value.Err? { return; }
      reporter.Set(current.offset, |blob|);
      if chunkSize > 0 { ChunksInStep(|blob| - start.offset, chunkSize); }
    }

    /** Nothing goes wrong from a world in which the session of start is alive. */
    ghost predicate CleanRun(faults: nat, failures: nat, prefetcher: ChunkPrefetcher, w: World, start: Chunk)
      reads env, prefetcher
    {
      Undisturbed(faults, failures, prefetcher) && Live(w, start.location) && chunkSize > 0 && maxAttempts > 0
    }

    /** The loop of pushBlobChunked. */
    method PushChunks(start: Chunk, prefetcher: ChunkPrefetcher, reporter: OffsetReporter, ghost blob: Bytes)
      returns (r: Step<Result<(), Failure>>, current: Chunk)
      requires Ready(blob) && HoldsExactly(env.world, blob, start.location, start.offset)
      requires Serves(prefetcher, blob) && reporter.Valid() && reporter.reported == start.offset
      modifies env, prefetcher, reporter`reported, if reporter.tracker == null then {} else {reporter.tracker}
      ensures Ready(blob)
      ensures old(env.faults) <= env.faults && old(env.troubles) <= env.troubles && env.losses <= old(env.losses)
      ensures old(prefetcher.failures) <= prefetcher.failures
      ensures r.Alive? ==> Serves(prefetcher, blob)
      ensures reporter.Valid() && reporter.Covers(|blob|) == old(reporter.Covers(|blob|))
      ensures old(reporter.Covers(|blob|) && reporter.InStep()) ==> reporter.InStep()
      ensures r.Alive? && r.value.Err? ==> r.value.error != MovedBackwards && r.value.error != PastEnd
      ensures env.patches <= old(env.patches) + maxAttempts * Potential(old(env.losses), |blob|, start.offset)
      ensures r.Alive? && r.value.Ok? ==>
                && HoldsExactly(env.world, blob, current.location, |blob|)
                && current.offset == reporter.reported == |blob|
      ensures CleanRun(old(env.faults), old(prefetcher.failures), prefetcher, old(env.world), start) ==>
                && r.Alive? && r.value.Ok? && Live(env.world, current.location)
                && env.patches == old(env.patches) + ChunksIn(|blob| - start.offset, chunkSize)
                && (old(prefetcher.InChain(start.offset, start.offset)) ==> prefetcher.InChain(start.offset, |blob|))
      ensures OnlyLosses(old(env.troubles), old(prefetcher.failures), prefetcher) ==>
                r.Alive? && (r.value.Err? ==> Exhausted(r.value.error, old(env.losses)))
    {
      current := start;
      NoLess(maxAttempts, old(env.losses), |blob|, start.offset);
      while current.offset < target.size
        invariant Ready(blob) && HoldsExactly(env.world, blob, current.location, current.offset)
        invariant Serves(prefetcher, blob) && reporter.Valid() && reporter.reported == current.offset
        invariant old(env.faults) <= env.faults && old(env.troubles) <= env.troubles && env.losses <= old(env.losses)
        invariant old(prefetcher.failures) <= prefetcher.failures
        invariant reporter.Covers(|blob|) == old(reporter.Covers(|blob|))
        invariant old(reporter.Covers(|blob|) && reporter.InStep()) ==> reporter.InStep()
        invariant 0 <= maxAttempts * Potential(env.losses, |blob|, current.offset)
        invariant env.patches + maxAttempts * Potential(env.losses, |blob|, current.offset)
               <= old(env.patches) + maxAttempts * Potential(old(env.losses), |blob|, start.offset)
        invariant CleanRun(old(env.faults), old(prefetcher.failures), prefetcher, old(env.world), start) ==>
                    && Live(env.world, current.location)
                    && env.patches + ChunksIn(|blob| - current.offset, chunkSize)
                       == old(env.patches) + ChunksIn(|blob| - start.offset, chunkSize)
                    && (old(prefetcher.InChain(start.offset, start.offset)) ==>
                          prefetcher.InChain(start.offset, current.offset))
        decreases env.losses, target.size - current.offset
      {
        r, current := PushChunk(current, prefetcher, reporter, blob, start.offset);
        if r.Died? || r.value.Err? { return; }
        NoLess(maxAttempts, env.losses, |blob|, current.offset);
      }
      r := Alive(Ok(()));
    }

    /** putBlobUpload, and forgetting the upload. */
    method Finalize(current: Chunk, blob: Bytes) returns (r: Step<Result<(), Failure>>)
      requires Ready(blob) && HoldsExactly(env.world, blob, current.location, |blob|)
      modifies env
      ensures Ready(blob) && old(env.faults) <= env.faults && old(env.troubles) <= env.troubles
      ensures env.losses == old(env.losses) && env.patches == old(env.patches)
      ensures r.Alive? && r.value.Ok? ==> env.world.stored && env.world.file == Absent
      ensures r.Alive? && r.value.Err? ==> r.value.error == FinalizeFailure || r.value.error == StateFailure
      ensures env.faults == old(env.faults) && old(Live(env.world, current.location)) ==> r.Alive? && r.value.Ok?
      ensures env.troubles == old(env.troubles) ==>
                r.Alive? && (r.value.Err? ==> r.value.error == FinalizeFailure && LostBeforePut(env.log))
    {
      assert blob[..|blob|] == blob;
      var put := env.Put(current.location, blob);
      DurableBackground(old(env.world).(stored := env.world.stored), env.world, blob, target);
      if |env.log| > |old(env.log)| { SafeLogGrows(old(env.log), env.log, blob); }
      if put.Died? { return Died; }
      if put.value.Err? { return Alive(Err(FinalizeFailure)); }
      ghost var before := env.world;
      var deleted := env.DeleteState();
      DurableBackground(before.(file := env.world.file), env.world, blob, target);
      if deleted.Died? { return Died; }
      return Alive(if deleted.value.Err? then Err(StateFailure) else Ok(()));
    }

    /** Every attempt that was allowed for a chunk met a session that was gone. */
    ghost predicate Exhausted(why: Failure, losses: nat)
      reads env
    {
      why == AttemptsExhausted && env.losses + maxAttempts <= losses
    }

    /** Where a push whose only trouble is lost sessions may end. */
    ghost predicate StoredOrLost(r: Result<(), Failure>, losses: nat)
      reads env
    {
      match r
      case Ok(_) => env.world.stored
      case Err(why) => Exhausted(why, losses) || (why == FinalizeFailure && LostBeforePut(env.log))
    }

    /** The rest of pushBlobChunked once a session is at hand. */
    method PushStarted(start: Chunk, chunks: ChunkPrefetcher, tracker: Tracker?, blob: Bytes)
      returns (r: Step<Result<(), Failure>>)
      requires Ready(blob) && HoldsExactly(env.world, blob, start.location, start.offset)
      requires Serves(chunks, blob) && chunks.pending == None && chunks.spans == []
      requires tracker != null ==> tracker.Valid()
      modifies env, chunks, if tracker == null then {} else {tracker}
      ensures Ready(blob)
      ensures old(env.faults) <= env.faults && old(env.troubles) <= env.troubles && env.losses <= old(env.losses)
      ensures old(chunks.failures) <= chunks.failures
      ensures r.Alive? && r.value.Err? ==> r.value.error != MovedBackwards && r.value.error != PastEnd
      ensures env.patches <= old(env.patches) + maxAttempts * Potential(old(env.losses), |blob|, start.offset)
      ensures r.Alive? ==> chunks.tempFiles == {}
      ensures tracker != null ==> tracker.Valid()
      ensures r.Alive? && r.value.Ok? ==>
                && env.world.stored && env.world.file == Absent
                && (tracker != null && old(Room(tracker, |blob|)) ==>
                      tracker.event.bytes == old(tracker.event.bytes) + |blob|)
      ensures CleanRun(old(env.faults), old(chunks.failures), chunks, old(env.world), start) ==>
                && r.Alive? && r.value.Ok?
                && env.patches == old(env.patches) + ChunksIn(|blob| - start.offset, chunkSize)
                && (chunks.spool ==> Chained(chunks.spans, start.offset, |blob|))
      ensures OnlyLosses(old(env.troubles), old(chunks.failures), chunks) ==>
                r.Alive? && StoredOrLost(r.value, old(env.losses))
    {
      var reporter := new OffsetReporter(tracker);
      reporter.Set(start.offset, |blob|);
      var current;
      r, current := PushChunks(start, chunks, reporter, blob);
      if r.Alive? && r.value.Ok? {
        r := Finalize(current, blob);
      }
      if r.Alive? { chunks.Close(); }
    }

    /** pushBlobChunked. Whatever happens, death included, the requests sent are safe and the
        world stays resumable; the temp files are gone unless the process died; and without
        faults the blob is stored with one PATCH per chunk and one read per byte. */
    method PushBlobChunked(blob: Bytes, spool: bool, tracker: Tracker?)
      returns (r: Step<Result<(), Failure>>, ghost prefetcher: ChunkPrefetcher, ghost began: nat)
      requires Ready(blob) && (tracker != null ==> tracker.Valid())
      modifies env, if tracker == null then {} else {tracker}
      ensures Ready(blob) && fresh(prefetcher)
      ensures old(env.faults) <= env.faults && old(env.troubles) <= env.troubles && env.losses <= old(env.losses)
      ensures r.Alive? && r.value.Err? ==> r.value.error != MovedBackwards && r.value.error != PastEnd
      ensures env.patches <= old(env.patches) + maxAttempts * Potential(old(env.losses), |blob|, 0)
      ensures r.Alive? ==> prefetcher.tempFiles == {}
      ensures tracker != null ==> tracker.Valid()
      ensures r.Alive? && r.value.Ok? ==>
                && env.world.stored && env.world.file == Absent
                && (tracker != null && old(Room(tracker, |blob|)) ==>
                      tracker.event.bytes == old(tracker.event.bytes) + |blob|)
      ensures old(env.world).file == Unreadable ==>
                (r.Died? || r.value == Err(StateFailure)) && env.log == old(env.log) && env.world.file == Unreadable
      ensures env.faults == old(env.faults) && prefetcher.failures == 0 && old(env.world).file != Unreadable
              && chunkSize > 0 && maxAttempts > 0 ==>
                && r.Alive? && r.value.Ok? && began == ResumeOffset(old(env.world))
                && env.patches == old(env.patches) + ChunksIn(|blob| - began, chunkSize)
                && (spool ==> Chained(prefetcher.spans, began, |blob|))
      ensures OnlyLosses(old(env.troubles), 0, prefetcher) && old(env.world).file != Unreadable ==>
                r.Alive? && StoredOrLost(r.value, old(env.losses))
    {
      var chunks := new ChunkPrefetcher(blob, chunkSize, spool);
      prefetcher, began := chunks, 0;
      NoLess(maxAttempts, env.losses, |blob|, 0);
      var started := StartOrResumeBlobUpload(blob);
      if started.Died? { return Died, prefetcher, began; }
      if started.value.Err? { return Alive(Err(started.value.error)), prefetcher, began; }
      began := started.value.value.offset;
      PotentialFalls(maxAttempts, env.losses, old(env.losses), |blob|, began);
      r := PushStarted(started.value.value, chunks, tracker, blob);
    }

    /** Nothing but sessions that were lost. */
    ghost predicate OnlyLosses(troubles: nat, failures: nat, prefetcher: ChunkPrefetcher)
      reads env, prefetcher
    {
      env.troubles == troubles && prefetcher.failures == failures && chunkSize > 0
    }

    /** Nothing went wrong since. */
    ghost predicate Undisturbed(faults: nat, failures: nat, prefetcher: ChunkPrefetcher)
      reads env, prefetcher
    {
      env.faults == faults && prefetcher.failures == failures
    }
  }

  /** Any number of runs, each with its own options and cut short anywhere, with any time in
      between: every PATCH and PUT ever sent is safe, and the last world is still resumable. From
      an unreadable record no number of runs sends anything, or gets rid of it. */
  method Runs(env: Env, target: Target, blob: Bytes, options: seq<Options>)
    requires |blob| == target.size <= MAX_INT64
    requires Durable(env.world, blob, target) && SafeLog(env.log, blob)
    modifies env
    ensures Durable(env.world, blob, target) && SafeLog(env.log, blob)
    ensures old(env.world).file == Unreadable ==> env.log == old(env.log) && env.world.file == Unreadable
  {
    for i := 0 to |options|
      invariant Durable(env.world, blob, target) && SafeLog(env.log, blob)
      invariant old(env.world).file == Unreadable ==> env.log == old(env.log) && env.world.file == Unreadable
    {
      ghost var before := env.world;
      env.Wait();
      DurableBackground(before, env.world, blob, target);
      var run := new Repository(env, target, options[i].chunkSize, options[i].maxChunkAttempts);
      var outcome, _, _ := run.PushBlobChunked(blob, options[i].spoolChunks, null);
    }
  }

  datatype Options = Options(chunkSize: int, maxChunkAttempts: int, spoolChunks: bool)

  /** A registry that answers an empty session with "0-0" breaks the invariant: the push would
      resume at offset 1, and any chunk it sends from there is an unsafe request. */
  lemma ZeroZeroBreaksTheInvariant(w: World, blob: Bytes, target: Target, at: Location, body: Bytes)
    requires Durable(w, blob, target) && OursAt(w, at) && Live(w, at) && w.sessions[at.session] == []
    ensures NextOffsetFromRange("0-0") == Ok(1)
    ensures HoldsExactly(w, blob, at, 0) && !HoldsExactly(w, blob, at, 1)
    ensures !SafeRequest(PatchSent(at, 1, body, Some(w.sessions[at.session])), blob)
  {
    ZeroZeroReadsAsOneByte();
    assert blob[..0] == [];
    if |blob| >= 1 { assert |blob[..1]| == 1; }
  }

  // ----- how many requests a push needs -----

  /** Chunks of a size that cover a number of bytes. */
  function ChunksIn(bytes: int, chunkSize: int): int {
    if bytes <= 0 || chunkSize <= 0 then 0 else (bytes + chunkSize - 1) / chunkSize
  }

  lemma ChunksInStep(bytes: int, chunkSize: int)
    requires 0 < bytes && 0 < chunkSize
    ensures ChunksIn(bytes, chunkSize) == 1 + ChunksIn(bytes - Min(chunkSize, bytes), chunkSize)
  {
    if bytes <= chunkSize {
      QuotientAtLeast(bytes + chunkSize - 1, chunkSize, 1);
      QuotientBelow(bytes + chunkSize - 1, chunkSize, 2);
    } else {
      var q := (bytes - 1) / chunkSize;
      QuotientAtLeast(bytes + chunkSize - 1, chunkSize, q + 1);
      QuotientBelow(bytes + chunkSize - 1, chunkSize, q + 2);
    }
  }

  /** Bytes still to send if every session that may still be lost is lost at its very end. */
  ghost function Potential(losses: nat, size: nat, offset: int): int {
    losses * size + size - offset
  }

  lemma PotentialBounds(attempts: nat, losses': nat, losses: nat, size: nat, offset: int, offset': int)
    requires losses' <= losses && 0 <= offset < size
    ensures attempts <= attempts * Potential(losses, size, offset)
    ensures (if losses' == losses then offset' > offset else offset' > 0) ==>
              attempts + attempts * Potential(losses', size, offset') <= attempts * Potential(losses, size, offset)
  {
    var before, after := Potential(losses, size, offset), Potential(losses', size, offset');
    assert before >= 1 by { assert losses * size >= 0; }
    ProductGrows(attempts, 1, before);
    if if losses' == losses then offset' > offset else offset' > 0 {
      if losses' < losses {
        ProductGrows(size, losses', losses - 1);
        assert size * losses' <= size * (losses - 1) == losses * size - size;
      }
      assert after + 1 <= before;
      ProductGrows(attempts, after + 1, before);
    }
  }

  lemma NoLess(attempts: nat, losses: nat, size: nat, offset: int)
    requires offset <= size
    ensures 0 <= attempts * Potential(losses, size, offset)
  {
    assert losses * size >= 0;
    ProductGrows(attempts, 0, Potential(losses, size, offset));
  }

  lemma PotentialFalls(attempts: nat, losses': nat, losses: nat, size: nat, offset: int)
    requires losses' <= losses && 0 <= offset
    ensures attempts * Potential(losses', size, offset) <= attempts * Potential(losses, size, 0)
  {
    ProductGrows(size, losses', losses);
    ProductGrows(attempts, Potential(losses', size, offset), Potential(losses, size, 0));
  }

  lemma ProductGrows(a: nat, b: int, c: int)
    requires b <= c
    ensures a * b <= a * c
  {
  }

  /** Uploaded: some bytes of the chunk are in. Again: nothing is, or the upload restarted. */
  datatype Attempt = Uploaded | Again | Failed(why: Failure)

  datatype RecoverError = LostSession | Broken(why: Failure)

  lemma ReadsCommitted(reply: Reply, at: Location, committed: nat)
    requires at.Url? && ReplyShows(reply, at, committed) && committed <= MAX_INT64
    ensures NextOffsetFromRange(reply.range) == if committed == 0 then Err(MissingRange) else Ok(committed)
  {
    var unit := reply.range == RangeOf(committed, true);
    if committed == 0 { EmptyRangeIsMissing(unit); } else { RangeRoundTrip(committed, unit); }
  }
}
