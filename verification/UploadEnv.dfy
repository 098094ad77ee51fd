/** What a chunked push acts on: a registry that may lose requests and replies, accept part of
    a chunk or forget a session, the state file kept between runs, and a process that may die
    before or after any of its effects. */
module UploadEnv {
  import opened Wrappers
  import opened RangeHeader

  type Bytes = seq<bv8>

  /** An upload URL names a session; the token part changes with every reply. */
  datatype Location = NoLocation | Url(session: nat, token: nat)

  /** errdef.ClassifyError, as far as an upload depends on it. */
  datatype ErrorKind = UploadUnknown | OtherError

  datatype Reply = Reply(range: string, location: Location)

  /** What identifies a push: the registry, the repository and the blob. */
  datatype Target = Target(registry: string, repository: string, digest: string, size: int)

  datatype UploadState = UploadState(target: Target, location: Location, lastKnownOffset: int)

  /** Unreadable covers a write cut short: loading it fails to decode. */
  datatype StateFile = Absent | Unreadable | Record(state: UploadState)

  datatype World = World(
    sessions: map<nat, Bytes>,  // live upload sessions and the bytes each has committed
    nextSession: nat,
    ours: set<nat>,             // the sessions this client opened for this blob
    file: StateFile,
    stored: bool)               // whether a finalized upload stored the blob

  /** A request that writes, with what its session held when it was sent, if it was alive. */
  datatype Request =
    | PatchSent(at: Location, offset: int, body: Bytes, held: Option<Bytes>)
    | PutSent(at: Location, held: Option<Bytes>)

  /** Session numbers are handed out in order. */
  ghost predicate Numbered(w: World) {
    forall u :: u in w.ours ==> u < w.nextSession
  }

  // ----- what a step may do to the world -----

  ghost predicate SameOrGone(w: World, w': World, u: nat) {
    u in w'.sessions ==> u in w.sessions && w'.sessions[u] == w.sessions[u]
  }

  /** Time passes: any session may expire, and other clients do what they like. */
  ghost predicate Background(w: World, w': World) {
    && w' == w.(sessions := w'.sessions, nextSession := w'.nextSession)
    && w.nextSession <= w'.nextSession
    && forall u :: u in w.ours ==> SameOrGone(w, w', u)
  }

  /** The same, when no session of ours expires. */
  ghost predicate Calm(w: World, w': World) {
    && Background(w, w')
    && forall u :: u in w.ours && u in w.sessions ==> u in w'.sessions
  }

  /** A session was opened, unless the request got lost. */
  ghost predicate Opened(w: World, w': World) {
    && w' == w.(sessions := w'.sessions, nextSession := w'.nextSession, ours := w'.ours)
    && w.nextSession <= w'.nextSession
    && w.ours <= w'.ours
    && (forall u :: u in w.ours ==> SameOrGone(w, w', u))
    && (forall u :: u in w'.ours && u !in w.ours ==>
          w.nextSession <= u < w'.nextSession && (u in w'.sessions ==> w'.sessions[u] == []))
  }

  /** A session appends only at its committed length, and possibly only part of the body. */
  ghost predicate Patched(w: World, w': World, u: nat, offset: int, body: Bytes, accepted: nat) {
    && w' == w.(sessions := w'.sessions, nextSession := w'.nextSession)
    && w.nextSession <= w'.nextSession
    && (forall v :: v in w.ours && v != u ==> SameOrGone(w, w', v))
    && accepted <= |body|
    && (u in w'.sessions && u in w.ours ==>
          && u in w.sessions
          && w'.sessions[u] == w.sessions[u] + if |w.sessions[u]| == offset then body[..accepted] else [])
  }

  /** Only the state file changed, to what was written or to a truncated file. */
  ghost predicate Saved(w: World, w': World, state: UploadState) {
    && Background(w.(file := w'.file), w')
    && (w'.file == w.file || w'.file == Unreadable || w'.file == Record(state))
  }

  class Env {
    var world: World
    /** How many more times a status check is answered with "upload unknown". */
    var losses: nat
    ghost var log: seq<Request>
    ghost var patches: nat
    /** How often something went wrong: a loss, a refusal, an expiry, a death. */
    ghost var faults: nat
    /** The same without the sessions that expire, as long as a status request says that they did. */
    ghost var troubles: nat
    /** The pauses between attempts. */
    ghost var pauses: nat

    constructor (world: World, losses: nat)
      ensures this.world == world && this.losses == losses
      ensures log == [] && patches == 0 && faults == 0 && troubles == 0 && pauses == 0
    {
      this.world, this.losses := world, losses;
      log, patches, faults, troubles, pauses := [], 0, 0, 0, 0;
    }

    method Goes() returns (wrong: bool)
      modifies this`faults, this`troubles
      ensures faults == old(faults) + (if wrong then 1 else 0)
      ensures troubles == old(troubles) + (if wrong then 1 else 0)
    {
      wrong := *;
      if wrong { faults, troubles := faults + 1, troubles + 1; }
    }

    method Wait()
      modifies this`world, this`faults
      ensures Background(old(world), world) && old(faults) <= faults
      ensures faults == old(faults) ==> Calm(old(world), world)
    {
      var gone: set<nat> := *;
      if gone != {} { faults := faults + 1; }
      var others: map<nat, Bytes> := *;
      var later: nat :| true;
      world := world.(
        sessions := map u | u in world.sessions.Keys + others.Keys
                            && (u in world.ours ==> u in world.sessions && u !in gone)
                            && (u !in world.ours ==> u in others)
                    :: if u in world.ours then world.sessions[u] else others[u],
        nextSession := world.nextSession + later);
    }

    method Cancelled() returns (r: Step<bool>)
      modifies this`world, this`faults, this`troubles
      ensures Background(old(world), world) && old(faults) <= faults && old(troubles) <= troubles
      ensures faults == old(faults) ==> Calm(old(world), world)
      ensures faults == old(faults) || troubles == old(troubles) ==> r == Alive(false)
    {
      Wait();
      var dies := Goes();
      if dies { return Died; }
      var cancelled := Goes();
      return Alive(cancelled);
    }

    /** The delay before the next attempt, unless the push is cancelled meanwhile. */
    method Pause() returns (r: Step<bool>)
      modifies this`world, this`faults, this`troubles, this`pauses
      ensures Background(old(world), world) && old(faults) <= faults && old(troubles) <= troubles
      ensures pauses == old(pauses) + 1
      ensures faults == old(faults) || troubles == old(troubles) ==> r == Alive(false)
    {
      pauses := pauses + 1;
      r := Cancelled();
    }

    method LoadState() returns (r: Step<Result<Option<UploadState>, ()>>)
      modifies this`world, this`faults, this`troubles
      ensures Background(old(world), world) && old(faults) <= faults && old(troubles) <= troubles
      ensures r.Alive? && r.value.Ok? ==>
                match old(world).file
                case Absent => r.value.value == None
                case Unreadable => false
                case Record(state) => r.value.value == Some(state)
      ensures faults == old(faults) ==>
                r.Alive? && (old(world).file != Unreadable ==> r.value.Ok?) && Calm(old(world), world)
      ensures troubles == old(troubles) ==> r.Alive? && (old(world).file != Unreadable ==> r.value.Ok?)
    {
      Wait();
      var dies := Goes();
      if dies { return Died; }
      var fails := Goes();
      if fails { return Alive(Err(())); }
      match world.file {
        case Absent => return Alive(Ok(None));
        case Unreadable => return Alive(Err(()));
        case Record(state) => return Alive(Ok(Some(state)));
      }
    }

    method SaveState(state: UploadState) returns (r: Step<Result<(), ()>>)
      modifies this`world, this`faults, this`troubles
      ensures Saved(old(world), world, state) && old(faults) <= faults && old(troubles) <= troubles
      ensures r.Alive? && r.value.Ok? ==> world.file == Record(state)
      ensures faults == old(faults) ==>
                r.Alive? && r.value.Ok? && Calm(old(world).(file := Record(state)), world)
      ensures troubles == old(troubles) ==> r.Alive? && r.value.Ok?
    {
      var dies := Goes();
      if dies { return Died; }
      var fails := Goes();
      if fails {
        var truncated: bool := *;
        if truncated { world := world.(file := Unreadable); }
        var alive: bool := *;
        return if alive then Alive(Err(())) else Died;
      }
      world := world.(file := Record(state));
      Wait();
      dies := Goes();
      return if dies then Died else Alive(Ok(()));
    }

    method DeleteState() returns (r: Step<Result<(), ()>>)
      modifies this`world, this`faults, this`troubles
      ensures old(faults) <= faults && old(troubles) <= troubles
      ensures Background(old(world).(file := world.file), world)
      ensures world.file == old(world).file || world.file == Absent
      ensures r.Alive? && r.value.Ok? ==> world.file == Absent
      ensures faults == old(faults) ==>
                r.Alive? && r.value.Ok? && Calm(old(world).(file := Absent), world)
      ensures troubles == old(troubles) ==> r.Alive? && r.value.Ok?
    {
      var dies := Goes();
      if dies { return Died; }
      var fails := Goes();
      if fails { return Alive(Err(())); }
      world := world.(file := Absent);
      Wait();
      dies := Goes();
      return if dies then Died else Alive(Ok(()));
    }

    method Post() returns (r: Step<Result<Location, ErrorKind>>)
      requires Numbered(world)
      modifies this`world, this`faults, this`troubles
      ensures Opened(old(world), world) && old(faults) <= faults && old(troubles) <= troubles
      ensures r.Alive? && r.value.Ok? ==>
                var at := r.value.value; at.Url? && at.session in world.ours && at.session !in old(world).ours
      ensures faults == old(faults) ==>
                r.Alive? && r.value.Ok? && r.value.value.session in world.sessions
      ensures troubles == old(troubles) ==> r.Alive? && r.value.Ok?
    {
      Wait();
      var dies := Goes();
      if dies { return Died; }
      var refused := Goes();
      if refused { var kind: ErrorKind := *; return Alive(Err(kind)); }
      ghost var before := world;
      var u := world.nextSession;
      world := world.(sessions := world.sessions[u := []], nextSession := u + 1, ours := world.ours + {u});
      Wait();
      dies := Goes();
      if dies { return Died; }
      var lost := Goes();
      if lost { return Alive(Err(OtherError)); }
      var token: nat :| true;
      return Alive(Ok(Url(u, token)));
    }

    /** The registry handles a PATCH that reached it. */
    method Append(u: nat, offset: int, body: Bytes) returns (done: bool, accepted: nat)
      modifies this`world, this`faults, this`troubles
      ensures old(faults) <= faults && old(troubles) <= troubles && accepted <= |body|
      ensures done ==>
                && u in old(world).sessions && |old(world).sessions[u]| == offset
                && world == old(world).(
                   sessions := old(world).sessions[u := old(world).sessions[u] + body[..accepted]])
      ensures !done ==> world == old(world) && accepted == 0
      ensures faults == old(faults) || troubles == old(troubles) ==>
                (done <==> u in old(world).sessions && |old(world).sessions[u]| == offset)
                && (done ==> accepted == |body|)
    {
      accepted := 0;
      var refused := Goes();
      if refused || u !in world.sessions || |world.sessions[u]| != offset { return false, 0; }
      accepted := |body|;
      var partial := Goes();
      if partial { accepted :| 0 <= accepted <= |body|; }
      world := world.(sessions := world.sessions[u := world.sessions[u] + body[..accepted]]);
      done := true;
    }

    /** accepted is how much of the body the session appended, known to the registry only. */
    method Patch(at: Location, offset: int, body: Bytes)
      returns (r: Step<Result<Reply, ErrorKind>>, ghost accepted: nat)
      requires at.Url? && at.session in world.ours
      modifies this
      ensures old(faults) <= faults && old(troubles) <= troubles && losses == old(losses) && pauses == old(pauses)
      ensures old(patches) <= patches <= old(patches) + 1
      ensures Patched(old(world), world, at.session, offset, body, accepted)
      ensures patches == old(patches) ==> log == old(log) && r.Died?
      ensures patches > old(patches) ==>
                && |log| == |old(log)| + 1 && log[..|old(log)|] == old(log)
                && var e := log[|old(log)|];
                   && e == PatchSent(at, offset, body, e.held)
                   && (e.held.Some? ==> at.session in old(world).sessions
                                        && e.held.value == old(world).sessions[at.session])
      ensures r.Alive? && r.value.Ok? ==>
                && at.session in old(world).sessions && |old(world).sessions[at.session]| == offset
                && ReplyShows(r.value.value, at, offset + accepted)
      ensures faults == old(faults) ==>
                && r.Alive?
                && (at.session in old(world).sessions && |old(world).sessions[at.session]| == offset ==>
                      r.value.Ok? && accepted == |body| && at.session in world.sessions)
      ensures troubles == old(troubles) ==>
                && r.Alive?
                && if r.value.Ok? then accepted == |body|
                   else accepted == 0 && !(at.session in world.sessions && |world.sessions[at.session]| == offset)
    {
      accepted := 0;
      Wait();
      var dies := Goes();
      if dies { return Died, 0; }
      var u := at.session;
      patches := patches + 1;
      log := log + [PatchSent(at, offset, body, if u in world.sessions then Some(world.sessions[u]) else None)];
      var done, taken := Append(u, offset, body);
      accepted := taken;
      var kind: ErrorKind := *;
      if !done { return Alive(Err(kind)), 0; }
      Wait();
      dies := Goes();
      if dies { return Died, accepted; }
      var lost := Goes();
      if lost { return Alive(Err(kind)), accepted; }
      var unit: bool, token: nat :| true;
      r := Alive(Ok(Reply(RangeOf(offset + taken, unit), Url(u, token))));
    }

    method Status(at: Location) returns (r: Step<Result<Reply, ErrorKind>>)
      requires at.Url? && at.session in world.ours
      modifies this`world, this`faults, this`troubles, this`losses
      ensures Background(old(world), world) && old(faults) <= faults && old(troubles) <= troubles
      ensures losses <= old(losses) <= losses + 1
      ensures r == Alive(Err(UploadUnknown)) <==> losses < old(losses)
      ensures r.Alive? && r.value.Ok? ==>
                && at.session in old(world).sessions
                && ReplyShows(r.value.value, at, |old(world).sessions[at.session]|)
      ensures faults == old(faults) ==>
                && r.Alive? && Calm(old(world), world)
                && (at.session in old(world).sessions ==> r.value.Ok?)
      ensures troubles == old(troubles) ==>
                r.Alive? && (at.session !in old(world).sessions ==> r.value == Err(UploadUnknown))
    {
      Wait();
      var dies := Goes();
      if dies { return Died; }
      var fails := Goes();
      if fails || at.session !in world.sessions {
        var unknown: bool := *;
        if losses > 0 && unknown {
          losses := losses - 1;
          return Alive(Err(UploadUnknown));
        }
        troubles := troubles + 1;
        return Alive(Err(OtherError));
      }
      var unit: bool, token: nat :| true;
      return Alive(Ok(Reply(RangeOf(|world.sessions[at.session]|, unit), Url(at.session, token))));
    }

    /** The registry stores the blob when the digest of what the session holds matches. */
    method Put(at: Location, blob: Bytes) returns (r: Step<Result<(), ErrorKind>>)
      requires at.Url? && at.session in world.ours
      modifies this
      ensures old(faults) <= faults && old(troubles) <= troubles && losses == old(losses) && patches == old(patches)
      ensures pauses == old(pauses)
      ensures Background(old(world).(stored := world.stored), world)
      ensures old(world).stored ==> world.stored
      ensures r.Alive? && r.value.Ok? ==> world.stored
      ensures log == old(log) || (
                && |log| == |old(log)| + 1 && log[..|old(log)|] == old(log)
                && var e := log[|old(log)|];
                   && e == PutSent(at, e.held)
                   && (e.held.Some? ==> at.session in old(world).sessions
                                        && e.held.value == old(world).sessions[at.session]))
      ensures world.stored && !old(world).stored ==>
                at.session in old(world).sessions && old(world).sessions[at.session] == blob
      ensures faults == old(faults) ==>
                && r.Alive?
                && (at.session in old(world).sessions && old(world).sessions[at.session] == blob ==> r.value.Ok?)
      ensures troubles == old(troubles) ==>
                && r.Alive?
                && (r.value.Err? ==> |log| == |old(log)| + 1 && log[|old(log)|].held != Some(blob))
    {
      Wait();
      var dies := Goes();
      if dies { return Died; }
      var u := at.session;
      log := log + [PutSent(at, if u in world.sessions then Some(world.sessions[u]) else None)];
      var refused := Goes();
      if refused || u !in world.sessions || world.sessions[u] != blob {
        var kind: ErrorKind := *;
        return Alive(Err(kind));
      }
      world := world.(sessions := world.sessions - {u}, stored := true);
      Wait();
      dies := Goes();
      if dies { return Died; }
      var lost := Goes();
      return Alive(if lost then Err(OtherError) else Ok(()));
    }
  }

  ghost predicate ReplyShows(reply: Reply, at: Location, committed: nat)
    requires at.Url?
  {
    && (reply.range == RangeOf(committed, true) || reply.range == RangeOf(committed, false))
    && reply.location.Url? && reply.location.session == at.session
  }
}
