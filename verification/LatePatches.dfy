/** The push of installer/internal/oras/repository/upload.go against a network that may deliver a
    PATCH at any later time, more than once and in any order, also after a status request was
    answered. The client is what the push comes to: it sends from an offset it was told for the
    session, and finalizes once it was told the whole length. */
module LatePatches {
  import opened UploadEnv

  datatype Patch = Patch(session: nat, offset: nat, body: Bytes)

  /** sent holds every PATCH that was ever on its way; told is the largest length the client was
      told for a session; stored is what a finalized upload stored. */
  datatype State = State(sessions: map<nat, Bytes>, sent: set<Patch>, told: map<nat, nat>, stored: set<Bytes>)

  datatype Action =
    | Open(u: nat)
    | Send(u: nat, size: nat)
    | Deliver(patch: Patch, accepted: nat)
    | Tell(u: nat, length: nat)
    | Expire(u: nat)
    | Put(u: nat)

  const INITIAL := State(map[], {}, map[], {})

  /** The body the push sends for a range. */
  function Slice(blob: Bytes, offset: nat, size: nat): Bytes
    requires offset + size <= |blob|
  {
    blob[offset..offset + size]
  }

  ghost predicate Next(s: State, s': State, a: Action, blob: Bytes) {
    match a
    case Open(u) =>
      u !in s.told && u !in s.sessions && s' == s.(sessions := s.sessions[u := []], told := s.told[u := 0])
    case Send(u, size) =>
      && u in s.told && 0 < size && s.told[u] + size <= |blob|
      && s' == s.(sent := s.sent + {Patch(u, s.told[u], Slice(blob, s.told[u], size))})
    case Deliver(patch, accepted) =>
      && patch in s.sent && accepted <= |patch.body|
      && s' == if patch.session in s.sessions && |s.sessions[patch.session]| == patch.offset
               then s.(sessions := s.sessions[patch.session := s.sessions[patch.session] + patch.body[..accepted]])
               else s
    case Tell(u, length) =>
      && u in s.told && u in s.sessions && s.told[u] <= length <= |s.sessions[u]|
      && s' == s.(told := s.told[u := length])
    case Expire(u) =>
      s' == s.(sessions := s.sessions - {u})
    case Put(u) =>
      && u in s.told && s.told[u] == |blob|
      && s' == if u in s.sessions then s.(stored := s.stored + {s.sessions[u]}) else s
  }

  /** Before a PATCH the session holds at least what the client was told, and a prefix. */
  ghost predicate Inv(s: State, blob: Bytes) {
    && (forall u :: u in s.sessions ==> s.sessions[u] <= blob && u in s.told && s.told[u] <= |s.sessions[u]|)
    && (forall u :: u in s.told ==> s.told[u] <= |blob|)
    && (forall p :: p in s.sent ==> IsSlice(p, blob))
    && forall b :: b in s.stored ==> b == blob
  }

  ghost predicate IsSlice(p: Patch, blob: Bytes) {
    p.offset + |p.body| <= |blob| && p.body == Slice(blob, p.offset, |p.body|)
  }

  lemma DeliveryKeepsPrefix(held: Bytes, p: Patch, accepted: nat, blob: Bytes)
    requires held <= blob && IsSlice(p, blob) && |held| == p.offset && accepted <= |p.body|
    ensures held + p.body[..accepted] <= blob
  {
    assert held == blob[..p.offset];
    assert held + p.body[..accepted] == blob[..p.offset + accepted];
  }

  lemma NextKeepsInv(s: State, s': State, a: Action, blob: Bytes)
    requires Inv(s, blob) && Next(s, s', a, blob)
    ensures Inv(s', blob)
  {
    match a {
      case Deliver(p, accepted) =>
        if p.session in s.sessions && |s.sessions[p.session]| == p.offset {
          DeliveryKeepsPrefix(s.sessions[p.session], p, accepted, blob);
        }
      case Put(u) =>
        if u in s.sessions { assert s.sessions[u] == blob; }
      case _ =>
    }
  }

  ghost predicate IsRun(states: seq<State>, actions: seq<Action>, blob: Bytes) {
    && |states| == |actions| + 1 && states[0] == INITIAL
    && forall i :: 0 <= i < |actions| ==> Next(states[i], states[i + 1], actions[i], blob)
  }

  lemma {:induction false} RunKeepsInv(states: seq<State>, actions: seq<Action>, blob: Bytes, i: nat)
    requires IsRun(states, actions, blob) && i < |states|
    ensures Inv(states[i], blob)
  {
    if i > 0 {
      RunKeepsInv(states, actions, blob, i - 1);
      NextKeepsInv(states[i - 1], states[i], actions[i - 1], blob);
    }
  }

  /** However late, often and partly the PATCH requests of a push arrive, every session holds a
      prefix of the blob, at least what the client was told; and what is stored is the blob. */
  lemma LateIsSafe(states: seq<State>, actions: seq<Action>, blob: Bytes, i: nat)
    requires IsRun(states, actions, blob) && i < |states|
    ensures forall u :: u in states[i].sessions ==>
              states[i].sessions[u] <= blob && u in states[i].told && states[i].told[u] <= |states[i].sessions[u]|
    ensures forall b :: b in states[i].stored ==> b == blob
    ensures i < |actions| && actions[i].Put? && actions[i].u in states[i].sessions ==>
              states[i].sessions[actions[i].u] == blob
  {
    RunKeepsInv(states, actions, blob, i);
    if i < |actions| && actions[i].Put? { assert Next(states[i], states[i + 1], actions[i], blob); }
  }

  /** The match of offset and length is what makes it safe: in the state after the first byte was
      sent and has arrived, a registry that appended a second copy of it wherever the session ends
      would hold bytes in the wrong place. */
  lemma AppendingAnywhereIsNot(blob: Bytes) returns (states: seq<State>, actions: seq<Action>, p: Patch)
    requires |blob| >= 2 && blob[0] != blob[1]
    ensures IsRun(states, actions, blob)
    ensures var s := states[|actions|];
            && p in s.sent && p.session in s.sessions && |s.sessions[p.session]| != p.offset
            && !(s.sessions[p.session] + p.body <= blob)
  {
    p := Patch(0, 0, Slice(blob, 0, 1));
    var begun := State(map[0 := []], {}, map[0 := 0], {});
    var sent := begun.(sent := {p});
    var arrived := sent.(sessions := map[0 := p.body]);
    states := [INITIAL, begun, sent, arrived];
    actions := [Open(0), Send(0, 1), Deliver(p, 1)];
    assert [] + p.body[..1] == p.body;
    assert (p.body + p.body)[1] == blob[0];
  }
}
