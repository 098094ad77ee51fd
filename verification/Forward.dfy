/** The self-healing port-forward of pkg/kube/forward.go: a supervisor, the forwarders it starts
    one after another, and any number of callers of Close, interleaved step by step. */
module Forward {

  const RECONNECT_ATTEMPTS: nat := 10
  const FIRST_DELAY: nat := 2
  const MAX_DELAY: nat := 30

  /** A forwarder: the port it listens on, whether its goroutine still runs, and whether its
      stop channel is closed. */
  datatype Session = Session(port: nat, running: bool, stopping: bool)

  datatype Supervisor =
    | Watching(current: nat)
    | Closing(current: nat)                    // closed the session, waits for it to end
    | Waiting(attempt: nat, delay: nat)        // the pause before a reconnect attempt
    | Connecting(attempt: nat, delay: nat)
    | Handshaking(attempt: nat, delay: nat, candidate: nat)
    | Aborting(attempt: nat, delay: nat, candidate: nat)  // gave the candidate up, waits for it to end
    | Finished(gaveUp: bool)

  datatype Caller = Outside | InClose | Returned

  datatype State = State(
    supervisor: Supervisor,
    sessions: seq<Session>,      // every forwarder ever started
    stop: bool,                  // Forward.stopCh is closed
    done: bool,                  // Forward.doneCh is closed
    callers: seq<Caller>,
    asked: seq<nat>,             // the local port each reconnect asked for
    waits: seq<nat>)             // the pauses of the reconnect under way

  datatype Action =
    | SeeStop | SessionClosed | SeeDrop
    | TimerFires | StopWhileWaiting
    | ConnectFails | ConnectStarts(free: nat, running: bool) | HandshakeReady | HandshakeFails | AbortEnds
    | SessionEnds(id: nat)
    | CallClose(caller: nat) | CloseReturns(caller: nat)

  /** Once StartPortForward returned: the first forwarder listens on a port of its own choice. */
  predicate Initial(s: State, port: nat) {
    && s.supervisor == Watching(0) && |s.sessions| == 1
    && s.sessions[0].port == port && !s.sessions[0].stopping && port != 0
    && !s.stop && !s.done && s.asked == [] && s.waits == []
    && forall c :: 0 <= c < |s.callers| ==> s.callers[c] == Outside
  }

  /** A forwarder asked for port 0 picks one; any other port it takes as asked. */
  function ListeningPort(asked: nat, free: nat): nat {
    if asked == 0 then free else asked
  }

  function NextDelay(delay: nat): nat {
    if delay < MAX_DELAY then delay * 2 else delay
  }

  function AttemptFailed(s: State, attempt: nat, delay: nat): State {
    if attempt < RECONNECT_ATTEMPTS then
      s.(supervisor := Waiting(attempt + 1, NextDelay(delay)), waits := s.waits + [NextDelay(delay)])
    else
      s.(supervisor := Finished(true), done := true)
  }

  predicate Next(s: State, s': State, a: Action, port: nat) {
    match a
    case SeeStop =>
      && s.supervisor.Watching? && s.stop && s.supervisor.current < |s.sessions|
      && var i := s.supervisor.current;
         s' == s.(supervisor := Closing(i), sessions := s.sessions[i := s.sessions[i].(stopping := true)])
    case SessionClosed =>
      && s.supervisor.Closing? && s.supervisor.current < |s.sessions| && !s.sessions[s.supervisor.current].running
      && s' == s.(supervisor := Finished(false), done := true)
    case SeeDrop =>
      && s.supervisor.Watching? && s.supervisor.current < |s.sessions| && !s.sessions[s.supervisor.current].running
      && s' == (if s.stop then s.(supervisor := Finished(false), done := true)
                else s.(supervisor := Waiting(1, FIRST_DELAY), waits := [FIRST_DELAY]))
    case TimerFires =>
      && s.supervisor.Waiting?
      && s' == s.(supervisor := Connecting(s.supervisor.attempt, s.supervisor.delay))
    case StopWhileWaiting =>
      && s.supervisor.Waiting? && s.stop && s' == s.(supervisor := Finished(false), done := true)
    case ConnectFails =>
      && s.supervisor.Connecting?
      && s' == AttemptFailed(s.(asked := s.asked + [port]), s.supervisor.attempt, s.supervisor.delay)
    case ConnectStarts(free, running) =>
      && s.supervisor.Connecting?
      && s' == s.(supervisor := Handshaking(s.supervisor.attempt, s.supervisor.delay, |s.sessions|),
                  sessions := s.sessions + [Session(ListeningPort(port, free), running, false)],
                  asked := s.asked + [port])
    case HandshakeReady =>
      && s.supervisor.Handshaking? && s' == s.(supervisor := Watching(s.supervisor.candidate))
    case HandshakeFails =>
      && s.supervisor.Handshaking? && s.supervisor.candidate < |s.sessions|
      && var i := s.supervisor.candidate;
         s' == s.(supervisor := Aborting(s.supervisor.attempt, s.supervisor.delay, i),
                  sessions := s.sessions[i := s.sessions[i].(stopping := true)])
    case AbortEnds =>
      && s.supervisor.Aborting? && s.supervisor.candidate < |s.sessions| && !s.sessions[s.supervisor.candidate].running
      && s' == AttemptFailed(s, s.supervisor.attempt, s.supervisor.delay)
    case SessionEnds(id) =>
      && id < |s.sessions| && s.sessions[id].running
      && s' == s.(sessions := s.sessions[id := s.sessions[id].(running := false)])
    case CallClose(c) =>
      && c < |s.callers| && s.callers[c] == Outside
      && s' == s.(callers := s.callers[c := InClose], stop := true)
    case CloseReturns(c) =>
      && c < |s.callers| && s.callers[c] == InClose && s.done
      && s' == s.(callers := s.callers[c := Returned])
  }

  // ----- the invariant -----

  /** The one session that may be running. */
  ghost predicate MayRun(s: State, i: nat) {
    match s.supervisor
    case Watching(current) => i == current
    case Closing(current) => i == current
    case Handshaking(_, _, candidate) => i == candidate
    case Aborting(_, _, candidate) => i == candidate
    case _ => false
  }

  /** The pauses before attempts 1..k. */
  function Delays(k: nat): seq<nat> {
    if k == 0 then [] else Delays(k - 1) + [DelayBefore(k)]
  }

  function DelayBefore(k: nat): nat
    requires k > 0
  {
    if k == 1 then FIRST_DELAY else NextDelay(DelayBefore(k - 1))
  }

  function Sum(xs: seq<nat>): nat {
    if xs == [] then 0 else Sum(xs[..|xs| - 1]) + xs[|xs| - 1]
  }

  ghost predicate Pausing(s: State, attempt: nat, delay: nat) {
    1 <= attempt <= RECONNECT_ATTEMPTS && delay == DelayBefore(attempt) && s.waits == Delays(attempt)
  }

  ghost predicate Inv(s: State, port: nat) {
    && (forall i :: 0 <= i < |s.sessions| && s.sessions[i].running ==> MayRun(s, i))
    && (forall i :: 0 <= i < |s.sessions| ==> s.sessions[i].port == port)
    && (forall p :: p in s.asked ==> p == port)
    && port != 0
    && (s.done <==> s.supervisor.Finished?)
    && (forall c :: 0 <= c < |s.callers| ==>
          (s.callers[c] != Outside ==> s.stop) && (s.callers[c] == Returned ==> s.done))
    && match s.supervisor
       case Watching(current) => current < |s.sessions|
       case Closing(current) => s.stop && current < |s.sessions| && s.sessions[current].stopping
       case Waiting(attempt, delay) => Pausing(s, attempt, delay)
       case Connecting(attempt, delay) => Pausing(s, attempt, delay)
       case Handshaking(attempt, delay, candidate) => Pausing(s, attempt, delay) && candidate < |s.sessions|
       case Aborting(attempt, delay, candidate) =>
         Pausing(s, attempt, delay) && candidate < |s.sessions| && s.sessions[candidate].stopping
       case Finished(gaveUp) => if gaveUp then s.waits == Delays(RECONNECT_ATTEMPTS) else s.stop
  }

  lemma AttemptFailedKeepsInv(s: State, attempt: nat, delay: nat, port: nat)
    requires Inv(s, port) && Pausing(s, attempt, delay) && !s.done
    requires forall i :: 0 <= i < |s.sessions| ==> !s.sessions[i].running
    ensures Inv(AttemptFailed(s, attempt, delay), port)
  {
  }

  lemma ReconnectKeepsInv(s: State, s': State, a: Action, port: nat)
    requires Inv(s, port) && Next(s, s', a, port)
    requires a.ConnectFails? || a.ConnectStarts? || a.AbortEnds?
    ensures Inv(s', port)
  {
    match a {
      case ConnectFails =>
        AttemptFailedKeepsInv(s.(asked := s.asked + [port]), s.supervisor.attempt, s.supervisor.delay, port);
      case AbortEnds => AttemptFailedKeepsInv(s, s.supervisor.attempt, s.supervisor.delay, port);
      case _ =>
    }
  }

  lemma DropKeepsInv(s: State, s': State, port: nat)
    requires Inv(s, port) && Next(s, s', SeeDrop, port)
    ensures Inv(s', port)
  {
    assert Delays(1) == Delays(0) + [FIRST_DELAY];
  }

  lemma SessionsKeepInv(s: State, s': State, a: Action, port: nat)
    requires Inv(s, port) && Next(s, s', a, port)
    requires a.SeeStop? || a.SessionClosed? || a.HandshakeReady? || a.HandshakeFails? || a.SessionEnds?
    ensures Inv(s', port)
  {
  }

  lemma NextKeepsInv(s: State, s': State, a: Action, port: nat)
    requires Inv(s, port) && Next(s, s', a, port)
    ensures Inv(s', port)
  {
    if a.ConnectFails? || a.ConnectStarts? || a.AbortEnds? {
      ReconnectKeepsInv(s, s', a, port);
    } else if a.SeeDrop? {
      DropKeepsInv(s, s', port);
    } else if a.SeeStop? || a.SessionClosed? || a.HandshakeReady? || a.HandshakeFails? || a.SessionEnds? {
      SessionsKeepInv(s, s', a, port);
    }
  }

  // ----- every run -----

  ghost predicate IsRun(states: seq<State>, actions: seq<Action>, port: nat) {
    && |states| == |actions| + 1 && Initial(states[0], port)
    && forall i :: 0 <= i < |actions| ==> Next(states[i], states[i + 1], actions[i], port)
  }

  lemma {:induction false} EveryStateKeepsInv(states: seq<State>, actions: seq<Action>, port: nat, i: nat)
    requires IsRun(states, actions, port) && i < |states|
    ensures Inv(states[i], port)
  {
    if i > 0 {
      EveryStateKeepsInv(states, actions, port, i - 1);
      NextKeepsInv(states[i - 1], states[i], actions[i - 1], port);
    }
  }

  /** In every state of every run at most one forwarder runs, every one listens on the first
      one's port, every reconnect asked for that port, and once any Close returned, or the
      supervisor is done for another reason, none runs. */
  lemma AtMostOneLive(states: seq<State>, actions: seq<Action>, port: nat, i: nat)
    requires IsRun(states, actions, port) && i < |states|
    ensures forall j, k | 0 <= j < |states[i].sessions| && 0 <= k < |states[i].sessions| ::
              states[i].sessions[j].running && states[i].sessions[k].running ==> j == k
    ensures forall j :: 0 <= j < |states[i].sessions| ==> states[i].sessions[j].port == port
    ensures forall p :: p in states[i].asked ==> p == port
    ensures states[i].done || Returned in states[i].callers ==>
              forall j :: 0 <= j < |states[i].sessions| ==> !states[i].sessions[j].running
  {
    EveryStateKeepsInv(states, actions, port, i);
  }

  /** The supervisor deals with the forwarder started last, and watches none it told to stop. */
  ghost predicate DealsWithTheLast(s: State) {
    match s.supervisor
    case Watching(current) => current == |s.sessions| - 1 && !s.sessions[current].stopping
    case Handshaking(_, _, candidate) => candidate == |s.sessions| - 1 && !s.sessions[candidate].stopping
    case Closing(current) => current == |s.sessions| - 1
    case Aborting(_, _, candidate) => candidate == |s.sessions| - 1
    case _ => true
  }

  lemma NextDealsWithTheLast(s: State, s': State, a: Action, port: nat)
    requires Inv(s, port) && DealsWithTheLast(s) && Next(s, s', a, port)
    ensures DealsWithTheLast(s')
  {
    match a {
      case SessionEnds(id) => assert |s'.sessions| == |s.sessions|;
      case ConnectStarts(_, _) => assert |s'.sessions| == |s.sessions| + 1;
      case _ =>
    }
  }

  lemma {:induction false} AlwaysTheLast(states: seq<State>, actions: seq<Action>, port: nat, i: nat)
    requires IsRun(states, actions, port) && i < |states|
    ensures DealsWithTheLast(states[i])
  {
    if i > 0 {
      AlwaysTheLast(states, actions, port, i - 1);
      EveryStateKeepsInv(states, actions, port, i - 1);
      NextDealsWithTheLast(states[i - 1], states[i], actions[i - 1], port);
    }
  }

  /** In every run: a reconnect whose handshake succeeds puts the new forwarder under watch, on the
      port of the first and not told to stop; and when that one ends on its own, unless told to
      stop, the supervisor starts over with the first of its attempts. */
  lemma ReconnectedIsWatched(states: seq<State>, actions: seq<Action>, port: nat, i: nat)
    requires IsRun(states, actions, port) && i < |states| && states[i].supervisor.Handshaking?
    ensures states[i].sessions != []
    ensures var s, last := states[i], |states[i].sessions| - 1;
            var watched := s.(supervisor := Watching(last));
            && s.sessions[last].port == port && !s.sessions[last].stopping
            && (forall s' :: Next(s, s', HandshakeReady, port) <==> s' == watched)
            && (!s.stop && !s.sessions[last].running ==>
                  forall s' :: Next(watched, s', SeeDrop, port) <==>
                    s' == watched.(supervisor := Waiting(1, 2), waits := [2]))
  {
    EveryStateKeepsInv(states, actions, port, i);
    AlwaysTheLast(states, actions, port, i);
  }

  /** The supervisor only ever finishes because it was told to stop, or after exactly ten
      pauses that add up to 222 seconds. */
  lemma GivesUpAfterTenWaits(states: seq<State>, actions: seq<Action>, port: nat, i: nat)
    requires IsRun(states, actions, port) && i < |states| && states[i].done && !states[i].stop
    ensures |states[i].waits| == 10 && Sum(states[i].waits) == 222
    ensures states[i].waits == [2, 4, 8, 16, 32, 32, 32, 32, 32, 32]
  {
    EveryStateKeepsInv(states, actions, port, i);
    TenDelays();
  }

  lemma TenDelays()
    ensures Delays(10) == [2, 4, 8, 16, 32, 32, 32, 32, 32, 32]
    ensures Sum(Delays(10)) == 222
  {
    FirstFourDelays();
    DelaysFromFive(10);
    assert seq(6, _ => 32) == [32, 32, 32, 32, 32, 32];
  }

  lemma FirstFourDelays()
    ensures Delays(4) == [2, 4, 8, 16] && Sum(Delays(4)) == 30 && DelayBefore(4) == 16
  {
    DelaysGrow(1);
    DelaysGrow(2);
    DelaysGrow(3);
    DelaysGrow(4);
  }

  lemma DelaysGrow(k: nat)
    requires k > 0
    ensures Delays(k) == Delays(k - 1) + [DelayBefore(k)]
    ensures Sum(Delays(k)) == Sum(Delays(k - 1)) + DelayBefore(k)
    ensures k == 1 ==> Delays(k) == [2] && Sum(Delays(k)) == 2
  {
    assert Delays(k)[..|Delays(k)| - 1] == Delays(k - 1);
  }

  /** The doubling overshoots: from the fifth pause on the delay is 32 seconds, more than
      MAX_DELAY, and stays there. */
  lemma {:induction false} DelaysFromFive(k: nat)
    requires k >= 4
    ensures Delays(k) == Delays(4) + seq(k - 4, _ => 32)
    ensures Sum(Delays(k)) == 30 + 32 * (k - 4)
    ensures DelayBefore(k) == if k == 4 then 16 else 32
    ensures k >= 5 ==> DelayBefore(k) > MAX_DELAY
  {
    if k == 4 {
      FirstFourDelays();
    } else {
      DelaysFromFive(k - 1);
      DelaysGrow(k);
      assert seq(k - 4, _ => 32) == seq(k - 5, _ => 32) + [32];
    }
  }

  // ----- Close always comes back -----

  /** How many more steps the supervisor can take once stop was requested. */
  function StepsLeft(s: State): nat {
    match s.supervisor
    case Finished(_) => 0
    case Closing(_) => 1
    case Watching(_) => 2
    case Aborting(attempt, _, _) => 4 * Left(attempt) + 3
    case Handshaking(attempt, _, _) => 4 * Left(attempt) + 4
    case Connecting(attempt, _) => 4 * Left(attempt) + 5
    case Waiting(attempt, _) => 4 * Left(attempt) + 6
  }

  function Left(attempt: nat): nat {
    if attempt < RECONNECT_ATTEMPTS then RECONNECT_ATTEMPTS - attempt else 0
  }

  predicate BySupervisor(a: Action) {
    !a.SessionEnds? && !a.CallClose? && !a.CloseReturns?
  }

  /** After Close was called the supervisor takes at most 42 more steps, whatever the others
      do in between. */
  lemma StopBoundsTheSupervisor(s: State, s': State, a: Action, port: nat)
    requires Inv(s, port) && Next(s, s', a, port) && s.stop
    ensures s'.stop && StepsLeft(s) <= 42
    ensures if BySupervisor(a) then StepsLeft(s') < StepsLeft(s) else StepsLeft(s') == StepsLeft(s)
  {
  }

  /** Nor is it ever stuck: it has a step to take, or waits for a forwarder it told to stop. */
  lemma StopIsNeverStuck(s: State, port: nat) returns (a: Action, s': State)
    requires Inv(s, port) && s.stop && !s.done
    ensures Next(s, s', a, port)
    ensures BySupervisor(a) || (a.SessionEnds? && a.id < |s.sessions| && s.sessions[a.id].stopping)
  {
    match s.supervisor {
      case Watching(i) =>
        a := SeeStop;
        s' := s.(supervisor := Closing(i), sessions := s.sessions[i := s.sessions[i].(stopping := true)]);
      case Closing(i) =>
        if s.sessions[i].running {
          a, s' := SessionEnds(i), s.(sessions := s.sessions[i := s.sessions[i].(running := false)]);
        } else {
          a, s' := SessionClosed, s.(supervisor := Finished(false), done := true);
        }
      case Waiting(_, _) => a, s' := StopWhileWaiting, s.(supervisor := Finished(false), done := true);
      case Connecting(attempt, delay) =>
        a, s' := ConnectFails, AttemptFailed(s.(asked := s.asked + [port]), attempt, delay);
      case Handshaking(_, _, i) => a, s' := HandshakeReady, s.(supervisor := Watching(i));
      case Aborting(attempt, delay, i) =>
        if s.sessions[i].running {
          a, s' := SessionEnds(i), s.(sessions := s.sessions[i := s.sessions[i].(running := false)]);
        } else {
          a, s' := AbortEnds, AttemptFailed(s, attempt, delay);
        }
    }
  }
}
