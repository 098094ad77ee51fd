/** Running the installer's stages: installer/internal/workflow/workflow.go. */
module Workflow {
  import opened Wrappers

  datatype StepDef = StepDef(name: string, conditional: bool, recoverable: bool)

  datatype Stage = Stage(name: string, steps: seq<StepDef>, cleansUp: bool)

  /** What a step's Recover answers. Unknown stands for any other value of the action type. */
  datatype Action = Continue | RetryStep | RestartStage | Fail | Unknown(value: int)

  datatype Failure =
    | StepFailed(step: nat, cause: string)
    | RecoverFailed(step: nat, cause: string)
    | UnknownAction(step: nat, action: int, cause: string)
    | CleanupFailed(cause: string)

  type Error = Option<Failure>

  // ----- the protocol of a stage -----

  /** What a stage does and is told: a begin, a step's condition, a step run, a recovery answered,
      a cleanup run, the stage reported as done. */
  datatype Event =
    | Began
    | Checked(step: nat, holds: bool)
    | Ran(step: nat, error: Option<string>)
    | Recovered(step: nat, answer: Result<Action, string>)
    | CleanedUp(failure: Option<string>)
    | StageDone

  /** Open(k): step k is next, or the stage is about to be done. Due(k): its condition holds.
      Stuck(k): it failed. Lost: on the way out with a failure, the begin still open or not. */
  datatype State =
    | Fresh | Open(step: nat) | Due(step: nat) | Stuck(step: nat, cause: string) | Restarting
    | Lost(failure: Failure, open: bool) | Finished | Closed(error: Error)

  function AfterRun(step: StepDef, k: nat, error: Option<string>): State {
    match error
    case None => Open(k + 1)
    case Some(cause) => if step.recoverable then Stuck(k, cause) else Lost(StepFailed(k, cause), true)
  }

  function AfterRecovery(k: nat, cause: string, answer: Result<Action, string>): State {
    match answer
    case Err(error) => Lost(RecoverFailed(k, error), true)
    case Ok(Continue) => Open(k + 1)
    case Ok(RetryStep) => Open(k)
    case Ok(RestartStage) => Restarting
    case Ok(Fail) => Lost(StepFailed(k, cause), true)
    case Ok(Unknown(value)) => Lost(UnknownAction(k, value, cause), true)
  }

  function AsCleanup(failure: Option<string>): Error {
    match failure
    case None => None
    case Some(cause) => Some(CleanupFailed(cause))
  }

  function Next(steps: seq<StepDef>, s: State, e: Event): Option<State> {
    match (s, e)
    case (Fresh, Began) => Some(Open(0))
    case (Open(k), Checked(j, holds)) =>
      if j == k < |steps| && steps[k].conditional then Some(if holds then Due(k) else Open(k + 1)) else None
    case (Open(k), Ran(j, error)) =>
      if j == k < |steps| && !steps[k].conditional then Some(AfterRun(steps[k], k, error)) else None
    case (Due(k), Ran(j, error)) => if j == k < |steps| then Some(AfterRun(steps[k], k, error)) else None
    case (Stuck(k, cause), Recovered(j, answer)) => if j == k then Some(AfterRecovery(k, cause, answer)) else None
    case (Restarting, CleanedUp(failure)) =>
      Some(if failure.None? then Fresh else Lost(CleanupFailed(failure.value), false))
    case (Lost(failure, _), CleanedUp(_)) => Some(Closed(Some(failure)))
    case (Open(k), StageDone) => if k == |steps| then Some(Finished) else None
    case (Finished, CleanedUp(failure)) => Some(Closed(AsCleanup(failure)))
    case _ => None
  }

  /** The state a stage is in after some events; None when they break the protocol. */
  function Scan(steps: seq<StepDef>, word: seq<Event>): Option<State> {
    if word == [] then Some(Fresh)
    else match Scan(steps, word[..|word| - 1])
      case None => None
      case Some(s) => Next(steps, s, word[|word| - 1])
  }

  lemma ScanOneMore(steps: seq<StepDef>, word: seq<Event>, e: Event)
    ensures Scan(steps, word + [e]) == match Scan(steps, word) case None => None case Some(s) => Next(steps, s, e)
  {
    assert (word + [e])[..|word|] == word;
  }

  // ----- what the protocol means -----

  /** The step an event ends: skipped, done, or continued after a failure. */
  function Ends(e: Event): Option<nat> {
    match e
    case Checked(step, holds) => if holds then None else Some(step)
    case Ran(step, error) => if error.None? then Some(step) else None
    case Recovered(step, answer) => if answer == Ok(Continue) then Some(step) else None
    case _ => None
  }

  /** The steps that ended since the latest begin, in order. */
  function EndedSinceBegin(word: seq<Event>): seq<nat> {
    if word == [] || word[|word| - 1].Began? then []
    else
      var last := word[|word| - 1];
      EndedSinceBegin(word[..|word| - 1]) + if Ends(last).Some? then [Ends(last).value] else []
  }

  function FirstSteps(k: nat): seq<nat> {
    if k == 0 then [] else FirstSteps(k - 1) + [k - 1]
  }

  /** The steps that have ended, going by the state: 0 up to some k. */
  function StepsEnded(steps: seq<StepDef>, s: State): Option<nat> {
    match s
    case Open(k) => Some(k)
    case Due(k) => Some(k)
    case Stuck(k, _) => Some(k)
    case Finished => Some(|steps|)
    case Closed(error) => if error.None? then Some(|steps|) else None
    case _ => None
  }

  /** One event ends the next step exactly when it takes the protocol to the step after. */
  lemma OneEventEnds(steps: seq<StepDef>, s: State, e: Event)
    requires Next(steps, s, e).Some? && StepsEnded(steps, Next(steps, s, e).value).Some? && !e.Began?
    ensures StepsEnded(steps, s).Some?
    ensures var k, k' := StepsEnded(steps, s).value, StepsEnded(steps, Next(steps, s, e).value).value;
            if Ends(e).Some? then Ends(e).value == k && k' == k + 1 else k' == k
  {
    match e {
      case Checked(_, _) =>
      case Ran(_, _) =>
      case Recovered(_, _) =>
      case CleanedUp(_) =>
      case StageDone =>
    }
  }

  /** Success means that since the latest begin each step ended once, in order. */
  lemma {:induction false} EndedInOrder(steps: seq<StepDef>, word: seq<Event>)
    requires Scan(steps, word).Some? && StepsEnded(steps, Scan(steps, word).value).Some?
    ensures EndedSinceBegin(word) == FirstSteps(StepsEnded(steps, Scan(steps, word).value).value)
    decreases |word|
  {
    var before, last := word[..|word| - 1], word[|word| - 1];
    if !last.Began? {
      OneEventEnds(steps, Scan(steps, before).value, last);
      EndedInOrder(steps, before);
    }
  }

  function Begins(word: seq<Event>): nat {
    if word == [] then 0 else Begins(word[..|word| - 1]) + if word[|word| - 1].Began? then 1 else 0
  }

  function Cleanups(word: seq<Event>): nat {
    if word == [] then 0 else Cleanups(word[..|word| - 1]) + if word[|word| - 1].CleanedUp? then 1 else 0
  }

  /** How many begins are not cleaned up yet; below zero, cleaned up once too often. */
  function Owed(s: State): int {
    match s
    case Fresh => 0
    case Lost(_, open) => if open then 1 else 0
    case Closed(_) => 0
    case _ => 1
  }

  /** A cleanup for a restart failed. */
  ghost predicate RestartCleanupFailed(steps: seq<StepDef>, word: seq<Event>) {
    exists i :: 0 <= i <= |word| && LostInRestart(Scan(steps, word[..i]))
  }

  predicate LostInRestart(s: Option<State>) {
    s.Some? && s.value.Lost? && !s.value.open
  }

  lemma OneMoreEvent(steps: seq<StepDef>, word: seq<Event>)
    requires word != []
    ensures RestartCleanupFailed(steps, word) <==>
            RestartCleanupFailed(steps, word[..|word| - 1]) || LostInRestart(Scan(steps, word))
  {
    var before := word[..|word| - 1];
    forall i | 0 <= i < |word| ensures word[..i] == before[..i] {}
    assert word[..|word|] == word;
    if RestartCleanupFailed(steps, before) {
      var i :| 0 <= i <= |before| && LostInRestart(Scan(steps, before[..i]));
      assert LostInRestart(Scan(steps, word[..i]));
    }
    if RestartCleanupFailed(steps, word) {
      var i :| 0 <= i <= |word| && LostInRestart(Scan(steps, word[..i]));
      if i < |word| { assert LostInRestart(Scan(steps, before[..i])); }
    }
  }

  /** Before each begin every earlier one has been cleaned up exactly once. At the end so has
      the last, but for a restart whose cleanup failed: it is cleaned up twice. */
  lemma {:induction false} CleanedUpOnce(steps: seq<StepDef>, word: seq<Event>)
    requires Scan(steps, word).Some?
    ensures var s := Scan(steps, word).value;
            && (RestartCleanupFailed(steps, word) ==> s.Closed? || LostInRestart(Some(s)))
            && Cleanups(word) - Begins(word) == if s.Closed? && RestartCleanupFailed(steps, word) then 1 else -Owed(s)
    decreases |word|
  {
    if word != [] {
      CleanedUpOnce(steps, word[..|word| - 1]);
      OneMoreEvent(steps, word);
    } else {
      assert word[..0] == word;
    }
  }

  /** A failure on the way out is what the stage ends with, whatever its cleanup returns. */
  lemma {:induction false} FailureSurvives(steps: seq<StepDef>, word: seq<Event>, i: nat, failure: Failure, open: bool)
    requires i <= |word| && Scan(steps, word[..i]) == Some(Lost(failure, open)) && Scan(steps, word).Some?
    ensures Scan(steps, word) == Some(if i == |word| then Lost(failure, open) else Closed(Some(failure)))
    decreases |word|
  {
    if i == |word| {
      assert word[..i] == word;
    } else {
      var before := word[..|word| - 1];
      assert before[..i] == word[..i];
      FailureSurvives(steps, before, i, failure, open);
    }
  }

  /** So a step failure is never masked: a cleanup error comes out only when no step is lost. */
  lemma CleanupErrorMasksNothing(steps: seq<StepDef>, word: seq<Event>, cause: string, i: nat)
    requires Scan(steps, word) == Some(Closed(Some(CleanupFailed(cause)))) && i <= |word|
    ensures forall failure, open :: Scan(steps, word[..i]) == Some(Lost(failure, open)) ==>
              failure == CleanupFailed(cause)
  {
    forall failure, open | Scan(steps, word[..i]) == Some(Lost(failure, open)) ensures failure == CleanupFailed(cause) {
      FailureSurvives(steps, word, i, failure, open);
      assert word[..|word|] == word;
    }
  }

  /** The cleanup right after the stage was reported as done. */
  predicate CleanedAfterDone(word: seq<Event>, failure: Option<string>) {
    |word| >= 2 && word[|word| - 2..] == [StageDone, CleanedUp(failure)]
  }

  lemma {:induction false} DoneThenCleanedUp(steps: seq<StepDef>, word: seq<Event>)
    requires Scan(steps, word).Some?
    ensures var s := Scan(steps, word).value;
            if StageDone !in word then !s.Finished?
            else if s.Closed? then exists failure :: CleanedAfterDone(word, failure) && s.error == AsCleanup(failure)
            else s.Finished? && word[|word| - 1] == StageDone
    ensures StageDone !in word ==> Scan(steps, word) != Some(Closed(None))
    decreases |word|
  {
    if word != [] {
      var before, last := word[..|word| - 1], word[|word| - 1];
      assert word == before + [last];
      DoneThenCleanedUp(steps, before);
      if last.CleanedUp? && StageDone in before {
        assert CleanedAfterDone(word, last.failure);
      }
    }
  }

  /** A stage that was reported as done ends with an error exactly when the cleanup right after
      the report failed; a stage that was not ends with an error. */
  lemma DoneAndStillFailed(steps: seq<StepDef>, word: seq<Event>, error: Error)
    requires Scan(steps, word) == Some(Closed(error))
    ensures StageDone in word ==>
              (error.Some? <==>
                 exists cause :: CleanedAfterDone(word, Some(cause)) && error == Some(CleanupFailed(cause)))
    ensures StageDone in word ==> (error.None? <==> CleanedAfterDone(word, None))
    ensures StageDone !in word ==> error.Some?
  {
    DoneThenCleanedUp(steps, word);
    if StageDone in word {
      var failure :| CleanedAfterDone(word, failure) && error == AsCleanup(failure);
      assert word[|word| - 1] == word[|word| - 2..][1];
      if failure.Some? { assert CleanedAfterDone(word, Some(failure.value)); }
    }
  }

  // ----- the same, in terms of the events alone -----

  /** The event that begins a step, or the report when no step is left. */
  predicate Starts(steps: seq<StepDef>, k: nat, e: Event) {
    if k < |steps| then
      if steps[k].conditional then e.Checked? && e.step == k else e.Ran? && e.step == k
    else k == |steps| && e == StageDone
  }

  /** The step failed and its failure is what was asked about. */
  predicate FailedBefore(steps: seq<StepDef>, word: seq<Event>, i: nat, k: nat, cause: string)
    requires i < |word|
  {
    0 < i && word[i - 1] == Ran(k, Some(cause)) && k < |steps| && steps[k].recoverable
  }

  /** What may follow an event. */
  ghost predicate Follows(steps: seq<StepDef>, word: seq<Event>, i: nat)
    requires i + 1 < |word|
  {
    var next := word[i + 1];
    match word[i]
    case Began => Starts(steps, 0, next)
    case Checked(k, holds) => if holds then next.Ran? && next.step == k else Starts(steps, k + 1, next)
    case Ran(k, None) => Starts(steps, k + 1, next)
    case Ran(k, Some(_)) =>
      k < |steps| && if steps[k].recoverable then next.Recovered? && next.step == k else next.CleanedUp?
    case Recovered(k, Ok(Continue)) => Starts(steps, k + 1, next)
    case Recovered(k, Ok(RetryStep)) => k < |steps| && Starts(steps, k, next)
    case Recovered(_, _) => next.CleanedUp?
    case CleanedUp(failure) =>
      0 < i && IsRestart(word[i - 1]) && if failure.None? then next == Began else next.CleanedUp?
    case StageDone => next.CleanedUp?
  }

  predicate IsRestart(e: Event) {
    e.Recovered? && e.answer == Ok(RestartStage)
  }

  lemma {:induction false} BeginningsAreScanned(steps: seq<StepDef>, word: seq<Event>, i: nat)
    requires i < |word| && Scan(steps, word).Some?
    ensures Scan(steps, word[..i]).Some? && Scan(steps, word[..i + 1]).Some?
    ensures Scan(steps, word[..i + 1]) == Next(steps, Scan(steps, word[..i]).value, word[i])
    decreases |word|
  {
    var before := word[..|word| - 1];
    if i < |before| {
      BeginningsAreScanned(steps, before, i);
      assert before[..i] == word[..i] && before[..i + 1] == word[..i + 1];
    } else {
      assert word[..i] == before && word[..i + 1] == word;
    }
  }

  /** How a state comes about that only one kind of event leads to. */
  lemma StuckAfter(steps: seq<StepDef>, word: seq<Event>, i: nat, s: State)
    requires i < |word| && Scan(steps, word).Some? && Scan(steps, word[..i]) == Some(s)
    ensures s.Stuck? ==> FailedBefore(steps, word, i, s.step, s.cause)
    ensures s.Restarting? ==> 0 < i && IsRestart(word[i - 1])
  {
    if i > 0 {
      BeginningsAreScanned(steps, word, i - 1);
      OnlyRunGetsStuck(steps, Scan(steps, word[..i - 1]).value, word[i - 1]);
    } else {
      assert word[..i] == [];
    }
  }

  lemma OnlyRunGetsStuck(steps: seq<StepDef>, s: State, e: Event)
    requires Next(steps, s, e).Some?
    ensures var after := Next(steps, s, e).value;
            && (after.Stuck? ==>
                  e == Ran(after.step, Some(after.cause)) && after.step < |steps| && steps[after.step].recoverable)
            && (after.Restarting? ==> IsRestart(e))
  {
  }

  /** What a stage does after each thing it is told: retry begins the same step, continue the next
      one, restart cleans up and begins anew, and everything else goes to the last cleanup. */
  lemma EachEventFollows(steps: seq<StepDef>, word: seq<Event>, i: nat)
    requires i + 1 < |word| && Scan(steps, word).Some?
    ensures word[0] == Began && Follows(steps, word, i)
  {
    assert word[..0] == [];
    BeginningsAreScanned(steps, word, 0);
    BeginningsAreScanned(steps, word, i);
    BeginningsAreScanned(steps, word, i + 1);
    StuckAfter(steps, word, i, Scan(steps, word[..i]).value);
  }

  /** The failure that the events before the last cleanup stand for. */
  ghost predicate EndsWith(steps: seq<StepDef>, word: seq<Event>, error: Error) {
    && |word| >= 2 && word[|word| - 1].CleanedUp?
    && var i := |word| - 2;
       match word[i]
       case Ran(k, Some(cause)) => error == Some(StepFailed(k, cause))
       case Recovered(k, Err(why)) => error == Some(RecoverFailed(k, why))
       case Recovered(k, Ok(Fail)) =>
         0 < i && word[i - 1].Ran? && word[i - 1].error.Some? && error == Some(StepFailed(k, word[i - 1].error.value))
       case Recovered(k, Ok(Unknown(action))) =>
         && 0 < i && word[i - 1].Ran? && word[i - 1].error.Some?
         && error == Some(UnknownAction(k, action, word[i - 1].error.value))
       case CleanedUp(Some(cause)) => error == Some(CleanupFailed(cause))
       case StageDone => error == AsCleanup(word[|word| - 1].failure)
       case _ => false
  }

  lemma ClosedAfter(steps: seq<StepDef>, s: State, e: Event, error: Error)
    requires Next(steps, s, e) == Some(Closed(error))
    ensures e.CleanedUp?
    ensures (s.Lost? && error == Some(s.failure)) || (s.Finished? && error == AsCleanup(e.failure))
  {
  }

  lemma OnTheWayOutAfter(steps: seq<StepDef>, s: State, e: Event, after: State)
    requires Next(steps, s, e) == Some(after)
    ensures after.Finished? ==> e == StageDone
    ensures after.Lost? ==>
              match e
              case Ran(k, Some(cause)) => after.failure == StepFailed(k, cause)
              case Recovered(k, Err(why)) => after.failure == RecoverFailed(k, why)
              case Recovered(k, Ok(Fail)) => s.Stuck? && after.failure == StepFailed(k, s.cause)
              case Recovered(k, Ok(Unknown(action))) => s.Stuck? && after.failure == UnknownAction(k, action, s.cause)
              case CleanedUp(Some(cause)) => after.failure == CleanupFailed(cause)
              case _ => false
  {
  }

  /** What a finished stage returns is in its last events. */
  lemma ReturnsWhatItEndsWith(steps: seq<StepDef>, word: seq<Event>, error: Error)
    requires Scan(steps, word) == Some(Closed(error))
    ensures EndsWith(steps, word, error)
  {
    var n := |word|;
    assert word[..n] == word && word[..0] == [];
    BeginningsAreScanned(steps, word, n - 1);
    var last := Scan(steps, word[..n - 1]).value;
    ClosedAfter(steps, last, word[n - 1], error);
    BeginningsAreScanned(steps, word, n - 2);
    var before := Scan(steps, word[..n - 2]).value;
    OnTheWayOutAfter(steps, before, word[n - 2], last);
    StuckAfter(steps, word, n - 2, before);
  }

  /** The restarts whose cleanup succeeded. */
  function Restarts(word: seq<Event>): nat {
    if |word| < 2 then 0
    else
      Restarts(word[..|word| - 1])
      + if word[|word| - 1] == CleanedUp(None) && IsRestart(word[|word| - 2]) then 1 else 0
  }

  /** A stage begins once, and once more for every restart whose cleanup succeeded. */
  lemma {:induction false} BeginsOncePerRestart(steps: seq<StepDef>, word: seq<Event>)
    requires Scan(steps, word).Some?
    ensures Begins(word) == Restarts(word) + if Scan(steps, word).value.Fresh? then 0 else 1
    ensures word != [] ==> (Scan(steps, word).value.Restarting? <==> IsRestart(word[|word| - 1]))
    decreases |word|
  {
    if word != [] {
      BeginsOncePerRestart(steps, word[..|word| - 1]);
    }
  }

  // ----- the runner -----

  /** A call of the runner into a stage, and what it came back with. */
  datatype Call =
    | Condition(stage: Stage, step: nat, holds: bool)
    | StepRun(stage: Stage, step: nat, error: Option<string>)
    | Recovery(stage: Stage, step: nat, answer: Result<Action, string>)
    | StageCleanup(stage: Stage, failure: Option<string>)

  /** Everything outside the runner: the steps and their conditions, recoveries and cleanup. Any
      call may return anything, and the process may end before it returns; budget bounds how
      many calls a run makes. */
  class Runtime {
    var budget: nat
    /** The calls that returned. */
    ghost var calls: seq<Call>

    constructor (budget: nat)
      ensures this.budget == budget && calls == []
    {
      this.budget, calls := budget, [];
    }

    method Spend() returns (alive: bool)
      modifies this`budget
      ensures alive ==> budget < old(budget)
      ensures !alive ==> budget == old(budget) == 0
    {
      if budget == 0 { return false; }
      budget := budget - 1;
      return true;
    }

    method When(stage: Stage, step: nat) returns (holds: Step<bool>)
      modifies this
      ensures if holds.Alive? then budget < old(budget) else budget == 0
      ensures budget <= old(budget)
      ensures calls == old(calls) + if holds.Alive? then [Condition(stage, step, holds.value)] else []
    {
      var alive := Spend();
      if !alive { return Died; }
      var b: bool := *;
      calls := calls + [Condition(stage, step, b)];
      return Alive(b);
    }

    method Run(stage: Stage, step: nat) returns (error: Step<Option<string>>)
      modifies this
      ensures if error.Alive? then budget < old(budget) else budget == 0
      ensures budget <= old(budget)
      ensures calls == old(calls) + if error.Alive? then [StepRun(stage, step, error.value)] else []
    {
      var alive := Spend();
      if !alive { return Died; }
      var e: Option<string> := *;
      calls := calls + [StepRun(stage, step, e)];
      return Alive(e);
    }

    method Recover(stage: Stage, step: nat) returns (action: Step<Result<Action, string>>)
      modifies this
      ensures if action.Alive? then budget < old(budget) else budget == 0
      ensures budget <= old(budget)
      ensures calls == old(calls) + if action.Alive? then [Recovery(stage, step, action.value)] else []
    {
      var alive := Spend();
      if !alive { return Died; }
      var a: Result<Action, string> := *;
      calls := calls + [Recovery(stage, step, a)];
      return Alive(a);
    }

    method CleanUp(stage: Stage) returns (failure: Step<Option<string>>)
      modifies this
      ensures if failure.Alive? then budget < old(budget) else budget == 0
      ensures budget <= old(budget)
      ensures calls == old(calls) + if failure.Alive? then [StageCleanup(stage, failure.value)] else []
    {
      var alive := Spend();
      if !alive { return Died; }
      var e: Option<string> := *;
      calls := calls + [StageCleanup(stage, e)];
      return Alive(e);
    }
  }

  /** The call an event reports, if any: a stage without a cleanup has nothing to call, and nothing
      that fails. */
  ghost function CallOf(stage: Stage, e: Event): seq<Call> {
    match e
    case Checked(step, holds) => [Condition(stage, step, holds)]
    case Ran(step, error) => [StepRun(stage, step, error)]
    case Recovered(step, answer) => [Recovery(stage, step, answer)]
    case CleanedUp(failure) => if stage.cleansUp || failure.Some? then [StageCleanup(stage, failure)] else []
    case _ => []
  }

  /** All the calls once a stage did something. */
  ghost function Logged(before: seq<Call>, stage: Stage, word: seq<Event>): seq<Call> {
    if word == [] then before
    else Logged(before, stage, word[..|word| - 1]) + CallOf(stage, word[|word| - 1])
  }

  ghost function AllLogged(before: seq<Call>, stages: seq<Stage>, words: seq<seq<Event>>): seq<Call>
    requires |words| <= |stages|
  {
    if words == [] then before
    else
      var n := |words| - 1;
      Logged(AllLogged(before, stages, words[..n]), stages[n], words[n])
  }

  class Runner {
    const rt: Runtime
    const stage: Stage
    var stepIndex: nat
    /** What the stage did so far. */
    ghost var word: seq<Event>
    /** The calls before. */
    ghost const before: seq<Call>

    constructor (rt: Runtime, stage: Stage)
      ensures this.rt == rt && this.stage == stage && stepIndex == 0 && word == [] && before == rt.calls
      ensures Recorded()
    {
      this.rt, this.stage, stepIndex, word := rt, stage, 0, [];
      before := rt.calls;
    }

    /** What the stage did so far are the calls it made. */
    ghost predicate Recorded()
      reads this, rt
    {
      rt.calls == Logged(before, stage, word)
    }

    ghost predicate At(s: State)
      reads this
    {
      Scan(stage.steps, word) == Some(s)
    }

    ghost method Emit(e: Event)
      modifies this`word
      ensures word == old(word) + [e]
      ensures forall s :: old(At(s)) && Next(stage.steps, s, e).Some? ==> At(Next(stage.steps, s, e).value)
      ensures Logged(before, stage, word) == Logged(before, stage, old(word)) + CallOf(stage, e)
    {
      assert (word + [e])[..|word|] == word;
      ScanOneMore(stage.steps, word, e);
      word := word + [e];
    }

    method Begin()
      requires At(Fresh) && Recorded()
      modifies this`word
      ensures At(Open(0)) && Recorded()
    {
      Emit(Began);
    }

    /** Runs the stage's cleanup, which is allowed on the way out and for a restart. */
    method Cleanup() returns (r: Step<Error>)
      requires At(Restarting) || At(Finished) || exists failure, open :: At(Lost(failure, open))
      requires Recorded()
      modifies this`word, rt
      ensures Recorded()
      ensures rt.budget <= old(rt.budget)
      ensures r.Alive? ==> exists failure ::
                r.value == AsCleanup(failure)
                && (old(At(Restarting)) ==>
                      At(if failure.None? then Fresh else Lost(CleanupFailed(failure.value), false)))
                && (old(At(Finished)) ==> At(Closed(r.value)))
      ensures r.Alive? ==> forall failure, open :: old(At(Lost(failure, open))) ==> At(Closed(Some(failure)))
      ensures r.Died? ==> word == old(word) && rt.budget == 0
    {
      var failed: Option<string> := None;
      if stage.cleansUp {
        failed :- rt.CleanUp(stage);
      }
      Emit(CleanedUp(failed));
      return Alive(AsCleanup(failed));
    }

    /** What every attempt at a step leaves: the step index where the protocol is, or a failure. */
    ghost predicate Stands(r: Step<Error>)
      reads this, rt
    {
      && Scan(stage.steps, word).Some? && Recorded() && (r.Died? ==> rt.budget == 0)
      && (r.Alive? && r.value.None? ==> stepIndex <= |stage.steps| && At(Open(stepIndex)))
      && (r.Alive? && r.value.Some? ==> exists open :: At(Lost(r.value.value, open)))
    }

    /** One attempt at the current step. */
    method RunCurrentStep() returns (r: Step<Error>)
      requires At(Open(stepIndex)) && stepIndex < |stage.steps| && Recorded()
      modifies this, rt
      ensures rt.budget <= old(rt.budget) && (r.Alive? ==> rt.budget < old(rt.budget))
      ensures Stands(r)
    {
      var step := stage.steps[stepIndex];
      if step.conditional {
        var holds :- rt.When(stage, stepIndex);
        Emit(Checked(stepIndex, holds));
        if !holds {
          stepIndex := stepIndex + 1;
          return Alive(None);
        }
      }
      r := AttemptStep(step);
    }

    method AttemptStep(step: StepDef) returns (r: Step<Error>)
      requires stepIndex < |stage.steps| && step == stage.steps[stepIndex] && Recorded()
      requires At(if step.conditional then Due(stepIndex) else Open(stepIndex))
      modifies this, rt
      ensures rt.budget <= old(rt.budget) && (r.Alive? ==> rt.budget < old(rt.budget))
      ensures Stands(r)
    {
      var failed :- rt.Run(stage, stepIndex);
      Emit(Ran(stepIndex, failed));
      if failed.Some? {
        r := RecoverStep(step, failed.value);
        return;
      }
      stepIndex := stepIndex + 1;
      return Alive(None);
    }

    /** What follows a failed step. */
    method RecoverStep(step: StepDef, cause: string) returns (r: Step<Error>)
      requires stepIndex < |stage.steps| && Recorded()
      requires At(if step.recoverable then Stuck(stepIndex, cause) else Lost(StepFailed(stepIndex, cause), true))
      modifies this, rt
      ensures rt.budget <= old(rt.budget)
      ensures Stands(r)
    {
      if !step.recoverable {
        return Alive(Some(StepFailed(stepIndex, cause)));
      }
      var action :- rt.Recover(stage, stepIndex);
      Emit(Recovered(stepIndex, action));
      if action.Err? {
        return Alive(Some(RecoverFailed(stepIndex, action.error)));
      }
      r := FollowAnswer(action.value, cause);
    }

    /** What each answer of a step's recovery comes to. */
    method FollowAnswer(action: Action, cause: string) returns (r: Step<Error>)
      requires stepIndex < |stage.steps| && Recorded() && At(AfterRecovery(stepIndex, cause, Ok(action)))
      modifies this, rt
      ensures rt.budget <= old(rt.budget)
      ensures Stands(r)
    {
      match action {
        case Continue =>
          stepIndex := stepIndex + 1;
          return Alive(None);
        case RetryStep =>
          return Alive(None);
        case RestartStage =>
          r := RestartStage();
        case Fail =>
          return Alive(Some(StepFailed(stepIndex, cause)));
        case Unknown(value) =>
          return Alive(Some(UnknownAction(stepIndex, value, cause)));
      }
    }

    method RestartStage() returns (r: Step<Error>)
      requires At(Restarting) && Recorded()
      modifies this, rt
      ensures rt.budget <= old(rt.budget)
      ensures Stands(r)
    {
      var error :- Cleanup();
      if error.Some? { return Alive(error); }
      Begin();
      stepIndex := 0;
      return Alive(None);
    }
  }

  /** runStage: whatever the steps do, the stage keeps to its protocol and returns what the
      protocol ends with. */
  method RunStage(rt: Runtime, stage: Stage) returns (r: Step<Error>, ghost word: seq<Event>)
    modifies rt
    ensures Scan(stage.steps, word).Some?
    ensures r.Alive? ==> Scan(stage.steps, word) == Some(Closed(r.value))
    ensures rt.calls == Logged(old(rt.calls), stage, word) && (r.Died? ==> rt.budget == 0)
    ensures rt.budget <= old(rt.budget)
  {
    r := Died;
    var runner := new Runner(rt, stage);
    runner.Begin();
    var error: Error := None;
    while error.None? && runner.stepIndex < |stage.steps|
      invariant fresh(runner) && runner.rt == rt && runner.stage == stage
      invariant rt.budget <= old(rt.budget) && runner.Recorded() && runner.before == old(rt.calls)
      invariant runner.stepIndex <= |stage.steps| || error.Some?
      invariant error.None? ==> runner.At(Open(runner.stepIndex))
      invariant error.Some? ==> exists open :: runner.At(Lost(error.value, open))
      decreases error.None?, rt.budget
    {
      var attempt := runner.RunCurrentStep();
      if attempt.Died? { return Died, runner.word; }
      error := attempt.value;
    }
    if error.None? { runner.Emit(StageDone); }
    var cleanup := runner.Cleanup();
    word := runner.word;
    if cleanup.Died? { return Died, word; }
    r := Alive(if error.None? then cleanup.value else error);
  }

  /** The stage keeps to its protocol. */
  ghost predicate Keeps(stage: Stage, word: seq<Event>) {
    Scan(stage.steps, word).Some?
  }

  ghost predicate EndsIn(stage: Stage, word: seq<Event>, error: Error) {
    Scan(stage.steps, word) == Some(Closed(error))
  }

  /** Every stage so far ended without an error. */
  ghost predicate AllEnded(stages: seq<Stage>, words: seq<seq<Event>>) {
    |words| <= |stages|
    && forall i :: 0 <= i < |words| ==> Keeps(stages[i], words[i]) && EndsIn(stages[i], words[i], None)
  }

  /** The stages one after the other, each after every earlier one ended without an error. */
  ghost predicate Executed(stages: seq<Stage>, words: seq<seq<Event>>, r: Step<Error>) {
    if r == Alive(None) then |words| == |stages| && AllEnded(stages, words)
    else
      && 0 < |words| <= |stages| && AllEnded(stages, words[..|words| - 1])
      && Keeps(stages[|words| - 1], words[|words| - 1])
      && (r.Alive? ==> EndsIn(stages[|words| - 1], words[|words| - 1], r.value))
  }

  lemma OneMoreStage(before: seq<Call>, stages: seq<Stage>, words: seq<seq<Event>>, word: seq<Event>, r: Step<Error>)
    requires |words| < |stages| && AllEnded(stages, words) && Keeps(stages[|words|], word)
    requires r.Alive? ==> EndsIn(stages[|words|], word, r.value)
    ensures if r == Alive(None) then AllEnded(stages, words + [word]) else Executed(stages, words + [word], r)
    ensures AllLogged(before, stages, words + [word]) ==
            Logged(AllLogged(before, stages, words), stages[|words|], word)
  {
    assert (words + [word])[..|words|] == words;
  }

  /** execution */
  method Execute(rt: Runtime, stages: seq<Stage>) returns (r: Step<Error>, ghost words: seq<seq<Event>>)
    modifies rt
    ensures Executed(stages, words, r) && rt.calls == AllLogged(old(rt.calls), stages, words)
    ensures r.Died? ==> rt.budget == 0
  {
    words := [];
    r := Alive(None);
    for i := 0 to |stages|
      invariant r == Alive(None) && |words| == i && AllEnded(stages, words)
      invariant rt.calls == AllLogged(old(rt.calls), stages, words)
    {
      ghost var word;
      r, word := RunStage(rt, stages[i]);
      OneMoreStage(old(rt.calls), stages, words, word, r);
      words := words + [word];
      if r.Died? || r.value.Some? { return; }
    }
  }
}
