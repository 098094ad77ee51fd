/** The guard before a stack is deployed or destroyed, and the operations behind it:
    installer/internal/iac/cluster_guard.go, cluster_uid.go and iac.go. */
module ClusterGuard {
  import opened Wrappers

  const KUBERNETES_PROVIDER := "pulumi:providers:kubernetes"
  const MAX_UID_LOOKUPS := 20

  /** A resource of the exported state, with the inputs and outputs the guard reads; a missing
      one reads as "". */
  datatype Resource = Resource(
    kind: string, urn: string, id: string, provider: string, pendingDelete: bool, context: string, recorded: Object)

  /** A Kubernetes object as the state recorded it. */
  datatype Object = Object(apiVersion: string, kind: string, namespace: string, name: string, uid: string)

  /** The cluster of every context and the server of every cluster. */
  datatype Kubeconfig = Kubeconfig(contexts: map<string, string>, servers: map<string, string>)

  datatype Found = Live(uid: string) | Missing | Unreadable

  type Lookup = Object -> Found

  // ----- which cluster a provider is on -----

  datatype Match = Same | Different | Unknown

  function ContextServer(k: Kubeconfig, name: string): string {
    if name in k.contexts && k.contexts[name] in k.servers then k.servers[k.contexts[name]] else ""
  }

  /** The kubeconfig knows which API server a context points at. */
  ghost predicate PointsAt(k: Kubeconfig, name: string, server: string) {
    server != "" && exists cluster :: name in k.contexts && k.contexts[name] == cluster
                                      && cluster in k.servers && k.servers[cluster] == server
  }

  /** Two contexts that point at different API servers, both known. */
  ghost predicate OnOtherServers(k: Kubeconfig, recorded: string, selected: string) {
    recorded != "" && recorded != selected
    && exists r, s :: PointsAt(k, recorded, r) && PointsAt(k, selected, s) && r != s
  }

  /** The same context, or the same known API server under another name. */
  ghost predicate OnOneServer(k: Kubeconfig, recorded: string, selected: string) {
    recorded != "" && (recorded == selected || exists s :: PointsAt(k, recorded, s) && PointsAt(k, selected, s))
  }

  lemma ServerIsKnown(k: Kubeconfig, name: string)
    ensures forall server :: PointsAt(k, name, server) <==> server != "" && ContextServer(k, name) == server
  {
    forall server ensures PointsAt(k, name, server) <==> server != "" && ContextServer(k, name) == server {
      if server != "" && ContextServer(k, name) == server {
        assert name in k.contexts && k.contexts[name] in k.servers;
      }
    }
  }

  /** A renamed context for the same cluster is never a move; a move takes two known servers. */
  lemma SameClusterMeans(k: Kubeconfig, recorded: string, selected: string)
    ensures SameCluster(k, recorded, selected) == Different <==> OnOtherServers(k, recorded, selected)
    ensures SameCluster(k, recorded, selected) == Same <==> OnOneServer(k, recorded, selected)
  {
    ServerIsKnown(k, recorded);
    ServerIsKnown(k, selected);
    var r, s := ContextServer(k, recorded), ContextServer(k, selected);
    assert r != "" ==> PointsAt(k, recorded, r);
    assert s != "" ==> PointsAt(k, selected, s);
  }

  function SameCluster(k: Kubeconfig, recorded: string, selected: string): Match {
    if recorded == "" then Unknown
    else if recorded == selected then Same
    else
      var r, s := ContextServer(k, recorded), ContextServer(k, selected);
      if r == "" || s == "" then Unknown
      else if r == s then Same
      else Different
  }

  ghost predicate IsProvider(r: Resource) {
    r.kind == "pulumi:providers:kubernetes"
  }

  ghost predicate IsLiveProvider(r: Resource) {
    IsProvider(r) && !r.pendingDelete
  }

  datatype Report = Report(mismatched: seq<Resource>, unverified: seq<Resource>, pending: seq<Resource>)

  ghost predicate Reports(report: Report, resources: seq<Resource>, k: Kubeconfig, selected: string) {
    && (forall r :: r in report.mismatched <==>
          r in resources && IsLiveProvider(r) && OnOtherServers(k, r.context, selected))
    && (forall r :: r in report.unverified <==>
          r in resources && IsLiveProvider(r)
          && !OnOneServer(k, r.context, selected) && !OnOtherServers(k, r.context, selected))
    && (forall r :: r in report.pending <==> r in resources && r.pendingDelete && !IsProvider(r))
  }

  /** inspectClusterTarget */
  method Inspect(resources: seq<Resource>, k: Kubeconfig, selected: string) returns (report: Report)
    ensures Reports(report, resources, k, selected)
  {
    report := Report([], [], []);
    for i := 0 to |resources|
      invariant forall r :: r in report.mismatched <==>
                  r in resources[..i] && IsLiveProvider(r) && SameCluster(k, r.context, selected) == Different
      invariant forall r :: r in report.unverified <==>
                  r in resources[..i] && IsLiveProvider(r) && SameCluster(k, r.context, selected) == Unknown
      invariant report.pending == []
    {
      var resource := resources[i];
      assert resources[..i + 1] == resources[..i] + [resource];
      if resource.kind != KUBERNETES_PROVIDER { continue; }
      if resource.pendingDelete { continue; }
      match SameCluster(k, resource.context, selected) {
        case Different => report := report.(mismatched := report.mismatched + [resource]);
        case Unknown => report := report.(unverified := report.unverified + [resource]);
        case Same =>
      }
    }
    assert resources[..|resources|] == resources;
    forall r | r in resources
      ensures SameCluster(k, r.context, selected) == Different <==> OnOtherServers(k, r.context, selected)
      ensures SameCluster(k, r.context, selected) == Same <==> OnOneServer(k, r.context, selected)
    {
      SameClusterMeans(k, r.context, selected);
    }
    var pending := PendingDeletes(resources);
    report := report.(pending := pending);
  }

  method PendingDeletes(resources: seq<Resource>) returns (pending: seq<Resource>)
    ensures forall r :: r in pending <==> r in resources && r.pendingDelete && !IsProvider(r)
  {
    pending := [];
    for i := 0 to |resources|
      invariant forall r :: r in pending <==> r in resources[..i] && r.pendingDelete && !IsProvider(r)
    {
      assert resources[..i + 1] == resources[..i] + [resources[i]];
      if !resources[i].pendingDelete || resources[i].kind == KUBERNETES_PROVIDER { continue; }
      pending := pending + [resources[i]];
    }
    assert resources[..|resources|] == resources;
  }

  // ----- comparing object UIDs -----

  ghost predicate Complete(o: Object) {
    o.apiVersion != "" && o.kind != "" && o.name != "" && o.uid != ""
  }

  /** The live objects of a provider whose UID was recorded, in the order of the state. */
  ghost function ObjectsOf(resources: seq<Resource>, key: string): seq<Object> {
    if resources == [] then []
    else
      var last := resources[|resources| - 1];
      ObjectsOf(resources[..|resources| - 1], key)
      + if !last.pendingDelete && last.provider == key && Complete(last.recorded) then [last.recorded] else []
  }

  /** A live resource of the provider that recorded the object completely. */
  ghost predicate Records(r: Resource, key: string, o: Object) {
    !r.pendingDelete && r.provider == key && r.recorded == o && Complete(o)
  }

  lemma {:induction false} ObjectsOfRecorded(resources: seq<Resource>, key: string, o: Object) returns (i: nat)
    requires o in ObjectsOf(resources, key)
    ensures i < |resources| && Records(resources[i], key, o)
  {
    var n := |resources| - 1;
    if Records(resources[n], key, o) {
      i := n;
    } else {
      i := ObjectsOfRecorded(resources[..n], key, o);
    }
  }

  lemma {:induction false} RecordedInObjectsOf(resources: seq<Resource>, key: string, o: Object, i: nat)
    requires i < |resources| && Records(resources[i], key, o)
    ensures o in ObjectsOf(resources, key)
  {
    if i < |resources| - 1 {
      RecordedInObjectsOf(resources[..|resources| - 1], key, o, i);
    }
  }

  lemma {:induction false} ObjectsOfAre(resources: seq<Resource>, key: string, o: Object)
    ensures o in ObjectsOf(resources, key) <==> exists i :: 0 <= i < |resources| && Records(resources[i], key, o)
  {
    if o in ObjectsOf(resources, key) {
      var i := ObjectsOfRecorded(resources, key, o);
    }
    if i :| 0 <= i < |resources| && Records(resources[i], key, o) {
      RecordedInObjectsOf(resources, key, o, i);
    }
  }

  method ProviderObjects(resources: seq<Resource>, key: string) returns (objects: seq<Object>)
    ensures objects == ObjectsOf(resources, key)
  {
    objects := [];
    for i := 0 to |resources|
      invariant objects == ObjectsOf(resources[..i], key)
    {
      assert resources[..i + 1][..i] == resources[..i];
      var resource := resources[i];
      if resource.pendingDelete || resource.provider != key { continue; }
      var o := resource.recorded;
      if o.apiVersion == "" || o.kind == "" || o.name == "" || o.uid == "" { continue; }
      objects := objects + [o];
    }
    assert resources[..|resources|] == resources;
  }

  datatype Verdict = SameUid | OtherUid | Undecided

  /** The recorded objects that are read at all. */
  ghost function Compared(objects: seq<Object>): seq<Object> {
    if |objects| > 20 then objects[..20] else objects
  }

  ghost predicate Matches(lookup: Lookup, o: Object) {
    lookup(o) == Live(o.uid)
  }

  ghost predicate Contradicts(lookup: Lookup, o: Object) {
    lookup(o).Live? && lookup(o).uid != o.uid
  }

  /** One match is proof; without any, one contradiction is. */
  ghost predicate IsVerdict(verdict: Verdict, lookup: Lookup, objects: seq<Object>) {
    if exists o :: o in Compared(objects) && Matches(lookup, o) then verdict == SameUid
    else if exists o :: o in Compared(objects) && Contradicts(lookup, o) then verdict == OtherUid
    else verdict == Undecided
  }

  /** verifyByUID */
  method VerifyByUid(lookup: Lookup, objects: seq<Object>) returns (verdict: Verdict)
    ensures IsVerdict(verdict, lookup, objects)
  {
    var compared := objects;
    if |objects| > MAX_UID_LOOKUPS { compared := objects[..MAX_UID_LOOKUPS]; }
    var different := false;
    for i := 0 to |compared|
      invariant forall o :: o in compared[..i] ==> !Matches(lookup, o)
      invariant different <==> exists o :: o in compared[..i] && Contradicts(lookup, o)
    {
      var o := compared[i];
      assert compared[..i + 1] == compared[..i] + [o];
      match lookup(o) {
        case Live(uid) =>
          if uid == o.uid {
            assert o in compared && Matches(lookup, o);
            return SameUid;
          }
          assert Contradicts(lookup, o);
          different := true;
        case Missing =>
        case Unreadable =>
      }
    }
    assert compared[..|compared|] == compared;
    return if different then OtherUid else Undecided;
  }

  /** Up to the bound the verdict does not depend on the order of the objects. */
  lemma VerdictIgnoresOrder(lookup: Lookup, a: seq<Object>, b: seq<Object>, v: Verdict, w: Verdict)
    requires multiset(a) == multiset(b) && |a| <= 20
    requires IsVerdict(v, lookup, a) && IsVerdict(w, lookup, b)
    ensures v == w
  {
    assert |multiset(a)| == |multiset(b)|;
    forall o ensures o in Compared(a) <==> o in Compared(b) {
      assert o in a <==> o in multiset(a);
      assert o in b <==> o in multiset(b);
    }
  }

  /** Beyond the bound it does: a match behind the first twenty is never read. */
  lemma TheTwentyFirstIsNotRead(missing: Object, live: Object, lookup: Lookup, n: nat)
    requires lookup(missing) == Missing && lookup(live) == Live(live.uid) && n > 20
    ensures var rest := seq(n - 1, i requires 0 <= i < n - 1 => missing);
            && |rest + [live]| == n && multiset(rest + [live]) == multiset([live] + rest)
            && IsVerdict(Undecided, lookup, rest + [live])
            && IsVerdict(SameUid, lookup, [live] + rest)
  {
    var rest := seq(n - 1, i requires 0 <= i < n - 1 => missing);
    assert multiset([live] + rest) == multiset([live]) + multiset(rest);
    assert multiset(rest + [live]) == multiset(rest) + multiset([live]);
    assert Compared(rest + [live]) == rest[..20];
    assert Compared([live] + rest)[0] == live;
    assert live in Compared([live] + rest) && Matches(lookup, live);
  }

  /** Whether reordering n objects can never change the verdict. */
  ghost predicate IgnoresOrder(n: nat) {
    forall lookup: Lookup, a, b, v, w ::
      |a| == n && multiset(a) == multiset(b) && IsVerdict(v, lookup, a) && IsVerdict(w, lookup, b) ==> v == w
  }

  /** The verdict is that of the set of objects exactly when they are at most twenty. */
  lemma VerdictIgnoresOrderIff(n: nat)
    ensures IgnoresOrder(n) <==> n <= 20
  {
    if n <= 20 {
      forall lookup: Lookup, a, b, v, w |
        |a| == n && multiset(a) == multiset(b) && IsVerdict(v, lookup, a) && IsVerdict(w, lookup, b)
        ensures v == w
      {
        VerdictIgnoresOrder(lookup, a, b, v, w);
      }
    } else {
      var missing, live := Object("v1", "Pod", "", "a", "1"), Object("v1", "Pod", "", "b", "2");
      var lookup: Lookup := (o: Object) => if o == live then Live(live.uid) else Missing;
      TheTwentyFirstIsNotRead(missing, live, lookup, n);
      var rest := seq(n - 1, i requires 0 <= i < n - 1 => missing);
      assert IsVerdict(Undecided, lookup, rest + [live]) && IsVerdict(SameUid, lookup, [live] + rest);
    }
  }

  // ----- the guard -----

  datatype Target = Target(context: string)

  datatype Question = AboutProviders | AboutDeletes

  datatype Reply = SaidContinue | SaidAbort | PromptFailed

  datatype Operation = Up | Destroy

  datatype Outcome = Succeeded | Refused | Locked

  datatype Event =
    | Asked(question: Question, reply: Reply) | Ran(operation: Operation, outcome: Outcome) | CancelledLock(ok: bool)

  datatype Error =
    | OtherCluster | NoPrompt | Aborted | PromptError | StateUnreadable | KubeconfigUnreadable
    | StackLocked | OperationFailed(operation: Operation)

  /** The operator and the stack. Any question may be answered in any way, and any operation may
      end in any way. */
  class Session {
    ghost var trace: seq<Event>

    constructor ()
      ensures trace == []
    {
      trace := [];
    }

    method Select(question: Question) returns (reply: Reply)
      modifies this
      ensures trace == old(trace) + [Asked(question, reply)]
    {
      reply := *;
      trace := trace + [Asked(question, reply)];
    }

    method Run(operation: Operation) returns (outcome: Outcome)
      modifies this
      ensures trace == old(trace) + [Ran(operation, outcome)]
    {
      outcome := *;
      trace := trace + [Ran(operation, outcome)];
    }

    method Cancel() returns (ok: bool)
      modifies this
      ensures trace == old(trace) + [CancelledLock(ok)]
    {
      ok := *;
      trace := trace + [CancelledLock(ok)];
    }
  }

  /** What a deployment is given. resources and kubeconfig are what reading the state and the
      kubeconfig comes to; lookup is absent when no client can be built. */
  datatype Deployment = Deployment(
    target: Option<Target>, resources: Option<seq<Resource>>, kubeconfig: Option<Kubeconfig>,
    lookup: Option<Lookup>, prompts: bool, destroyFirst: bool)

  ghost predicate IsGuarded(d: Deployment) {
    d.target.Some? && d.target.value.context != "" && d.resources != Some([])
  }

  /** A live provider that points at a known API server other than the selected one. */
  ghost predicate PointsElsewhere(d: Deployment) {
    && d.target.Some? && d.resources.Some? && d.kubeconfig.Some?
    && exists r :: r in d.resources.value && IsLiveProvider(r)
                   && OnOtherServers(d.kubeconfig.value, r.context, d.target.value.context)
  }

  ghost predicate Unestablished(d: Deployment, r: Resource)
    requires d.target.Some? && d.resources.Some? && d.kubeconfig.Some?
  {
    r in d.resources.value && IsLiveProvider(r)
    && !OnOneServer(d.kubeconfig.value, r.context, d.target.value.context)
    && !OnOtherServers(d.kubeconfig.value, r.context, d.target.value.context)
  }

  ghost predicate HasVerdict(d: Deployment, r: Resource, verdict: Verdict)
    requires d.resources.Some?
  {
    d.lookup.Some? && IsVerdict(verdict, d.lookup.value, ObjectsOf(d.resources.value, r.urn + "::" + r.id))
  }

  /** Providers only the operator can vouch for. */
  ghost predicate NeedsWord(d: Deployment)
    requires d.target.Some? && d.resources.Some? && d.kubeconfig.Some?
  {
    exists r :: Unestablished(d, r) && !HasVerdict(d, r, SameUid)
  }

  ghost predicate DeletesFirst(d: Deployment)
    requires d.resources.Some?
  {
    exists r :: r in d.resources.value && r.pendingDelete && !IsProvider(r)
  }

  /** The questions that were put and answered with Continue before going on. */
  ghost function Confirmed(d: Deployment): seq<Event>
    requires d.target.Some? && d.resources.Some? && d.kubeconfig.Some?
  {
    (if NeedsWord(d) then [Asked(AboutProviders, SaidContinue)] else [])
    + if DeletesFirst(d) then [Asked(AboutDeletes, SaidContinue)] else []
  }

  /** When a guarded deployment may go on. */
  ghost predicate Cleared(d: Deployment, asked: seq<Event>) {
    && d.resources.Some? && d.kubeconfig.Some? && d.target.Some?
    && !PointsElsewhere(d)
    && (forall r :: Unestablished(d, r) ==> !HasVerdict(d, r, OtherUid))
    && asked == Confirmed(d)
  }

  /** The questions, up to the first that was not answered with Continue. */
  ghost predicate Stops(planned: seq<Event>, asked: seq<Event>, error: Error) {
    var n := |asked| - 1;
    && 0 <= n < |planned| && asked[..n] == planned[..n]
    && asked[n].Asked? && planned[n].Asked? && asked[n].question == planned[n].question
    && match asked[n].reply
       case SaidContinue => false
       case SaidAbort => error == Aborted
       case PromptFailed => error == PromptError
  }

  /** What the guard says, and what it asks before. */
  ghost predicate Guards(d: Deployment, asked: seq<Event>, error: Option<Error>) {
    if !IsGuarded(d) then error.None? && asked == []
    else if d.resources.None? then error == Some(StateUnreadable) && asked == []
    else if d.kubeconfig.None? then error == Some(KubeconfigUnreadable) && asked == []
    else if PointsElsewhere(d) || exists r :: Unestablished(d, r) && HasVerdict(d, r, OtherUid) then
      error == Some(OtherCluster) && asked == []
    else if Confirmed(d) != [] && !d.prompts then error == Some(NoPrompt) && asked == []
    else if error.None? then asked == Confirmed(d)
    else Stops(Confirmed(d), asked, error.value)
  }

  /** confirm: only Continue goes on. */
  method Confirm(session: Session, prompts: bool, question: Question)
    returns (error: Option<Error>, ghost asked: seq<Event>)
    modifies session
    ensures session.trace == old(session.trace) + asked
    ensures prompts ==> exists reply :: asked == [Asked(question, reply)] && (error.None? <==> reply == SaidContinue)
    ensures prompts && error.Some? ==> Stops([Asked(question, SaidContinue)], asked, error.value)
    ensures !prompts ==> asked == [] && error == Some(NoPrompt)
  {
    if !prompts { return Some(NoPrompt), []; }
    var reply := session.Select(question);
    asked := [Asked(question, reply)];
    error := match reply
      case SaidContinue => None
      case SaidAbort => Some(Aborted)
      case PromptFailed => Some(PromptError);
  }

  /** verifyByObjectUID: the providers it could not settle, or an error when one is elsewhere. */
  method VerifyByObjectUid(d: Deployment, providers: seq<Resource>) returns (r: Result<seq<Resource>, Error>)
    requires d.resources.Some?
    ensures r.Err? <==> exists p :: p in providers && HasVerdict(d, p, OtherUid)
    ensures r.Err? ==> r.error == OtherCluster
    ensures r.Ok? ==> forall p :: p in r.value <==> p in providers && !HasVerdict(d, p, SameUid)
  {
    if d.lookup.None? { return Ok(providers); }
    var remaining: seq<Resource> := [];
    for i := 0 to |providers|
      invariant forall p :: p in providers[..i] ==> !HasVerdict(d, p, OtherUid)
      invariant forall p :: p in remaining <==> p in providers[..i] && !HasVerdict(d, p, SameUid)
    {
      var provider := providers[i];
      assert providers[..i + 1] == providers[..i] + [provider];
      var objects := ProviderObjects(d.resources.value, provider.urn + "::" + provider.id);
      var verdict := VerifyByUid(d.lookup.value, objects);
      match verdict {
        case SameUid =>
        case OtherUid =>
          assert provider in providers && HasVerdict(d, provider, OtherUid);
          return Err(OtherCluster);
        case Undecided => remaining := remaining + [provider];
      }
    }
    assert providers[..|providers|] == providers;
    return Ok(remaining);
  }

  /** checkClusterTarget: a guarded deployment goes on only when it is cleared, and when nothing
      has to be asked it goes on exactly then. */
  method CheckClusterTarget(session: Session, d: Deployment) returns (error: Option<Error>, ghost asked: seq<Event>)
    modifies session
    ensures session.trace == old(session.trace) + asked && forall e :: e in asked ==> e.Asked?
    ensures !IsGuarded(d) ==> error.None? && asked == []
    ensures Guards(d, asked, error)
    ensures IsGuarded(d) ==> (error.None? <==> Cleared(d, asked))
  {
    asked := [];
    if d.target.None? || d.target.value.context == "" { return None, []; }
    if d.resources.None? { return Some(StateUnreadable), []; }
    if |d.resources.value| == 0 { return None, []; }
    if d.kubeconfig.None? { return Some(KubeconfigUnreadable), []; }
    var report := Inspect(d.resources.value, d.kubeconfig.value, d.target.value.context);
    if |report.mismatched| > 0 {
      assert report.mismatched[0] in report.mismatched;
      return Some(OtherCluster), [];
    }
    var unverified := VerifyByObjectUid(d, report.unverified);
    if unverified.Err? { return Some(unverified.error), []; }
    assert NeedsWord(d) <==> |unverified.value| > 0 by {
      if |unverified.value| > 0 { assert unverified.value[0] in unverified.value; }
    }
    assert DeletesFirst(d) <==> |report.pending| > 0 by {
      if |report.pending| > 0 { assert report.pending[0] in report.pending; }
    }
    error, asked := AskFirst(session, d, |unverified.value| > 0, |report.pending| > 0);
  }

  method AskFirst(session: Session, d: Deployment, needsWord: bool, deletesFirst: bool)
    returns (error: Option<Error>, ghost asked: seq<Event>)
    requires d.target.Some? && d.resources.Some? && d.kubeconfig.Some?
    requires (needsWord <==> NeedsWord(d)) && (deletesFirst <==> DeletesFirst(d))
    modifies session
    ensures session.trace == old(session.trace) + asked && forall e :: e in asked ==> e.Asked?
    ensures if Confirmed(d) != [] && !d.prompts then error == Some(NoPrompt) && asked == []
            else if error.None? then asked == Confirmed(d)
            else Stops(Confirmed(d), asked, error.value)
  {
    asked, error := [], None;
    if needsWord {
      error, asked := Confirm(session, d.prompts, AboutProviders);
      if error.Some? { return; }
    }
    if deletesFirst {
      ghost var more;
      error, more := Confirm(session, d.prompts, AboutDeletes);
      asked := asked + more;
    }
  }

  // ----- the operations -----

  /** The attempts at an operation: one, or two with one cancelled lock between them. */
  ghost predicate Attempts(operation: Operation, events: seq<Event>, error: Option<Error>) {
    || (events == [Ran(operation, Succeeded)] && error.None?)
    || (events == [Ran(operation, Refused)] && error == Some(OperationFailed(operation)))
    || (events == [Ran(operation, Locked), CancelledLock(false)] && error == Some(StackLocked))
    || (events == [Ran(operation, Locked), CancelledLock(true), Ran(operation, Succeeded)] && error.None?)
    || (events == [Ran(operation, Locked), CancelledLock(true), Ran(operation, Refused)]
        && error == Some(OperationFailed(operation)))
    || (events == [Ran(operation, Locked), CancelledLock(true), Ran(operation, Locked)] && error == Some(StackLocked))
  }

  /** withLockRetry */
  method WithLockRetry(session: Session, operation: Operation) returns (error: Option<Error>, ghost events: seq<Event>)
    modifies session
    ensures session.trace == old(session.trace) + events
    ensures Attempts(operation, events, error)
  {
    var outcome := session.Run(operation);
    events := [Ran(operation, outcome)];
    if outcome == Succeeded { return None, events; }
    if outcome == Locked {
      var ok := session.Cancel();
      events := events + [CancelledLock(ok)];
      if !ok { return Some(StackLocked), events; }
      outcome := session.Run(operation);
      events := events + [Ran(operation, outcome)];
      if outcome == Succeeded { return None, events; }
      if outcome == Locked { return Some(StackLocked), events; }
    }
    error := Some(OperationFailed(operation));
  }

  /** A destroy that fails, or one that succeeds and the attempts at up after it. */
  ghost predicate DestroyThenUp(operations: seq<Event>, error: Option<Error>) {
    || (Attempts(Destroy, operations, error) && error.Some?)
    || exists destroyed, upped ::
         operations == destroyed + upped && Attempts(Destroy, destroyed, None) && Attempts(Up, upped, error)
  }

  /** Deploy: questions first, and an operation only behind the passed guard; up only behind a
      destroy that succeeded when destroying first. */
  method Deploy(session: Session, d: Deployment)
    returns (error: Option<Error>, ghost asked: seq<Event>, ghost operations: seq<Event>)
    modifies session
    ensures session.trace == old(session.trace) + asked + operations && forall e :: e in asked ==> e.Asked?
    ensures operations != [] && IsGuarded(d) ==> Cleared(d, asked)
    ensures Guards(d, asked, if operations == [] then error else None)
    ensures if operations == [] then error.Some?
            else if d.destroyFirst then DestroyThenUp(operations, error)
            else Attempts(Up, operations, error)
  {
    operations := [];
    error, asked := CheckClusterTarget(session, d);
    if error.Some? { return; }
    if d.destroyFirst {
      error, operations := WithLockRetry(session, Destroy);
      if error.Some? { return; }
    }
    ghost var upped;
    error, upped := WithLockRetry(session, Up);
    assert d.destroyFirst ==> DestroyThenUp(operations + upped, error);
    assert operations == [] ==> operations + upped == upped;
    operations := operations + upped;
  }

  /** DestroyOnly */
  method DestroyOnly(session: Session, d: Deployment)
    returns (error: Option<Error>, ghost asked: seq<Event>, ghost operations: seq<Event>)
    modifies session
    ensures session.trace == old(session.trace) + asked + operations && forall e :: e in asked ==> e.Asked?
    ensures operations != [] && IsGuarded(d) ==> Cleared(d, asked)
    ensures Guards(d, asked, if operations == [] then error else None)
    ensures if operations == [] then error.Some? else Attempts(Destroy, operations, error)
  {
    operations := [];
    error, asked := CheckClusterTarget(session, d);
    if error.Some? { return; }
    error, operations := WithLockRetry(session, Destroy);
  }
}
