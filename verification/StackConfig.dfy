/** Resolving a declared stack configuration: pkg/stack/config. */
module StackConfig {
  import opened Wrappers
  import GoText

  /** A value an entry can have. Other is a slice, map or struct, with its length when it has one
      and its JSON when it can be marshalled. */
  datatype Value =
    | Text(text: string) | Flag(flag: bool) | Number(number: int) | Other(size: Option<nat>, json: Option<string>)

  datatype Kind = InputKind | SelectKind | MultiSelectKind | InvalidKind

  datatype Prompt = Prompt(kind: Kind, title: string, placeholder: string, options: seq<string>)

  /** WhenEquals(key, expected) */
  datatype Condition = Equals(key: string, expected: Value)

  datatype Entry = Entry(
    key: string, value: Option<Value>, preset: Option<Value>, prompt: Option<Prompt>,
    required: bool, secret: bool, when: Option<Condition>, validate: Option<string -> bool>)

  type Values = map<string, Value>

  datatype Config = Config(namespace: string, entries: seq<Entry>, checks: seq<Values -> bool>)

  datatype Question =
    | Input(title: string, placeholder: string, current: string)
    | Secret(title: string, placeholder: string, current: string)
    | Select(title: string, current: string, options: seq<string>)
    | MultiSelect(title: string, options: seq<string>)

  /** The operator: what the n-th question of a run is answered with. masks says whether secrets
      can be asked for as such. */
  datatype Prompter = Prompter(
    text: (nat, Question) -> Result<string, string>, list: (nat, Question) -> Result<Value, string>, masks: bool)

  datatype ConfigValue = ConfigValue(value: string, secret: bool)

  // ----- one entry -----

  function Itoa(n: int): string {
    if n < 0 then "-" + GoText.Itoa(-n) else GoText.Itoa(n)
  }

  function Encode(v: Value): Option<string> {
    match v
    case Text(text) => Some(text)
    case Flag(flag) => Some(if flag then "true" else "false")
    case Number(number) => Some(Itoa(number))
    case Other(_, json) => json
  }

  predicate IsEmpty(v: Value) {
    match v
    case Text(text) => GoText.TrimSpace(text) == ""
    case Other(size, _) => size == Some(0)
    case _ => false
  }

  predicate Active(e: Entry, values: Values) {
    e.when.None? || (e.when.value.key in values && values[e.when.value.key] == e.when.value.expected)
  }

  predicate WellFormedEntry(e: Entry) {
    && e.key != ""
    && (e.prompt.Some? ==>
          && e.prompt.value.title != ""
          && e.prompt.value.kind != InvalidKind
          && (e.prompt.value.kind != InputKind ==> e.prompt.value.options != []))
  }

  function Trimmed(answer: Result<string, string>): Result<Value, string> {
    match answer
    case Ok(text) => Ok(Text(GoText.TrimSpace(text)))
    case Err(error) => Err(error)
  }

  function Verbatim(answer: Result<string, string>): Result<Value, string> {
    match answer
    case Ok(text) => Ok(Text(text))
    case Err(error) => Err(error)
  }

  /** resolvePrompt, as the n-th question. */
  function Ask(e: Entry, prompt: Prompt, p: Prompter, n: nat): Result<Value, string> {
    if e.preset.Some? && Encode(e.preset.value).None? then Err("encode default value")
    else
      var current := if e.preset.Some? then Encode(e.preset.value).value else "";
      match prompt.kind
      case InputKind =>
        if !e.secret then Trimmed(p.text(n, Input(prompt.title, prompt.placeholder, current)))
        else if p.masks then Verbatim(p.text(n, Secret(prompt.title, prompt.placeholder, current)))
        else Verbatim(p.text(n, Input(prompt.title, prompt.placeholder, current)))
      case SelectKind => Verbatim(p.text(n, Select(prompt.title, current, prompt.options)))
      case MultiSelectKind => p.list(n, MultiSelect(prompt.title, prompt.options))
      case InvalidKind => Err("invalid prompt kind")
  }

  /** Entry.resolve: the value given, else the answer, else the default, else nothing. */
  function ResolveEntry(e: Entry, p: Option<Prompter>, n: nat): Result<Option<Value>, string> {
    if e.value.Some? then Ok(e.value)
    else if e.prompt.Some? then
      if p.None? then Err("prompt is required but no prompter was provided")
      else match Ask(e, e.prompt.value, p.value, n)
        case Ok(v) => Ok(Some(v))
        case Err(error) => Err(error)
    else Ok(e.preset)
  }

  /** A rule looks at the trimmed text, and only if there is any. */
  predicate BreaksItsRule(e: Entry, text: string) {
    e.validate.Some? && GoText.TrimSpace(text) != "" && !e.validate.value(GoText.TrimSpace(text))
  }

  /** What an active entry ends as: Err when it stops the run, None when it stays unset. */
  function Outcome(e: Entry, p: Option<Prompter>, n: nat): Result<Option<Value>, string> {
    match ResolveEntry(e, p, n)
    case Err(error) => Err(error)
    case Ok(None) => if e.required then Err("required") else Ok(None)
    case Ok(Some(v)) =>
      if e.required && IsEmpty(v) then Err("required")
      else if v.Text? && BreaksItsRule(e, v.text) then Err("invalid")
      else if Encode(v).None? then Err("encode")
      else Ok(Some(v))
  }

  // ----- the definition -----

  ghost predicate DistinctKeys(entries: seq<Entry>) {
    forall i, j :: 0 <= i < j < |entries| ==> entries[i].key != entries[j].key
  }

  ghost predicate DependsEarlier(entries: seq<Entry>, i: nat)
    requires i < |entries|
  {
    entries[i].when.Some? ==> exists j :: 0 <= j < i && entries[j].key == entries[i].when.value.key
  }

  ghost predicate Ordered(entries: seq<Entry>) {
    DistinctKeys(entries) && forall i :: 0 <= i < |entries| ==> DependsEarlier(entries, i)
  }

  ghost predicate ValidConfig(c: Config) {
    c.namespace != "" && (forall e :: e in c.entries ==> WellFormedEntry(e)) && Ordered(c.entries)
  }

  ghost function KeysOf(entries: seq<Entry>): set<string> {
    set e | e in entries :: e.key
  }

  /** Config.Validate */
  method Validate(c: Config) returns (ok: bool)
    ensures ok <==> ValidConfig(c)
  {
    if c.namespace == "" { return false; }
    var seen: set<string> := {};
    for i := 0 to |c.entries|
      invariant forall e :: e in c.entries[..i] ==> WellFormedEntry(e)
      invariant Ordered(c.entries[..i])
      invariant forall key :: key in seen <==> exists j :: 0 <= j < i && c.entries[j].key == key
    {
      var e := c.entries[i];
      assert e in c.entries;
      if !WellFormedEntry(e) { return false; }
      if e.key in seen { return false; }
      if e.when.Some? && e.when.value.key !in seen {
        assert !DependsEarlier(c.entries, i);
        return false;
      }
      OneMoreOrdered(c.entries, i);
      seen := seen + {e.key};
    }
    assert c.entries[..|c.entries|] == c.entries;
    return true;
  }

  lemma OneMoreOrdered(entries: seq<Entry>, i: nat)
    requires i < |entries| && Ordered(entries[..i]) && DependsEarlier(entries, i)
    requires forall j :: 0 <= j < i ==> entries[j].key != entries[i].key
    ensures Ordered(entries[..i + 1])
  {
    var before, after := entries[..i], entries[..i + 1];
    forall k | 0 <= k < |after| ensures DependsEarlier(after, k) {
      if k < i {
        assert DependsEarlier(before, k);
        if before[k].when.Some? {
          var j :| 0 <= j < k && before[j].key == before[k].when.value.key;
          assert after[j].key == after[k].when.value.key;
        }
      } else if entries[i].when.Some? {
        var j :| 0 <= j < i && entries[j].key == entries[i].when.value.key;
        assert after[j].key == after[k].when.value.key;
      }
    }
  }

  // ----- what a run comes to, without its order -----

  /** The outcome of every entry that had its turn. */
  type Outcomes = map<string, Result<Option<Value>, string>>

  /** The outcomes are those of the entries, each at some turn. */
  ghost predicate Given(entries: seq<Entry>, p: Option<Prompter>, outcomes: Outcomes) {
    forall e :: e in entries && e.key in outcomes ==> exists n: nat :: outcomes[e.key] == Outcome(e, p, n)
  }

  /** An entry had its turn exactly when it is active, and is set to its outcome or unset. */
  ghost predicate Settled(e: Entry, outcomes: Outcomes, values: Values) {
    && (e.key in outcomes <==> Active(e, values))
    && (e.key in values <==> e.key in outcomes && outcomes[e.key].Ok? && outcomes[e.key].value.Some?)
    && (e.key in outcomes ==> outcomes[e.key].Ok?)
    && (e.key in values && e.key in outcomes && outcomes[e.key].Ok? ==> outcomes[e.key].value == Some(values[e.key]))
  }

  /** Final values that settle every entry and hold nothing else. */
  ghost predicate Solution(entries: seq<Entry>, outcomes: Outcomes, values: Values) {
    && (forall e :: e in entries ==> Settled(e, outcomes, values))
    && values.Keys <= KeysOf(entries)
  }

  /** The key an entry is written under. */
  function FullKey(c: Config, key: string): string {
    c.namespace + ":" + key
  }

  lemma FullKeysDiffer(c: Config, a: string, b: string)
    ensures FullKey(c, a) == FullKey(c, b) <==> a == b
  {
    assert FullKey(c, a)[|c.namespace| + 1..] == a;
    assert FullKey(c, b)[|c.namespace| + 1..] == b;
  }

  /** What is written: the encoded values under their full keys. */
  ghost predicate Written(c: Config, entries: seq<Entry>, values: Values, result: map<string, ConfigValue>) {
    && (forall full :: full in result ==> exists e :: e in entries && e.key in values && full == FullKey(c, e.key))
    && forall e :: e in entries && e.key in values ==> WrittenFor(c, e, values[e.key], result)
  }

  ghost predicate WrittenFor(c: Config, e: Entry, v: Value, result: map<string, ConfigValue>) {
    && FullKey(c, e.key) in result
    && Encode(v) == Some(result[FullKey(c, e.key)].value)
    && result[FullKey(c, e.key)].secret == e.secret
  }

  ghost predicate ChecksPass(c: Config, values: Values) {
    forall i :: 0 <= i < |c.checks| ==> c.checks[i](values)
  }

  /** The answers depend on the question, not on when it is asked. */
  ghost predicate IgnoresTurns(p: Option<Prompter>) {
    p.Some? ==>
      && (forall n: nat, m: nat, q :: p.value.text(n, q) == p.value.text(m, q))
      && forall n: nat, m: nat, q :: p.value.list(n, q) == p.value.list(m, q)
  }

  lemma SameAnswer(e: Entry, prompt: Prompt, p: Prompter, n: nat, m: nat)
    requires IgnoresTurns(Some(p))
    ensures Ask(e, prompt, p, n) == Ask(e, prompt, p, m)
  {
  }

  lemma SameOutcome(e: Entry, p: Option<Prompter>, n: nat, m: nat)
    requires IgnoresTurns(p)
    ensures Outcome(e, p, n) == Outcome(e, p, m)
  {
    if p.Some? && e.prompt.Some? { SameAnswer(e, e.prompt.value, p.value, n, m); }
    assert ResolveEntry(e, p, n) == ResolveEntry(e, p, m);
  }

  // ----- a run keeps the settled entries settled -----

  /** Setting a later key leaves the entries before it as they were. */
  lemma StaysSettled(entries: seq<Entry>, i: nat, k: nat, outcomes: Outcomes, values: Values,
                     outcomesAfter: Outcomes, after: Values)
    requires k < i < |entries| && Ordered(entries) && Settled(entries[k], outcomes, values)
    requires forall key :: key != entries[i].key ==>
               && (key in after <==> key in values) && (key in values ==> after[key] == values[key])
               && (key in outcomesAfter <==> key in outcomes)
               && (key in outcomes ==> outcomesAfter[key] == outcomes[key])
    ensures Settled(entries[k], outcomesAfter, after)
  {
    assert entries[k].key != entries[i].key;
    assert DependsEarlier(entries, k);
    if entries[k].when.Some? {
      var j :| 0 <= j < k && entries[j].key == entries[k].when.value.key;
      assert entries[j].key != entries[i].key;
    }
  }

  ghost predicate SettledUpTo(entries: seq<Entry>, i: nat, outcomes: Outcomes, values: Values)
    requires i <= |entries|
  {
    && (forall k :: 0 <= k < i ==> Settled(entries[k], outcomes, values))
    && values.Keys <= KeysOf(entries[..i]) && outcomes.Keys <= KeysOf(entries[..i])
  }

  /** The values after an entry's turn. */
  function NextValues(e: Entry, outcome: Result<Option<Value>, string>, values: Values): Values {
    if outcome.Ok? && outcome.value.Some? then values[e.key := outcome.value.value] else values
  }

  lemma KeyIsNew(entries: seq<Entry>, i: nat, key: string)
    requires i < |entries| && Ordered(entries) && key in KeysOf(entries[..i])
    ensures key != entries[i].key
  {
    var e :| e in entries[..i] && e.key == key;
    var k :| 0 <= k < i && entries[k] == e;
  }

  lemma OneMoreKey(entries: seq<Entry>, i: nat)
    requires i < |entries|
    ensures KeysOf(entries[..i + 1]) == KeysOf(entries[..i]) + {entries[i].key}
  {
    assert entries[..i + 1] == entries[..i] + [entries[i]];
  }

  /** A turn of an active entry. */
  lemma SettleActive(entries: seq<Entry>, i: nat, outcomes: Outcomes, values: Values,
                     outcome: Result<Option<Value>, string>)
    requires i < |entries| && Ordered(entries) && SettledUpTo(entries, i, outcomes, values)
    requires Active(entries[i], values) && outcome.Ok?
    ensures SettledUpTo(entries, i + 1, outcomes[entries[i].key := outcome], NextValues(entries[i], outcome, values))
  {
    var e := entries[i];
    var outcomesAfter, after := outcomes[e.key := outcome], NextValues(e, outcome, values);
    if e.key in KeysOf(entries[..i]) { KeyIsNew(entries, i, e.key); }
    NotItsOwnDependency(entries, i);
    SettledAtItsTurn(e, outcomes, values, outcome);
    forall k | 0 <= k < i ensures Settled(entries[k], outcomesAfter, after) {
      StaysSettled(entries, i, k, outcomes, values, outcomesAfter, after);
    }
    OneMoreKey(entries, i);
    KeysGrow(KeysOf(entries[..i]), e, outcomes, values, outcome);
  }

  lemma KeysGrow(keys: set<string>, e: Entry, outcomes: Outcomes, values: Values,
                 outcome: Result<Option<Value>, string>)
    requires values.Keys <= keys && outcomes.Keys <= keys
    ensures NextValues(e, outcome, values).Keys <= keys + {e.key} && outcomes[e.key := outcome].Keys <= keys + {e.key}
  {
  }

  lemma SettledAtItsTurn(e: Entry, outcomes: Outcomes, values: Values, outcome: Result<Option<Value>, string>)
    requires Active(e, values) && outcome.Ok? && e.key !in values
    requires e.when.Some? ==> e.when.value.key != e.key
    ensures Settled(e, outcomes[e.key := outcome], NextValues(e, outcome, values))
  {
  }

  lemma NotItsOwnDependency(entries: seq<Entry>, i: nat)
    requires i < |entries| && Ordered(entries)
    ensures entries[i].when.Some? ==> entries[i].when.value.key != entries[i].key
  {
    assert DependsEarlier(entries, i);
  }

  /** A turn that an inactive entry does not get. */
  lemma SettleInactive(entries: seq<Entry>, i: nat, outcomes: Outcomes, values: Values)
    requires i < |entries| && Ordered(entries) && SettledUpTo(entries, i, outcomes, values)
    requires !Active(entries[i], values)
    ensures SettledUpTo(entries, i + 1, outcomes, values)
  {
    if entries[i].key in KeysOf(entries[..i]) { KeyIsNew(entries, i, entries[i].key); }
    OneMoreKey(entries, i);
  }

  // ----- a solution is what the run arrives at -----

  /** The values agree on the keys of the first entries. */
  ghost predicate AgreeUpTo(entries: seq<Entry>, i: nat, a: Values, b: Values)
    requires i <= |entries|
  {
    forall k :: 0 <= k < i ==> AgreeOn(entries[k].key, a, b)
  }

  ghost predicate AgreeOn(key: string, a: Values, b: Values) {
    (key in a <==> key in b) && (key in a && key in b ==> a[key] == b[key])
  }

  lemma SameActivity(entries: seq<Entry>, i: nat, a: Values, b: Values)
    requires i < |entries| && Ordered(entries) && AgreeUpTo(entries, i, a, b)
    ensures Active(entries[i], a) <==> Active(entries[i], b)
  {
    assert DependsEarlier(entries, i);
    if entries[i].when.Some? {
      var j :| 0 <= j < i && entries[j].key == entries[i].when.value.key;
      assert AgreeOn(entries[j].key, a, b);
    }
  }

  /** After one more turn the run still agrees with every solution, and no solution has an entry
      that stops the run. */
  lemma AgreeNext(entries: seq<Entry>, i: nat, p: Option<Prompter>, values: Values, n: nat,
                  outcomes: Outcomes, solution: Values)
    requires i < |entries| && Ordered(entries) && IgnoresTurns(p)
    requires values.Keys <= KeysOf(entries[..i]) && AgreeUpTo(entries, i, values, solution)
    requires Given(entries, p, outcomes) && Solution(entries, outcomes, solution)
    ensures Active(entries[i], values) ==>
              Outcome(entries[i], p, n).Ok?
              && AgreeUpTo(entries, i + 1, NextValues(entries[i], Outcome(entries[i], p, n), values), solution)
    ensures !Active(entries[i], values) ==> AgreeUpTo(entries, i + 1, values, solution)
  {
    var e := entries[i];
    SameActivity(entries, i, values, solution);
    assert e in entries && Settled(e, outcomes, solution);
    if e.key in values { KeyIsNew(entries, i, e.key); }
    if e.key in outcomes {
      var m: nat :| outcomes[e.key] == Outcome(e, p, m);
      SameOutcome(e, p, n, m);
      AgreeAfter(entries, i, Outcome(e, p, n), values, solution);
    }
  }

  lemma AgreeAfter(entries: seq<Entry>, i: nat, outcome: Result<Option<Value>, string>, values: Values,
                   solution: Values)
    requires i < |entries| && Ordered(entries) && AgreeUpTo(entries, i, values, solution) && entries[i].key !in values
    requires outcome.Ok? && (entries[i].key in solution <==> outcome.value.Some?)
    requires entries[i].key in solution && outcome.value.Some? ==> solution[entries[i].key] == outcome.value.value
    ensures AgreeUpTo(entries, i + 1, NextValues(entries[i], outcome, values), solution)
  {
    var after := NextValues(entries[i], outcome, values);
    forall k | 0 <= k < i ensures AgreeOn(entries[k].key, after, solution) {
      assert AgreeOn(entries[k].key, values, solution) && entries[k].key != entries[i].key;
    }
  }

  lemma AgreeEverywhere(entries: seq<Entry>, values: Values, solution: Values)
    requires AgreeUpTo(entries, |entries|, values, solution)
    requires values.Keys <= KeysOf(entries) && solution.Keys <= KeysOf(entries)
    ensures values == solution
  {
    forall key ensures AgreeOn(key, values, solution) {
      if key in KeysOf(entries) {
        var e :| e in entries && e.key == key;
        var k :| 0 <= k < |entries| && entries[k] == e;
      }
    }
    assert values.Keys == solution.Keys;
  }

  /** Every solution is these values. */
  ghost predicate OnlySolution(entries: seq<Entry>, p: Option<Prompter>, values: Values) {
    forall outcomes, other :: Given(entries, p, outcomes) && Solution(entries, outcomes, other) ==> other == values
  }

  ghost predicate NoSolution(entries: seq<Entry>, p: Option<Prompter>) {
    forall outcomes, other :: Given(entries, p, outcomes) ==> !Solution(entries, outcomes, other)
  }

  ghost predicate AgreesWithSolutions(entries: seq<Entry>, i: nat, p: Option<Prompter>, values: Values)
    requires i <= |entries|
  {
    forall outcomes, other :: Given(entries, p, outcomes) && Solution(entries, outcomes, other) ==>
      AgreeUpTo(entries, i, values, other)
  }

  lemma NextAgrees(entries: seq<Entry>, i: nat, p: Option<Prompter>, values: Values, n: nat)
    requires i < |entries| && Ordered(entries) && IgnoresTurns(p)
    requires values.Keys <= KeysOf(entries[..i]) && AgreesWithSolutions(entries, i, p, values)
    ensures !Active(entries[i], values) ==> AgreesWithSolutions(entries, i + 1, p, values)
    ensures Active(entries[i], values) && Outcome(entries[i], p, n).Ok? ==>
              AgreesWithSolutions(entries, i + 1, p, NextValues(entries[i], Outcome(entries[i], p, n), values))
    ensures Active(entries[i], values) && Outcome(entries[i], p, n).Err? ==> NoSolution(entries, p)
  {
    forall outcomes, other | Given(entries, p, outcomes) && Solution(entries, outcomes, other)
      ensures !Active(entries[i], values) ==> AgreeUpTo(entries, i + 1, values, other)
      ensures Active(entries[i], values) ==>
                Outcome(entries[i], p, n).Ok?
                && AgreeUpTo(entries, i + 1, NextValues(entries[i], Outcome(entries[i], p, n), values), other)
    {
      AgreeNext(entries, i, p, values, n, outcomes, other);
    }
  }

  lemma SolutionsAreTheValues(entries: seq<Entry>, p: Option<Prompter>, values: Values)
    requires AgreesWithSolutions(entries, |entries|, p, values) && values.Keys <= KeysOf(entries)
    ensures OnlySolution(entries, p, values)
  {
    forall outcomes, other | Given(entries, p, outcomes) && Solution(entries, outcomes, other) ensures other == values {
      AgreeEverywhere(entries, values, other);
    }
  }

  // ----- Resolve -----

  /** What Resolve promises. On success the result is what some final values write that settle
      every entry and pass the checks; and the only such values when answers ignore turns. On
      failure of a valid definition no such values exist. */
  ghost predicate IsResolution(c: Config, p: Option<Prompter>, r: Result<map<string, ConfigValue>, string>) {
    match r
    case Ok(result) =>
      ValidConfig(c) && exists outcomes, values :: Resolved(c, p, outcomes, values, result)
    case Err(_) =>
      ValidConfig(c) && IgnoresTurns(p) ==>
        forall outcomes, values ::
          Given(c.entries, p, outcomes) && Solution(c.entries, outcomes, values) ==> !ChecksPass(c, values)
  }

  ghost predicate Resolved(c: Config, p: Option<Prompter>, outcomes: Outcomes, values: Values,
                           result: map<string, ConfigValue>)
  {
    && Given(c.entries, p, outcomes) && Solution(c.entries, outcomes, values) && ChecksPass(c, values)
    && Written(c, c.entries, values, result)
    && (IgnoresTurns(p) ==> OnlySolution(c.entries, p, values))
  }

  // ----- the turns -----

  /** How many of the entries were asked about. */
  ghost function Asked(entries: seq<Entry>, outcomes: Outcomes): nat {
    if entries == [] then 0
    else
      var last := entries[|entries| - 1];
      Asked(entries[..|entries| - 1], outcomes)
      + if last.key in outcomes && last.value.None? && last.prompt.Some? then 1 else 0
  }

  /** The operator is asked once per entry, in the order of the entries, without a gap. */
  ghost predicate InTurn(entries: seq<Entry>, p: Option<Prompter>, outcomes: Outcomes) {
    forall k :: 0 <= k < |entries| ==> TurnOf(entries, k, p, outcomes)
  }

  ghost predicate TurnOf(entries: seq<Entry>, k: nat, p: Option<Prompter>, outcomes: Outcomes)
    requires k < |entries|
  {
    entries[k].key in outcomes ==>
      outcomes[entries[k].key] == Outcome(entries[k], p, Asked(entries[..k], outcomes))
  }

  lemma {:induction false} AskedStays(entries: seq<Entry>, key: string, outcome: Result<Option<Value>, string>,
                                      outcomes: Outcomes)
    requires key !in KeysOf(entries)
    ensures Asked(entries, outcomes[key := outcome]) == Asked(entries, outcomes)
  {
    if entries != [] {
      assert entries[|entries| - 1] in entries;
      AskedStays(entries[..|entries| - 1], key, outcome, outcomes);
    }
  }

  lemma TurnStays(entries: seq<Entry>, i: nat, k: nat, p: Option<Prompter>, outcome: Result<Option<Value>, string>,
                  outcomes: Outcomes)
    requires k < i < |entries| && Ordered(entries) && TurnOf(entries[..i], k, p, outcomes)
    ensures TurnOf(entries[..i + 1], k, p, outcomes[entries[i].key := outcome])
    ensures TurnOf(entries[..i + 1], k, p, outcomes)
  {
    assert entries[..i][..k] == entries[..i + 1][..k] == entries[..k];
    if entries[i].key in KeysOf(entries[..k]) {
      assert KeysOf(entries[..k]) <= KeysOf(entries[..i]);
      KeyIsNew(entries, i, entries[i].key);
    }
    AskedStays(entries[..k], entries[i].key, outcome, outcomes);
  }

  /** The turn of an entry that is asked next. */
  lemma TakesItsTurn(entries: seq<Entry>, i: nat, p: Option<Prompter>, outcomes: Outcomes, n: nat)
    requires i < |entries| && Ordered(entries) && outcomes.Keys <= KeysOf(entries[..i])
    requires InTurn(entries[..i], p, outcomes) && n == Asked(entries[..i], outcomes)
    ensures var e := entries[i];
            var after := outcomes[e.key := Outcome(e, p, n)];
            && InTurn(entries[..i + 1], p, after)
            && Asked(entries[..i + 1], after) == n + if e.value.None? && e.prompt.Some? then 1 else 0
  {
    var e, outcome := entries[i], Outcome(entries[i], p, n);
    assert entries[..i + 1][..i] == entries[..i];
    if e.key in KeysOf(entries[..i]) { KeyIsNew(entries, i, e.key); }
    AskedStays(entries[..i], e.key, outcome, outcomes);
    var upTo, after := entries[..i + 1], outcomes[e.key := outcome];
    forall k | 0 <= k < i ensures TurnOf(upTo, k, p, after) {
      TurnStays(entries, i, k, p, outcome, outcomes);
    }
  }

  lemma LosesItsTurn(entries: seq<Entry>, i: nat, p: Option<Prompter>, outcomes: Outcomes)
    requires i < |entries| && Ordered(entries) && outcomes.Keys <= KeysOf(entries[..i])
    requires InTurn(entries[..i], p, outcomes)
    ensures InTurn(entries[..i + 1], p, outcomes) && Asked(entries[..i + 1], outcomes) == Asked(entries[..i], outcomes)
  {
    var e := entries[i];
    assert entries[..i + 1][..i] == entries[..i];
    if e.key in KeysOf(entries[..i]) { KeyIsNew(entries, i, e.key); }
    var upTo := entries[..i + 1];
    forall k | 0 <= k < i ensures TurnOf(upTo, k, p, outcomes) {
      TurnStays(entries, i, k, p, Ok(None), outcomes);
    }
  }

  datatype Run = Run(values: Values, result: map<string, ConfigValue>)

  /** Every entry's turn: at most one question each, going on from what is set so far. */
  method RunEntries(c: Config, p: Option<Prompter>)
    returns (run: Result<Run, string>, ghost outcomes: Outcomes, ghost reached: Values)
    requires Ordered(c.entries)
    ensures run.Ok? ==> reached == run.value.values
    ensures run.Err? ==> Stopped(c, p, outcomes, reached)
    ensures run.Ok? ==> InTurn(c.entries, p, outcomes)
    ensures run.Ok? ==> RunSoFar(c, |c.entries|, p, outcomes, run.value.values, run.value.result)
    ensures run.Err? && IgnoresTurns(p) ==> NoSolution(c.entries, p)
  {
    outcomes, reached := map[], map[];
    var values: Values, result: map<string, ConfigValue> := map[], map[];
    var asked := 0;
    for i := 0 to |c.entries|
      invariant RunSoFar(c, i, p, outcomes, values, result)
      invariant asked == Asked(c.entries[..i], outcomes) && InTurn(c.entries[..i], p, outcomes)
    {
      var e := c.entries[i];
      if !Active(e, values) {
        RunSkips(c, i, p, outcomes, values, result);
        LosesItsTurn(c.entries, i, p, outcomes);
        continue;
      }
      var outcome := Outcome(e, p, asked);
      if outcome.Err? {
        RunStops(c, i, p, outcomes, values, result, asked);
        assert StopsAt(e, p, asked, values);
        return Err(outcome.error), outcomes, values;
      }
      RunSets(c, i, p, outcomes, values, result, asked);
      TakesItsTurn(c.entries, i, p, outcomes, asked);
      outcomes := outcomes[e.key := outcome];
      if e.value.None? && e.prompt.Some? { asked := asked + 1; }
      if outcome.value.Some? {
        values := values[e.key := outcome.value.value];
        result := result[FullKey(c, e.key) := ConfigValue(Encode(outcome.value.value).value, e.secret)];
      }
    }
    assert c.entries[..|c.entries|] == c.entries;
    run, reached := Ok(Run(values, result)), values;
  }

  /** After the turns of the entries before it, an entry that is active then stops the run. */
  ghost predicate Stopped(c: Config, p: Option<Prompter>, outcomes: Outcomes, values: Values) {
    exists i, n: nat ::
      0 <= i < |c.entries| && SettledUpTo(c.entries, i, outcomes, values) && StopsAt(c.entries[i], p, n, values)
  }

  predicate StopsAt(e: Entry, p: Option<Prompter>, n: nat, values: Values) {
    && Outcome(e, p, n).Err?
    && (e.when.Some? ==> e.when.value.key in values && values[e.when.value.key] == e.when.value.expected)
  }

  /** Resolve: valid, resolved entry by entry, and checked. */
  method Resolve(c: Config, p: Option<Prompter>)
    returns (r: Result<map<string, ConfigValue>, string>, ghost outcomes: Outcomes, ghost values: Values)
    ensures IsResolution(c, p, r)
    ensures r.Ok? ==> Resolved(c, p, outcomes, values, r.value) && InTurn(c.entries, p, outcomes)
    ensures r.Err? ==>
              || !ValidConfig(c) || Stopped(c, p, outcomes, values)
              || (Solution(c.entries, outcomes, values) && !ChecksPass(c, values))
  {
    outcomes, values := map[], map[];
    var valid := Validate(c);
    if !valid { return Err("invalid definition"), outcomes, values; }
    var run;
    run, outcomes, values := RunEntries(c, p);
    if run.Err? { return Err(run.error), outcomes, values; }
    RunEnds(c, p, outcomes, values, run.value.result);
    var passed := RunChecks(c, run.value.values);
    if !passed {
      r := Err("config");
      ChecksDecide(c, p, values);
      return;
    }
    assert Resolved(c, p, outcomes, values, run.value.result);
    r := Ok(run.value.result);
  }

  lemma ChecksDecide(c: Config, p: Option<Prompter>, values: Values)
    requires !ChecksPass(c, values) && (IgnoresTurns(p) ==> OnlySolution(c.entries, p, values))
    ensures IsResolution(c, p, Err("config"))
  {
  }

  /** What holds before the turn of entry i. */
  ghost predicate RunSoFar(c: Config, i: nat, p: Option<Prompter>, outcomes: Outcomes, now: Values,
                           result: map<string, ConfigValue>)
    requires i <= |c.entries|
  {
    && SettledUpTo(c.entries, i, outcomes, now)
    && Given(c.entries, p, outcomes)
    && Written(c, c.entries[..i], now, result)
    && (IgnoresTurns(p) ==> AgreesWithSolutions(c.entries, i, p, now))
  }

  lemma RunSkips(c: Config, i: nat, p: Option<Prompter>, outcomes: Outcomes, now: Values,
                 result: map<string, ConfigValue>)
    requires i < |c.entries| && Ordered(c.entries) && RunSoFar(c, i, p, outcomes, now, result)
    requires !Active(c.entries[i], now)
    ensures RunSoFar(c, i + 1, p, outcomes, now, result)
  {
    if IgnoresTurns(p) { NextAgrees(c.entries, i, p, now, 0); }
    SettleInactive(c.entries, i, outcomes, now);
    NothingWritten(c, i, now, result);
  }

  lemma RunStops(c: Config, i: nat, p: Option<Prompter>, outcomes: Outcomes, now: Values,
                 result: map<string, ConfigValue>, n: nat)
    requires i < |c.entries| && Ordered(c.entries) && RunSoFar(c, i, p, outcomes, now, result)
    requires Active(c.entries[i], now) && Outcome(c.entries[i], p, n).Err?
    ensures IgnoresTurns(p) ==> NoSolution(c.entries, p)
  {
    if IgnoresTurns(p) { NextAgrees(c.entries, i, p, now, n); }
  }

  lemma RunSets(c: Config, i: nat, p: Option<Prompter>, outcomes: Outcomes, now: Values,
                result: map<string, ConfigValue>, n: nat)
    requires i < |c.entries| && Ordered(c.entries) && RunSoFar(c, i, p, outcomes, now, result)
    requires Active(c.entries[i], now) && Outcome(c.entries[i], p, n).Ok?
    ensures var e, outcome := c.entries[i], Outcome(c.entries[i], p, n);
            && (outcome.value.Some? ==>
                  Encode(outcome.value.value).Some?
                  && RunSoFar(c, i + 1, p, outcomes[e.key := outcome], now[e.key := outcome.value.value],
                              result[FullKey(c, e.key) := ConfigValue(Encode(outcome.value.value).value, e.secret)]))
            && (outcome.value.None? ==> RunSoFar(c, i + 1, p, outcomes[e.key := outcome], now, result))
  {
    var outcome := Outcome(c.entries[i], p, n);
    if IgnoresTurns(p) { NextAgrees(c.entries, i, p, now, n); }
    SettleActive(c.entries, i, outcomes, now, outcome);
    GivenNext(c.entries, i, p, outcomes, n);
    Encodable(c.entries[i], p, n);
    if outcome.value.None? {
      NothingWritten(c, i, now, result);
    } else {
      WriteOne(c, i, now, result, outcome.value.value);
    }
  }

  lemma RunEnds(c: Config, p: Option<Prompter>, outcomes: Outcomes, now: Values, result: map<string, ConfigValue>)
    requires ValidConfig(c) && RunSoFar(c, |c.entries|, p, outcomes, now, result)
    ensures Solution(c.entries, outcomes, now) && Written(c, c.entries, now, result)
    ensures IgnoresTurns(p) ==> OnlySolution(c.entries, p, now)
  {
    assert c.entries[..|c.entries|] == c.entries;
    if IgnoresTurns(p) { SolutionsAreTheValues(c.entries, p, now); }
  }

  method RunChecks(c: Config, values: Values) returns (passed: bool)
    ensures passed <==> ChecksPass(c, values)
  {
    for i := 0 to |c.checks|
      invariant forall j :: 0 <= j < i ==> c.checks[j](values)
    {
      if !c.checks[i](values) { return false; }
    }
    return true;
  }

  lemma GivenNext(entries: seq<Entry>, i: nat, p: Option<Prompter>, outcomes: Outcomes, n: nat)
    requires i < |entries| && Ordered(entries) && Given(entries, p, outcomes)
    ensures Given(entries, p, outcomes[entries[i].key := Outcome(entries[i], p, n)])
  {
    var after := outcomes[entries[i].key := Outcome(entries[i], p, n)];
    forall e | e in entries && e.key in after ensures exists m: nat :: after[e.key] == Outcome(e, p, m) {
      if e.key == entries[i].key {
        var k :| 0 <= k < |entries| && entries[k] == e;
        assert after[e.key] == Outcome(e, p, n);
      } else {
        var m: nat :| outcomes[e.key] == Outcome(e, p, m);
        assert after[e.key] == Outcome(e, p, m);
      }
    }
  }

  lemma NothingWritten(c: Config, i: nat, values: Values, result: map<string, ConfigValue>)
    requires i < |c.entries| && Written(c, c.entries[..i], values, result) && Ordered(c.entries)
    requires values.Keys <= KeysOf(c.entries[..i])
    ensures Written(c, c.entries[..i + 1], values, result)
  {
    assert c.entries[..i + 1] == c.entries[..i] + [c.entries[i]];
    if c.entries[i].key in values { KeyIsNew(c.entries, i, c.entries[i].key); }
    UnsetWritesNothing(c, c.entries[..i], c.entries[i], values, result);
  }

  lemma UnsetWritesNothing(c: Config, before: seq<Entry>, e: Entry, values: Values, result: map<string, ConfigValue>)
    requires Written(c, before, values, result) && e.key !in values
    ensures Written(c, before + [e], values, result)
  {
    forall f | f in before + [e] && f.key in values ensures WrittenFor(c, f, values[f.key], result) {
      assert f in before;
    }
    forall full | full in result ensures exists f :: f in before + [e] && f.key in values && full == FullKey(c, f.key) {
      var f :| f in before && f.key in values && full == FullKey(c, f.key);
      assert f in before + [e];
    }
  }

  lemma Encodable(e: Entry, p: Option<Prompter>, n: nat)
    ensures Outcome(e, p, n).Ok? && Outcome(e, p, n).value.Some? ==> Encode(Outcome(e, p, n).value.value).Some?
  {
  }

  lemma WriteOne(c: Config, i: nat, values: Values, result: map<string, ConfigValue>, v: Value)
    requires i < |c.entries| && Written(c, c.entries[..i], values, result) && Ordered(c.entries)
    requires values.Keys <= KeysOf(c.entries[..i]) && Encode(v).Some?
    ensures Written(c, c.entries[..i + 1], values[c.entries[i].key := v],
                    result[FullKey(c, c.entries[i].key) := ConfigValue(Encode(v).value, c.entries[i].secret)])
  {
    var e := c.entries[i];
    var before, all := c.entries[..i], c.entries[..i] + [e];
    assert c.entries[..i + 1] == all;
    forall f | f in before ensures f.key != e.key {
      assert f.key in KeysOf(before);
      KeyIsNew(c.entries, i, f.key);
    }
    WriteAnother(c, before, e, values, result, v);
  }

  lemma WriteAnother(c: Config, before: seq<Entry>, e: Entry, values: Values, result: map<string, ConfigValue>,
                     v: Value)
    requires Written(c, before, values, result) && Encode(v).Some? && forall f :: f in before ==> f.key != e.key
    ensures Written(c, before + [e], values[e.key := v],
                    result[FullKey(c, e.key) := ConfigValue(Encode(v).value, e.secret)])
  {
    var all := before + [e];
    var after, written := values[e.key := v], result[FullKey(c, e.key) := ConfigValue(Encode(v).value, e.secret)];
    forall f | f in all && f.key in after ensures WrittenFor(c, f, after[f.key], written) {
      if f in before {
        FullKeysDiffer(c, f.key, e.key);
        assert WrittenFor(c, f, values[f.key], result);
      }
    }
    forall full | full in written ensures exists f :: f in all && f.key in after && full == FullKey(c, f.key) {
      if full == FullKey(c, e.key) {
        assert e in all;
      } else {
        var f :| f in before && f.key in values && full == FullKey(c, f.key);
        assert f in all && f.key in after;
      }
    }
  }

  // ----- what the contract means -----

  lemma RequiredOutcome(e: Entry, p: Option<Prompter>, n: nat)
    requires e.required && Outcome(e, p, n).Ok?
    ensures Outcome(e, p, n).value.Some? && !IsEmpty(Outcome(e, p, n).value.value)
  {
  }

  lemma WrittenIffSet(c: Config, entries: seq<Entry>, values: Values, result: map<string, ConfigValue>, e: Entry)
    requires Written(c, entries, values, result) && e in entries
    ensures FullKey(c, e.key) in result <==> e.key in values
  {
    if FullKey(c, e.key) in result {
      var f :| f in entries && f.key in values && FullKey(c, e.key) == FullKey(c, f.key);
      FullKeysDiffer(c, e.key, f.key);
    }
    assert e.key in values ==> WrittenFor(c, e, values[e.key], result);
  }

  /** The value given, else the answer, else the default; the operator is asked only in between. */
  lemma Precedence(e: Entry, p: Option<Prompter>, n: nat, v: Value)
    ensures ResolveEntry(e, p, n) == Ok(Some(v)) <==>
            || e.value == Some(v)
            || (e.value.None? && e.prompt.Some? && p.Some? && Ask(e, e.prompt.value, p.value, n) == Ok(v))
            || (e.value.None? && e.prompt.None? && e.preset == Some(v))
    ensures ResolveEntry(e, p, n).Err? <==>
            e.value.None? && e.prompt.Some? && (p.None? || Ask(e, e.prompt.value, p.value, n).Err?)
    ensures ResolveEntry(e, p, n) == Ok(None) <==> e.value.None? && e.prompt.None? && e.preset.None?
  {
  }

  /** A typed answer is kept without the spaces around it, unless it is a secret: that is kept as
      typed. */
  lemma AnswersAreTrimmed(e: Entry, prompt: Prompt, p: Prompter, n: nat, text: string)
    requires prompt.kind == InputKind && Ask(e, prompt, p, n) == Ok(Text(text))
    ensures !e.secret ==> GoText.NoOuterSpace(text)
    ensures e.secret ==> exists q :: p.text(n, q) == Ok(text) && (p.masks <==> q.Secret?)
  {
    var current := if e.preset.Some? then Encode(e.preset.value).value else "";
    var typed := p.text(n, Input(prompt.title, prompt.placeholder, current));
    if !e.secret && typed.Ok? { GoText.TrimSpaceTrims(typed.value); }
  }

  lemma ValidatedOutcome(e: Entry, p: Option<Prompter>, n: nat, text: string)
    requires Outcome(e, p, n) == Ok(Some(Text(text))) && e.validate.Some? && GoText.TrimSpace(text) != ""
    ensures e.validate.value(GoText.TrimSpace(text))
  {
  }

  /** An active required entry ends non-empty; an inactive entry writes nothing; and what its rule
      looks at keeps the rule. */
  lemma RequiredEndsNonEmpty(c: Config, p: Option<Prompter>, outcomes: Outcomes, values: Values,
                             result: map<string, ConfigValue>, e: Entry)
    requires Resolved(c, p, outcomes, values, result) && e in c.entries
    ensures Active(e, values) && e.required ==>
              e.key in values && !IsEmpty(values[e.key]) && FullKey(c, e.key) in result
    ensures !Active(e, values) ==> FullKey(c, e.key) !in result
    ensures e.key in values && values[e.key].Text? && e.validate.Some? && GoText.TrimSpace(values[e.key].text) != "" ==>
              e.validate.value(GoText.TrimSpace(values[e.key].text))
  {
    assert Settled(e, outcomes, values);
    WrittenIffSet(c, c.entries, values, result, e);
    if e.key in outcomes {
      var n: nat :| outcomes[e.key] == Outcome(e, p, n);
      if e.required { RequiredOutcome(e, p, n); }
      if e.key in values && values[e.key].Text? && e.validate.Some? && GoText.TrimSpace(values[e.key].text) != "" {
        ValidatedOutcome(e, p, n, values[e.key].text);
      }
    }
  }

  // ----- the result, in terms of the entries alone -----

  /** The text a value is written as. */
  predicate WrittenAs(v: Value, text: string) {
    && (v.Text? ==> text == v.text)
    && (v.Flag? ==> text == if v.flag then "true" else "false")
    && (v.Number? ==> text != "" && (text[0] == '-' <==> v.number < 0))
    && (v.Number? && -GoText.MAX_INT64 <= v.number <= GoText.MAX_INT64 ==> GoText.ParseInt64(text) == Some(v.number))
    && (v.Other? ==> v.json == Some(text))
  }

  /** A prompt shows the default, as it would be written. */
  predicate ShowsDefault(e: Entry, shown: string) {
    if e.preset.None? then shown == "" else WrittenAs(e.preset.value, shown)
  }

  ghost predicate AnsweredText(e: Entry, prompt: Prompt, p: Prompter, text: string) {
    exists n: nat, q, raw ::
      p.text(n, q) == Ok(raw) && AsksText(e, prompt, p.masks, q) && KeepsText(e, prompt, raw, text)
  }

  /** How a text is asked for. */
  predicate AsksText(e: Entry, prompt: Prompt, masks: bool, q: Question) {
    match q
    case Input(title, placeholder, current) =>
      prompt.kind == InputKind && !(e.secret && masks) && title == prompt.title && placeholder == prompt.placeholder
      && ShowsDefault(e, current)
    case Secret(title, placeholder, current) =>
      prompt.kind == InputKind && e.secret && masks && title == prompt.title && placeholder == prompt.placeholder
      && ShowsDefault(e, current)
    case Select(title, current, options) =>
      prompt.kind == SelectKind && title == prompt.title && options == prompt.options && ShowsDefault(e, current)
    case MultiSelect(_, _) => false
  }

  /** Only a typed answer that is no secret loses the spaces around it. */
  ghost predicate KeepsText(e: Entry, prompt: Prompt, raw: string, text: string) {
    if prompt.kind == InputKind && !e.secret then
      exists before, after :: raw == before + text + after && GoText.AllSpace(before) && GoText.AllSpace(after)
                              && GoText.NoOuterSpace(text)
    else text == raw
  }

  ghost predicate Answered(e: Entry, prompt: Prompt, p: Prompter, v: Value) {
    if prompt.kind == MultiSelectKind then
      exists n: nat :: p.list(n, MultiSelect(prompt.title, prompt.options)) == Ok(v)
    else v.Text? && AnsweredText(e, prompt, p, v.text)
  }

  /** Where the value of an entry that has its turn comes from. */
  ghost predicate ComesFrom(e: Entry, p: Option<Prompter>, v: Option<Value>) {
    if e.value.Some? then v == e.value
    else if e.prompt.None? then v == e.preset
    else p.Some? && v.Some? && Answered(e, e.prompt.value, p.value, v.value)
  }

  predicate Blank(v: Value) {
    (v.Text? && forall i :: 0 <= i < |v.text| ==> GoText.IsSpace(v.text[i])) || (v.Other? && v.size == Some(0))
  }

  lemma SignOf(n: int)
    ensures Itoa(n) != "" && (Itoa(n)[0] == '-' <==> n < 0)
  {
    if n >= 0 {
      var s := GoText.Itoa(n);
      assert s[0] in s;
    }
  }

  lemma EncodeMeans(v: Value)
    ensures Encode(v).None? <==> v.Other? && v.json.None?
    ensures Encode(v).Some? ==> WrittenAs(v, Encode(v).value)
  {
    if v.Number? {
      SignOf(v.number);
      var m: nat := if v.number < 0 then -v.number else v.number;
      GoText.ParseIntItoa(m);
      if v.number < 0 { GoText.ParseNegative(v.number); }
    }
  }

  lemma AskMeans(e: Entry, prompt: Prompt, p: Prompter, n: nat, v: Value)
    requires Ask(e, prompt, p, n) == Ok(v)
    ensures Answered(e, prompt, p, v)
  {
    if e.preset.Some? { EncodeMeans(e.preset.value); }
    var current := if e.preset.Some? then Encode(e.preset.value).value else "";
    assert ShowsDefault(e, current);
    match prompt.kind {
      case InputKind =>
        var q := if e.secret && p.masks then Secret(prompt.title, prompt.placeholder, current)
                 else Input(prompt.title, prompt.placeholder, current);
        var raw := p.text(n, q).value;
        if !e.secret { GoText.TrimSpaceIsStripped(raw); }
        assert AsksText(e, prompt, p.masks, q) && KeepsText(e, prompt, raw, v.text);
      case SelectKind =>
        var q := Select(prompt.title, current, prompt.options);
        assert AsksText(e, prompt, p.masks, q) && KeepsText(e, prompt, p.text(n, q).value, v.text);
      case MultiSelectKind =>
    }
  }

  /** Asking fails only for a default that cannot be written, an unknown kind of prompt, or an operator
      who does not answer. */
  lemma AskFails(e: Entry, prompt: Prompt, p: Prompter, n: nat)
    requires Ask(e, prompt, p, n).Err?
    ensures || (e.preset.Some? && e.preset.value.Other? && e.preset.value.json.None?)
            || prompt.kind == InvalidKind
            || (exists q :: AsksText(e, prompt, p.masks, q) && p.text(n, q).Err?)
            || p.list(n, MultiSelect(prompt.title, prompt.options)).Err?
  {
    if e.preset.Some? { EncodeMeans(e.preset.value); }
    if !(e.preset.Some? && Encode(e.preset.value).None?) {
      var current := if e.preset.Some? then Encode(e.preset.value).value else "";
      assert ShowsDefault(e, current);
      var typed := if e.secret && p.masks then Secret(prompt.title, prompt.placeholder, current)
                   else Input(prompt.title, prompt.placeholder, current);
      assert prompt.kind == InputKind ==> AsksText(e, prompt, p.masks, typed);
      assert prompt.kind == SelectKind ==> AsksText(e, prompt, p.masks, Select(prompt.title, current, prompt.options));
    }
  }

  lemma OutcomeMeans(e: Entry, p: Option<Prompter>, n: nat, v: Option<Value>)
    requires Outcome(e, p, n) == Ok(v)
    ensures ComesFrom(e, p, v)
    ensures e.required ==> v.Some? && !Blank(v.value)
    ensures v.Some? && v.value.Text? && e.validate.Some? && !Blank(v.value) ==>
              exists core :: Strips(v.value.text, core) && e.validate.value(core)
  {
    if e.value.None? && e.prompt.Some? { AskMeans(e, e.prompt.value, p.value, n, v.value); }
    if v.Some? && v.value.Text? {
      GoText.BlankIffAllSpace(v.value.text);
      GoText.TrimSpaceIsStripped(v.value.text);
      assert Strips(v.value.text, GoText.TrimSpace(v.value.text));
    }
  }

  /** The text without the spaces around it. */
  ghost predicate Strips(text: string, core: string) {
    exists before, after :: text == before + core + after && GoText.AllSpace(before) && GoText.AllSpace(after)
                            && GoText.NoOuterSpace(core)
  }

  /** What a resolved configuration says of each of its entries. It had its turn exactly when it has
      no condition or the entry it depends on ended with the expected value. Then its value is the one
      given, else what the operator answered, else the default; it is written under its full key as a
      text of that value; and a required one is not blank. Without its turn nothing is written. */
  lemma EachEntry(c: Config, p: Option<Prompter>, outcomes: Outcomes, values: Values,
                  result: map<string, ConfigValue>, e: Entry)
    requires Resolved(c, p, outcomes, values, result) && e in c.entries
    ensures e.when.None? ==> e.key in outcomes
    ensures forall key, x :: e.when == Some(Equals(key, x)) ==>
              (e.key in outcomes <==> key in values && values[key] == x)
    ensures e.key !in outcomes ==> e.key !in values
    ensures e.key in outcomes ==> ComesFrom(e, p, if e.key in values then Some(values[e.key]) else None)
    ensures e.key in outcomes && e.required ==> e.key in values && !Blank(values[e.key])
    ensures var full := c.namespace + ":" + e.key;
            && (full in result <==> e.key in values)
            && (e.key in values ==> WrittenAs(values[e.key], result[full].value) && result[full].secret == e.secret)
  {
    assert Settled(e, outcomes, values);
    WrittenIffSet(c, c.entries, values, result, e);
    if e.key in outcomes {
      var n: nat :| outcomes[e.key] == Outcome(e, p, n);
      OutcomeMeans(e, p, n, outcomes[e.key].value);
    }
    if e.key in values {
      assert WrittenFor(c, e, values[e.key], result);
      EncodeMeans(values[e.key]);
    }
  }

  /** What stops a run at an entry that has its turn. */
  lemma StopsIff(e: Entry, p: Option<Prompter>, n: nat)
    ensures Outcome(e, p, n).Err? <==>
            match ResolveEntry(e, p, n)
            case Err(_) => true
            case Ok(None) => e.required
            case Ok(Some(v)) =>
              || (e.required && Blank(v))
              || (v.Other? && v.json.None?)
              || (v.Text? && !Blank(v) && e.validate.Some? && !e.validate.value(GoText.TrimSpace(v.text)))
  {
    var r := ResolveEntry(e, p, n);
    if r.Ok? && r.value.Some? {
      EncodeMeans(r.value.value);
      if r.value.value.Text? { GoText.BlankIffAllSpace(r.value.value.text); }
    }
  }

  /** A definition is valid exactly when it has a namespace, every entry a key of its own and every
      prompt a title and, to select from, options, and each condition looks at an earlier entry. */
  lemma ValidMeans(c: Config)
    ensures ValidConfig(c) <==>
            && c.namespace != ""
            && (forall e :: e in c.entries ==> e.key != "")
            && (forall e, prompt :: e in c.entries && e.prompt == Some(prompt) ==>
                  GoodPrompt(prompt))
            && (forall i, j :: 0 <= i < j < |c.entries| ==> c.entries[i].key != c.entries[j].key)
            && forall i, key, x :: 0 <= i < |c.entries| && c.entries[i].when == Some(Equals(key, x)) ==>
                 exists j :: 0 <= j < i && c.entries[j].key == key
  {
    forall i | 0 <= i < |c.entries|
      ensures DependsEarlier(c.entries, i) <==>
              forall key, x :: c.entries[i].when == Some(Equals(key, x)) ==>
                exists j :: 0 <= j < i && c.entries[j].key == key
    {
      if c.entries[i].when.Some? {
        assert c.entries[i].when == Some(Equals(c.entries[i].when.value.key, c.entries[i].when.value.expected));
      }
    }
    assert forall e :: WellFormedEntry(e) <==> e.key != "" && (e.prompt.Some? ==> GoodPrompt(e.prompt.value));
  }

  predicate GoodPrompt(prompt: Prompt) {
    prompt.title != ""
    && (prompt.kind == InputKind || (prompt.kind in {SelectKind, MultiSelectKind} && prompt.options != []))
  }

  lemma SameEntries(a: seq<Entry>, b: seq<Entry>)
    requires multiset(a) == multiset(b)
    ensures (forall e :: e in a <==> e in b) && KeysOf(a) == KeysOf(b)
  {
    forall e ensures e in a <==> e in b {
      assert e in a <==> e in multiset(a);
      assert e in b <==> e in multiset(b);
    }
  }

  lemma WrittenIsUnique(c: Config, d: Config, values: Values, a: map<string, ConfigValue>, b: map<string, ConfigValue>)
    requires c.namespace == d.namespace && forall e :: e in c.entries <==> e in d.entries
    requires Written(c, c.entries, values, a) && Written(d, d.entries, values, b)
    ensures a == b
  {
    forall full ensures full in a <==> full in b {
      if full in a {
        var e :| e in c.entries && e.key in values && full == FullKey(c, e.key);
        assert WrittenFor(d, e, values[e.key], b);
      }
      if full in b {
        var e :| e in d.entries && e.key in values && full == FullKey(d, e.key);
        assert WrittenFor(c, e, values[e.key], a);
      }
    }
    forall full | full in a ensures a[full] == b[full] {
      var e :| e in c.entries && e.key in values && full == FullKey(c, e.key);
      assert WrittenFor(c, e, values[e.key], a) && WrittenFor(d, e, values[e.key], b);
    }
  }

  /** Two valid declaration orders of the same entries resolve to the same configuration, or both
      fail, when the answers depend only on the questions. */
  lemma OrderDoesNotMatter(c: Config, d: Config, p: Option<Prompter>, r: Result<map<string, ConfigValue>, string>,
                           s: Result<map<string, ConfigValue>, string>)
    requires ValidConfig(c) && ValidConfig(d) && IgnoresTurns(p)
    requires c.namespace == d.namespace && c.checks == d.checks && multiset(c.entries) == multiset(d.entries)
    requires IsResolution(c, p, r) && IsResolution(d, p, s)
    ensures r.Ok? <==> s.Ok?
    ensures r.Ok? && s.Ok? ==> r.value == s.value
  {
    SameEntries(c.entries, d.entries);
    if r.Ok? { CarriesOver(c, d, p, r.value, s); }
    if s.Ok? { CarriesOver(d, c, p, s.value, r); }
  }

  lemma CarriesOver(c: Config, d: Config, p: Option<Prompter>, result: map<string, ConfigValue>,
                    s: Result<map<string, ConfigValue>, string>)
    requires ValidConfig(c) && ValidConfig(d) && IgnoresTurns(p)
    requires c.namespace == d.namespace && c.checks == d.checks
    requires (forall e :: e in c.entries <==> e in d.entries) && KeysOf(c.entries) == KeysOf(d.entries)
    requires IsResolution(c, p, Ok(result)) && IsResolution(d, p, s)
    ensures s == Ok(result)
  {
    var outcomes, values :| Resolved(c, p, outcomes, values, result);
    assert Given(d.entries, p, outcomes);
    assert Solution(d.entries, outcomes, values);
    assert ChecksPass(d, values);
    if s.Ok? {
      var others, same :| Resolved(d, p, others, same, s.value);
      assert same == values;
      WrittenIsUnique(c, d, values, result, s.value);
    }
  }
}
