/** The prompt an operator assigns node pools in: installer/internal/workflow/stages/nodes/nodes.go. */
module AssignmentPrompt {
  import opened Wrappers
  import opened NodePools
  import opened AssignmentRerun
  import opened ChoiceLines
  import Choice

  function GroupOptions(models: seq<Model>): seq<string> {
    ModelOptions(models) + [CPU, UNASSIGNED]
  }

  function ModelOptions(models: seq<Model>): seq<string> {
    if models == [] then [] else ModelOptions(models[..|models| - 1]) + [ModelOption(models[|models| - 1])]
  }

  ghost predicate IsRowOf(row: Row, p: NodePool, models: seq<Model>, stored: Option<Assignment>) {
    && row.options == PoolOptions(p, models)
    && row.current in row.options
    && Preselected(p, models, stored, row.current)
  }

  /** The check behind Continue: what checkAssignment says blocks the chosen options. */
  function CheckText(pools: seq<NodePool>, models: seq<Model>, values: seq<string>): string {
    if |pools| != |values| then ""
    else
      match BlockingOf(pools, models, values)
      case None => ""
      case Some(problem) => Message(problem, models)
  }

  ghost predicate IsPromptFor(p: Prompt, pools: seq<NodePool>, models: seq<Model>, stored: Option<Assignment>) {
    && |p.rows| == |pools| && p.groups == GroupOptions(models) && p.clearOption == UNASSIGNED
    && p.check.Some? && (forall values :: p.check.value(values) == CheckText(pools, models, values))
    && forall i :: 0 <= i < |pools| ==> IsRowOf(p.rows[i], pools[i], models, stored)
  }

  /** assignmentPrompt. With distinct slugs the groups are one per option and cover every row. */
  method PromptFor(pools: seq<NodePool>, models: seq<Model>, stored: Option<Assignment>) returns (p: Prompt)
    ensures IsPromptFor(p, pools, models, stored)
    ensures DistinctSlugs(models) ==> WellFormed(p)
  {
    var groups := GroupsFor(models);
    var rows := RowsFor(pools, models, stored);
    p := Prompt(rows, groups, UNASSIGNED, Some(values => CheckText(pools, models, values)));
    if DistinctSlugs(models) { RowsFit(p, pools, models, stored); }
  }

  method GroupsFor(models: seq<Model>) returns (groups: seq<string>)
    ensures groups == GroupOptions(models)
  {
    groups := [];
    for k := 0 to |models|
      invariant groups == ModelOptions(models[..k])
    {
      assert models[..k + 1][..k] == models[..k];
      groups := groups + [ModelOption(models[k])];
    }
    assert models[..|models|] == models;
    groups := groups + [CPU, UNASSIGNED];
  }

  method RowsFor(pools: seq<NodePool>, models: seq<Model>, stored: Option<Assignment>) returns (rows: seq<Row>)
    ensures |rows| == |pools| && forall i :: 0 <= i < |pools| ==> IsRowOf(rows[i], pools[i], models, stored)
  {
    rows := [];
    for i := 0 to |pools|
      invariant |rows| == i
      invariant forall j :: 0 <= j < i ==> IsRowOf(rows[j], pools[j], models, stored)
    {
      var row := RowFor(pools[i], models, stored);
      rows := rows + [row];
    }
  }

  method RowFor(p: NodePool, models: seq<Model>, stored: Option<Assignment>) returns (row: Row)
    ensures IsRowOf(row, p, models, stored)
  {
    var options := PoolOptionsOf(p, models);
    var current := InitialOption(p, models, stored);
    row := Row(options, current);
  }

  lemma RowsFit(p: Prompt, pools: seq<NodePool>, models: seq<Model>, stored: Option<Assignment>)
    requires |p.rows| == |pools| && p.groups == GroupOptions(models) && DistinctSlugs(models)
    requires forall i :: 0 <= i < |pools| ==> IsRowOf(p.rows[i], pools[i], models, stored)
    ensures WellFormed(p)
  {
    GroupsAreDisjoint(models);
    forall i | 0 <= i < |p.rows| ensures p.rows[i].options != [] {
      assert p.rows[i].current in p.rows[i].options;
    }
    forall i, option | 0 <= i < |p.rows| && option in p.rows[i].options ensures option in p.groups {
      OptionsAreGroups(pools[i], models, option);
    }
  }

  lemma {:induction false} ModelOptionsAre(models: seq<Model>)
    ensures |ModelOptions(models)| == |models|
    ensures forall k :: 0 <= k < |models| ==> ModelOptions(models)[k] == ModelOption(models[k])
  {
    if models != [] { ModelOptionsAre(models[..|models| - 1]); }
  }

  lemma GroupsAreDisjoint(models: seq<Model>)
    requires DistinctSlugs(models)
    ensures Disjoint(GroupOptions(models))
  {
    ModelOptionsAre(models);
    var groups := GroupOptions(models);
    forall g, h | 0 <= g < h < |groups| ensures groups[g] != groups[h] {
      if g < |models| {
        ModelOptionsAreTheirOwn(models[g], if h < |models| then models[h] else models[g]);
      }
    }
  }

  lemma OptionsAreGroups(p: NodePool, models: seq<Model>, option: string)
    requires option in PoolOptions(p, models)
    ensures option in GroupOptions(models)
  {
    if option in FittingOptions(p, models) {
      OfferedIffFits(p, models, option);
      var m :| m in models && Fits(p, m) && option == ModelOption(m);
      var k :| 0 <= k < |models| && models[k] == m;
      ModelOptionsAre(models);
      assert ModelOptions(models)[k] == option;
    } else {
      assert option in [CPU, UNASSIGNED];
    }
  }

  /** From the first key to the assignment: whatever is submitted serves every model. */
  method AssignPools(pools: seq<NodePool>, models: seq<Model>, stored: Option<Assignment>,
                     presses: seq<(Choice.Press, int, nat)>)
    returns (assignment: Option<Assignment>, values: seq<string>, ghost p: Prompt, ghost screens: seq<Choice.Screen>)
    requires DistinctSlugs(models) && forall i :: 0 <= i < |presses| ==> presses[i].2 >= 1
    ensures assignment.Some? ==>
              && |values| == |pools|
              && (forall i :: 0 <= i < |pools| ==> values[i] in PoolOptions(pools[i], models))
              && Acceptable(pools, models, values)
              && IsAssignmentOf(assignment.value, pools, models, values)
    ensures IsPromptFor(p, pools, models, stored)
    ensures Choice.Answers(p, presses, screens, if assignment.Some? then Some(values) else None)
  {
    values := [];
    var prompt := PromptFor(pools, models, stored);
    p := prompt;
    var reply;
    reply, screens := Choice.Answer(prompt, presses);
    if reply.None? { return None, [], p, screens; }
    values := reply.value;
    NothingBlocksIffAcceptable(pools, models, values);
    var a := AssignmentOf(pools, models, reply.value);
    return Some(a), values, p, screens;
  }

  /** A rerun over the same pools and models starts from the stored assignment: confirming it
      without a change submits the same values again. */
  lemma RerunStartsWhereItLeft(pools: seq<NodePool>, models: seq<Model>, values: seq<string>, a: Assignment,
                               p: Prompt, chosen: seq<int>)
    requires |pools| == |values| == |p.rows| && DistinctPools(pools) && DistinctSlugs(models)
    requires forall i :: 0 <= i < |pools| ==> values[i] in PoolOptions(pools[i], models)
    requires IsAssignmentOf(a, pools, models, values)
    requires forall i :: 0 <= i < |pools| ==> IsRowOf(p.rows[i], pools[i], models, Some(a))
    requires Chosen(p, chosen) && forall i :: 0 <= i < |pools| ==> OptionOf(p, chosen, i) == p.rows[i].current
    ensures Values(p, chosen) == values
  {
    StoredThenReloaded(pools, models, values, a, Values(p, chosen));
  }
}
