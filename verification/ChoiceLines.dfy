/** What a choice prompt shows, and in which order its cursor moves over the rows:
    installer/internal/ui/model/choice.go. */
module ChoiceLines {
  import opened Wrappers

  datatype Row = Row(options: seq<string>, current: string)

  /** check is what Continue asks about the chosen options; "" accepts them. */
  datatype Prompt = Prompt(rows: seq<Row>, groups: seq<string>, clearOption: string,
                           check: Option<seq<string> -> string>)

  /** What the prompt's callers owe it: every row has an option, and the groups, when there are
      any, are one per option and leave no row option out. */
  ghost predicate WellFormed(p: Prompt) {
    && (forall i :: 0 <= i < |p.rows| ==> p.rows[i].options != [])
    && (p.groups != [] ==>
          && Disjoint(p.groups)
          && forall i, option :: 0 <= i < |p.rows| && option in p.rows[i].options ==> option in p.groups)
  }

  ghost predicate Disjoint(groups: seq<string>) {
    forall g, h :: 0 <= g < h < |groups| ==> groups[g] != groups[h]
  }

  /** An option index for every row. */
  predicate Chosen(p: Prompt, chosen: seq<int>) {
    |chosen| == |p.rows| && forall i :: 0 <= i < |chosen| ==> 0 <= chosen[i] < |p.rows[i].options|
  }

  function OptionOf(p: Prompt, chosen: seq<int>, row: int): string
    requires Chosen(p, chosen) && 0 <= row < |chosen|
  {
    p.rows[row].options[chosen[row]]
  }

  /** The reply: the chosen option of every row, in row order. */
  function Values(p: Prompt, chosen: seq<int>): seq<string>
    requires Chosen(p, chosen)
  {
    seq(|chosen|, i requires 0 <= i < |chosen| => OptionOf(p, chosen, i))
  }

  function Blocking(p: Prompt, chosen: seq<int>): string
    requires Chosen(p, chosen)
  {
    match p.check
    case None => ""
    case Some(check) => check(Values(p, chosen))
  }

  datatype Line = RowLine(row: int) | Header(group: int) | Placeholder

  // ----- the lines, from the groups and the chosen option of every row -----

  /** The rows that have the option. */
  function Members(values: seq<string>, option: string): seq<int> {
    if values == [] then []
    else
      var n := |values| - 1;
      Members(values[..n], option) + if values[n] == option then [n] else []
  }

  function RowLines(rows: seq<int>): seq<Line> {
    if rows == [] then [] else RowLines(rows[..|rows| - 1]) + [RowLine(rows[|rows| - 1])]
  }

  function GroupLines(values: seq<string>, g: int, option: string): seq<Line> {
    [Header(g)] + OrPlaceholder(RowLines(Members(values, option)))
  }

  function OrPlaceholder(lines: seq<Line>): seq<Line> {
    if lines == [] then [Placeholder] else lines
  }

  function LinesOfGroups(groups: seq<string>, values: seq<string>): seq<Line> {
    if groups == [] then []
    else
      var g := |groups| - 1;
      LinesOfGroups(groups[..g], values) + GroupLines(values, g, groups[g])
  }

  function FirstRows(n: nat): seq<int> {
    if n == 0 then [] else FirstRows(n - 1) + [n - 1]
  }

  function Lines(groups: seq<string>, values: seq<string>): seq<Line> {
    if groups == [] then RowLines(FirstRows(|values|)) else LinesOfGroups(groups, values)
  }

  method LinesOf(groups: seq<string>, values: seq<string>) returns (lines: seq<Line>)
    ensures lines == Lines(groups, values)
  {
    lines := [];
    if |groups| == 0 {
      for i := 0 to |values|
        invariant lines == RowLines(FirstRows(i))
      {
        OneMoreRowLine(FirstRows(i), i);
        lines := lines + [RowLine(i)];
      }
      return;
    }
    for g := 0 to |groups|
      invariant lines == LinesOfGroups(groups[..g], values)
    {
      assert groups[..g + 1][..g] == groups[..g];
      var more := LinesOfGroup(values, g, groups[g]);
      lines := lines + more;
    }
    assert groups[..|groups|] == groups;
  }

  method LinesOfGroup(values: seq<string>, g: int, option: string) returns (lines: seq<Line>)
    ensures lines == GroupLines(values, g, option)
  {
    lines := [];
    for i := 0 to |values|
      invariant lines == RowLines(Members(values[..i], option))
    {
      assert values[..i + 1][..i] == values[..i];
      if values[i] == option {
        OneMoreRowLine(Members(values[..i], option), i);
        lines := lines + [RowLine(i)];
      } else {
        assert Members(values[..i + 1], option) == Members(values[..i], option);
      }
    }
    assert values[..|values|] == values;
    if |lines| == 0 {
      lines := [Placeholder];
    }
    lines := [Header(g)] + lines;
  }

  lemma OneMoreRowLine(rows: seq<int>, row: int)
    ensures RowLines(rows + [row]) == RowLines(rows) + [RowLine(row)]
  {
    assert (rows + [row])[..|rows|] == rows;
  }

  // ----- the order of the rows -----

  function RowsIn(lines: seq<Line>): seq<int> {
    if lines == [] then []
    else
      var last := lines[|lines| - 1];
      RowsIn(lines[..|lines| - 1]) + if last.RowLine? then [last.row] else []
  }

  function Order(groups: seq<string>, values: seq<string>): seq<int> {
    RowsIn(Lines(groups, values))
  }

  method OrderOf(groups: seq<string>, values: seq<string>) returns (order: seq<int>)
    ensures order == Order(groups, values)
  {
    var lines := LinesOf(groups, values);
    order := [];
    for i := 0 to |lines|
      invariant order == RowsIn(lines[..i])
    {
      assert lines[..i + 1][..i] == lines[..i];
      if lines[i].RowLine? {
        order := order + [lines[i].row];
      }
    }
    assert lines[..|lines|] == lines;
  }

  /** Every row once, and nothing else. */
  ghost predicate Permutes(order: seq<int>, n: nat) {
    && (forall row :: row in order <==> 0 <= row < n)
    && Once(order)
  }

  ghost predicate Once(order: seq<int>) {
    forall i, j :: 0 <= i < j < |order| ==> order[i] != order[j]
  }

  lemma {:induction false} RowsInMembers(lines: seq<Line>, row: int)
    ensures row in RowsIn(lines) <==> RowLine(row) in lines
  {
    if lines != [] {
      RowsInMembers(lines[..|lines| - 1], row);
      assert lines == lines[..|lines| - 1] + [lines[|lines| - 1]];
    }
  }

  lemma {:induction false} RowsInBoth(a: seq<Line>, b: seq<Line>)
    ensures RowsIn(a + b) == RowsIn(a) + RowsIn(b)
    decreases |b|
  {
    if b == [] {
      assert a + b == a;
    } else {
      RowsInBoth(a, b[..|b| - 1]);
      assert (a + b)[..|a + b| - 1] == a + b[..|b| - 1];
    }
  }

  lemma {:induction false} RowsInRowLines(rows: seq<int>)
    ensures RowsIn(RowLines(rows)) == rows
  {
    if rows != [] {
      var before := RowLines(rows[..|rows| - 1]);
      RowsInRowLines(rows[..|rows| - 1]);
      assert RowLines(rows)[..|RowLines(rows)| - 1] == before;
    }
  }

  lemma RowsInGroup(values: seq<string>, g: int, option: string)
    ensures RowsIn(GroupLines(values, g, option)) == Members(values, option)
  {
    var lines := RowLines(Members(values, option));
    RowsInRowLines(Members(values, option));
    RowsInBoth([Header(g)], OrPlaceholder(lines));
    assert RowsIn([Header(g)]) == [];
    assert RowsIn([Placeholder]) == [];
  }

  lemma RowsInNextGroup(groups: seq<string>, values: seq<string>)
    requires groups != []
    ensures var g := |groups| - 1;
            RowsIn(LinesOfGroups(groups, values))
            == RowsIn(LinesOfGroups(groups[..g], values)) + Members(values, groups[g])
  {
    var g := |groups| - 1;
    RowsInBoth(LinesOfGroups(groups[..g], values), GroupLines(values, g, groups[g]));
    RowsInGroup(values, g, groups[g]);
  }

  lemma {:induction false} MembersAre(values: seq<string>, option: string)
    ensures forall row :: row in Members(values, option) <==> 0 <= row < |values| && values[row] == option
    ensures Once(Members(values, option))
  {
    if values != [] {
      var n := |values| - 1;
      var before := Members(values[..n], option);
      MembersAre(values[..n], option);
      forall i | 0 <= i < |before| ensures before[i] < n { assert before[i] in before; }
    }
  }

  /** The rows of some groups: those whose option is one of them, each once. */
  ghost predicate RowsOfGroups(rows: seq<int>, groups: seq<string>, values: seq<string>) {
    && (forall row :: row in rows <==> 0 <= row < |values| && values[row] in groups)
    && Once(rows)
  }

  lemma {:induction false} GroupsListRows(groups: seq<string>, values: seq<string>)
    requires Disjoint(groups)
    ensures RowsOfGroups(RowsIn(LinesOfGroups(groups, values)), groups, values)
  {
    if groups != [] {
      var g := |groups| - 1;
      GroupsListRows(groups[..g], values);
      RowsInNextGroup(groups, values);
      MembersAre(values, groups[g]);
      AnotherGroup(RowsIn(LinesOfGroups(groups[..g], values)), Members(values, groups[g]), groups, values);
    }
  }

  lemma AnotherGroup(rows: seq<int>, members: seq<int>, groups: seq<string>, values: seq<string>)
    requires groups != [] && Disjoint(groups)
    requires RowsOfGroups(rows, groups[..|groups| - 1], values)
    requires forall row :: row in members <==> 0 <= row < |values| && values[row] == groups[|groups| - 1]
    requires Once(members)
    ensures RowsOfGroups(rows + members, groups, values)
  {
    assert groups == groups[..|groups| - 1] + [groups[|groups| - 1]];
    forall i, j | 0 <= i < |rows| && 0 <= j < |members| ensures rows[i] != members[j] {
      assert rows[i] in rows && members[j] in members;
    }
  }

  lemma {:induction false} FirstRowsAre(n: nat)
    ensures Permutes(FirstRows(n), n)
  {
    if n > 0 {
      FirstRowsAre(n - 1);
      var before := FirstRows(n - 1);
      forall i | 0 <= i < |before| ensures before[i] < n - 1 { assert before[i] in before; }
    }
  }

  /** Whatever is chosen, the display shows every row exactly once. */
  lemma OrderPermutes(groups: seq<string>, values: seq<string>)
    requires groups != [] ==> Disjoint(groups) && forall row :: 0 <= row < |values| ==> values[row] in groups
    ensures Permutes(Order(groups, values), |values|)
    ensures forall row :: 0 <= row < |values| ==> RowLine(row) in Lines(groups, values)
  {
    if groups == [] {
      RowsInRowLines(FirstRows(|values|));
      FirstRowsAre(|values|);
    } else {
      GroupsListRows(groups, values);
    }
    forall row | 0 <= row < |values| ensures RowLine(row) in Lines(groups, values) {
      assert row in Order(groups, values);
      RowsInMembers(Lines(groups, values), row);
    }
  }

  // ----- rows and their groups -----

  /** The group a line is shown under: that of the last header up to it. */
  function GroupAt(lines: seq<Line>, i: int): Option<int>
    requires i < |lines|
    decreases i + 1
  {
    if i < 0 then None
    else if lines[i].Header? then Some(lines[i].group)
    else GroupAt(lines, i - 1)
  }

  lemma {:induction false} GroupAtPrefix(a: seq<Line>, b: seq<Line>, i: nat)
    requires i < |a|
    ensures GroupAt(a + b, i) == GroupAt(a, i)
  {
    if !a[i].Header? && i > 0 { GroupAtPrefix(a, b, i - 1); }
  }

  lemma {:induction false} GroupAtHeaded(lines: seq<Line>, at: nat, i: nat)
    requires at <= i < |lines| && lines[at].Header?
    requires forall j :: at < j <= i ==> !lines[j].Header?
    ensures GroupAt(lines, i) == Some(lines[at].group)
  {
    if i > at { GroupAtHeaded(lines, at, i - 1); }
  }

  lemma {:induction false} RowLinesAre(rows: seq<int>)
    ensures |RowLines(rows)| == |rows| && forall i :: 0 <= i < |rows| ==> RowLines(rows)[i] == RowLine(rows[i])
  {
    if rows != [] { RowLinesAre(rows[..|rows| - 1]); }
  }

  lemma GroupLinesAre(values: seq<string>, g: int, option: string, i: nat)
    requires 0 < i < |GroupLines(values, g, option)|
    ensures var line := GroupLines(values, g, option)[i];
            && !line.Header?
            && (line.RowLine? ==> 0 <= line.row < |values| && values[line.row] == option)
            && (line.Placeholder? ==> option !in values)
  {
    var members := Members(values, option);
    MembersAre(values, option);
    RowLinesAre(members);
    if members == [] {
      forall row | 0 <= row < |values| ensures values[row] != option { assert row !in members; }
    } else {
      assert GroupLines(values, g, option)[i] == RowLine(members[i - 1]);
      assert members[i - 1] in members;
    }
  }

  /** Every row is shown under the header of its own option, and only a group without rows has a
      placeholder. */
  lemma {:induction false} UnderItsGroup(groups: seq<string>, values: seq<string>, i: nat)
    requires i < |LinesOfGroups(groups, values)|
    ensures var lines := LinesOfGroups(groups, values);
            && GroupAt(lines, i).Some? && 0 <= GroupAt(lines, i).value < |groups|
            && var option := groups[GroupAt(lines, i).value];
               && (lines[i].RowLine? ==> 0 <= lines[i].row < |values| && values[lines[i].row] == option)
               && (lines[i].Placeholder? ==> option !in values)
    decreases |groups|
  {
    var g := |groups| - 1;
    var before, last := LinesOfGroups(groups[..g], values), GroupLines(values, g, groups[g]);
    if i < |before| {
      UnderItsGroup(groups[..g], values, i);
      GroupAtPrefix(before, last, i);
    } else {
      var lines := before + last;
      forall j | |before| < j <= i ensures !lines[j].Header? {
        GroupLinesAre(values, g, groups[g], j - |before|);
      }
      GroupAtHeaded(lines, |before|, i);
      if i > |before| { GroupLinesAre(values, g, groups[g], i - |before|); }
    }
  }

  // ----- the first row line -----

  /** The first group that some row has, if there is one. */
  function FirstUsed(groups: seq<string>, values: seq<string>): (g: nat)
    ensures g <= |groups|
    ensures forall h :: 0 <= h < g ==> groups[h] !in values
    ensures g < |groups| ==> groups[g] in values
  {
    if groups == [] || groups[0] in values then 0 else 1 + FirstUsed(groups[1..], values)
  }

  lemma EmptyGroup(values: seq<string>, g: int, option: string)
    requires option !in values
    ensures GroupLines(values, g, option) == [Header(g), Placeholder]
  {
    NoMembers(values, option);
  }

  ghost predicate WithoutRows(lines: seq<Line>) {
    forall i :: 0 <= i < |lines| ==> !lines[i].RowLine?
  }

  ghost predicate FirstRowAt(lines: seq<Line>, at: int) {
    0 <= at < |lines| && lines[at].RowLine? && forall i :: 0 <= i < at ==> !lines[i].RowLine?
  }

  lemma {:induction false} EmptyGroups(groups: seq<string>, values: seq<string>)
    requires forall h :: 0 <= h < |groups| ==> groups[h] !in values
    ensures |LinesOfGroups(groups, values)| == 2 * |groups| && WithoutRows(LinesOfGroups(groups, values))
  {
    if groups != [] {
      var g := |groups| - 1;
      EmptyGroups(groups[..g], values);
      EmptyGroup(values, g, groups[g]);
    }
  }

  lemma {:induction false} NoMembers(values: seq<string>, option: string)
    requires option !in values
    ensures Members(values, option) == []
  {
    if values != [] {
      assert values[|values| - 1] in values;
      NoMembers(values[..|values| - 1], option);
    }
  }

  lemma {:induction false} GroupsBefore(groups: seq<string>, values: seq<string>, k: nat)
    requires k <= |groups|
    ensures LinesOfGroups(groups[..k], values) <= LinesOfGroups(groups, values)
    decreases |groups|
  {
    if k == |groups| {
      assert groups[..k] == groups;
    } else {
      var g := |groups| - 1;
      GroupsBefore(groups[..g], values, k);
      assert groups[..g][..k] == groups[..k];
    }
  }

  lemma UsedGroup(values: seq<string>, g: int, option: string)
    requires option in values
    ensures FirstRowAt(GroupLines(values, g, option), 1)
  {
    var row :| 0 <= row < |values| && values[row] == option;
    MembersAre(values, option);
    assert row in Members(values, option);
    RowLinesAre(Members(values, option));
  }

  lemma RowBehind(before: seq<Line>, group: seq<Line>, at: int)
    requires WithoutRows(before) && FirstRowAt(group, at)
    ensures FirstRowAt(before + group, |before| + at)
  {
  }

  lemma RowInLonger(before: seq<Line>, lines: seq<Line>, at: int)
    requires FirstRowAt(before, at) && before <= lines
    ensures FirstRowAt(lines, at)
  {
    forall i | 0 <= i < |before| ensures lines[i] == before[i] {}
  }

  lemma LastGroup(groups: seq<string>, values: seq<string>, g: nat)
    requires g < |groups|
    ensures LinesOfGroups(groups[..g + 1], values) ==
              LinesOfGroups(groups[..g], values) + GroupLines(values, g, groups[g])
  {
    assert groups[..g + 1][..g] == groups[..g];
  }

  /** Above the first row line there are two lines for every group that no row has, and the
      header of the first group that one has. */
  lemma FirstRowLine(groups: seq<string>, values: seq<string>)
    requires FirstUsed(groups, values) < |groups|
    ensures FirstRowAt(LinesOfGroups(groups, values), 2 * FirstUsed(groups, values) + 1)
  {
    var g := FirstUsed(groups, values);
    var before := LinesOfGroups(groups[..g], values);
    EmptyGroups(groups[..g], values);
    UsedGroup(values, g, groups[g]);
    RowBehind(before, GroupLines(values, g, groups[g]), 1);
    LastGroup(groups, values, g);
    GroupsBefore(groups, values, g + 1);
    RowInLonger(LinesOfGroups(groups[..g + 1], values), LinesOfGroups(groups, values), 2 * g + 1);
  }

  lemma FirstRowUngrouped(n: nat)
    requires n > 0
    ensures FirstRowAt(RowLines(FirstRows(n)), 0)
  {
    FirstRowsAre(n);
    PermutationLength(FirstRows(n), n);
    RowLinesAre(FirstRows(n));
  }

  /** The first row in display order is that of the first row line. */
  lemma {:induction false} FirstRowIn(lines: seq<Line>, at: nat)
    requires FirstRowAt(lines, at)
    ensures RowsIn(lines) != [] && RowsIn(lines)[0] == lines[at].row
    decreases |lines|
  {
    var n := |lines| - 1;
    if at < n {
      FirstRowIn(lines[..n], at);
    } else {
      NoRowsIn(lines[..n]);
    }
  }

  lemma {:induction false} NoRowsIn(lines: seq<Line>)
    requires WithoutRows(lines)
    ensures RowsIn(lines) == []
  {
    if lines != [] { NoRowsIn(lines[..|lines| - 1]); }
  }

  /** Where the first row line is, when there are rows and the groups cover them. */
  function FirstRowLineAt(groups: seq<string>, values: seq<string>): nat {
    if groups == [] then 0 else 2 * FirstUsed(groups, values) + 1
  }

  lemma FirstRowOfAll(groups: seq<string>, values: seq<string>)
    requires values != [] && (groups != [] ==> values[0] in groups)
    ensures FirstRowAt(Lines(groups, values), FirstRowLineAt(groups, values))
  {
    if groups == [] {
      FirstRowUngrouped(|values|);
    } else {
      FirstRowLine(groups, values);
    }
  }

  // ----- positions -----

  function Position(order: seq<int>, row: int): (i: nat)
    ensures i <= |order|
    ensures i < |order| ==> order[i] == row
    ensures row in order <==> i < |order|
  {
    if order == [] then 0
    else if order[0] == row then 0
    else 1 + Position(order[1..], row)
  }

  method PositionOf(order: seq<int>, row: int) returns (i: nat)
    ensures i == Position(order, row)
  {
    for k := 0 to |order|
      invariant row !in order[..k]
      invariant Position(order, row) == k + Position(order[k..], row)
    {
      if order[k] == row { return k; }
    }
    return |order|;
  }

  lemma PositionOfMember(order: seq<int>, n: nat, i: nat)
    requires Permutes(order, n) && i < |order|
    ensures Position(order, order[i]) == i
  {
  }

  lemma SomeRow(order: seq<int>) returns (row: int)
    requires order != []
    ensures row in order
  {
    row := order[0];
  }

  /** A display order lists as many rows as there are. */
  lemma {:induction false} PermutationLength(order: seq<int>, n: nat)
    requires Permutes(order, n)
    ensures |order| == n
  {
    if n == 0 {
      if order != [] { var row := SomeRow(order); }
    } else {
      var i := Position(order, n - 1);
      var rest := order[..i] + order[i + 1..];
      forall row ensures row in rest <==> 0 <= row < n - 1 {
        assert row in order ==> exists j :: 0 <= j < |order| && order[j] == row;
        if row in rest {
          var j :| 0 <= j < |rest| && rest[j] == row;
          assert row == if j < i then order[j] else order[j + 1];
        }
        if 0 <= row < n - 1 {
          var j :| 0 <= j < |order| && order[j] == row;
          assert rest[if j < i then j else j - 1] == row;
        }
      }
      PermutationLength(rest, n - 1);
    }
  }
}
