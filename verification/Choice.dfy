/** The choice prompt as a machine driven by key presses: installer/internal/ui/model/choice.go. */
module Choice {
  import opened Wrappers
  import opened ChoiceLines

  datatype Press =
    | Up | Down | Top | Bottom | HalfDown | HalfUp | Prev | Next | Open | Group(digit: nat) | Visual | Clear
    | Reset | Help | Cancel | Other

  datatype Outcome = Pending | Submitted | Cancelled

  const NO_COMMON_OPTION := "The selected rows have no option in common."

  // ----- which rows a choice applies to -----

  predicate Between(x: int, a: int, b: int) {
    a <= x <= b || b <= x <= a
  }

  /** The rows between the anchor and the cursor in display order, or the focused row. */
  function Targets(order: seq<int>, n: nat, cursor: int, visual: bool, anchor: int): seq<int>
    requires visual ==> anchor in order
  {
    if !visual then
      if cursor == n then [] else [cursor]
    else
      var a, c := Position(order, anchor), Position(order, cursor);
      var from := if a > c then c else a;
      var to := if a > c then a else c;
      order[from..(if to >= |order| then |order| - 1 else to) + 1]
  }

  method TargetsOf(order: seq<int>, n: nat, cursor: int, visual: bool, anchor: int) returns (targets: seq<int>)
    requires visual ==> anchor in order
    ensures targets == Targets(order, n, cursor, visual, anchor)
  {
    if cursor == n && !visual { return []; }
    if !visual { return [cursor]; }
    var from := PositionOf(order, anchor);
    var to := PositionOf(order, cursor);
    if from > to { from, to := to, from; }
    if to >= |order| { to := |order| - 1; }
    return order[from..to + 1];
  }

  lemma SliceRows(order: seq<int>, n: nat, from: int, to: int, row: int)
    requires Permutes(order, n) && 0 <= from <= to < |order|
    ensures row in order[from..to + 1] <==> 0 <= row < n && from <= Position(order, row) <= to
  {
    var slice := order[from..to + 1];
    if row in slice {
      var k :| 0 <= k < |slice| && slice[k] == row;
      assert order[from + k] == row && row in order;
    }
    if 0 <= row < n && from <= Position(order, row) <= to {
      assert row in order;
      assert slice[Position(order, row) - from] == row;
    }
  }

  lemma TargetsAre(order: seq<int>, n: nat, cursor: int, visual: bool, anchor: int, row: int)
    requires Permutes(order, n) && 0 <= cursor <= n && (visual ==> 0 <= anchor < n)
    ensures row in Targets(order, n, cursor, visual, anchor) <==>
            0 <= row < n
            && if visual then Between(Position(order, row), Position(order, anchor), Position(order, cursor))
               else row == cursor
  {
    if visual {
      var a, c := Position(order, anchor), Position(order, cursor);
      var from := if a > c then c else a;
      var to := if a > c then a else c;
      SliceRows(order, n, from, if to >= |order| then |order| - 1 else to, row);
      assert 0 <= row < n ==> row in order && Position(order, row) < |order|;
    }
  }

  /** The slice begins with the row displayed first. */
  lemma FirstOfTargets(order: seq<int>, n: nat, cursor: int, visual: bool, anchor: int)
    requires Permutes(order, n) && 0 <= cursor <= n && (visual ==> 0 <= anchor < n)
    requires Targets(order, n, cursor, visual, anchor) != []
    ensures var targets := Targets(order, n, cursor, visual, anchor);
            forall row :: row in targets ==> Position(order, targets[0]) <= Position(order, row)
  {
    var targets := Targets(order, n, cursor, visual, anchor);
    if visual {
      var a, c := Position(order, anchor), Position(order, cursor);
      var from := if a > c then c else a;
      PositionOfMember(order, n, from);
      forall row | row in targets ensures from <= Position(order, row) {
        TargetsAre(order, n, cursor, visual, anchor, row);
      }
    }
  }

  method OptionIndex(options: seq<string>, option: string) returns (j: int)
    ensures -1 <= j < |options|
    ensures j == -1 <==> option !in options
    ensures j >= 0 ==> options[j] == option && option !in options[..j]
  {
    for i := 0 to |options|
      invariant option !in options[..i]
    {
      if options[i] == option { return i; }
    }
    return -1;
  }

  /** The targets that offer the option get it; every other row is as before. */
  ghost predicate Applied(p: Prompt, before: seq<int>, after: seq<int>, targets: set<int>, option: string) {
    && Chosen(p, before) && Chosen(p, after)
    && forall row :: 0 <= row < |before| ==>
         if row in targets && option in p.rows[row].options then OptionOf(p, after, row) == option
         else after[row] == before[row]
  }

  /** Every target has the option now, and nothing else changed. The empty string is no option
      to choose: picking it changes nothing. */
  ghost predicate ChoseOption(p: Prompt, before: seq<int>, after: seq<int>, targets: set<int>, option: string) {
    && Chosen(p, before) && Chosen(p, after)
    && (option == "" ==> after == before)
    && (option != "" ==>
          forall row :: 0 <= row < |before| ==>
            if row in targets then OptionOf(p, after, row) == option else after[row] == before[row])
  }

  lemma AppliedToAll(p: Prompt, before: seq<int>, after: seq<int>, targets: set<int>, option: string)
    requires Applied(p, before, after, targets, option) && option != ""
    requires forall row :: row in targets ==> 0 <= row < |p.rows| && option in p.rows[row].options
    ensures ChoseOption(p, before, after, targets, option)
  {
  }

  /** Whether all of the rows offer the option. */
  method OfferedByAll(rows: seq<Row>, targets: seq<int>, option: string) returns (offered: bool)
    requires forall row :: row in targets ==> 0 <= row < |rows|
    ensures offered <==> forall row :: row in targets ==> option in rows[row].options
  {
    for i := 0 to |targets|
      invariant forall row :: 0 <= row < |rows| && row in targets[..i] ==> option in rows[row].options
    {
      assert targets[i] in targets;
      var j := OptionIndex(rows[targets[i]].options, option);
      if j < 0 { return false; }
    }
    assert targets[..|targets|] == targets;
    return true;
  }

  ghost function RowSet(targets: seq<int>): set<int> {
    set row | row in targets
  }

  ghost predicate OfferedBy(rows: seq<Row>, targets: set<int>, option: string) {
    forall row :: row in targets && 0 <= row < |rows| ==> option in rows[row].options
  }

  /** Those of the candidates that all of the rows offer, in the candidates' order. */
  ghost function Offered(rows: seq<Row>, targets: set<int>, candidates: seq<string>): seq<string> {
    if candidates == [] then []
    else
      var last := candidates[|candidates| - 1];
      Offered(rows, targets, candidates[..|candidates| - 1]) + if OfferedBy(rows, targets, last) then [last] else []
  }

  method CommonOptions(rows: seq<Row>, targets: seq<int>, candidates: seq<string>) returns (options: seq<string>)
    requires forall row :: row in targets ==> 0 <= row < |rows|
    ensures options == Offered(rows, RowSet(targets), candidates)
    ensures forall option :: option in options <==>
              option in candidates && forall row :: row in targets ==> option in rows[row].options
  {
    options := [];
    for i := 0 to |candidates|
      invariant forall option :: option in options <==>
                  option in candidates[..i] && forall row :: row in targets ==> option in rows[row].options
      invariant options == Offered(rows, RowSet(targets), candidates[..i])
    {
      var offered := OfferedByAll(rows, targets, candidates[i]);
      assert candidates[..i + 1][..i] == candidates[..i];
      assert offered <==> OfferedBy(rows, RowSet(targets), candidates[i]);
      if offered { options := options + [candidates[i]]; }
    }
    assert candidates[..|candidates|] == candidates;
  }

  /** The last place of the option among the options, or the first place of all. */
  method CursorOn(options: seq<string>, option: string) returns (at: int)
    requires options != []
    ensures 0 <= at < |options|
    ensures option in options ==> options[at] == option
  {
    at := 0;
    for i := 0 to |options|
      invariant 0 <= at < |options|
      invariant option in options[..i] ==> options[at] == option
    {
      if options[i] == option { at := i; }
    }
    assert options[..|options|] == options;
  }

  // ----- what is in view -----

  /** The line with the cursor; Continue counts as the last line. */
  predicate IsFocus(lines: seq<Line>, n: nat, cursor: int, focus: int) {
    0 <= focus < |lines| && if cursor == n then focus == |lines| - 1 else lines[focus] == RowLine(cursor)
  }

  ghost predicate FocusInView(lines: seq<Line>, n: nat, cursor: int, offset: int, visible: nat) {
    lines != [] ==> exists focus :: IsFocus(lines, n, cursor, focus) && offset <= focus < offset + visible
  }

  // ----- what the fields mean together -----

  ghost predicate IsSteady(p: Prompt, chosen: seq<int>, initial: seq<int>, cursor: int, visual: bool, anchor: int) {
    && WellFormed(p) && Chosen(p, chosen) && Chosen(p, initial)
    && 0 <= cursor <= |p.rows|
    && (visual ==> 0 <= anchor < |p.rows|)
  }

  /** The rows a choice applies to: the selection between anchor and cursor as displayed, or
      the focused row. */
  ghost predicate Targeted(p: Prompt, chosen: seq<int>, cursor: int, visual: bool, anchor: int, row: int)
    requires Chosen(p, chosen)
  {
    0 <= row < |p.rows|
    && if visual then
         var order := Order(p.groups, Values(p, chosen));
         Between(Position(order, row), Position(order, anchor), Position(order, cursor))
       else row == cursor
  }

  ghost function AllTargeted(p: Prompt, chosen: seq<int>, cursor: int, visual: bool, anchor: int): set<int>
    requires Chosen(p, chosen)
  {
    set row | 0 <= row < |p.rows| && Targeted(p, chosen, cursor, visual, anchor, row)
  }

  lemma SelectionOfOne(p: Prompt, chosen: seq<int>, cursor: int)
    requires Chosen(p, chosen) && 0 <= cursor < |p.rows| && Permutes(Order(p.groups, Values(p, chosen)), |p.rows|)
    ensures AllTargeted(p, chosen, cursor, true, cursor) == {cursor}
  {
    var order := Order(p.groups, Values(p, chosen));
    forall row | 0 <= row < |p.rows| ensures Position(order, row) == Position(order, cursor) <==> row == cursor {
      assert row in order && cursor in order;
    }
    assert forall row :: Targeted(p, chosen, cursor, true, cursor, row) <==> row == cursor;
  }

  /** Every target offers the option. */
  ghost predicate Common(p: Prompt, chosen: seq<int>, cursor: int, visual: bool, anchor: int, option: string)
    requires Chosen(p, chosen)
  {
    forall row :: Targeted(p, chosen, cursor, visual, anchor, row) ==> option in p.rows[row].options
  }

  /** An open dropdown offers exactly what every row it applies to offers. */
  ghost predicate Fits(p: Prompt, chosen: seq<int>, cursor: int, visual: bool, anchor: int, options: seq<string>,
                       at: int)
    requires Chosen(p, chosen)
  {
    0 <= at < |options| && forall option :: option in options <==> Common(p, chosen, cursor, visual, anchor, option)
  }

  /** Steady, and an open dropdown lists what may be chosen. */
  ghost predicate IsArmed(p: Prompt, chosen: seq<int>, initial: seq<int>, cursor: int, visual: bool, anchor: int,
                          open: bool, options: seq<string>, at: int)
  {
    && IsSteady(p, chosen, initial, cursor, visual, anchor)
    && (open ==> cursor < |p.rows| && Fits(p, chosen, cursor, visual, anchor, options, at))
  }

  method FocusOf(lines: seq<Line>, n: nat, cursor: int) returns (focus: int)
    requires 0 <= cursor <= n
    requires forall row :: 0 <= row < n ==> RowLine(row) in lines
    ensures lines != [] ==> IsFocus(lines, n, cursor, focus)
    ensures lines == [] ==> focus == -1
  {
    focus := |lines| - 1;
    if cursor != n {
      var i := 0;
      while i < |lines| && lines[i] != RowLine(cursor)
        invariant i <= |lines| && RowLine(cursor) !in lines[..i]
      {
        i := i + 1;
      }
      if i < |lines| { focus := i; }
    }
  }

  /** How many of the lines are shown where there is room for some: one fewer, for a marker, when
      they do not all fit, but one at least. */
  function VisibleLines(room: int, lines: nat): (visible: nat)
    ensures visible >= 1 && (visible <= room || visible == 1)
    ensures room >= 1 && lines <= room ==> visible == room
    ensures room >= 2 && lines > room ==> visible == room - 1
  {
    var shown := if lines > room then room - 1 else room;
    if shown > 1 then shown else 1
  }

  /** When the first screen, with nothing scrolled yet, shows the line with the cursor. */
  predicate FirstScreenShows(groups: seq<string>, values: seq<string>, visible: nat) {
    || groups == []
    || if values == [] then 2 * |groups| <= visible else 2 * FirstUsed(groups, values) + 1 < visible
  }

  lemma FirstScreenIff(p: Prompt, chosen: seq<int>, cursor: int, visible: nat)
    requires WellFormed(p) && Chosen(p, chosen) && 0 <= cursor <= |p.rows| && visible >= 1
    requires Position(Order(p.groups, Values(p, chosen)), cursor) == 0
    ensures FocusInView(Lines(p.groups, Values(p, chosen)), |p.rows|, cursor, 0, visible) <==>
            FirstScreenShows(p.groups, Values(p, chosen), visible)
  {
    var values := Values(p, chosen);
    if p.rows == [] {
      NoRowsFirstScreen(p.groups, cursor, visible);
    } else {
      CursorOnFirstRow(p, chosen, cursor);
      RowsFirstScreen(Lines(p.groups, values), |p.rows|, cursor, FirstRowLineAt(p.groups, values), visible);
    }
  }

  lemma NoRowsFirstScreen(groups: seq<string>, cursor: int, visible: nat)
    requires cursor == 0
    ensures FocusInView(Lines(groups, []), 0, cursor, 0, visible) <==> FirstScreenShows(groups, [], visible)
  {
    var lines := Lines(groups, []);
    if groups != [] {
      EmptyGroups(groups, []);
      assert IsFocus(lines, 0, cursor, |lines| - 1);
    }
  }

  lemma RowsFirstScreen(lines: seq<Line>, n: nat, cursor: int, at: int, visible: nat)
    requires FirstRowAt(lines, at) && lines[at] == RowLine(cursor) && cursor < n
    ensures FocusInView(lines, n, cursor, 0, visible) <==> at < visible
  {
    assert IsFocus(lines, n, cursor, at);
  }

  lemma CursorOnFirstRow(p: Prompt, chosen: seq<int>, cursor: int)
    requires WellFormed(p) && Chosen(p, chosen) && 0 <= cursor <= |p.rows| && p.rows != []
    requires Position(Order(p.groups, Values(p, chosen)), cursor) == 0
    ensures cursor < |p.rows|
    ensures var values := Values(p, chosen);
            var lines, at := Lines(p.groups, values), FirstRowLineAt(p.groups, values);
            FirstRowAt(lines, at) && lines[at] == RowLine(cursor)
  {
    var values := Values(p, chosen);
    assert values[0] in p.rows[0].options;
    FirstRowOfAll(p.groups, values);
    FirstRowIn(Lines(p.groups, values), FirstRowLineAt(p.groups, values));
    EveryRowShown(p, chosen);
  }

  lemma EveryRowShown(p: Prompt, chosen: seq<int>)
    requires WellFormed(p) && Chosen(p, chosen)
    ensures Permutes(Order(p.groups, Values(p, chosen)), |p.rows|)
    ensures forall row :: 0 <= row < |p.rows| ==> RowLine(row) in Lines(p.groups, Values(p, chosen))
  {
    var values := Values(p, chosen);
    forall row | p.groups != [] && 0 <= row < |values| ensures values[row] in p.groups {
      assert values[row] in p.rows[row].options;
    }
    OrderPermutes(p.groups, values);
  }

  /** Where a move by delta lands among len display positions, the last being Continue. */
  function Clamp(position: int, len: nat): int {
    if position < 0 then 0 else if position > len then len else position
  }

  /** Within the display order the cursor goes from one row to another by delta, as far as the
      ends; the last position is Continue. */
  ghost predicate MovedBy(p: Prompt, chosen: seq<int>, from: int, to: int, delta: int)
    requires Chosen(p, chosen)
  {
    var order := Order(p.groups, Values(p, chosen));
    Position(order, to) == Clamp(Position(order, from) + delta, |p.rows|)
  }

  method Moved(order: seq<int>, n: nat, cursor: int, delta: int) returns (to: int)
    requires Permutes(order, n) && 0 <= cursor <= n
    ensures 0 <= to <= n
    ensures Position(order, to) == Clamp(Position(order, cursor) + delta, n)
  {
    PermutationLength(order, n);
    var pos := PositionOf(order, cursor);
    pos := pos + delta;
    if pos < 0 { pos := 0; }
    if pos >= |order| {
      return n;
    }
    assert order[pos] in order;
    PositionOfMember(order, n, pos);
    return order[pos];
  }

  /** One step around a ring of n places. */
  function Around(at: int, delta: int, n: int): int {
    if at + delta == n then 0 else if at + delta == -1 then n - 1 else at + delta
  }

  lemma AroundIsModulo(at: int, delta: int, n: int)
    requires 0 <= at < n && (delta == 1 || delta == -1)
    ensures (at + delta + n) % n == Around(at, delta, n) && 0 <= Around(at, delta, n) < n
  {
    if at + delta == n {
      assert (n + n) % n == 0;
    } else if at + delta >= 0 {
      assert (at + delta + n) % n == at + delta;
    }
  }

  method Advance(at: int, delta: int, n: int) returns (to: int)
    requires 0 <= at < n && (delta == 1 || delta == -1)
    ensures to == Around(at, delta, n) && 0 <= to < n
  {
    AroundIsModulo(at, delta, n);
    to := (at + delta + n) % n;
  }

  method DropdownMove(key: Press, cursor: int, n: int) returns (to: int)
    requires 0 <= cursor < n
    ensures 0 <= to < n
    ensures key.Up? ==> to == Around(cursor, -1, n)
    ensures key.Down? ==> to == Around(cursor, 1, n)
    ensures key.Top? ==> to == 0
    ensures key.Bottom? ==> to == n - 1
    ensures !key.Up? && !key.Down? && !key.Top? && !key.Bottom? ==> to == cursor
  {
    to := cursor;
    match key {
      case Up => to := Advance(cursor, -1, n);
      case Down => to := Advance(cursor, 1, n);
      case Top => to := 0;
      case Bottom => to := n - 1;
      case _ =>
    }
  }

  /** Scrolls no further than the focused line needs, its group header included where it fits. */
  method ScrolledTo(lines: seq<Line>, focus: int, offset: int, visible: nat) returns (to: int)
    requires -1 <= focus < |lines| && visible >= 1 && (lines != [] ==> focus >= 0)
    ensures 0 <= to <= |lines|
    ensures lines != [] ==> to <= focus < to + visible
    ensures 0 <= offset <= focus < offset + visible && !(focus == offset > 0 && lines[focus - 1].Header?) ==>
              to == offset
    ensures visible >= 2 && focus > 0 && lines[focus - 1].Header? ==> to <= focus - 1
  {
    to := offset;
    var top := focus;
    if top > 0 && lines[top - 1].Header? { top := top - 1; }
    if top < to { to := top; }
    if focus >= to + visible { to := focus - visible + 1; }
    if to < 0 { to := 0; }
  }

  predicate MovesCursor(key: Press) {
    key.Up? || key.Down? || key.Top? || key.Bottom? || key.HalfDown? || key.HalfUp?
  }

  predicate Chooses(key: Press) {
    key.Prev? || key.Next? || key.Group? || key.Clear? || key.Reset?
  }

  /** How far a key moves the cursor. */
  function MoveBy(key: Press, page: int, n: int): int {
    match key
    case Up => -1
    case Down => 1
    case Top => -n - 1
    case Bottom => n + 1
    case HalfDown => if page / 2 > 1 then page / 2 else 1
    case HalfUp => -if page / 2 > 1 then page / 2 else 1
    case _ => 0
  }

  /** What a key does to the chosen options while no dropdown is open. */
  ghost predicate ChoiceEffect(p: Prompt, key: Press, before: seq<int>, after: seq<int>, initial: seq<int>, cursor: int,
                               visual: bool, targets: set<int>)
    requires Chosen(p, before) && Chosen(p, initial) && 0 <= cursor <= |before|
  {
    match key
    case Prev => Cycled(p, before, after, cursor, visual, -1)
    case Next => Cycled(p, before, after, cursor, visual, 1)
    case Group(digit) =>
      if 1 <= digit <= |p.groups| && p.groups[digit - 1] != "" then
        Applied(p, before, after, targets, p.groups[digit - 1])
      else after == before
    case Clear => if p.clearOption != "" then Applied(p, before, after, targets, p.clearOption) else after == before
    case Reset =>
      |after| == |before| &&
      forall row :: 0 <= row < |before| ==> after[row] == if row in targets then initial[row] else before[row]
    case _ => after == before
  }

  ghost predicate Cycled(p: Prompt, before: seq<int>, after: seq<int>, cursor: int, visual: bool, delta: int)
    requires Chosen(p, before) && 0 <= cursor <= |before|
  {
    if cursor == |before| || visual then after == before
    else after == before[cursor := Around(before[cursor], delta, |p.rows[cursor].options|)]
  }

  /** Whether rows are selected after a key while no dropdown is open: the selection key begins or
      ends a selection, cancelling and choosing end one, and moving and cycling keep it. */
  predicate SelectedAfter(p: Prompt, key: Press, cursor: int, visual: bool) {
    match key
    case Visual => !visual && cursor < |p.rows|
    case Cancel => false
    case Reset => false
    case Group(digit) => visual && !(1 <= digit <= |p.groups| && p.groups[digit - 1] != "")
    case Clear => visual && p.clearOption == ""
    case _ => visual
  }

  /** A new selection is anchored at the cursor, one that goes on where it was. */
  predicate SelectionEffect(p: Prompt, key: Press, cursor: int, visual: bool, anchor: int,
                            after: bool, anchorAfter: int)
  {
    (after <==> SelectedAfter(p, key, cursor, visual))
    && (after ==> anchorAfter == if key.Visual? then cursor else anchor)
  }

  /** A key moves the cursor of an open dropdown around its ends, or to one of them. */
  function DropdownCursorAfter(key: Press, at: int, n: int): int {
    match key
    case Up => if at == 0 then n - 1 else at - 1
    case Down => if at == n - 1 then 0 else at + 1
    case Top => 0
    case Bottom => n - 1
    case _ => at
  }

  /** The row displayed first of those a choice applies to. */
  ghost predicate FirstTarget(p: Prompt, chosen: seq<int>, cursor: int, visual: bool, anchor: int, first: int)
    requires Chosen(p, chosen)
  {
    var order := Order(p.groups, Values(p, chosen));
    Targeted(p, chosen, cursor, visual, anchor, first)
    && forall row :: Targeted(p, chosen, cursor, visual, anchor, row) ==> Position(order, first) <= Position(order, row)
  }

  /** A dropdown lists the common options in the order of the groups, or of the first target. */
  ghost predicate Lists(p: Prompt, chosen: seq<int>, cursor: int, visual: bool, anchor: int, options: seq<string>)
    requires Chosen(p, chosen)
  {
    exists first :: FirstTarget(p, chosen, cursor, visual, anchor, first)
      && options == Offered(p.rows, AllTargeted(p, chosen, cursor, visual, anchor),
                            if p.groups != [] then p.groups else p.rows[first].options)
  }

  /** Open on a row opens the dropdown exactly when its targets have an option in common; it lists
      those, and starts on the focused row's own. */
  ghost predicate Opened(p: Prompt, key: Press, chosen: seq<int>, cursor: int, visual: bool, anchor: int,
                         open: bool, options: seq<string>, at: int)
    requires Chosen(p, chosen) && 0 <= cursor <= |p.rows|
  {
    && (open <==>
          key == Open && cursor < |p.rows| && exists option :: Common(p, chosen, cursor, visual, anchor, option))
    && (open ==>
          && Lists(p, chosen, cursor, visual, anchor, options) && 0 <= at < |options|
          && (Common(p, chosen, cursor, visual, anchor, OptionOf(p, chosen, cursor)) ==>
                options[at] == OptionOf(p, chosen, cursor)))
  }

  /** What keeps Open from going on is said. */
  function NoticeAfter(p: Prompt, key: Press, chosen: seq<int>, cursor: int, open: bool, before: string): string
    requires Chosen(p, chosen)
  {
    if key != Open then before
    else if cursor < |p.rows| then if open then before else NO_COMMON_OPTION
    else if Blocking(p, chosen) != "" then Blocking(p, chosen)
    else before
  }

  /** What the operator has in front of him, but for how far it is scrolled. */
  datatype Screen = Screen(
    chosen: seq<int>, cursor: int, visual: bool, anchor: int, open: bool, at: int, options: seq<string>,
    notice: string, fullHelp: bool)

  ghost predicate OnScreen(p: Prompt, s: Screen) {
    && Chosen(p, s.chosen) && 0 <= s.cursor <= |p.rows| && (s.open ==> 0 <= s.at < |s.options|)
  }

  ghost function ScreenTargets(p: Prompt, s: Screen): set<int>
    requires OnScreen(p, s)
  {
    AllTargeted(p, s.chosen, s.cursor, s.visual, s.anchor)
  }

  /** A key that moves the cursor. */
  ghost predicate MoveEffect(p: Prompt, key: Press, page: int, s: Screen, t: Screen)
    requires OnScreen(p, s) && OnScreen(p, t)
  {
    t == s.(cursor := t.cursor) && MovedBy(p, s.chosen, s.cursor, t.cursor, MoveBy(key, page, |p.rows|))
  }

  /** A key that changes what is chosen. */
  ghost predicate ChooseEffect(p: Prompt, key: Press, initial: seq<int>, s: Screen, t: Screen)
    requires OnScreen(p, s) && OnScreen(p, t) && Chosen(p, initial)
  {
    && t == s.(chosen := t.chosen, visual := SelectedAfter(p, key, s.cursor, s.visual))
    && ChoiceEffect(p, key, s.chosen, t.chosen, initial, s.cursor, s.visual, ScreenTargets(p, s))
  }

  /** Any other key: leaving, help, the selection, and opening or submitting. */
  ghost predicate OtherEffect(p: Prompt, key: Press, s: Screen, t: Screen, outcome: Outcome)
    requires OnScreen(p, s) && OnScreen(p, t)
  {
    && t.chosen == s.chosen && t.cursor == s.cursor
    && (outcome == Cancelled <==> key == Cancel && !s.visual)
    && (outcome == Submitted <==> key == Open && s.cursor == |p.rows| && Blocking(p, s.chosen) == "")
    && SelectionEffect(p, key, s.cursor, s.visual, s.anchor, t.visual, t.anchor)
    && Opened(p, key, t.chosen, t.cursor, t.visual, t.anchor, t.open, t.options, t.at)
    && t.notice == NoticeAfter(p, key, t.chosen, t.cursor, t.open, s.notice)
    && t.fullHelp == if key == Help then !s.fullHelp else s.fullHelp
  }

  /** What a key does while no dropdown is open. */
  ghost predicate RowsEffect(p: Prompt, key: Press, page: int, initial: seq<int>, s: Screen, t: Screen,
                             outcome: Outcome)
    requires OnScreen(p, s) && OnScreen(p, t) && Chosen(p, initial)
  {
    if MovesCursor(key) then outcome == Pending && MoveEffect(p, key, page, s, t)
    else if Chooses(key) then outcome == Pending && ChooseEffect(p, key, initial, s, t)
    else OtherEffect(p, key, s, t, outcome)
  }

  /** What a key does to an open dropdown: choosing sets every target, and ends the selection unless
      the option is empty. */
  ghost predicate DropdownEffect(p: Prompt, key: Press, s: Screen, t: Screen, outcome: Outcome)
    requires OnScreen(p, s) && OnScreen(p, t) && s.open
  {
    && outcome == Pending
    && t == Screen(t.chosen, s.cursor, s.visual && !(key == Open && s.options[s.at] != ""), s.anchor,
                   key != Cancel && key != Open, DropdownCursorAfter(key, s.at, |s.options|), s.options, "", s.fullHelp)
    && if key == Open then ChoseOption(p, s.chosen, t.chosen, ScreenTargets(p, s), s.options[s.at])
       else t.chosen == s.chosen
  }

  /** What a key does. */
  ghost predicate KeyEffect(p: Prompt, key: Press, page: int, initial: seq<int>, s: Screen, t: Screen, outcome: Outcome)
    requires OnScreen(p, s) && OnScreen(p, t) && Chosen(p, initial)
  {
    var told := s.(notice := "");
    if s.open then DropdownEffect(p, key, told, t, outcome) else RowsEffect(p, key, page, initial, told, t, outcome)
  }

  lemma NothingOpens(p: Prompt, chosen: seq<int>, cursor: int, visual: bool, anchor: int, options: seq<string>, at: int)
    requires Chosen(p, chosen) && 0 <= cursor < |p.rows|
    requires forall option :: !Common(p, chosen, cursor, visual, anchor, option)
    ensures Opened(p, Open, chosen, cursor, visual, anchor, false, options, at)
  {
  }

  /** Common options open a dropdown that fits and is as Open promises. */
  lemma OpensOn(p: Prompt, chosen: seq<int>, cursor: int, visual: bool, anchor: int, options: seq<string>, at: int)
    requires Chosen(p, chosen) && 0 <= cursor < |p.rows| && 0 <= at < |options|
    requires forall option :: option in options <==> Common(p, chosen, cursor, visual, anchor, option)
    requires Lists(p, chosen, cursor, visual, anchor, options)
    requires OptionOf(p, chosen, cursor) in options ==> options[at] == OptionOf(p, chosen, cursor)
    ensures Opened(p, Open, chosen, cursor, visual, anchor, true, options, at)
    ensures Fits(p, chosen, cursor, visual, anchor, options, at)
  {
    assert options[at] in options;
    assert Common(p, chosen, cursor, visual, anchor, options[at]);
  }

  class ChoiceModel {
    const prompt: Prompt
    var chosen: seq<int>
    var initial: seq<int>
    var cursor: int
    var offset: int
    var visual: bool
    var visualAnchor: int
    var dropdownOpen: bool
    var dropdownCursor: int
    var dropdownOptions: seq<string>
    var notice: string
    var fullHelp: bool

    ghost predicate Steady()
      reads this
    {
      IsSteady(prompt, chosen, initial, cursor, visual, visualAnchor)
    }

    ghost predicate Armed()
      reads this
    {
      IsArmed(prompt, chosen, initial, cursor, visual, visualAnchor, dropdownOpen, dropdownOptions, dropdownCursor)
    }

    ghost predicate Valid()
      reads this
    {
      Armed() && 0 <= offset <= |LinesNow()|
    }

    ghost function Now(): Screen
      reads this
    {
      Screen(chosen, cursor, visual, visualAnchor, dropdownOpen, dropdownCursor, dropdownOptions, notice, fullHelp)
    }

    ghost function LinesNow(): seq<Line>
      reads this
      requires Chosen(prompt, chosen)
    {
      Lines(prompt.groups, Values(prompt, chosen))
    }

    ghost function OrderNow(): seq<int>
      reads this
      requires Chosen(prompt, chosen)
    {
      Order(prompt.groups, Values(prompt, chosen))
    }

    ghost predicate IsTarget(row: int)
      reads this
      requires Chosen(prompt, chosen)
    {
      Targeted(prompt, chosen, cursor, visual, visualAnchor, row)
    }

    ghost function TargetSet(): set<int>
      reads this
      requires Chosen(prompt, chosen)
    {
      AllTargeted(prompt, chosen, cursor, visual, visualAnchor)
    }

    ghost predicate IsCommon(option: string)
      reads this
      requires Chosen(prompt, chosen)
    {
      Common(prompt, chosen, cursor, visual, visualAnchor, option)
    }

    lemma Shows()
      requires WellFormed(prompt) && Chosen(prompt, chosen)
      ensures Permutes(OrderNow(), |prompt.rows|)
      ensures forall row :: 0 <= row < |prompt.rows| ==> RowLine(row) in LinesNow()
    {
      EveryRowShown(prompt, chosen);
    }

    constructor (p: Prompt)
      requires WellFormed(p)
      ensures Valid() && prompt == p && !visual && !dropdownOpen
      ensures Now().notice == "" && !fullHelp
      ensures forall row :: 0 <= row < |p.rows| && p.rows[row].current in p.rows[row].options ==>
                OptionOf(p, chosen, row) == p.rows[row].current
      ensures forall row :: 0 <= row < |p.rows| && p.rows[row].current !in p.rows[row].options ==> chosen[row] == 0
      ensures initial == chosen && offset == 0
      ensures Position(OrderNow(), cursor) == 0
      ensures forall visible: nat :: visible >= 1 ==>
                (FocusInView(LinesNow(), |p.rows|, cursor, offset, visible) <==>
                 FirstScreenShows(p.groups, Values(p, chosen), visible))
    {
      prompt := p;
      var at: seq<int> := [];
      for i := 0 to |p.rows|
        invariant |at| == i
        invariant forall row :: 0 <= row < i ==> 0 <= at[row] < |p.rows[row].options|
        invariant forall row :: 0 <= row < i && p.rows[row].current in p.rows[row].options ==>
                    p.rows[row].options[at[row]] == p.rows[row].current
        invariant forall row :: 0 <= row < i && p.rows[row].current !in p.rows[row].options ==> at[row] == 0
      {
        var j := OptionIndex(p.rows[i].options, p.rows[i].current);
        at := at + [if j >= 0 then j else 0];
      }
      chosen, initial := at, at;
      var order := OrderOf(p.groups, Values(p, at));
      cursor := if |order| > 0 then order[0] else 0;
      offset, visual, dropdownOpen := 0, false, false;
      notice, fullHelp := "", false;
      new;
      Shows();
      PermutationLength(OrderNow(), |prompt.rows|);
      assert order != [] ==> order[0] in order;
      forall visible: nat | visible >= 1
        ensures FocusInView(LinesNow(), |p.rows|, cursor, offset, visible) <==>
                FirstScreenShows(p.groups, Values(p, chosen), visible)
      {
        FirstScreenIff(prompt, chosen, cursor, visible);
      }
    }

    method TargetRows() returns (targets: seq<int>)
      requires Steady()
      ensures forall row :: row in targets <==> IsTarget(row)
    {
      targets := DisplayedTargets();
    }

    method DisplayedTargets() returns (targets: seq<int>)
      requires Steady()
      ensures forall row :: row in targets <==> IsTarget(row)
      ensures targets != [] ==> FirstTarget(prompt, chosen, cursor, visual, visualAnchor, targets[0])
    {
      Shows();
      forall row ensures row in Targets(OrderNow(), |prompt.rows|, cursor, visual, visualAnchor) <==> IsTarget(row) {
        TargetsAre(OrderNow(), |prompt.rows|, cursor, visual, visualAnchor, row);
      }
      var order := OrderOf(prompt.groups, Values(prompt, chosen));
      targets := TargetsOf(order, |prompt.rows|, cursor, visual, visualAnchor);
      if targets != [] {
        assert targets[0] in targets;
        FirstOfTargets(order, |prompt.rows|, cursor, visual, visualAnchor);
      }
    }

    /** Keeps the focused line on screen. */
    method ScrollToCursor(visible: nat)
      requires Armed() && visible >= 1
      modifies this`offset
      ensures Valid()
      ensures FocusInView(LinesNow(), |prompt.rows|, cursor, offset, visible)
    {
      Shows();
      var lines := LinesOf(prompt.groups, Values(prompt, chosen));
      var focus := FocusOf(lines, |prompt.rows|, cursor);
      offset := ScrolledTo(lines, focus, offset, visible);
    }

    method MoveCursor(delta: int)
      requires Steady()
      modifies this`cursor
      ensures Steady()
      ensures MovedBy(prompt, chosen, old(cursor), cursor, delta)
    {
      Shows();
      var order := OrderOf(prompt.groups, Values(prompt, chosen));
      cursor := Moved(order, |prompt.rows|, cursor, delta);
    }

    /** Gives the option to every target that offers it, and ends the selection. */
    method Apply(option: string)
      requires Steady()
      modifies this`chosen, this`visual
      ensures Steady()
      ensures option == "" ==> chosen == old(chosen) && visual == old(visual)
      ensures option != "" ==> Applied(prompt, old(chosen), chosen, old(TargetSet()), option) && !visual
    {
      if option == "" { return; }
      ghost var before := chosen;
      ghost var all := TargetSet();
      var targets := TargetRows();
      assert forall row :: row in targets <==> row in all;
      for i := 0 to |targets|
        invariant Chosen(prompt, chosen)
        invariant forall row :: 0 <= row < |before| ==>
                    if row in targets[..i] && option in prompt.rows[row].options then
                      OptionOf(prompt, chosen, row) == option
                    else chosen[row] == before[row]
      {
        assert targets[i] in targets;
        var j := OptionIndex(prompt.rows[targets[i]].options, option);
        assert targets[..i + 1] == targets[..i] + [targets[i]];
        if j >= 0 { chosen := chosen[targets[i] := j]; }
      }
      assert targets[..|targets|] == targets;
      visual := false;
    }

    /** Undoes the targets. */
    method Reset()
      requires Steady()
      modifies this`chosen, this`visual
      ensures Steady() && !visual
      ensures forall row :: 0 <= row < |chosen| ==>
                chosen[row] == if row in old(TargetSet()) then initial[row] else old(chosen)[row]
    {
      ghost var before := chosen;
      ghost var all := TargetSet();
      var targets := TargetRows();
      assert forall row :: row in targets <==> row in all;
      for i := 0 to |targets|
        invariant Chosen(prompt, chosen)
        invariant forall row :: 0 <= row < |before| ==>
                    chosen[row] == if row in targets[..i] then initial[row] else before[row]
      {
        assert targets[i] in targets;
        assert targets[..i + 1] == targets[..i] + [targets[i]];
        chosen := chosen[targets[i] := initial[targets[i]]];
      }
      assert targets[..|targets|] == targets;
      visual := false;
    }

    /** The next or previous option of the focused row, around the ends. */
    method CycleOption(delta: int)
      requires Steady() && (delta == 1 || delta == -1)
      modifies this`chosen
      ensures Steady()
      ensures Cycled(prompt, old(chosen), chosen, cursor, visual, delta)
    {
      if cursor == |prompt.rows| || visual { return; }
      var n := |prompt.rows[cursor].options|;
      var to := Advance(chosen[cursor], delta, n);
      chosen := chosen[cursor := to];
    }

    method MoveToGroup(group: int)
      requires Steady()
      modifies this`chosen, this`visual
      ensures Steady()
      ensures 0 <= group < |prompt.groups| && prompt.groups[group] != "" ==>
                Applied(prompt, old(chosen), chosen, old(TargetSet()), prompt.groups[group]) && !visual
      ensures !(0 <= group < |prompt.groups|) || prompt.groups[group] == "" ==>
                chosen == old(chosen) && visual == old(visual)
    {
      if group < 0 || group >= |prompt.groups| { return; }
      Apply(prompt.groups[group]);
    }

    method ToggleVisual()
      requires Steady()
      modifies this`visual, this`visualAnchor
      ensures Steady()
      ensures visual <==> !old(visual) && cursor < |prompt.rows|
      ensures visual ==> visualAnchor == cursor && TargetSet() == {cursor}
    {
      if visual {
        visual := false;
        return;
      }
      if cursor == |prompt.rows| { return; }
      visual := true;
      visualAnchor := cursor;
      Shows();
      SelectionOfOne(prompt, chosen, cursor);
    }

    /** The options every target offers, in group order when the prompt is grouped. */
    method DropdownChoices() returns (options: seq<string>)
      requires Steady() && cursor < |prompt.rows|
      ensures forall option :: option in options <==> Common(prompt, chosen, cursor, visual, visualAnchor, option)
      ensures options != [] ==> Lists(prompt, chosen, cursor, visual, visualAnchor, options)
      ensures options == [] ==> forall option :: !Common(prompt, chosen, cursor, visual, visualAnchor, option)
    {
      var targets := DisplayedTargets();
      assert IsTarget(cursor) && cursor in targets;
      assert targets[0] in targets;
      var candidates := prompt.rows[targets[0]].options;
      if |prompt.groups| > 0 { candidates := prompt.groups; }
      options := CommonOptions(prompt.rows, targets, candidates);
      CommonAreCandidates(targets, candidates, options);
      assert RowSet(targets) == TargetSet();
    }

    /** Lists what every target offers; without anything in common it only says so. */
    method OpenDropdown()
      requires Steady() && cursor < |prompt.rows| && !dropdownOpen
      modifies this`dropdownOptions, this`dropdownCursor, this`dropdownOpen, this`notice
      ensures Armed()
      ensures Opened(prompt, Open, chosen, cursor, visual, visualAnchor, dropdownOpen, dropdownOptions, dropdownCursor)
      ensures notice == if dropdownOpen then old(notice) else NO_COMMON_OPTION
    {
      var options := DropdownChoices();
      if |options| == 0 {
        NothingOpens(prompt, chosen, cursor, visual, visualAnchor, dropdownOptions, dropdownCursor);
        notice := NO_COMMON_OPTION;
        return;
      }
      var at := CursorOn(options, prompt.rows[cursor].options[chosen[cursor]]);
      OpensOn(prompt, chosen, cursor, visual, visualAnchor, options, at);
      dropdownOptions, dropdownCursor, dropdownOpen := options, at, true;
    }

    lemma CommonAreCandidates(targets: seq<int>, candidates: seq<string>, options: seq<string>)
      requires Steady() && targets != [] && forall row :: row in targets <==> IsTarget(row)
      requires 0 <= targets[0] < |prompt.rows|
      requires candidates == if prompt.groups != [] then prompt.groups else prompt.rows[targets[0]].options
      requires forall option :: option in options <==>
                 option in candidates
                 && forall row :: 0 <= row < |prompt.rows| && row in targets ==> option in prompt.rows[row].options
      ensures forall option :: option in options <==> IsCommon(option)
    {
      assert targets[0] in targets;
      forall option ensures option in options <==> IsCommon(option) {
        if IsCommon(option) { assert option in prompt.rows[targets[0]].options; }
      }
    }

    /** A key press while the dropdown is open. Choosing sets every target to the chosen option. */
    method UpdateDropdown(key: Press)
      requires Armed() && dropdownOpen && notice == ""
      modifies this`dropdownOpen, this`dropdownCursor, this`chosen, this`visual
      ensures Armed()
      ensures DropdownEffect(prompt, key, old(Now()), Now(), Pending)
    {
      match key {
        case Cancel => dropdownOpen := false;
        case Open => ChooseFromDropdown();
        case _ => dropdownCursor := DropdownMove(key, dropdownCursor, |dropdownOptions|);
      }
    }

    method ChooseFromDropdown()
      requires Armed() && dropdownOpen
      modifies this`dropdownOpen, this`chosen, this`visual
      ensures Steady() && !dropdownOpen
      ensures ChoseOption(prompt, old(chosen), chosen, old(TargetSet()), dropdownOptions[dropdownCursor])
      ensures visual <==> old(visual) && dropdownOptions[dropdownCursor] == ""
    {
      ghost var before, all := chosen, TargetSet();
      var option := dropdownOptions[dropdownCursor];
      assert IsCommon(option);
      assert forall row :: row in all ==> IsTarget(row);
      dropdownOpen := false;
      Apply(option);
      if option != "" { AppliedToAll(prompt, before, chosen, all, option); }
    }

    lemma ContinueIsLast()
      requires Steady()
      ensures Position(OrderNow(), |prompt.rows|) == |prompt.rows|
    {
      Shows();
      PermutationLength(OrderNow(), |prompt.rows|);
    }

    /** The keys that move the cursor. */
    method MoveByKey(key: Press, page: int)
      requires Steady() && MovesCursor(key) && !dropdownOpen
      modifies this`cursor
      ensures Steady()
      ensures MoveEffect(prompt, key, page, old(Now()), Now())
    {
      match key {
        case Up => MoveCursor(-1);
        case Down => MoveCursor(1);
        case Top => MoveCursor(-|prompt.rows| - 1);
        case Bottom =>
          ContinueIsLast();
          cursor := |prompt.rows|;
        case HalfDown => MoveCursor(if page / 2 > 1 then page / 2 else 1);
        case HalfUp => MoveCursor(-if page / 2 > 1 then page / 2 else 1);
      }
    }

    /** The keys that change what is chosen. */
    method ChooseByKey(key: Press)
      requires Steady() && Chooses(key) && !dropdownOpen
      modifies this`chosen, this`visual
      ensures Steady()
      ensures ChooseEffect(prompt, key, initial, old(Now()), Now())
    {
      match key {
        case Prev => CycleOption(-1);
        case Next => CycleOption(1);
        case Group(digit) => MoveToGroup(digit - 1);
        case Clear => Apply(prompt.clearOption);
        case Reset => Reset();
      }
    }

    /** The other keys: leaving, help, the selection, and opening or submitting. */
    method OtherKey(key: Press) returns (outcome: Outcome)
      requires Armed() && !dropdownOpen && !MovesCursor(key) && !Chooses(key)
      modifies this`visual, this`visualAnchor, this`dropdownOpen, this`dropdownCursor, this`dropdownOptions,
               this`notice, this`fullHelp
      ensures Armed()
      ensures OtherEffect(prompt, key, old(Now()), Now(), outcome)
    {
      outcome := Pending;
      match key {
        case Cancel =>
          if visual { visual := false; } else { outcome := Cancelled; }
        case Help => fullHelp := !fullHelp;
        case Visual => ToggleVisual();
        case Open =>
          if cursor == |prompt.rows| {
            var blocking := Blocking(prompt, chosen);
            if blocking != "" { notice := blocking; } else { outcome := Submitted; }
          } else {
            OpenDropdown();
          }
        case _ =>
      }
    }

    /** One key press while the dropdown is closed, before scrolling. page is how many lines fit. */
    method UpdateRows(key: Press, page: int) returns (outcome: Outcome)
      requires Armed() && !dropdownOpen && notice == ""
      modifies this`chosen, this`cursor, this`visual, this`visualAnchor, this`dropdownOpen, this`dropdownCursor,
               this`dropdownOptions, this`notice, this`fullHelp
      ensures Armed()
      ensures RowsEffect(prompt, key, page, initial, old(Now()), Now(), outcome)
    {
      outcome := Pending;
      if MovesCursor(key) {
        MoveByKey(key, page);
      } else if Chooses(key) {
        ChooseByKey(key);
      } else {
        outcome := OtherKey(key);
      }
    }

    /** One key press, before scrolling. */
    method HandleKey(key: Press, page: int) returns (outcome: Outcome)
      requires Armed()
      modifies this`chosen, this`cursor, this`visual, this`visualAnchor, this`dropdownOpen, this`dropdownCursor,
               this`dropdownOptions, this`notice, this`fullHelp
      ensures Armed()
      ensures initial == old(initial) && KeyEffect(prompt, key, page, initial, old(Now()), Now(), outcome)
    {
      notice := "";
      if dropdownOpen {
        outcome := Pending;
        UpdateDropdown(key);
      } else {
        outcome := UpdateRows(key, page);
      }
    }

    /** One key press. visible is how many display lines show afterwards. Until the prompt is
        over, the focused line is in view after every key. */
    method Update(key: Press, page: int, visible: nat) returns (outcome: Outcome)
      requires Valid() && visible >= 1
      modifies this
      ensures Valid() && initial == old(initial)
      ensures outcome == Pending ==> FocusInView(LinesNow(), |prompt.rows|, cursor, offset, visible)
      ensures KeyEffect(prompt, key, page, initial, old(Now()), Now(), outcome)
    {
      outcome := HandleKey(key, page);
      if outcome == Pending { ScrollToCursor(visible); }
    }
  }

  /** What the prompt starts from: every row on its current option where it offers that, and the
      cursor on the row displayed first. */
  ghost predicate Starts(p: Prompt, s: Screen) {
    && OnScreen(p, s) && !s.visual && !s.open && s.notice == "" && !s.fullHelp
    && (forall row :: 0 <= row < |p.rows| && p.rows[row].current in p.rows[row].options ==>
          OptionOf(p, s.chosen, row) == p.rows[row].current)
    && (forall row :: 0 <= row < |p.rows| && p.rows[row].current !in p.rows[row].options ==> s.chosen[row] == 0)
    && Position(Order(p.groups, Values(p, s.chosen)), s.cursor) == 0
  }

  /** What the i-th key may make of a screen. */
  type Step = (nat, Screen, Screen, Outcome) -> bool

  ghost function Steps(p: Prompt, presses: seq<(Press, int, nat)>, initial: seq<int>): Step {
    (i: nat, s: Screen, t: Screen, outcome: Outcome) =>
      i < |presses| && OnScreen(p, s) && OnScreen(p, t) && Chosen(p, initial)
      && KeyEffect(p, presses[i].0, presses[i].1, initial, s, t, outcome)
  }

  /** The first n keys go from screen to screen, and none of them ends the prompt. */
  ghost predicate Chained(step: Step, screens: seq<Screen>, n: nat) {
    n < |screens| && forall i :: 0 <= i < n ==> step(i, screens[i], screens[i + 1], Pending)
  }

  ghost predicate Ends(step: Step, screens: seq<Screen>, outcome: Outcome) {
    && |screens| >= 2 && Chained(step, screens, |screens| - 2)
    && step(|screens| - 2, screens[|screens| - 2], screens[|screens| - 1], outcome)
  }

  lemma OneMoreScreen(step: Step, screens: seq<Screen>, next: Screen, outcome: Outcome)
    requires screens != [] && Chained(step, screens, |screens| - 1)
    requires step(|screens| - 1, screens[|screens| - 1], next, outcome)
    ensures Ends(step, screens + [next], outcome)
    ensures outcome == Pending ==> Chained(step, screens + [next], |screens|)
  {
  }

  /** Screen after screen as the keys make them, until one submits or cancels or none is left. */
  ghost predicate Answers(p: Prompt, presses: seq<(Press, int, nat)>, screens: seq<Screen>,
                          reply: Option<seq<string>>)
  {
    && screens != [] && Starts(p, screens[0])
    && var step, last := Steps(p, presses, screens[0].chosen), screens[|screens| - 1];
       match reply
       case Some(values) => Ends(step, screens, Submitted) && OnScreen(p, last) && values == Values(p, last.chosen)
       case None =>
         Ends(step, screens, Cancelled) || (|screens| == |presses| + 1 && Chained(step, screens, |presses|))
  }

  /** Any number of key presses: what is submitted is what the keys chose, one of its own options for
      every row, and the check found nothing that blocks it. */
  method Answer(p: Prompt, presses: seq<(Press, int, nat)>)
    returns (reply: Option<seq<string>>, ghost screens: seq<Screen>)
    requires WellFormed(p)
    requires forall i :: 0 <= i < |presses| ==> presses[i].2 >= 1
    ensures reply.Some? ==> IsReply(p, reply.value)
    ensures Answers(p, presses, screens, reply)
  {
    var model;
    model, screens := Begin(p);
    for i := 0 to |presses|
      invariant fresh(model) && model.Valid() && model.prompt == p
      invariant |screens| == i + 1 && screens[i] == model.Now() && screens[0].chosen == model.initial
      invariant Starts(p, screens[0]) && Chained(Steps(p, presses, model.initial), screens, i)
    {
      var outcome := Play(model, presses, i);
      OneMoreScreen(Steps(p, presses, model.initial), screens, model.Now(), outcome);
      screens := screens + [model.Now()];
      if outcome == Submitted {
        SubmittedIsReply(p, model.chosen);
        return Some(Values(p, model.chosen)), screens;
      }
      if outcome == Cancelled { return None, screens; }
    }
    return None, screens;
  }

  method Begin(p: Prompt) returns (model: ChoiceModel, ghost screens: seq<Screen>)
    requires WellFormed(p)
    ensures fresh(model) && model.Valid() && model.prompt == p
    ensures screens == [model.Now()] && Starts(p, model.Now()) && model.chosen == model.initial
  {
    model := new ChoiceModel(p);
    screens := [model.Now()];
  }

  /** One more key. */
  method Play(model: ChoiceModel, presses: seq<(Press, int, nat)>, i: nat) returns (outcome: Outcome)
    requires model.Valid() && i < |presses| && presses[i].2 >= 1
    modifies model
    ensures model.Valid() && model.initial == old(model.initial)
    ensures outcome == Submitted ==> Blocking(model.prompt, model.chosen) == ""
    ensures Steps(model.prompt, presses, model.initial)(i, old(model.Now()), model.Now(), outcome)
  {
    outcome := model.Update(presses[i].0, presses[i].1, presses[i].2);
  }

  ghost predicate IsReply(p: Prompt, values: seq<string>) {
    && |values| == |p.rows|
    && (forall row :: 0 <= row < |p.rows| ==> values[row] in p.rows[row].options)
    && (p.check.Some? ==> p.check.value(values) == "")
  }

  lemma SubmittedIsReply(p: Prompt, chosen: seq<int>)
    requires Chosen(p, chosen) && Blocking(p, chosen) == ""
    ensures IsReply(p, Values(p, chosen))
  {
  }

  /** So with a group that is empty above it, the focused row can lie below what is visible: of
      these four lines the last has the cursor, and where there is room for three, two are shown. */
  lemma FirstScreenCanMissTheCursor(a: string, b: string)
    requires a != b
    ensures |Lines([a, b], [b])| == 4 && VisibleLines(3, 4) == 2
    ensures !FirstScreenShows([a, b], [b], VisibleLines(3, 4))
  {
    EmptyGroups([a], [b]);
    assert [a, b][..1] == [a];
    assert FirstUsed([a, b], [b]) == 1 by { assert [a, b][1..] == [b]; }
    MembersOfOne(b, b);
    assert RowLines([0]) == [RowLine(0)] by { assert [0][..0] == []; }
    assert LinesOfGroups([a, b], [b]) == LinesOfGroups([a], [b]) + GroupLines([b], 1, b);
  }

  lemma MembersOfOne(value: string, option: string)
    ensures Members([value], option) == if value == option then [0] else []
  {
    assert [value][..0] == [];
  }
}
