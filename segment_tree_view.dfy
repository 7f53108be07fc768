/**
 * The segment tree table: four lifecycle segments, each with two
 * sub-segments.  Parent rows expand and collapse; clicking a column header
 * changes the sort field and direction, which only move the header arrows:
 * rows are always shown in the order of the segment list.
 */
module SegmentTreeView {
  import opened Common

  /** A row of the table; only top-level segments carry children. */
  datatype Segment = Segment(
    id: string,
    name: string,
    users: int,
    avgTicket: real,
    frequency: real,
    daysSinceLastPurchase: int,
    percentOfTotal: int,
    status: Status,
    children: Option<seq<Segment>>,
    isExpanded: bool)

  /** A sub-segment: no children, and no expansion flag (undefined reads as false). */
  function Leaf(id: string, name: string, users: int, avgTicket: real, frequency: real,
                days: int, percent: int, status: Status): Segment
  {
    Segment(id, name, users, avgTicket, frequency, days, percent, status, None, false)
  }

  /** A top-level segment as the sample data declares it: metrics 0, no flag yet. */
  function Parent(id: string, name: string, users: int, percent: int, status: Status,
                  children: seq<Segment>): Segment
  {
    Segment(id, name, users, 0.0, 0.0, 0, percent, status, Some(children), false)
  }

  /** The hard-coded sample tree. */
  const SegmentData: seq<Segment> := [
    Parent("1", "Clientes Ideales", 5420, 32, Ideal, [
      Leaf("1-1", "Compradores frecuentes", 3250, 85.50, 4.2, 12, 19, Ideal),
      Leaf("1-2", "Ticket alto", 2170, 160.25, 1.5, 25, 13, Ideal)]),
    Parent("2", "Clientes en Riesgo", 3840, 22, Risk, [
      Leaf("2-1", "Recencia en riesgo", 2350, 75.40, 2.1, 45, 14, Risk),
      Leaf("2-2", "Frecuencia en caída", 1490, 82.10, 1.2, 30, 8, Risk)]),
    Parent("3", "Clientes Perdidos", 4200, 24, Lost, [
      Leaf("3-1", "Sin compras +180 días", 3100, 54.75, 0.8, 210, 18, Lost),
      Leaf("3-2", "Compradores únicos antiguos", 1100, 42.30, 1.0, 190, 6, Lost)]),
    Parent("4", "Clientes Potenciales", 3840, 22, Potential, [
      Leaf("4-1", "Compradores recientes", 1980, 45.60, 1.1, 15, 12, Potential),
      Leaf("4-2", "Nuevos leads", 1860, 0.0, 0.0, 0, 10, Potential)])
  ]

  // ---------------------------------------------------------------------------
  // Totals
  // ---------------------------------------------------------------------------

  /** `segs.reduce((acc, segment) => acc + segment.users, 0)`. */
  function SumUsers(segs: seq<Segment>): int {
    if segs == [] then 0 else segs[0].users + SumUsers(segs[1..])
  }

  /** The sum of the percentOfTotal column over `segs`. */
  function SumPercent(segs: seq<Segment>): int {
    if segs == [] then 0 else segs[0].percentOfTotal + SumPercent(segs[1..])
  }

  /** The children of a segment, or none. */
  function ChildrenOf(s: Segment): seq<Segment> {
    match s.children
    case Some(cs) => cs
    case None => []
  }

  /** The users total shown in the summary row: the sum over the top-level segments. */
  function TotalUsers(): int {
    SumUsers(SegmentData)
  }

  /** Every parent's users and percentage are the sums over its children. */
  ghost predicate ParentsAreSums(segs: seq<Segment>) {
    forall i :: 0 <= i < |segs| && segs[i].children.Some? ==>
      && segs[i].users == SumUsers(segs[i].children.value)
      && segs[i].percentOfTotal == SumPercent(segs[i].children.value)
  }

  /** The sub-segments of a tree, or the segment itself where it has none. */
  function Leaves(segs: seq<Segment>): seq<Segment> {
    if segs == [] then []
    else
      (if segs[0].children.Some? then segs[0].children.value else [segs[0]]) + Leaves(segs[1..])
  }

  lemma {:induction false} SumUsersConcat(a: seq<Segment>, b: seq<Segment>)
    ensures SumUsers(a + b) == SumUsers(a) + SumUsers(b)
  {
    if a == [] {
      assert a + b == b;
    } else {
      assert (a + b)[1..] == a[1..] + b;
      SumUsersConcat(a[1..], b);
    }
  }

  /**
   * Where every parent is the sum of its children, summing over the
   * top-level segments counts each sub-segment's users exactly once.
   */
  lemma {:induction false} TotalOverLeaves(segs: seq<Segment>)
    requires ParentsAreSums(segs)
    ensures SumUsers(segs) == SumUsers(Leaves(segs))
  {
    if segs != [] {
      assert ParentsAreSums(segs[1..]) by {
        forall i | 0 <= i < |segs[1..]| && segs[1..][i].children.Some?
          ensures segs[1..][i].users == SumUsers(segs[1..][i].children.value)
          ensures segs[1..][i].percentOfTotal == SumPercent(segs[1..][i].children.value)
        {
          assert segs[1..][i] == segs[i + 1];
        }
      }
      TotalOverLeaves(segs[1..]);
      var head := if segs[0].children.Some? then segs[0].children.value else [segs[0]];
      SumUsersConcat(head, Leaves(segs[1..]));
      if segs[0].children.None? {
        assert SumUsers([segs[0]]) == segs[0].users + SumUsers([]);
      }
    }
  }

  /**
   * The sample tree is consistent: each parent's users and percentage are
   * the sums over its two children, the users total is 17300 and the
   * parents' percentages add up to the 100% of the summary row.
   */
  lemma SampleTotals()
    ensures ParentsAreSums(SegmentData)
    ensures TotalUsers() == 17300
    ensures SumPercent(SegmentData) == 100
    ensures SumUsers(Leaves(SegmentData)) == 17300
  {
    var d := SegmentData;
    assert d[0].users == SumUsers(d[0].children.value);
    assert d[1].users == SumUsers(d[1].children.value);
    assert d[2].users == SumUsers(d[2].children.value);
    assert d[3].users == SumUsers(d[3].children.value);
    assert d[0].percentOfTotal == SumPercent(d[0].children.value);
    assert d[1].percentOfTotal == SumPercent(d[1].children.value);
    assert d[2].percentOfTotal == SumPercent(d[2].children.value);
    assert d[3].percentOfTotal == SumPercent(d[3].children.value);
    assert ParentsAreSums(d);
    assert SumUsers(d) == 5420 + SumUsers(d[1..]);
    assert SumUsers(d[1..]) == 3840 + SumUsers(d[2..]);
    assert SumUsers(d[2..]) == 4200 + SumUsers(d[3..]);
    assert SumUsers(d[3..]) == 3840 + SumUsers(d[4..]);
    assert SumPercent(d) == 32 + SumPercent(d[1..]);
    assert SumPercent(d[1..]) == 22 + SumPercent(d[2..]);
    assert SumPercent(d[2..]) == 24 + SumPercent(d[3..]);
    assert SumPercent(d[3..]) == 22 + SumPercent(d[4..]);
    TotalOverLeaves(d);
  }

  /**
   * The hard-coded percentages are not all the rounded share of the total
   * (5420 of 17300 is 31.3%, shown as 32%), but each one is within one
   * point of the exact share.
   */
  lemma SamplePercentagesNearShare()
    ensures forall s :: s in SegmentData + Leaves(SegmentData) ==>
      -17300 < 17300 * s.percentOfTotal - 100 * s.users < 17300
    ensures 2 * 17300 * 31 <= 200 * SegmentData[0].users + 17300 < 2 * 17300 * 32
  {
    var d := SegmentData;
    assert Leaves(d) == d[0].children.value + d[1].children.value + d[2].children.value + d[3].children.value;
  }

  // ---------------------------------------------------------------------------
  // Visible rows and cell rendering
  // ---------------------------------------------------------------------------

  /** A rendered table row. */
  datatype Row = ParentRow(segment: Segment) | ChildRow(segment: Segment)

  /** A parent row, then its child rows only while it is expanded. */
  function Block(s: Segment): seq<Row> {
    [ParentRow(s)] +
    (if s.isExpanded && s.children.Some? then
       seq(|s.children.value|, i requires 0 <= i < |s.children.value| => ChildRow(s.children.value[i]))
     else [])
  }

  /** The table body: the blocks of the segments, in list order. */
  function VisibleRows(segs: seq<Segment>): seq<Row> {
    if segs == [] then [] else Block(segs[0]) + VisibleRows(segs[1..])
  }

  /** The segments of the parent rows, in order. */
  function ParentsOf(rows: seq<Row>): seq<Segment> {
    if rows == [] then []
    else (if rows[0].ParentRow? then [rows[0].segment] else []) + ParentsOf(rows[1..])
  }

  lemma {:induction false} ParentsOfConcat(a: seq<Row>, b: seq<Row>)
    ensures ParentsOf(a + b) == ParentsOf(a) + ParentsOf(b)
  {
    if a == [] {
      assert a + b == b;
    } else {
      var head := if a[0].ParentRow? then [a[0].segment] else [];
      assert (a + b)[0] == a[0];
      assert (a + b)[1..] == a[1..] + b;
      ParentsOfConcat(a[1..], b);
      assert ParentsOf(a + b) == head + ParentsOf(a[1..] + b);
      assert ParentsOf(a) == head + ParentsOf(a[1..]);
    }
  }

  lemma {:induction false} ParentsOfChildRows(rows: seq<Row>)
    requires forall i :: 0 <= i < |rows| ==> rows[i].ChildRow?
    ensures ParentsOf(rows) == []
  {
    if rows != [] {
      ParentsOfChildRows(rows[1..]);
    }
  }

  /**
   * The parent rows show exactly the segment list, in its order: neither
   * expansion nor the sort state reorders or drops a segment.
   */
  lemma {:induction false} ParentRowsInOrder(segs: seq<Segment>)
    ensures ParentsOf(VisibleRows(segs)) == segs
  {
    if segs != [] {
      var b := Block(segs[0]);
      ParentsOfConcat(b, VisibleRows(segs[1..]));
      ParentsOfConcat([ParentRow(segs[0])], b[1..]);
      assert b == [ParentRow(segs[0])] + b[1..];
      ParentsOfChildRows(b[1..]);
      ParentRowsInOrder(segs[1..]);
      assert segs == [segs[0]] + segs[1..];
    }
  }

  /**
   * A child row is shown exactly when some expanded segment of the list has
   * that child.
   */
  lemma {:induction false} ChildRowShownIffExpanded(segs: seq<Segment>, c: Segment)
    ensures ChildRow(c) in VisibleRows(segs) <==>
      exists i :: 0 <= i < |segs| && segs[i].isExpanded && c in ChildrenOf(segs[i])
  {
    if segs != [] {
      ChildRowShownIffExpanded(segs[1..], c);
      var s := segs[0];
      var b := Block(s);
      assert ChildRow(c) in b <==> s.isExpanded && c in ChildrenOf(s) by {
        if s.isExpanded && s.children.Some? && c in s.children.value {
          var j :| 0 <= j < |s.children.value| && s.children.value[j] == c;
          assert b[j + 1] == ChildRow(c);
        }
      }
      assert VisibleRows(segs) == b + VisibleRows(segs[1..]);
      if exists i :: 0 <= i < |segs| && segs[i].isExpanded && c in ChildrenOf(segs[i]) {
        var i :| 0 <= i < |segs| && segs[i].isExpanded && c in ChildrenOf(segs[i]);
        if i > 0 {
          assert segs[1..][i - 1] == segs[i];
        }
      }
      if exists i :: 0 <= i < |segs[1..]| && segs[1..][i].isExpanded && c in ChildrenOf(segs[1..][i]) {
        var i :| 0 <= i < |segs[1..]| && segs[1..][i].isExpanded && c in ChildrenOf(segs[1..][i]);
        assert segs[i + 1] == segs[1..][i];
      }
    }
  }

  /** How many rows the table body has. */
  lemma {:induction false} VisibleRowCount(segs: seq<Segment>)
    ensures |VisibleRows(segs)| == |segs| + ExpandedChildCount(segs)
  {
    if segs != [] {
      VisibleRowCount(segs[1..]);
    }
  }

  /** The number of children under expanded segments. */
  function ExpandedChildCount(segs: seq<Segment>): nat {
    if segs == [] then 0
    else (if segs[0].isExpanded then |ChildrenOf(segs[0])| else 0) + ExpandedChildCount(segs[1..])
  }

  /** A metric column of the table. */
  datatype Metric = Users | AvgTicket | Frequency | DaysSinceLastPurchase | PercentOfTotal

  /** What a metric cell shows: '-' or a number (its formatting is left out). */
  datatype Shown = Dash | Number(value: real)

  /** The value of a metric on a segment. */
  function MetricValue(s: Segment, m: Metric): real {
    match m
    case Users => s.users as real
    case AvgTicket => s.avgTicket
    case Frequency => s.frequency
    case DaysSinceLastPurchase => s.daysSinceLastPurchase as real
    case PercentOfTotal => s.percentOfTotal as real
  }

  /** A metric cell of a row: parents with children show '-' for the three per-customer metrics. */
  function MetricCell(row: Row, m: Metric): Shown {
    match row
    case ParentRow(s) =>
      if s.children.Some? && (m == AvgTicket || m == Frequency || m == DaysSinceLastPurchase) then Dash
      else Number(MetricValue(s, m))
    case ChildRow(s) => Number(MetricValue(s, m))
  }

  /**
   * A cell shows '-' exactly on a parent row whose segment has a children
   * list (even an empty one), in the average ticket, frequency or days
   * columns; every other cell shows the segment's own value.
   */
  lemma DashOnlyOnParents(row: Row, m: Metric)
    ensures MetricCell(row, m) == Dash <==>
      row.ParentRow? && row.segment.children.Some? && m in {AvgTicket, Frequency, DaysSinceLastPurchase}
    ensures MetricCell(row, m) != Dash ==> MetricCell(row, m) == Number(MetricValue(row.segment, m))
  {
  }

  /** The number of '-' cells in a row, over the five metric columns. */
  function RowDashes(row: Row): nat {
    (if MetricCell(row, Users) == Dash then 1 else 0)
    + (if MetricCell(row, AvgTicket) == Dash then 1 else 0)
    + (if MetricCell(row, Frequency) == Dash then 1 else 0)
    + (if MetricCell(row, DaysSinceLastPurchase) == Dash then 1 else 0)
    + (if MetricCell(row, PercentOfTotal) == Dash then 1 else 0)
  }

  /** The number of '-' cells in the table body. */
  function Dashes(rows: seq<Row>): nat {
    if rows == [] then 0 else RowDashes(rows[0]) + Dashes(rows[1..])
  }

  /** The number of segments that have a children list. */
  function WithChildren(segs: seq<Segment>): nat {
    if segs == [] then 0 else (if segs[0].children.Some? then 1 else 0) + WithChildren(segs[1..])
  }

  lemma {:induction false} DashesConcat(a: seq<Row>, b: seq<Row>)
    ensures Dashes(a + b) == Dashes(a) + Dashes(b)
  {
    if a == [] {
      assert a + b == b;
    } else {
      assert (a + b)[0] == a[0];
      assert (a + b)[1..] == a[1..] + b;
      DashesConcat(a[1..], b);
    }
  }

  /** Child rows never show '-'. */
  lemma {:induction false} ChildRowsNoDashes(rows: seq<Row>)
    requires forall i :: 0 <= i < |rows| ==> rows[i].ChildRow?
    ensures Dashes(rows) == 0
  {
    if rows != [] {
      ChildRowsNoDashes(rows[1..]);
    }
  }

  /**
   * Whatever is expanded, the table shows three '-' cells for each segment
   * with a children list, and none elsewhere.
   */
  lemma {:induction false} DashCount(segs: seq<Segment>)
    ensures Dashes(VisibleRows(segs)) == 3 * WithChildren(segs)
  {
    if segs != [] {
      var b := Block(segs[0]);
      DashesConcat(b, VisibleRows(segs[1..]));
      assert b == [ParentRow(segs[0])] + b[1..];
      DashesConcat([ParentRow(segs[0])], b[1..]);
      ChildRowsNoDashes(b[1..]);
      DashCount(segs[1..]);
    }
  }

  /** At mount, with every sample parent expanded, exactly 12 cells show '-'. */
  lemma MountDashes()
    ensures var segs := seq(|SegmentData|, i requires 0 <= i < |SegmentData| =>
        SegmentData[i].(isExpanded := true));
      Dashes(VisibleRows(segs)) == 12
  {
    var segs := seq(|SegmentData|, i requires 0 <= i < |SegmentData| =>
      SegmentData[i].(isExpanded := true));
    DashCount(segs);
    assert forall i :: 0 <= i < |segs| ==> segs[i].children.Some?;
    assert WithChildren(segs[3..]) == 1 by { assert segs[3..][1..] == []; }
    assert WithChildren(segs[2..]) == 2 by { assert segs[2..][1..] == segs[3..]; }
    assert WithChildren(segs[1..]) == 3 by { assert segs[1..][1..] == segs[2..]; }
  }

  // ---------------------------------------------------------------------------
  // Expansion and sorting
  // ---------------------------------------------------------------------------

  /** The segment list with the expansion flag of the segment(s) with `id` flipped. */
  function FlipExpanded(segs: seq<Segment>, id: string): seq<Segment> {
    seq(|segs|, i requires 0 <= i < |segs| =>
      if segs[i].id == id then segs[i].(isExpanded := !segs[i].isExpanded) else segs[i])
  }

  /**
   * Flipping keeps length and order, changes only the flag, and only on
   * the segment with that id; an unknown id changes nothing, and flipping
   * twice restores the list.
   */
  lemma FlipExpandedFacts(segs: seq<Segment>, id: string)
    ensures |FlipExpanded(segs, id)| == |segs|
    ensures forall i :: 0 <= i < |segs| ==>
      && FlipExpanded(segs, id)[i].(isExpanded := segs[i].isExpanded) == segs[i]
      && (FlipExpanded(segs, id)[i].isExpanded != segs[i].isExpanded <==> segs[i].id == id)
    ensures (forall i :: 0 <= i < |segs| ==> segs[i].id != id) ==> FlipExpanded(segs, id) == segs
    ensures FlipExpanded(FlipExpanded(segs, id), id) == segs
  {
  }

  /** A sort direction. */
  datatype Direction = Asc | Desc

  /** The header arrow of a column. */
  datatype Arrow = Up | Down

  /**
   * The sort state after a click on `field`: the field is always the
   * clicked one; the direction is descending only when the same field was
   * already ascending.
   */
  function NextSort(sortField: Option<string>, dir: Direction, field: string): (Option<string>, Direction) {
    var isAsc := sortField == Some(field) && dir == Asc;
    (Some(field), if isAsc then Desc else Asc)
  }

  /** The arrow next to a column header, if that column is the sort field. */
  function HeaderArrow(sortField: Option<string>, dir: Direction, column: string): Option<Arrow> {
    if sortField == Some(column) then Some(if dir == Asc then Up else Down) else None
  }

  /**
   * The sort state machine: a new field starts ascending, the same field
   * alternates, and afterwards only the clicked column shows an arrow.
   */
  lemma SortTransitions(sortField: Option<string>, dir: Direction, field: string)
    ensures NextSort(sortField, dir, field).0 == Some(field)
    ensures sortField != Some(field) ==> NextSort(sortField, dir, field).1 == Asc
    ensures sortField == Some(field) && dir == Asc ==> NextSort(sortField, dir, field).1 == Desc
    ensures sortField == Some(field) && dir == Desc ==> NextSort(sortField, dir, field).1 == Asc
    ensures var (f, d) := NextSort(sortField, dir, field);
      forall column :: HeaderArrow(f, d, column).Some? <==> column == field
  {
  }

  /** The tree view component's state. */
  class TreeView {
    var segments: seq<Segment>
    var sortField: Option<string>
    var sortDirection: Direction
    var selectedSegment: Option<Segment>

    /** The rows the table body renders: they depend on the segment list only. */
    function Rows(): seq<Row>
      reads this
    {
      VisibleRows(segments)
    }

    /** Mount: every top-level segment expanded, no sort field, direction descending. */
    constructor ()
      ensures |segments| == |SegmentData|
      ensures forall i :: 0 <= i < |segments| ==>
        segments[i] == SegmentData[i].(isExpanded := true)
      ensures sortField == None && sortDirection == Desc && selectedSegment == None
    {
      segments := seq(|SegmentData|, i requires 0 <= i < |SegmentData| =>
        SegmentData[i].(isExpanded := true));
      sortField := None;
      sortDirection := Desc;
      selectedSegment := None;
    }

    /** handleToggleExpand: flip the flag of the segment with that id. */
    method HandleToggleExpand(id: string)
      modifies this`segments
      ensures segments == FlipExpanded(old(segments), id)
      ensures |segments| == |old(segments)|
      ensures forall i :: 0 <= i < |segments| ==>
        && segments[i].(isExpanded := old(segments)[i].isExpanded) == old(segments)[i]
        && (segments[i].isExpanded != old(segments)[i].isExpanded <==> old(segments)[i].id == id)
    {
      FlipExpandedFacts(segments, id);
      segments := FlipExpanded(segments, id);
    }

    /** handleSort: update the sort field and direction; the rows are untouched. */
    method HandleSort(field: string)
      modifies this`sortField, this`sortDirection
      ensures (sortField, sortDirection) == NextSort(old(sortField), old(sortDirection), field)
      ensures sortField == Some(field)
      ensures Rows() == old(Rows())
    {
      var isAsc := sortField == Some(field) && sortDirection == Asc;
      sortDirection := if isAsc then Desc else Asc;
      sortField := Some(field);
    }

    /** handleViewCustomers: remember the segment (the notification is left out). */
    method HandleViewCustomers(segment: Segment)
      modifies this`selectedSegment
      ensures selectedSegment == Some(segment)
    {
      selectedSegment := Some(segment);
    }
  }

  /** Right after mount, all twelve rows are visible: four parents, eight children. */
  lemma InitialRows()
    ensures var segs := seq(|SegmentData|, i requires 0 <= i < |SegmentData| =>
        SegmentData[i].(isExpanded := true));
      |VisibleRows(segs)| == 12 && ParentsOf(VisibleRows(segs)) == segs
  {
    var segs := seq(|SegmentData|, i requires 0 <= i < |SegmentData| =>
      SegmentData[i].(isExpanded := true));
    VisibleRowCount(segs);
    ParentRowsInOrder(segs);
    assert ExpandedChildCount(segs) == 2 + ExpandedChildCount(segs[1..]);
    assert ExpandedChildCount(segs[1..]) == 2 + ExpandedChildCount(segs[2..]);
    assert ExpandedChildCount(segs[2..]) == 2 + ExpandedChildCount(segs[3..]);
    assert ExpandedChildCount(segs[3..]) == 2 + ExpandedChildCount(segs[4..]);
  }
}
