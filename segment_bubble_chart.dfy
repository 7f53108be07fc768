/**
 * The segment heatmap: a 6 x 5 grid of cells over average-order-value labels
 * (x) and purchase frequencies 1..5 (y).  Each cell gets a lifecycle status
 * from its coordinates, a user count (random, or one of twelve fixed values),
 * a percentage of all users and a colour intensity.  The component state
 * holds the cells, the chosen axes, the selected cell ids and the user total.
 *
 * `Math.random` is not modelled as a generator: its draws are inputs,
 * constrained to the ranges the source maps them to.
 */
module SegmentBubbleChart {
  import opened Common
  import Selection

  /** One heatmap cell (the source's SegmentData without avgTicket). */
  datatype Cell = Cell(
    xValue: string,
    yValue: int,
    users: int,
    status: Status,
    daysSinceLastPurchase: int,
    id: string)

  /** Average order value labels, in generation and display order. */
  const XLabels: seq<string> := ["<1", "1,2", "2,3", "4,4", "0,5", "4"]

  /** Purchase frequencies, in generation order. */
  const YValues: seq<int> := [1, 2, 3, 4, 5]

  /** Purchase frequencies, top row first, as the grid is rendered. */
  const GridYValues: seq<int> := [5, 4, 3, 2, 1]

  /** Number of cells the generator produces: one per (x label, y value). */
  const CellCount: nat := 30

  // ---------------------------------------------------------------------------
  // Status rule and user counts
  // ---------------------------------------------------------------------------

  /** The status rule: the first matching rule wins, potential otherwise. */
  function StatusOf(x: string, y: int): Status {
    if x == "2,3" && (y == 3 || y == 4) then Risk
    else if y >= 4 && (x == "4" || x == "0,5") then Ideal
    else if y <= 2 && (x == "<1" || x == "1,2") then Lost
    else Potential
  }

  /** The risk region: the x label '2,3' at frequencies 3 and 4. */
  predicate InRiskRegion(x: string, y: int) { x == "2,3" && (y == 3 || y == 4) }

  /** The ideal region: frequency at least 4 for the labels '4' and '0,5'. */
  predicate InIdealRegion(x: string, y: int) { y >= 4 && (x == "4" || x == "0,5") }

  /** The lost region: frequency at most 2 for the labels '<1' and '1,2'. */
  predicate InLostRegion(x: string, y: int) { y <= 2 && (x == "<1" || x == "1,2") }

  /**
   * The three regions never overlap, so the first-match order decides
   * nothing: each status holds exactly on its own region, and potential
   * exactly outside all three.
   */
  lemma StatusRegionsDisjoint(x: string, y: int)
    ensures !(InRiskRegion(x, y) && InIdealRegion(x, y))
    ensures !(InRiskRegion(x, y) && InLostRegion(x, y))
    ensures !(InIdealRegion(x, y) && InLostRegion(x, y))
    ensures StatusOf(x, y) == Risk <==> InRiskRegion(x, y)
    ensures StatusOf(x, y) == Ideal <==> InIdealRegion(x, y)
    ensures StatusOf(x, y) == Lost <==> InLostRegion(x, y)
    ensures StatusOf(x, y) == Potential <==>
      !InRiskRegion(x, y) && !InIdealRegion(x, y) && !InLostRegion(x, y)
  {
  }

  /** The twelve cells whose user count is fixed rather than random. */
  function FixedUsers(x: string, y: int): Option<int> {
    if x == "2,3" && y == 3 then Some(32)
    else if x == "2,3" && y == 4 then Some(32)
    else if x == "<1" && y == 1 then Some(43)
    else if x == "1,2" && y == 1 then Some(31)
    else if x == "1,2" && y == 2 then Some(16)
    else if x == "2,3" && y == 1 then Some(22)
    else if x == "4,4" && y == 1 then Some(23)
    else if x == "<1" && y == 2 then Some(12)
    else if x == "4,4" && y == 2 then Some(10)
    else if x == "1,2" && y == 3 then Some(11)
    else if x == "4,4" && y == 3 then Some(6)
    else if x == "<1" && y == 3 then Some(6)
    else None
  }

  /** The user count of a cell: its fixed value, or else the random draw. */
  function UsersFor(x: string, y: int, draw: int): int {
    match FixedUsers(x, y)
    case Some(n) => n
    case None => draw
  }

  /** `Math.floor(Math.random() * 30) + 1` lies in 1..30. */
  predicate ValidUserDraw(d: int) { 1 <= d <= 30 }

  /** `Math.floor(Math.random() * 200) + 1` lies in 1..200. */
  predicate ValidDayDraw(d: int) { 1 <= d <= 200 }

  /** One draw of each kind per generated cell, each in its range. */
  predicate ValidDraws(userDraws: seq<int>, dayDraws: seq<int>) {
    && |userDraws| == CellCount
    && |dayDraws| == CellCount
    && (forall k :: 0 <= k < |userDraws| ==> ValidUserDraw(userDraws[k]))
    && (forall k :: 0 <= k < |dayDraws| ==> ValidDayDraw(dayDraws[k]))
  }

  /** Every fixed count is at least 1, so every cell has users >= 1. */
  lemma UsersForPositive(x: string, y: int, draw: int)
    requires ValidUserDraw(draw)
    ensures 1 <= UsersFor(x, y, draw) <= 43
    ensures FixedUsers(x, y).None? ==> UsersFor(x, y, draw) == draw
  {
  }

  // ---------------------------------------------------------------------------
  // Cell ids: `segment-${id}`
  // ---------------------------------------------------------------------------

  /** The decimal digit character for d. */
  function DigitChar(d: nat): char
    requires d < 10
  {
    (('0' as int) + d) as char
  }

  /** The decimal rendering of a natural number, as in a template literal. */
  function DecimalString(n: nat): (s: string)
    ensures |s| >= 1
    ensures |s| == 1 <==> n < 10
  {
    if n < 10 then [DigitChar(n)] else DecimalString(n / 10) + [DigitChar(n % 10)]
  }

  /** Different numbers render differently. */
  lemma {:induction false} DecimalStringInjective(a: nat, b: nat)
    requires DecimalString(a) == DecimalString(b)
    ensures a == b
  {
    if a >= 10 && b >= 10 {
      var sa, sb := DecimalString(a), DecimalString(b);
      assert sa[|sa| - 1] == DigitChar(a % 10);
      assert sb[|sb| - 1] == DigitChar(b % 10);
      assert sa[..|sa| - 1] == DecimalString(a / 10);
      assert sb[..|sb| - 1] == DecimalString(b / 10);
      DecimalStringInjective(a / 10, b / 10);
    } else if a < 10 && b < 10 {
      assert DecimalString(a)[0] == DigitChar(a);
    }
  }

  /** The id of the n-th generated cell. */
  function CellId(n: nat): string {
    "segment-" + DecimalString(n)
  }

  /** Different counters give different ids. */
  lemma CellIdInjective(a: nat, b: nat)
    ensures CellId(a) == CellId(b) <==> a == b
  {
    if CellId(a) == CellId(b) {
      assert CellId(a)[8..] == DecimalString(a);
      assert CellId(b)[8..] == DecimalString(b);
      DecimalStringInjective(a, b);
    }
  }

  // ---------------------------------------------------------------------------
  // Generation
  // ---------------------------------------------------------------------------

  /** The k-th generated cell (x label k / 5, y value k % 5 + 1, id k + 1). */
  function GeneratedCell(k: nat, userDraw: int, dayDraw: int): Cell
    requires k < CellCount
  {
    var x := XLabels[k / 5];
    var y := YValues[k % 5];
    Cell(x, y, UsersFor(x, y, userDraw), StatusOf(x, y), dayDraw, CellId(k + 1))
  }

  /** What the generator returns for the given random draws. */
  function Heatmap(userDraws: seq<int>, dayDraws: seq<int>): (d: seq<Cell>)
    requires |userDraws| == CellCount && |dayDraws| == CellCount
    ensures |d| == CellCount
  {
    seq(CellCount, k requires 0 <= k < CellCount => GeneratedCell(k, userDraws[k], dayDraws[k]))
  }

  /** The cell generated for (XLabels[xi], YValues[yi]). */
  lemma HeatmapAt(userDraws: seq<int>, dayDraws: seq<int>, xi: nat, yi: nat)
    requires ValidDraws(userDraws, dayDraws)
    requires xi < |XLabels| && yi < |YValues|
    ensures var k := 5 * xi + yi;
      && k < CellCount
      && Heatmap(userDraws, dayDraws)[k] == Cell(XLabels[xi], YValues[yi],
           UsersFor(XLabels[xi], YValues[yi], userDraws[k]), StatusOf(XLabels[xi], YValues[yi]),
           dayDraws[k], CellId(k + 1))
  {
    var k := 5 * xi + yi;
    assert k / 5 == xi && k % 5 == yi;
  }

  /** The generator's if-chain deciding a cell's status. */
  method DecideStatus(xValue: string, yValue: int) returns (status: Status)
    ensures status == StatusOf(xValue, yValue)
  {
    if xValue == "2,3" && (yValue == 3 || yValue == 4) {
      status := Risk;
    } else if yValue >= 4 && (xValue == "4" || xValue == "0,5") {
      status := Ideal;
    } else if yValue <= 2 && (xValue == "<1" || xValue == "1,2") {
      status := Lost;
    } else {
      status := Potential;
    }
  }

  /**
   * The twelve overrides of the random user count, applied one after the
   * other as in the generator's loop body.
   */
  method ApplyFixedUsers(xValue: string, yValue: int, draw: int) returns (users: int)
    ensures users == UsersFor(xValue, yValue, draw)
  {
    users := draw;
    if xValue == "2,3" && yValue == 3 { users := 32; }
    if xValue == "2,3" && yValue == 4 { users := 32; }
    if xValue == "<1" && yValue == 1 { users := 43; }
    if xValue == "1,2" && yValue == 1 { users := 31; }
    if xValue == "1,2" && yValue == 2 { users := 16; }
    if xValue == "2,3" && yValue == 1 { users := 22; }
    if xValue == "4,4" && yValue == 1 { users := 23; }
    if xValue == "<1" && yValue == 2 { users := 12; }
    if xValue == "4,4" && yValue == 2 { users := 10; }
    if xValue == "1,2" && yValue == 3 { users := 11; }
    if xValue == "4,4" && yValue == 3 { users := 6; }
    if xValue == "<1" && yValue == 3 { users := 6; }
  }

  /**
   * generateHeatmapData: for each x label, for each y value, decide the
   * status, the user count and the id, and push the cell.
   */
  method GenerateHeatmapData(userDraws: seq<int>, dayDraws: seq<int>) returns (data: seq<Cell>)
    requires ValidDraws(userDraws, dayDraws)
    ensures data == Heatmap(userDraws, dayDraws)
  {
    ghost var h := Heatmap(userDraws, dayDraws);
    data := [];
    var id := 1;
    for xi := 0 to |XLabels|
      invariant id == 5 * xi + 1
      invariant data == h[..5 * xi]
    {
      var xValue := XLabels[xi];
      for yi := 0 to |YValues|
        invariant id == 5 * xi + yi + 1
        invariant data == h[..5 * xi + yi]
      {
        var yValue := YValues[yi];
        var status := DecideStatus(xValue, yValue);
        var users := ApplyFixedUsers(xValue, yValue, userDraws[id - 1]);
        ghost var k := 5 * xi + yi;
        PrefixStep(h, k, Cell(xValue, yValue, users, status, dayDraws[id - 1], CellId(id))) by {
          HeatmapAt(userDraws, dayDraws, xi, yi);
        }
        data := data + [Cell(xValue, yValue, users, status, dayDraws[id - 1], CellId(id))];
        id := id + 1;
      }
      assert 5 * xi + |YValues| == 5 * (xi + 1);
    }
    assert h[..CellCount] == h;
  }

  /** Extending a prefix by the next element. */
  lemma PrefixStep(h: seq<Cell>, k: nat, c: Cell)
    requires k < |h| && h[k] == c
    ensures h[..k + 1] == h[..k] + [c]
  {
  }

  /** The x labels are pairwise different. */
  lemma XLabelsDistinct()
    ensures forall i, j :: 0 <= i < j < |XLabels| ==> XLabels[i] != XLabels[j]
  {
    assert XLabels[0] == "<1" && XLabels[1] == "1,2" && XLabels[2] == "2,3";
    assert XLabels[3] == "4,4" && XLabels[4] == "0,5" && XLabels[5] == "4";
    assert XLabels[0][0] == '<' && XLabels[1][0] == '1' && XLabels[2][0] == '2';
    assert XLabels[3][0] == '4' && XLabels[4][0] == '0' && |XLabels[5]| == 1 && |XLabels[3]| == 3;
  }

  /** The cell at index 5 * xi + yi has coordinates (XLabels[xi], YValues[yi]). */
  ghost predicate At(d: seq<Cell>, xi: int, yi: int) {
    && 0 <= xi < |XLabels| && 0 <= yi < |YValues| && 5 * xi + yi < |d|
    && d[5 * xi + yi].xValue == XLabels[xi] && d[5 * xi + yi].yValue == YValues[yi]
  }

  /**
   * The cells are laid out column by column: the one at index 5 * xi + yi
   * is at (XLabels[xi], YValues[yi]).
   */
  ghost predicate LaidOut(d: seq<Cell>) {
    && |d| == CellCount
    && forall xi, yi :: 0 <= xi < |XLabels| && 0 <= yi < |YValues| ==> At(d, xi, yi)
  }

  /** The generator lays its cells out column by column, the k-th with id `segment-(k+1)`. */
  lemma HeatmapLaidOut(userDraws: seq<int>, dayDraws: seq<int>)
    requires ValidDraws(userDraws, dayDraws)
    ensures LaidOut(Heatmap(userDraws, dayDraws))
    ensures forall k :: 0 <= k < CellCount ==> Heatmap(userDraws, dayDraws)[k].id == CellId(k + 1)
  {
    forall xi, yi | 0 <= xi < |XLabels| && 0 <= yi < |YValues|
      ensures At(Heatmap(userDraws, dayDraws), xi, yi)
    {
      HeatmapAt(userDraws, dayDraws, xi, yi);
    }
  }

  /** A laid-out grid has pairwise different coordinates. */
  lemma LaidOutUnique(d: seq<Cell>)
    requires LaidOut(d)
    ensures forall i, j :: 0 <= i < j < |d| ==>
      (d[i].xValue, d[i].yValue) != (d[j].xValue, d[j].yValue)
  {
    XLabelsDistinct();
    forall i, j | 0 <= i < j < |d|
      ensures (d[i].xValue, d[i].yValue) != (d[j].xValue, d[j].yValue)
    {
      assert 5 * (i / 5) + i % 5 == i && 5 * (j / 5) + j % 5 == j;
      assert i / 5 != j / 5 || i % 5 != j % 5;
      assert At(d, i / 5, i % 5) && At(d, j / 5, j % 5);
    }
  }

  /** In a laid-out grid, the pair (XLabels[xi], YValues[yi]) is at index 5 * xi + yi. */
  lemma LaidOutAt(d: seq<Cell>, xi: int, yi: int)
    requires LaidOut(d)
    requires 0 <= xi < |XLabels| && 0 <= yi < |YValues|
    ensures d[5 * xi + yi].xValue == XLabels[xi] && d[5 * xi + yi].yValue == YValues[yi]
  {
    assert At(d, xi, yi);
  }

  /** Ids numbered by position are pairwise different. */
  lemma NumberedIdsDistinct(d: seq<Cell>)
    requires forall k :: 0 <= k < |d| ==> d[k].id == CellId(k + 1)
    ensures forall i, j :: 0 <= i < j < |d| ==> d[i].id != d[j].id
  {
    forall i, j | 0 <= i < j < |d| ensures d[i].id != d[j].id {
      CellIdInjective(i + 1, j + 1);
    }
  }

  /** Every laid-out grid numbered by position has unique coordinates and ids. */
  lemma LaidOutShape(d: seq<Cell>)
    requires LaidOut(d)
    requires forall k :: 0 <= k < |d| ==> d[k].id == CellId(k + 1)
    ensures forall i, j :: 0 <= i < j < |d| ==>
      (d[i].xValue, d[i].yValue) != (d[j].xValue, d[j].yValue) && d[i].id != d[j].id
    ensures forall x, y :: x in XLabels && y in YValues ==>
      exists k :: 0 <= k < |d| && d[k].xValue == x && d[k].yValue == y
  {
    LaidOutUnique(d);
    NumberedIdsDistinct(d);
    forall x, y | x in XLabels && y in YValues
      ensures exists k :: 0 <= k < |d| && d[k].xValue == x && d[k].yValue == y
    {
      var xi :| 0 <= xi < |XLabels| && XLabels[xi] == x;
      var yi :| 0 <= yi < |YValues| && YValues[yi] == y;
      LaidOutAt(d, xi, yi);
    }
  }

  /**
   * The generator yields 30 cells, exactly one per (x label, y value) pair,
   * with the distinct ids `segment-1` .. `segment-30`.
   */
  lemma HeatmapShape(userDraws: seq<int>, dayDraws: seq<int>)
    requires ValidDraws(userDraws, dayDraws)
    ensures var d := Heatmap(userDraws, dayDraws);
      && |d| == CellCount
      && (forall i, j :: 0 <= i < j < |d| ==>
            (d[i].xValue, d[i].yValue) != (d[j].xValue, d[j].yValue) && d[i].id != d[j].id)
      && (forall x, y :: x in XLabels && y in YValues ==>
            exists k :: 0 <= k < |d| && d[k].xValue == x && d[k].yValue == y)
      && (forall k :: 0 <= k < |d| ==> d[k].id == CellId(k + 1))
  {
    HeatmapLaidOut(userDraws, dayDraws);
    LaidOutShape(Heatmap(userDraws, dayDraws));
  }

  /**
   * Every cell has at least one user: its random draw (1..30) or its fixed
   * count, e.g. ('<1', 1) has 43 and ('2,3', 3) has 32.
   */
  lemma HeatmapUsers(userDraws: seq<int>, dayDraws: seq<int>)
    requires ValidDraws(userDraws, dayDraws)
    ensures var d := Heatmap(userDraws, dayDraws);
      && (forall k :: 0 <= k < |d| ==> 1 <= d[k].users <= 43)
      && (forall k :: 0 <= k < |d| && FixedUsers(d[k].xValue, d[k].yValue).None? ==>
            d[k].users == userDraws[k])
      && d[0].users == 43 && d[12].users == 32
  {
    var d := Heatmap(userDraws, dayDraws);
    forall k | 0 <= k < |d| ensures 1 <= d[k].users <= 43 {
      UsersForPositive(d[k].xValue, d[k].yValue, userDraws[k]);
    }
    assert d[12].xValue == "2,3" && d[12].yValue == 3;
  }

  /** The statuses of a cell list, in order. */
  function Statuses(d: seq<Cell>): (s: seq<Status>)
    ensures |s| == |d|
  {
    seq(|d|, k requires 0 <= k < |d| => d[k].status)
  }

  /** How many entries of `s` are `t`. */
  function Count(s: seq<Status>, t: Status): nat {
    if s == [] then 0 else (if s[0] == t then 1 else 0) + Count(s[1..], t)
  }

  lemma {:induction false} CountConcat(a: seq<Status>, b: seq<Status>, t: Status)
    ensures Count(a + b, t) == Count(a, t) + Count(b, t)
  {
    if a != [] {
      assert (a + b)[0] == a[0];
      assert (a + b)[1..] == a[1..] + b;
      CountConcat(a[1..], b, t);
    } else {
      assert a + b == b;
    }
  }

  /** Every cell carries the status the rule gives its coordinates. */
  ghost predicate Classified(d: seq<Cell>) {
    forall k :: 0 <= k < |d| ==> d[k].status == StatusOf(d[k].xValue, d[k].yValue)
  }

  /** The generator classifies every cell by the status rule. */
  lemma HeatmapClassified(userDraws: seq<int>, dayDraws: seq<int>)
    requires ValidDraws(userDraws, dayDraws)
    ensures Classified(Heatmap(userDraws, dayDraws))
  {
  }

  /** The statuses the rule gives one x label, frequency 1 to 5. */
  function Column(x: string): seq<Status> {
    [StatusOf(x, 1), StatusOf(x, 2), StatusOf(x, 3), StatusOf(x, 4), StatusOf(x, 5)]
  }

  lemma ColumnSlice(d: seq<Cell>, xi: nat)
    requires LaidOut(d) && Classified(d) && xi < |XLabels|
    ensures Statuses(d)[5 * xi .. 5 * xi + 5] == Column(XLabels[xi])
  {
    var s := Statuses(d)[5 * xi .. 5 * xi + 5];
    forall yi | 0 <= yi < 5 ensures s[yi] == Column(XLabels[xi])[yi] {
      var k := 5 * xi + yi;
      LaidOutAt(d, xi, yi);
      assert s[yi] == d[k].status;
    }
  }

  lemma CountSix(c0: seq<Status>, c1: seq<Status>, c2: seq<Status>, c3: seq<Status>,
                 c4: seq<Status>, c5: seq<Status>, t: Status)
    ensures Count(c0 + c1 + c2 + c3 + c4 + c5, t)
      == Count(c0, t) + Count(c1, t) + Count(c2, t) + Count(c3, t) + Count(c4, t) + Count(c5, t)
  {
    CountConcat(c0, c1, t);
    CountConcat(c0 + c1, c2, t);
    CountConcat(c0 + c1 + c2, c3, t);
    CountConcat(c0 + c1 + c2 + c3, c4, t);
    CountConcat(c0 + c1 + c2 + c3 + c4, c5, t);
  }

  /** A status count over the grid is the sum of its counts per x label. */
  lemma CountByColumn(s: seq<Status>, t: Status)
    requires |s| == CellCount
    requires s[..5] == Column(XLabels[0]) && s[5..10] == Column(XLabels[1])
    requires s[10..15] == Column(XLabels[2]) && s[15..20] == Column(XLabels[3])
    requires s[20..25] == Column(XLabels[4]) && s[25..] == Column(XLabels[5])
    ensures Count(s, t) == Count(Column(XLabels[0]), t) + Count(Column(XLabels[1]), t)
      + Count(Column(XLabels[2]), t) + Count(Column(XLabels[3]), t) + Count(Column(XLabels[4]), t)
      + Count(Column(XLabels[5]), t)
  {
    assert s == s[..5] + s[5..10] + s[10..15] + s[15..20] + s[20..25] + s[25..];
    CountSix(s[..5], s[5..10], s[10..15], s[15..20], s[20..25], s[25..], t);
  }

  /** The status rule, column by column. */
  lemma ColumnsSpelledOut()
    ensures Column(XLabels[0]) == [Lost, Lost, Potential, Potential, Potential]
    ensures Column(XLabels[1]) == [Lost, Lost, Potential, Potential, Potential]
    ensures Column(XLabels[2]) == [Potential, Potential, Risk, Risk, Potential]
    ensures Column(XLabels[3]) == [Potential, Potential, Potential, Potential, Potential]
    ensures Column(XLabels[4]) == [Potential, Potential, Potential, Ideal, Ideal]
    ensures Column(XLabels[5]) == [Potential, Potential, Potential, Ideal, Ideal]
  {
  }

  lemma LiteralColumnCounts()
    ensures var low := [Lost, Lost, Potential, Potential, Potential];
      Count(low, Lost) == 2 && Count(low, Risk) == 0 && Count(low, Ideal) == 0 && Count(low, Potential) == 3
    ensures var risky := [Potential, Potential, Risk, Risk, Potential];
      Count(risky, Lost) == 0 && Count(risky, Risk) == 2 && Count(risky, Ideal) == 0 && Count(risky, Potential) == 3
    ensures var flat := [Potential, Potential, Potential, Potential, Potential];
      Count(flat, Lost) == 0 && Count(flat, Risk) == 0 && Count(flat, Ideal) == 0 && Count(flat, Potential) == 5
    ensures var high := [Potential, Potential, Potential, Ideal, Ideal];
      Count(high, Lost) == 0 && Count(high, Risk) == 0 && Count(high, Ideal) == 2 && Count(high, Potential) == 3
  {
  }

  /** The generated statuses, column by column, are the rule's columns. */
  lemma HeatmapColumns(userDraws: seq<int>, dayDraws: seq<int>)
    requires ValidDraws(userDraws, dayDraws)
    ensures var s := Statuses(Heatmap(userDraws, dayDraws));
      && |s| == CellCount
      && s[..5] == Column(XLabels[0]) && s[5..10] == Column(XLabels[1])
      && s[10..15] == Column(XLabels[2]) && s[15..20] == Column(XLabels[3])
      && s[20..25] == Column(XLabels[4]) && s[25..] == Column(XLabels[5])
  {
    var d := Heatmap(userDraws, dayDraws);
    HeatmapLaidOut(userDraws, dayDraws);
    HeatmapClassified(userDraws, dayDraws);
    ColumnSlice(d, 0);
    ColumnSlice(d, 1);
    ColumnSlice(d, 2);
    ColumnSlice(d, 3);
    ColumnSlice(d, 4);
    ColumnSlice(d, 5);
    assert Statuses(d)[25..] == Statuses(d)[25..30];
  }

  /** The generated grid has 2 risk, 4 ideal, 4 lost and 20 potential cells. */
  lemma HeatmapStatusCounts(userDraws: seq<int>, dayDraws: seq<int>)
    requires ValidDraws(userDraws, dayDraws)
    ensures var s := Statuses(Heatmap(userDraws, dayDraws));
      Count(s, Risk) == 2 && Count(s, Ideal) == 4 && Count(s, Lost) == 4 && Count(s, Potential) == 20
  {
    var s := Statuses(Heatmap(userDraws, dayDraws));
    HeatmapColumns(userDraws, dayDraws);
    ColumnsSpelledOut();
    LiteralColumnCounts();
    CountByColumn(s, Lost);
    CountByColumn(s, Risk);
    CountByColumn(s, Ideal);
    CountByColumn(s, Potential);
  }

  // ---------------------------------------------------------------------------
  // Totals, percentages and colour intensity
  // ---------------------------------------------------------------------------

  /** `heatmapData.reduce((sum, segment) => sum + segment.users, 0)`. */
  function SumUsers(d: seq<Cell>): int {
    if d == [] then 0 else SumUsers(d[..|d| - 1]) + d[|d| - 1].users
  }

  /** Every cell has at least one user. */
  predicate AllPopulated(d: seq<Cell>) {
    forall k :: 0 <= k < |d| ==> d[k].users >= 1
  }

  /** The total is at least the number of cells, and at least each cell's count. */
  lemma {:induction false} SumUsersBounds(d: seq<Cell>)
    requires AllPopulated(d)
    ensures SumUsers(d) >= |d|
    ensures forall k :: 0 <= k < |d| ==> d[k].users <= SumUsers(d)
  {
    if d != [] {
      var p := d[..|d| - 1];
      assert AllPopulated(p) by {
        forall k | 0 <= k < |p| ensures p[k].users >= 1 { assert p[k] == d[k]; }
      }
      SumUsersBounds(p);
      forall k | 0 <= k < |d| ensures d[k].users <= SumUsers(d) {
        if k < |p| { assert p[k] == d[k]; }
      }
    }
  }

  /**
   * getUserPercentage: 0 while the total is not positive, otherwise
   * `Math.round(users / total * 100)`, the nearest integer with halves
   * rounded up.
   */
  function UserPercentage(users: int, totalUsers: int): (p: int)
    ensures totalUsers <= 0 ==> p == 0
    ensures totalUsers > 0 ==>
      2 * totalUsers * p <= 200 * users + totalUsers < 2 * totalUsers * (p + 1)
  {
    if totalUsers > 0 then
      var q := (200 * users + totalUsers) / (2 * totalUsers);
      assert (2 * totalUsers) * q <= 200 * users + totalUsers < (2 * totalUsers) * (q + 1);
      q
    else 0
  }

  /** A count no larger than the total gets a percentage in 0..100. */
  lemma {:induction false} UserPercentageInRange(users: int, totalUsers: int)
    requires 0 <= users <= totalUsers
    ensures 0 <= UserPercentage(users, totalUsers) <= 100
  {
    if totalUsers > 0 {
      var p := UserPercentage(users, totalUsers);
      var t := 2 * totalUsers;
      assert t * p <= 200 * users + totalUsers < t * (p + 1);
      if p < 0 {
        assert t * (p + 1) <= 0 by { MulNonPositive(t, p + 1); }
      }
      if p > 100 {
        assert t * p >= t * 101 by { MulMonotone(t, 101, p); }
      }
    }
  }

  lemma MulNonPositive(t: int, n: int)
    requires t > 0 && n <= 0
    ensures t * n <= 0
  {
  }

  lemma MulMonotone(t: int, a: int, b: int)
    requires t > 0 && a <= b
    ensures t * a <= t * b
  {
  }

  /** Against the sum of all cells, every cell's percentage lies in 0..100. */
  lemma CellPercentageInRange(d: seq<Cell>, k: nat)
    requires AllPopulated(d) && k < |d|
    ensures 0 <= UserPercentage(d[k].users, SumUsers(d)) <= 100
    ensures SumUsers(d) > 0
  {
    SumUsersBounds(d);
    UserPercentageInRange(d[k].users, SumUsers(d));
  }

  /** `Math.max(...heatmapData.map(d => d.users))`, for a non-empty list. */
  function MaxUsers(d: seq<Cell>): (m: int)
    requires |d| > 0
    ensures forall k :: 0 <= k < |d| ==> d[k].users <= m
    ensures exists k :: 0 <= k < |d| && d[k].users == m
  {
    if |d| == 1 then d[0].users
    else
      var rest := MaxUsers(d[1..]);
      assert forall k :: 1 <= k < |d| ==> d[k] == d[1..][k - 1];
      if d[0].users >= rest then d[0].users else rest
  }

  /**
   * getColorIntensity: `users / max`, clamped into [0.3, 1].  With no cells
   * the maximum is -Infinity, the ratio is not positive and the intensity
   * is the floor 0.3.
   */
  function ColorIntensity(users: int, d: seq<Cell>): (r: real)
    requires AllPopulated(d)
    ensures 0.3 <= r <= 1.0
    ensures |d| == 0 ==> r == 0.3
    ensures |d| > 0 && (users as real) / (MaxUsers(d) as real) <= 0.3 ==> r == 0.3
    ensures |d| > 0 && users >= MaxUsers(d) ==> r == 1.0
    ensures |d| > 0 && 0 <= users <= MaxUsers(d) && (users as real) / (MaxUsers(d) as real) >= 0.3 ==>
      r == (users as real) / (MaxUsers(d) as real)
  {
    if |d| == 0 then 0.3
    else
      var m := MaxUsers(d) as real;
      assert m >= 1.0 by { assert d[0].users >= 1; }
      var ratio := (users as real) / m;
      RatioAgainstMax(users as real, m);
      Clamp(ratio)
  }

  /** `Math.max(0.3, Math.min(1, ratio))`. */
  function Clamp(ratio: real): (r: real)
    ensures 0.3 <= r <= 1.0
    ensures ratio >= 1.0 ==> r == 1.0
    ensures ratio <= 0.3 ==> r == 0.3
    ensures 0.3 <= ratio <= 1.0 ==> r == ratio
  {
    var capped := if 1.0 <= ratio then 1.0 else ratio;
    if 0.3 >= capped then 0.3 else capped
  }

  /** A ratio against a positive maximum is at least 1 exactly from the maximum up. */
  lemma RatioAgainstMax(u: real, m: real)
    requires m > 0.0
    ensures u >= m ==> u / m >= 1.0
    ensures u <= m ==> u / m <= 1.0
  {
  }

  /** More users never give a paler cell. */
  lemma ColorIntensityMonotone(u1: int, u2: int, d: seq<Cell>)
    requires AllPopulated(d)
    requires u1 <= u2
    ensures ColorIntensity(u1, d) <= ColorIntensity(u2, d)
  {
    if |d| > 0 {
      var m := MaxUsers(d) as real;
      assert m >= 1.0 by { assert d[0].users >= 1; }
      assert (u1 as real) / m <= (u2 as real) / m by { DivMonotone(u1 as real, u2 as real, m); }
    }
  }

  lemma DivMonotone(a: real, b: real, m: real)
    requires a <= b && m > 0.0
    ensures a / m <= b / m
  {
    assert b / m - a / m == (b - a) / m;
  }

  // ---------------------------------------------------------------------------
  // The rendered grid
  // ---------------------------------------------------------------------------

  /** `heatmapData.find(d => d.xValue === x && d.yValue === y)`: the first match. */
  function FindCell(d: seq<Cell>, x: string, y: int): (r: Option<Cell>)
    ensures r.Some? ==> r.value in d && r.value.xValue == x && r.value.yValue == y
    ensures r.None? ==> forall k :: 0 <= k < |d| ==> !(d[k].xValue == x && d[k].yValue == y)
  {
    if d == [] then None
    else if d[0].xValue == x && d[0].yValue == y then Some(d[0])
    else
      var r := FindCell(d[1..], x, y);
      assert forall k :: 1 <= k < |d| ==> d[k] == d[1..][k - 1];
      r
  }

  /** When the k-th cell is the first at (x, y), find returns it. */
  lemma {:induction false} FindCellFirst(d: seq<Cell>, x: string, y: int, k: nat)
    requires k < |d| && d[k].xValue == x && d[k].yValue == y
    requires forall j :: 0 <= j < k ==> !(d[j].xValue == x && d[j].yValue == y)
    ensures FindCell(d, x, y) == Some(d[k])
  {
    if k > 0 {
      assert !(d[0].xValue == x && d[0].yValue == y);
      forall j | 0 <= j < k - 1 ensures !(d[1..][j].xValue == x && d[1..][j].yValue == y) {
        assert d[1..][j] == d[j + 1];
      }
      FindCellFirst(d[1..], x, y, k - 1);
    }
  }

  /** The cells found for the first n x labels at frequency y, in label order. */
  function GridRow(d: seq<Cell>, y: int, n: nat): seq<Cell>
    requires n <= |XLabels|
  {
    if n == 0 then []
    else
      match FindCell(d, XLabels[n - 1], y)
      case Some(c) => GridRow(d, y, n - 1) + [c]
      case None => GridRow(d, y, n - 1)
  }

  /** getHeatmapGrid's result: one row per frequency, 5 first. */
  function HeatmapGrid(d: seq<Cell>): (g: seq<seq<Cell>>)
    ensures |g| == |GridYValues|
  {
    seq(|GridYValues|, r requires 0 <= r < |GridYValues| => GridRow(d, GridYValues[r], |XLabels|))
  }

  /**
   * getHeatmapGrid: for each frequency from 5 down to 1, the cells found
   * for each x label in order.
   */
  method GetHeatmapGrid(d: seq<Cell>) returns (grid: seq<seq<Cell>>)
    ensures grid == HeatmapGrid(d)
  {
    grid := [];
    for r := 0 to |GridYValues|
      invariant grid == HeatmapGrid(d)[..r]
    {
      var yValue := GridYValues[r];
      var row: seq<Cell> := [];
      for c := 0 to |XLabels|
        invariant row == GridRow(d, yValue, c)
      {
        var cell := FindCell(d, XLabels[c], yValue);
        if cell.Some? {
          row := row + [cell.value];
        }
      }
      grid := grid + [row];
    }
  }

  /** The label rendered beside row r: `heatmapGrid.length - rowIndex`. */
  function RowLabel(grid: seq<seq<Cell>>, r: int): int {
    |grid| - r
  }

  /** Every cell of a grid row has a frequency equal to that row's label. */
  lemma {:induction false} GridRowFrequency(d: seq<Cell>, y: int, n: nat)
    requires n <= |XLabels|
    ensures |GridRow(d, y, n)| <= n
    ensures forall c :: c in GridRow(d, y, n) ==> c.yValue == y && c in d
    ensures forall i :: 0 <= i < |GridRow(d, y, n)| ==> GridRow(d, y, n)[i].xValue in XLabels[..n]
    ensures forall i, j :: 0 <= i < j < |GridRow(d, y, n)| ==>
      GridRow(d, y, n)[i].xValue != GridRow(d, y, n)[j].xValue
  {
    if n > 0 {
      GridRowFrequency(d, y, n - 1);
      XLabelsDistinct();
      assert XLabels[n - 1] !in XLabels[..n - 1];
      assert XLabels[..n] == XLabels[..n - 1] + [XLabels[n - 1]];
    }
  }

  /**
   * For any cell list, the grid has 5 rows, and every cell shown in row r
   * has a frequency equal to the rendered row label.
   */
  lemma HeatmapGridLabels(d: seq<Cell>)
    ensures var g := HeatmapGrid(d);
      && |g| == 5
      && forall r, c :: 0 <= r < |g| && c in g[r] ==> c.yValue == RowLabel(g, r) && c in d
  {
    var g: seq<seq<Cell>> := HeatmapGrid(d);
    forall r | 0 <= r < |g| ensures forall c :: c in g[r] ==> c.yValue == RowLabel(g, r) && c in d {
      GridRowFrequency(d, GridYValues[r], |XLabels|);
    }
  }

  /** In a laid-out grid, the cell at (XLabels[xi], YValues[yi]) is found at index 5 * xi + yi. */
  lemma FindLaidOut(d: seq<Cell>, xi: nat, yi: nat)
    requires LaidOut(d)
    requires xi < |XLabels| && yi < |YValues|
    ensures FindCell(d, XLabels[xi], YValues[yi]) == Some(d[5 * xi + yi])
  {
    var k := 5 * xi + yi;
    LaidOutAt(d, xi, yi);
    LaidOutUnique(d);
    forall j | 0 <= j < k ensures !(d[j].xValue == XLabels[xi] && d[j].yValue == YValues[yi]) {
      assert (d[j].xValue, d[j].yValue) != (d[k].xValue, d[k].yValue);
    }
    FindCellFirst(d, XLabels[xi], YValues[yi], k);
  }

  /** A row grows by the cell found for its next x label. */
  lemma GridRowStep(d: seq<Cell>, y: int, n: nat, c: Cell)
    requires 0 < n <= |XLabels|
    requires FindCell(d, XLabels[n - 1], y) == Some(c)
    ensures GridRow(d, y, n) == GridRow(d, y, n - 1) + [c]
  {
  }

  /** When a cell is found for every x label, the row holds those cells in label order. */
  lemma {:induction false} FoundGridRow(d: seq<Cell>, y: int, cells: seq<Cell>, n: nat)
    requires n <= |XLabels| && |cells| == |XLabels|
    requires forall c :: 0 <= c < |XLabels| ==> FindCell(d, XLabels[c], y) == Some(cells[c])
    ensures GridRow(d, y, n) == cells[..n]
  {
    if n > 0 {
      FoundGridRow(d, y, cells, n - 1);
      GridRowStep(d, y, n, cells[n - 1]);
      assert cells[..n] == cells[..n - 1] + [cells[n - 1]];
    }
  }

  /** The cells of a laid-out grid at frequency YValues[yi], one per x label. */
  function RowCells(d: seq<Cell>, yi: nat): seq<Cell>
    requires |d| == CellCount && yi < |YValues|
  {
    seq(|XLabels|, c requires 0 <= c < |XLabels| => d[5 * c + yi])
  }

  /** In a laid-out grid, find returns the row cells, one per x label. */
  lemma RowCellsFound(d: seq<Cell>, yi: nat)
    requires LaidOut(d)
    requires yi < |YValues|
    ensures forall c :: 0 <= c < |XLabels| ==>
      && FindCell(d, XLabels[c], YValues[yi]) == Some(RowCells(d, yi)[c])
      && RowCells(d, yi)[c].xValue == XLabels[c] && RowCells(d, yi)[c].yValue == YValues[yi]
  {
    forall c | 0 <= c < |XLabels|
      ensures FindCell(d, XLabels[c], YValues[yi]) == Some(RowCells(d, yi)[c])
      ensures RowCells(d, yi)[c].xValue == XLabels[c] && RowCells(d, yi)[c].yValue == YValues[yi]
    {
      FindLaidOut(d, c, yi);
      LaidOutAt(d, c, yi);
    }
  }

  /** In a laid-out grid, the row for YValues[yi] holds one cell per x label, in label order. */
  lemma LaidOutGridRow(d: seq<Cell>, yi: nat)
    requires LaidOut(d)
    requires yi < |YValues|
    ensures GridRow(d, YValues[yi], |XLabels|) == RowCells(d, yi)
    ensures forall c :: 0 <= c < |XLabels| ==>
      RowCells(d, yi)[c].xValue == XLabels[c] && RowCells(d, yi)[c].yValue == YValues[yi]
  {
    var cells := RowCells(d, yi);
    RowCellsFound(d, yi);
    FoundGridRow(d, YValues[yi], cells, |XLabels|);
    assert cells[..|XLabels|] == cells;
  }

  /**
   * Over the generated cells, every grid row holds six cells, in x-label
   * order, all with the row's frequency, which is the rendered row label;
   * the labels under the grid, read from the top row, are the x labels.
   */
  lemma GeneratedGridShape(userDraws: seq<int>, dayDraws: seq<int>)
    requires ValidDraws(userDraws, dayDraws)
    ensures var g := HeatmapGrid(Heatmap(userDraws, dayDraws));
      && |g| == 5
      && (forall r :: 0 <= r < 5 ==> |g[r]| == |XLabels|)
      && (forall r, c :: 0 <= r < 5 && 0 <= c < |g[r]| ==>
            g[r][c].xValue == XLabels[c] && g[r][c].yValue == RowLabel(g, r) && g[r][c].yValue == 5 - r)
      && seq(|g[0]|, c requires 0 <= c < |g[0]| => g[0][c].xValue) == XLabels
  {
    var d := Heatmap(userDraws, dayDraws);
    var g: seq<seq<Cell>> := HeatmapGrid(d);
    HeatmapLaidOut(userDraws, dayDraws);
    forall r | 0 <= r < 5
      ensures |g[r]| == |XLabels|
      ensures forall c :: 0 <= c < |g[r]| ==> g[r][c].xValue == XLabels[c] && g[r][c].yValue == 5 - r
    {
      var yi := 4 - r;
      assert GridYValues[r] == YValues[yi];
      LaidOutGridRow(d, yi);
    }
  }

  // ---------------------------------------------------------------------------
  // Component state
  // ---------------------------------------------------------------------------

  /** The heatmap component's state fields that its handlers update. */
  class BubbleChart {
    var heatmapData: seq<Cell>
    var xAxis: string
    var yAxis: string
    var selectedCells: seq<string>
    var totalUsers: int

    /** The cells every handler sees: each has at least one user. */
    ghost predicate Valid()
      reads this
    {
      AllPopulated(heatmapData) && Selection.NoDup(selectedCells)
    }

    /**
     * Mount: generated cells, x axis 'avgTicket', y axis 'frequency', no
     * selection, and a user total of 0 until the effect runs.
     */
    constructor (userDraws: seq<int>, dayDraws: seq<int>)
      requires ValidDraws(userDraws, dayDraws)
      ensures Valid()
      ensures heatmapData == Heatmap(userDraws, dayDraws)
      ensures xAxis == "avgTicket" && yAxis == "frequency"
      ensures selectedCells == [] && totalUsers == 0
    {
      var d := GenerateHeatmapData(userDraws, dayDraws);
      HeatmapUsers(userDraws, dayDraws);
      heatmapData := d;
      xAxis := "avgTicket";
      yAxis := "frequency";
      selectedCells := [];
      totalUsers := 0;
    }

    /** The effect on heatmapData: the total becomes the sum of all cells' users. */
    method RecomputeTotal()
      requires Valid()
      modifies this`totalUsers
      ensures Valid()
      ensures totalUsers == SumUsers(heatmapData)
      ensures totalUsers >= |heatmapData|
    {
      SumUsersBounds(heatmapData);
      totalUsers := SumUsers(heatmapData);
    }

    /**
     * handleCellSelect (context menu on a cell): remove its id from the
     * selection if present, append it otherwise.
     */
    method HandleCellSelect(cell: Cell)
      requires Valid()
      modifies this`selectedCells
      ensures Valid()
      ensures selectedCells == Selection.Toggle(old(selectedCells), cell.id)
      ensures cell.id in selectedCells <==> cell.id !in old(selectedCells)
      ensures forall id :: id != cell.id ==> (id in selectedCells <==> id in old(selectedCells))
    {
      Selection.ToggleKeepsNoDup(selectedCells, cell.id);
      if cell.id in selectedCells {
        selectedCells := Selection.Without(selectedCells, cell.id);
      } else {
        selectedCells := selectedCells + [cell.id];
      }
    }

    /** The "clear selection" button. */
    method ClearSelection()
      requires Valid()
      modifies this`selectedCells
      ensures Valid() && selectedCells == []
    {
      selectedCells := [];
    }

    /**
     * handleAxisChange: axis 'x' sets the x axis, axis 'y' the y axis, any
     * other axis changes nothing.  The value is taken unchecked.
     */
    method HandleAxisChange(axis: string, value: string)
      requires Valid()
      modifies this`xAxis, this`yAxis
      ensures Valid()
      ensures axis == "x" ==> xAxis == value && yAxis == old(yAxis)
      ensures axis == "y" ==> yAxis == value && xAxis == old(xAxis)
      ensures axis != "x" && axis != "y" ==> xAxis == old(xAxis) && yAxis == old(yAxis)
    {
      if axis == "x" {
        xAxis := value;
      } else if axis == "y" {
        yAxis := value;
      }
    }
  }

  /** The caption under the grid: only 'avgTicket' reads as average order value. */
  function XAxisCaption(xAxis: string): (caption: string)
    ensures caption == "Average order value" <==> xAxis == "avgTicket"
  {
    if xAxis == "avgTicket" then "Average order value" else "Recency (days)"
  }
}
