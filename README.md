# Segment dashboard logic in Dafny

This project models the logic inside three React components of a customer-segmentation
dashboard, and proves properties of it.

- **Segment heatmap** (`SegmentBubbleChart`). The component builds a 6 × 5 grid of cells.
  - The x labels are average order values `<1`, `1,2`, `2,3`, `4,4`, `0,5`, `4`; the y values
    are purchase frequencies 1..5.
  - Each cell gets a lifecycle status (ideal, risk, lost, potential) from a first-match rule
    over its coordinates.
  - Each cell gets a user count: a random draw in 1..30, or one of twelve fixed values.
  - Each cell shows its percentage of all users and is drawn with a colour intensity clamped
    into [0.3, 1].
  - The cells are rearranged into rows from frequency 5 down to 1. A right click toggles a
    cell's id in the selection.
- **Segment tree** (`SegmentTreeView`). The table shows four top-level segments, each with two
  sub-segments.
  - Parent rows expand and collapse.
  - Clicking a header updates a small sort state machine. It only moves the header arrows and
    never reorders rows.
  - Parent rows with children show `-` for the per-customer metrics.
  - The sample data's parent figures are the sums of their children's.
- **Demographic zoom** (`DemographicZoom`). The panel filters users by an inclusive age range
  and four categorical filters, where `all` is a wildcard.
  - The user selection is toggled per row.
  - The select-all checkbox decides by comparing counts only.
  - The export action reports the selection size, or the filtered count when nothing is
    selected.

Each component's mutable state is a Dafny class; its handlers are methods that state the whole
new state. The pure parts are functions, with lemmas relating them. The two loops of the heatmap
(`generateHeatmapData`, `getHeatmapGrid`) are methods with loop invariants, proved equal to
specification functions. `Math.random` is not modelled as a generator. Its draws are inputs,
constrained to the ranges `Math.floor(Math.random() * n) + 1` produces. Shared pieces are the
`Common` module (status, option) and the `Selection` module (the toggle both selections use).

## Model

| member | source | states |
|---|---|---|
| `Selection.Without` | src/components/SegmentBubbleChart.tsx:148 | filtering an id out removes every occurrence, keeps every other id with its multiplicity, and is the identity when the id is absent |
| `Selection.Toggle` | src/components/SegmentBubbleChart.tsx:146-152 | after a click the id is selected iff it was not; other ids keep their membership and multiplicity; an absent id is appended at the end; a present one shrinks the list |
| `Selection.WithoutShrinks` | src/components/SegmentBubbleChart.tsx:148 | filtering out a present id makes the selection strictly shorter |
| `Selection.WithoutKeepsNoDup` | src/components/DemographicZoom.tsx:81 | filtering keeps a duplicate-free selection duplicate-free |
| `Selection.ToggleKeepsNoDup` | src/components/DemographicZoom.tsx:79-85 | a toggle keeps a duplicate-free selection duplicate-free |
| `Selection.ToggleTwiceSameIds` | src/components/SegmentBubbleChart.tsx:146-152 | two clicks on the same id give back the same set of selected ids |
| `Selection.ToggleTwiceFromAbsent` | src/components/SegmentBubbleChart.tsx:146-152 | two clicks on an unselected id restore exactly the same list |
| `Selection.WithoutConcat` | src/components/DemographicZoom.tsx:81 | filtering a concatenation filters each part and keeps them in order, so the kept ids stay in their order |
| `Selection.WithoutAppended` | src/components/SegmentBubbleChart.tsx:148-150 | appending an id and then filtering it out restores a list free of it |
| `SegmentBubbleChart.StatusOf` | src/components/SegmentBubbleChart.tsx:31-41 | defines the status rule: 'risk' for '2,3' at frequency 3 or 4, else 'ideal' for '4' or '0,5' from frequency 4, else 'lost' for '<1' or '1,2' up to frequency 2, else 'potential' |
| `SegmentBubbleChart.FixedUsers` | src/components/SegmentBubbleChart.tsx:44-56 | defines the twelve fixed counts, one per listed (x label, frequency) pair; no pair is listed twice |
| `SegmentBubbleChart.UsersFor` | src/components/SegmentBubbleChart.tsx:43-56 | defines a cell's count: its fixed value if it has one, otherwise the random draw |
| `SegmentBubbleChart.StatusRegionsDisjoint` | src/components/SegmentBubbleChart.tsx:31-41 | the risk, ideal and lost regions are pairwise disjoint; each status holds exactly on its region and potential exactly outside all three |
| `SegmentBubbleChart.UsersForPositive` | src/components/SegmentBubbleChart.tsx:44-56 | every cell count is in 1..43, and equals the random draw where no fixed value applies |
| `SegmentBubbleChart.DecimalString` | src/components/SegmentBubbleChart.tsx:65 | a number renders as at least one digit, and as exactly one digit iff it is below 10 |
| `SegmentBubbleChart.DecimalStringInjective` | src/components/SegmentBubbleChart.tsx:65 | different counters render as different digit strings |
| `SegmentBubbleChart.CellId` | src/components/SegmentBubbleChart.tsx:65 | defines the id `segment-` followed by the counter's decimal digits |
| `SegmentBubbleChart.CellIdInjective` | src/components/SegmentBubbleChart.tsx:26-65 | ids `segment-${id}` are equal iff their counters are |
| `SegmentBubbleChart.Heatmap` | src/components/SegmentBubbleChart.tsx:21-71 | the generator returns 30 cells |
| `SegmentBubbleChart.HeatmapAt` | src/components/SegmentBubbleChart.tsx:28-65 | the cell for (x label xi, y value yi) sits at index 5·xi + yi and carries that pair, its rule status, its users, its day draw and id `segment-(5·xi+yi+1)` |
| `SegmentBubbleChart.DecideStatus` | src/components/SegmentBubbleChart.tsx:31-41 | the if-chain assigns exactly the status the classification rule gives the pair |
| `SegmentBubbleChart.ApplyFixedUsers` | src/components/SegmentBubbleChart.tsx:44-56 | the draw followed by the twelve overriding assignments yields exactly the specified user count |
| `SegmentBubbleChart.PrefixStep` | src/components/SegmentBubbleChart.tsx:58-66 | pushing the next specified cell extends the built prefix by one cell |
| `SegmentBubbleChart.GenerateHeatmapData` | src/components/SegmentBubbleChart.tsx:21-71 | the nested loops, with their id counter, status chain and twelve overrides, build exactly the specified cell list |
| `SegmentBubbleChart.XLabelsDistinct` | src/components/SegmentBubbleChart.tsx:24 | the six x labels are pairwise different |
| `SegmentBubbleChart.HeatmapLaidOut` | src/components/SegmentBubbleChart.tsx:28-65 | the cell at index 5·xi + yi is at (x label xi, y value yi), and cell k has id `segment-(k+1)` |
| `SegmentBubbleChart.LaidOutUnique` | src/components/SegmentBubbleChart.tsx:28-29 | a grid laid out in loop order has pairwise different coordinates |
| `SegmentBubbleChart.LaidOutAt` | src/components/SegmentBubbleChart.tsx:28-29 | the pair (x label xi, y value yi) sits at index 5·xi + yi |
| `SegmentBubbleChart.NumberedIdsDistinct` | src/components/SegmentBubbleChart.tsx:26-65 | ids numbered by position are pairwise different |
| `SegmentBubbleChart.LaidOutShape` | src/components/SegmentBubbleChart.tsx:21-68 | a grid laid out in loop order has unique coordinates and ids and covers every (x label, y value) pair |
| `SegmentBubbleChart.HeatmapShape` | src/components/SegmentBubbleChart.tsx:21-68 | 30 cells, exactly one per (x label, y value) pair, with distinct ids `segment-1`..`segment-30` |
| `SegmentBubbleChart.HeatmapUsers` | src/components/SegmentBubbleChart.tsx:44-56 | every generated cell has 1..43 users; non-fixed cells carry their draw; ('<1', 1) has 43 and ('2,3', 3) has 32 |
| `SegmentBubbleChart.Statuses` | src/components/SegmentBubbleChart.tsx:58-66 | one status per cell |
| `SegmentBubbleChart.CountConcat` | src/components/SegmentBubbleChart.tsx:31-41 | a status count over a concatenation is the sum of the counts |
| `SegmentBubbleChart.HeatmapClassified` | src/components/SegmentBubbleChart.tsx:31-41 | every generated cell carries the status the rule gives its coordinates |
| `SegmentBubbleChart.ColumnSlice` | src/components/SegmentBubbleChart.tsx:28-41 | the five statuses of one x label are that label's column of the rule |
| `SegmentBubbleChart.CountByColumn` | src/components/SegmentBubbleChart.tsx:28-41 | a status count over the grid is the sum of the per-label counts |
| `SegmentBubbleChart.ColumnsSpelledOut` | src/components/SegmentBubbleChart.tsx:31-41 | the rule's statuses per x label, frequency 1 to 5 |
| `SegmentBubbleChart.LiteralColumnCounts` | src/components/SegmentBubbleChart.tsx:31-41 | the status counts of the four column shapes |
| `SegmentBubbleChart.HeatmapColumns` | src/components/SegmentBubbleChart.tsx:28-41 | the generated statuses split into six runs of five, run i being x label i's column of the rule |
| `SegmentBubbleChart.HeatmapStatusCounts` | src/components/SegmentBubbleChart.tsx:23-41 | the generated grid has 2 risk, 4 ideal, 4 lost and 20 potential cells |
| `SegmentBubbleChart.SumUsers` | src/components/SegmentBubbleChart.tsx:104 | defines the sum of the cells' user counts, the reduce from 0 |
| `SegmentBubbleChart.SumUsersBounds` | src/components/SegmentBubbleChart.tsx:104 | with every cell populated, the total is at least the number of cells and at least each cell's count |
| `SegmentBubbleChart.UserPercentage` | src/components/SegmentBubbleChart.tsx:116-118 | 0 when the total is not positive; otherwise the integer nearest to users·100/total, halves rounded up |
| `SegmentBubbleChart.UserPercentageInRange` | src/components/SegmentBubbleChart.tsx:116-118 | a count no larger than the total gets a percentage in 0..100 |
| `SegmentBubbleChart.CellPercentageInRange` | src/components/SegmentBubbleChart.tsx:102-118 | against the sum over all cells, every cell's percentage is in 0..100 and the total is positive |
| `SegmentBubbleChart.MaxUsers` | src/components/SegmentBubbleChart.tsx:110 | the maximum is an upper bound of every cell's count and is attained |
| `SegmentBubbleChart.ColorIntensity` | src/components/SegmentBubbleChart.tsx:109-113 | the intensity is in [0.3, 1]; it is 0.3 with no cells and wherever users/max is at most 0.3, 1 from the maximum up, and the plain ratio users/max where that ratio is in [0.3, 1] |
| `SegmentBubbleChart.Clamp` | src/components/SegmentBubbleChart.tsx:111 | `max(0.3, min(1, ratio))` is in [0.3, 1], is the ratio inside it and the nearer bound outside |
| `SegmentBubbleChart.RatioAgainstMax` | src/components/SegmentBubbleChart.tsx:111 | a ratio against a positive maximum is at least 1 exactly from the maximum up |
| `SegmentBubbleChart.ColorIntensityMonotone` | src/components/SegmentBubbleChart.tsx:109-113 | more users never give a paler cell |
| `SegmentBubbleChart.FindCell` | src/components/SegmentBubbleChart.tsx:204 | a found cell is in the data at the requested coordinates; nothing found means no cell has them |
| `SegmentBubbleChart.FindCellFirst` | src/components/SegmentBubbleChart.tsx:204 | find returns the first cell at the requested coordinates |
| `SegmentBubbleChart.GridRow` | src/components/SegmentBubbleChart.tsx:201-208 | defines a row: for each x label in order, the cell find returns, skipped when find returns nothing |
| `SegmentBubbleChart.HeatmapGrid` | src/components/SegmentBubbleChart.tsx:195-213 | the grid has one row per frequency 5..1 |
| `SegmentBubbleChart.GetHeatmapGrid` | src/components/SegmentBubbleChart.tsx:195-213 | the nested loops build exactly the specified grid |
| `SegmentBubbleChart.GridRowFrequency` | src/components/SegmentBubbleChart.tsx:201-209 | a row over the first n x labels has at most n cells, each from the data at the row's frequency, with an x label among those n and no x label twice |
| `SegmentBubbleChart.HeatmapGridLabels` | src/components/SegmentBubbleChart.tsx:195-311 | for any data, 5 rows, and every cell shown in row r has the frequency `heatmapGrid.length - r` rendered beside it |
| `SegmentBubbleChart.FindLaidOut` | src/components/SegmentBubbleChart.tsx:204 | over generated cells, find at (x label xi, y value yi) returns cell 5·xi + yi |
| `SegmentBubbleChart.GridRowStep` | src/components/SegmentBubbleChart.tsx:203-207 | finding a cell for the next x label appends it to the row |
| `SegmentBubbleChart.FoundGridRow` | src/components/SegmentBubbleChart.tsx:203-208 | when find succeeds for every x label, the row is the found cells in label order |
| `SegmentBubbleChart.RowCellsFound` | src/components/SegmentBubbleChart.tsx:204 | in a grid laid out in loop order, find at (x label c, y value yi) returns cell 5·c + yi, which carries those coordinates |
| `SegmentBubbleChart.LaidOutGridRow` | src/components/SegmentBubbleChart.tsx:201-209 | in a grid laid out in loop order, the row for y value yi is the six cells 5·c + yi in x-label order, cell c at x label c |
| `SegmentBubbleChart.GeneratedGridShape` | src/components/SegmentBubbleChart.tsx:195-213 | over generated cells, each of the 5 rows holds 6 cells in x-label order at frequency 5 − r, which is the rendered row label, and the labels under the grid are the x labels |
| `SegmentBubbleChart.BubbleChart.constructor` | src/components/SegmentBubbleChart.tsx:90-100 | mount state: generated cells, axes 'avgTicket' and 'frequency', empty selection, total 0 |
| `SegmentBubbleChart.BubbleChart.RecomputeTotal` | src/components/SegmentBubbleChart.tsx:102-106 | the effect sets the total to the sum of the cells' users, which is at least the number of cells |
| `SegmentBubbleChart.BubbleChart.HandleCellSelect` | src/components/SegmentBubbleChart.tsx:146-152 | the selection becomes the toggle of the cell id: that id flips, others keep their membership, and the selection stays duplicate-free |
| `SegmentBubbleChart.BubbleChart.ClearSelection` | src/components/SegmentBubbleChart.tsx:370 | the selection becomes empty |
| `SegmentBubbleChart.BubbleChart.HandleAxisChange` | src/components/SegmentBubbleChart.tsx:186-192 | axis 'x' sets only the x axis, 'y' only the y axis, anything else changes nothing |
| `SegmentBubbleChart.XAxisCaption` | src/components/SegmentBubbleChart.tsx:353 | the caption reads "Average order value" iff the x axis is 'avgTicket' |
| `SegmentTreeView.TotalUsers` | src/components/SegmentTreeView.tsx:215 | defines the footer total: the users of the top-level segments summed from 0 |
| `SegmentTreeView.SumUsersConcat` | src/components/SegmentTreeView.tsx:215 | the users sum over a concatenation is the sum of the parts |
| `SegmentTreeView.TotalOverLeaves` | src/components/SegmentTreeView.tsx:39-215 | when every parent is the sum of its children, the total over the parents equals the total over the sub-segments |
| `SegmentTreeView.SampleTotals` | src/components/SegmentTreeView.tsx:39-215 | in the sample data each parent's users and percentage are the sums over its children, the total is 17300 both over parents and over sub-segments, and the parent percentages add up to the 100% of the summary row |
| `SegmentTreeView.SamplePercentagesNearShare` | src/components/SegmentTreeView.tsx:39-168 | every hard-coded percentage is within one point of the exact share of 17300, though 5420 users (31.3%) is shown as 32 |
| `SegmentTreeView.Block` | src/components/SegmentTreeView.tsx:265-388 | defines one segment's rows: its parent row, then its children's rows only while it is expanded and has children |
| `SegmentTreeView.VisibleRows` | src/components/SegmentTreeView.tsx:264-389 | defines the table body: the segments' blocks in list order |
| `SegmentTreeView.ParentsOfConcat` | src/components/SegmentTreeView.tsx:264 | the parent rows of a concatenation are those of the parts, in order |
| `SegmentTreeView.ParentsOfChildRows` | src/components/SegmentTreeView.tsx:333 | child rows contribute no parent row |
| `SegmentTreeView.ParentRowsInOrder` | src/components/SegmentTreeView.tsx:264-267 | the parent rows are exactly the segment list in its order, whatever is expanded or sorted |
| `SegmentTreeView.ChildRowShownIffExpanded` | src/components/SegmentTreeView.tsx:333-388 | a child row is shown iff some expanded segment of the list has that child |
| `SegmentTreeView.VisibleRowCount` | src/components/SegmentTreeView.tsx:264-390 | the table body has one row per segment plus one per child of an expanded segment |
| `SegmentTreeView.MetricCell` | src/components/SegmentTreeView.tsx:281-295 | defines a metric cell: '-' for average ticket, frequency and days on a parent row with a children list, otherwise the value |
| `SegmentTreeView.DashOnlyOnParents` | src/components/SegmentTreeView.tsx:281-295 | a cell shows '-' iff it is a parent row with a children list, in the ticket, frequency or days column; every other cell shows the segment's value |
| `SegmentTreeView.DashesConcat` | src/components/SegmentTreeView.tsx:264-389 | the number of '-' cells over two row lists is the sum of their numbers |
| `SegmentTreeView.ChildRowsNoDashes` | src/components/SegmentTreeView.tsx:333-387 | child rows never show '-' |
| `SegmentTreeView.DashCount` | src/components/SegmentTreeView.tsx:264-389 | whatever is expanded, the table shows exactly three '-' cells per segment with a children list |
| `SegmentTreeView.MountDashes` | src/components/SegmentTreeView.tsx:171-389 | at mount, with all four sample parents expanded, exactly 12 cells show '-' |
| `SegmentTreeView.FlipExpanded` | src/components/SegmentTreeView.tsx:176-185 | defines the toggle: the segment with the clicked id gets its expansion flag negated and every other segment stays as it is |
| `SegmentTreeView.FlipExpandedFacts` | src/components/SegmentTreeView.tsx:176-185 | the toggle keeps length, order and every other field, flips the flag exactly on the segment with that id, is a no-op for an unknown id, and twice restores the list |
| `SegmentTreeView.NextSort` | src/components/SegmentTreeView.tsx:187-191 | defines the click on a header: the clicked field becomes the sort field, going desc only when it was already the field in asc order, otherwise asc |
| `SegmentTreeView.HeaderArrow` | src/components/SegmentTreeView.tsx:226-253 | defines a header's arrow: none unless it is the sort field, then up for asc and down for desc |
| `SegmentTreeView.SortTransitions` | src/components/SegmentTreeView.tsx:187-191 | the sort field becomes the clicked one; a new field starts ascending; the same field alternates; afterwards only that column shows an arrow |
| `SegmentTreeView.TreeView.constructor` | src/components/SegmentTreeView.tsx:171-174 | mount state: every top-level segment expanded and otherwise unchanged, no sort field, descending, nothing selected |
| `SegmentTreeView.TreeView.HandleToggleExpand` | src/components/SegmentTreeView.tsx:176-185 | the segments become the flipped list: same length, only the flag changes, and only on the segment with that id |
| `SegmentTreeView.TreeView.HandleSort` | src/components/SegmentTreeView.tsx:187-191 | the sort state follows the transition, the field is the clicked one, and the rendered rows are unchanged |
| `SegmentTreeView.TreeView.HandleViewCustomers` | src/components/SegmentTreeView.tsx:193-197 | the clicked segment becomes the selected one |
| `SegmentTreeView.InitialRows` | src/components/SegmentTreeView.tsx:171-173 | right after mount, 12 rows are shown, and the parent rows are the segments in order |
| `DemographicZoom.Admits` | src/components/DemographicZoom.tsx:116-119 | defines one wildcard filter: 'all' admits every value, any other choice only that value |
| `DemographicZoom.Matches` | src/components/DemographicZoom.tsx:113-121 | defines a user passing the filters: age within the inclusive bounds, and gender, city, channel and product each admitted by its filter |
| `DemographicZoom.FilteredUsers` | src/components/DemographicZoom.tsx:113-121 | the filtered list is no longer than the user list and holds exactly the users that pass every filter |
| `DemographicZoom.FilteredConcat` | src/components/DemographicZoom.tsx:113-121 | filtering a concatenation filters each part and keeps them in order |
| `DemographicZoom.FilteredAllPass` | src/components/DemographicZoom.tsx:113-121 | when every user passes, the filtered list is the user list, in order |
| `DemographicZoom.DefaultFiltersAdmitAdults` | src/components/DemographicZoom.tsx:49-55 | the initial and reset filters admit a user iff the user is aged 18 to 65 |
| `DemographicZoom.MockUsersAllShown` | src/components/DemographicZoom.tsx:34-55 | all ten mock users pass the initial filters |
| `DemographicZoom.Ids` | src/components/DemographicZoom.tsx:91 | the ids of the users, one per user, in order |
| `DemographicZoom.FilteredIdsDistinct` | src/components/DemographicZoom.tsx:91-121 | filtering keeps distinct ids distinct |
| `DemographicZoom.MockIdsDistinct` | src/components/DemographicZoom.tsx:34-45 | the mock users' ids are 1 to 10, all distinct |
| `DemographicZoom.ExportCount` | src/components/DemographicZoom.tsx:100 | the export count is the selection count if non-zero, otherwise the filtered count |
| `DemographicZoom.SelectAllResult` | src/components/DemographicZoom.tsx:87-93 | defines select-all: empty when the selection's size equals the number shown, otherwise the ids shown |
| `DemographicZoom.HeaderChecked` | src/components/DemographicZoom.tsx:284 | defines the header checkbox: checked when some user is shown and the selection has as many ids as are shown |
| `DemographicZoom.SelectAllFacts` | src/components/DemographicZoom.tsx:87-93 | select-all either empties the selection or makes it exactly the filtered ids, empties it exactly when the sizes match or no user is shown, and with a non-empty filtered list flips the header checkbox |
| `DemographicZoom.SelectAllComparesSizesOnly` | src/components/DemographicZoom.tsx:87-93 | a one-id selection that is not the filtered user still checks the header box and is cleared by select-all |
| `DemographicZoom.ExportCountFacts` | src/components/DemographicZoom.tsx:100 | the export count is positive iff something is selected or shown, and never below the selection count |
| `DemographicZoom.ZoomPanel.constructor` | src/components/DemographicZoom.tsx:48-57 | opening state: the mock users, default filters, nothing selected or saved |
| `DemographicZoom.ZoomPanel.HandleAgeChange` | src/components/DemographicZoom.tsx:59-61 | only the age range changes |
| `DemographicZoom.ZoomPanel.HandleGenderChange` | src/components/DemographicZoom.tsx:63-65 | only the gender filter changes |
| `DemographicZoom.ZoomPanel.HandleCityChange` | src/components/DemographicZoom.tsx:67-69 | only the city filter changes |
| `DemographicZoom.ZoomPanel.HandleChannelChange` | src/components/DemographicZoom.tsx:71-73 | only the channel filter changes |
| `DemographicZoom.ZoomPanel.HandleProductoChange` | src/components/DemographicZoom.tsx:75-77 | only the product filter changes |
| `DemographicZoom.ZoomPanel.ResetFilters` | src/components/DemographicZoom.tsx:257 | the filters return to their defaults, which show exactly the users aged 18 to 65 |
| `DemographicZoom.ZoomPanel.HandleUserSelect` | src/components/DemographicZoom.tsx:79-85 | the selection becomes the toggle of the id: that id flips, others are unaffected, and the selection stays duplicate-free |
| `DemographicZoom.ZoomPanel.HandleSelectAll` | src/components/DemographicZoom.tsx:87-93 | the selection becomes the select-all result for the current filtered list, and stays duplicate-free |
| `DemographicZoom.ZoomPanel.ClearSelection` | src/components/DemographicZoom.tsx:528 | the selection becomes empty |
| `DemographicZoom.ZoomPanel.HandleSaveFilter` | src/components/DemographicZoom.tsx:107-110 | the filter is marked saved |

## Left out

- Rendering, styling, tooltips and their positions, the 100 ms hide delay, and every `toast`
  notification: these are presentation and side effects. `handleCompare`, `handleExport`,
  `handleViewDetail`, `handleCreateCampaign`, the detail panel's open and close, and the tree's
  campaign, export and dynamic-list actions do nothing beyond them.
- `handleFilterChange` in the heatmap only stores the chosen filter, which only the drop-down
  displays; it is not modelled.
- `Math.random`: each draw is an input constrained to its range (users 1..30, days 1..200).
  Nothing is said about its distribution.
- The heatmap cells' `avgTicket`, obtained with `parseFloat` from the comma-decimal label, is
  not a field of the modelled cell. Float parsing and number formatting (`toFixed`,
  `toLocaleString`, date display) are left out.
- Fractions are exact `real`s and integers are unbounded. JavaScript's floating point is not
  modelled; the percentage is modelled as exact rounding of users·100/total.
- The empty-heatmap case of the colour intensity is modelled directly as 0.3, without computing
  the maximum of an empty list. In the source that maximum is negative infinity, and the ratio
  still clamps to 0.3. The NaN case does not arise, because every cell has at least one user.
- Sub-segments have no `isExpanded` field in the source. Reading it gives `undefined`, which is
  falsy; the model stores `false`.
- The age slider's value array is modelled as its two bounds. The slider always delivers two
  values.
- `DemographicZoom.ZoomPanel.constructor` does not itself state that all ten users are shown;
  `DemographicZoom.MockUsersAllShown` states it.
- The campaign text that says "todos los" when nothing is selected, and the per-row checkbox,
  which is checked iff the id is selected, are display rules over the same selection. They are
  not modelled separately.
- The statistics tab's hard-coded bars, the `isOpen` early return and the close callback are
  presentation.
- CoverageMapView and the other dashboard views are not part of this model. They hold static
  data and layout only.

