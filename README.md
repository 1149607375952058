# Pipeline diagram layout of `lab ci`

The `lab ci` command draws the jobs of a CI pipeline as a live terminal
diagram. Each stage is a column. Each job is a box in its stage's column.
Consecutive jobs are joined by connectors drawn with box-drawing glyphs.
This project models the layout pass behind that diagram: the closure returned
by `jobsLayout`, which the terminal library calls on every redraw, and the
drawing helpers `connect`, `hline` and `vline`.

It proves properties of that model. The files are:

- `geometry.dfy` (module `Geometry`) holds the integer box formulas. Go's
  truncating `/` is written out as `Quot`. Column centres and the stage-label
  and job rectangles are built on it. Proved: monotone and strictly growing
  columns, rows that do not overlap, and labels above the jobs.
- `jobs.dfy` (module `Jobs`) covers the stage counter and the grouping.
  `CountStages` is the counting loop exactly as written. `StageIdx` and
  `RowIdx` give the slot each job gets in the placement loop.
- `status.dfy` (module `Status`) holds the status switch, which gives a glyph
  and colour, and the labels written into new views.
- `routing.dfy` (module `Routing`) models the terminal cells as a map from
  (column, row) to glyph. It holds the strokes written by `hline`, `vline`
  and `SetCell`, and the three connector shapes.
- `layout.dfy` (module `Layout`) specifies one pass as functions of the state
  before it:
  - `Placement` replays the ordered `SetView` calls of the job loop.
  - `Connection` is the loop over consecutive pairs.
  - The lemmas cover errors, where each view ends up, what is written into
    new views, idempotence of a second pass, and the connector loop.
- `screen.dfy` (module `Screen`) holds the class `Canvas`. Its fields are the
  views and the cells. Five of its methods stand in for terminal-library and
  `fmt` calls that `cmd/ci.go` makes: `SetView`, `Print`, `SetFg`,
  `FindView` and `SetCell`. Each of these has its own contract, stating the
  update it makes to the views or cells. The other methods are the code of
  `cmd/ci.go`: the `hline`/`vline` loops, `connect` (with its same-column
  branch `DrawBracket`), the placement steps and loop, the connector loop
  and the whole pass `Redraw`. Each of these is proved against the functions
  of `Layout` and `Routing`.

Three behaviours of the code are kept as written:
- **Stage count.** `stages` counts the jobs whose stage name is not empty,
  not the stage groups, because the counting loop never updates `lastStage`.
- **First job with an empty stage.** Such a job opens no group. It stays at
  stage number 0 and gets row 1.
- **Existing views.** A view that already exists is moved to the rectangle
  asked for. It is not left where it was first placed. Its text and colour
  are never written again.

## Model

| member | source | states |
|---|---|---|
| Geometry.Quot | cmd/ci.go:90-92 | Go's `/` on integers, truncating toward zero; its properties are stated by Geometry.QuotTruncates |
| Geometry.ColumnCentre | cmd/ci.go:91 | `maxX*stageIdx/(stages+1)` with Go's truncating division, the centre of a stage's column; its properties are stated by Geometry.ColumnMonotone, Geometry.ColumnStrict, Geometry.ColumnGap and Geometry.CentreOnScreen |
| Geometry.Middle | cmd/ci.go:91 | `maxY/2` with Go's truncating division, the row where the first job box of every column starts; used by Geometry.StageBoxShape and Geometry.JobBoxShape |
| Geometry.StageBox | cmd/ci.go:90-92 | the stage-label rectangle of a stage number; its shape is stated by Geometry.StageBoxShape |
| Geometry.JobBox | cmd/ci.go:101-103 | the job rectangle of a (stage number, row) slot; its shape is stated by Geometry.JobBoxShape |
| Geometry.QuotTruncates | cmd/ci.go:90-92 | Go integer division: the remainder has the sign of the dividend and is smaller than the divisor |
| Geometry.StageBoxShape | cmd/ci.go:90-92 | the stage-label box spans 7 columns either side of the column centre and lies above the vertical middle |
| Geometry.JobBoxShape | cmd/ci.go:101-103 | a job box has the stage label's x range, starts 6 rows lower per row index below the middle, and is 2 rows high |
| Geometry.RowsDisjoint | cmd/ci.go:101-103 | boxes of a lower row index end above boxes of a higher one in the same column |
| Geometry.LabelAboveJobs | cmd/ci.go:90-103 | a stage's label box ends above every job box of its column |
| Geometry.ColumnMonotone | cmd/ci.go:91 | for a non-negative width, the column centre never decreases with the stage number |
| Geometry.ColumnStrict | cmd/ci.go:102 | when the width is at least stages + 1, the column centre strictly increases with the stage number |
| Geometry.ColumnGap | cmd/ci.go:102 | when the width is at least k * (stages + 1), the centres of two stage numbers are at least k apart |
| Geometry.CentreOnScreen | cmd/ci.go:91 | for a positive width, the centre of every column numbered 0 .. stages lies in 0 .. maxX - 1 |
| Geometry.ColumnsDisjoint | cmd/ci.go:101-103 | with at least 15 columns per column slot, job boxes of a lower stage number end left of those of a higher one |
| Jobs.StageIdx | cmd/ci.go:78-100 | the stage counter after job k, one more per job that opens a group; its properties are stated by Jobs.StageIdxGrowth, Jobs.SameGroupIff and Jobs.SlotsDistinct |
| Jobs.RowIdx | cmd/ci.go:78-100 | the row counter after job k, reset by a job that opens a group; its properties are stated by Jobs.RowsInGroup and Jobs.SlotsDistinct |
| Jobs.CountStages | cmd/ci.go:68-77 | the counting loop returns the number of jobs with a non-empty stage name |
| Jobs.AllNamedCount | cmd/ci.go:68-77 | when no stage name is empty, that count is the number of jobs |
| Jobs.UncountedGroupExample | cmd/ci.go:68-100 | a job list whose stage number (3) exceeds the counted stages (2), because of the empty stage name in the middle |
| Jobs.StageIdxGrowth | cmd/ci.go:78-100 | the stage number never decreases, grows by at most one per job, and is at most the job's position + 1 |
| Jobs.SameGroupIff | cmd/ci.go:86-100 | two jobs have the same stage number exactly when no job between them (after the first) opens a group |
| Jobs.RowsInGroup | cmd/ci.go:86-100 | within one stage number, the row index grows by one per job |
| Jobs.SlotsDistinct | cmd/ci.go:86-100 | a later job has a larger stage number or a larger row than an earlier one |
| Jobs.StageIdxWithinCount | cmd/ci.go:68-100 | when no stage name is empty, every stage number is within the counted stages |
| Jobs.GroupingExample | cmd/ci.go:78-100 | stages build, build, test, deploy get stage numbers 1, 1, 2, 3 and rows 0, 1, 0, 0, and the count is 4 |
| Jobs.UnnamedFirstStage | cmd/ci.go:78-100 | a first job with an empty stage name keeps stage number 0 and gets row 1 |
| Status.Decorate | cmd/ci.go:107-121 | the status switch, giving a glyph and, for the four known statuses, a colour; stated by Status.DecorateCases, Status.DecoratedIff and Status.DecorationsDistinct |
| Status.DecorateCases | cmd/ci.go:107-121 | success is a green check mark, failed a red cross, running a blue dot, pending a yellow dot; anything else sets no colour and the zero glyph |
| Status.DecoratedIff | cmd/ci.go:107-121 | a status sets a colour exactly when it sets a glyph, exactly for the four known statuses |
| Status.DecorationsDistinct | cmd/ci.go:107-121 | the four known statuses all look different (glyph or colour) |
| Status.JobLabel | cmd/ci.go:124 | the text `Fprintf(v, "%c %s\n", ...)` writes into a new job view; stated by Status.JobLabelShape and Status.LabelsKeepNames |
| Status.JobLabelShape | cmd/ci.go:124 | a new job view's text has length |name| + 3: the status glyph, a space, the job name and a final newline |
| Status.StageLabel | cmd/ci.go:96 | the text `Fprintln(v, j.Stage)` writes into a new stage view; stated by Status.StageLabelShape and Status.LabelsKeepNames |
| Status.StageLabelShape | cmd/ci.go:96 | a new stage view's text has length |stage| + 1: the stage name and a final newline |
| Status.LabelsKeepNames | cmd/ci.go:96-124 | two job labels are equal only for equal job names, and two stage labels only for equal stage names |
| Status.JobColour | cmd/ci.go:107-119 | the foreground colour a new job view ends with: the one the status switch sets, or the Default a new view starts with; stated by Status.JobColourDefault |
| Status.JobColourDefault | cmd/ci.go:107-121 | a new job view keeps the default colour exactly when its status is not one of the four |
| Routing.Apply | cmd/ci.go:177-189 | the cells after one stroke: a SetCell, or an hline/vline run written cell by cell; stated cell by cell by Routing.ApplyAt |
| Routing.Connector | cmd/ci.go:142-175 | the cells after connect, by the three branches on the offset between the boxes; stated by Routing.SameRowConnector, Routing.CrossStageConnector, Routing.BracketCase, Routing.DownwardBracket and Routing.UpwardBracket |
| Routing.ApplyAt | cmd/ci.go:177-189 | a run of length l writes its glyph to exactly its l cells (none when l <= 0), and a single SetCell to exactly its cell; every other cell is kept |
| Routing.SameRowConnector | cmd/ci.go:154-157 | same row: the connector fills exactly the cells from the first box's right edge to just before the second box, on the middle row |
| Routing.CrossStageConnector | cmd/ci.go:149-153 | different row and column: the same run on the second box's middle row plus a junction 3 cells right of the first box's edge; nothing else |
| Routing.BracketAt | cmd/ci.go:159-174 | what every cell shows after a same-column bracket whose margin runs end above the foot row (boxes of height 2 or less): both feet and corners, the junction, both margin runs, otherwise the old cell |
| Routing.DownwardBracket | cmd/ci.go:159-174 | same column, second box lower: unbroken margin lines from beside the first box down to the corners at the second box, with both feet |
| Routing.UpwardBracket | cmd/ci.go:159-174 | same column, second box higher: the margin runs write nothing, so only the seven single glyphs change |
| Routing.LeftFootAt | cmd/ci.go:161-165 | the junction, the two-cell left foot and its corner are written and nothing else |
| Routing.MarginsAt | cmd/ci.go:167-168 | the two margin runs are written and nothing else |
| Routing.RightFootAt | cmd/ci.go:172-174 | the two-cell right foot and its corner are written and nothing else |
| Layout.JobId | cmd/ci.go:101 | a job's view id, "jobs-" followed by the job name; stated by Layout.JobIdInjective and Layout.IdsDisjoint |
| Layout.StageId | cmd/ci.go:90 | a stage's view id, "stage-" followed by the stage name; stated by Layout.StageIdInjective and Layout.IdsDisjoint |
| Layout.IdsDisjoint | cmd/ci.go:90-103 | a job view id never equals a stage view id |
| Layout.JobIdInjective | cmd/ci.go:101 | job view ids are equal exactly when the job names are |
| Layout.StageIdInjective | cmd/ci.go:90 | stage view ids are equal exactly when the stage names are |
| Layout.Touch | cmd/ci.go:90-125 | one SetView call with the text and colour written into a new view: a refused id fails, an existing view is moved and keeps its content, otherwise the view is created with the call's content; stated through Layout.ReplayAt and Layout.ReplayError |
| Layout.Replay | cmd/ci.go:83-126 | SetView calls in order, stopping at the first refusal; stated by Layout.ReplayError, Layout.ReplayAt, Layout.ReplayUntouched and Layout.ReplayIdempotent |
| Layout.JobVisits | cmd/ci.go:86-125 | the calls for one job: its stage's label box when it opens a group, then its own box, at the slot of Jobs.StageIdx and Jobs.RowIdx |
| Layout.VisitsFrom | cmd/ci.go:83-126 | the calls for jobs k, k+1, ... in loop order |
| Layout.Placement | cmd/ci.go:83-126 | the job loop as the replay of all its calls; stated by Layout.PlacementFails, Layout.JobsPlaced, Layout.JobPlaced, Layout.StagePlaced, Layout.OtherViewsKept and Layout.PlacementIdempotent |
| Layout.ReplayError | cmd/ci.go:90-106 | a run of SetView calls fails exactly when some id is refused, and then with the first refused id |
| Layout.ReplayAt | cmd/ci.go:90-125 | after successful calls, a named view sits at its last call's rectangle; it keeps its old text and colour, or, when the calls created it, has those of its first call |
| Layout.ReplayUntouched | cmd/ci.go:90-125 | a view no call names is unchanged, even when a call fails |
| Layout.ReplayIdempotent | cmd/ci.go:90-125 | repeating successful calls on their own result succeeds and changes nothing |
| Layout.PlacementFails | cmd/ci.go:83-126 | placement fails exactly when a job's view id, or a group-opening stage's view id, is refused |
| Layout.JobsPlaced | cmd/ci.go:83-126 | after successful placement every job has a view |
| Layout.JobPlaced | cmd/ci.go:101-125 | a job with a unique name has its view at the job box of its slot; a new view holds the job's label in its status colour, and an existing one keeps its text and colour |
| Layout.StagePlaced | cmd/ci.go:86-97 | a stage whose name opens one group only has its label view at that group's label box; a new view holds the stage name |
| Layout.OtherViewsKept | cmd/ci.go:83-126 | views that belong to no job or stage of the list are left as they were |
| Layout.PlacementIdempotent | cmd/ci.go:83-126 | a second pass with the same jobs and terminal size succeeds and changes no view: nothing is created or written twice |
| Layout.SlotBoxesApart | cmd/ci.go:83-103 | on a wide enough terminal, boxes of two different jobs never overlap: the later one is right of or below the earlier |
| Layout.Link | cmd/ci.go:142-147 | connect applied to two views: their positions and the first view's bounding size, read through the `Position()`/`Bounding()` parameters, passed to Routing.Connector |
| Layout.ConnectFrom | cmd/ci.go:127-138 | the pair loop from pair (i, i+1): look both views up, stop with the id of the first missing one, otherwise draw and go on |
| Layout.Connection | cmd/ci.go:127-138 | the pair loop over the whole list; stated by Layout.ConnectAll, Layout.ConnectStops, Layout.ConnectDrawsPrefix and Layout.PlacedJobsConnect |
| Layout.ColumnsOnScreen | cmd/ci.go:68-102 | when no stage name is empty, every job's column centre, computed with the counted stages, lies on a screen of positive width |
| Layout.ConnectAll | cmd/ci.go:127-138 | when every job has a view, the loop connects all N-1 consecutive pairs (none for N <= 1) and fails on none |
| Layout.ConnectStops | cmd/ci.go:127-138 | a failing loop fails on the pair after those it drew, on its first view if that is missing and else on its second; all earlier jobs have views |
| Layout.ConnectDrawsPrefix | cmd/ci.go:127-138 | the cells are exactly the pairs drawn, in order from the first; nothing is drawn after a failed lookup |
| Layout.PlacedJobsConnect | cmd/ci.go:83-138 | after successful placement the connector loop draws every consecutive pair and never fails |
| Screen.Canvas.SetView | cmd/ci.go:90-93 | a refused id fails and changes nothing; an existing view is moved and keeps its content; otherwise an empty default-coloured view is created |
| Screen.Canvas.Print | cmd/ci.go:96 | appends text to one view and changes nothing else |
| Screen.Canvas.SetFg | cmd/ci.go:110 | sets one view's colour and changes nothing else |
| Screen.Canvas.FindView | cmd/ci.go:128-135 | looking up a view succeeds exactly when the id exists; otherwise it fails with the id |
| Screen.Canvas.SetCell | cmd/ci.go:151 | writes one glyph to one cell |
| Screen.Canvas.HLine | cmd/ci.go:177-182 | the loop leaves the cells as the horizontal run of length l from (x, y) |
| Screen.Canvas.VLine | cmd/ci.go:184-189 | the loop leaves the cells as the vertical run of length l from (x, y) |
| Screen.Canvas.Connect | cmd/ci.go:142-175 | draws exactly the connector shape for the two views' positions and the first view's size; views unchanged |
| Screen.Canvas.DrawBracket | cmd/ci.go:159-174 | the same-column branch writes the junction and left foot, both margin lines, then the right foot, leaving the cells that Routing.BracketAt describes |
| Screen.Canvas.PlaceStage | cmd/ci.go:90-97 | the stage SetView call and, for a new view, its label, as one placement step |
| Screen.Canvas.PlaceJob | cmd/ci.go:101-125 | the job SetView call and, for a new view, its colour and label, as one placement step |
| Screen.Canvas.PlaceSlot | cmd/ci.go:86-125 | the calls for one job: its stage label when it opens a group, then its own view; a refusal ends them |
| Screen.Canvas.PlaceBoxes | cmd/ci.go:78-126 | the job loop, with its last-stage, stage and row counters, leaves the views and the error that Placement gives |
| Screen.Canvas.ConnectJobs | cmd/ci.go:127-138 | the pair loop leaves the cells, pairs drawn and error that Connection gives; views unchanged |
| Screen.Canvas.Redraw | cmd/ci.go:66-139 | a pass places the views as Placement does; it returns placement's error with the cells untouched, or else draws every connector and returns no error |

## Left out

- The `ciCmd` command body (cmd/ci.go:19-58) is left out. It resolves the remote, project and commit, builds the GUI, binds keys and runs the main loop, all of which is process and I/O glue.
- Fetching the jobs with `lab.CIJobs` (cmd/ci.go:62-65) is a network call. The job list is an input sequence of (name, stage, status).
- The terminal size `g.Size()` is left out. `maxX` and `maxY` are parameters of the pass.
- View positions and sizes (`Position()`, `Bounding()`) are library behaviour not visible here. They are parameters mapping a view's rectangle to a pair of integers.
- SetView failures other than "unknown view" are modelled as a fixed set of refused ids on the canvas. Which errors the terminal library actually raises is not part of this model.
- SetView on an existing view is modelled as the library documents it: the rectangle is updated and the content kept. The code relies only on not writing content again.
- Rendering is left out: colours, clipping at the terminal edge, the cell colour attributes (always the default) and `fmt` formatting. A view's text is the string written into it, and a cell is the glyph last written to it.
- `quit` and `init` are trivial, and the unused `retryChar` (cmd/ci.go:122-123, 191-196) is dead code.
- Routing.DownwardBracket: stated only for boxes with h/2 == h - 1, that is h of 1 or 2. This assumes `Bounding()` returns the box's size (x1 - x0, y1 - y0), which for the 2-row job boxes gives h = 2; `Bounding()` itself is a library call outside this model. For taller boxes the margin runs reach the foot row (h of 3 or 4) and, from h = 5, go past it.
- Routing.BracketAt: stated only while the margin runs end above the foot row (start + len <= foot), which in the bracket branch of `connect` means boxes of height 2 or less. For taller boxes the left margin run would write over the left corner, which is drawn before it, and the lemma says nothing about that case.
- Layout.JobPlaced: stated only for job names no other job has. Layout.StagePlaced: only for stage names that open a single group. With repeated names the pass reuses the earlier view and writes no new content. Layout.ReplayAt gives what the views then hold, and nothing more is claimed about it.
- Screen.Canvas.HLine, Screen.Canvas.VLine: their contracts tie the cells to Routing.Apply. The cell-by-cell statement, exactly the run's cells and nothing else, is Routing.ApplyAt.
