/**
 * The layout pass as the terminal sees it: a canvas holding the views (by
 * id) and the glyphs written to its cells, the terminal-library primitives
 * the pass calls on it (each with its own contract), and the code of the
 * pass, each part proved against the functions of Layout and Routing.
 */
module Screen {
  import opened Wrappers
  import opened Geometry
  import opened Jobs
  import opened Status
  import opened Routing
  import opened Layout

  /** What SetView did: moved an existing view, created one, or failed. */
  datatype Made = Reused | Created | Refused

  class Canvas {
    /** The views, by id. */
    var views: Views
    /** The glyphs written to the terminal cells. */
    var cells: Cells
    /** The view ids on which the terminal library fails SetView. */
    const rejects: set<string>

    /** An empty terminal. */
    constructor(rejects: set<string>)
      ensures views == map[] && cells == map[] && this.rejects == rejects
    {
      views := map[];
      cells := map[];
      this.rejects := rejects;
    }

    /**
     * SetView: a refused id fails and changes nothing; an existing view is
     * moved to the rectangle and keeps its text and colour; otherwise an
     * empty view in the default colour is created.
     */
    method SetView(id: string, r: Rect) returns (made: Made)
      modifies this
      ensures cells == old(cells)
      ensures id in rejects ==> made == Refused && views == old(views)
      ensures id !in rejects && id in old(views) ==>
                made == Reused && views == old(views)[id := old(views)[id].(rect := r)]
      ensures id !in rejects && id !in old(views) ==>
                made == Created && views == old(views)[id := View(r, "", Default)]
    {
      if id in rejects {
        made := Refused;
      } else if id in views {
        made := Reused;
        views := views[id := views[id].(rect := r)];
      } else {
        made := Created;
        views := views[id := View(r, "", Default)];
      }
    }

    /** Writes text at the end of a view's buffer. */
    method Print(id: string, s: string)
      requires id in views
      modifies this
      ensures cells == old(cells)
      ensures views == old(views)[id := old(views)[id].(text := old(views)[id].text + s)]
    {
      views := views[id := views[id].(text := views[id].text + s)];
    }

    /** Sets a view's foreground colour. */
    method SetFg(id: string, c: Colour)
      requires id in views
      modifies this
      ensures cells == old(cells)
      ensures views == old(views)[id := old(views)[id].(fg := c)]
    {
      views := views[id := views[id].(fg := c)];
    }

    /** Looks a view up; a missing view is an error naming its id. */
    method FindView(id: string) returns (r: Result<View, string>)
      ensures r.Ok? <==> id in views
      ensures r.Ok? ==> r.value == views[id]
      ensures r.Err? ==> r.error == id
    {
      if id in views {
        r := Ok(views[id]);
      } else {
        r := Err(id);
      }
    }

    /** Writes one glyph to one cell. */
    method SetCell(x: int, y: int, g: char)
      modifies this
      ensures views == old(views)
      ensures cells == old(cells)[(x, y) := g]
    {
      cells := cells[(x, y) := g];
    }

    /**
     * hline: writes the horizontal line glyph to the cells (x + i, y) for
     * 0 <= i < l, one at a time from the left (Routing.ApplyAt: exactly
     * those cells, none when l <= 0).
     */
    method HLine(x: int, y: int, l: int)
      modifies this
      ensures views == old(views)
      ensures cells == Apply(old(cells), HRun(x, y, l))
    {
      var i := 0;
      while i < l
        invariant 0 <= i <= if l < 0 then 0 else l
        invariant views == old(views)
        invariant cells == Apply(old(cells), HRun(x, y, i))
      {
        SetCell(x + i, y, Horizontal);
        i := i + 1;
      }
    }

    /**
     * vline: writes the vertical line glyph to the cells (x, y + i) for
     * 0 <= i < l, one at a time from the top (Routing.ApplyAt: exactly
     * those cells, none when l <= 0).
     */
    method VLine(x: int, y: int, l: int)
      modifies this
      ensures views == old(views)
      ensures cells == Apply(old(cells), VRun(x, y, l))
    {
      var i := 0;
      while i < l
        invariant 0 <= i <= if l < 0 then 0 else l
        invariant views == old(views)
        invariant cells == Apply(old(cells), VRun(x, y, i))
      {
        SetCell(x, y + i, Vertical);
        i := i + 1;
      }
    }

    /**
     * connect: draws the connector from view v1 to view v2, choosing the
     * shape by the offset between their positions.
     */
    method Connect(v1: View, v2: View, position: Locate, bounding: Locate)
      modifies this
      ensures views == old(views)
      ensures cells == Link(old(cells), v1, v2, position, bounding)
    {
      var (x1, y1) := position(v1.rect);
      var (x2, y2) := position(v2.rect);
      var (w, h) := bounding(v1.rect);
      ghost var start := cells;
      assert Link(start, v1, v2, position, bounding) == Connector(start, x1, y1, x2, y2, w, h);
      var dx, dy := x2 - x1, y2 - y1;
      if dy != 0 && dx != 0 {
        HLine(x1 + w, y2 + Quot(h, 2), dx - w);
        SetCell(x1 + w + Margin, y2 + Quot(h, 2), Tee);
        assert cells == Branch(start, x1 + w, y2 + Quot(h, 2), dx - w);
        return;
      }
      if dy == 0 {
        HLine(x1 + w, y1 + Quot(h, 2), dx - w);
        return;
      }
      BracketCase(start, x2, y1, y2, w, h);
      DrawBracket(x2, w, y1 + Quot(h, 2), y2 + Quot(h, 2), y1 + h, dy - 1);
    }

    /**
     * The same-column case of connect: the junction and the left foot, the
     * margin lines from row start, then the right foot.
     */
    method DrawBracket(x2: int, w: int, top: int, foot: int, start: int, len: int)
      modifies this
      ensures views == old(views)
      ensures cells == Bracket(old(cells), x2, w, top, foot, start, len)
    {
      SetCell(x2 - Margin, top, Tee);
      SetCell(x2 - 1, foot, Horizontal);
      SetCell(x2 - 2, foot, Horizontal);
      SetCell(x2 - Margin, foot, CornerLeft);
      ghost var left := cells;
      VLine(x2 - Margin, start, len);
      VLine(x2 + w + Margin, start, len);
      ghost var sides := cells;
      SetCell(x2 + w + 1, foot, Horizontal);
      SetCell(x2 + w + 2, foot, Horizontal);
      SetCell(x2 + w + Margin, foot, CornerRight);
      assert left == LeftFoot(old(cells), x2, top, foot);
      assert sides == Margins(left, x2, w, start, len);
    }

    /**
     * The stage label view of a job that opens a stage group: SetView, and
     * the stage name written into it when it is new.
     */
    method PlaceStage(stage: string, box: Rect) returns (ok: bool)
      modifies this
      ensures cells == old(cells)
      ensures var t := Touch(old(views), rejects, Visit(StageId(stage), box, StageLabel(stage), Default));
              ok == t.Some? && views == if ok then t.value else old(views)
    {
      var id := StageId(stage);
      var made := SetView(id, box);
      if made == Refused {
        return false;
      }
      if made == Created {
        Print(id, stage + "\n");
        assert views[id].text == StageLabel(stage);
      }
      ok := true;
    }

    /**
     * A job's view: SetView, and, when it is new, the colour of the job's
     * status and the status glyph, a space and the job's name written into it.
     */
    method PlaceJob(job: Job, box: Rect) returns (ok: bool)
      modifies this
      ensures cells == old(cells)
      ensures var t := Touch(old(views), rejects, Visit(JobId(job.name), box, JobLabel(job), JobColour(job)));
              ok == t.Some? && views == if ok then t.value else old(views)
    {
      var id := JobId(job.name);
      var made := SetView(id, box);
      if made == Refused {
        return false;
      }
      if made == Created {
        var d := Decorate(job.status);
        if d.colour.Some? {
          SetFg(id, d.colour.value);
        }
        Print(id, [d.glyph, ' '] + job.name + "\n");
        assert views[id] == View(box, JobLabel(job), JobColour(job));
      }
      ok := true;
    }

    /**
     * The body of the job loop for job i, once its slot is known: the stage
     * label view when the job opens a stage group, then the job's view; a
     * refused SetView ends it with that view's id.
     */
    method PlaceSlot(jobs: seq<Job>, i: nat, opens: bool, stageIdx: int, rowIdx: int, maxX: int, maxY: int, stages: nat)
      returns (err: Option<string>)
      requires i < |jobs|
      requires opens == StartsStage(jobs, i) && stageIdx == StageIdx(jobs, i) && rowIdx == RowIdx(jobs, i)
      modifies this
      ensures cells == old(cells)
      ensures Outcome(views, err) == Replay(old(views), rejects, JobVisits(jobs, i, maxX, maxY, stages))
    {
      var job := jobs[i];
      ghost var own := Visit(JobId(job.name), JobBox(maxX, maxY, stageIdx, stages, rowIdx), JobLabel(job), JobColour(job));
      if opens {
        ghost var heading := Visit(StageId(job.stage), StageBox(maxX, maxY, stageIdx, stages), StageLabel(job.stage), Default);
        ghost var before := views;
        var ok := PlaceStage(job.stage, StageBox(maxX, maxY, stageIdx, stages));
        ReplayCons(before, rejects, heading, [own]);
        if !ok {
          return Some(StageId(job.stage));
        }
      }
      ghost var staged := views;
      var ok := PlaceJob(job, JobBox(maxX, maxY, stageIdx, stages, rowIdx));
      ReplayCons(staged, rejects, own, []);
      if !ok {
        return Some(JobId(job.name));
      }
      err := None;
    }

    /**
     * The job loop of the layout pass: keeps the last stage seen, the stage
     * counter and the row counter, opening a new stage group (stage counter
     * up, row counter back to 0) when a job's stage differs from the last
     * one and moving one row down otherwise, and places each job at its
     * slot; a refused SetView ends the loop with that view's id.
     */
    method PlaceBoxes(jobs: seq<Job>, maxX: int, maxY: int, stages: nat) returns (err: Option<string>)
      modifies this
      ensures cells == old(cells)
      ensures Outcome(views, err) == Placement(old(views), rejects, jobs, maxX, maxY, stages)
    {
      var lastStage := "";
      var rowIdx, stageIdx := 0, 0;
      var i := 0;
      while i < |jobs|
        invariant 0 <= i <= |jobs|
        invariant cells == old(cells)
        invariant lastStage == if i == 0 then "" else jobs[i - 1].stage
        invariant stageIdx == if i == 0 then 0 else StageIdx(jobs, i - 1)
        invariant rowIdx == if i == 0 then 0 else RowIdx(jobs, i - 1)
        invariant Replay(views, rejects, VisitsFrom(jobs, i, maxX, maxY, stages)) ==
                  Placement(old(views), rejects, jobs, maxX, maxY, stages)
      {
        var job := jobs[i];
        var opens := job.stage != lastStage;
        if opens {
          rowIdx := 0;
          stageIdx := stageIdx + 1;
          lastStage := job.stage;
        } else {
          rowIdx := rowIdx + 1;
        }
        ghost var before := views;
        ghost var here, rest := JobVisits(jobs, i, maxX, maxY, stages), VisitsFrom(jobs, i + 1, maxX, maxY, stages);
        assert VisitsFrom(jobs, i, maxX, maxY, stages) == here + rest;
        ReplayAppend(before, rejects, here, rest);
        err := PlaceSlot(jobs, i, opens, stageIdx, rowIdx, maxX, maxY, stages);
        if err.Some? {
          return;
        }
        assert Replay(views, rejects, rest) == Placement(old(views), rejects, jobs, maxX, maxY, stages);
        i := i + 1;
      }
      err := None;
    }

    /**
     * The connector loop: for each consecutive pair of jobs, looks up the
     * first view and then the second, failing with the id of a missing one,
     * and connects them.
     */
    method ConnectJobs(jobs: seq<Job>, position: Locate, bounding: Locate) returns (drawn: nat, err: Option<string>)
      modifies this
      ensures views == old(views)
      ensures Drawing(cells, drawn, err) == Connection(old(cells), views, jobs, position, bounding)
    {
      drawn := 0;
      var i, k := 0, 1;
      while k < |jobs|
        invariant k == i + 1 && drawn == i
        invariant views == old(views)
        invariant var d := ConnectFrom(cells, views, jobs, position, bounding, i);
                  d.(drawn := d.drawn + i) == Connection(old(cells), views, jobs, position, bounding)
      {
        var v1 := FindView(JobId(jobs[i].name));
        if v1.Err? {
          return drawn, Some(v1.error);
        }
        var v2 := FindView(JobId(jobs[k].name));
        if v2.Err? {
          return drawn, Some(v2.error);
        }
        Connect(v1.value, v2.value, position, bounding);
        drawn := drawn + 1;
        i, k := i + 1, k + 1;
      }
      err := None;
    }

    /**
     * One layout pass over the job list on a maxX by maxY terminal: count
     * the stages, place the boxes, then connect consecutive jobs. A failed
     * SetView ends the pass before any connector is drawn; after a placement
     * that succeeds, every lookup of the connector loop succeeds.
     */
    method Redraw(jobs: seq<Job>, maxX: int, maxY: int, position: Locate, bounding: Locate) returns (err: Option<string>)
      modifies this
      ensures var placed := Placement(old(views), rejects, jobs, maxX, maxY, |NamedStageJobs(jobs)|);
              && views == placed.views
              && (placed.err.Some? ==> err == placed.err && cells == old(cells))
              && (placed.err.None? ==> err.None? && cells == Connection(old(cells), views, jobs, position, bounding).cells)
    {
      var stages := CountStages(jobs);
      err := PlaceBoxes(jobs, maxX, maxY, stages);
      if err.Some? {
        return;
      }
      PlacedJobsConnect(old(views), rejects, jobs, maxX, maxY, stages, cells, position, bounding);
      var drawn;
      drawn, err := ConnectJobs(jobs, position, bounding);
    }
  }
}
