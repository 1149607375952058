/**
 * What one layout pass does to the views and to the cell table, as
 * functions of the job list and the state before the pass:
 * - placement: the ordered SetView calls of the job loop (a stage view when a
 *   job opens a stage group, then the job's view), each creating a view,
 *   moving an existing one or failing;
 * - connection: the loop over consecutive job pairs, which looks both views
 *   up and draws the connector between them.
 */
module Layout {
  import opened Wrappers
  import opened Geometry
  import opened Jobs
  import opened Status
  import opened Routing

  /** A view: its rectangle, the text written into it, and its foreground colour. */
  datatype View = View(rect: Rect, text: string, fg: Colour)

  /** The views of the terminal, by id. */
  type Views = map<string, View>

  /** The view with the given id, if there is one. */
  function Find(views: Views, id: string): Option<View>
  {
    if id in views then Some(views[id]) else None
  }

  /** Two view tables that agree on every id are equal. */
  lemma FindExtensional(a: Views, b: Views)
    requires forall id :: Find(a, id) == Find(b, id)
    ensures a == b
  {
    assert a.Keys == b.Keys by {
      forall id | id in a.Keys ensures id in b.Keys {
        assert Find(a, id).Some?;
      }
      forall id | id in b.Keys ensures id in a.Keys {
        assert Find(b, id).Some?;
      }
    }
    forall id | id in a.Keys ensures a[id] == b[id] {
      assert Find(a, id) == Find(b, id);
    }
  }

  const JobPrefix: string := "jobs-"
  const StagePrefix: string := "stage-"

  /** The id of a job's view. */
  function JobId(name: string): string
  {
    JobPrefix + name
  }

  /** The id of a stage's label view. */
  function StageId(stage: string): string
  {
    StagePrefix + stage
  }

  /** A job view and a stage view never share an id, whatever the names. */
  lemma IdsDisjoint(name: string, stage: string)
    ensures JobId(name) != StageId(stage)
  {
    assert JobId(name)[0] != StageId(stage)[0];
  }

  /** Jobs with different names get different view ids. */
  lemma JobIdInjective(a: string, b: string)
    ensures JobId(a) == JobId(b) <==> a == b
  {
    if JobId(a) == JobId(b) {
      assert a == JobId(a)[|JobPrefix|..];
    }
  }

  /** Stages with different names get different view ids. */
  lemma StageIdInjective(a: string, b: string)
    ensures StageId(a) == StageId(b) <==> a == b
  {
    if StageId(a) == StageId(b) {
      assert a == StageId(a)[|StagePrefix|..];
    }
  }

  /**
   * One SetView call of the job loop: the id and rectangle asked for, and
   * the text and colour the view is given when the call creates it.
   */
  datatype Visit = Visit(id: string, rect: Rect, text: string, fg: Colour)

  /**
   * The calls made for job k: when the job opens a stage group, first the
   * stage label box at the new stage number; then the job's box at its
   * (stage number, row) slot.
   */
  function JobVisits(jobs: seq<Job>, k: nat, maxX: int, maxY: int, stages: nat): seq<Visit>
    requires k < |jobs|
  {
    var job := jobs[k];
    var s := StageIdx(jobs, k);
    var own := Visit(JobId(job.name), JobBox(maxX, maxY, s, stages, RowIdx(jobs, k)), JobLabel(job), JobColour(job));
    if StartsStage(jobs, k) then
      [Visit(StageId(job.stage), StageBox(maxX, maxY, s, stages), StageLabel(job.stage), Default), own]
    else
      [own]
  }

  /** The calls made for jobs k, k+1, ..., in order. */
  function VisitsFrom(jobs: seq<Job>, k: nat, maxX: int, maxY: int, stages: nat): seq<Visit>
    requires k <= |jobs|
    decreases |jobs| - k
  {
    if k == |jobs| then [] else JobVisits(jobs, k, maxX, maxY, stages) + VisitsFrom(jobs, k + 1, maxX, maxY, stages)
  }

  /**
   * One SetView call on the views: an id the terminal refuses is an error;
   * an existing view is moved to the new rectangle and keeps its text and
   * colour; otherwise a view is created and given the call's text and colour.
   */
  function Touch(views: Views, rejects: set<string>, v: Visit): Option<Views>
  {
    if v.id in rejects then None
    else if v.id in views then Some(views[v.id := views[v.id].(rect := v.rect)])
    else Some(views[v.id := View(v.rect, v.text, v.fg)])
  }

  /** The views after a sequence of calls, and the id of the call that failed, if one did. */
  datatype Outcome = Outcome(views: Views, err: Option<string>)

  /** The calls made one after another; the first failing call ends the sequence. */
  function Replay(views: Views, rejects: set<string>, visits: seq<Visit>): Outcome
    decreases |visits|
  {
    if |visits| == 0 then Outcome(views, None)
    else match Touch(views, rejects, visits[0])
      case None => Outcome(views, Some(visits[0].id))
      case Some(next) => Replay(next, rejects, visits[1..])
  }

  /** The placement half of a layout pass. */
  function Placement(views: Views, rejects: set<string>, jobs: seq<Job>, maxX: int, maxY: int, stages: nat): Outcome
  {
    Replay(views, rejects, VisitsFrom(jobs, 0, maxX, maxY, stages))
  }

  /** The first call with the given id. */
  function FirstVisit(visits: seq<Visit>, id: string): Option<Visit>
    decreases |visits|
  {
    if |visits| == 0 then None
    else if visits[0].id == id then Some(visits[0])
    else FirstVisit(visits[1..], id)
  }

  /** The last call with the given id. */
  function LastVisit(visits: seq<Visit>, id: string): Option<Visit>
    decreases |visits|
  {
    if |visits| == 0 then None
    else match LastVisit(visits[1..], id)
      case Some(l) => Some(l)
      case None => if visits[0].id == id then Some(visits[0]) else None
  }

  /** There is a first call with an id exactly when there is a last one, and both carry the id. */
  lemma {:induction false} FirstLastAgree(visits: seq<Visit>, id: string)
    ensures FirstVisit(visits, id).Some? <==> LastVisit(visits, id).Some?
    ensures FirstVisit(visits, id).Some? ==> FirstVisit(visits, id).value.id == id
    ensures LastVisit(visits, id).Some? ==> LastVisit(visits, id).value.id == id
    decreases |visits|
  {
    if |visits| > 0 {
      FirstLastAgree(visits[1..], id);
    }
  }

  /** The first call with an id in a concatenation: the one in the first part, if there is one. */
  lemma {:induction false} FirstVisitAppend(a: seq<Visit>, b: seq<Visit>, id: string)
    ensures FirstVisit(a + b, id) == if FirstVisit(a, id).Some? then FirstVisit(a, id) else FirstVisit(b, id)
    decreases |a|
  {
    if |a| > 0 {
      assert (a + b)[1..] == a[1..] + b;
      FirstVisitAppend(a[1..], b, id);
    } else {
      assert a + b == b;
    }
  }

  /** The last call with an id in a concatenation: the one in the second part, if there is one. */
  lemma {:induction false} LastVisitAppend(a: seq<Visit>, b: seq<Visit>, id: string)
    ensures LastVisit(a + b, id) == if LastVisit(b, id).Some? then LastVisit(b, id) else LastVisit(a, id)
    decreases |a|
  {
    if |a| > 0 {
      assert (a + b)[1..] == a[1..] + b;
      LastVisitAppend(a[1..], b, id);
    } else {
      assert a + b == b;
    }
  }

  /**
   * A sequence of calls fails exactly when one of its ids is refused, and
   * then it fails at the first such call.
   */
  lemma {:induction false} ReplayError(views: Views, rejects: set<string>, visits: seq<Visit>)
    ensures Replay(views, rejects, visits).err.None? <==> forall i :: 0 <= i < |visits| ==> visits[i].id !in rejects
    ensures Replay(views, rejects, visits).err.Some? ==>
              exists i :: 0 <= i < |visits| && Replay(views, rejects, visits).err == Some(visits[i].id) &&
                visits[i].id in rejects && forall j :: 0 <= j < i ==> visits[j].id !in rejects
    decreases |visits|
  {
    if |visits| > 0 {
      match Touch(views, rejects, visits[0])
      case None =>
      case Some(next) =>
        ReplayError(next, rejects, visits[1..]);
        var o := Replay(views, rejects, visits);
        if o.err.Some? {
          var i :| 0 <= i < |visits[1..]| && o.err == Some(visits[1..][i].id) &&
            visits[1..][i].id in rejects && forall j :: 0 <= j < i ==> visits[1..][j].id !in rejects;
          assert forall j :: 0 <= j < i + 1 ==> visits[j].id !in rejects by {
            forall j | 0 <= j < i + 1 ensures visits[j].id !in rejects {
              if j > 0 {
                assert visits[j] == visits[1..][j - 1];
              }
            }
          }
          assert o.err == Some(visits[i + 1].id);
        } else {
          forall i | 0 <= i < |visits| ensures visits[i].id !in rejects {
            if i > 0 {
              assert visits[i] == visits[1..][i - 1];
            }
          }
        }
    }
  }

  /**
   * On success, what a sequence of calls leaves at each id: an id no call
   * names is untouched; a named id holds a view at the rectangle of its last
   * call, with the text and colour it had before or, when the first call
   * created it, the text and colour of that first call.
   */
  lemma {:induction false} ReplayAt(views: Views, rejects: set<string>, visits: seq<Visit>, id: string)
    requires Replay(views, rejects, visits).err.None?
    ensures Find(Replay(views, rejects, visits).views, id) ==
              match (FirstVisit(visits, id), LastVisit(visits, id))
              case (Some(f), Some(l)) =>
                Some(if id in views then views[id].(rect := l.rect) else View(l.rect, f.text, f.fg))
              case _ => Find(views, id)
    decreases |visits|
  {
    if |visits| > 0 {
      var next := Touch(views, rejects, visits[0]).value;
      ReplayAt(next, rejects, visits[1..], id);
      FirstLastAgree(visits[1..], id);
    }
  }

  /** Calls that do not name an id leave it as it was, also when a call fails. */
  lemma {:induction false} ReplayUntouched(views: Views, rejects: set<string>, visits: seq<Visit>, id: string)
    requires forall i :: 0 <= i < |visits| ==> visits[i].id != id
    ensures Find(Replay(views, rejects, visits).views, id) == Find(views, id)
    decreases |visits|
  {
    if |visits| > 0 {
      match Touch(views, rejects, visits[0])
      case None =>
      case Some(next) =>
        forall i | 0 <= i < |visits[1..]| ensures visits[1..][i].id != id {
          assert visits[1..][i] == visits[i + 1];
        }
        ReplayUntouched(next, rejects, visits[1..], id);
    }
  }

  /** Running a call and then more calls. */
  lemma ReplayCons(views: Views, rejects: set<string>, v: Visit, rest: seq<Visit>)
    ensures Replay(views, rejects, [v] + rest) ==
              match Touch(views, rejects, v)
              case None => Outcome(views, Some(v.id))
              case Some(next) => Replay(next, rejects, rest)
  {
    assert ([v] + rest)[1..] == rest;
  }

  /** Running a concatenation is running the first part and, if it succeeds, the second from there. */
  lemma {:induction false} ReplayAppend(views: Views, rejects: set<string>, a: seq<Visit>, b: seq<Visit>)
    ensures Replay(views, rejects, a + b) ==
              var o := Replay(views, rejects, a);
              if o.err.Some? then o else Replay(o.views, rejects, b)
    decreases |a|
  {
    if |a| > 0 {
      assert (a + b)[0] == a[0];
      assert (a + b)[1..] == a[1..] + b;
      match Touch(views, rejects, a[0])
      case None =>
      case Some(next) => ReplayAppend(next, rejects, a[1..], b);
    } else {
      assert a + b == b;
    }
  }

  /** A concatenation succeeds exactly when its first part does and the second then does too. */
  lemma ReplayAppendSucceeds(views: Views, rejects: set<string>, a: seq<Visit>, b: seq<Visit>)
    ensures Replay(views, rejects, a + b).err.None? <==>
              Replay(views, rejects, a).err.None? && Replay(Replay(views, rejects, a).views, rejects, b).err.None?
  {
    ReplayAppend(views, rejects, a, b);
  }

  /**
   * A successful sequence of calls, made again on the views it produced,
   * succeeds and changes nothing: every view it names already exists and
   * already has the rectangle of its last call.
   */
  lemma ReplayIdempotent(views: Views, rejects: set<string>, visits: seq<Visit>)
    requires Replay(views, rejects, visits).err.None?
    ensures var after := Replay(views, rejects, visits).views;
            Replay(after, rejects, visits) == Outcome(after, None)
  {
    var after := Replay(views, rejects, visits).views;
    ReplayError(views, rejects, visits);
    ReplayError(after, rejects, visits);
    var again := Replay(after, rejects, visits).views;
    forall id ensures Find(again, id) == Find(after, id) {
      ReplayAt(views, rejects, visits, id);
      ReplayAt(after, rejects, visits, id);
    }
    FindExtensional(again, after);
  }

  /** Neither the view id of job k nor, when it opens a group, that of its stage is refused. */
  predicate Accepted(rejects: set<string>, jobs: seq<Job>, k: nat)
    requires k < |jobs|
  {
    JobId(jobs[k].name) !in rejects && (StartsStage(jobs, k) ==> StageId(jobs[k].stage) !in rejects)
  }

  /** The calls for one job fail exactly when one of its ids is refused. */
  lemma JobVisitsFail(views: Views, rejects: set<string>, jobs: seq<Job>, k: nat, maxX: int, maxY: int, stages: nat)
    requires k < |jobs|
    ensures Replay(views, rejects, JobVisits(jobs, k, maxX, maxY, stages)).err.None? <==> Accepted(rejects, jobs, k)
  {
    var here := JobVisits(jobs, k, maxX, maxY, stages);
    ReplayError(views, rejects, here);
    if StartsStage(jobs, k) {
      assert here[0].id == StageId(jobs[k].stage) && here[1].id == JobId(jobs[k].name) && |here| == 2;
    } else {
      assert here[0].id == JobId(jobs[k].name) && |here| == 1;
    }
  }

  /** Every job from k on is accepted. */
  predicate AcceptedFrom(rejects: set<string>, jobs: seq<Job>, k: nat)
    requires k <= |jobs|
    decreases |jobs| - k
  {
    k == |jobs| || (Accepted(rejects, jobs, k) && AcceptedFrom(rejects, jobs, k + 1))
  }

  /** AcceptedFrom holds exactly when each job from k on is accepted. */
  lemma {:induction false} AcceptedFromAll(rejects: set<string>, jobs: seq<Job>, k: nat)
    requires k <= |jobs|
    ensures AcceptedFrom(rejects, jobs, k) <==> forall j :: k <= j < |jobs| ==> Accepted(rejects, jobs, j)
    decreases |jobs| - k
  {
    if k < |jobs| {
      AcceptedFromAll(rejects, jobs, k + 1);
    }
  }

  /** The placement of jobs k, k+1, ... fails exactly when one of their ids is refused. */
  lemma {:induction false} PlacementFromFails(views: Views, rejects: set<string>, jobs: seq<Job>, k: nat,
                                              maxX: int, maxY: int, stages: nat)
    requires k <= |jobs|
    ensures Replay(views, rejects, VisitsFrom(jobs, k, maxX, maxY, stages)).err.None? <==> AcceptedFrom(rejects, jobs, k)
    decreases |jobs| - k
  {
    if k < |jobs| {
      var here, rest := JobVisits(jobs, k, maxX, maxY, stages), VisitsFrom(jobs, k + 1, maxX, maxY, stages);
      ReplayAppendSucceeds(views, rejects, here, rest);
      JobVisitsFail(views, rejects, jobs, k, maxX, maxY, stages);
      PlacementFromFails(Replay(views, rejects, here).views, rejects, jobs, k + 1, maxX, maxY, stages);
    }
  }

  /**
   * The placement fails exactly when the view id of some job, or of some
   * stage where a group opens, is refused.
   */
  lemma PlacementFails(views: Views, rejects: set<string>, jobs: seq<Job>, maxX: int, maxY: int, stages: nat)
    ensures Placement(views, rejects, jobs, maxX, maxY, stages).err.None? <==>
              forall j :: 0 <= j < |jobs| ==> Accepted(rejects, jobs, j)
  {
    PlacementFromFails(views, rejects, jobs, 0, maxX, maxY, stages);
    AcceptedFromAll(rejects, jobs, 0);
  }

  /** When the calls for jobs k, k+1, ... do not name an id, no call does. */
  lemma {:induction false} NotVisited(jobs: seq<Job>, k: nat, maxX: int, maxY: int, stages: nat, id: string)
    requires k <= |jobs|
    requires forall j :: k <= j < |jobs| ==>
               JobId(jobs[j].name) != id && (StartsStage(jobs, j) ==> StageId(jobs[j].stage) != id)
    ensures FirstVisit(VisitsFrom(jobs, k, maxX, maxY, stages), id).None?
    decreases |jobs| - k
  {
    if k < |jobs| {
      NotVisited(jobs, k + 1, maxX, maxY, stages, id);
      JobVisitsIds(jobs, k, maxX, maxY, stages, id);
      FirstVisitAppend(JobVisits(jobs, k, maxX, maxY, stages), VisitsFrom(jobs, k + 1, maxX, maxY, stages), id);
    }
  }

  /** Every job k' >= k has its view named by the calls for jobs k, k+1, .... */
  lemma {:induction false} JobVisited(jobs: seq<Job>, k: nat, k': nat, maxX: int, maxY: int, stages: nat)
    requires k <= k' < |jobs|
    ensures FirstVisit(VisitsFrom(jobs, k, maxX, maxY, stages), JobId(jobs[k'].name)).Some?
    decreases |jobs| - k
  {
    var id := JobId(jobs[k'].name);
    JobVisitsIds(jobs, k, maxX, maxY, stages, id);
    FirstVisitAppend(JobVisits(jobs, k, maxX, maxY, stages), VisitsFrom(jobs, k + 1, maxX, maxY, stages), id);
    if k < k' {
      JobVisited(jobs, k + 1, k', maxX, maxY, stages);
    }
  }

  /** The first and the last call with an id among a single call. */
  lemma SingleVisit(a: Visit, id: string)
    ensures FirstVisit([a], id) == LastVisit([a], id) == if a.id == id then Some(a) else None
  {
    assert [a][1..] == [];
  }

  /** The first and the last call with an id among two calls. */
  lemma PairVisits(a: Visit, b: Visit, id: string)
    ensures FirstVisit([a, b], id) == if a.id == id then Some(a) else if b.id == id then Some(b) else None
    ensures LastVisit([a, b], id) == if b.id == id then Some(b) else if a.id == id then Some(a) else None
  {
    assert [a, b][1..] == [b];
    SingleVisit(b, id);
  }

  /** The calls for job k: its stage's label when it opens a group, then its own box. */
  lemma JobVisitsShape(jobs: seq<Job>, k: nat, maxX: int, maxY: int, stages: nat, id: string)
    requires k < |jobs|
    ensures var s := StageIdx(jobs, k);
            var own := Visit(JobId(jobs[k].name), JobBox(maxX, maxY, s, stages, RowIdx(jobs, k)),
                             JobLabel(jobs[k]), JobColour(jobs[k]));
            var heading := Visit(StageId(jobs[k].stage), StageBox(maxX, maxY, s, stages), StageLabel(jobs[k].stage), Default);
            var here := JobVisits(jobs, k, maxX, maxY, stages);
            && FirstVisit(here, id) == (if StartsStage(jobs, k) && heading.id == id then Some(heading)
                                        else if own.id == id then Some(own) else None)
            && LastVisit(here, id) == (if own.id == id then Some(own)
                                       else if StartsStage(jobs, k) && heading.id == id then Some(heading) else None)
  {
    var here := JobVisits(jobs, k, maxX, maxY, stages);
    if StartsStage(jobs, k) {
      PairVisits(here[0], here[1], id);
    } else {
      SingleVisit(here[0], id);
    }
  }

  /** The calls for job k name its own view and, when it opens a group, its stage's, and no other. */
  lemma JobVisitsIds(jobs: seq<Job>, k: nat, maxX: int, maxY: int, stages: nat, id: string)
    requires k < |jobs|
    ensures var named := id == JobId(jobs[k].name) || (StartsStage(jobs, k) && id == StageId(jobs[k].stage));
            var here := JobVisits(jobs, k, maxX, maxY, stages);
            (FirstVisit(here, id).Some? <==> named) && (LastVisit(here, id).Some? <==> named)
  {
    JobVisitsShape(jobs, k, maxX, maxY, stages, id);
  }

  /**
   * The only call for a job whose name no other job has is the one for its
   * own box, at its slot.
   */
  lemma {:induction false} UniqueJobVisit(jobs: seq<Job>, k: nat, k': nat, maxX: int, maxY: int, stages: nat)
    requires k <= k' < |jobs|
    requires forall j :: 0 <= j < |jobs| && j != k' ==> jobs[j].name != jobs[k'].name
    ensures var id := JobId(jobs[k'].name);
            var own := Visit(id, JobBox(maxX, maxY, StageIdx(jobs, k'), stages, RowIdx(jobs, k')),
                             JobLabel(jobs[k']), JobColour(jobs[k']));
            var visits := VisitsFrom(jobs, k, maxX, maxY, stages);
            FirstVisit(visits, id) == Some(own) && LastVisit(visits, id) == Some(own)
    decreases |jobs| - k
  {
    if k < k' {
      var id := JobId(jobs[k'].name);
      var here := JobVisits(jobs, k, maxX, maxY, stages);
      var rest := VisitsFrom(jobs, k + 1, maxX, maxY, stages);
      FirstVisitAppend(here, rest, id);
      LastVisitAppend(here, rest, id);
      IdsDisjoint(jobs[k'].name, jobs[k].stage);
      JobIdInjective(jobs[k].name, jobs[k'].name);
      JobVisitsIds(jobs, k, maxX, maxY, stages, id);
      UniqueJobVisit(jobs, k + 1, k', maxX, maxY, stages);
    } else {
      OwnJobVisit(jobs, k, maxX, maxY, stages);
    }
  }

  /** The calls for jobs k, k+1, ... name job k's view once, for its box, when no later job has its name. */
  lemma OwnJobVisit(jobs: seq<Job>, k: nat, maxX: int, maxY: int, stages: nat)
    requires k < |jobs|
    requires forall j :: k < j < |jobs| ==> jobs[j].name != jobs[k].name
    ensures var id := JobId(jobs[k].name);
            var own := Visit(id, JobBox(maxX, maxY, StageIdx(jobs, k), stages, RowIdx(jobs, k)),
                             JobLabel(jobs[k]), JobColour(jobs[k]));
            var visits := VisitsFrom(jobs, k, maxX, maxY, stages);
            FirstVisit(visits, id) == Some(own) && LastVisit(visits, id) == Some(own)
  {
    var id := JobId(jobs[k].name);
    var here := JobVisits(jobs, k, maxX, maxY, stages);
    var rest := VisitsFrom(jobs, k + 1, maxX, maxY, stages);
    forall j | k + 1 <= j < |jobs| ensures JobId(jobs[j].name) != id && StageId(jobs[j].stage) != id {
      JobIdInjective(jobs[j].name, jobs[k].name);
      IdsDisjoint(jobs[k].name, jobs[j].stage);
    }
    NotVisited(jobs, k + 1, maxX, maxY, stages, id);
    FirstLastAgree(rest, id);
    IdsDisjoint(jobs[k].name, jobs[k].stage);
    JobVisitsShape(jobs, k, maxX, maxY, stages, id);
    FirstVisitAppend(here, rest, id);
    LastVisitAppend(here, rest, id);
  }

  /**
   * The only call for a stage whose name opens no other group is the one
   * for its label box, where its group opens.
   */
  lemma {:induction false} UniqueStageVisit(jobs: seq<Job>, k: nat, k': nat, maxX: int, maxY: int, stages: nat)
    requires k <= k' < |jobs| && StartsStage(jobs, k')
    requires forall j :: 0 <= j < |jobs| && j != k' && StartsStage(jobs, j) ==> jobs[j].stage != jobs[k'].stage
    ensures var id := StageId(jobs[k'].stage);
            var own := Visit(id, StageBox(maxX, maxY, StageIdx(jobs, k'), stages), StageLabel(jobs[k'].stage), Default);
            var visits := VisitsFrom(jobs, k, maxX, maxY, stages);
            FirstVisit(visits, id) == Some(own) && LastVisit(visits, id) == Some(own)
    decreases |jobs| - k
  {
    if k < k' {
      var id := StageId(jobs[k'].stage);
      var here := JobVisits(jobs, k, maxX, maxY, stages);
      var rest := VisitsFrom(jobs, k + 1, maxX, maxY, stages);
      FirstVisitAppend(here, rest, id);
      LastVisitAppend(here, rest, id);
      IdsDisjoint(jobs[k].name, jobs[k'].stage);
      StageIdInjective(jobs[k].stage, jobs[k'].stage);
      JobVisitsIds(jobs, k, maxX, maxY, stages, id);
      UniqueStageVisit(jobs, k + 1, k', maxX, maxY, stages);
    } else {
      OwnStageVisit(jobs, k, maxX, maxY, stages);
    }
  }

  /**
   * The calls for jobs k, k+1, ... name the stage view of a job k that opens
   * a group once, for its label box, when no later group has its stage name.
   */
  lemma OwnStageVisit(jobs: seq<Job>, k: nat, maxX: int, maxY: int, stages: nat)
    requires k < |jobs| && StartsStage(jobs, k)
    requires forall j :: k < j < |jobs| && StartsStage(jobs, j) ==> jobs[j].stage != jobs[k].stage
    ensures var id := StageId(jobs[k].stage);
            var own := Visit(id, StageBox(maxX, maxY, StageIdx(jobs, k), stages), StageLabel(jobs[k].stage), Default);
            var visits := VisitsFrom(jobs, k, maxX, maxY, stages);
            FirstVisit(visits, id) == Some(own) && LastVisit(visits, id) == Some(own)
  {
    var id := StageId(jobs[k].stage);
    var here := JobVisits(jobs, k, maxX, maxY, stages);
    var rest := VisitsFrom(jobs, k + 1, maxX, maxY, stages);
    forall j | k + 1 <= j < |jobs|
      ensures JobId(jobs[j].name) != id && (StartsStage(jobs, j) ==> StageId(jobs[j].stage) != id)
    {
      IdsDisjoint(jobs[j].name, jobs[k].stage);
      StageIdInjective(jobs[j].stage, jobs[k].stage);
    }
    NotVisited(jobs, k + 1, maxX, maxY, stages, id);
    FirstLastAgree(rest, id);
    IdsDisjoint(jobs[k].name, jobs[k].stage);
    JobVisitsShape(jobs, k, maxX, maxY, stages, id);
    FirstVisitAppend(here, rest, id);
    LastVisitAppend(here, rest, id);
  }

  /**
   * After a successful placement every job has a view.
   */
  lemma JobsPlaced(views: Views, rejects: set<string>, jobs: seq<Job>, maxX: int, maxY: int, stages: nat)
    requires Placement(views, rejects, jobs, maxX, maxY, stages).err.None?
    ensures forall k :: 0 <= k < |jobs| ==> JobId(jobs[k].name) in Placement(views, rejects, jobs, maxX, maxY, stages).views
  {
    var visits := VisitsFrom(jobs, 0, maxX, maxY, stages);
    forall k | 0 <= k < |jobs| ensures JobId(jobs[k].name) in Placement(views, rejects, jobs, maxX, maxY, stages).views {
      var id := JobId(jobs[k].name);
      JobVisited(jobs, 0, k, maxX, maxY, stages);
      FirstLastAgree(visits, id);
      ReplayAt(views, rejects, visits, id);
    }
  }

  /**
   * After a successful placement, a job whose name no other job has sits at
   * the box of its (stage number, row) slot; a view created by this pass
   * holds the job's label in the job's status colour, and a view that
   * already existed keeps its text and colour.
   */
  lemma JobPlaced(views: Views, rejects: set<string>, jobs: seq<Job>, maxX: int, maxY: int, stages: nat, k: nat)
    requires k < |jobs|
    requires forall j :: 0 <= j < |jobs| && j != k ==> jobs[j].name != jobs[k].name
    requires Placement(views, rejects, jobs, maxX, maxY, stages).err.None?
    ensures var id := JobId(jobs[k].name);
            var box := JobBox(maxX, maxY, StageIdx(jobs, k), stages, RowIdx(jobs, k));
            Find(Placement(views, rejects, jobs, maxX, maxY, stages).views, id) ==
              Some(if id in views then views[id].(rect := box) else View(box, JobLabel(jobs[k]), JobColour(jobs[k])))
  {
    UniqueJobVisit(jobs, 0, k, maxX, maxY, stages);
    ReplayAt(views, rejects, VisitsFrom(jobs, 0, maxX, maxY, stages), JobId(jobs[k].name));
  }

  /**
   * After a successful placement, a stage whose name opens one group only
   * has its label box above that group's column; a label view created by
   * this pass holds the stage name in the default colour.
   */
  lemma StagePlaced(views: Views, rejects: set<string>, jobs: seq<Job>, maxX: int, maxY: int, stages: nat, k: nat)
    requires k < |jobs| && StartsStage(jobs, k)
    requires forall j :: 0 <= j < |jobs| && j != k && StartsStage(jobs, j) ==> jobs[j].stage != jobs[k].stage
    requires Placement(views, rejects, jobs, maxX, maxY, stages).err.None?
    ensures var id := StageId(jobs[k].stage);
            var box := StageBox(maxX, maxY, StageIdx(jobs, k), stages);
            Find(Placement(views, rejects, jobs, maxX, maxY, stages).views, id) ==
              Some(if id in views then views[id].(rect := box) else View(box, StageLabel(jobs[k].stage), Default))
  {
    UniqueStageVisit(jobs, 0, k, maxX, maxY, stages);
    ReplayAt(views, rejects, VisitsFrom(jobs, 0, maxX, maxY, stages), StageId(jobs[k].stage));
  }

  /**
   * A view whose id is neither a job's nor a stage's of this job list is
   * left as it was, also when the placement fails.
   */
  lemma OtherViewsKept(views: Views, rejects: set<string>, jobs: seq<Job>, maxX: int, maxY: int, stages: nat, id: string)
    requires forall j :: 0 <= j < |jobs| ==> JobId(jobs[j].name) != id && StageId(jobs[j].stage) != id
    ensures Find(Placement(views, rejects, jobs, maxX, maxY, stages).views, id) == Find(views, id)
  {
    var visits := VisitsFrom(jobs, 0, maxX, maxY, stages);
    NotVisited(jobs, 0, maxX, maxY, stages, id);
    forall i | 0 <= i < |visits| ensures visits[i].id != id {
      FirstVisitNone(visits, id, i);
    }
    ReplayUntouched(views, rejects, visits, id);
  }

  /** No call names an id that has no first call. */
  lemma {:induction false} FirstVisitNone(visits: seq<Visit>, id: string, i: nat)
    requires i < |visits| && FirstVisit(visits, id).None?
    ensures visits[i].id != id
    decreases i
  {
    if i > 0 {
      assert visits[i] == visits[1..][i - 1];
      FirstVisitNone(visits[1..], id, i - 1);
    }
  }

  /**
   * A successful layout pass, run again on the views it produced with the
   * same job list and terminal size, succeeds and changes no view: no view
   * is created twice and no text is written twice.
   */
  lemma PlacementIdempotent(views: Views, rejects: set<string>, jobs: seq<Job>, maxX: int, maxY: int, stages: nat)
    requires Placement(views, rejects, jobs, maxX, maxY, stages).err.None?
    ensures var after := Placement(views, rejects, jobs, maxX, maxY, stages).views;
            Placement(after, rejects, jobs, maxX, maxY, stages) == Outcome(after, None)
  {
    ReplayIdempotent(views, rejects, VisitsFrom(jobs, 0, maxX, maxY, stages));
  }

  /**
   * On a terminal at least 15 columns wide per column (stages + 1 of them),
   * the boxes of two different jobs never overlap: a later job is either in
   * a later stage group, strictly right of the earlier box, or further down
   * the same group, strictly below it.
   */
  lemma SlotBoxesApart(jobs: seq<Job>, k: nat, k': nat, maxX: int, maxY: int, stages: nat)
    requires k < k' < |jobs|
    requires maxX >= (2 * HalfWidth + 1) * (stages + 1)
    ensures var a := JobBox(maxX, maxY, StageIdx(jobs, k), stages, RowIdx(jobs, k));
            var b := JobBox(maxX, maxY, StageIdx(jobs, k'), stages, RowIdx(jobs, k'));
            a.x1 < b.x0 || a.y1 < b.y0
  {
    StageIdxGrowth(jobs, k, k');
    if StageIdx(jobs, k) < StageIdx(jobs, k') {
      ColumnsDisjoint(maxX, maxY, stages, StageIdx(jobs, k), StageIdx(jobs, k'), RowIdx(jobs, k), RowIdx(jobs, k'));
    } else {
      RowsInGroup(jobs, k, k');
      RowsDisjoint(maxX, maxY, StageIdx(jobs, k), stages, RowIdx(jobs, k), RowIdx(jobs, k'));
    }
  }

  /**
   * When no stage name is empty, the column centre of every job's stage
   * number, with the counted stages, lies on a screen of positive width.
   */
  lemma ColumnsOnScreen(jobs: seq<Job>, k: nat, maxX: int)
    requires k < |jobs| && maxX > 0
    requires forall i :: 0 <= i < |jobs| ==> jobs[i].stage != ""
    ensures 0 <= ColumnCentre(maxX, StageIdx(jobs, k), |NamedStageJobs(jobs)|) < maxX
  {
    StageIdxWithinCount(jobs, k);
    CentreOnScreen(maxX, StageIdx(jobs, k), |NamedStageJobs(jobs)|);
  }

  /** A view's position (column and row of its top-left corner), as the terminal library reports it. */
  type Locate = Rect -> (int, int)

  /** The connector from view a to view b, with the first view's bounding size. */
  function Link(cells: Cells, a: View, b: View, position: Locate, bounding: Locate): Cells
  {
    var (x1, y1) := position(a.rect);
    var (x2, y2) := position(b.rect);
    var (w, h) := bounding(a.rect);
    Connector(cells, x1, y1, x2, y2, w, h)
  }

  /** The cells after the connector loop, the number of pairs it connected, and the id it failed on, if any. */
  datatype Drawing = Drawing(cells: Cells, drawn: nat, err: Option<string>)

  /**
   * The connector loop from pair (i, i+1) on: both views of a pair are
   * looked up, the first one first; a missing view ends the loop with its
   * id, otherwise the pair is connected and the loop goes on.
   */
  function ConnectFrom(cells: Cells, views: Views, jobs: seq<Job>, position: Locate, bounding: Locate, i: nat): Drawing
    decreases |jobs| - i
  {
    if i + 1 >= |jobs| then Drawing(cells, 0, None)
    else
      var a, b := JobId(jobs[i].name), JobId(jobs[i + 1].name);
      if a !in views then Drawing(cells, 0, Some(a))
      else if b !in views then Drawing(cells, 0, Some(b))
      else
        var d := ConnectFrom(Link(cells, views[a], views[b], position, bounding), views, jobs, position, bounding, i + 1);
        d.(drawn := d.drawn + 1)
  }

  /** The connector loop over the whole job list. */
  function Connection(cells: Cells, views: Views, jobs: seq<Job>, position: Locate, bounding: Locate): Drawing
  {
    ConnectFrom(cells, views, jobs, position, bounding, 0)
  }

  /** Pairs (i, i+1), ..., (i+n-1, i+n) connected one after the other. */
  function DrawPairs(cells: Cells, views: Views, jobs: seq<Job>, position: Locate, bounding: Locate, i: nat, n: nat): Cells
    requires n == 0 || i + n < |jobs|
    requires forall k :: i <= k <= i + n && k < |jobs| ==> JobId(jobs[k].name) in views
    decreases n
  {
    if n == 0 then cells
    else
      var next := Link(cells, views[JobId(jobs[i].name)], views[JobId(jobs[i + 1].name)], position, bounding);
      DrawPairs(next, views, jobs, position, bounding, i + 1, n - 1)
  }

  /**
   * When every job from i on has a view, the loop connects all the
   * remaining pairs, (i, i+1) to (N-2, N-1), and fails on none.
   */
  lemma {:induction false} ConnectAll(cells: Cells, views: Views, jobs: seq<Job>, position: Locate, bounding: Locate, i: nat)
    requires forall k :: i <= k < |jobs| ==> JobId(jobs[k].name) in views
    ensures var d := ConnectFrom(cells, views, jobs, position, bounding, i);
            d.err.None? && d.drawn == if i + 1 >= |jobs| then 0 else |jobs| - 1 - i
    decreases |jobs| - i
  {
    if i + 1 < |jobs| {
      var a, b := JobId(jobs[i].name), JobId(jobs[i + 1].name);
      ConnectAll(Link(cells, views[a], views[b], position, bounding), views, jobs, position, bounding, i + 1);
    }
  }

  /**
   * When the loop fails, it fails on the pair after the ones it connected:
   * on the first view of that pair if it is missing, otherwise on the second;
   * every job before that pair has a view.
   */
  lemma {:induction false} ConnectStops(cells: Cells, views: Views, jobs: seq<Job>, position: Locate, bounding: Locate, i: nat)
    ensures var d := ConnectFrom(cells, views, jobs, position, bounding, i);
            d.err.Some? ==>
              var p := i + d.drawn;
              && p + 1 < |jobs|
              && d.err.value !in views
              && (if JobId(jobs[p].name) !in views then d.err.value == JobId(jobs[p].name)
                  else d.err.value == JobId(jobs[p + 1].name))
              && forall k :: i <= k < p ==> JobId(jobs[k].name) in views
    decreases |jobs| - i
  {
    if i + 1 < |jobs| {
      var a, b := JobId(jobs[i].name), JobId(jobs[i + 1].name);
      if a in views && b in views {
        ConnectStops(Link(cells, views[a], views[b], position, bounding), views, jobs, position, bounding, i + 1);
      }
    }
  }

  /**
   * The cells the loop leaves are exactly the pairs it connected, drawn in
   * order from (i, i+1): a failing lookup draws nothing more.
   */
  lemma {:induction false} ConnectDrawsPrefix(cells: Cells, views: Views, jobs: seq<Job>, position: Locate, bounding: Locate, i: nat)
    ensures var d := ConnectFrom(cells, views, jobs, position, bounding, i);
            && (d.drawn == 0 || i + d.drawn < |jobs|)
            && (forall k :: i <= k <= i + d.drawn && k < |jobs| && d.drawn > 0 ==> JobId(jobs[k].name) in views)
            && d.cells == if d.drawn == 0 then cells else DrawPairs(cells, views, jobs, position, bounding, i, d.drawn)
    decreases |jobs| - i
  {
    if i + 1 < |jobs| {
      var a, b := JobId(jobs[i].name), JobId(jobs[i + 1].name);
      if a in views && b in views {
        var next := Link(cells, views[a], views[b], position, bounding);
        ConnectDrawsPrefix(next, views, jobs, position, bounding, i + 1);
      }
    }
  }

  /**
   * Once placement succeeds, the connector loop over the views it produced
   * connects every consecutive pair, N-1 of them for N >= 1 jobs and none
   * for no jobs, and fails on none.
   */
  lemma PlacedJobsConnect(views: Views, rejects: set<string>, jobs: seq<Job>, maxX: int, maxY: int, stages: nat,
                          cells: Cells, position: Locate, bounding: Locate)
    requires Placement(views, rejects, jobs, maxX, maxY, stages).err.None?
    ensures var d := Connection(cells, Placement(views, rejects, jobs, maxX, maxY, stages).views, jobs, position, bounding);
            d.err.None? && d.drawn == if |jobs| == 0 then 0 else |jobs| - 1
  {
    JobsPlaced(views, rejects, jobs, maxX, maxY, stages);
    ConnectAll(cells, Placement(views, rejects, jobs, maxX, maxY, stages).views, jobs, position, bounding, 0);
  }
}
