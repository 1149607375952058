/**
 * The ordered job list of a pipeline and how the layout pass walks it:
 * the stage counter, and the (stage number, row) slot every job gets.
 */
module Jobs {

  /** A CI job as the layout reads it. */
  datatype Job = Job(name: string, stage: string, status: string)

  /** The stage a job is compared with: its predecessor's, or "" for the first job. */
  function PrevStage(jobs: seq<Job>, k: nat): string
    requires k < |jobs|
  {
    if k == 0 then "" else jobs[k - 1].stage
  }

  /** Job k opens a new stage group: its stage differs from the one before it. */
  predicate StartsStage(jobs: seq<Job>, k: nat)
    requires k < |jobs|
  {
    jobs[k].stage != PrevStage(jobs, k)
  }

  /** The 1-based stage counter after job k: one more per job that opens a group. */
  function StageIdx(jobs: seq<Job>, k: nat): nat
    requires k < |jobs|
  {
    (if k == 0 then 0 else StageIdx(jobs, k - 1)) + (if StartsStage(jobs, k) then 1 else 0)
  }

  /**
   * The 0-based row counter after job k: back to 0 when job k opens a group,
   * otherwise one more than before (the counter starts at 0, so a first job
   * whose stage is "" lands in row 1).
   */
  function RowIdx(jobs: seq<Job>, k: nat): nat
    requires k < |jobs|
  {
    if StartsStage(jobs, k) then 0 else (if k == 0 then 0 else RowIdx(jobs, k - 1)) + 1
  }

  /** The positions below n of the jobs whose stage name is not empty. */
  function NamedBelow(jobs: seq<Job>, n: nat): set<int>
    requires n <= |jobs|
  {
    set k | 0 <= k < n && jobs[k].stage != ""
  }

  /** The positions of the jobs whose stage name is not empty. */
  function NamedStageJobs(jobs: seq<Job>): set<int>
  {
    NamedBelow(jobs, |jobs|)
  }

  /**
   * The stage counter of the layout pass. The counting loop compares every
   * job with `lastStage`, which it never updates, so it counts the jobs with
   * a non-empty stage name, not the stage groups.
   */
  method CountStages(jobs: seq<Job>) returns (stages: nat)
    ensures stages == |NamedStageJobs(jobs)|
  {
    stages := 0;
    var lastStage := "";
    var i := 0;
    while i < |jobs|
      invariant 0 <= i <= |jobs|
      invariant stages == |NamedBelow(jobs, i)|
    {
      if jobs[i].stage != lastStage {
        stages := stages + 1;
        assert NamedBelow(jobs, i + 1) == NamedBelow(jobs, i) + {i};
      } else {
        assert NamedBelow(jobs, i + 1) == NamedBelow(jobs, i);
      }
      i := i + 1;
    }
  }

  /** When no stage name is empty, every position below n is counted. */
  lemma {:induction false} AllNamedCount(jobs: seq<Job>, n: nat)
    requires n <= |jobs|
    requires forall i :: 0 <= i < |jobs| ==> jobs[i].stage != ""
    ensures |NamedBelow(jobs, n)| == n
  {
    if n > 0 {
      AllNamedCount(jobs, n - 1);
      assert NamedBelow(jobs, n) == NamedBelow(jobs, n - 1) + {n - 1};
    }
  }

  /** The stage counter never decreases, and grows by at most one per job. */
  lemma {:induction false} StageIdxGrowth(jobs: seq<Job>, k: nat, k': nat)
    requires k <= k' < |jobs|
    ensures StageIdx(jobs, k) <= StageIdx(jobs, k') <= StageIdx(jobs, k) + (k' - k)
    ensures StageIdx(jobs, k) <= k + 1
    decreases k'
  {
    if k' > k {
      StageIdxGrowth(jobs, k, k' - 1);
    } else if k > 0 {
      StageIdxGrowth(jobs, k - 1, k - 1);
    }
  }

  /** Two jobs share a stage number exactly when no job between them opens a group. */
  lemma {:induction false} SameGroupIff(jobs: seq<Job>, k: nat, k': nat)
    requires k <= k' < |jobs|
    ensures StageIdx(jobs, k) == StageIdx(jobs, k') <==> forall i :: k < i <= k' ==> !StartsStage(jobs, i)
    decreases k'
  {
    if k' > k {
      SameGroupIff(jobs, k, k' - 1);
      StageIdxGrowth(jobs, k, k' - 1);
    }
  }

  /** Inside one group the row counter counts the jobs since the group's first. */
  lemma {:induction false} RowsInGroup(jobs: seq<Job>, k: nat, k': nat)
    requires k <= k' < |jobs|
    requires StageIdx(jobs, k) == StageIdx(jobs, k')
    ensures RowIdx(jobs, k') == RowIdx(jobs, k) + (k' - k)
    decreases k'
  {
    if k' > k {
      SameGroupIff(jobs, k, k');
      SameGroupIff(jobs, k, k' - 1);
      RowsInGroup(jobs, k, k' - 1);
    }
  }

  /** No two jobs get the same (stage number, row) slot: later jobs of a group sit lower. */
  lemma SlotsDistinct(jobs: seq<Job>, k: nat, k': nat)
    requires k < k' < |jobs|
    ensures StageIdx(jobs, k) < StageIdx(jobs, k') || RowIdx(jobs, k) < RowIdx(jobs, k')
  {
    StageIdxGrowth(jobs, k, k');
    if StageIdx(jobs, k) == StageIdx(jobs, k') {
      RowsInGroup(jobs, k, k');
    }
  }

  /**
   * When no stage name is empty every job is counted, so no stage number
   * exceeds the stage counter.
   */
  lemma StageIdxWithinCount(jobs: seq<Job>, k: nat)
    requires k < |jobs|
    requires forall i :: 0 <= i < |jobs| ==> jobs[i].stage != ""
    ensures StageIdx(jobs, k) <= |NamedStageJobs(jobs)|
  {
    AllNamedCount(jobs, |jobs|);
    StageIdxGrowth(jobs, k, k);
  }

  /** The grouping of stages [build, build, test, deploy]: three groups, rows 0,1,0,0. */
  lemma GroupingExample()
    ensures var jobs := [Job("a", "build", "success"), Job("b", "build", "success"),
                         Job("c", "test", "running"), Job("d", "deploy", "created")];
            && StageIdx(jobs, 0) == 1 && StageIdx(jobs, 1) == 1 && StageIdx(jobs, 2) == 2 && StageIdx(jobs, 3) == 3
            && RowIdx(jobs, 0) == 0 && RowIdx(jobs, 1) == 1 && RowIdx(jobs, 2) == 0 && RowIdx(jobs, 3) == 0
            && |NamedStageJobs(jobs)| == 4
  {
    var jobs := [Job("a", "build", "success"), Job("b", "build", "success"),
                 Job("c", "test", "running"), Job("d", "deploy", "created")];
    assert NamedStageJobs(jobs) == {0, 1, 2, 3};
  }

  /**
   * An empty stage name between two named stages opens a group of its own
   * but is not counted: three groups against a counter of two.
   */
  lemma UncountedGroupExample()
    ensures var jobs := [Job("a", "x", ""), Job("b", "", ""), Job("c", "y", "")];
            StageIdx(jobs, 2) == 3 && |NamedStageJobs(jobs)| == 2
  {
    var jobs := [Job("a", "x", ""), Job("b", "", ""), Job("c", "y", "")];
    assert NamedStageJobs(jobs) == {0, 2};
  }

  /** A first job without a stage stays at stage number 0, in row 1. */
  lemma UnnamedFirstStage(jobs: seq<Job>)
    requires |jobs| > 0 && jobs[0].stage == ""
    ensures StageIdx(jobs, 0) == 0 && RowIdx(jobs, 0) == 1
  {
  }
}
