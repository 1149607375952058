/**
 * How a job box is decorated from the job's status: a glyph in front of the
 * job's name and, for the four statuses the layout knows, a foreground colour.
 */
module Status {
  import opened Wrappers
  import opened Jobs

  /** The terminal foreground colours the layout uses; Default is a new view's. */
  datatype Colour = Default | Green | Red | Blue | Yellow

  /** A status glyph and, when the status sets one, the colour to give the view. */
  datatype Decoration = Decoration(glyph: char, colour: Option<Colour>)

  /** The zero rune, printed when the status sets no glyph. */
  const NoGlyph: char := '\0'
  const CheckMark: char := '\U{2714}'
  const Cross: char := '\U{2718}'
  const Dot: char := '\U{25CF}'

  /** The statuses that decorate a job box. */
  const DecoratedStatuses: set<string> := {"success", "failed", "running", "pending"}

  /**
   * The status switch: success is a green check mark, failed a red cross,
   * running a blue dot and pending a yellow dot; any other status keeps the
   * view's colour and leaves the glyph as the zero rune.
   */
  function Decorate(status: string): Decoration
  {
    match status
    case "success" => Decoration(CheckMark, Some(Green))
    case "failed" => Decoration(Cross, Some(Red))
    case "running" => Decoration(Dot, Some(Blue))
    case "pending" => Decoration(Dot, Some(Yellow))
    case _ => Decoration(NoGlyph, None)
  }

  /**
   * The status switch case by case: the four known statuses get their glyph
   * and colour, and any other status the zero rune and no colour.
   */
  lemma DecorateCases(status: string)
    ensures status == "success" ==> Decorate(status) == Decoration(CheckMark, Some(Green))
    ensures status == "failed" ==> Decorate(status) == Decoration(Cross, Some(Red))
    ensures status == "running" ==> Decorate(status) == Decoration(Dot, Some(Blue))
    ensures status == "pending" ==> Decorate(status) == Decoration(Dot, Some(Yellow))
    ensures status !in DecoratedStatuses ==> Decorate(status) == Decoration(NoGlyph, None)
  {
  }

  /** A status changes the view's colour exactly when it draws a glyph, and only the four known ones do. */
  lemma DecoratedIff(status: string)
    ensures Decorate(status).colour.Some? <==> status in DecoratedStatuses
    ensures Decorate(status).glyph != NoGlyph <==> status in DecoratedStatuses
  {
  }

  /** Different known statuses look different on screen (glyph or colour). */
  lemma DecorationsDistinct(s: string, s': string)
    requires s in DecoratedStatuses && s' in DecoratedStatuses && s != s'
    ensures Decorate(s) != Decorate(s')
  {
  }

  /** The text written into a new job view: the status glyph, a space, the name and a newline. */
  function JobLabel(job: Job): string
  {
    [Decorate(job.status).glyph, ' '] + job.name + "\n"
  }

  /**
   * A job label, character by character: the status glyph, a space, the
   * job's name, and a final newline.
   */
  lemma JobLabelShape(job: Job)
    ensures var text := JobLabel(job);
            && |text| == |job.name| + 3 && text[0] == Decorate(job.status).glyph && text[1] == ' '
            && text[2..|text| - 1] == job.name && text[|text| - 1] == '\n'
  {
  }

  /** The text written into a new stage view: the stage name and a newline. */
  function StageLabel(stage: string): string
  {
    stage + "\n"
  }

  /** A stage label, character by character: the stage name and a final newline. */
  lemma StageLabelShape(stage: string)
    ensures var text := StageLabel(stage);
            |text| == |stage| + 1 && text[..|stage|] == stage && text[|stage|] == '\n'
  {
  }

  /** Labels of jobs with different names differ, as do labels of different stages. */
  lemma {:induction false} LabelsKeepNames(job: Job, job': Job, stage: string, stage': string)
    ensures JobLabel(job) == JobLabel(job') ==> job.name == job'.name
    ensures StageLabel(stage) == StageLabel(stage') ==> stage == stage'
  {
    JobLabelShape(job);
    JobLabelShape(job');
    StageLabelShape(stage);
    StageLabelShape(stage');
  }

  /** A new job view's colour: the decoration's, or the Default a new view starts with. */
  function JobColour(job: Job): Colour
  {
    match Decorate(job.status).colour
    case Some(c) => c
    case None => Default
  }

  /** A new job view keeps the Default colour exactly when the job's status is not one of the four known ones. */
  lemma JobColourDefault(job: Job)
    ensures JobColour(job) == Default <==> job.status !in DecoratedStatuses
  {
    DecoratedIff(job.status);
  }
}
