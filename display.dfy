/** What the draw callback shows for a state: the success message once the
    run is finished, otherwise the title above a bar whose width is the
    canvas width scaled by the progress. */
module Display {
  import opened Clock
  import opened Animator

  const SUCCESS_MESSAGE: string := "Successful!"
  const TITLE: string := "Process Hacking.."

  /** The content of one frame; positions and text centring are left to the canvas. */
  datatype Frame =
    | Centered(text: string)
    | TitleAndBar(title: string, barWidth: nat)

  /** `canvas_width * progress`, truncated toward zero. */
  function BarWidth(canvasWidth: nat, progress: nat): nat {
    canvasWidth * progress / PROGRESS_DURATION
  }

  /** The choice `app_draw_callback` makes on `state->finished`. */
  function Draw(m: Machine, canvasWidth: nat): (f: Frame)
    ensures f.Centered? <==> m.finished
    ensures f.Centered? ==> f.text == SUCCESS_MESSAGE
    ensures f.TitleAndBar? ==> f.title == TITLE && f.barWidth == BarWidth(canvasWidth, m.progress)
  {
    if m.finished then Centered(SUCCESS_MESSAGE)
    else TitleAndBar(TITLE, BarWidth(canvasWidth, m.progress))
  }

  /** A fuller bar for more progress: the bar never shrinks while progress grows. */
  lemma BarGrows(canvasWidth: nat, p: nat, p': nat)
    requires p <= p'
    ensures BarWidth(canvasWidth, p) <= BarWidth(canvasWidth, p')
  {
    assert canvasWidth * p <= canvasWidth * p';
  }

  /** With progress at most 1 the bar is never wider than the canvas; it is
      empty at the start and exactly the canvas width at the end. */
  lemma BarFits(canvasWidth: nat, p: nat)
    requires p <= PROGRESS_DURATION
    ensures BarWidth(canvasWidth, p) <= canvasWidth
    ensures p == 0 ==> BarWidth(canvasWidth, p) == 0
    ensures p == PROGRESS_DURATION ==> BarWidth(canvasWidth, p) == canvasWidth
  {
    BarGrows(canvasWidth, p, PROGRESS_DURATION);
    assert canvasWidth * PROGRESS_DURATION / PROGRESS_DURATION == canvasWidth;
  }

  /** Every frame of a run: during the loop the title and a bar no wider than
      the canvas; after the run, the success message exactly when it finished. */
  lemma SessionFrames(t0: u32, t1: u32, ticks: seq<Readings>, canvasWidth: nat)
    ensures var f := Draw(Iterate(Start(t0, t1), ticks), canvasWidth);
      f.TitleAndBar? && f.barWidth <= canvasWidth
    ensures Draw(Session(t0, t1, ticks), canvasWidth).Centered? <==>
      FirstCompletion(t0, ticks) < |ticks|
  {
    var loop := Iterate(Start(t0, t1), ticks);
    IterateKeepsLoopState(Start(t0, t1), ticks);
    BarFits(canvasWidth, loop.progress);
    SessionOutcome(t0, t1, ticks);
  }
}
