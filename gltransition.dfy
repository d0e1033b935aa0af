/** The hover transition of the image-transition demo
    (src/demos/gltransition/src/index.js): the `progress` uniform and the
    `transitioning` and `isHovered` flags, driven by `animate` and the mouse
    handlers. Progress is counted in steps of 0.02, so 50 steps are 1.0. */
module GlTransition {

  /** Steps of 0.02 that make up full progress. */
  const FullSteps: int := 50

  datatype State = State(steps: int, transitioning: bool, hovered: bool)

  /** The progress value a step count stands for. */
  function Progress(steps: int): real
  {
    steps as real * 0.02
  }

  /** The transition state when the page loads. */
  const Initial: State := State(0, false, false)

  /** One run of the `if (transitioning)` block of `animate`. */
  function Frame(s: State): (r: State)
    ensures r.hovered == s.hovered
  {
    if !s.transitioning then s
    else if s.hovered && s.steps < FullSteps then
      if s.steps + 1 >= FullSteps then State(FullSteps, false, true) else State(s.steps + 1, true, true)
    else if !s.hovered && s.steps > 0 then
      if s.steps - 1 <= 0 then State(0, false, false) else State(s.steps - 1, true, false)
    else s
  }

  function Frames(s: State, n: nat): State
    decreases n
  {
    if n == 0 then s else Frames(Frame(s), n - 1)
  }

  function MouseEnter(s: State): State
  {
    State(s.steps, true, true)
  }

  function MouseLeave(s: State): State
  {
    State(s.steps, true, false)
  }

  /** Progress stays in [0, 1] and moves by at most one step, towards 1 while
      hovered and towards 0 otherwise. */
  lemma FrameStaysInRange(s: State)
    requires 0 <= s.steps <= FullSteps
    ensures 0 <= Frame(s).steps <= FullSteps
    ensures s.hovered ==> s.steps <= Frame(s).steps <= s.steps + 1
    ensures !s.hovered ==> s.steps - 1 <= Frame(s).steps <= s.steps
  {
  }

  /** A frame changes nothing when no transition runs, or when progress is
      already at the end the hover state points to. */
  lemma IdleFrames(s: State)
    requires !s.transitioning || (s.hovered && s.steps >= FullSteps) || (!s.hovered && s.steps <= 0)
    ensures Frame(s) == s
  {
  }

  /** The transition stops exactly when it reaches its end point. */
  lemma StopsAtEnds(s: State)
    requires s.transitioning && 0 <= s.steps <= FullSteps
    requires (s.hovered && s.steps < FullSteps) || (!s.hovered && s.steps > 0)
    ensures !Frame(s).transitioning <==> Frame(s).steps == (if s.hovered then FullSteps else 0)
  {
  }

  /** After the mouse enters, `FullSteps - steps` frames bring progress to 1
      and end the transition. */
  lemma {:induction false} EnterCompletes(s: State, n: nat)
    requires s.transitioning && s.hovered && 0 <= s.steps < FullSteps && n == FullSteps - s.steps
    ensures Frames(s, n) == State(FullSteps, false, true)
    decreases n
  {
    if s.steps + 1 < FullSteps {
      EnterCompletes(Frame(s), n - 1);
    } else {
      IdleFrames(Frame(s));
      assert Frames(Frame(s), 0) == Frame(s);
    }
  }

  /** After the mouse leaves, `steps` frames bring progress back to 0 and end
      the transition. */
  lemma {:induction false} LeaveCompletes(s: State, n: nat)
    requires s.transitioning && !s.hovered && 0 < s.steps <= FullSteps && n == s.steps
    ensures Frames(s, n) == State(0, false, false)
    decreases n
  {
    if s.steps - 1 > 0 {
      LeaveCompletes(Frame(s), n - 1);
    } else {
      assert Frames(Frame(s), 0) == Frame(s);
    }
  }

  /** The page's transition state and its handlers. */
  class Transition {
    var steps: int
    var transitioning: bool
    var isHovered: bool

    function Current(): State
      reads this
    {
      State(steps, transitioning, isHovered)
    }

    ghost predicate Valid()
      reads this
    {
      0 <= steps <= FullSteps
    }

    /** Progress 0, no transition, not hovered. */
    constructor ()
      ensures Valid() && Current() == Initial && Progress(steps) == 0.0
    {
      steps := 0;
      transitioning := false;
      isHovered := false;
    }

    /** The transition part of `animate`. */
    method Animate()
      requires Valid()
      modifies this
      ensures Valid()
      ensures Current() == Frame(old(Current()))
    {
      if transitioning {
        if isHovered && steps < FullSteps {
          steps := steps + 1;
          if steps >= FullSteps {
            steps := FullSteps;
            transitioning := false;
          }
        } else if !isHovered && steps > 0 {
          steps := steps - 1;
          if steps <= 0 {
            steps := 0;
            transitioning := false;
          }
        }
      }
    }

    /** The `mouseenter` handler. */
    method OnMouseEnter()
      modifies this
      ensures Current() == MouseEnter(old(Current()))
      ensures isHovered && transitioning && steps == old(steps)
    {
      isHovered := true;
      transitioning := true;
    }

    /** The `mouseleave` handler. */
    method OnMouseLeave()
      modifies this
      ensures Current() == MouseLeave(old(Current()))
      ensures !isHovered && transitioning && steps == old(steps)
    {
      isHovered := false;
      transitioning := true;
    }
  }
}
