/** The application as a whole: which systems run on which screen, how a
    requested screen change runs the exit and enter systems, and runs of
    many frames from start-up. */
module App {
  import opened Wrappers
  import opened Util
  import opened Keys
  import opened Game
  import opened Menu

  /** What the physics engine reports for one body after its step. */
  datatype Motion = Motion(x: real, y: real, vx: real, vy: real, spin: real)

  /** The physics step as an input: body `k` takes `motion[k]` when given
      and keeps its state otherwise. Bodies are never created, removed or
      given another tier. */
  function Physics(bodies: seq<Body>, motion: seq<Motion>): (moved: seq<Body>)
    ensures |moved| == |bodies|
    ensures forall k :: 0 <= k < |bodies| ==> moved[k].tier == bodies[k].tier
  {
    seq(|bodies|, k requires 0 <= k < |bodies| =>
      if k < |motion| then
        var m := motion[k];
        Body(bodies[k].tier, m.x, m.y, m.vx, m.vy, m.spin)
      else bodies[k])
  }

  /** Everything one frame consumes: the input, the random samples and the
      physics engine's report. */
  datatype Frame = Frame(input: Input, rolls: Rolls, motion: seq<Motion>)

  /** The screen changes the program can make. */
  predicate Edge(from: AppState, to: AppState) {
    || (from == Menu && to == InGame)
    || (from == InGame && to == GameOver)
    || (from == GameOver && to == InGame)
  }

  /** What holds of every world from start-up on: drawable tiers, no text
      during a round, and an untouched round on the menu. */
  predicate Valid(w: World) {
    && Game.Wf(w.round)
    && (w.state == InGame ==> w.items == [])
    && (w.state == Menu ==> w.round == EmptyRound)
  }

  /** The systems that run when a screen is left: the teardown for the menu
      and game-over screens; the round leaves nothing to do. */
  function OnExit(w: World): World {
    match w.state
    case Menu => Cleanup(w)
    case GameOver => Cleanup(w)
    case InGame => w
  }

  /** The systems that run when a screen is entered. */
  function OnEnter(w: World): Result<World, Panic> {
    match w.state
    case Menu => Success(SetupMenu(w))
    case InGame => Success(w.(score := SetupGame(w.score)))
    case GameOver => SetupGameOver(w)
  }

  /** A requested screen change: exit systems of the old screen, then enter
      systems of the new one. */
  function Transition(w: World, target: AppState): (r: Result<World, Panic>)
    requires Edge(w.state, target)
    ensures r.Failure? <==> target == GameOver && w.score.None?
    ensures r.Success? ==> r.value.state == target
    ensures r.Success? && target == InGame ==>
              && r.value.items == [] && r.value.round == EmptyRound
              && r.value.score == SetupGame(w.score)
    ensures r.Success? && target == GameOver ==>
              && r.value.round == w.round && r.value.score == w.score
              && r.value.items == w.items + [Banner, ScoreLine(w.score.value.current), BestLine(w.score.value.best)]
  {
    OnEnter(OnExit(w).(state := target))
  }

  /** One frame: the systems of the current screen read the start-of-frame
      world and may request a screen change; then the physics step moves
      the bodies; then the requested change takes place. */
  function Step(w: World, f: Frame): (r: Result<World, Panic>)
    requires Valid(w) && f.rolls.InRange()
    ensures r.Success? ==> Valid(r.value)
    ensures r.Success? ==> r.value.state == w.state || Edge(w.state, r.value.state)
    // a screen is left for a round exactly on a confirm input
    ensures w.state != InGame ==>
              && r.Success?
              && (r.value.state == InGame <==> ConfirmPressed(f.input))
              && (r.value.state != InGame ==> r.value.state == w.state)
    // a round ends exactly when the game-over test holds of the start-of-frame bodies
    ensures w.state == InGame ==>
              ((r.Failure? || r.value.state == GameOver) <==> EndGame(f.input, w.round.bodies))
    // only leaving the round can stop the program
    ensures r.Failure? ==> w.state == InGame && w.score.None?
    // every round starts with no fruit, no text, and a zeroed current score
    ensures r.Success? && w.state != InGame && r.value.state == InGame ==>
              && r.value.round == EmptyRound && r.value.items == []
              && r.value.score == SetupGame(w.score)
    // the score changes only when a round is entered
    ensures r.Success? && !(w.state != InGame && r.value.state == InGame) ==> r.value.score == w.score
  {
    match w.state
    case InGame =>
      var ticked := RoundTick(w.round, f.input, f.rolls);
      var moved := w.(round := ticked.(bodies := Physics(ticked.bodies, f.motion)));
      if EndGame(f.input, w.round.bodies) then Transition(moved, GameOver) else Success(moved)
    case _ =>
      var moved := w.(round := w.round.(bodies := Physics(w.round.bodies, f.motion)));
      match OnLoop(f.input)
      case Some(target) => Transition(moved, target)
      case None => Success(moved)
  }

  /** Every sample of every frame lies in its range. */
  predicate RollsInRange(frames: seq<Frame>) {
    forall k :: 0 <= k < |frames| ==> frames[k].rolls.InRange()
  }

  /** Frames applied one after another until the program stops. */
  function Run(w: World, frames: seq<Frame>): (r: Result<World, Panic>)
    requires Valid(w) && RollsInRange(frames)
    ensures r.Success? ==> Valid(r.value)
    decreases |frames|
  {
    if |frames| == 0 then Success(w)
    else
      match Step(w, frames[0])
      case Failure(e) => Failure(e)
      case Success(v) => Run(v, frames[1..])
  }

  /** The world on start-up, after the menu's enter system, with the given
      score entity. */
  function Startup(score: Option<Score>): (w: World)
    ensures Valid(w) && w.state == Menu && w.items == [Prompt] && w.score == score
  {
    SetupMenu(World(DefaultState, [], EmptyRound, score))
  }

  /** Start-up as written: no system creates the score entity. */
  const InitAsWritten: World := Startup(None)

  /** Start-up with a score entity of (0, 0) in place. */
  const Init: World := Startup(Some(Score(0, 0)))

  /** Once the menu is left it is never shown again. */
  lemma {:induction false} MenuNeverReentered(w: World, frames: seq<Frame>)
    requires Valid(w) && RollsInRange(frames) && w.state != Menu
    ensures Run(w, frames).Success? ==> Run(w, frames).value.state != Menu
    decreases |frames|
  {
    if |frames| > 0 {
      var r := Step(w, frames[0]);
      if r.Success? {
        assert forall k :: 0 <= k < |frames[1..]| ==> frames[1..][k] == frames[k + 1];
        MenuNeverReentered(r.value, frames[1..]);
      }
    }
  }

  /** With a score entity present, no run ever stops the program, and the
      best score is never changed. */
  lemma {:induction false} ScoredRunNeverPanics(w: World, frames: seq<Frame>)
    requires Valid(w) && RollsInRange(frames) && w.score.Some?
    ensures Run(w, frames).Success?
    ensures Run(w, frames).value.score.Some?
    ensures Run(w, frames).value.score.value.best == w.score.value.best
    decreases |frames|
  {
    if |frames| > 0 {
      var r := Step(w, frames[0]);
      assert r.Success?;
      assert forall k :: 0 <= k < |frames[1..]| ==> frames[1..][k] == frames[k + 1];
      ScoredRunNeverPanics(r.value, frames[1..]);
    }
  }

  /** From start-up with a score entity every run keeps going, and every
      game-over screen can show the score pair. */
  lemma RunFromInitNeverPanics(frames: seq<Frame>)
    requires RollsInRange(frames)
    ensures Run(Init, frames).Success?
    ensures Run(Init, frames).value.score == Some(Score(0, 0))
  {
    ScoredRunNeverPanics(Init, frames);
    ZeroScoreStaysZero(Init, frames);
  }

  /** Nothing adds points: a zero score stays zero along any run. */
  lemma {:induction false} ZeroScoreStaysZero(w: World, frames: seq<Frame>)
    requires Valid(w) && RollsInRange(frames) && w.score == Some(Score(0, 0))
    ensures Run(w, frames).Success? ==> Run(w, frames).value.score == Some(Score(0, 0))
    decreases |frames|
  {
    if |frames| > 0 {
      var r := Step(w, frames[0]);
      if r.Success? {
        assert forall k :: 0 <= k < |frames[1..]| ==> frames[1..][k] == frames[k + 1];
        ZeroScoreStaysZero(r.value, frames[1..]);
      }
    }
  }

  /** As written, a click on the menu followed by holding Q stops the
      program when the game-over screen looks for the score entity. */
  lemma FirstGameOverPanicsAsWritten()
    ensures var click := Frame(Input({}, {}, true), Rolls(0, 0, 0, 0), []);
            var quit := Frame(Input({Q}, {}, false), Rolls(0, 0, 0, 0), []);
            Run(InitAsWritten, [click, quit]) == Failure(NoScoreEntity)
  {
  }
}
