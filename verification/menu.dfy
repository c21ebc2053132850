/** The menu and game-over screens: their text items, the confirm input
    that starts a round, and the teardown that runs when a screen is left. */
module Menu {
  import opened Wrappers
  import opened Util
  import opened Keys
  import opened Game

  /** The text items of the two screens; only the score lines carry data. */
  datatype MenuItem = Prompt | Banner | ScoreLine(value: int) | BestLine(value: int)

  /** The entities the screens and the round share: current screen, screen
      text, the fruit of the round and the score entity, which may be
      missing. */
  datatype World = World(state: AppState, items: seq<MenuItem>, round: Round, score: Option<Score>)

  /** Why the application stopped. */
  datatype Panic = NoScoreEntity

  /** The screen input system: a confirm input requests a round, anything
      else requests nothing. */
  function OnLoop(i: Input): (target: Option<AppState>)
    ensures target.Some? <==> ConfirmPressed(i)
    ensures target.Some? ==> target.value == InGame
  {
    if ConfirmPressed(i) then Some(InGame) else None
  }

  /** Entering the menu shows its prompt and touches nothing else. */
  function SetupMenu(w: World): (v: World)
    ensures v.items == w.items + [Prompt]
    ensures v.state == w.state && v.round == w.round && v.score == w.score
  {
    w.(items := w.items + [Prompt])
  }

  /** Entering the game-over screen shows the banner and the score pair,
      read without being changed; without a score entity the program stops. */
  function SetupGameOver(w: World): (r: Result<World, Panic>)
    ensures r.Success? <==> w.score.Some?
    ensures r.Success? ==>
              && r.value.items == w.items + [Banner, ScoreLine(w.score.value.current), BestLine(w.score.value.best)]
              && r.value.score == w.score
              && r.value.state == w.state
              && r.value.round == w.round
  {
    match w.score
    case None => Failure(NoScoreEntity)
    case Some(sc) => Success(w.(items := w.items + [Banner, ScoreLine(sc.current), BestLine(sc.best)]))
  }

  /** Leaving a screen removes every text item and every fruit: held,
      previewed and dropped. */
  function Cleanup(w: World): (v: World)
    ensures v.items == []
    ensures v.round.active.None? && v.round.next.None? && v.round.bodies == []
    ensures v.state == w.state && v.score == w.score
  {
    w.(items := [], round := EmptyRound)
  }

  /** A world without items or fruit is left as it is by the teardown. */
  lemma CleanupIdempotent(w: World)
    ensures Cleanup(Cleanup(w)) == Cleanup(w)
    ensures w.items == [] && w.round == EmptyRound ==> Cleanup(w) == w
  {
  }
}
