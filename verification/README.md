# Suika clone: round logic in Dafny

This project models the per-frame game logic of a small Bevy "Suika"-style
game. The player moves a held fruit sideways above a container and drops it.
A preview shows the tier that comes next. The round ends when the player
quits, a dropped fruit leaves the container sideways, or a nearly resting
fruit sits above a height line. The application moves between three screens:
Menu, InGame and GameOver.

The model is functional. A `Round` holds an optional held fruit, an optional
preview tier and the dropped fruit (`Body`) in spawn order. A `World` adds the
current screen, the screen's text items and the optional score entity. Each
Bevy system is a pure function. It reads the world as it was at the start of
the frame, because Bevy defers spawns and despawns until all of the frame's
systems have run. Random tiers arrive through `Rolls`, which holds one sample
per call site of the random generator, each constrained to that site's range.
The physics engine is an input too: `Physics` lets it move bodies, but it
cannot create, remove or re-tier them.

Modules follow the source files:
- `Util` is `src/util.rs`: the catalog, `AppState`, `Score` and the constants.
- `Keys` holds the key predicates the systems test.
- `Game` is `src/game.rs`: moving, dropping, the preview, the game-over test and the score reset.
- `Menu` is `src/menu.rs`: the screen input, the game-over display and the teardown.
- `App` holds the plugin wiring: which systems run on which screen, screen changes, and runs of many frames.

Lengths and speeds are `real` pixels. `sqrt(vx² + vy²) < 3` is modelled as
`vx² + vy² < 9`; both sides are non-negative, so the two tests agree.

Behaviour worth knowing, all proved:
- Return drops the fruit but does not replace the preview. After a Return
  drop, the fruit just taken into the hand is still shown as the next one
  (`ReturnDropKeepsPreview`). Space drops the fruit and replaces the preview.
- A new held fruit keeps the x of the fruit just dropped. When it is larger,
  it can sit beyond its own travel limit until the next frame without a drop
  (`DropMayOvershootNewLimit`).
- The teardown runs when the Menu or GameOver screen is left, not when a
  round ends. The fruit therefore stay in place on the GameOver screen, and
  every round starts empty.
- Nothing in the code adds points or writes the best score. Along any run
  the best score stays the same, and a (0, 0) score stays (0, 0).

## Model

| member | source | states |
|---|---|---|
| Util.CatalogHasElevenTiers | src/util.rs:76-88 | the catalog has exactly eleven tiers, indexed 0..10 |
| Util.SizesIncrease | src/util.rs:77-87 | fruit diameters strictly increase with the tier |
| Util.ScoreIsTriangular | src/util.rs:77-87 | the score value of tier t is t(t+1)/2 |
| Util.ScoresIncrease | src/util.rs:77-87 | score values strictly increase with the tier |
| Game.MoveDirection | src/game.rs:277-283 | the direction is -1, 0 or 1; holding left and right together gives 0; each key alone gives its own sign |
| Game.Limit | src/game.rs:286-295 | the travel limit is positive for every tier, so the clamp interval is never empty; at the limit the fruit is clear of the no-move bands and inside the walls' inner faces |
| Game.LimitIsWidestSafeReach | src/game.rs:287-295 | a position lies within the limit exactly when the fruit there stays clear of the bands and inside the walls |
| Game.LimitShrinks | src/game.rs:289 | a larger tier never has a larger travel limit |
| Game.PinIsNearest | src/game.rs:296-302 | the hard clamp picks the point of [-limit, limit] nearest the target position |
| Game.MoveHeld | src/game.rs:286-302 | a move keeps the tier and ends in [-limit, limit]; a target strictly inside is taken exactly; a target at or past a bound pins the fruit to that bound |
| Game.SlideRightPinsAtLimit | src/game.rs:296-302 | holding right long enough to reach the limit leaves the fruit exactly at the limit, never beyond |
| Game.SlideLeftPinsAtLimit | src/game.rs:296-302 | holding left long enough leaves the fruit exactly at the left limit |
| Game.HandleActiveFruit | src/game.rs:214-333 | without a held fruit, one appears at x = 0 with the preview tier, or a drawn tier in 0..3 when there is no preview; a drop adds exactly one body with the held tier, the same x, y = H/2 and zero velocity, and the new held fruit keeps that x and takes the preview tier or a drawn tier in 0..4; otherwise no body is added and the moved fruit stays in reach; the preview is untouched and all tiers stay drawable |
| Game.HandleNextFruit | src/game.rs:343-385 | a missing preview is created with a tier in 0..3; Space or S replaces it with a tier in 0..4; otherwise it is unchanged; the held fruit and bodies are untouched |
| Game.RoundTick | src/game.rs:33-35 | after the two fruit systems of a frame, a held fruit and a preview both exist and every tier is drawable |
| Game.TickTakesPreviewBeforeReplacingIt | src/game.rs:246-249 | reading the start-of-frame preview equals running the held-fruit system before the preview system, so a drop takes the old preview |
| Game.SpaceDropPromotesPreview | src/game.rs:345-350 | a Space drop puts the preview tier in the hand and draws a new preview |
| Game.ReturnDropKeepsPreview | src/game.rs:345 | a Return drop puts the preview tier in the hand and leaves the preview as it was |
| Game.FirstTickSpawnsHeldAndPreview | src/game.rs:304-319 | the first frame of an empty round creates a held fruit at x = 0 and a preview, both drawn from 0..3, and drops nothing |
| Game.DropMovesHeldFruitIntoPlay | src/game.rs:221-259 | a drop moves the held fruit into the container, so the tiers in play gain exactly the newly held tier; a frame without a drop changes no tier in play |
| Game.DropMayOvershootNewLimit | src/game.rs:253-259 | a drop can leave a larger new held fruit beyond its own limit; the next frame without a drop pins it back |
| Game.AnyBreach | src/game.rs:188-203 | the scan over the bodies finds a breach exactly when some body breaches |
| Game.EndGame | src/game.rs:175-204 | the round ends exactly when Q or Escape is held, or some body lies beyond W/2 + T on either side, or some body is slower than the minimum speed and above 0.25 H - T |
| Game.EndGameIgnoresOrder | src/game.rs:188 | the verdict depends only on the bodies present, not on their order |
| Game.EndGameMonotone | src/game.rs:188-203 | adding bodies never turns an ended round back into a running one |
| Game.SafeBodiesKeepRoundGoing | src/game.rs:186-202 | without a quit key, bodies inside the side bounds that are below the line or still moving do not end the round |
| Game.SetupGame | src/game.rs:165-171 | entering a round sets the current score to 0 and keeps the best score; a missing score entity stays missing |
| Game.SetupGameIdempotent | src/game.rs:165-171 | resetting the score twice is the same as resetting it once |
| Menu.OnLoop | src/menu.rs:98-108 | a just-pressed Space or Return or a left click requests InGame; no other input requests anything |
| Menu.SetupMenu | src/menu.rs:21-39 | entering the menu adds its prompt and changes nothing else |
| Menu.SetupGameOver | src/menu.rs:41-96 | the game-over screen shows the banner, the current score and the best score, and leaves the score unchanged; without a score entity the program stops |
| Menu.Cleanup | src/menu.rs:111-122 | the teardown removes every text item and every fruit (held, previewed and dropped), and keeps the screen and the score |
| Menu.CleanupIdempotent | src/menu.rs:111-122 | a second teardown, or a teardown of a world already without items and fruit, removes nothing |
| App.Transition | src/menu.rs:9-14 | a screen change stops the program only when it enters GameOver without a score entity; entering InGame leaves no items and no fruit and resets the score; entering GameOver keeps fruit and score and adds the score lines |
| App.Step | src/game.rs:30-37 | a frame moves only along Menu to InGame, InGame to GameOver and GameOver to InGame; a screen is left exactly on a confirm input; a round ends exactly when the game-over test holds; every round starts with no fruit and a zeroed score; the score changes only on round entry; the world invariant is kept |
| App.Run | src/menu.rs:9-14 | the world invariant (drawable tiers, no text during a round, no fruit on the menu) holds after any sequence of frames |
| App.Startup | src/util.rs:17-23 | the application starts on the Menu screen with only the menu prompt and no fruit |
| App.MenuNeverReentered | src/menu.rs:107 | once the menu is left it is never shown again |
| App.ScoredRunNeverPanics | src/menu.rs:61 | with a score entity present, no run stops the program and the best score never changes |
| App.ZeroScoreStaysZero | src/game.rs:165-171 | a (0, 0) score stays (0, 0) along any run, since nothing adds points |
| App.RunFromInitNeverPanics | src/menu.rs:61 | from start-up with a (0, 0) score entity, every run keeps going and the score stays (0, 0) |
| App.FirstGameOverPanicsAsWritten | src/menu.rs:61 | as written, a click on the menu followed by holding Q stops the program at the game-over screen |

## Left out

- Rendering: meshes, colours, text styles, the hold area, the preview bar and z-order. Catalog colours are dropped from `Fruit`. Score text is kept as the integer it shows.
- The container walls and no-move bands spawned by `setup_game` (src/game.rs:63-163). They are physics and render geometry only. They are spawned on every round entry and never removed; their positions appear only as the constants of the clamp and the game-over test.
- The physics simulation (colliders, gravity, restitution, integration). `App.Physics` takes the engine's report as an input.
- The random generator. Each draw is a caller-supplied sample with a range precondition.
- Bevy scheduling and `get_single` failures when several entities match. The model keeps at most one held fruit and one preview by construction, and a frame reads start-of-frame state.
- `pause_state`, which has an empty body, and `CoolDown`, which is declared but unused.
- `src/main.rs` and `src/constants.rs`. They contain window setup and duplicate constants; only the default Menu state matters, and `Startup` models it.
- Merging, a height grace timer, a high-score list, a drop cooldown and a size-dependent height margin. None of them exists in the code.
- No statement is made about whether a fruit dropped this frame ends the round. That depends on the physics step between drop and test.
- f32 rounding and i32 width. All values in play are small, so neither wraps.
- The held fruit's y. It is always H/2, so only x is stored.

## Findings

| source | as written | input that shows it | evidently intended | confidence | as-written member | corrected member |
|---|---|---|---|---|---|---|
| src/menu.rs:61 | the game-over screen unwraps the single score entity, but no system spawns one (`setup_game` only prints when it is missing) | on the menu, a left click, then Q held in the first round | a score entity exists from start-up, so the screen shows the score pair | medium, not executed | App.FirstGameOverPanicsAsWritten | App.RunFromInitNeverPanics |
