# bevy_movment: a verified model of the game logic

The game is a small Bevy program with a player, food and a pause/game-over
flow. Most of its code builds UI trees and sets up windows. This project
models the few pieces that are real game logic, and proves properties of
them in Dafny:

- **Player input and movement** (`src/player/player.rs`, duplicated verbatim
  in `src/main.rs`). `player_input` turns the held arrow keys into a velocity.
  `player_movement` moves every player by 5 times its velocity. The result is
  clamped to the window, inset by 30 on each side. `Player.World` is a class
  holding the entities marked Player (translation and velocity) and the window,
  if there is exactly one. Its two methods update that state in place, as the
  systems do.
- **The stand-alone app** (`src/main.rs`). `setup` spawns one player at the
  origin with zero velocity in a 600×600 window. While the window keeps that
  size, the player stays in [-270, 270]² over any interleaving of the two
  systems.
- **Food placement** (`spawn_food`, `src/player/food.rs`). Candidates are
  sampled in the window inset by 32. The first candidate at distance ≥ 200 from
  the player is taken. After 100 attempts the last candidate is taken whatever
  its distance. The food is placed at that point at depth 10.
- **Game sub-state transitions** (`src/gameui/pause.rs`,
  `src/gameui/gameover.rs`, plus the Play button of `src/gameui/menu.rs`).
  Escape toggles Running and Paused, but only while the app is InGame. The
  buttons on the pause screen, the game-over screen and the menu set fixed
  targets.
- **The game-over summary** (`src/gameui/gameover.rs`). The best of all Score
  values, starting from 0.

Modelling choices:

- Floating point is modelled over the reals. `distance >= 200` becomes a
  squared 3D distance ≥ 40000; `Engine.SquaredCompare` shows the two
  comparisons agree for non-negative values. The player's z is kept; the candidate's z is 0.
- `rand::random::<f32>()` is a sequence of samples. Each attempt draws two,
  x first, then y. The sequence must hold at least 200 samples, enough for
  100 attempts.
- `AppState`, `IsPaused` and `Score` are defined outside the modelled files.
  `AppState` is modelled as {BootingApp, MainMenu, InGameLoading, InGame},
  `IsPaused` as {Running, Paused, GameOver}, and a Score as a natural number.
- `IsPaused` is a sub-state of `AppState::InGame`, which is why `toggle_pause`
  runs only in that state (src/gameui/pause.rs:8). Outside InGame the
  sub-state field carries no meaning and nothing reads it; entering InGame
  (the Play button) starts it at Running.
- The match in `toggle_pause` (src/gameui/pause.rs:19-22) has no arm for
  `GameOver`, although `gameover.rs` uses that variant. Escape in game while
  GameOver is therefore not given an outcome: `Step` returns `None` there.
- The pause and game-over buttons are children of screens scoped to
  `IsPaused::Paused` and `IsPaused::GameOver` (src/gameui/pause.rs:9,29;
  src/gameui/gameover.rs:8,15). So in `Step` such a click changes nothing unless
  the game is InGame with that sub-state current. The Play button is not
  gated, because the schedule that spawns the main menu is defined outside the
  modelled files.
- `f32::clamp` panics when its lower bound exceeds its upper bound. The bounds
  are ±(extent/2 − 30), so `PlayerMovement` requires a window at least 60 wide
  and 60 high. It requires this only when there is a window and at least one
  player, because only then does the clamp run.

## Model

| member | source | states |
|---|---|---|
| `Player.KeyVelocity` | src/player/player.rs:37-49 | each velocity component is -1, 0 or 1, and z is 0; x is [Right] − [Left] and y is [Up] − [Down]; an axis is 0 exactly when both or neither of its opposite keys are held |
| `Player.ResolveVelocity` | src/player/player.rs:37-49 | resetting to zero and then adding or subtracting once per held arrow key gives exactly KeyVelocity of the held keys |
| `Player.World.PlayerInput` | src/player/player.rs:36-50 | with exactly one player, its velocity becomes KeyVelocity of the held keys, whatever it was before, and its translation is kept; with zero or several players, nothing changes |
| `Player.Clamp` | src/player/player.rs:67-68 | needs lo ≤ hi (else f32::clamp panics); the result is in [lo, hi]; a value already in range is unchanged; a value below lo gives lo and one above hi gives hi |
| `Player.FitsPlayerExactly` | src/player/player.rs:58-63 | the window is at least 60×60 exactly when both clamps have ordered bounds, so the requirement is neither stronger nor weaker than the panic condition |
| `Player.Moved` | src/player/player.rs:58-69 | after one step, x and y are in [-(w/2−30), w/2−30] × [-(h/2−30), h/2−30]; velocity is kept; z = z + 5·v.z is not clamped; if pos + 5·v is already inside the area, the new position is exactly pos + 5·v |
| `Player.World.PlayerMovement` | src/player/player.rs:56-71 | with a window, every player (not only a single one) is replaced by Moved in that window, and the number of players is kept; with no window, nothing changes |
| `MainApp.Setup` | src/main.rs:17-64 | the world holds one player at the origin with zero velocity, together with the 600×600 primary window |
| `MainApp.PrimaryPlayArea` | src/main.rs:96-102 | in the 600×600 window, the play area is exactly [-270, 270] on both axes |
| `MainApp.RunSystem` | src/main.rs:75-108 | a movement run leaves the player inside the primary window's play area; an input run keeps its translation |
| `MainApp.RunSystemKeepsReachable` | src/main.rs:76-108 | one run of either system keeps the player in [-270, 270]² at depth 0, with velocity components in {-1, 0, 1} and zero along z |
| `MainApp.AlwaysReachable` | src/main.rs:104-108 | from any such state, every sequence of input and movement runs keeps the player in that region |
| `MainApp.SetupReachable` | src/main.rs:20 | from the player `setup` spawns, every interleaving of the two systems keeps it in [-270, 270]² while the window stays 600×600 |
| `MainApp.Simulate` | src/main.rs:44-45 | driving a one-player world through system runs with World.PlayerInput and World.PlayerMovement leaves the player where RunSystems says, with the window kept |
| `Food.SampleCoordInRange` | src/player/food.rs:19-30 | a sample in [0, 1) along an extent e ≥ 64 lands in [-e/2+32, e/2−32], and strictly below e/2−32 when e > 64 |
| `Engine.SquaredCompare` | src/player/food.rs:33-36 | for a non-negative distance and bound, the squared comparison used by the model holds exactly when the distance comparison does |
| `Food.FarEnoughIsDistance` | src/player/food.rs:33-36 | the model's acceptance test FarEnough holds exactly when the distance between player and candidate is at least 200 |
| `Food.SpawnFood` | src/player/food.rs:12-45 | distances are measured from the single player's translation, or from the origin when there is no unique player; it makes between 1 and 100 attempts; every candidate before the chosen one is closer than 200; a choice before the 100th attempt is at distance ≥ 200; if none of the first 99 is far enough, exactly 100 attempts are made; the food is at the chosen (x, y) with z = 10; for samples in [0, 1) and a window at least 64×64, it lies in the inset area, strictly below the top edge of that area along an extent above 64 |
| `GameFlow.TogglePause` | src/gameui/pause.rs:13-24 | with Escape just pressed, Running and Paused swap, and GameOver has no defined outcome; without Escape, the sub-state is unchanged |
| `GameFlow.Step` | src/gameui/pause.rs:8-80 | the outcome is undefined exactly for Escape in game while GameOver; key input never changes the app state, and outside InGame it changes nothing; on the pause screen in game, Resume gives (InGame, Running), Restart gives InGameLoading and Menu gives MainMenu; on the game-over screen in game, Restart gives InGameLoading and Menu gives MainMenu; a button whose screen is not shown changes nothing; Play gives (InGame, Running); apart from the toggle, only Resume and Play change the sub-state, and only to Running; no event leads from another sub-state into GameOver |
| `GameFlow.ClickIdempotent` | src/gameui/pause.rs:56-80 | every button click has a defined outcome that leaves its own screen or changes nothing, so clicking the same button again changes nothing more |
| `GameFlow.GameOverThenPlay` | src/gameui/gameover.rs:71-86 | from the game-over screen in game, Restart and Menu both leave InGame, and entering InGame again afterwards starts a fresh game at Running |
| `GameFlow.EscapeParity` | src/gameui/pause.rs:18-22 | in game and not GameOver, n Escape presses leave the starting sub-state if n is even, and the other of Running and Paused if n is odd |
| `GameFlow.EscapeTwice` | src/gameui/pause.rs:19-22 | two Escape presses in game return to the starting sub-state |
| `GameFlow.KeysKeepAppState` | src/gameui/pause.rs:13-24 | any sequence of key inputs leaves the app state unchanged: the toggle writes only IsPaused |
| `GameFlow.NeverEntersGameOver` | src/gameui/gameover.rs:8 | from Running or Paused, every event sequence has a defined outcome that is not GameOver, so none of these events triggers the game-over summary |
| `GameOver.MaxScore` | src/gameui/gameover.rs:58-63 | the running best is ≥ every score and is either 0 or one of the scores (so it is 0 when there are none) |
| `GameOver.MaxScoreUnique` | src/gameui/gameover.rs:58-63 | any upper bound of the scores that is 0 or one of them equals MaxScore |
| `GameOver.MaxScoreOrderFree` | src/gameui/gameover.rs:59-63 | the best score does not depend on the order in which the scores are visited |
| `GameOver.BestScore` | src/gameui/gameover.rs:58-63 | the loop's result is ≥ every score, is 0 or one of the scores, and equals MaxScore |

## Left out

- UI trees are left out: the menu, boot screen, pause and game-over layouts, and `create_menu_button`. They are rendering configuration. Only the button handlers are modelled, as state targets.
- The Exit buttons are left out. They call `std::process::exit(0)`, which is process control, not game state.
- The window and camera plugins (src/window/window.rs, src/camera/camera.rs) are left out. They set fixed resolutions or spawn a camera.
- Engine scheduling is left out: `Commands` deferral, `NextState` taking effect at the next state transition, and when systems run. `Step` gives the state once the transition has applied.
- The `OnEnter(IsPaused::GameOver)` hook (src/gameui/gameover.rs:8) is not modelled as a schedule. `GameOver.BestScore` models what it computes. `GameFlow.NeverEntersGameOver` shows that no modelled event reaches GameOver.
- Sprites, meshes, colours, asset handles and the 32×32 collider are left out. They have no behaviour in these files.
- f32 rounding, NaN and infinities are left out. Coordinates are reals. The clamp's panic on NaN bounds is therefore not represented.
- Food.SpawnFood: the RNG is an input sequence of at least 200 samples. A real generator never runs out.
- Entity despawning (`delete_menu`, `StateScoped` cleanup) is left out. It is engine plumbing.
- The spawn-in-place camera of `setup` (src/main.rs:54) is left out.
- Window resizing is not modelled: `MainApp`'s reachability lemmas fix the 600×600 primary window, while the program reads the window's size again every frame.
- Entering InGame from InGameLoading, and entering GameOver, happen in code outside the modelled files, so `Step` has no event for them.
