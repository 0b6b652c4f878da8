/** The game's two state machines and the inputs that drive them: the app
    state (boot, menu, loading, in game) and the in-game sub-state (running,
    paused, game over). Escape toggles pause while in game; the buttons of the
    pause screen, the game-over screen and the main menu set fixed targets. */
module GameFlow {
  import opened Engine

  datatype AppState = BootingApp | MainMenu | InGameLoading | InGame

  datatype IsPaused = Running | Paused | GameOver

  datatype GameState = GameState(app: AppState, paused: IsPaused)

  datatype PauseButton = Resume | PauseRestart | PauseMenu

  datatype GameOverButton = GameOverRestart | GameOverMenu

  /** One frame's input: the keys pressed this frame, or a released click on
      a button. */
  datatype Event =
    | Keys(justPressed: set<KeyCode>)
    | PauseScreen(pauseButton: PauseButton)
    | GameOverScreen(gameOverButton: GameOverButton)
    | MenuPlay

  /** `toggle_pause`: with Escape just pressed, Running and Paused swap;
      otherwise no next state is set. The toggle has no arm for GameOver, so
      Escape there has no defined outcome (None). */
  function TogglePause(justPressed: set<KeyCode>, current: IsPaused): (r: Option<IsPaused>)
    ensures Escape !in justPressed ==> r == Some(current)
    ensures Escape in justPressed ==> (r.None? <==> current == GameOver)
    ensures Escape in justPressed && r.Some? ==>
      r.value != current && r.value != GameOver
  {
    if Escape in justPressed then
      match current
      case Running => Some(Paused)
      case Paused => Some(Running)
      case GameOver => None
    else
      Some(current)
  }

  /** The pause screen's buttons: Resume sets the sub-state, Restart and Menu
      set the app state. */
  function PauseButtonTarget(b: PauseButton, s: GameState): GameState
  {
    match b
    case Resume => s.(paused := Running)
    case PauseRestart => s.(app := InGameLoading)
    case PauseMenu => s.(app := MainMenu)
  }

  /** The game-over screen's buttons: Restart and Menu set the app state. */
  function GameOverButtonTarget(b: GameOverButton, s: GameState): GameState
  {
    match b
    case GameOverRestart => s.(app := InGameLoading)
    case GameOverMenu => s.(app := MainMenu)
  }

  /** The state after one event, None where the program defines no outcome.
      The sub-state belongs to the InGame app state: it is read only there,
      and entering InGame starts it at Running. The toggle runs only in game,
      and each screen's buttons exist only while its sub-state is current. */
  function Step(s: GameState, e: Event): (r: Option<GameState>)
    ensures r.None? <==>
      e.Keys? && Escape in e.justPressed && s.app == InGame && s.paused == GameOver
    ensures e.Keys? && r.Some? ==> r.value.app == s.app
    ensures e.Keys? && s.app != InGame ==> r == Some(s)
    ensures s.app == InGame && s.paused == Paused ==>
      (e == PauseScreen(Resume) ==> r == Some(GameState(InGame, Running))) &&
      (e == PauseScreen(PauseRestart) ==> r == Some(GameState(InGameLoading, Paused))) &&
      (e == PauseScreen(PauseMenu) ==> r == Some(GameState(MainMenu, Paused)))
    ensures s.app == InGame && s.paused == GameOver ==>
      (e == GameOverScreen(GameOverRestart) ==> r == Some(GameState(InGameLoading, GameOver))) &&
      (e == GameOverScreen(GameOverMenu) ==> r == Some(GameState(MainMenu, GameOver)))
    ensures e.PauseScreen? && !(s.app == InGame && s.paused == Paused) ==> r == Some(s)
    ensures e.GameOverScreen? && !(s.app == InGame && s.paused == GameOver) ==> r == Some(s)
    ensures e == MenuPlay ==> r == Some(GameState(InGame, Running))
    ensures !e.Keys? && r.Some? && r.value.paused != s.paused ==>
      (e == PauseScreen(Resume) || e == MenuPlay) && r.value.paused == Running
    ensures r.Some? && s.paused != GameOver ==> r.value.paused != GameOver
  {
    match e
    case Keys(justPressed) =>
      if s.app == InGame then
        match TogglePause(justPressed, s.paused)
        case Some(p) => Some(s.(paused := p))
        case None => None
      else
        Some(s)
    case PauseScreen(b) =>
      if s.app == InGame && s.paused == Paused then Some(PauseButtonTarget(b, s)) else Some(s)
    case GameOverScreen(b) =>
      if s.app == InGame && s.paused == GameOver then Some(GameOverButtonTarget(b, s)) else Some(s)
    case MenuPlay =>
      Some(GameState(InGame, Running))
  }

  /** The state after a sequence of events, None once an event has no
      defined outcome. */
  function Run(s: GameState, events: seq<Event>): Option<GameState>
    decreases |events|
  {
    if events == [] then Some(s)
    else match Step(s, events[0])
      case Some(t) => Run(t, events[1..])
      case None => None
  }

  /** The events of `n` frames that each press only Escape. */
  function EscapePresses(n: nat): (r: seq<Event>)
    ensures |r| == n
    ensures forall i :: 0 <= i < n ==> r[i] == Keys({Escape})
  {
    if n == 0 then [] else [Keys({Escape})] + EscapePresses(n - 1)
  }

  function Flip(p: IsPaused): IsPaused
  {
    match p
    case Running => Paused
    case Paused => Running
    case GameOver => GameOver
  }

  /** In game, `n` Escape presses leave the game paused exactly when the
      parity of `n` and the starting sub-state say so; an even number returns
      to the start. */
  lemma {:induction false} EscapeParity(s: GameState, n: nat)
    requires s.app == InGame && s.paused != GameOver
    ensures Run(s, EscapePresses(n)) ==
      Some(if n % 2 == 0 then s else s.(paused := Flip(s.paused)))
    decreases n
  {
    if n > 0 {
      var t := s.(paused := Flip(s.paused));
      assert Step(s, Keys({Escape})) == Some(t);
      assert EscapePresses(n)[1..] == EscapePresses(n - 1);
      EscapeParity(t, n - 1);
      assert t.(paused := Flip(t.paused)) == s;
    }
  }

  /** Pressing Escape twice in game returns to the sub-state one started
      from. */
  lemma EscapeTwice(s: GameState)
    requires s.app == InGame && s.paused != GameOver
    ensures Run(s, EscapePresses(2)) == Some(s)
  {
    EscapeParity(s, 2);
  }

  /** Key input alone never changes the app state: the toggle writes only
      the sub-state. */
  lemma {:induction false} KeysKeepAppState(s: GameState, events: seq<Event>)
    requires forall i :: 0 <= i < |events| ==> events[i].Keys?
    ensures Run(s, events).Some? ==> Run(s, events).value.app == s.app
    decreases |events|
  {
    if events != [] {
      var r := Step(s, events[0]);
      if r.Some? {
        KeysKeepAppState(r.value, events[1..]);
      }
    }
  }

  /** None of the events here leads into GameOver: from any other sub-state
      every sequence of events has a defined outcome that is not GameOver. So
      the game-over summary is reached only by a transition defined outside
      these files. */
  lemma {:induction false} NeverEntersGameOver(s: GameState, events: seq<Event>)
    requires s.paused != GameOver
    ensures Run(s, events).Some? && Run(s, events).value.paused != GameOver
    decreases |events|
  {
    if events != [] {
      NeverEntersGameOver(Step(s, events[0]).value, events[1..]);
    }
  }

  /** A click's effect leaves its own screen or changes nothing, so clicking
      the same button again changes nothing more. */
  lemma ClickIdempotent(s: GameState, e: Event)
    requires !e.Keys?
    ensures Step(s, e).Some? && Step(Step(s, e).value, e) == Step(s, e)
  {
  }

  /** Leaving the game-over screen by either button and then entering the
      game again starts a fresh, running game. */
  lemma GameOverThenPlay(s: GameState, b: GameOverButton)
    requires s.app == InGame && s.paused == GameOver
    ensures Step(s, GameOverScreen(b)).Some?
    ensures Step(s, GameOverScreen(b)).value.app != InGame
    ensures Step(Step(s, GameOverScreen(b)).value, MenuPlay) == Some(GameState(InGame, Running))
  {
  }
}
