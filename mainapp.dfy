/** The stand-alone app of `main.rs`: a 600 by 600 window, one player spawned
    at the origin at rest, and the same input and movement systems as the
    Player module, run every frame. */
module MainApp {
  import opened Engine
  import opened Player

  /** The primary window's resolution. */
  const PrimaryWindow: Window := Window(600.0, 600.0)

  /** The player as `setup` spawns it: at the origin, with zero velocity. */
  const InitialPlayer: Body := Body(Zero, Zero)

  /** `setup`: a world holding the one player and the primary window. */
  method Setup() returns (world: World)
    ensures fresh(world)
    ensures world.players == [InitialPlayer] && world.window == Some(PrimaryWindow)
  {
    world := new World([InitialPlayer], Some(PrimaryWindow));
  }

  /** One run of one of the two systems. The app registers both for every
      frame without ordering them, so a run of the app is any sequence of
      these. */
  datatype SystemRun = Input(pressed: set<KeyCode>) | Movement

  /** The single player after one system runs in the primary window, as
      World.PlayerInput and World.PlayerMovement leave it. */
  function RunSystem(b: Body, run: SystemRun): (r: Body)
    ensures run.Movement? ==> InPlayArea(r.translation, PrimaryWindow)
    ensures run.Input? ==> r.translation == b.translation
  {
    match run
    case Input(pressed) => b.(velocity := KeyVelocity(pressed))
    case Movement => Moved(b, PrimaryWindow)
  }

  function RunSystems(b: Body, runs: seq<SystemRun>): Body
    decreases |runs|
  {
    if runs == [] then b else RunSystems(RunSystem(b, runs[0]), runs[1..])
  }

  /** What holds of the player at every frame of the app: inside
      [-270, 270] on both axes, at depth 0, with each velocity component in
      {-1, 0, 1} and none along z. */
  predicate Reachable(b: Body)
  {
    -270.0 <= b.translation.x <= 270.0 && -270.0 <= b.translation.y <= 270.0 &&
    b.translation.z == 0.0 &&
    UnitComponent(b.velocity.x) && UnitComponent(b.velocity.y) && b.velocity.z == 0.0
  }

  /** The play area of the primary window is [-270, 270] on both axes. */
  lemma PrimaryPlayArea(p: Vec3)
    ensures InPlayArea(p, PrimaryWindow) <==>
      -270.0 <= p.x <= 270.0 && -270.0 <= p.y <= 270.0
  {
  }

  /** Every system run keeps the player reachable. */
  lemma RunSystemKeepsReachable(b: Body, run: SystemRun)
    requires Reachable(b)
    ensures Reachable(RunSystem(b, run))
  {
    var r := RunSystem(b, run);
    match run
    case Input(pressed) =>
      assert r.velocity == KeyVelocity(pressed);
    case Movement =>
      assert r.velocity == b.velocity;
      assert r.translation.z == b.translation.z + PaddleSpeed * b.velocity.z;
      PrimaryPlayArea(r.translation);
  }

  /** From any reachable state, every sequence of input and movement runs
      leads to a reachable state. */
  lemma {:induction false} AlwaysReachable(b: Body, runs: seq<SystemRun>)
    requires Reachable(b)
    ensures Reachable(RunSystems(b, runs))
    decreases |runs|
  {
    if runs != [] {
      RunSystemKeepsReachable(b, runs[0]);
      AlwaysReachable(RunSystem(b, runs[0]), runs[1..]);
    }
  }

  /** From `setup`, however the two systems interleave, the player stays in
      [-270, 270] on both axes. */
  lemma SetupReachable(runs: seq<SystemRun>)
    ensures Reachable(RunSystems(InitialPlayer, runs))
  {
    AlwaysReachable(InitialPlayer, runs);
  }

  /** Driving a world built by `setup` through a sequence of system runs
      keeps its single player where RunSystems says. */
  method Simulate(world: World, runs: seq<SystemRun>)
    requires world.window == Some(PrimaryWindow) && |world.players| == 1
    modifies world
    ensures world.window == Some(PrimaryWindow)
    ensures world.players == [RunSystems(old(world.players[0]), runs)]
  {
    var i := 0;
    while i < |runs|
      invariant 0 <= i <= |runs|
      invariant world.window == Some(PrimaryWindow)
      invariant world.players == [RunSystems(old(world.players[0]), runs[..i])]
    {
      if runs[i].Input? {
        world.PlayerInput(runs[i].pressed);
      } else {
        world.PlayerMovement();
      }
      RunSystemsSnoc(old(world.players[0]), runs[..i], runs[i]);
      assert runs[..i + 1] == runs[..i] + [runs[i]];
      i := i + 1;
    }
    assert runs[..|runs|] == runs;
  }

  /** Running one more system after a sequence of them. */
  lemma {:induction false} RunSystemsSnoc(b: Body, runs: seq<SystemRun>, run: SystemRun)
    ensures RunSystems(b, runs + [run]) == RunSystem(RunSystems(b, runs), run)
    decreases |runs|
  {
    if runs != [] {
      assert (runs + [run])[1..] == runs[1..] + [run];
      RunSystemsSnoc(RunSystem(b, runs[0]), runs[1..], run);
    }
  }
}
