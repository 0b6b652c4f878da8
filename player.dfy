/** The player: turning the arrow keys held this frame into a velocity
    (`player_input`) and advancing every player by that velocity, clamped to
    the window inset by the player's half size (`player_movement`). */
module Player {
  import opened Engine

  /** Distance moved per frame per unit of velocity (PADDLE_SPEED). */
  const PaddleSpeed: real := 5.0

  /** Inset from each window edge that keeps the player (a circle of radius 30)
      on screen. */
  const HalfExtent: real := 30.0

  /** The Transform translation and the Velocity of one entity marked Player. */
  datatype Body = Body(translation: Vec3, velocity: Vec3)

  /** 1 for a held key, 0 otherwise. */
  function Held(pressed: set<KeyCode>, k: KeyCode): real
  {
    if k in pressed then 1.0 else 0.0
  }

  /** A velocity component the arrow keys can produce. */
  predicate UnitComponent(c: real)
  {
    c == -1.0 || c == 0.0 || c == 1.0
  }

  /** The velocity a set of held keys asks for: Right minus Left on x,
      Up minus Down on y, nothing on z. */
  function KeyVelocity(pressed: set<KeyCode>): (v: Vec3)
    ensures UnitComponent(v.x) && UnitComponent(v.y) && v.z == 0.0
    ensures v.x == Held(pressed, ArrowRight) - Held(pressed, ArrowLeft)
    ensures v.y == Held(pressed, ArrowUp) - Held(pressed, ArrowDown)
    ensures (ArrowLeft in pressed <==> ArrowRight in pressed) <==> v.x == 0.0
    ensures (ArrowUp in pressed <==> ArrowDown in pressed) <==> v.y == 0.0
  {
    Vec3(Held(pressed, ArrowRight) - Held(pressed, ArrowLeft),
         Held(pressed, ArrowUp) - Held(pressed, ArrowDown),
         0.0)
  }

  /** The body of `player_input` for the single player: reset the velocity to
      zero, then adjust it once per held arrow key. */
  method ResolveVelocity(pressed: set<KeyCode>) returns (v: Vec3)
    ensures v == KeyVelocity(pressed)
  {
    v := Zero;
    if ArrowLeft in pressed {
      v := v.(x := v.x - 1.0);
    }
    if ArrowRight in pressed {
      v := v.(x := v.x + 1.0);
    }
    if ArrowUp in pressed {
      v := v.(y := v.y + 1.0);
    }
    if ArrowDown in pressed {
      v := v.(y := v.y - 1.0);
    }
  }

  /** The largest coordinate the player may reach along an axis of the given
      window extent: half the extent less the player's half size. */
  function AxisLimit(extent: real): real
  {
    extent / 2.0 - HalfExtent
  }

  /** `f32::clamp`, which panics unless `lo <= hi`. */
  function Clamp(v: real, lo: real, hi: real): (r: real)
    requires lo <= hi
    ensures lo <= r <= hi
    ensures lo <= v <= hi ==> r == v
    ensures v < lo ==> r == lo
    ensures hi < v ==> r == hi
  {
    if v < lo then lo else if hi < v then hi else v
  }

  /** The window is large enough for both clamps: their bounds are -m and m,
      so they are ordered exactly when m >= 0. */
  predicate FitsPlayer(w: Window)
  {
    w.width >= 2.0 * HalfExtent && w.height >= 2.0 * HalfExtent
  }

  /** FitsPlayer is exactly the condition under which neither clamp panics. */
  lemma FitsPlayerExactly(w: Window)
    ensures FitsPlayer(w) <==>
      -AxisLimit(w.width) <= AxisLimit(w.width) && -AxisLimit(w.height) <= AxisLimit(w.height)
  {
  }

  /** Whether a point's x and y lie within the play area of a window. */
  predicate InPlayArea(p: Vec3, w: Window)
  {
    -AxisLimit(w.width) <= p.x <= AxisLimit(w.width) &&
    -AxisLimit(w.height) <= p.y <= AxisLimit(w.height)
  }

  /** Where one movement step would take a body if nothing clamped it. */
  function Unclamped(b: Body): Vec3
  {
    Add(b.translation, Scale(b.velocity, PaddleSpeed))
  }

  /** One body after one frame of `player_movement` in window `w`. */
  function Moved(b: Body, w: Window): (r: Body)
    requires FitsPlayer(w)
    ensures r.velocity == b.velocity
    ensures InPlayArea(r.translation, w)
    ensures r.translation.z == b.translation.z + PaddleSpeed * b.velocity.z
    ensures InPlayArea(Unclamped(b), w) ==> r.translation == Unclamped(b)
  {
    var maxX, maxY := AxisLimit(w.width), AxisLimit(w.height);
    var p := Unclamped(b);
    b.(translation := Vec3(Clamp(p.x, -maxX, maxX), Clamp(p.y, -maxY, maxY), p.z))
  }

  /** The bodies of a window's players, and the window itself when there is
      exactly one. */
  class World {
    var players: seq<Body>
    var window: Option<Window>

    constructor (players: seq<Body>, window: Option<Window>)
      ensures this.players == players && this.window == window
    {
      this.players := players;
      this.window := window;
    }

    /** `player_input`: when there is exactly one player, its velocity is set
        from the held keys, whatever it was before; otherwise nothing changes. */
    method PlayerInput(pressed: set<KeyCode>)
      modifies this
      ensures window == old(window)
      ensures |old(players)| == 1 ==>
        players == [old(players)[0].(velocity := KeyVelocity(pressed))]
      ensures |old(players)| != 1 ==> players == old(players)
    {
      if |players| == 1 {
        var v := ResolveVelocity(pressed);
        players := [players[0].(velocity := v)];
      }
    }

    /** `player_movement`: with a window, every player takes one clamped step;
        without exactly one window nothing changes. The clamps panic unless the
        window fits the player, which matters only when there is a player. */
    method PlayerMovement()
      requires window.Some? && |players| > 0 ==> FitsPlayer(window.value)
      modifies this
      ensures window == old(window)
      ensures |players| == |old(players)|
      ensures window.None? ==> players == old(players)
      ensures window.Some? ==>
        forall i :: 0 <= i < |players| ==> players[i] == Moved(old(players)[i], window.value)
    {
      if window.Some? {
        var w := window.value;
        var maxY := AxisLimit(w.height);
        var minY := -maxY;
        var maxX := AxisLimit(w.width);
        var minX := -maxX;
        var i := 0;
        while i < |players|
          invariant 0 <= i <= |players| == |old(players)|
          invariant window == old(window)
          invariant forall j :: 0 <= j < i ==> players[j] == Moved(old(players)[j], w)
          invariant forall j :: i <= j < |players| ==> players[j] == old(players)[j]
        {
          var b := players[i];
          var p := Add(b.translation, Scale(b.velocity, PaddleSpeed));
          p := p.(x := Clamp(p.x, minX, maxX));
          p := p.(y := Clamp(p.y, minY, maxY));
          players := players[i := b.(translation := p)];
          i := i + 1;
        }
      }
    }
  }
}
