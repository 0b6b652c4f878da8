/** Food placement (`spawn_food`): sample candidate points inside the window,
    inset by a margin, until one is far enough from the player or the attempt
    budget is spent, then place the food at the last candidate.

    The random number generator is a sequence of samples, each in [0, 1) as
    `rand::random::<f32>()` returns; every attempt draws two, first for x and
    then for y. */
module Food {
  import opened Engine

  /** Inset from every window edge within which food is placed. */
  const Margin: real := 32.0

  /** Distance from the player that a candidate must reach to be accepted. */
  const MinDistance: real := 200.0

  /** Number of attempts after which the last candidate is taken anyway. */
  const MaxAttempts: nat := 100

  /** Depth at which the food sprite is drawn. */
  const FoodDepth: real := 10.0

  /** The point distances are measured from: the player's translation when
      exactly one player exists, the origin otherwise. */
  function PlayerPosition(players: seq<Vec3>): Vec3
  {
    if |players| == 1 then players[0] else Zero
  }

  /** A coordinate drawn from one sample along a window extent. */
  function SampleCoord(sample: real, extent: real): real
  {
    sample * (extent - 2.0 * Margin) - extent / 2.0 + Margin
  }

  /** The candidate of the attempt numbered `k` (from 0), at depth 0 as it is
      compared with the player. */
  function Candidate(samples: seq<real>, width: real, height: real, k: nat): Vec3
    requires 2 * k + 1 < |samples|
  {
    Vec3(SampleCoord(samples[2 * k], width), SampleCoord(samples[2 * k + 1], height), 0.0)
  }

  /** Distance at least MinDistance, compared on squares. */
  predicate FarEnough(player: Vec3, c: Vec3)
  {
    DistanceSquared(player, c) >= MinDistance * MinDistance
  }

  /** FarEnough is the distance test itself: for the distance d between the
      player and the candidate, it holds exactly when d >= MinDistance. */
  lemma FarEnoughIsDistance(player: Vec3, c: Vec3, d: real)
    requires d >= 0.0 && d * d == DistanceSquared(player, c)
    ensures FarEnough(player, c) <==> d >= MinDistance
  {
    SquaredCompare(d, MinDistance);
  }

  predicate IsSample(s: real)
  {
    0.0 <= s < 1.0
  }

  /** The food area of a window: the window inset by Margin on every side. */
  predicate InFoodArea(p: Vec3, width: real, height: real)
  {
    -width / 2.0 + Margin <= p.x <= width / 2.0 - Margin &&
    -height / 2.0 + Margin <= p.y <= height / 2.0 - Margin
  }

  /** A sample in [0, 1) lands inside the inset range of an extent at least
      twice the margin, and strictly below its top when the extent is larger. */
  lemma SampleCoordInRange(sample: real, extent: real)
    requires IsSample(sample) && extent >= 2.0 * Margin
    ensures -extent / 2.0 + Margin <= SampleCoord(sample, extent) <= extent / 2.0 - Margin
    ensures extent > 2.0 * Margin ==> SampleCoord(sample, extent) < extent / 2.0 - Margin
  {
    var span := extent - 2.0 * Margin;
    assert SampleCoord(sample, extent) == sample * span - extent / 2.0 + Margin;
    assert 0.0 <= sample * span;
    assert (1.0 - sample) * span >= 0.0;
    if span > 0.0 {
      assert (1.0 - sample) * span > 0.0;
      assert sample * span < span;
    }
  }

  /** `spawn_food`: the food position and the number of attempts it took. */
  method SpawnFood(samples: seq<real>, width: real, height: real, players: seq<Vec3>)
    returns (food: Vec3, attempts: nat)
    requires |samples| >= 2 * MaxAttempts
    ensures 1 <= attempts <= MaxAttempts
    ensures food == Candidate(samples, width, height, attempts - 1).(z := FoodDepth)
    ensures attempts < MaxAttempts ==>
      FarEnough(PlayerPosition(players), Candidate(samples, width, height, attempts - 1))
    ensures forall k :: 0 <= k < attempts - 1 ==>
      !FarEnough(PlayerPosition(players), Candidate(samples, width, height, k))
    ensures (forall k :: 0 <= k < MaxAttempts - 1 ==>
      !FarEnough(PlayerPosition(players), Candidate(samples, width, height, k)))
      ==> attempts == MaxAttempts
    ensures |players| != 1 && attempts < MaxAttempts ==>
      FarEnough(Zero, Candidate(samples, width, height, attempts - 1))
    ensures |players| != 1 ==> forall k :: 0 <= k < attempts - 1 ==>
      !FarEnough(Zero, Candidate(samples, width, height, k))
    ensures |players| == 1 && attempts < MaxAttempts ==>
      FarEnough(players[0], Candidate(samples, width, height, attempts - 1))
    ensures |players| == 1 ==> forall k :: 0 <= k < attempts - 1 ==>
      !FarEnough(players[0], Candidate(samples, width, height, k))
    ensures ((forall i :: 0 <= i < |samples| ==> IsSample(samples[i])) &&
             width >= 2.0 * Margin && height >= 2.0 * Margin) ==>
      InFoodArea(food, width, height)
    ensures ((forall i :: 0 <= i < |samples| ==> IsSample(samples[i])) &&
             width > 2.0 * Margin && height >= 2.0 * Margin) ==>
      food.x < width / 2.0 - Margin
    ensures ((forall i :: 0 <= i < |samples| ==> IsSample(samples[i])) &&
             width >= 2.0 * Margin && height > 2.0 * Margin) ==>
      food.y < height / 2.0 - Margin
  {
    var playerPos := PlayerPosition(players);
    var x: real;
    var y: real;
    attempts := 0;
    while true
      invariant 0 <= attempts < MaxAttempts
      invariant forall k :: 0 <= k < attempts ==>
        !FarEnough(playerPos, Candidate(samples, width, height, k))
      decreases MaxAttempts - attempts
    {
      x := samples[2 * attempts] * (width - 2.0 * Margin) - width / 2.0 + Margin;
      y := samples[2 * attempts + 1] * (height - 2.0 * Margin) - height / 2.0 + Margin;
      var foodPos := Vec3(x, y, 0.0);
      var far := FarEnough(playerPos, foodPos);
      assert foodPos == Candidate(samples, width, height, attempts);
      attempts := attempts + 1;
      if far || attempts >= MaxAttempts {
        break;
      }
    }
    food := Vec3(x, y, FoodDepth);
    if (forall i :: 0 <= i < |samples| ==> IsSample(samples[i])) &&
       width >= 2.0 * Margin && height >= 2.0 * Margin
    {
      SampleCoordInRange(samples[2 * (attempts - 1)], width);
      SampleCoordInRange(samples[2 * (attempts - 1) + 1], height);
    }
  }
}
