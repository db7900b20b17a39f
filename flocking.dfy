/**
 * public/Boids.js: the Boids container and the perception scan at the start of
 * Boid.update. Distances come in as parameters together with the fact that each is the
 * length of the vector between the two positions (no square root is computed).
 */
module Flocking {
  import opened Wrappers
  import opened VectorLib
  import Utils

  const VISION_RADIUS := 1000.0
  const AVOID_RADIUS := 20.0
  const FOV := 50.0

  /**
   * What isInFOV answers for a boid at `position` heading along `heading`: the dot
   * product of the heading with the unit vector towards `point`, remapped to "degrees",
   * must be below FOV / 2. `magnitude` is the distance to `point`; when it is 0 the
   * source divides by zero, every comparison with the resulting NaN is false, and so is
   * the answer.
   */
  function InFieldOfView(position: Vec, heading: Vec, point: Vec, magnitude: real): (r: bool)
    ensures magnitude == 0.0 ==> !r
  {
    if magnitude == 0.0 then false
    else
      var otherPoint := VectorMath.Divided(VectorMath.Subtract(point, position), magnitude);
      Utils.DotProductToAngle(VectorMath.GetDotProduct(heading, otherPoint)) < FOV / 2.0
  }

  /** The scan's running state: nearest index and distance, the count and the sum of seen positions. */
  datatype ScanState = ScanState(nearest: int, nearestDist: real, visibleBoids: nat, centerPoint: Vec)

  /**
   * What Boid.update has computed when its steering begins. `avoidFac` is worked out from
   * the DEFAULT nearest boid's distance, before the scan looks for a nearer one.
   */
  datatype Perception = Perception(nearest: int, nearestDist: real, avoidFac: real, visibleBoids: nat, centerPoint: Vec)

  /** Which indices the scan takes in: not itself, inside the field of view, closer than VISION_RADIUS. */
  function Sight(selfIdx: int, position: Vec, heading: Vec, positions: seq<Vec>, distances: seq<real>): (r: seq<bool>)
    requires |distances| == |positions|
    ensures |r| == |positions|
    ensures 0 <= selfIdx < |r| ==> !r[selfIdx]
    ensures forall i :: 0 <= i < |r| && r[i] ==> distances[i] < VISION_RADIUS
  {
    seq(|positions|, i requires 0 <= i < |positions| =>
      i != selfIdx && InFieldOfView(position, heading, positions[i], distances[i]) && distances[i] < VISION_RADIUS)
  }

  /**
   * The scan over the first n indices, starting from the default nearest `start` at
   * distance `startDist`: a seen index replaces the nearest only when strictly closer.
   */
  function Scan(sight: seq<bool>, distances: seq<real>, positions: seq<Vec>, n: nat, start: int, startDist: real): (r: ScanState)
    requires n <= |sight| && |sight| == |distances| == |positions|
    ensures r.visibleBoids <= n
  {
    if n == 0 then ScanState(start, startDist, 0, Vec(0.0, 0.0))
    else
      ScanStep(Scan(sight, distances, positions, n - 1, start, startDist), sight[n - 1], n - 1, distances[n - 1], positions[n - 1])
  }

  /** One pass of the scan's loop body at index i, which is at distance `dist` and position `pos`. */
  function ScanStep(s: ScanState, seen: bool, i: int, dist: real, pos: Vec): (r: ScanState)
    ensures r.nearestDist <= s.nearestDist
    ensures r.visibleBoids == s.visibleBoids + (if seen then 1 else 0)
    ensures r.nearest != s.nearest ==> seen && r.nearest == i && r.nearestDist == dist < s.nearestDist
  {
    if !seen then s
    else
      var closer := dist < s.nearestDist;
      ScanState(if closer then i else s.nearest,
                if closer then dist else s.nearestDist,
                s.visibleBoids + 1,
                VectorMath.Add(s.centerPoint, pos))
  }

  /** How many of the first n indices are seen. */
  function CountSeen(sight: seq<bool>, n: nat): (r: nat)
    requires n <= |sight|
    ensures r <= n
  {
    if n == 0 then 0 else CountSeen(sight, n - 1) + (if sight[n - 1] then 1 else 0)
  }

  /** The coordinate-wise sum of the positions of the seen indices among the first n. */
  function SumSeen(sight: seq<bool>, positions: seq<Vec>, n: nat): Vec
    requires n <= |sight| == |positions|
  {
    if n == 0 then Vec(0.0, 0.0)
    else
      var rest := SumSeen(sight, positions, n - 1);
      if sight[n - 1] then Vec(rest.x + positions[n - 1].x, rest.y + positions[n - 1].y) else rest
  }

  /** `(selfIdx > 0) ? otherBoids[0] : otherBoids[1]`. */
  function DefaultNearest(selfIdx: int): (r: int)
    ensures r == 0 || r == 1
    ensures r != selfIdx
  {
    if selfIdx > 0 then 0 else 1
  }

  /** The perception of a boid at index selfIdx of a swarm of at least two. */
  function Perceive(selfIdx: int, position: Vec, heading: Vec, positions: seq<Vec>, distances: seq<real>): (r: Perception)
    requires |positions| >= 2 && |distances| == |positions|
    ensures r.visibleBoids <= |positions|
    ensures r.nearestDist <= distances[DefaultNearest(selfIdx)]
  {
    var d := DefaultNearest(selfIdx);
    var sight := Sight(selfIdx, position, heading, positions, distances);
    ScanNoFurther(sight, distances, positions, |positions|, d, distances[d]);
    var s := Scan(sight, distances, positions, |positions|, d, distances[d]);
    Perception(s.nearest, s.nearestDist, (AVOID_RADIUS - distances[d]) / AVOID_RADIUS, s.visibleBoids, s.centerPoint)
  }

  /** The current coordinates of every boid, in swarm order. */
  function Positions(boids: seq<Boid>): (r: seq<Vec>)
    reads boids, set b | b in boids :: b.position
    ensures |r| == |boids|
    ensures forall i :: 0 <= i < |boids| ==> r[i] == boids[i].position.Value()
  {
    if |boids| == 0 then []
    else Positions(boids[..|boids| - 1]) + [boids[|boids| - 1].position.Value()]
  }

  /** `distances[i][j]` is the distance from boid i to boid j, for every pair. */
  predicate Measured(positions: seq<Vec>, distances: seq<seq<real>>)
  {
    |distances| == |positions| &&
    forall i {:trigger distances[i]} :: 0 <= i < |positions| ==> DistancesFrom(positions[i], positions, distances[i])
  }

  /** A table of `size` rows, each `size` long. */
  predicate Square(distances: seq<seq<real>>, size: nat)
  {
    |distances| == size && forall i :: 0 <= i < size ==> |distances[i]| == size
  }

  /**
   * What Boids.update leaves behind for the first n boids of a swarm at `positions`
   * heading along `headings`: nothing when the swarm has at most one boid.
   */
  function Perceptions(positions: seq<Vec>, headings: seq<Vec>, distances: seq<seq<real>>, n: nat): (r: seq<Option<Perception>>)
    requires n <= |positions| && |headings| == |positions| && Square(distances, |positions|)
    ensures |r| == n
  {
    if n == 0 then []
    else
      Perceptions(positions, headings, distances, n - 1)
      + [if |positions| <= 1 then None else Some(Perceive(n - 1, positions[n - 1], headings[n - 1], positions, distances[n - 1]))]
  }

  /** The current heading of every boid, in swarm order. */
  function Headings(boids: seq<Boid>): (r: seq<Vec>)
    reads boids, set b | b in boids :: b.direction
    ensures |r| == |boids|
    ensures forall i :: 0 <= i < |boids| ==> r[i] == boids[i].direction.Value()
  {
    if |boids| == 0 then []
    else Headings(boids[..|boids| - 1]) + [boids[|boids| - 1].direction.Value()]
  }

  /** `distances[i]` is the distance from `from` to `positions[i]`. */
  predicate DistancesFrom(from: Vec, positions: seq<Vec>, distances: seq<real>)
  {
    |distances| == |positions| &&
    forall i {:trigger distances[i]} :: 0 <= i < |positions| ==> IsMagnitude(VectorMath.Subtract(positions[i], from), distances[i])
  }

  class Boid {
    /** The caller's vector itself, not a copy. */
    var position: Vector2
    var direction: Vector2

    /**
     * The heading is a fresh unit copy of `dir`, and because GetNormalized divides in
     * place, the caller's `dir` is left normalised as well.
     */
    constructor (pos: Vector2, dir: Vector2, magnitude: real)
      requires IsMagnitude(dir.Value(), magnitude) && magnitude != 0.0
      modifies dir
      ensures position == pos && fresh(direction)
      ensures dir.Value() == VectorMath.Divided(old(dir.Value()), magnitude)
      ensures direction.Value() == dir.Value()
      ensures VectorMath.GetDotProduct(direction.Value(), direction.Value()) == 1.0
    {
      var unit := dir.GetNormalized(magnitude);
      position := pos;
      direction := unit;
    }

    /**
     * isInFOV: compares a copy of the heading with the normalised offset to `point`.
     * `magnitude` is the distance from this boid to `point`.
     */
    method IsInFOV(point: Vector2, magnitude: real) returns (r: bool)
      requires IsMagnitude(VectorMath.Subtract(point.Value(), position.Value()), magnitude)
      ensures r == InFieldOfView(position.Value(), direction.Value(), point.Value(), magnitude)
    {
      var thisPoint := new Vector2.Copy(direction);
      var offset := new Vector2(point.x - position.x, point.y - position.y);
      if magnitude == 0.0 {
        // x / 0 is NaN or an infinity, and the comparison below is then false
        return false;
      }
      var otherPoint := offset.GetNormalized(magnitude);
      var dotProd := VectorMath.GetDotProduct(thisPoint.Value(), otherPoint.Value());
      var degreeDifference := Utils.DotProductToAngle(dotProd);
      r := degreeDifference < FOV / 2.0;
    }

    /**
     * One pass of update's loop body: index i is taken in when it is another boid, inside
     * the field of view and closer than VISION_RADIUS; then it may become the nearest, and
     * its position is added into `centerPoint`, the only object written.
     */
    method Visit(selfIdx: int, i: int, other: Vector2, centerPoint: Vector2, positions: seq<Vec>, distances: seq<real>,
                 ghost sight: seq<bool>, nearest: int, nearestDist: real, visible: nat)
      returns (nearestAfter: int, nearestDistAfter: real, visibleAfter: nat)
      requires DistancesFrom(position.Value(), positions, distances) && 0 <= i < |positions|
      requires sight == Sight(selfIdx, position.Value(), direction.Value(), positions, distances)
      requires other.Value() == positions[i]
      requires centerPoint != other && centerPoint != position && centerPoint != direction
      modifies centerPoint
      ensures ScanState(nearestAfter, nearestDistAfter, visibleAfter, centerPoint.Value())
              == ScanStep(ScanState(nearest, nearestDist, visible, old(centerPoint.Value())),
                          sight[i], i, distances[i], positions[i])
    {
      SightAt(selfIdx, position.Value(), direction.Value(), positions, distances, i);
      var seen := false;
      if i != selfIdx {
        var inView := IsInFOV(other, distances[i]);
        seen := inView && distances[i] < VISION_RADIUS;
      }
      nearestAfter, nearestDistAfter, visibleAfter := nearest, nearestDist, visible;
      if seen {
        var distance := distances[i];
        if distance < nearestDist {
          nearestAfter := i;
          nearestDistAfter := distance;
        }
        centerPoint.Add(other);
        visibleAfter := visible + 1;
      }
    }

    /**
     * update's loop over the swarm, from the default nearest boid: the nearest seen boid
     * (strictly closer wins), how many were seen and the sum of their positions, in a
     * fresh vector. No boid and no vector of the swarm is written.
     */
    method Survey(selfIdx: int, otherBoids: seq<Boid>, distances: seq<real>, nearest: int, nearestDist: real)
      returns (nearestBoid: int, nearestBoidDist: real, visibleBoids: nat, centerPoint: Vector2)
      requires DistancesFrom(position.Value(), Positions(otherBoids), distances)
      ensures fresh(centerPoint)
      ensures ScanState(nearestBoid, nearestBoidDist, visibleBoids, centerPoint.Value())
              == Scan(Sight(selfIdx, old(position.Value()), old(direction.Value()), old(Positions(otherBoids)), distances),
                      distances, old(Positions(otherBoids)), |otherBoids|, nearest, nearestDist)
      ensures Positions(otherBoids) == old(Positions(otherBoids)) && Headings(otherBoids) == old(Headings(otherBoids))
    {
      var positions := Positions(otherBoids);
      ghost var sight := Sight(selfIdx, position.Value(), direction.Value(), positions, distances);
      centerPoint := new Vector2(0.0, 0.0);
      nearestBoid, nearestBoidDist, visibleBoids := nearest, nearestDist, 0;
      var i := 0;
      while i < |otherBoids|
        invariant 0 <= i <= |otherBoids|
        invariant fresh(centerPoint)
        invariant ScanState(nearestBoid, nearestBoidDist, visibleBoids, centerPoint.Value())
                  == Scan(sight, distances, positions, i, nearest, nearestDist)
      {
        nearestBoid, nearestBoidDist, visibleBoids :=
          Visit(selfIdx, i, otherBoids[i].position, centerPoint, positions, distances, sight, nearestBoid, nearestBoidDist, visibleBoids);
        i := i + 1;
      }
    }

    /**
     * Boid.update up to the end of the neighbour scan: nothing (None) for a swarm of at
     * most one boid, otherwise what the scan has found. The scan's own local vector is
     * the only object it writes.
     */
    method Update(selfIdx: int, otherBoids: seq<Boid>, distances: seq<real>) returns (r: Option<Perception>)
      requires DistancesFrom(position.Value(), Positions(otherBoids), distances)
      ensures |otherBoids| <= 1 ==> r.None?
      ensures |otherBoids| > 1 ==>
                r == Some(Perceive(selfIdx, old(position.Value()), old(direction.Value()), old(Positions(otherBoids)), distances))
      ensures Positions(otherBoids) == old(Positions(otherBoids)) && Headings(otherBoids) == old(Headings(otherBoids))
    {
      if |otherBoids| <= 1 {
        return None;
      }
      var nearestBoid := DefaultNearest(selfIdx);
      var nearestBoidDist := distances[nearestBoid];
      var avoidFac := (AVOID_RADIUS - nearestBoidDist) / AVOID_RADIUS;
      var visibleBoids, centerPoint;
      nearestBoid, nearestBoidDist, visibleBoids, centerPoint := Survey(selfIdx, otherBoids, distances, nearestBoid, nearestBoidDist);
      r := Some(Perception(nearestBoid, nearestBoidDist, avoidFac, visibleBoids, centerPoint.Value()));
    }
  }

  /** The swarm: `length` counts additions and is not kept in step with pops. */
  class Boids {
    var boids: seq<Boid>
    var length: int

    /** `length` never falls behind the array: it only counts additions. */
    predicate Valid()
      reads this
    {
      |boids| <= length
    }

    constructor ()
      ensures boids == [] && length == 0
      ensures Valid()
    {
      boids := [];
      length := 0;
    }

    /** Appends a boid built from pos and dir (dir is normalised in place) and counts it. */
    method AddBoid(pos: Vector2, dir: Vector2, magnitude: real)
      requires Valid()
      requires IsMagnitude(dir.Value(), magnitude) && magnitude != 0.0
      modifies this, dir
      ensures Valid()
      ensures |boids| == |old(boids)| + 1 && boids[..|old(boids)|] == old(boids)
      ensures fresh(boids[|boids| - 1]) && boids[|boids| - 1].position == pos
      ensures boids[|boids| - 1].direction.Value() == VectorMath.Divided(old(dir.Value()), magnitude)
      ensures length == old(length) + 1
    {
      var b := new Boid(pos, dir, magnitude);
      boids := boids + [b];
      length := length + 1;
    }

    /** Removes the last boid, if any; `length` is left as it was. */
    method PopBoid()
      requires Valid()
      modifies this
      ensures Valid()
      ensures boids == if |old(boids)| == 0 then old(boids) else old(boids)[..|old(boids)| - 1]
      ensures length == old(length)
      ensures old(length) == |old(boids)| && |old(boids)| > 0 ==> GetLength() == length - 1
    {
      if |boids| > 0 {
        boids := boids[..|boids| - 1];
      }
    }

    /** The i-th boid in insertion order, or null (`undefined`) out of range. */
    function GetBoid(i: int): (r: Boid?)
      reads this
      ensures 0 <= i < |boids| ==> r == boids[i]
      ensures !(0 <= i < |boids|) ==> r == null
    {
      if 0 <= i < |boids| then boids[i] else null
    }

    /** The array's size, which is not the `length` counter once a boid has been popped. */
    function GetLength(): (r: int)
      reads this
      ensures r >= 0 && r == |boids|
      ensures Valid() ==> r <= length
    {
      |boids|
    }

    /** Every boid's update in turn, each told its own index. */
    method Update(distances: seq<seq<real>>) returns (perceptions: seq<Option<Perception>>)
      requires Measured(Positions(boids), distances)
      ensures perceptions == Perceptions(old(Positions(boids)), old(Headings(boids)), distances, |boids|)
    {
      perceptions := [];
      ghost var positions := Positions(boids);
      ghost var headings := Headings(boids);
      var i := 0;
      while i < |boids|
        invariant 0 <= i <= |boids|
        invariant Positions(boids) == positions && Headings(boids) == headings
        invariant perceptions == Perceptions(positions, headings, distances, i)
      {
        var p := boids[i].Update(i, boids, distances[i]);
        perceptions := perceptions + [p];
        i := i + 1;
      }
    }
  }

  // Properties of the scan

  lemma SightAt(selfIdx: int, position: Vec, heading: Vec, positions: seq<Vec>, distances: seq<real>, i: int)
    requires |distances| == |positions| && 0 <= i < |positions|
    ensures Sight(selfIdx, position, heading, positions, distances)[i]
            == (i != selfIdx && InFieldOfView(position, heading, positions[i], distances[i]) && distances[i] < VISION_RADIUS)
  {
  }

  /** A boid's field of view lets through every point except its own position. */
  lemma FovSeesAllButSelf(position: Vec, heading: Vec, point: Vec, magnitude: real)
    requires VectorMath.GetDotProduct(heading, heading) == 1.0
    requires IsMagnitude(VectorMath.Subtract(point, position), magnitude)
    ensures InFieldOfView(position, heading, point, magnitude) <==> magnitude != 0.0
  {
    if magnitude != 0.0 {
      var otherPoint := VectorMath.Divided(VectorMath.Subtract(point, position), magnitude);
      NormalizedIsUnit(VectorMath.Subtract(point, position), magnitude);
      UnitDotBounds(heading, otherPoint);
    }
  }

  /** The scan never ends further away than the default nearest. */
  lemma {:induction false} ScanNoFurther(sight: seq<bool>, distances: seq<real>, positions: seq<Vec>, n: nat, start: int, startDist: real)
    requires n <= |sight| && |sight| == |distances| == |positions|
    ensures Scan(sight, distances, positions, n, start, startDist).nearestDist <= startDist
  {
    if n > 0 {
      ScanNoFurther(sight, distances, positions, n - 1, start, startDist);
    }
  }

  /** The final nearest distance is at most the distance of every seen index. */
  lemma {:induction false} ScanMinimal(sight: seq<bool>, distances: seq<real>, positions: seq<Vec>, n: nat, start: int, startDist: real)
    requires n <= |sight| && |sight| == |distances| == |positions|
    ensures forall k :: 0 <= k < n && sight[k] ==> Scan(sight, distances, positions, n, start, startDist).nearestDist <= distances[k]
  {
    if n > 0 {
      ScanMinimal(sight, distances, positions, n - 1, start, startDist);
    }
  }

  /** The nearest is the default or an index the scan saw: never one it skipped. */
  lemma {:induction false} ScanNearestSeen(sight: seq<bool>, distances: seq<real>, positions: seq<Vec>, n: nat, start: int, startDist: real)
    requires n <= |sight| && |sight| == |distances| == |positions|
    ensures var s := Scan(sight, distances, positions, n, start, startDist);
            s.nearest == start || (0 <= s.nearest < n && sight[s.nearest] && s.nearestDist == distances[s.nearest])
  {
    if n > 0 {
      ScanNearestSeen(sight, distances, positions, n - 1, start, startDist);
    }
  }

  /**
   * Ties go to the earliest index: every seen index before the nearest is strictly
   * further away (given that the scan sees nothing before the default).
   */
  lemma {:induction false} ScanEarliestWins(sight: seq<bool>, distances: seq<real>, positions: seq<Vec>, n: nat, start: int, startDist: real)
    requires n <= |sight| && |sight| == |distances| == |positions|
    requires forall k :: 0 <= k < n && k < start ==> !sight[k]
    ensures var s := Scan(sight, distances, positions, n, start, startDist);
            forall k :: 0 <= k < n && k < s.nearest && sight[k] ==> distances[k] > s.nearestDist
  {
    if n > 0 {
      var prev := Scan(sight, distances, positions, n - 1, start, startDist);
      ScanEarliestWins(sight, distances, positions, n - 1, start, startDist);
      ScanMinimal(sight, distances, positions, n - 1, start, startDist);
      ScanNearestSeen(sight, distances, positions, n - 1, start, startDist);
    }
  }

  /** Every seen index is counted once, so an unseen index caps the count below n. */
  lemma {:induction false} ScanCountBound(sight: seq<bool>, distances: seq<real>, positions: seq<Vec>, n: nat, start: int, startDist: real, skipped: int)
    requires n <= |sight| && |sight| == |distances| == |positions|
    requires 0 <= skipped < |sight| && !sight[skipped]
    ensures Scan(sight, distances, positions, n, start, startDist).visibleBoids <= if skipped < n then n - 1 else n
  {
    if n > 0 {
      ScanCountBound(sight, distances, positions, n - 1, start, startDist, skipped);
    }
  }

  /** The count is the number of seen indices and the centre point the sum of their positions. */
  lemma {:induction false} ScanCountsSeen(sight: seq<bool>, distances: seq<real>, positions: seq<Vec>, n: nat, start: int, startDist: real)
    requires n <= |sight| && |sight| == |distances| == |positions|
    ensures var s := Scan(sight, distances, positions, n, start, startDist);
            s.visibleBoids == CountSeen(sight, n) && s.centerPoint == SumSeen(sight, positions, n)
  {
    if n > 0 {
      ScanCountsSeen(sight, distances, positions, n - 1, start, startDist);
    }
  }

  /**
   * For a swarm of at least two: the nearest is never the boid itself, the nearest
   * distance is at most the default's, the count is exactly the number of boids in
   * sight (so never the boid itself) and the centre point is the sum of their positions.
   */
  lemma PerceiveFacts(selfIdx: int, position: Vec, heading: Vec, positions: seq<Vec>, distances: seq<real>)
    requires |positions| >= 2 && |distances| == |positions| && 0 <= selfIdx < |positions|
    ensures var p := Perceive(selfIdx, position, heading, positions, distances);
            p.nearest != selfIdx &&
            p.nearestDist <= distances[DefaultNearest(selfIdx)] &&
            p.visibleBoids <= |positions| - 1 &&
            p.visibleBoids == CountSeen(Sight(selfIdx, position, heading, positions, distances), |positions|) &&
            p.centerPoint == SumSeen(Sight(selfIdx, position, heading, positions, distances), positions, |positions|)
  {
    var d := DefaultNearest(selfIdx);
    var sight := Sight(selfIdx, position, heading, positions, distances);
    ScanNearestSeen(sight, distances, positions, |positions|, d, distances[d]);
    ScanNoFurther(sight, distances, positions, |positions|, d, distances[d]);
    ScanCountBound(sight, distances, positions, |positions|, d, distances[d], selfIdx);
    ScanCountsSeen(sight, distances, positions, |positions|, d, distances[d]);
  }

  /**
   * The nearest the scan picks is either the default, kept because no boid in sight is
   * strictly closer (the default itself need not be in sight), or a boid in sight at its
   * own distance. No boid in sight is closer, and every boid in sight before the nearest
   * is strictly further: when the nearest is in sight, it is the earliest of the closest.
   */
  lemma PerceiveEarliestNearest(selfIdx: int, position: Vec, heading: Vec, positions: seq<Vec>, distances: seq<real>)
    requires |positions| >= 2 && |distances| == |positions| && 0 <= selfIdx < |positions|
    ensures var p := Perceive(selfIdx, position, heading, positions, distances);
            var sight := Sight(selfIdx, position, heading, positions, distances);
            (p.nearest == DefaultNearest(selfIdx) ||
            (0 <= p.nearest < |positions| && sight[p.nearest] && p.nearestDist == distances[p.nearest])) &&
            forall k :: 0 <= k < |positions| && sight[k] ==>
              p.nearestDist <= distances[k] && (k < p.nearest ==> distances[k] > p.nearestDist)
  {
    var d := DefaultNearest(selfIdx);
    var sight := Sight(selfIdx, position, heading, positions, distances);
    ScanNearestSeen(sight, distances, positions, |positions|, d, distances[d]);
    ScanMinimal(sight, distances, positions, |positions|, d, distances[d]);
    ScanEarliestWins(sight, distances, positions, |positions|, d, distances[d]);
  }

  /** Boid i's entry is its own perception of the whole swarm. */
  lemma {:induction false} PerceptionsAt(positions: seq<Vec>, headings: seq<Vec>, distances: seq<seq<real>>, n: nat, i: int)
    requires n <= |positions| && |headings| == |positions| && Square(distances, |positions|)
    requires 0 <= i < n
    ensures Perceptions(positions, headings, distances, n)[i]
            == if |positions| <= 1 then None else Some(Perceive(i, positions[i], headings[i], positions, distances[i]))
  {
    if i < n - 1 {
      PerceptionsAt(positions, headings, distances, n - 1, i);
    }
  }
}
