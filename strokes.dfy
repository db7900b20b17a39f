/**
 * public/Stroke.js: a painted stroke, its lazily built render state and its per-frame
 * bookkeeping. The canvas calls are not modelled; what is left is the state each draw
 * leaves behind.
 */
module Strokes {
  import opened Wrappers
  import opened VectorLib
  import opened Randomness
  import Utils

  /** STROKE_TYPES, in the source's order. */
  const STROKE_TYPES: seq<string> := ["cloud", "dirt", "wind"]

  // drawCloud's constants
  const CLOUD_MAX := 100
  const CLOUD_RADIUS := 10.0
  const CLOUD_PER_SEG := 5
  const MICROPOINT_MAX := 20
  const RAIN_PER_FRAME := 1
  const MAX_RAIN := 100
  const RAIN_DIRECTION := Vec(-0.1, 1.0)
  /** How much a cloud's sizeFac grows per frame. */
  const SIZE_STEP := 0.03

  // drawDirt's constants
  const DIRT_MAX := 50
  const DIRT_PER_SEG := 4

  /** One cloud of a cloud stroke; only sizeFac changes after it is built. */
  datatype Cloud = Cloud(position: Vec, micropoints: seq<Vec>, sizeFac: real)

  /** The `properties` bag: null until the first draw, then the kind's render state. */
  datatype Properties =
    | Unset
    | CloudState(clouds: seq<Cloud>, raindrops: seq<Vec>)
    | DirtState(dirtpoints: seq<Vec>, lifePoints: seq<Vec>)

  /** What `simplify` returns and what the server sends back: a type and its points. */
  datatype StrokeRecord = StrokeRecord(kind: string, points: seq<Vec>)

  /** Math.round: halves round towards +infinity. */
  function Round(x: real): (r: int)
    ensures x - 0.5 < r as real <= x + 0.5
  {
    (x + 0.5).Floor
  }

  /** JavaScript's `%` on integers: the remainder takes the sign of the dividend. */
  function JsRemainder(a: int, n: int): (r: int)
    requires n > 0
    ensures -n < r < n
    ensures a >= 0 ==> r == a % n
    ensures a < 0 ==> r <= 0
  {
    if a >= 0 then a % n else -((-a) % n)
  }

  /**
   * getRandomType: STROKE_TYPES[(round(seed * 100) + 7879) % 3], or None (`undefined`)
   * when a negative seed gives a negative remainder. The second `return` in the source
   * can never run.
   */
  function GetRandomType(seed: real): (r: Option<string>)
    ensures r.Some? ==> r.value in STROKE_TYPES
    ensures seed >= 0.0 ==> r.Some?
  {
    var s := Round(seed * 100.0) + 7879;
    var k := JsRemainder(s, |STROKE_TYPES|);
    if k < 0 then None else Some(STROKE_TYPES[k])
  }

  /** `Math.min(sizeFac + 0.03, 1)`: a cloud's growth in one frame. */
  function Grow(sizeFac: real): (r: real)
    ensures r <= 1.0
    ensures sizeFac <= 1.0 ==> sizeFac <= r
    ensures sizeFac >= 1.0 - SIZE_STEP ==> r == 1.0
    ensures sizeFac < 1.0 - SIZE_STEP ==> r == sizeFac + SIZE_STEP
  {
    if sizeFac + SIZE_STEP < 1.0 then sizeFac + SIZE_STEP else 1.0
  }

  /** The sizeFac of a cloud `frames` draws after it was built with sizeFac 0. */
  function SizeAfter(frames: nat): real
  {
    if frames == 0 then 0.0 else Grow(SizeAfter(frames - 1))
  }

  /**
   * The raindrop pool after one frame's push: the new drop at the end, and the oldest
   * RAIN_PER_FRAME drops spliced off the front if the pool is then over MAX_RAIN.
   */
  function PushRain(pool: seq<Vec>, drop: Vec): (r: seq<Vec>)
    ensures |r| > 0 && r[|r| - 1] == drop
    ensures |pool| + 1 - RAIN_PER_FRAME <= |r| <= |pool| + 1
    ensures r == (pool + [drop])[|pool| + 1 - |r|..]
    ensures |pool| <= MAX_RAIN ==> |r| <= MAX_RAIN
    ensures |pool| < MAX_RAIN ==> r == pool + [drop]
  {
    var grown := pool + [drop];
    if |grown| > MAX_RAIN then grown[RAIN_PER_FRAME..] else grown
  }

  /** Every drop moved by the same vector. */
  function Shifted(pool: seq<Vec>, dir: Vec): (r: seq<Vec>)
    ensures |r| == |pool|
    ensures forall i :: 0 <= i < |r| ==> VectorMath.Subtract(r[i], dir) == pool[i]
  {
    seq(|pool|, i requires 0 <= i < |pool| => VectorMath.Add(pool[i], dir))
  }

  /** Every cloud one frame bigger; positions and micropoints stay. */
  function Grown(clouds: seq<Cloud>): (r: seq<Cloud>)
    ensures |r| == |clouds|
    ensures forall i :: 0 <= i < |r| ==>
              r[i].position == clouds[i].position && r[i].micropoints == clouds[i].micropoints &&
              (clouds[i].sizeFac <= 1.0 ==> clouds[i].sizeFac <= r[i].sizeFac <= 1.0)
  {
    seq(|clouds|, i requires 0 <= i < |clouds| => clouds[i].(sizeFac := Grow(clouds[i].sizeFac)))
  }

  /** A micropoint lies in the CLOUD_RADIUS box around its cloud's position. */
  predicate NearCloud(p: Vec, center: Vec)
  {
    -CLOUD_RADIUS <= p.x - center.x < CLOUD_RADIUS && -CLOUD_RADIUS <= p.y - center.y < CLOUD_RADIUS
  }

  /** The bound `Math.floor(Math.random() * MICROPOINT_MAX)`, redrawn at every loop test. */
  function MicropointBound(draw: Draw): (r: int)
    ensures 0 <= r < MICROPOINT_MAX
  {
    (draw * MICROPOINT_MAX as real).Floor
  }

  /**
   * Stroke.js's own multisample_spline: `samples - 1` points like the one in utils.js,
   * but at the fractions i / samples, so the samples stop short of the last segment's end.
   */
  method MultisampleSpline(spline: seq<Vec>, samples: int) returns (r: Option<seq<Vec>>)
    ensures r.None? <==> samples >= 2 && |spline| < 2
    ensures r.Some? ==> |r.value| == if samples >= 1 then samples - 1 else 0
    ensures r.Some? ==> forall i :: 0 <= i < |r.value| ==>
              Utils.SampleSpline(spline, i as real / samples as real) == Some(r.value[i])
  {
    var newSpline: seq<Vec> := [];
    var i := 0;
    while i < samples - 1
      invariant 0 <= i <= if samples >= 1 then samples - 1 else 0
      invariant i > 0 ==> |spline| >= 2
      invariant |newSpline| == i
      invariant forall k :: 0 <= k < i ==> Utils.SampleSpline(spline, k as real / samples as real) == Some(newSpline[k])
    {
      var splineFac := i as real / samples as real;
      LocalFractions(samples, i);
      var p := Utils.SampleSpline(spline, splineFac);
      if p.None? {
        return None;
      }
      newSpline := newSpline + [p.value];
      i := i + 1;
    }
    r := Some(newSpline);
  }

  /** The shared stroke array of main.js, which strokes point back to as `environment`. */
  class StrokeList {
    var items: seq<Stroke>

    constructor ()
      ensures items == []
    {
      items := [];
    }
  }

  class Stroke {
    /** `type` and `pointArr`: set by the constructor and never reassigned. */
    const kind: string
    const points: seq<Vec>
    var properties: Properties
    var time: int
    /** Never assigned by the source, so it reads as `undefined`, which is false. */
    const isAlive: bool
    /** Set by main.js to the list the stroke lives in; `undefined` (null) before that. */
    var environment: StrokeList?

    /** Render state matches the kind, the rain pool is bounded and clouds are at most full size. */
    predicate Valid()
      reads this
    {
      ValidState(kind, properties)
    }

    static predicate ValidState(kind: string, properties: Properties)
    {
      (properties.CloudState? ==> kind == "cloud") &&
      (properties.DirtState? ==> kind == "dirt") &&
      (properties.CloudState? ==>
         |properties.raindrops| <= MAX_RAIN &&
         forall i :: 0 <= i < |properties.clouds| ==>
           0.0 <= properties.clouds[i].sizeFac <= 1.0 && |properties.clouds[i].micropoints| < MICROPOINT_MAX)
    }

    /** Keeps the caller's points as they are; no render state yet. */
    constructor (kind: string, points: seq<Vec>)
      ensures this.kind == kind && this.points == points
      ensures properties == Unset && time == 0 && !isAlive && environment == null
      ensures Valid()
    {
      this.kind := kind;
      this.points := points;
      properties := Unset;
      time := 0;
      isAlive := false;
      environment := null;
    }

    method AdvanceTime()
      modifies this
      ensures time == old(time) + 1
      ensures properties == old(properties)
      ensures environment == old(environment)
    {
      time := time + 1;
    }

    /** The record sent to the server: this stroke's type and its points. */
    function Simplify(): (r: StrokeRecord)
      reads this
      ensures r.kind == kind && r.points == points
    {
      StrokeRecord(kind, points)
    }

    /** drawStroke returns normally: a cloud needs two points, a dirt stroke's first draw not exactly one. */
    predicate Drawable()
      reads this
    {
      DrawableState(kind, points, properties)
    }

    static predicate DrawableState(kind: string, points: seq<Vec>, properties: Properties)
    {
      (kind == "cloud" ==> |points| >= 2) && (kind == "dirt" && properties.Unset? ==> |points| != 1)
    }

    /**
     * drawStroke: dispatch on the type; "wind" and every other type draw nothing.
     * `ok` is false where the source throws a TypeError (a cloud stroke with fewer than
     * two points, or a one-point dirt stroke on its first draw).
     */
    method DrawStroke(rng: Random, rainMagnitude: real) returns (ok: bool)
      requires Valid() && IsMagnitude(RAIN_DIRECTION, rainMagnitude)
      modifies this, rng
      ensures Valid()
      ensures time == old(time)
      ensures environment == old(environment)
      ensures ok <==> old(Drawable())
      ensures kind != "cloud" && kind != "dirt" ==> properties == old(properties) && rng.drawn == old(rng.drawn)
      ensures kind == "dirt" && !old(properties).Unset? ==> properties == old(properties)
      // a cloud stroke: one frame of drawCloud, with the rain moving along the unit RAIN_DIRECTION
      ensures kind == "cloud" ==> rng.drawn >= old(rng.drawn)
      ensures kind == "cloud" && old(properties).Unset? && |points| == 1 ==>
                properties == Unset && rng.drawn == old(rng.drawn)
      ensures kind == "cloud" && old(properties).Unset? && |points| == 0 ==> properties == CloudState([], [])
      ensures kind == "cloud" && ok && old(properties).CloudState? ==>
                properties.CloudState? && properties.clouds == Grown(old(properties).clouds)
      ensures kind == "cloud" && ok && old(properties).Unset? ==>
                properties.CloudState? &&
                |properties.clouds| == Min(CLOUD_PER_SEG * |points|, CLOUD_MAX) - 1 &&
                forall i :: 0 <= i < |properties.clouds| ==> properties.clouds[i].sizeFac == SIZE_STEP
      ensures kind == "cloud" && ok ==>
                properties.CloudState? && rng.drawn > 0 &&
                properties.raindrops == Shifted(
                  PushRain(if old(properties).CloudState? then old(properties).raindrops else [],
                           Utils.SampleSpline(points, rng.draws(rng.drawn - 1)).value),
                  VectorMath.Divided(RAIN_DIRECTION, rainMagnitude))
      // a dirt stroke draws no random number; its first draw samples the dirt points once
      ensures kind == "dirt" ==> rng.drawn == old(rng.drawn)
      ensures kind == "dirt" && ok && old(properties).Unset? ==>
                properties.DirtState? && properties.lifePoints == [] &&
                |properties.dirtpoints| == Max(Min(DIRT_PER_SEG * |points|, DIRT_MAX) - 1, 0) &&
                forall i :: 0 <= i < |properties.dirtpoints| ==>
                  Utils.SampleSpline(points, i as real / Min(DIRT_PER_SEG * |points|, DIRT_MAX) as real)
                    == Some(properties.dirtpoints[i])
    {
      if kind == "cloud" {
        // GetNormalized overwrites RAIN_DIRECTION itself, so the drops move by the unit vector.
        ok := DrawCloud(rng, VectorMath.Divided(RAIN_DIRECTION, rainMagnitude));
      } else if kind == "dirt" {
        ok := DrawDirt();
      } else {
        ok := true;
      }
    }

    /**
     * drawCloud without the canvas: builds the clouds on the first draw, then every frame
     * pushes one raindrop sampled at a fresh draw, evicts the oldest when over MAX_RAIN,
     * moves every drop by `rainDirection` and grows every cloud. drawCloud normalises
     * RAIN_DIRECTION itself; here the caller passes the normalised vector in.
     */
    method DrawCloud(rng: Random, rainDirection: Vec) returns (ok: bool)
      requires Valid() && kind == "cloud"
      modifies this, rng
      ensures Valid()
      ensures time == old(time)
      ensures environment == old(environment)
      ensures ok <==> |points| >= 2
      ensures rng.drawn >= old(rng.drawn)
      // the one-point stroke throws inside the initial sampling: nothing is built
      ensures old(properties).Unset? && |points| == 1 ==> properties == Unset && rng.drawn == old(rng.drawn)
      // the empty stroke builds no clouds, then throws when it samples its first raindrop
      ensures old(properties).Unset? && |points| == 0 ==> properties == CloudState([], [])
      // built clouds are never rebuilt: only their size changes
      ensures ok && old(properties).CloudState? ==>
                properties.CloudState? && properties.clouds == Grown(old(properties).clouds)
      // a first successful draw builds min(5 len, 100) - 1 clouds, already one step grown
      ensures ok && old(properties).Unset? ==>
                properties.CloudState? &&
                |properties.clouds| == Min(CLOUD_PER_SEG * |points|, CLOUD_MAX) - 1 &&
                forall i :: 0 <= i < |properties.clouds| ==> properties.clouds[i].sizeFac == SIZE_STEP
      // the rain: the drop sampled at the last draw pushed onto the pool, then every drop moved
      ensures ok ==>
                properties.CloudState? && rng.drawn > 0 &&
                properties.raindrops == Shifted(
                  PushRain(if old(properties).CloudState? then old(properties).raindrops else [],
                           Utils.SampleSpline(points, rng.draws(rng.drawn - 1)).value),
                  rainDirection)
    {
      if properties.Unset? {
        ok := InitClouds(rng);
        if !ok {
          return;
        }
        GrownFromZero(properties.clouds);
      }
      ok := RainFrame(rng, rainDirection);
    }

    /** The first draw of a cloud stroke: one cloud per sampled point, no rain yet. */
    method InitClouds(rng: Random) returns (ok: bool)
      requires properties.Unset? && kind == "cloud"
      modifies this, rng
      ensures Valid()
      ensures time == old(time)
      ensures environment == old(environment)
      ensures ok <==> |points| != 1
      ensures rng.drawn >= old(rng.drawn)
      ensures !ok ==> properties == Unset && rng.drawn == old(rng.drawn)
      ensures ok ==>
                properties.CloudState? && properties.raindrops == [] &&
                |properties.clouds| == Max(Min(CLOUD_PER_SEG * |points|, CLOUD_MAX) - 1, 0) &&
                forall i :: 0 <= i < |properties.clouds| ==>
                  Utils.SampleSpline(points, i as real / Min(CLOUD_PER_SEG * |points|, CLOUD_MAX) as real)
                    == Some(properties.clouds[i].position) &&
                  properties.clouds[i].sizeFac == 0.0 &&
                  |properties.clouds[i].micropoints| < MICROPOINT_MAX &&
                  forall p :: p in properties.clouds[i].micropoints ==> NearCloud(p, properties.clouds[i].position)
    {
      var cloudCount := Min(CLOUD_PER_SEG * |points|, CLOUD_MAX);
      var sampledSpline := MultisampleSpline(points, cloudCount);
      if sampledSpline.None? {
        return false;
      }
      var clouds := MakeClouds(sampledSpline.value, rng);
      properties := CloudState(clouds, []);
      ok := true;
    }

    /** One frame of rain and growth on built clouds; throws (false) on a polyline of under two points. */
    method RainFrame(rng: Random, rainDirection: Vec) returns (ok: bool)
      requires Valid() && properties.CloudState?
      modifies this, rng
      ensures Valid()
      ensures time == old(time)
      ensures environment == old(environment)
      ensures rng.drawn == old(rng.drawn) + 1
      ensures ok <==> |points| >= 2
      ensures !ok ==> properties == old(properties)
      ensures ok ==> properties == CloudState(
                Grown(old(properties).clouds),
                Shifted(PushRain(old(properties).raindrops, Utils.SampleSpline(points, rng.draws(old(rng.drawn))).value), rainDirection))
    {
      var draw := rng.Next();
      var drop := Utils.SampleSpline(points, draw);
      if drop.None? {
        return false;
      }
      properties := properties.(raindrops := PushRain(properties.raindrops, drop.value));
      ShiftRain(rainDirection);
      GrowClouds();
      ok := true;
    }

    /** The drops moved in place, one by one, by the same vector. */
    method ShiftRain(dir: Vec)
      requires properties.CloudState?
      modifies this
      ensures properties == old(properties).(raindrops := Shifted(old(properties).raindrops, dir))
      ensures time == old(time)
      ensures environment == old(environment)
    {
      var i := 0;
      while i < |properties.raindrops|
        invariant properties.CloudState? && properties.clouds == old(properties).clouds
        invariant |properties.raindrops| == |old(properties).raindrops|
        invariant 0 <= i <= |properties.raindrops|
        invariant properties.raindrops[..i] == Shifted(old(properties).raindrops, dir)[..i]
        invariant properties.raindrops[i..] == old(properties).raindrops[i..]
        invariant time == old(time)
        invariant environment == old(environment)
      {
        var curDrop := properties.raindrops[i];
        properties := properties.(raindrops := properties.raindrops[i := VectorMath.Add(curDrop, dir)]);
        i := i + 1;
      }
      assert properties.raindrops == Shifted(old(properties).raindrops, dir);
    }

    /** Every cloud's sizeFac moved one step towards 1. */
    method GrowClouds()
      requires properties.CloudState?
      modifies this
      ensures properties == old(properties).(clouds := Grown(old(properties).clouds))
      ensures time == old(time)
      ensures environment == old(environment)
    {
      var i := 0;
      while i < |properties.clouds|
        invariant properties.CloudState? && properties.raindrops == old(properties).raindrops
        invariant |properties.clouds| == |old(properties).clouds|
        invariant 0 <= i <= |properties.clouds|
        invariant properties.clouds[..i] == Grown(old(properties).clouds)[..i]
        invariant properties.clouds[i..] == old(properties).clouds[i..]
        invariant time == old(time)
        invariant environment == old(environment)
      {
        var curCloud := properties.clouds[i];
        properties := properties.(clouds := properties.clouds[i := curCloud.(sizeFac := Grow(curCloud.sizeFac))]);
        i := i + 1;
      }
      assert properties.clouds == Grown(old(properties).clouds);
    }

    /**
     * drawDirt without the canvas: on the first draw, stores the sampled points and an
     * empty lifePoints list; later draws change nothing.
     */
    method DrawDirt() returns (ok: bool)
      requires Valid() && kind == "dirt"
      modifies this
      ensures Valid()
      ensures time == old(time)
      ensures environment == old(environment)
      ensures ok <==> !(old(properties).Unset? && |points| == 1)
      ensures !ok || !old(properties).Unset? ==> properties == old(properties)
      ensures ok && old(properties).Unset? ==>
                properties.DirtState? && properties.lifePoints == [] &&
                |properties.dirtpoints| == Max(Min(DIRT_PER_SEG * |points|, DIRT_MAX) - 1, 0) &&
                forall i :: 0 <= i < |properties.dirtpoints| ==>
                  Utils.SampleSpline(points, i as real / Min(DIRT_PER_SEG * |points|, DIRT_MAX) as real)
                    == Some(properties.dirtpoints[i])
    {
      if properties.Unset? {
        var sampleCount := Min(DIRT_PER_SEG * |points|, DIRT_MAX);
        var sampledSpline := MultisampleSpline(points, sampleCount);
        if sampledSpline.None? {
          return false;
        }
        properties := DirtState(sampledSpline.value, []);
      }
      ok := true;
    }
  }

  function Min(a: int, b: int): int
  {
    if a < b then a else b
  }

  function Max(a: int, b: int): int
  {
    if a < b then b else a
  }

  /** The micropoints of one cloud: at most 19, each within CLOUD_RADIUS of the centre. */
  method MakeMicropoints(center: Vec, rng: Random) returns (micropoints: seq<Vec>)
    modifies rng
    ensures |micropoints| < MICROPOINT_MAX
    ensures forall p :: p in micropoints ==> NearCloud(p, center)
    ensures rng.drawn > old(rng.drawn)
  {
    micropoints := [];
    var m := 0;
    while true
      invariant m == |micropoints| < MICROPOINT_MAX
      invariant forall p :: p in micropoints ==> NearCloud(p, center)
      invariant rng.drawn >= old(rng.drawn)
      decreases MICROPOINT_MAX - m
    {
      var bound := rng.Next();
      if m >= MicropointBound(bound) {
        break;
      }
      var dx := rng.Next();
      var dy := rng.Next();
      var p := Vec(center.x + Utils.PosNegRand(dx) * CLOUD_RADIUS, center.y + Utils.PosNegRand(dy) * CLOUD_RADIUS);
      micropoints := micropoints + [p];
      m := m + 1;
    }
  }

  /** One cloud per sampled point, each at that point with sizeFac 0. */
  method MakeClouds(sampledSpline: seq<Vec>, rng: Random) returns (clouds: seq<Cloud>)
    modifies rng
    ensures |clouds| == |sampledSpline|
    ensures forall i :: 0 <= i < |clouds| ==>
              clouds[i].position == sampledSpline[i] && clouds[i].sizeFac == 0.0 &&
              |clouds[i].micropoints| < MICROPOINT_MAX &&
              forall p :: p in clouds[i].micropoints ==> NearCloud(p, clouds[i].position)
    ensures rng.drawn >= old(rng.drawn)
  {
    clouds := [];
    var i := 0;
    while i < |sampledSpline|
      invariant 0 <= i <= |sampledSpline| && |clouds| == i
      invariant forall k :: 0 <= k < i ==>
                  clouds[k].position == sampledSpline[k] && clouds[k].sizeFac == 0.0 &&
                  |clouds[k].micropoints| < MICROPOINT_MAX &&
                  forall p :: p in clouds[k].micropoints ==> NearCloud(p, clouds[k].position)
      invariant rng.drawn >= old(rng.drawn)
    {
      var micropoints := MakeMicropoints(sampledSpline[i], rng);
      clouds := clouds + [Cloud(sampledSpline[i], micropoints, 0.0)];
      i := i + 1;
    }
  }

  // Properties

  /** The fractions Stroke.js's sampler uses lie in [0, 1). */
  lemma LocalFractions(samples: int, i: int)
    requires 0 <= i < samples - 1
    ensures 0.0 <= i as real / samples as real < 1.0
  {
  }

  /** Freshly built clouds, grown once, all have sizeFac 0.03. */
  lemma GrownFromZero(clouds: seq<Cloud>)
    requires forall i :: 0 <= i < |clouds| ==> clouds[i].sizeFac == 0.0
    ensures forall i :: 0 <= i < |clouds| ==> Grown(clouds)[i].sizeFac == SIZE_STEP
  {
  }

  /** A zero seed gives "dirt": 7879 % 3 == 1. */
  lemma RandomTypeOfZero()
    ensures GetRandomType(0.0) == Some("dirt")
  {
  }

  /** The type cycles with period 0.03 in the seed. */
  lemma RandomTypePeriodic(seed: real)
    requires seed >= 0.0
    ensures GetRandomType(seed + 0.03) == GetRandomType(seed)
  {
    assert Round((seed + 0.03) * 100.0) == Round(seed * 100.0) + 3;
  }

  /** Seeds 0.01 apart give different types. */
  lemma RandomTypeNeighboursDiffer(seed: real)
    requires seed >= 0.0
    ensures GetRandomType(seed + 0.01) != GetRandomType(seed)
  {
    assert Round((seed + 0.01) * 100.0) == Round(seed * 100.0) + 1;
  }

  /** After k frames a cloud's sizeFac is min(0.03 k, 1). */
  lemma {:induction false} SizeAfterClosedForm(frames: nat)
    ensures SizeAfter(frames) == if frames as real * SIZE_STEP < 1.0 then frames as real * SIZE_STEP else 1.0
  {
    if frames > 0 {
      SizeAfterClosedForm(frames - 1);
    }
  }

  /** Once a cloud reaches full size it stays there. */
  lemma {:induction false} SizeStaysFull(frames: nat, later: nat)
    requires SizeAfter(frames) == 1.0 && frames <= later
    ensures SizeAfter(later) == 1.0
    decreases later - frames
  {
    if frames < later {
      SizeStaysFull(frames + 1, later);
    }
  }

  /** The pool keeps its oldest-first order: a drop's place only moves towards the front. */
  lemma PushRainIsFifo(pool: seq<Vec>, drop: Vec)
    requires |pool| == MAX_RAIN
    ensures PushRain(pool, drop) == pool[1..] + [drop]
  {
  }

  /** Cloud initialisation builds min(5 len, 100) - 1 clouds, from 9 up to 99. */
  lemma CloudCountRange(len: nat)
    requires len >= 2
    ensures 9 <= Min(CLOUD_PER_SEG * len, CLOUD_MAX) - 1 <= 99
  {
  }
}
