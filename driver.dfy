/**
 * public/main.js: the page's state (the stroke list, the mouse buffer, the camera and the
 * random seed) and the handlers that change it. Canvases, the socket and the DOM are not
 * modelled: each handler is a method of App, and what it would send to the server is its
 * result.
 */
module Driver {
  import opened Wrappers
  import opened VectorLib
  import opened Randomness
  import opened Strokes

  /** A mouse move records a point only when it is farther than this from the last one. */
  const MIN_POINT_SPACING := 50.0

  /** The camera: created at the origin and never moved by any handler. */
  const CAMERA := Vec(0.0, 0.0)

  /** No element occurs twice. */
  predicate Distinct<T(==)>(xs: seq<T>)
  {
    forall i, j :: 0 <= i < j < |xs| ==> Apart(xs, i, j)
  }

  /**
   * Positions i and j hold different elements. Distinct is stated through it so that its
   * quantifier is used only where a proof names the two positions.
   */
  predicate Apart<T(==)>(xs: seq<T>, i: int, j: int)
    requires 0 <= i < |xs| && 0 <= j < |xs|
  {
    xs[i] != xs[j]
  }

  /** The isAlive flags of a list of strokes, position by position. */
  function Liveness(xs: seq<Stroke>): (alive: seq<bool>)
    ensures |alive| == |xs|
    ensures forall k :: 0 <= k < |xs| ==> alive[k] == xs[k].isAlive
  {
    if xs == [] then [] else [xs[0].isAlive] + Liveness(xs[1..])
  }

  /** What one pass of updateBGBuffer does to the stroke at a position of the list. */
  datatype Fate =
    | Kept      // visited, alive, stays
    | Removed   // visited, not alive, spliced out
    | Skipped   // slid into a removed stroke's slot, so never visited; stays

  /**
   * The fates updateBGBuffer as written deals out, alive[k] being the isAlive flag of the
   * k-th stroke: after a removal the next stroke takes the freed index, which the loop
   * then steps over.
   */
  function Fates(alive: seq<bool>): (fates: seq<Fate>)
    ensures |fates| == |alive|
  {
    if alive == [] then []
    else if alive[0] then [Kept] + Fates(alive[1..])
    else if |alive| == 1 then [Removed]
    else [Removed, Skipped] + Fates(alive[2..])
  }

  /** The fates the loop is evidently meant to deal out: every stroke visited, the dead ones removed. */
  function IntendedFates(alive: seq<bool>): (fates: seq<Fate>)
    ensures |fates| == |alive|
    ensures forall k :: 0 <= k < |alive| ==> fates[k] == (if alive[k] then Kept else Removed)
  {
    seq(|alive|, k requires 0 <= k < |alive| => if alive[k] then Kept else Removed)
  }

  /** The elements whose fate is not Removed, in their original order. */
  function Survivors<T>(xs: seq<T>, fates: seq<Fate>): (r: seq<T>)
    requires |fates| == |xs|
    ensures |r| <= |xs|
  {
    if xs == [] then []
    else (if fates[0] == Removed then [] else [xs[0]]) + Survivors(xs[1..], fates[1..])
  }

  /** The `time` of each stroke. */
  function Times(xs: seq<Stroke>): (times: seq<int>)
    reads xs
    ensures |times| == |xs|
    ensures forall k :: 0 <= k < |xs| ==> times[k] == xs[k].time
  {
    if xs == [] then [] else [xs[0].time] + Times(xs[1..])
  }

  /**
   * Every stroke that is not Skipped was parented to `list` and advanced one frame; a
   * Skipped one was neither advanced, drawn nor parented: its time, render state and
   * environment are those it had before.
   */
  predicate Advanced(xs: seq<Stroke>, before: seq<int>, props: seq<Properties>, envs: seq<StrokeList?>,
                     fates: seq<Fate>, list: StrokeList)
    reads xs
    requires |before| == |xs| && |props| == |xs| && |envs| == |xs| && |fates| == |xs|
  {
    forall k :: 0 <= k < |xs| ==>
      if fates[k] == Skipped then xs[k].time == before[k] && xs[k].properties == props[k] && xs[k].environment == envs[k]
      else xs[k].time == before[k] + 1 && xs[k].environment == list
  }

  /** No stroke of the list makes drawStroke throw. */
  predicate AllDrawable(xs: seq<Stroke>)
    reads xs
  {
    forall k :: 0 <= k < |xs| ==> xs[k].Drawable()
  }

  /** The render state of each stroke. */
  function PropertiesOf(xs: seq<Stroke>): (props: seq<Properties>)
    reads xs
    ensures |props| == |xs|
    ensures forall k :: 0 <= k < |xs| ==> props[k] == xs[k].properties
  {
    if xs == [] then [] else [xs[0].properties] + PropertiesOf(xs[1..])
  }

  /** The stroke list each stroke points back to. */
  function EnvironmentsOf(xs: seq<Stroke>): (envs: seq<StrokeList?>)
    reads xs
    ensures |envs| == |xs|
    ensures forall k :: 0 <= k < |xs| ==> envs[k] == xs[k].environment
  {
    if xs == [] then [] else [xs[0].environment] + EnvironmentsOf(xs[1..])
  }

  /**
   * The sweep's progress at position j: the strokes before it were handled as their fates
   * say, those from j on still have the time and render state they had when the sweep
   * began.
   */
  predicate Swept(xs: seq<Stroke>, props: seq<Properties>, envs: seq<StrokeList?>, before: seq<int>,
                  fates: seq<Fate>, j: nat, list: StrokeList)
    reads xs
  {
    |props| == |xs| && |envs| == |xs| && |before| == |xs| && |fates| == |xs| && j <= |xs| &&
    (forall k {:trigger Done(xs[k], before[k], props[k], envs[k], fates[k], list)} :: 0 <= k < j ==>
      Done(xs[k], before[k], props[k], envs[k], fates[k], list)) &&
    (forall k {:trigger Pristine(xs[k], before[k], props[k], envs[k])} :: j <= k < |xs| ==>
      Pristine(xs[k], before[k], props[k], envs[k]))
  }

  /**
   * A stroke the sweep has passed: consistent, and advanced and parented unless stepped
   * over, in which case it is as it was.
   */
  predicate Done(s: Stroke, before: int, props: Properties, env: StrokeList?, fate: Fate, list: StrokeList)
    reads s
  {
    Stroke.ValidState(s.kind, s.properties) &&
    if fate == Skipped then Pristine(s, before, props, env)
    else s.time == before + 1 && s.environment == list
  }

  /** A stroke the sweep has not reached: time, render state and environment as they were. */
  predicate Pristine(s: Stroke, before: int, props: Properties, env: StrokeList?)
    reads s
  {
    s.time == before && s.properties == props && s.environment == env
  }

  class App {
    /** `strokes`: replaced by a new list on receiveStrokes, pushed to otherwise. */
    var strokes: StrokeList
    var mouseDown: bool
    /** mouseBuffer.points: the stroke being drawn, in screen coordinates. */
    var buffer: seq<Vec>
    var randomSeed: Draw

    /** Every listed stroke appears once and keeps a consistent render state. */
    predicate Valid()
      reads this, strokes, strokes.items
    {
      ValidList(strokes.items)
    }

    /** While the button is down the buffer holds at least the point it went down at. */
    predicate MouseConsistent()
      reads this
    {
      mouseDown ==> buffer != []
    }

    /** The globals' initial values, and the seed onload draws from Math.random(). */
    constructor (rng: Random)
      modifies rng
      ensures fresh(strokes) && strokes.items == [] && !mouseDown && buffer == []
      ensures randomSeed == rng.draws(old(rng.drawn)) && rng.drawn == old(rng.drawn) + 1
      ensures Valid() && MouseConsistent()
    {
      var list := new StrokeList();
      var seed := rng.Next();
      strokes := list;
      mouseDown := false;
      buffer := [];
      randomSeed := seed;
    }

    /** The mousedown listener: the button is down and the point it went down at is recorded. */
    method MouseDown(p: Vec)
      requires Valid()
      modifies this
      ensures mouseDown && buffer == old(buffer) + [p]
      ensures strokes == old(strokes) && randomSeed == old(randomSeed)
      ensures Valid() && MouseConsistent()
    {
      mouseDown := true;
      buffer := buffer + [p];
    }

    /**
     * updateDrawBuffer. `distance` is curPos.GetDistance(lastPos), the square root of the
     * squared distance. With the button down and an empty buffer the source reads the x of
     * `undefined` and throws, which is `ok == false`; MouseConsistent rules that state out.
     */
    method UpdateDrawBuffer(cur: Vec, distance: real) returns (ok: bool)
      requires mouseDown && buffer != [] ==> IsMagnitude(VectorMath.Subtract(cur, buffer[|buffer| - 1]), distance)
      modifies this
      ensures mouseDown == old(mouseDown) && strokes == old(strokes) && randomSeed == old(randomSeed)
      ensures !old(mouseDown) ==> ok && buffer == old(buffer)
      ensures old(mouseDown) && old(buffer) == [] ==> !ok && buffer == old(buffer)
      ensures old(mouseDown) && old(buffer) != [] ==>
                ok &&
                buffer == old(buffer) +
                  (if VectorMath.GetDistanceNoSqrt(cur, old(buffer)[|old(buffer)| - 1]) > MIN_POINT_SPACING * MIN_POINT_SPACING
                   then [cur] else [])
      ensures old(MouseConsistent()) ==> ok && MouseConsistent()
    {
      if !mouseDown {
        return true;
      }
      if buffer == [] {
        return false;
      }
      var last := buffer[|buffer| - 1];
      SpacingBySquares(distance, VectorMath.GetDistanceNoSqrt(cur, last), MIN_POINT_SPACING);
      if distance > MIN_POINT_SPACING {
        buffer := buffer + [cur];
      }
      ok := true;
    }

    /**
     * The mouseup listener: the button is up, then the buffer is committed. The result is
     * CommitBuffer's.
     */
    method MouseUp(rng: Random, rainMagnitude: real) returns (ok: bool, emitted: Option<StrokeRecord>)
      requires Valid() && IsMagnitude(RAIN_DIRECTION, rainMagnitude)
      modifies this, strokes, rng
      ensures !mouseDown && MouseConsistent() && Valid()
      ensures strokes == old(strokes) && randomSeed == old(randomSeed)
      ensures ok ==> buffer == []
      ensures ok <==> old(buffer) == [] || |old(buffer)| >= 2 || GetRandomType(randomSeed) == Some("wind")
      ensures !ok ==> emitted == None && buffer == old(buffer) && strokes.items == old(strokes.items)
      ensures emitted.Some? <==> ok && old(buffer) != []
      ensures emitted.Some? ==> emitted.value == StrokeRecord(GetRandomType(randomSeed).value, old(buffer))
    {
      mouseDown := false;
      ok, emitted := CommitBuffer(rng, rainMagnitude);
    }

    /**
     * commitBuffer: a non-empty buffer becomes a new stroke of the seed's random type,
     * whose points are the buffer shifted by the camera; it is drawn once, pushed and
     * sent to the server, and the buffer is emptied. When that first draw throws
     * (`ok == false`), nothing is pushed or sent and the buffer keeps its points.
     */
    method CommitBuffer(rng: Random, rainMagnitude: real) returns (ok: bool, emitted: Option<StrokeRecord>)
      requires Valid() && IsMagnitude(RAIN_DIRECTION, rainMagnitude)
      modifies this, strokes, rng
      ensures strokes == old(strokes) && mouseDown == old(mouseDown) && randomSeed == old(randomSeed)
      ensures Valid()
      ensures old(buffer) == [] ==> ok && emitted == None && buffer == [] && strokes.items == old(strokes.items)
      ensures old(buffer) != [] ==> (ok <==> |old(buffer)| >= 2 || GetRandomType(randomSeed) == Some("wind"))
      ensures !ok ==> emitted == None && buffer == old(buffer) && strokes.items == old(strokes.items)
      ensures ok && old(buffer) != [] ==>
                buffer == [] &&
                |strokes.items| == |old(strokes.items)| + 1 &&
                strokes.items[..|old(strokes.items)|] == old(strokes.items) &&
                var s := strokes.items[|old(strokes.items)|];
                fresh(s) && s.kind == GetRandomType(randomSeed).value && s.points == old(buffer) &&
                s.environment == strokes && s.time == 0 && !s.isAlive &&
                emitted == Some(StrokeRecord(s.kind, s.points))
    {
      var corrected := ViewCorrect(buffer, CAMERA);
      assert corrected == buffer;
      ok := true;
      emitted := None;
      if |buffer| > 0 {
        var kind := GetRandomType(randomSeed);
        assert kind.value == "cloud" || kind.value == "dirt" || kind.value == "wind";
        var s := new Stroke(kind.value, corrected);
        s.environment := strokes;
        ok := s.DrawStroke(rng, rainMagnitude);
        if !ok {
          return;
        }
        DistinctAppend(strokes.items, s);
        strokes.items := strokes.items + [s];
        emitted := Some(s.Simplify());
      }
      buffer := [];
    }

    /** receiveStrokes: a new list holding a new, unparented stroke per record, in order. */
    method ReceiveStrokes(records: seq<StrokeRecord>)
      modifies this
      ensures fresh(strokes) && |strokes.items| == |records|
      ensures forall k :: 0 <= k < |records| ==>
                fresh(strokes.items[k]) && strokes.items[k].Simplify() == records[k] &&
                strokes.items[k].properties == Unset && strokes.items[k].time == 0 &&
                strokes.items[k].environment == null
      ensures mouseDown == old(mouseDown) && buffer == old(buffer) && randomSeed == old(randomSeed)
      ensures Valid()
    {
      strokes := new StrokeList();
      var i := 0;
      while i < |records|
        invariant 0 <= i <= |records| && fresh(strokes) && |strokes.items| == i
        invariant forall k :: 0 <= k < i ==>
                    fresh(strokes.items[k]) && strokes.items[k].Simplify() == records[k] &&
                    strokes.items[k].properties == Unset && strokes.items[k].time == 0 &&
                    strokes.items[k].environment == null
        invariant mouseDown == old(mouseDown) && buffer == old(buffer) && randomSeed == old(randomSeed)
        invariant Valid()
      {
        var s := new Stroke(records[i].kind, records[i].points);
        DistinctAppend(strokes.items, s);
        strokes.items := strokes.items + [s];
        i := i + 1;
      }
    }

    /** newStroke: another client's stroke, appended as a new, unparented stroke. */
    method NewStroke(record: StrokeRecord)
      requires Valid()
      modifies strokes
      ensures |strokes.items| == |old(strokes.items)| + 1
      ensures strokes.items[..|old(strokes.items)|] == old(strokes.items)
      ensures var s := strokes.items[|old(strokes.items)|];
              fresh(s) && s.Simplify() == record && s.properties == Unset && s.time == 0 && s.environment == null
      ensures Valid()
    {
      var s := new Stroke(record.kind, record.points);
      DistinctAppend(strokes.items, s);
      strokes.items := strokes.items + [s];
    }

  }

  /**
   * A list of strokes as the page keeps it: every stroke appears once and keeps a
   * consistent render state.
   */
  predicate ValidList(xs: seq<Stroke>)
    reads xs
  {
    Distinct(xs) && forall s :: s in xs ==> s.Valid()
  }

  /**
   * updateBGBuffer, as written, on the page's stroke list `strokes`: every visited stroke
   * is parented, advanced and drawn, and spliced out when not alive, after which the
   * index still moves on, stepping over the stroke that slid into the freed slot. `ok` is
   * false when a draw throws, which ends the frame loop; the list is then left as it
   * stands.
   */
  method UpdateBGBuffer(strokes: StrokeList, rng: Random, rainMagnitude: real) returns (ok: bool)
    requires ValidList(strokes.items) && IsMagnitude(RAIN_DIRECTION, rainMagnitude)
    modifies strokes, strokes.items, rng
    ensures old(AllDrawable(strokes.items)) ==> ok
    ensures ok ==> ValidList(strokes.items)
    ensures ok ==> strokes.items == Survivors(old(strokes.items), Fates(Liveness(old(strokes.items))))
    ensures ok ==> Advanced(old(strokes.items), old(Times(strokes.items)), old(PropertiesOf(strokes.items)),
                            old(EnvironmentsOf(strokes.items)), Fates(Liveness(old(strokes.items))), strokes)
  {
    ghost var orig := strokes.items;
    ghost var alive := Liveness(orig);
    ghost var fates := Fates(alive);
    ghost var survivors := Survivors(orig, fates);
    ghost var props := PropertiesOf(orig);
    ghost var envs := EnvironmentsOf(orig);
    ghost var times := Times(orig);
    SweepStart(orig, props, envs, times, fates, strokes);
    FatesFromStart(alive);
    SurvivorsFromStart(orig, fates);
    RestStart(orig);
    SurvivorsSubset(orig, fates);
    SurvivorsDistinct(orig, fates);
    var items;
    ok, items := Sweep(orig, alive, props, envs, times, fates, survivors, strokes.items, strokes, rng, rainMagnitude);
    strokes.items := items;
    if ok {
      SweepEnd(orig, props, envs, times, fates, strokes);
    }
  }

  /**
   * The state of updateBGBuffer's loop as written at the start of a turn, with j the
   * position in the original list of the stroke at index i: the fates dealt so far, the
   * strokes kept so far, and the list as the kept strokes followed by the unvisited rest.
   * Once the last stroke is removed the index runs one past the end of the list.
   */
  predicate Tracked(orig: seq<Stroke>, alive: seq<bool>, fates: seq<Fate>, survivors: seq<Stroke>,
                    dealt: seq<Fate>, kept: seq<Stroke>, j: int, items: seq<Stroke>, i: int)
  {
    0 <= j <= |orig| == |alive| == |fates| && |dealt| == j && dealt + FatesFrom(alive, j) == fates &&
    kept + SurvivorsFrom(orig, fates, j) == survivors &&
    ((i == |kept| && items == kept + Rest(orig, j)) || (i == |kept| + 1 && items == kept && j == |orig|))
  }

  /**
   * updateBGBuffer's loop as written, on a local copy of the list: parent, advance and
   * draw the stroke at index i; when it is not alive splice it out, after which the index
   * still moves on and the next stroke is stepped over.
   */
  method Sweep(ghost orig: seq<Stroke>, ghost alive: seq<bool>, ghost props: seq<Properties>, ghost envs: seq<StrokeList?>,
               ghost times: seq<int>,
               ghost fates: seq<Fate>, ghost survivors: seq<Stroke>, list: seq<Stroke>,
               strokes: StrokeList, rng: Random, rainMagnitude: real)
    returns (ok: bool, items: seq<Stroke>)
    requires IsMagnitude(RAIN_DIRECTION, rainMagnitude)
    requires Distinct(orig) && alive == Liveness(orig)
    requires |props| == |orig| && forall k :: 0 <= k < |orig| ==> Stroke.ValidState(orig[k].kind, props[k])
    requires Tracked(orig, alive, fates, survivors, [], [], 0, list, 0)
    requires Swept(orig, props, envs, times, fates, 0, strokes)
    modifies orig, rng
    ensures (forall k :: 0 <= k < |orig| ==> Stroke.DrawableState(orig[k].kind, orig[k].points, props[k])) ==> ok
    ensures ok ==> items == survivors && Swept(orig, props, envs, times, fates, |orig|, strokes)
  {
    ghost var dealt: seq<Fate> := [];
    ghost var kept: seq<Stroke> := [];
    ghost var j := 0;
    items := list;
    var i := 0;
    while i < |items|
      invariant Tracked(orig, alive, fates, survivors, dealt, kept, j, items, i)
      invariant Swept(orig, props, envs, times, fates, j, strokes)
      decreases |orig| - j
    {
      var s := items[i];
      Step(orig, alive, fates, survivors, dealt, kept, j, items, i);
      var drawn := TickAt(orig, props, envs, times, fates, j, s, strokes, rng, rainMagnitude);
      if !drawn {
        return false, items;
      }
      if s.isAlive {
        dealt, kept, j := dealt + [Kept], kept + [s], j + 1;
      } else {
        items := Splice(items, i);
        if j + 1 < |orig| {
          SkipAt(orig, props, envs, times, fates, j + 1, strokes);
          dealt, kept, j := dealt + [Removed, Skipped], kept + [orig[j + 1]], j + 2;
        } else {
          dealt, j := dealt + [Removed], j + 1;
        }
      }
      i := i + 1;
    }
    ok := true;
  }

  /** One turn of the loop as written, on the list and the ghost bookkeeping alone. */
  lemma Step(orig: seq<Stroke>, alive: seq<bool>, fates: seq<Fate>, survivors: seq<Stroke>,
             dealt: seq<Fate>, kept: seq<Stroke>, j: int, items: seq<Stroke>, i: int)
    requires Tracked(orig, alive, fates, survivors, dealt, kept, j, items, i) && 0 <= i < |items|
    ensures j < |orig| && items[i] == orig[j] && fates[j] == (if alive[j] then Kept else Removed)
    ensures alive[j] ==> Tracked(orig, alive, fates, survivors, dealt + [Kept], kept + [orig[j]], j + 1, items, i + 1)
    ensures !alive[j] && j + 1 < |orig| ==>
              fates[j + 1] == Skipped &&
              Tracked(orig, alive, fates, survivors, dealt + [Removed, Skipped], kept + [orig[j + 1]], j + 2, Splice(items, i), i + 1)
    ensures !alive[j] && j + 1 == |orig| ==>
              Tracked(orig, alive, fates, survivors, dealt + [Removed], kept, j + 1, Splice(items, i), i + 1)
  {
    var s := orig[j];
    var next := FatesFrom(alive, j);
    var rest := Rest(orig, j + 1);
    assert Rest(orig, j) == [s] + rest;
    assert items[i] == s;
    assert fates[j] == next[0];
    if alive[j] {
      assert next == [Kept] + FatesFrom(alive, j + 1);
      Regroup(dealt, [Kept], FatesFrom(alive, j + 1));
      assert SurvivorsFrom(orig, fates, j) == [s] + SurvivorsFrom(orig, fates, j + 1);
      Regroup(kept, [s], SurvivorsFrom(orig, fates, j + 1));
      Regroup(kept, [s], rest);
    } else {
      assert SurvivorsFrom(orig, fates, j) == SurvivorsFrom(orig, fates, j + 1);
      SpliceAt(kept, s, rest, Splice(items, i));
      if j + 1 < |orig| {
        var t := orig[j + 1];
        var after := FatesFrom(alive, j + 2);
        assert next == [Removed, Skipped] + after;
        Regroup(dealt, [Removed, Skipped], after);
        assert fates[j + 1] == Skipped;
        assert SurvivorsFrom(orig, fates, j + 1) == [t] + SurvivorsFrom(orig, fates, j + 2);
        Regroup(kept, [t], SurvivorsFrom(orig, fates, j + 2));
        assert rest == [t] + Rest(orig, j + 2);
        Regroup(kept, [t], Rest(orig, j + 2));
      } else {
        assert next == [Removed];
      }
    }
  }

  /**
   * updateBGBuffer as evidently intended: the index moves on only past a stroke that
   * stays, so every stroke is visited and exactly the live ones remain.
   */
  method UpdateBGBufferCorrected(strokes: StrokeList, rng: Random, rainMagnitude: real) returns (ok: bool)
    requires ValidList(strokes.items) && IsMagnitude(RAIN_DIRECTION, rainMagnitude)
    modifies strokes, strokes.items, rng
    ensures old(AllDrawable(strokes.items)) ==> ok
    ensures ok ==> ValidList(strokes.items)
    ensures ok ==> strokes.items == Survivors(old(strokes.items), IntendedFates(Liveness(old(strokes.items))))
    ensures ok ==> Advanced(old(strokes.items), old(Times(strokes.items)), old(PropertiesOf(strokes.items)),
                            old(EnvironmentsOf(strokes.items)), IntendedFates(Liveness(old(strokes.items))), strokes)
  {
    ghost var orig := strokes.items;
    ghost var fates := IntendedFates(Liveness(orig));
    ghost var survivors := Survivors(orig, fates);
    ghost var props := PropertiesOf(orig);
    ghost var envs := EnvironmentsOf(orig);
    ghost var times := Times(orig);
    SweepStart(orig, props, envs, times, fates, strokes);
    SurvivorsFromStart(orig, fates);
    RestStart(orig);
    SurvivorsSubset(orig, fates);
    SurvivorsDistinct(orig, fates);
    var items;
    ok, items := SweepCorrected(orig, props, envs, times, fates, survivors, strokes.items, strokes, rng, rainMagnitude);
    strokes.items := items;
    if ok {
      SweepEnd(orig, props, envs, times, fates, strokes);
    }
  }

  /**
   * The state of the intended loop at the start of a turn, with j the position in the
   * original list of the stroke at index i: the strokes kept so far, and the list as the
   * kept strokes followed by the unvisited rest.
   */
  predicate TrackedCorrected(orig: seq<Stroke>, fates: seq<Fate>, survivors: seq<Stroke>,
                             kept: seq<Stroke>, j: int, items: seq<Stroke>, i: int)
  {
    0 <= j <= |orig| == |fates| && kept + SurvivorsFrom(orig, fates, j) == survivors &&
    i == |kept| && items == kept + Rest(orig, j)
  }

  /**
   * The intended loop, on a local copy of the list: parent, advance and draw the stroke
   * at index i; move the index past it when it is alive, splice it out otherwise.
   */
  method SweepCorrected(ghost orig: seq<Stroke>, ghost props: seq<Properties>, ghost envs: seq<StrokeList?>, ghost times: seq<int>,
                        ghost fates: seq<Fate>, ghost survivors: seq<Stroke>, list: seq<Stroke>,
                        strokes: StrokeList, rng: Random, rainMagnitude: real)
    returns (ok: bool, items: seq<Stroke>)
    requires IsMagnitude(RAIN_DIRECTION, rainMagnitude)
    requires Distinct(orig) && |fates| == |orig|
    requires forall k :: 0 <= k < |orig| ==> fates[k] == if orig[k].isAlive then Kept else Removed
    requires |props| == |orig| && forall k :: 0 <= k < |orig| ==> Stroke.ValidState(orig[k].kind, props[k])
    requires TrackedCorrected(orig, fates, survivors, [], 0, list, 0)
    requires Swept(orig, props, envs, times, fates, 0, strokes)
    modifies orig, rng
    ensures (forall k :: 0 <= k < |orig| ==> Stroke.DrawableState(orig[k].kind, orig[k].points, props[k])) ==> ok
    ensures ok ==> items == survivors && Swept(orig, props, envs, times, fates, |orig|, strokes)
  {
    ghost var kept: seq<Stroke> := [];
    ghost var j := 0;
    items := list;
    var i := 0;
    while i < |items|
      invariant TrackedCorrected(orig, fates, survivors, kept, j, items, i)
      invariant Swept(orig, props, envs, times, fates, j, strokes)
      decreases |orig| - j
    {
      var s := items[i];
      StepCorrected(orig, fates, survivors, kept, j, items, i);
      var drawn := TickAt(orig, props, envs, times, fates, j, s, strokes, rng, rainMagnitude);
      if !drawn {
        return false, items;
      }
      if s.isAlive {
        kept, i := kept + [s], i + 1;
      } else {
        items := Splice(items, i);
      }
      j := j + 1;
    }
    ok := true;
  }

  /** One turn of the intended loop, on the list and the ghost bookkeeping alone. */
  lemma StepCorrected(orig: seq<Stroke>, fates: seq<Fate>, survivors: seq<Stroke>,
                      kept: seq<Stroke>, j: int, items: seq<Stroke>, i: int)
    requires TrackedCorrected(orig, fates, survivors, kept, j, items, i) && 0 <= i < |items|
    ensures j < |orig| && items[i] == orig[j]
    ensures fates[j] != Removed ==> TrackedCorrected(orig, fates, survivors, kept + [orig[j]], j + 1, items, i + 1)
    ensures fates[j] == Removed ==> TrackedCorrected(orig, fates, survivors, kept, j + 1, Splice(items, i), i)
  {
    var s := orig[j];
    var rest := Rest(orig, j + 1);
    assert Rest(orig, j) == [s] + rest;
    assert items[i] == s;
    if fates[j] != Removed {
      assert SurvivorsFrom(orig, fates, j) == [s] + SurvivorsFrom(orig, fates, j + 1);
      Regroup(kept, [s], SurvivorsFrom(orig, fates, j + 1));
      Regroup(kept, [s], rest);
    } else {
      assert SurvivorsFrom(orig, fates, j) == SurvivorsFrom(orig, fates, j + 1);
      SpliceAt(kept, s, rest, Splice(items, i));
    }
  }

  /** Array.prototype.splice(i, 1): the list without its i-th element, the rest in order. */
  function Splice<T>(xs: seq<T>, i: nat): (r: seq<T>)
    requires i < |xs|
    ensures |r| == |xs| - 1
    ensures forall k :: 0 <= k < i ==> r[k] == xs[k]
    ensures forall k :: i <= k < |r| ==> r[k] == xs[k + 1]
  {
    seq(|xs| - 1, k requires 0 <= k < |xs| - 1 => if k < i then xs[k] else xs[k + 1])
  }

  /** The body of updateBGBuffer's loop for one stroke: parent it to the list, advance it, draw it. */
  method Tick(s: Stroke, strokes: StrokeList, rng: Random, rainMagnitude: real) returns (ok: bool)
    requires s.Valid() && IsMagnitude(RAIN_DIRECTION, rainMagnitude)
    modifies s, rng
    ensures s.Valid()
    ensures s.environment == strokes && s.time == old(s.time) + 1
    ensures ok <==> old(s.Drawable())
  {
    s.environment := strokes;
    s.AdvanceTime();
    ok := s.DrawStroke(rng, rainMagnitude);
  }

  /** Tick on the stroke at position j, seen against the whole sweep. */
  method TickAt(ghost orig: seq<Stroke>, ghost props: seq<Properties>, ghost envs: seq<StrokeList?>, ghost times: seq<int>, ghost fates: seq<Fate>,
                ghost j: nat, s: Stroke, strokes: StrokeList, rng: Random, rainMagnitude: real)
    returns (drawn: bool)
    requires IsMagnitude(RAIN_DIRECTION, rainMagnitude)
    requires Distinct(orig) && j < |orig| == |fates| && s == orig[j] && fates[j] != Skipped
    requires Swept(orig, props, envs, times, fates, j, strokes)
    requires forall k :: 0 <= k < |orig| ==> Stroke.ValidState(orig[k].kind, props[k])
    modifies s, rng
    ensures drawn <==> Stroke.DrawableState(s.kind, s.points, props[j])
    ensures Swept(orig, props, envs, times, fates, j + 1, strokes)
  {
    DistinctAt(orig, j);
    assert Pristine(s, times[j], props[j], envs[j]);
    drawn := Tick(s, strokes, rng, rainMagnitude);
    assert Done(s, times[j], props[j], envs[j], fates[j], strokes);
  }

  /** Before the first turn nothing is handled; the snapshot's render states are consistent. */
  lemma SweepStart(xs: seq<Stroke>, props: seq<Properties>, envs: seq<StrokeList?>, before: seq<int>, fates: seq<Fate>, list: StrokeList)
    requires props == PropertiesOf(xs) && envs == EnvironmentsOf(xs) && before == Times(xs) && |fates| == |xs|
    requires forall s :: s in xs ==> s.Valid()
    ensures Swept(xs, props, envs, before, fates, 0, list)
    ensures forall k :: 0 <= k < |xs| ==> Stroke.ValidState(xs[k].kind, props[k])
    ensures AllDrawable(xs) ==> forall k :: 0 <= k < |xs| ==> Stroke.DrawableState(xs[k].kind, xs[k].points, props[k])
  {
    forall k | 0 <= k < |xs|
      ensures Stroke.ValidState(xs[k].kind, props[k]) && Pristine(xs[k], before[k], props[k], envs[k])
    {
      assert xs[k] in xs && xs[k].Valid();
    }
  }

  /** After the last turn every stroke was handled as its fate says and is consistent. */
  lemma SweepEnd(xs: seq<Stroke>, props: seq<Properties>, envs: seq<StrokeList?>, before: seq<int>, fates: seq<Fate>, list: StrokeList)
    requires Swept(xs, props, envs, before, fates, |xs|, list)
    ensures Advanced(xs, before, props, envs, fates, list)
    ensures forall s :: s in xs ==> s.Valid()
  {
    forall k | 0 <= k < |xs|
      ensures xs[k].Valid()
      ensures if fates[k] == Skipped then xs[k].time == before[k] && xs[k].properties == props[k] && xs[k].environment == envs[k]
              else xs[k].time == before[k] + 1 && xs[k].environment == list
    {
      assert Done(xs[k], before[k], props[k], envs[k], fates[k], list);
    }
  }

  /** A stroke stepped over keeps its state and stays consistent. */
  lemma SkipAt(xs: seq<Stroke>, props: seq<Properties>, envs: seq<StrokeList?>, before: seq<int>, fates: seq<Fate>, j: nat, list: StrokeList)
    requires Swept(xs, props, envs, before, fates, j, list) && j < |xs| && fates[j] == Skipped
    requires Stroke.ValidState(xs[j].kind, props[j])
    ensures Swept(xs, props, envs, before, fates, j + 1, list)
  {
    assert Pristine(xs[j], before[j], props[j], envs[j]);
  }

  /**
   * commitBuffer's first loop: each buffered point minus the camera. Adding the camera
   * back gives the point the mouse was at.
   */
  method ViewCorrect(points: seq<Vec>, camera: Vec) returns (corrected: seq<Vec>)
    ensures |corrected| == |points|
    ensures forall k :: 0 <= k < |points| ==> VectorMath.Add(corrected[k], camera) == points[k]
  {
    corrected := [];
    var i := 0;
    while i < |points|
      invariant 0 <= i <= |points| && |corrected| == i
      invariant forall k :: 0 <= k < i ==> VectorMath.Add(corrected[k], camera) == points[k]
    {
      corrected := corrected + [VectorMath.Subtract(points[i], camera)];
      i := i + 1;
    }
  }

  /** A distance exceeds a spacing exactly when its square exceeds the spacing squared. */
  lemma SpacingBySquares(d: real, squared: real, m: real)
    requires d >= 0.0 && m >= 0.0 && d * d == squared
    ensures d > m <==> squared > m * m
  {
    if d > m {
      Positive(d - m, d + m);
      assert d * d - m * m == (d - m) * (d + m);
    } else {
      assert m * m - d * d == (m - d) * (m + d);
    }
  }

  lemma Positive(p: real, q: real)
    requires p > 0.0 && q > 0.0
    ensures p * q > 0.0
  {
  }

  lemma DistinctAt<T>(xs: seq<T>, j: nat)
    requires Distinct(xs) && j < |xs|
    ensures forall k :: 0 <= k < |xs| && k != j ==> xs[k] != xs[j]
  {
    forall k | 0 <= k < |xs| && k != j
      ensures xs[k] != xs[j]
    {
      if k < j {
        assert Apart(xs, k, j);
      } else {
        assert Apart(xs, j, k);
      }
    }
  }

  lemma DistinctSuffix<T>(xs: seq<T>, j: nat)
    requires Distinct(xs) && j <= |xs|
    ensures Distinct(xs[j..])
  {
    forall a, b | 0 <= a < b < |xs[j..]|
      ensures Apart(xs[j..], a, b)
    {
      assert Apart(xs, j + a, j + b);
    }
  }

  lemma DistinctHead<T>(xs: seq<T>)
    requires Distinct(xs) && xs != []
    ensures xs[0] !in xs[1..]
  {
    forall m | 0 <= m < |xs| - 1
      ensures xs[1..][m] != xs[0]
    {
      assert Apart(xs, 0, m + 1);
    }
  }

  /** Appending an element not yet present keeps a list without repeats. */
  lemma DistinctAppend<T>(xs: seq<T>, x: T)
    requires Distinct(xs) && x !in xs
    ensures Distinct(xs + [x])
  {
    forall a, b | 0 <= a < b < |xs| + 1
      ensures Apart(xs + [x], a, b)
    {
      if b < |xs| {
        assert Apart(xs, a, b);
      } else {
        assert (xs + [x])[a] == xs[a] && xs[a] in xs;
      }
    }
  }

  lemma Regroup<T>(a: seq<T>, b: seq<T>, c: seq<T>)
    ensures a + (b + c) == (a + b) + c
  {
  }

  /** Splicing x out of kept + [x] + rest leaves kept + rest. */
  lemma SpliceAt<T>(kept: seq<T>, x: T, rest: seq<T>, r: seq<T>)
    requires |r| == |kept| + |rest|
    requires forall k :: 0 <= k < |kept| ==> r[k] == (kept + ([x] + rest))[k]
    requires forall k :: |kept| <= k < |r| ==> r[k] == (kept + ([x] + rest))[k + 1]
    ensures r == kept + rest
  {
    forall k | 0 <= k < |r|
      ensures r[k] == (kept + rest)[k]
    {
      if k >= |kept| {
        assert (kept + ([x] + rest))[k + 1] == rest[k - |kept|];
      }
    }
  }

  /** The part of xs from position j on, built by index. */
  function Rest<T>(xs: seq<T>, j: nat): (rest: seq<T>)
    requires j <= |xs|
    ensures |rest| == |xs| - j
    decreases |xs| - j
  {
    if j == |xs| then [] else [xs[j]] + Rest(xs, j + 1)
  }

  lemma {:induction false} RestIs<T>(xs: seq<T>, j: nat)
    requires j <= |xs|
    ensures Rest(xs, j) == xs[j..]
    decreases |xs| - j
  {
    if j < |xs| {
      RestIs(xs, j + 1);
      assert xs[j..] == [xs[j]] + xs[j + 1..];
    }
  }

  lemma RestStart<T>(xs: seq<T>)
    ensures Rest(xs, 0) == xs
  {
    RestIs(xs, 0);
  }

  /** Survivors of the positions from j on, built by index. */
  function SurvivorsFrom<T>(xs: seq<T>, fates: seq<Fate>, j: nat): seq<T>
    requires |fates| == |xs| && j <= |xs|
    decreases |xs| - j
  {
    if j == |xs| then []
    else (if fates[j] == Removed then [] else [xs[j]]) + SurvivorsFrom(xs, fates, j + 1)
  }

  lemma {:induction false} SurvivorsFromIs<T>(xs: seq<T>, fates: seq<Fate>, j: nat)
    requires |fates| == |xs| && j <= |xs|
    ensures SurvivorsFrom(xs, fates, j) == Survivors(xs[j..], fates[j..])
    decreases |xs| - j
  {
    if j < |xs| {
      SurvivorsFromIs(xs, fates, j + 1);
      assert xs[j..][1..] == xs[j + 1..] && fates[j..][1..] == fates[j + 1..];
    }
  }

  lemma SurvivorsFromStart<T>(xs: seq<T>, fates: seq<Fate>)
    requires |fates| == |xs|
    ensures SurvivorsFrom(xs, fates, 0) == Survivors(xs, fates)
  {
    SurvivorsFromIs(xs, fates, 0);
    assert xs[0..] == xs && fates[0..] == fates;
  }

  /** The fates the loop as written deals out from a position j where it starts a turn, built by index. */
  function FatesFrom(alive: seq<bool>, j: nat): (fates: seq<Fate>)
    requires j <= |alive|
    ensures |fates| == |alive| - j
    decreases |alive| - j
  {
    if j == |alive| then []
    else if alive[j] then [Kept] + FatesFrom(alive, j + 1)
    else if j + 1 == |alive| then [Removed]
    else [Removed, Skipped] + FatesFrom(alive, j + 2)
  }

  lemma {:induction false} FatesFromIs(alive: seq<bool>, j: nat)
    requires j <= |alive|
    ensures FatesFrom(alive, j) == Fates(alive[j..])
    decreases |alive| - j
  {
    if j < |alive| {
      var r := alive[j..];
      assert r[0] == alive[j] && r[1..] == alive[j + 1..];
      if alive[j] {
        FatesFromIs(alive, j + 1);
      } else if j + 1 < |alive| {
        FatesFromIs(alive, j + 2);
        assert r[2..] == alive[j + 2..];
      }
    }
  }

  lemma FatesFromStart(alive: seq<bool>)
    ensures FatesFrom(alive, 0) == Fates(alive)
  {
    FatesFromIs(alive, 0);
    assert alive[0..] == alive;
  }

  /** Survivors keeps only elements of the list. */
  lemma {:induction false} SurvivorsSubset<T>(xs: seq<T>, fates: seq<Fate>)
    requires |fates| == |xs|
    ensures forall x :: x in Survivors(xs, fates) ==> x in xs
  {
    if xs != [] {
      SurvivorsSubset(xs[1..], fates[1..]);
    }
  }

  /** The survivors of a list without repeats have no repeats. */
  lemma {:induction false} SurvivorsDistinct<T>(xs: seq<T>, fates: seq<Fate>)
    requires |fates| == |xs| && Distinct(xs)
    ensures Distinct(Survivors(xs, fates))
  {
    if xs != [] {
      DistinctSuffix(xs, 1);
      SurvivorsDistinct(xs[1..], fates[1..]);
      SurvivorsSubset(xs[1..], fates[1..]);
      var tail := Survivors(xs[1..], fates[1..]);
      DistinctHead(xs);
      if fates[0] == Removed {
        assert Survivors(xs, fates) == [] + tail == tail;
      } else {
        var r := [xs[0]] + tail;
        assert Survivors(xs, fates) == r;
        forall a, b | 0 <= a < b < |r|
          ensures Apart(r, a, b)
        {
          if a == 0 {
            assert r[b] == tail[b - 1] && tail[b - 1] in xs[1..];
          } else {
            assert r[a] == tail[a - 1] && r[b] == tail[b - 1];
            assert Apart(tail, a - 1, b - 1);
          }
        }
      }
    }
  }

  /** In a list without repeats, an element survives exactly when its fate is not Removed. */
  lemma {:induction false} SurvivorsMember<T>(xs: seq<T>, fates: seq<Fate>, k: nat)
    requires |fates| == |xs| && Distinct(xs) && k < |xs|
    ensures xs[k] in Survivors(xs, fates) <==> fates[k] != Removed
  {
    var tail := Survivors(xs[1..], fates[1..]);
    assert Survivors(xs, fates) == (if fates[0] == Removed then [] else [xs[0]]) + tail;
    DistinctSuffix(xs, 1);
    if k == 0 {
      SurvivorsSubset(xs[1..], fates[1..]);
      DistinctHead(xs);
    } else {
      SurvivorsMember(xs[1..], fates[1..], k - 1);
      assert Apart(xs, 0, k);
      assert xs[1..][k - 1] == xs[k] && fates[1..][k - 1] == fates[k] && xs[k] != xs[0];
    }
  }

  /** With no position left unremoved, nothing survives. */
  lemma {:induction false} SurvivorsNone<T>(xs: seq<T>, fates: seq<Fate>)
    requires |fates| == |xs| && forall k :: 0 <= k < |fates| ==> fates[k] == Removed
    ensures Survivors(xs, fates) == []
  {
    if xs != [] {
      assert forall k :: 0 <= k < |fates[1..]| ==> fates[1..][k] == fates[k + 1];
      SurvivorsNone(xs[1..], fates[1..]);
    }
  }

  /**
   * Every stroke the loop as written does visit is handled correctly: it stays exactly
   * when it is alive.
   */
  lemma {:induction false} FatesVisitedCorrect(alive: seq<bool>, k: nat)
    requires k < |alive|
    ensures Fates(alive)[k] != Skipped ==> (Fates(alive)[k] == Kept <==> alive[k])
    decreases |alive|
  {
    var f := Fates(alive);
    if alive[0] {
      if k > 0 {
        FatesVisitedCorrect(alive[1..], k - 1);
        assert f[k] == Fates(alive[1..])[k - 1] && alive[1..][k - 1] == alive[k];
      }
    } else if |alive| >= 2 && k >= 2 {
      FatesVisitedCorrect(alive[2..], k - 2);
      assert f[k] == Fates(alive[2..])[k - 2] && alive[2..][k - 2] == alive[k];
    }
  }

  /**
   * The loop as written steps over a stroke exactly when the stroke before it was removed:
   * the splice slides it into the slot the index then leaves.
   */
  lemma {:induction false} SkipFollowsRemoval(alive: seq<bool>, k: nat)
    requires k < |alive|
    ensures Fates(alive)[k] == Skipped <==> k > 0 && Fates(alive)[k - 1] == Removed
    decreases |alive|
  {
    var f := Fates(alive);
    if alive[0] {
      if k > 0 {
        var g := Fates(alive[1..]);
        SkipFollowsRemoval(alive[1..], k - 1);
        assert f[k] == g[k - 1];
        if k >= 2 {
          assert f[k - 1] == g[k - 2];
        }
      }
    } else if |alive| >= 2 && k >= 2 {
      var g := Fates(alive[2..]);
      SkipFollowsRemoval(alive[2..], k - 2);
      assert f[k] == g[k - 2];
      if k >= 3 {
        assert f[k - 1] == g[k - 3];
      }
    }
  }

  /** With no stroke alive (always so in this program) the loop as written alternates removing and skipping. */
  lemma {:induction false} AllDeadFates(alive: seq<bool>)
    requires forall k :: 0 <= k < |alive| ==> !alive[k]
    ensures forall k :: 0 <= k < |alive| ==> Fates(alive)[k] == (if k % 2 == 0 then Removed else Skipped)
    decreases |alive|
  {
    if |alive| >= 2 {
      var g := Fates(alive[2..]);
      AllDeadFates(alive[2..]);
      forall k | 2 <= k < |alive|
        ensures Fates(alive)[k] == (if k % 2 == 0 then Removed else Skipped)
      {
        assert Fates(alive)[k] == g[k - 2];
      }
    }
  }

  /**
   * With no stroke alive, updateBGBuffer as written keeps every second stroke: those at odd
   * positions, half the list rounded down.
   */
  lemma {:induction false} AllDeadSurvivors<T>(xs: seq<T>, alive: seq<bool>)
    requires |alive| == |xs| && forall k :: 0 <= k < |alive| ==> !alive[k]
    ensures |Survivors(xs, Fates(alive))| == |xs| / 2
    ensures forall k :: 0 <= k < |xs| / 2 ==> Survivors(xs, Fates(alive))[k] == xs[2 * k + 1]
    decreases |xs|
  {
    var f := Fates(alive);
    if |xs| == 1 {
      assert Survivors(xs, f) == [] + Survivors(xs[1..], f[1..]);
    } else if |xs| >= 2 {
      var g := Fates(alive[2..]);
      AllDeadSurvivors(xs[2..], alive[2..]);
      var tail := Survivors(xs[2..], g);
      assert f == [Removed, Skipped] + g;
      assert f[1..][0] == Skipped && f[1..][1..] == g && xs[1..][0] == xs[1] && xs[1..][1..] == xs[2..];
      assert Survivors(xs[1..], f[1..]) == [xs[1]] + tail;
      var r := Survivors(xs, f);
      assert r == [] + ([xs[1]] + tail);
      forall k | 0 <= k < |xs| / 2
        ensures r[k] == xs[2 * k + 1]
      {
        if k > 0 {
          assert r[k] == tail[k - 1];
          assert xs[2..][2 * (k - 1) + 1] == xs[2 * k + 1];
        }
      }
    }
  }

  /** updateBGBuffer as written keeps a stroke exactly when it is alive or was stepped over. */
  lemma AsWrittenKeeps<T>(xs: seq<T>, alive: seq<bool>, k: nat)
    requires |alive| == |xs| && Distinct(xs) && k < |xs|
    ensures xs[k] in Survivors(xs, Fates(alive)) <==> alive[k] || Fates(alive)[k] == Skipped
  {
    SurvivorsMember(xs, Fates(alive), k);
    FatesVisitedCorrect(alive, k);
  }

  /** The intended updateBGBuffer keeps a stroke exactly when it is alive. */
  lemma IntendedKeeps<T>(xs: seq<T>, alive: seq<bool>, k: nat)
    requires |alive| == |xs| && Distinct(xs) && k < |xs|
    ensures xs[k] in Survivors(xs, IntendedFates(alive)) <==> alive[k]
  {
    SurvivorsMember(xs, IntendedFates(alive), k);
  }

  /** With no stroke alive, the intended updateBGBuffer empties the list. */
  lemma IntendedAllDead<T>(xs: seq<T>, alive: seq<bool>)
    requires |alive| == |xs| && forall k :: 0 <= k < |alive| ==> !alive[k]
    ensures Survivors(xs, IntendedFates(alive)) == []
  {
    SurvivorsNone(xs, IntendedFates(alive));
  }

  /** Two dead strokes in a row: the loop as written keeps the second, the intended one neither. */
  lemma TwoDeadStrokes<T>(a: T, b: T)
    ensures Survivors([a, b], Fates([false, false])) == [b]
    ensures Survivors([a, b], IntendedFates([false, false])) == []
  {
    assert [false, false][2..] == [];
    assert Fates([false, false]) == [Removed, Skipped];
    assert [a, b][1..] == [b] && [Removed, Skipped][1..] == [Skipped];
    assert Survivors([b], [Skipped]) == [b] + Survivors([b][1..], [Skipped][1..]);
    IntendedAllDead([a, b], [false, false]);
  }
}
