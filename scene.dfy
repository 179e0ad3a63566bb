/** RayTracer::Scene: the object and light lists, the closest-hit dispatcher
    and the recursive radiance estimator. */
module RayTracer {
  import opened Wrappers
  import opened Geometry
  import opened Intersection

  /** What one TraceRay call returns (`radiance`), together with the number of
      TestIntersection calls it and its recursive calls made (`tests`). */
  datatype Trace = Trace(radiance: Vec3, tests: nat)

  /** The ray a diffuse bounce continues along: from the hit position, offset
      by 0.001 along the sampled direction, in that direction. */
  function BounceRay(h: Hit, direction: Vec3): Ray {
    Ray(Add(h.position, Scale(0.001, direction)), direction)
  }

  class Scene {
    var objects: seq<Object>
    var lights: seq<Light>
    var recursionLimit: int

    /** A new scene has no objects, no lights and a recursion limit of 5. */
    constructor ()
      ensures objects == [] && lights == [] && recursionLimit == 5
    {
      objects := [];
      lights := [];
      recursionLimit := 5;
    }

    /** Appends `obj` to the object list; nothing else changes. */
    method AddObject(obj: Object)
      modifies this
      ensures objects == old(objects) + [obj]
      ensures lights == old(lights) && recursionLimit == old(recursionLimit)
    {
      objects := objects + [obj];
    }

    /** Appends `light` to the light list; nothing else changes. */
    method AddLight(light: Light)
      modifies this
      ensures lights == old(lights) + [light]
      ensures objects == old(objects) && recursionLimit == old(recursionLimit)
    {
      lights := lights + [light];
    }

    /** Scans every object for the closest qualifying hit. `hitInformation` is
        the caller's HitInfo before the call and `info` the one after it: it is
        overwritten only when a hit is found. */
    method TestIntersection(ray: Ray, hitInformation: Hit, includeTransparentObjects: bool)
      returns (hit: bool, info: Hit)
      ensures hit == HitsSomething(objects, ray, includeTransparentObjects)
      ensures hit ==> exists k: nat :: IsClosest(objects, ray, includeTransparentObjects, |objects|, k)
                                  && info == objects[k](ray).value
      ensures !hit ==> info == hitInformation
      ensures hit == ClosestHit(objects, ray, includeTransparentObjects).Some?
      ensures hit ==> info == ClosestHit(objects, ray, includeTransparentObjects).value.hit
    {
      var hitObject: Option<nat> := None;
      var closest := PosInf;
      info := hitInformation;
      for i := 0 to |objects|
        invariant Scan(objects, ray, includeTransparentObjects, i)
                  == (if hitObject.Some? then Some(Winner(hitObject.value, info)) else None)
        invariant closest == Closest(Scan(objects, ray, includeTransparentObjects, i))
        invariant hitObject.None? ==> info == hitInformation
      {
        var tempInfo := objects[i](ray);
        if tempInfo.Some? {
          if tempInfo.value.material.isTransparent && !includeTransparentObjects {
            continue;
          }
          if Less(tempInfo.value.distance, closest) {
            closest := tempInfo.value.distance;
            info := tempInfo.value;
            hitObject := Some(i);
          }
        }
      }
      hit := hitObject.Some?;
      ScanCorrect(objects, ray, includeTransparentObjects, |objects|);
      assert hit == HitsSomething(objects, ray, includeTransparentObjects);
      if hit {
        assert IsClosest(objects, ray, includeTransparentObjects, |objects|, hitObject.value);
      }
    }

    /** The radiance arriving along `ray` at recursion depth `depth`.
        `includeTransparent` is the default argument TestIntersection is called
        with; `sample(d)` is the normalized direction drawn from rand() for the
        bounce that leaves depth `d`; `shade(l, h)` is the float arithmetic that
        turns the bounced radiance `l` into the radiance at hit `h`. */
    function TraceRay(ray: Ray, depth: int, includeTransparent: bool,
                      sample: int -> Vec3, shade: (Vec3, Hit) -> Vec3): (t: Trace)
      reads this
      ensures depth > recursionLimit ==> t == Trace(Zero, 0)
      ensures t.tests <= if depth > recursionLimit then 0 else recursionLimit - depth + 1
      decreases recursionLimit - depth + 1
    {
      if depth > recursionLimit then Trace(Zero, 0)
      else
        match ClosestHit(objects, ray, includeTransparent)
        case None => Trace(Zero, 1)
        case Some(w) =>
          var m := w.hit.material;
          if m.emissiveStrength > 0.0 then Trace(Scale(m.emissiveStrength, m.albedo), 1)
          else
            var next := TraceRay(BounceRay(w.hit, sample(depth)), depth + 1, includeTransparent, sample, shade);
            Trace(shade(next.radiance, w.hit), next.tests + 1)
    }
  }

  /** A ray that no object hits (as far as the dispatcher counts hits) carries
      no radiance, at any depth, after at most one intersection test. */
  lemma MissIsDark(s: Scene, ray: Ray, depth: int, includeTransparent: bool,
                   sample: int -> Vec3, shade: (Vec3, Hit) -> Vec3)
    requires !HitsSomething(s.objects, ray, includeTransparent)
    ensures s.TraceRay(ray, depth, includeTransparent, sample, shade).radiance == Zero
    ensures s.TraceRay(ray, depth, includeTransparent, sample, shade).tests
            == if depth > s.recursionLimit then 0 else 1
  {
    ScanCorrect(s.objects, ray, includeTransparent, |s.objects|);
  }

  /** An empty scene is dark for every ray and depth. */
  lemma EmptySceneIsDark(s: Scene, ray: Ray, depth: int, includeTransparent: bool,
                         sample: int -> Vec3, shade: (Vec3, Hit) -> Vec3)
    requires s.objects == []
    ensures s.TraceRay(ray, depth, includeTransparent, sample, shade).radiance == Zero
    ensures s.TraceRay(ray, depth, includeTransparent, sample, shade).tests <= 1
  {
    MissIsDark(s, ray, depth, includeTransparent, sample, shade);
  }

  /** When the closest hit is on a luminaire, TraceRay returns
      emissiveStrength * albedo after one test and no recursion, whatever the
      depth (within the limit), hit distance or normal. */
  lemma EmissiveHitRadiance(s: Scene, ray: Ray, depth: int, includeTransparent: bool,
                            sample: int -> Vec3, shade: (Vec3, Hit) -> Vec3, k: nat)
    requires depth <= s.recursionLimit
    requires IsClosest(s.objects, ray, includeTransparent, |s.objects|, k)
    requires s.objects[k](ray).value.material.emissiveStrength > 0.0
    ensures s.TraceRay(ray, depth, includeTransparent, sample, shade)
            == Trace(Scale(s.objects[k](ray).value.material.emissiveStrength,
                           s.objects[k](ray).value.material.albedo), 1)
  {
    ClosestHitIff(s.objects, ray, includeTransparent, k);
  }

  /** When the closest hit is not emissive, TraceRay makes exactly one
      recursive call, at depth + 1, along the bounced ray, and shades its
      result with that hit. */
  lemma DiffuseHitRecursesOnce(s: Scene, ray: Ray, depth: int, includeTransparent: bool,
                               sample: int -> Vec3, shade: (Vec3, Hit) -> Vec3, k: nat)
    requires depth <= s.recursionLimit
    requires IsClosest(s.objects, ray, includeTransparent, |s.objects|, k)
    requires s.objects[k](ray).value.material.emissiveStrength <= 0.0
    ensures var h := s.objects[k](ray).value;
            var next := s.TraceRay(BounceRay(h, sample(depth)), depth + 1, includeTransparent, sample, shade);
            s.TraceRay(ray, depth, includeTransparent, sample, shade)
            == Trace(shade(next.radiance, h), next.tests + 1)
  {
    ClosestHitIff(s.objects, ray, includeTransparent, k);
  }

  /** In a scene where every ray has a qualifying hit and no reported hit is
      emissive, a trace from depth `depth` runs exactly
      max(0, recursionLimit - depth + 1) intersection tests. */
  lemma {:induction false} AlwaysDiffuseTestCount(s: Scene, ray: Ray, depth: int, includeTransparent: bool,
                                                  sample: int -> Vec3, shade: (Vec3, Hit) -> Vec3)
    requires forall r: Ray :: HitsSomething(s.objects, r, includeTransparent)
    requires forall r: Ray, i :: 0 <= i < |s.objects| && s.objects[i](r).Some? ==>
               s.objects[i](r).value.material.emissiveStrength <= 0.0
    ensures s.TraceRay(ray, depth, includeTransparent, sample, shade).tests
            == if depth > s.recursionLimit then 0 else s.recursionLimit - depth + 1
    decreases s.recursionLimit - depth + 1
  {
    if depth <= s.recursionLimit {
      ScanCorrect(s.objects, ray, includeTransparent, |s.objects|);
      assert HitsSomething(s.objects, ray, includeTransparent);
      var w := ClosestHit(s.objects, ray, includeTransparent);
      assert w.Some?;
      AlwaysDiffuseTestCount(s, BounceRay(w.value.hit, sample(depth)), depth + 1, includeTransparent, sample, shade);
    }
  }

  /** A client: a transparent pane at distance 1 in front of an opaque wall at
      distance 2. Excluding transparent objects reports the wall; including
      them reports the pane. */
  method TransparencyExample(ray: Ray, previous: Hit)
  {
    var glass := Material(Vec3(1.0, 1.0, 1.0), 0.0, true);
    var paint := Material(Vec3(0.5, 0.5, 0.5), 0.0, false);
    var paneHit := Hit(Finite(1.0), Zero, Zero, glass);
    var wallHit := Hit(Finite(2.0), Zero, Zero, paint);
    var s := new Scene();
    s.AddObject((r: Ray) => Some(paneHit));
    s.AddObject((r: Ray) => Some(wallHit));
    assert s.objects[0](ray) == Some(paneHit) && s.objects[1](ray) == Some(wallHit);
    var hit, info := s.TestIntersection(ray, previous, false);
    assert hit && info == wallHit;
    hit, info := s.TestIntersection(ray, previous, true);
    assert hit && info == paneHit;
    assert s.recursionLimit == 5;
  }
}
