# Scene: closest-hit dispatch and recursive radiance estimation

A Dafny model of `RayTracer::Scene` from a small Monte Carlo path tracer. The scene holds
an ordered list of objects, a list of lights and a recursion limit of 5. It offers two
operations that matter:

- `TestIntersection` scans every object for the nearest hit. When asked to, it skips
  transparent hits. The running minimum starts at INFINITY and only a strictly smaller
  distance replaces it, so ties go to the earliest object.
- `TraceRay` is the recursive radiance estimator. Each call ends in exactly one of four
  cases: the depth is over the limit, the ray misses, the ray hits a luminaire, or it
  bounces once more at `depth + 1`.

Files:

- `wrappers.dfy`: `Option`.
- `geometry.dfy` (module `Geometry`): the values involved.
  - `Vec3` stands for glm::vec3. It is used for points, directions and colours.
  - `Ray`, `Material`, `Hit` (a HitInfo record), `Light`.
  - `Object` is a scene object seen only through `Intersects`: a function from a ray to
    an optional hit.
  - `Distance` is a float hit distance: a finite real, +INFINITY, -INFINITY or NaN.
  - `Less` is the float `<` on distances. It is false whenever NaN is involved.
- `intersection.dfy` (module `Intersection`): the closest-hit rule.
  - `Scan` follows the loop object by object.
  - `IsClosest` states declaratively which object must win.
  - Lemmas connect the two.
- `scene.dfy` (module `RayTracer`): the `Scene` class.
  - Its fields are `objects`, `lights` and `recursionLimit`.
  - The constructor, `AddObject` and `AddLight` update the fields in place.
  - `TestIntersection` is a loop proved against `Scan` and `IsClosest`.
  - `TraceRay` is a recursive function, with lemmas for each of its cases and for the
    number of intersection tests.

`TraceRay` returns a `Trace`: the radiance, plus the number of `TestIntersection` calls
made by that call and all its recursive calls (`tests`). The count is instrumentation.
It makes the termination bound something a contract can state. Each call is a function
of its inputs and of the two oracles below, so equal inputs and an equal random
sequence give equal radiance.

What the scene cannot see becomes parameters of `TraceRay`:

- `includeTransparent`: the default argument that `TestIntersection` is called with.
  That default is declared in `Scene.h`, which is not part of this model.
- `sample(d)`: the normalized direction drawn from `rand()` for the bounce that leaves
  depth `d`. Along one path, the draws happen once per depth in depth order, so indexing
  by depth reads the same stream.
- `shade(l, h)`: the float arithmetic that turns the bounced radiance `l` into the
  radiance at hit `h` (multiply by albedo, divide by the squared hit distance).

## Model

| member | source | states |
|---|---|---|
| `RayTracer.Scene.constructor` | RayTracer/src/Scene.cpp:6-11 | a new scene has no objects, no lights and a recursion limit of 5 |
| `RayTracer.Scene.AddObject` | RayTracer/src/Scene.cpp:13-16 | the object is appended at the end of the object list; earlier objects, the lights and the limit are unchanged |
| `RayTracer.Scene.AddLight` | RayTracer/src/Scene.cpp:18-21 | the light is appended at the end of the light list; the objects and the limit are unchanged |
| `RayTracer.Scene.TestIntersection` | RayTracer/src/Scene.cpp:80-105 | returns true exactly when some object reports a qualifying hit (not a skipped transparent hit, distance below INFINITY); the hit written is that of the closest object, the earliest among equals; on false the caller's HitInfo is left as it was |
| `Intersection.Scan` | RayTracer/src/Scene.cpp:85-100 | the winner after the loop has seen n objects is one of those n, its hit is exactly what that object reported, and that hit qualifies (so an excluded transparent hit is never returned) |
| `Intersection.ScanCorrect` | RayTracer/src/Scene.cpp:82-104 | the scan finds nothing exactly when no object reports a qualifying hit (in particular for an empty object list); otherwise its winner is no farther than any qualifying hit and strictly nearer than every earlier one |
| `Intersection.IsClosestUnique` | RayTracer/src/Scene.cpp:93 | with the strict `<`, at most one object can be the closest, so the result does not depend on anything but the hits and their order |
| `Intersection.ClosestHitIff` | RayTracer/src/Scene.cpp:85-104 | the full scan reports object k if and only if k is the closest object (minimum distance, lowest index among equals) |
| `Intersection.TransparentHitIsMiss` | RayTracer/src/Scene.cpp:91 | with transparent objects excluded, an object whose hit is transparent has exactly the effect of an object that missed |
| `RayTracer.Scene.TraceRay` | RayTracer/src/Scene.cpp:34-77 | over the depth limit it returns zero radiance and runs no intersection test; from depth d it runs at most max(0, recursionLimit - d + 1) intersection tests, which bounds the recursion |
| `RayTracer.MissIsDark` | RayTracer/src/Scene.cpp:39-47 | a ray that no object hits yields zero radiance at any depth, after one test (none over the limit) |
| `RayTracer.EmptySceneIsDark` | RayTracer/src/Scene.cpp:39-47 | a scene without objects yields zero radiance for every ray and depth |
| `RayTracer.EmissiveHitRadiance` | RayTracer/src/Scene.cpp:49-56 | when the closest hit is on a luminaire, the result is emissiveStrength * albedo after one test and no recursion, whatever the depth within the limit and whatever the hit distance or normal |
| `RayTracer.DiffuseHitRecursesOnce` | RayTracer/src/Scene.cpp:58-76 | when the closest hit is not emissive, the call makes exactly one recursive call, at depth + 1, along the ray leaving the hit position offset by 0.001 along the sampled direction, and shades that call's result with the hit |
| `RayTracer.AlwaysDiffuseTestCount` | RayTracer/src/Scene.cpp:39-76 | when every ray has a qualifying hit and no hit is emissive, a trace from depth d runs exactly max(0, recursionLimit - d + 1) intersection tests (recursionLimit + 1 from depth 0) |

## Left out

- The `Camera` passed to the constructor, and `RenderScene` / `SaveScene` (RayTracer/src/Scene.cpp:23-31). These delegate to the camera's renderer and to image file output.
- The geometry behind `Object::Intersects` (spheres, boxes) and the light classes. They are not part of this model. An object is the hit it reports for each ray, and a light is an opaque reference that the scene stores but never reads.
- Object and light pointers are modelled as values. The source's `hitObject` pointer is modelled as the index of the winning object, which is what the scan order distinguishes.
- The bounce direction (RayTracer/src/Scene.cpp:58-72). It is float trigonometry over the global `rand()` state, so it enters as the `sample` oracle, and nothing is proved about the direction it gives.
  - `sample` does not take the hit normal. The source builds the basis `u`, `v`, `w` from the normal but never applies it to the new direction.
  - Line 68 scales by `2.14f` where line 69 uses `3.14f`.
- The float radiance arithmetic of line 76 (albedo multiply, division by the squared hit distance) is the `shade` parameter. It is not IEEE arithmetic.
- The luminaire case (line 55) and the 0.001 origin offset (line 76) are computed in exact reals, not in single-precision floats.
- Emissive strength is a real, so a NaN emissive strength is not modelled. Hit distances do model NaN and the infinities, as far as the comparisons at line 93 see them.
- The `rayIntensity` parameter of `TraceRay` is never read by the source (the recursive call passes `{1,1,1}`), so the model omits it.
- The default value of `includeTransparentObjects` lives in `Scene.h`, which is not part of this model. `TraceRay` takes it as a parameter.
