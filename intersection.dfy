/** The closest-hit rule of Scene::TestIntersection, as functions and lemmas:
    `Scan` follows the loop one object at a time, `IsClosest` says declaratively
    which object wins, and the lemmas connect the two. */
module Intersection {
  import opened Wrappers
  import opened Geometry

  /** The winner so far: the index of the object (`hitObject`) and its hit
      (`hitInformation`). */
  datatype Winner = Winner(index: nat, hit: Hit)

  /** A reported hit that the dispatcher can select: not skipped as a
      transparent hit, and below the INFINITY the running minimum starts at
      (so a hit at +INFINITY or NaN is never recorded). */
  predicate Qualifies(h: Option<Hit>, includeTransparent: bool) {
    h.Some? && !(h.value.material.isTransparent && !includeTransparent)
    && Less(h.value.distance, PosInf)
  }

  /** The running minimum `closest` that goes with a winner so far. */
  function Closest(w: Option<Winner>): Distance {
    if w.Some? then w.value.hit.distance else PosInf
  }

  /** The winner after the loop has looked at objects [0, n). */
  function Scan(objects: seq<Object>, ray: Ray, includeTransparent: bool, n: nat): (w: Option<Winner>)
    requires n <= |objects|
    ensures w.Some? ==> w.value.index < n && objects[w.value.index](ray) == Some(w.value.hit)
    ensures w.Some? ==> Qualifies(Some(w.value.hit), includeTransparent)
    decreases n
  {
    if n == 0 then None
    else
      var w := Scan(objects, ray, includeTransparent, n - 1);
      match objects[n - 1](ray)
      case None => w
      case Some(h) =>
        if h.material.isTransparent && !includeTransparent then w
        else if Less(h.distance, Closest(w)) then
          assert Less(h.distance, PosInf) by {
            if w.Some? { LessTransitive(h.distance, Closest(w), PosInf); }
          }
          Some(Winner(n - 1, h))
        else w
  }

  /** The outcome of a whole scan over the scene's objects. */
  function ClosestHit(objects: seq<Object>, ray: Ray, includeTransparent: bool): Option<Winner> {
    Scan(objects, ray, includeTransparent, |objects|)
  }

  /** Some object reports a qualifying hit for `ray`. */
  ghost predicate HitsSomething(objects: seq<Object>, ray: Ray, includeTransparent: bool) {
    exists i :: 0 <= i < |objects| && Qualifies(objects[i](ray), includeTransparent)
  }

  /** Object k's hit is the one the scene should report among objects [0, n):
      it qualifies, no qualifying hit is nearer, and every qualifying hit of an
      earlier object is strictly farther (ties go to the first in scan order). */
  ghost predicate IsClosest(objects: seq<Object>, ray: Ray, includeTransparent: bool, n: nat, k: nat) {
    k < n <= |objects| && Qualifies(objects[k](ray), includeTransparent)
    && (forall i :: 0 <= i < n && Qualifies(objects[i](ray), includeTransparent) ==>
          AtMost(objects[k](ray).value.distance, objects[i](ray).value.distance))
    && (forall i :: 0 <= i < k && Qualifies(objects[i](ray), includeTransparent) ==>
          Less(objects[k](ray).value.distance, objects[i](ray).value.distance))
  }

  /** The scan finds nothing exactly when no object among [0, n) reports a
      qualifying hit, and otherwise finds the closest one. */
  lemma {:induction false} ScanCorrect(objects: seq<Object>, ray: Ray, includeTransparent: bool, n: nat)
    requires n <= |objects|
    ensures Scan(objects, ray, includeTransparent, n).None? <==>
              forall i :: 0 <= i < n ==> !Qualifies(objects[i](ray), includeTransparent)
    ensures Scan(objects, ray, includeTransparent, n).Some? ==>
              IsClosest(objects, ray, includeTransparent, n, Scan(objects, ray, includeTransparent, n).value.index)
    decreases n
  {
    if n > 0 {
      ScanCorrect(objects, ray, includeTransparent, n - 1);
      var w := Scan(objects, ray, includeTransparent, n - 1);
      var last := objects[n - 1](ray);
      if Qualifies(last, includeTransparent) {
        var d := last.value.distance;
        if w.Some? {
          var dk := w.value.hit.distance;
          LessTotal(d, dk);
          if Less(d, dk) {
            forall i | 0 <= i < n - 1 && Qualifies(objects[i](ray), includeTransparent)
              ensures Less(d, objects[i](ray).value.distance)
            {
              var di := objects[i](ray).value.distance;
              if dk != di { LessTransitive(d, dk, di); }
            }
          }
        }
      }
    }
  }

  /** At most one object is the closest. */
  lemma IsClosestUnique(objects: seq<Object>, ray: Ray, includeTransparent: bool, n: nat, k1: nat, k2: nat)
    requires IsClosest(objects, ray, includeTransparent, n, k1)
    requires IsClosest(objects, ray, includeTransparent, n, k2)
    ensures k1 == k2
  {
    var d1, d2 := objects[k1](ray).value.distance, objects[k2](ray).value.distance;
    if k1 < k2 {
      assert Less(d2, d1) && AtMost(d1, d2);
      LessTotal(d1, d2);
    } else if k2 < k1 {
      assert Less(d1, d2) && AtMost(d2, d1);
      LessTotal(d1, d2);
    }
  }

  /** The whole scan returns object k exactly when k is the closest. */
  lemma ClosestHitIff(objects: seq<Object>, ray: Ray, includeTransparent: bool, k: nat)
    ensures (ClosestHit(objects, ray, includeTransparent).Some?
             && ClosestHit(objects, ray, includeTransparent).value.index == k)
            <==> IsClosest(objects, ray, includeTransparent, |objects|, k)
  {
    ScanCorrect(objects, ray, includeTransparent, |objects|);
    var w := ClosestHit(objects, ray, includeTransparent);
    if IsClosest(objects, ray, includeTransparent, |objects|, k) {
      assert w.Some?;
      IsClosestUnique(objects, ray, includeTransparent, |objects|, k, w.value.index);
    }
  }

  /** With transparent objects excluded, an object whose hit is transparent
      changes nothing: the scan ends as if that object had missed. */
  lemma {:induction false} TransparentHitIsMiss(objects: seq<Object>, ray: Ray, j: nat, n: nat)
    requires j < |objects| && n <= |objects|
    requires objects[j](ray).Some? && objects[j](ray).value.material.isTransparent
    ensures Scan(objects, ray, false, n) == Scan(objects[j := Missing], ray, false, n)
    decreases n
  {
    if n > 0 {
      TransparentHitIsMiss(objects, ray, j, n - 1);
    }
  }
}
