/** Contact manifolds (Collision/ManifoldPoint.cs and the manifold record it
    belongs to). A manifold point stores its local point, the impulses cached
    for warm starting and the id of the features that produced it. */
module Manifolds {
  import opened Geometry
  import opened ContactIds
  import Settings

  datatype ManifoldPoint = ManifoldPoint(localPoint: Vec2, normalImpulse: real, tangentImpulse: real, id: ContactID)

  /** The default constructor: everything zeroed, a fresh zero id. */
  function DefaultPoint(): (r: ManifoldPoint)
    ensures r.normalImpulse == 0.0 && r.tangentImpulse == 0.0
    ensures r.localPoint == Zero()
    ensures Key(r.id) == 0
  {
    ManifoldPoint(Zero(), 0.0, 0.0, ZeroId())
  }

  /** The copy constructor: the local point is cloned and the impulses copied;
      the id goes through `ContactID`'s copy constructor and so inherits its
      `indexB` behaviour. Points are values here, so the clone never aliases
      the original. */
  function CopyPoint(cp: ManifoldPoint): (r: ManifoldPoint)
    ensures r.localPoint == cp.localPoint
    ensures r.normalImpulse == cp.normalImpulse && r.tangentImpulse == cp.tangentImpulse
    ensures r.id.indexB == cp.id.indexA
    ensures r.id.indexA == cp.id.indexA && r.id.typeA == cp.id.typeA && r.id.typeB == cp.id.typeB
    ensures Canonical(cp.id) ==> (r == cp <==> cp.id.indexA == cp.id.indexB)
  {
    ManifoldPoint(cp.localPoint, cp.normalImpulse, cp.tangentImpulse, SetFrom(cp.id))
  }

  /** `set_Renamed`: overwrite `target` with `cp`'s local point and impulses and
      copy the id with `ContactID.set_Renamed`. */
  function SetPoint(target: ManifoldPoint, cp: ManifoldPoint): (r: ManifoldPoint)
    ensures r.localPoint == cp.localPoint
    ensures r.normalImpulse == cp.normalImpulse && r.tangentImpulse == cp.tangentImpulse
    ensures r.id == SetFrom(cp.id)
  {
    target.(localPoint := cp.localPoint, normalImpulse := cp.normalImpulse,
            tangentImpulse := cp.tangentImpulse, id := SetFrom(cp.id))
  }

  /** Overwriting with `set_Renamed` forgets every field of the target, and so
      agrees with the copy constructor. */
  lemma SetPointIsCopy(target: ManifoldPoint, cp: ManifoldPoint)
    ensures SetPoint(target, cp) == CopyPoint(cp)
  {
  }

  /** A copy of a copy is the copy: the id's lost `indexB` does not drift further. */
  lemma CopyPointIdempotent(cp: ManifoldPoint)
    ensures CopyPoint(CopyPoint(cp)) == CopyPoint(cp)
  {
    SetFromIdempotent(cp.id);
  }

  /** The copy the constructor evidently means, with the id copied field for field. */
  function CopyPointIntended(cp: ManifoldPoint): (r: ManifoldPoint)
    ensures r == cp
  {
    ManifoldPoint(cp.localPoint, cp.normalImpulse, cp.tangentImpulse, SetFromIntended(cp.id))
  }

  /** How the local points of a manifold are to be read. */
  datatype ManifoldType = Circles | FaceA | FaceB

  /** A contact manifold: a fixed array of `maxManifoldPoints` points of which the
      first `pointCount` are in use. */
  datatype Manifold = Manifold(points: seq<ManifoldPoint>, localNormal: Vec2, localPoint: Vec2,
                               kind: ManifoldType, pointCount: nat)

  predicate ValidManifold(m: Manifold) {
    |m.points| == Settings.maxManifoldPoints && m.pointCount <= Settings.maxManifoldPoints
  }
}
