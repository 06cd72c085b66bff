/** Route points: names under the point_name_uk unique constraint, keyed by a generated
    number, created and listed by PointEndpoint through the entity manager. */
module Points {
  import opened Common
  import opened Text
  import opened Tables
  import opened Validation

  datatype Point = Point(name: string)

  datatype PointResponse = PointResponse(id: nat, name: string)

  function NameOf(p: Point): string {
    p.name
  }

  const NameMissing := "Name must not be blank"

  function PointExists(name: string): string {
    "Point already exists with name " + name
  }

  /** The point table as the entity manager holds it. */
  class PointTable {
    var points: map<nat, Point>

    constructor ()
      ensures points == map[] && Valid()
    {
      points := map[];
    }

    /** Names are unique, and every stored name passes the entity's @NotBlank. */
    ghost predicate Valid()
      reads this
    {
      Unique(points, NameOf) && forall k :: k in points ==> !IsBlank(points[k].name)
    }
  }

  class PointEndpoint {
    const manager: PointTable

    constructor (manager: PointTable)
      ensures this.manager == manager
    {
      this.manager := manager;
    }

    /** create: a blank name is refused, then a name in use is refused (the
        `select 1 from Point where name = :name` query); then persist validates the
        entity, whose @NotBlank refuses a name that trims to empty; then the point is
        stored. */
    method Create(name: string, newId: nat) returns (r: Result<PointResponse>)
      requires manager.Valid() && newId !in manager.points
      modifies manager
      ensures manager.Valid()
      ensures IsKotlinBlank(name) ==> r == Failure(Invalid(NameMissing))
      ensures !IsKotlinBlank(name) && InUse(old(manager.points), NameOf, name) ==>
        r == Failure(AlreadyExists(PointExists(name)))
      ensures !IsKotlinBlank(name) && !InUse(old(manager.points), NameOf, name) && IsBlank(name) ==>
        r == Failure(ConstraintViolations(NotBlank("name", name)))
      ensures r.Failure? ==> manager.points == old(manager.points)
      ensures !IsKotlinBlank(name) && !InUse(old(manager.points), NameOf, name) && !IsBlank(name) ==>
        && r == Success(PointResponse(newId, name))
        && manager.points == old(manager.points)[newId := Point(name)]
    {
      if IsKotlinBlank(name) {
        return Failure(Invalid(NameMissing));
      }
      if InUse(manager.points, NameOf, name) {
        return Failure(AlreadyExists(PointExists(name)));
      }
      var v := NotBlank("name", name);
      if v != {} {
        return Failure(ConstraintViolations(v));
      }
      assert manager.points - {newId} == manager.points;
      StoreKeepsUnique(manager.points, NameOf, newId, Point(name));
      manager.points := manager.points[newId := Point(name)];
      r := Success(PointResponse(newId, name));
    }

    /** read: every stored point (`select p from Point p`). */
    function Read(): (r: map<nat, PointResponse>)
      reads manager
      ensures |r| == |manager.points|
      ensures forall k :: k in manager.points <==> k in r
      ensures forall k :: k in r ==> r[k] == PointResponse(k, manager.points[k].name)
    {
      var r := map k | k in manager.points :: PointResponse(k, manager.points[k].name);
      assert r.Keys == manager.points.Keys;
      r
    }
  }
}
