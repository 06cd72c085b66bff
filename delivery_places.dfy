/** Delivery places: a table of names under the delivery_place_name_uk unique
    constraint, served by DeliveryPlaceEndpoint (the wired path, with its own checks) and
    by DeliveryPlaceService. */
module DeliveryPlaces {
  import opened Common
  import opened Text
  import opened Validation
  import opened ValidUuid
  import opened Tables

  /** A delivery place is never changed after it is stored. */
  datatype DeliveryPlace = DeliveryPlace(name: string)

  /** What create and delete answer and read lists: the id and the name. */
  datatype PlaceResponse = PlaceResponse(id: Id, name: string)

  function NameOf(p: DeliveryPlace): string {
    p.name
  }

  const NameMissing := "Name must be informed"

  function EndpointNameExists(name: string): string {
    "Delivery place already exists with name " + name
  }

  function EndpointNotFound(id: string): string {
    "Delivery place not found with id " + id
  }

  function ServiceNameExists(name: string): string {
    "Delivery Place already exists with name " + name
  }

  function ServiceNotFound(id: string): string {
    "Delivery Place not found with id " + id
  }

  /** The violations @Valid reports for a NewDeliveryPlaceRequest. */
  function NewPlaceViolations(name: string): (v: set<Violation>)
    ensures v == {} <==> !IsBlank(name)
  {
    NotBlank("name", name)
  }

  /** The read response: one entry per stored place, with its name. */
  function Responses(rows: map<Id, DeliveryPlace>): (r: map<Id, PlaceResponse>)
    ensures r.Keys == rows.Keys && |r| == |rows|
    ensures forall k :: k in r ==> r[k] == PlaceResponse(k, rows[k].name)
  {
    var r := map k | k in rows :: PlaceResponse(k, rows[k].name);
    assert r.Keys == rows.Keys;
    r
  }

  class DeliveryPlaceRepository {
    var places: map<Id, DeliveryPlace>

    constructor ()
      ensures places == map[] && Valid()
    {
      places := map[];
    }

    /** Names are unique, and every stored name passes the entity's @NotBlank. */
    ghost predicate Valid()
      reads this
    {
      Unique(places, NameOf) && forall k :: k in places ==> !IsBlank(places[k].name)
    }
  }

  /** The gRPC endpoint, which checks the request itself and uses the repository. */
  class DeliveryPlaceEndpoint {
    const repository: DeliveryPlaceRepository

    constructor (repository: DeliveryPlaceRepository)
      ensures this.repository == repository
    {
      this.repository := repository;
    }

    /** create: a Kotlin-blank name is refused before the uniqueness check; then save
        validates the entity, whose @NotBlank refuses a name that trims to empty; then
        one row. */
    method Create(name: string, newId: Id) returns (r: Result<PlaceResponse>)
      requires repository.Valid() && newId !in repository.places
      modifies repository
      ensures repository.Valid()
      ensures IsKotlinBlank(name) ==> r == Failure(Invalid(NameMissing))
      ensures !IsKotlinBlank(name) && InUse(old(repository.places), NameOf, name) ==>
        r == Failure(AlreadyExists(EndpointNameExists(name)))
      ensures !IsKotlinBlank(name) && !InUse(old(repository.places), NameOf, name) && IsBlank(name) ==>
        r == Failure(ConstraintViolations(NotBlank("name", name)))
      ensures r.Failure? ==> repository.places == old(repository.places)
      ensures !IsKotlinBlank(name) && !InUse(old(repository.places), NameOf, name) && !IsBlank(name) ==>
        && r == Success(PlaceResponse(newId, name))
        && repository.places == old(repository.places)[newId := DeliveryPlace(name)]
    {
      if IsKotlinBlank(name) {
        return Failure(Invalid(NameMissing));
      }
      if InUse(repository.places, NameOf, name) {
        return Failure(AlreadyExists(EndpointNameExists(name)));
      }
      var v := NotBlank("name", name);
      if v != {} {
        return Failure(ConstraintViolations(v));
      }
      assert repository.places - {newId} == repository.places;
      StoreKeepsUnique(repository.places, NameOf, newId, DeliveryPlace(name));
      repository.places := repository.places[newId := DeliveryPlace(name)];
      r := Success(PlaceResponse(newId, name));
    }

    /** read: every stored place. */
    function Read(): (r: map<Id, PlaceResponse>)
      reads repository
      ensures |r| == |repository.places|
      ensures forall k :: k in repository.places <==> k in r
      ensures forall k :: k in r ==> r[k].id == k && r[k].name == repository.places[k].name
    {
      Responses(repository.places)
    }

    /** delete: the id text is parsed, then looked up; the row is removed. */
    method Delete(id: string) returns (r: Result<PlaceResponse>)
      requires repository.Valid()
      modifies repository
      ensures repository.Valid()
      ensures ParseUuid(id).Failure? ==> r == Failure(Invalid(InvalidUuid(id)))
      ensures ParseUuid(id).Success? && ParseUuid(id).value !in old(repository.places) ==>
        r == Failure(NotFound(EndpointNotFound(id)))
      ensures r.Failure? ==> repository.places == old(repository.places)
      ensures ParseUuid(id).Success? && ParseUuid(id).value in old(repository.places) ==>
        var key := ParseUuid(id).value;
        && r == Success(PlaceResponse(key, old(repository.places)[key].name))
        && repository.places == old(repository.places) - {key}
    {
      var parsed := ParseUuid(id);
      if parsed.Failure? {
        return Failure(parsed.error);
      }
      var key := parsed.value;
      if key !in repository.places {
        return Failure(NotFound(EndpointNotFound(id)));
      }
      var place := repository.places[key];
      RemoveKeepsUnique(repository.places, NameOf, key);
      repository.places := repository.places - {key};
      r := Success(PlaceResponse(key, place.name));
    }
  }

  /** DeliveryPlaceService: the same table behind Bean Validation, with its own messages. */
  class DeliveryPlaceService {
    const repository: DeliveryPlaceRepository

    constructor (repository: DeliveryPlaceRepository)
      ensures this.repository == repository
    {
      this.repository := repository;
    }

    /** create: validation, then the uniqueness check, then one row. */
    method Create(name: string, newId: Id) returns (r: Result<PlaceResponse>)
      requires repository.Valid() && newId !in repository.places
      modifies repository
      ensures repository.Valid()
      ensures IsBlank(name) ==> r == Failure(ConstraintViolations(NewPlaceViolations(name)))
      ensures !IsBlank(name) && InUse(old(repository.places), NameOf, name) ==>
        r == Failure(AlreadyExists(ServiceNameExists(name)))
      ensures r.Failure? ==> repository.places == old(repository.places)
      ensures !IsBlank(name) && !InUse(old(repository.places), NameOf, name) ==>
        && r == Success(PlaceResponse(newId, name))
        && repository.places == old(repository.places)[newId := DeliveryPlace(name)]
    {
      var v := NewPlaceViolations(name);
      if v != {} {
        return Failure(ConstraintViolations(v));
      }
      if InUse(repository.places, NameOf, name) {
        return Failure(AlreadyExists(ServiceNameExists(name)));
      }
      assert repository.places - {newId} == repository.places;
      StoreKeepsUnique(repository.places, NameOf, newId, DeliveryPlace(name));
      repository.places := repository.places[newId := DeliveryPlace(name)];
      r := Success(PlaceResponse(newId, name));
    }

    /** read: the whole table, unfiltered. */
    function Read(): (r: map<Id, DeliveryPlace>)
      reads repository
      ensures r.Keys == repository.places.Keys && |r| == |repository.places|
      ensures forall k :: k in r ==> r[k] == repository.places[k]
    {
      repository.places
    }

    /** delete: the id text is parsed, then looked up; the row is removed. */
    method Delete(id: string) returns (r: Result<PlaceResponse>)
      requires repository.Valid()
      modifies repository
      ensures repository.Valid()
      ensures ParseUuid(id).Failure? ==> r == Failure(Invalid(InvalidUuid(id)))
      ensures ParseUuid(id).Success? && ParseUuid(id).value !in old(repository.places) ==>
        r == Failure(NotFound(ServiceNotFound(id)))
      ensures r.Failure? ==> repository.places == old(repository.places)
      ensures ParseUuid(id).Success? && ParseUuid(id).value in old(repository.places) ==>
        var key := ParseUuid(id).value;
        && r == Success(PlaceResponse(key, old(repository.places)[key].name))
        && repository.places == old(repository.places) - {key}
    {
      var parsed := ParseUuid(id);
      if parsed.Failure? {
        return Failure(parsed.error);
      }
      var key := parsed.value;
      if key !in repository.places {
        return Failure(NotFound(ServiceNotFound(id)));
      }
      var place := repository.places[key];
      RemoveKeepsUnique(repository.places, NameOf, key);
      repository.places := repository.places - {key};
      r := Success(PlaceResponse(key, place.name));
    }
  }
}
