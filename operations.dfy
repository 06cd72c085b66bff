/** Operations: a (country, type) pair under the operation_country_type_uk unique
    constraint, created, listed and deleted by OperationEndpoint's inline checks. */
module Operations {
  import opened Common
  import opened Text
  import opened Validation
  import opened ValidUuid
  import opened Tables
  import opened StringUtils

  /** The persisted enum. */
  datatype OperationType = IMPORT | EXPORT

  /** The enum of the gRPC message: its zero value is UNKNOWN, and a number the
      client does not know arrives as UNRECOGNIZED. */
  datatype GrpcOperationType = GrpcUnknown | GrpcImport | GrpcExport | GrpcUnrecognized

  function GrpcName(t: GrpcOperationType): string {
    match t
    case GrpcUnknown => "UNKNOWN"
    case GrpcImport => "IMPORT"
    case GrpcExport => "EXPORT"
    case GrpcUnrecognized => "UNRECOGNIZED"
  }

  function TypeName(t: OperationType): string {
    match t
    case IMPORT => "IMPORT"
    case EXPORT => "EXPORT"
  }

  /** The constants of OperationType by name, as enumValueOf resolves them. */
  const OperationTypes: map<string, OperationType> := map["IMPORT" := IMPORT, "EXPORT" := EXPORT]

  /** Every operation type converts back from its name. */
  lemma ToEnumOfTypeName(t: OperationType)
    ensures ToEnum(TypeName(t), OperationTypes) == Success(Some(t))
  {
  }

  /** The converter on the gRPC enum's names: UNKNOWN is null, IMPORT and EXPORT are the
      matching constants, UNRECOGNIZED cannot be converted. */
  lemma ToEnumOfGrpcNames()
    ensures ToEnum(GrpcName(GrpcUnknown), OperationTypes) == Success(None)
    ensures ToEnum(GrpcName(GrpcImport), OperationTypes) == Success(Some(IMPORT))
    ensures ToEnum(GrpcName(GrpcExport), OperationTypes) == Success(Some(EXPORT))
    ensures ToEnum(GrpcName(GrpcUnrecognized), OperationTypes) == Failure(Invalid(EnumParseError))
  {
    assert GrpcName(GrpcUnrecognized) != UnknownSentinel && "UNRECOGNIZED" !in OperationTypes;
  }

  datatype Operation = Operation(country: string, operationType: OperationType)

  datatype NewOperationRequest = NewOperationRequest(country: string, grpcType: GrpcOperationType)

  datatype OperationResponse = OperationResponse(id: Id, country: string, typeName: string)

  function CountryAndType(o: Operation): (string, OperationType) {
    (o.country, o.operationType)
  }

  const CountryMissing := "Country must not be blank"
  const TypeMissing := "Type must not be blank"
  const IdMissing := "Id must not be blank"

  function OperationExists(country: string, grpcType: GrpcOperationType): string {
    "Operation with country " + country + " and type " + GrpcName(grpcType) + " already exists"
  }

  function OperationNotFound(id: string): string {
    "Operation not found with id " + id
  }

  function Response(id: Id, o: Operation): OperationResponse {
    OperationResponse(id, o.country, TypeName(o.operationType))
  }

  /** The order in which create refuses a request, before the table is consulted:
      a blank country, then a type that does not convert, then an UNKNOWN type. */
  function CreateRequestError(request: NewOperationRequest): (e: Option<Error>)
    ensures e.None? <==> !IsKotlinBlank(request.country) && (request.grpcType.GrpcImport? || request.grpcType.GrpcExport?)
    ensures IsKotlinBlank(request.country) ==> e == Some(Invalid(CountryMissing))
    ensures !IsKotlinBlank(request.country) && request.grpcType.GrpcUnknown? ==> e == Some(Invalid(TypeMissing))
    ensures !IsKotlinBlank(request.country) && request.grpcType.GrpcUnrecognized? ==> e == Some(Invalid(EnumParseError))
  {
    ToEnumOfGrpcNames();
    if IsKotlinBlank(request.country) then Some(Invalid(CountryMissing))
    else
      match ToEnum(GrpcName(request.grpcType), OperationTypes)
      case Failure(err) => Some(err)
      case Success(None) => Some(Invalid(TypeMissing))
      case Success(Some(_)) => None
  }

  /** The type a request that passed the checks asks for. */
  function RequestedType(request: NewOperationRequest): (t: OperationType)
    requires request.grpcType.GrpcImport? || request.grpcType.GrpcExport?
    ensures TypeName(t) == GrpcName(request.grpcType)
  {
    if request.grpcType.GrpcImport? then IMPORT else EXPORT
  }

  class OperationRepository {
    var operations: map<Id, Operation>

    constructor ()
      ensures operations == map[] && Valid()
    {
      operations := map[];
    }

    /** (country, type) pairs are unique, and every stored country passes the entity's
        @NotBlank. */
    ghost predicate Valid()
      reads this
    {
      Unique(operations, CountryAndType) && forall k :: k in operations ==> !IsBlank(operations[k].country)
    }
  }

  class OperationEndpoint {
    const repository: OperationRepository

    constructor (repository: OperationRepository)
      ensures this.repository == repository
    {
      this.repository := repository;
    }

    /** create: the request checks, then the (country, type) check; then save validates
        the entity, whose @NotBlank refuses a country that trims to empty; then one row. */
    method Create(request: NewOperationRequest, newId: Id) returns (r: Result<OperationResponse>)
      requires repository.Valid() && newId !in repository.operations
      modifies repository
      ensures repository.Valid()
      ensures CreateRequestError(request).Some? ==> r == Failure(CreateRequestError(request).value)
      ensures CreateRequestError(request).None? &&
              InUse(old(repository.operations), CountryAndType, (request.country, RequestedType(request))) ==>
        r == Failure(AlreadyExists(OperationExists(request.country, request.grpcType)))
      ensures CreateRequestError(request).None? &&
              !InUse(old(repository.operations), CountryAndType, (request.country, RequestedType(request))) &&
              IsBlank(request.country) ==>
        r == Failure(ConstraintViolations(NotBlank("country", request.country)))
      ensures r.Failure? ==> repository.operations == old(repository.operations)
      ensures CreateRequestError(request).None? &&
              !InUse(old(repository.operations), CountryAndType, (request.country, RequestedType(request))) &&
              !IsBlank(request.country) ==>
        var o := Operation(request.country, RequestedType(request));
        && r == Success(Response(newId, o))
        && repository.operations == old(repository.operations)[newId := o]
    {
      if IsKotlinBlank(request.country) {
        return Failure(Invalid(CountryMissing));
      }
      var converted := ToEnum(GrpcName(request.grpcType), OperationTypes);
      if converted.Failure? {
        return Failure(converted.error);
      }
      if converted.value.None? {
        return Failure(Invalid(TypeMissing));
      }
      var t := converted.value.value;
      ToEnumOfGrpcNames();
      assert t == RequestedType(request);
      var o := Operation(request.country, t);
      if InUse(repository.operations, CountryAndType, CountryAndType(o)) {
        return Failure(AlreadyExists(OperationExists(request.country, request.grpcType)));
      }
      var v := NotBlank("country", o.country);
      if v != {} {
        return Failure(ConstraintViolations(v));
      }
      assert repository.operations - {newId} == repository.operations;
      StoreKeepsUnique(repository.operations, CountryAndType, newId, o);
      repository.operations := repository.operations[newId := o];
      r := Success(Response(newId, o));
    }

    /** read: every stored operation, possibly none. */
    function Read(): (r: map<Id, OperationResponse>)
      reads repository
      ensures |r| == |repository.operations|
      ensures forall k :: k in repository.operations <==> k in r
      ensures forall k :: k in r ==> r[k] == Response(k, repository.operations[k])
    {
      var r := map k | k in repository.operations :: Response(k, repository.operations[k]);
      assert r.Keys == repository.operations.Keys;
      r
    }

    /** delete: a blank id is refused, then the id text is parsed and looked up. */
    method Delete(id: string) returns (r: Result<OperationResponse>)
      requires repository.Valid()
      modifies repository
      ensures repository.Valid()
      ensures IsKotlinBlank(id) ==> r == Failure(Invalid(IdMissing))
      ensures !IsKotlinBlank(id) && ParseUuid(id).Failure? ==> r == Failure(Invalid(InvalidUuid(id)))
      ensures !IsKotlinBlank(id) && ParseUuid(id).Success? && ParseUuid(id).value !in old(repository.operations) ==>
        r == Failure(NotFound(OperationNotFound(id)))
      ensures r.Failure? ==> repository.operations == old(repository.operations)
      ensures !IsKotlinBlank(id) && ParseUuid(id).Success? && ParseUuid(id).value in old(repository.operations) ==>
        var key := ParseUuid(id).value;
        && r == Success(Response(key, old(repository.operations)[key]))
        && repository.operations == old(repository.operations) - {key}
    {
      if IsKotlinBlank(id) {
        return Failure(Invalid(IdMissing));
      }
      var parsed := ParseUuid(id);
      if parsed.Failure? {
        return Failure(parsed.error);
      }
      var key := parsed.value;
      if key !in repository.operations {
        return Failure(NotFound(OperationNotFound(id)));
      }
      var o := repository.operations[key];
      RemoveKeepsUnique(repository.operations, CountryAndType, key);
      repository.operations := repository.operations - {key};
      r := Success(Response(key, o));
    }
  }

  /** The constraint covers the pair: an import and an export operation for the same
      country can be stored together. */
  lemma SameCountryBothTypes(a: Id, b: Id, country: string)
    requires a != b
    ensures Unique(map[a := Operation(country, IMPORT), b := Operation(country, EXPORT)], CountryAndType)
  {
  }

  /** The message of a refused duplicate, for the request the endpoint test sends. */
  lemma DuplicateMessageExample()
    ensures OperationExists("Brazil", GrpcImport) == "Operation with country Brazil and type IMPORT already exists"
  {
  }
}
