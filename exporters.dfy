/** Exporters: companies identified by a code under the exporter_code_uk unique
    constraint, with commercial terms that ExporterService.update rewrites and lead times
    that never change after creation. */
module Exporters {
  import opened Common
  import opened Text
  import opened Validation
  import opened ValidUuid
  import opened Tables

  /** A constant of one of the persisted enums PaymentTerms, Incoterm and Currency,
      by name (their declarations are not part of this model). */
  type EnumName = string

  /** The stored columns of an exporter. */
  datatype ExporterRecord = ExporterRecord(
    code: string,
    name: string,
    paymentTerms: EnumName,
    address: Address,
    incoterm: EnumName,
    currency: EnumName,
    availabilityLT: int,
    departureLT: int,
    arrivalLT: int,
    totalLT: int)

  /** The field constraints of the entity: a code of 1 to 8 characters, a name, a full
      address and lead times that are not negative. */
  predicate WellFormed(r: ExporterRecord) {
    && !IsBlank(r.code) && |r.code| <= 8
    && !IsBlank(r.name)
    && AddressComplete(r.address)
    && r.availabilityLT >= 0 && r.departureLT >= 0 && r.arrivalLT >= 0 && r.totalLT >= 0
  }

  function CodeOf(r: ExporterRecord): string {
    r.code
  }

  /** The request of create; the enums and lead times are nullable. */
  datatype NewExporterRequest = NewExporterRequest(
    code: string,
    name: string,
    paymentTerms: Option<EnumName>,
    address: Address,
    incoterm: Option<EnumName>,
    currency: Option<EnumName>,
    availabilityLT: Option<int>,
    departureLT: Option<int>,
    arrivalLT: Option<int>,
    totalLT: Option<int>)

  /** The request of update; its lead times are validated but not applied. */
  datatype UpdateExporterRequest = UpdateExporterRequest(
    name: string,
    paymentTerms: Option<EnumName>,
    address: Address,
    incoterm: Option<EnumName>,
    currency: Option<EnumName>,
    availabilityLT: int,
    departureLT: int,
    arrivalLT: int,
    totalLT: int)

  predicate HasEnums(request: NewExporterRequest) {
    request.paymentTerms.Some? && request.incoterm.Some? && request.currency.Some?
  }

  predicate HasLeadTimes(request: NewExporterRequest) {
    && request.availabilityLT.Some? && request.departureLT.Some?
    && request.arrivalLT.Some? && request.totalLT.Some?
  }

  predicate UpdateHasEnums(request: UpdateExporterRequest) {
    request.paymentTerms.Some? && request.incoterm.Some? && request.currency.Some?
  }

  /** NewExporterRequest.toModel: every field is copied; the `!!` on the enums is why a
      request without them cannot be converted. */
  function ToModel(request: NewExporterRequest): (r: ExporterRecord)
    requires HasEnums(request) && HasLeadTimes(request)
    ensures r.code == request.code && r.name == request.name && r.address == request.address
    ensures Some(r.paymentTerms) == request.paymentTerms && Some(r.incoterm) == request.incoterm
    ensures Some(r.currency) == request.currency
    ensures Some(r.availabilityLT) == request.availabilityLT && Some(r.departureLT) == request.departureLT
    ensures Some(r.arrivalLT) == request.arrivalLT && Some(r.totalLT) == request.totalLT
  {
    ExporterRecord(request.code, request.name, request.paymentTerms.value, request.address,
      request.incoterm.value, request.currency.value, request.availabilityLT.value,
      request.departureLT.value, request.arrivalLT.value, request.totalLT.value)
  }

  /** @NotNull together with @PositiveOrZero on a nullable lead time. */
  function LeadTimeViolations(field: string, v: Option<int>): (r: set<Violation>)
    ensures r == {} <==> v.Some? && v.value >= 0
  {
    NotNull(field, v) + (if v.Some? then PositiveOrZero(field, v.value) else {})
  }

  /** The violations @Valid reports for a NewExporterRequest. */
  function NewExporterViolations(request: NewExporterRequest): (v: set<Violation>)
    ensures v == {} <==> HasEnums(request) && HasLeadTimes(request) && WellFormed(ToModel(request))
  {
    NotBlank("code", request.code) + Size("code", |request.code|, 0, 8)
    + NotBlank("name", request.name)
    + NotNull("paymentTerms", request.paymentTerms)
    + AddressViolations(request.address)
    + NotNull("incoterm", request.incoterm)
    + NotNull("currency", request.currency)
    + LeadTimeViolations("availabilityLT", request.availabilityLT)
    + LeadTimeViolations("departureLT", request.departureLT)
    + LeadTimeViolations("arrivalLT", request.arrivalLT)
    + LeadTimeViolations("totalLT", request.totalLT)
  }

  /** The violations @Valid reports for an UpdateExporterRequest. */
  function UpdateViolations(request: UpdateExporterRequest): (v: set<Violation>)
    ensures v == {} <==>
      && UpdateHasEnums(request) && !IsBlank(request.name) && AddressComplete(request.address)
      && request.availabilityLT >= 0 && request.departureLT >= 0
      && request.arrivalLT >= 0 && request.totalLT >= 0
  {
    NotBlank("name", request.name)
    + NotNull("paymentTerms", request.paymentTerms)
    + AddressViolations(request.address)
    + NotNull("incoterm", request.incoterm)
    + NotNull("currency", request.currency)
    + PositiveOrZero("availabilityLT", request.availabilityLT)
    + PositiveOrZero("departureLT", request.departureLT)
    + PositiveOrZero("arrivalLT", request.arrivalLT)
    + PositiveOrZero("totalLT", request.totalLT)
  }

  /** What Exporter.update makes of a row: the address, the name and the three enums
      come from the request; the code and the lead times stay. */
  function Updated(r: ExporterRecord, request: UpdateExporterRequest): ExporterRecord
    requires UpdateHasEnums(request)
  {
    r.(address := request.address, name := request.name, paymentTerms := request.paymentTerms.value,
       incoterm := request.incoterm.value, currency := request.currency.value)
  }

  /** A validated update keeps a row well formed and keeps its code and lead times, so
      it can never break the code constraint or make a lead time negative. */
  lemma UpdatedKeepsWellFormed(r: ExporterRecord, request: UpdateExporterRequest)
    requires WellFormed(r) && UpdateViolations(request) == {}
    ensures WellFormed(Updated(r, request))
    ensures CodeOf(Updated(r, request)) == CodeOf(r)
    ensures Updated(r, request).availabilityLT == r.availabilityLT && Updated(r, request).departureLT == r.departureLT
    ensures Updated(r, request).arrivalLT == r.arrivalLT && Updated(r, request).totalLT == r.totalLT
  {
  }

  function ExporterExists(code: string): string {
    "Exporter already exists with code " + code
  }

  function ExporterNotFound(id: string): string {
    "Exporter not found with id " + id
  }

  /** ExporterService.read: every exporter for a blank name, otherwise the exporters
      with exactly that name. */
  function Query(name: string, rows: map<Id, ExporterRecord>): (r: map<Id, ExporterRecord>)
    ensures r.Keys <= rows.Keys
    ensures forall k :: k in r ==> r[k] == rows[k]
    ensures IsKotlinBlank(name) ==> r == rows
    ensures !IsKotlinBlank(name) ==> forall k :: k in rows ==> (k in r <==> rows[k].name == name)
  {
    if IsKotlinBlank(name) then rows
    else map k | k in rows && rows[k].name == name :: rows[k]
  }

  /** The table invariant on the rows alone: every row meets the entity's constraints
      and codes are unique. */
  ghost predicate RowsValid(rows: map<Id, ExporterRecord>) {
    (forall k :: k in rows ==> WellFormed(rows[k])) && Unique(rows, CodeOf)
  }

  /** persist of a well-formed row under a new key with a free code keeps the invariant. */
  lemma StoreKeepsRowsValid(rows: map<Id, ExporterRecord>, k: Id, v: ExporterRecord)
    requires RowsValid(rows) && k !in rows && WellFormed(v) && !InUse(rows, CodeOf, v.code)
    ensures RowsValid(rows[k := v])
  {
    assert rows - {k} == rows;
    StoreKeepsUnique(rows, CodeOf, k, v);
  }

  /** Exporter.update on a stored row keeps the invariant. */
  lemma UpdateKeepsRowsValid(rows: map<Id, ExporterRecord>, k: Id, request: UpdateExporterRequest)
    requires RowsValid(rows) && k in rows && UpdateViolations(request) == {}
    ensures RowsValid(rows[k := Updated(rows[k], request)])
  {
    UpdatedKeepsWellFormed(rows[k], request);
    RewriteKeepsUnique(rows, CodeOf, k, Updated(rows[k], request));
  }

  /** Removing a row keeps the invariant. */
  lemma RemoveKeepsRowsValid(rows: map<Id, ExporterRecord>, k: Id)
    requires RowsValid(rows)
    ensures RowsValid(rows - {k})
  {
    RemoveKeepsUnique(rows, CodeOf, k);
  }

  class Exporter {
    const id: Id
    const code: string
    var name: string
    var paymentTerms: EnumName
    var address: Address
    var incoterm: EnumName
    var currency: EnumName
    const availabilityLT: int
    const departureLT: int
    const arrivalLT: int
    const totalLT: int

    constructor (id: Id, r: ExporterRecord)
      ensures this.id == id && Record() == r
    {
      this.id := id;
      this.code := r.code;
      this.name := r.name;
      this.paymentTerms := r.paymentTerms;
      this.address := r.address;
      this.incoterm := r.incoterm;
      this.currency := r.currency;
      this.availabilityLT := r.availabilityLT;
      this.departureLT := r.departureLT;
      this.arrivalLT := r.arrivalLT;
      this.totalLT := r.totalLT;
    }

    function Record(): ExporterRecord
      reads this
    {
      ExporterRecord(code, name, paymentTerms, address, incoterm, currency,
        availabilityLT, departureLT, arrivalLT, totalLT)
    }

    /** Exporter.update: five fields are reassigned. */
    method Update(request: UpdateExporterRequest)
      requires UpdateHasEnums(request)
      modifies this
      ensures Record() == Updated(old(Record()), request)
    {
      this.address := request.address;
      this.name := request.name;
      this.paymentTerms := request.paymentTerms.value;
      this.incoterm := request.incoterm.value;
      this.currency := request.currency.value;
    }
  }

  class ExporterService {
    var exporters: map<Id, Exporter>

    constructor ()
      ensures exporters == map[] && Valid()
    {
      exporters := map[];
    }

    function Rows(): map<Id, ExporterRecord>
      reads this, exporters.Values
    {
      map k | k in exporters :: exporters[k].Record()
    }

    /** Each exporter is filed under its own id, and the rows keep the table invariant. */
    ghost predicate Valid()
      reads this, exporters.Values
    {
      (forall k :: k in exporters ==> exporters[k].id == k) && RowsValid(Rows())
    }

    /** create: validation, then the code constraint (a duplicate is refused when the row
        is flushed), then one row. */
    method Create(request: NewExporterRequest, newId: Id) returns (r: Result<Exporter>)
      requires Valid() && newId !in exporters
      modifies this
      ensures Valid()
      ensures NewExporterViolations(request) != {} ==>
        r == Failure(ConstraintViolations(NewExporterViolations(request)))
      ensures NewExporterViolations(request) == {} && InUse(old(Rows()), CodeOf, request.code) ==>
        r == Failure(AlreadyExists(ExporterExists(request.code)))
      ensures r.Failure? ==> exporters == old(exporters) && Rows() == old(Rows())
      ensures NewExporterViolations(request) == {} && !InUse(old(Rows()), CodeOf, request.code) ==>
        && r.Success? && fresh(r.value) && r.value.id == newId
        && exporters == old(exporters)[newId := r.value]
        && Rows() == old(Rows())[newId := ToModel(request)]
    {
      var v := NewExporterViolations(request);
      if v != {} {
        return Failure(ConstraintViolations(v));
      }
      if InUse(Rows(), CodeOf, request.code) {
        return Failure(AlreadyExists(ExporterExists(request.code)));
      }
      ghost var before := Rows();
      var exporter := new Exporter(newId, ToModel(request));
      assert Rows() == before;
      Insert(exporter);
      assert Rows() == before[newId := ToModel(request)];
      r := Success(exporter);
    }

    /** persist: the new exporter is filed under its id and nothing else changes. */
    method Insert(exporter: Exporter)
      requires Valid() && exporter.id !in exporters && exporter !in exporters.Values
      requires WellFormed(exporter.Record()) && !InUse(Rows(), CodeOf, exporter.code)
      modifies this
      ensures Valid()
      ensures exporters == old(exporters)[exporter.id := exporter]
      ensures Rows() == old(Rows())[exporter.id := exporter.Record()]
    {
      ghost var before := Rows();
      exporters := exporters[exporter.id := exporter];
      assert Rows() == before[exporter.id := exporter.Record()];
      StoreKeepsRowsValid(before, exporter.id, exporter.Record());
    }

    /** read: the query on a blank or an exact name. */
    function Read(name: string): (r: map<Id, ExporterRecord>)
      reads this, exporters.Values
      ensures r == Query(name, Rows())
      ensures IsKotlinBlank(name) ==> |r| == |exporters|
    {
      assert Rows().Keys == exporters.Keys;
      Query(name, Rows())
    }

    /** update: validation, then the id text is parsed and looked up, then five fields of
        the found exporter are rewritten. */
    method Update(request: UpdateExporterRequest, id: string) returns (r: Result<Exporter>)
      requires Valid()
      modifies exporters.Values
      ensures Valid() && exporters == old(exporters)
      ensures UpdateViolations(request) != {} ==> r == Failure(ConstraintViolations(UpdateViolations(request)))
      ensures UpdateViolations(request) == {} && ParseUuid(id).Failure? ==> r == Failure(Invalid(InvalidUuid(id)))
      ensures UpdateViolations(request) == {} && ParseUuid(id).Success? && ParseUuid(id).value !in exporters ==>
        r == Failure(Invalid(ExporterNotFound(id)))
      ensures r.Failure? ==> Rows() == old(Rows())
      ensures UpdateViolations(request) == {} && ParseUuid(id).Success? && ParseUuid(id).value in exporters ==>
        var key := ParseUuid(id).value;
        && r == Success(exporters[key])
        && Rows() == old(Rows())[key := Updated(old(Rows())[key], request)]
    {
      var v := UpdateViolations(request);
      if v != {} {
        return Failure(ConstraintViolations(v));
      }
      var parsed := ParseUuid(id);
      if parsed.Failure? {
        return Failure(parsed.error);
      }
      var key := parsed.value;
      if key !in exporters {
        return Failure(Invalid(ExporterNotFound(id)));
      }
      var exporter := exporters[key];
      ghost var before := Rows();
      exporter.Update(request);
      assert Rows() == before[key := exporter.Record()] by {
        forall k | k in exporters && k != key ensures exporters[k] != exporter {
          assert exporters[k].id == k;
        }
      }
      UpdateKeepsRowsValid(before, key, request);
      r := Success(exporter);
    }

    /** delete: the id text is parsed and looked up; the row is removed. */
    method Delete(id: string) returns (r: Result<Exporter>)
      requires Valid()
      modifies this
      ensures Valid()
      ensures ParseUuid(id).Failure? ==> r == Failure(Invalid(InvalidUuid(id)))
      ensures ParseUuid(id).Success? && ParseUuid(id).value !in old(exporters) ==>
        r == Failure(Invalid(ExporterNotFound(id)))
      ensures r.Failure? ==> exporters == old(exporters) && Rows() == old(Rows())
      ensures ParseUuid(id).Success? && ParseUuid(id).value in old(exporters) ==>
        var key := ParseUuid(id).value;
        && r == Success(old(exporters)[key])
        && exporters == old(exporters) - {key}
        && Rows() == old(Rows()) - {key}
    {
      var parsed := ParseUuid(id);
      if parsed.Failure? {
        return Failure(parsed.error);
      }
      var key := parsed.value;
      if key !in exporters {
        return Failure(Invalid(ExporterNotFound(id)));
      }
      ghost var before := Rows();
      var exporter := exporters[key];
      exporters := exporters - {key};
      assert Rows() == before - {key};
      RemoveKeepsRowsValid(before, key);
      r := Success(exporter);
    }
  }
}
