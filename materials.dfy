/** Materials: items identified by a code under the material_code_uk unique constraint,
    each with an NCM (the Mercosur tariff code) whose description is fetched from the
    Siscomex NCM search when the material is created or updated. */
module Materials {
  import opened Common
  import opened Text
  import opened Validation
  import opened ValidUuid
  import opened Tables
  import opened StringUtils

  /** The stored columns of a material. */
  datatype MaterialRecord = MaterialRecord(
    code: string,
    description: string,
    ncm: string,
    unitPrice: Decimal,
    pricerPerThousand: bool,
    preShipmentLicense: bool,
    planning: string,
    ncmDescription: Option<string>)

  function CodeOf(r: MaterialRecord): string {
    r.code
  }

  /** The text @Pattern(regexp = "[0-9]{8}") accepts: the whole value is eight digits. */
  predicate IsNcm(s: string) {
    |s| == 8 && AllDigits(s)
  }

  /** Eight digits are never blank, so the pattern makes the NCM's @NotBlank redundant. */
  lemma NcmNotBlank(s: string)
    ensures IsNcm(s) ==> !IsBlank(s)
  {
    if IsNcm(s) {
      assert IsDigit(s[0]);
    }
  }

  const NcmPatternMessage := "must match \"[0-9]{8}\""

  /** The field constraints of the entity and of both requests: a code, a description of
      at most 100 characters, an eight-digit NCM, a positive unit price and a planning. */
  predicate WellFormed(r: MaterialRecord) {
    && !IsBlank(r.code)
    && !IsBlank(r.description) && |r.description| <= 100
    && IsNcm(r.ncm)
    && IsPositive(r.unitPrice)
    && !IsBlank(r.planning)
  }

  datatype NewMaterialRequest = NewMaterialRequest(
    code: string,
    description: string,
    ncm: string,
    unitPrice: Decimal,
    pricerPerThousand: bool,
    preShipmentLicense: bool,
    planning: string)

  datatype UpdateMaterialRequest = UpdateMaterialRequest(
    description: string,
    ncm: string,
    unitPrice: Decimal,
    pricerPerThousand: bool,
    preShipmentLicense: bool,
    planning: string)

  /** NewMaterialRequest.toModel, with the entity's initial state: the seven fields are
      copied and there is no NCM description yet. */
  function ToModel(request: NewMaterialRequest): (r: MaterialRecord)
    ensures r.code == request.code && r.description == request.description && r.ncm == request.ncm
    ensures r.unitPrice == request.unitPrice && r.planning == request.planning
    ensures r.pricerPerThousand == request.pricerPerThousand && r.preShipmentLicense == request.preShipmentLicense
    ensures r.ncmDescription.None?
  {
    MaterialRecord(request.code, request.description, request.ncm, request.unitPrice,
      request.pricerPerThousand, request.preShipmentLicense, request.planning, None)
  }

  /** What Material.update makes of a row: six fields come from the request; the code
      and the NCM description stay. */
  function Updated(r: MaterialRecord, request: UpdateMaterialRequest): MaterialRecord {
    r.(description := request.description, ncm := request.ncm, planning := request.planning,
       preShipmentLicense := request.preShipmentLicense, pricerPerThousand := request.pricerPerThousand,
       unitPrice := request.unitPrice)
  }

  /** @Pattern(regexp = "[0-9]{8}") on the NCM. */
  function NcmViolations(field: string, s: string): (r: set<Violation>)
    ensures r == {} <==> IsNcm(s)
  {
    if IsNcm(s) then {} else {Violation(field, NcmPatternMessage)}
  }

  /** @Positive on a BigDecimal. */
  function PositiveViolations(field: string, d: Decimal): (r: set<Violation>)
    ensures r == {} <==> IsPositive(d)
  {
    if IsPositive(d) then {} else {Violation(field, MustBePositive)}
  }

  /** The violations the constraints of a NewMaterialRequest report. */
  function NewMaterialViolations(request: NewMaterialRequest): (v: set<Violation>)
    ensures v == {} <==> WellFormed(ToModel(request))
  {
    NcmNotBlank(request.ncm);
    NotBlank("code", request.code)
    + NotBlank("description", request.description) + Size("description", |request.description|, 0, 100)
    + NotBlank("ncm", request.ncm) + Size("ncm", |request.ncm|, 0, 10) + NcmViolations("ncm", request.ncm)
    + PositiveViolations("unitPrice", request.unitPrice)
    + NotBlank("planning", request.planning)
  }

  /** The violations the entity's field constraints report when a row is written: those
      of the request, except that the NCM column allows at most 8 characters. */
  function EntityViolations(r: MaterialRecord): (v: set<Violation>)
    ensures v == {} <==> WellFormed(r)
  {
    NcmNotBlank(r.ncm);
    NotBlank("code", r.code)
    + NotBlank("description", r.description) + Size("description", |r.description|, 0, 100)
    + NotBlank("ncm", r.ncm) + Size("ncm", |r.ncm|, 0, 8) + NcmViolations("ncm", r.ncm)
    + PositiveViolations("unitPrice", r.unitPrice)
    + NotBlank("planning", r.planning)
  }

  /** A well-formed material for the examples. */
  const SampleMaterial := MaterialRecord("M-001", "Valve", "84818099", Decimal(1, 0), false, false, "PL01", None)

  lemma SampleMaterialWellFormed()
    ensures WellFormed(SampleMaterial)
  {
    assert AllDigits("84818099") by {
      forall i | 0 <= i < 8 ensures IsDigit("84818099"[i]) { }
    }
    assert "M-001"[0] == 'M' && "Valve"[0] == 'V' && "PL01"[0] == 'P';
  }

  /** The violations the constraints of an UpdateMaterialRequest report: none exactly
      when applying the request keeps every well-formed row well formed. */
  function UpdateMaterialViolations(request: UpdateMaterialRequest): (v: set<Violation>)
    ensures v == {} <==> forall r :: WellFormed(r) ==> WellFormed(Updated(r, request))
  {
    NcmNotBlank(request.ncm);
    SampleMaterialWellFormed();
    assert (forall r :: WellFormed(r) ==> WellFormed(Updated(r, request))) ==> WellFormed(Updated(SampleMaterial, request));
    NotBlank("description", request.description) + Size("description", |request.description|, 0, 100)
    + NotBlank("ncm", request.ncm) + Size("ncm", |request.ncm|, 0, 10) + NcmViolations("ncm", request.ncm)
    + PositiveViolations("unitPrice", request.unitPrice)
    + NotBlank("planning", request.planning)
  }

  /** The request the gRPC client builds with no field set: the blank texts and the
      BigDecimal.ZERO that MaterialExtensions substitutes for a blank price report six
      violations. */
  lemma EmptyRequestViolations()
    ensures NewMaterialViolations(NewMaterialRequest("", "", "", Decimal(0, 0), false, false, "")) ==
      {Violation("code", MustNotBeBlank), Violation("description", MustNotBeBlank),
       Violation("ncm", MustNotBeBlank), Violation("ncm", NcmPatternMessage),
       Violation("unitPrice", MustBePositive), Violation("planning", MustNotBeBlank)}
    ensures EntityViolations(ToModel(NewMaterialRequest("", "", "", Decimal(0, 0), false, false, ""))) ==
      NewMaterialViolations(NewMaterialRequest("", "", "", Decimal(0, 0), false, false, ""))
  {
  }

  function MaterialExists(code: string): string {
    "Material with code " + code + " already exists"
  }

  function NcmNotFound(ncm: string): string {
    "Ncm " + ncm + " not found in Siscomex"
  }

  function MaterialNotFound(id: string): string {
    "Material not found for id " + id
  }

  const FilterFieldMissing := "NCM must be informed for a filter"

  /** The case of the gRPC request's search oneof. */
  datatype SearchMaterialCase = CaseCode | CaseNcm | CaseDescription | CaseNotSet

  datatype SearchMaterialFilter = CODE | NCM | DESCRIPTION | ELSE

  /** SearchMaterialFilter.from: the filter whose grpcSearch is the case, and ELSE for
      the not-set case and for null. */
  function From(c: Option<SearchMaterialCase>): (f: SearchMaterialFilter)
    ensures c == Some(CaseCode) <==> f == CODE
    ensures c == Some(CaseNcm) <==> f == NCM
    ensures c == Some(CaseDescription) <==> f == DESCRIPTION
    ensures c.None? || c == Some(CaseNotSet) <==> f == ELSE
  {
    match c
    case Some(CaseCode) => CODE
    case Some(CaseNcm) => NCM
    case Some(CaseDescription) => DESCRIPTION
    case _ => ELSE
  }

  datatype ReadMaterialRequest = ReadMaterialRequest(
    filter: SearchMaterialFilter,
    pageable: Pageable,
    code: Option<string>,
    ncm: Option<string>,
    description: Option<string>)

  /** The column the filter selects on holds text. */
  predicate HasFilterText(request: ReadMaterialRequest) {
    match request.filter
    case CODE => request.code.Some? && !IsKotlinBlank(request.code.value)
    case NCM => request.ncm.Some? && !IsKotlinBlank(request.ncm.value)
    case DESCRIPTION => request.description.Some? && !IsKotlinBlank(request.description.value)
    case ELSE => true
  }

  /** The constructor of ReadMaterialRequest with its init check: a code, NCM or
      description filter without text is refused, always with the same message. */
  function NewReadRequest(filter: SearchMaterialFilter, pageable: Pageable,
                          code: Option<string>, ncm: Option<string>, description: Option<string>): (r: Result<ReadMaterialRequest>)
    ensures r.Success? <==> HasFilterText(ReadMaterialRequest(filter, pageable, code, ncm, description))
    ensures r.Success? ==> r.value == ReadMaterialRequest(filter, pageable, code, ncm, description)
    ensures r.Failure? ==> r.error == Invalid(FilterFieldMissing)
    ensures filter == ELSE ==> r.Success?
  {
    var request := ReadMaterialRequest(filter, pageable, code, ncm, description);
    if HasFilterText(request) then Success(request) else Failure(Invalid(FilterFieldMissing))
  }

  /** The row matches the request: equal code, equal NCM, a description containing the
      text, or anything for ELSE. */
  predicate Matches(request: ReadMaterialRequest, r: MaterialRecord)
    requires HasFilterText(request)
  {
    match request.filter
    case CODE => r.code == request.code.value
    case NCM => r.ncm == request.ncm.value
    case DESCRIPTION => Contains(r.description, request.description.value)
    case ELSE => true
  }

  /** MaterialService.read: the repository query the filter picks, with the request's
      page request. */
  function Search(request: ReadMaterialRequest, rows: map<Id, MaterialRecord>): (p: Page<MaterialRecord>)
    requires HasFilterText(request)
    ensures p.pageable == request.pageable
    ensures forall k :: k in p.matches ==> k in rows && p.matches[k] == rows[k]
    ensures request.filter == CODE ==> forall k :: k in rows ==> (k in p.matches <==> rows[k].code == request.code.value)
    ensures request.filter == NCM ==> forall k :: k in rows ==> (k in p.matches <==> rows[k].ncm == request.ncm.value)
    ensures request.filter == DESCRIPTION ==>
      forall k :: k in rows ==> (k in p.matches <==> exists i :: OccursAt(rows[k].description, request.description.value, i))
    ensures request.filter == ELSE ==> p.matches == rows
  {
    forall k | k in rows {
      ContainsIffOccurs(rows[k].description, if request.description.Some? then request.description.value else "");
    }
    Page(map k | k in rows && Matches(request, rows[k]) :: rows[k], request.pageable)
  }

  /** Codes are unique, so a code filter finds at most one material. */
  lemma SearchByCodeFindsAtMostOne(request: ReadMaterialRequest, rows: map<Id, MaterialRecord>)
    requires HasFilterText(request) && request.filter == CODE && Unique(rows, CodeOf)
    ensures |Search(request, rows).matches| <= 1
  {
    var found := Search(request, rows).matches;
    if k :| k in found {
      assert found.Keys == {k} by {
        forall j | j in found ensures j == k {
          assert CodeOf(rows[j]) == CodeOf(rows[k]);
        }
      }
      assert |found| == |found.Keys|;
    }
  }

  /** The table invariant on the rows alone: every row meets the entity's constraints
      and codes are unique. */
  ghost predicate RowsValid(rows: map<Id, MaterialRecord>) {
    (forall k :: k in rows ==> WellFormed(rows[k])) && Unique(rows, CodeOf)
  }

  /** save of a well-formed row under a new key with a free code keeps the invariant. */
  lemma StoreKeepsRowsValid(rows: map<Id, MaterialRecord>, k: Id, v: MaterialRecord)
    requires RowsValid(rows) && k !in rows && WellFormed(v) && !InUse(rows, CodeOf, v.code)
    ensures RowsValid(rows[k := v])
  {
    assert rows - {k} == rows;
    StoreKeepsUnique(rows, CodeOf, k, v);
  }

  /** Rewriting a stored row with a well-formed one of the same code keeps the invariant. */
  lemma RewriteKeepsRowsValid(rows: map<Id, MaterialRecord>, k: Id, v: MaterialRecord)
    requires RowsValid(rows) && k in rows && WellFormed(v) && v.code == rows[k].code
    ensures RowsValid(rows[k := v])
  {
    RewriteKeepsUnique(rows, CodeOf, k, v);
  }

  /** Removing a row keeps the invariant. */
  lemma RemoveKeepsRowsValid(rows: map<Id, MaterialRecord>, k: Id)
    requires RowsValid(rows)
    ensures RowsValid(rows - {k})
  {
    RemoveKeepsUnique(rows, CodeOf, k);
  }

  class Material {
    const id: Id
    const code: string
    var description: string
    var ncm: string
    var unitPrice: Decimal
    var pricerPerThousand: bool
    var preShipmentLicense: bool
    var planning: string
    var ncmDescription: Option<string>

    /** The entity built by toModel: no NCM description yet. */
    constructor (id: Id, request: NewMaterialRequest)
      ensures this.id == id && Record() == ToModel(request)
      ensures ncmDescription.None?
    {
      this.id := id;
      this.code := request.code;
      this.description := request.description;
      this.ncm := request.ncm;
      this.unitPrice := request.unitPrice;
      this.pricerPerThousand := request.pricerPerThousand;
      this.preShipmentLicense := request.preShipmentLicense;
      this.planning := request.planning;
      this.ncmDescription := None;
    }

    function Record(): MaterialRecord
      reads this
    {
      MaterialRecord(code, description, ncm, unitPrice, pricerPerThousand, preShipmentLicense, planning, ncmDescription)
    }

    /** Material.update: six fields are reassigned. */
    method Update(request: UpdateMaterialRequest)
      modifies this
      ensures Record() == Updated(old(Record()), request)
    {
      this.description := request.description;
      this.ncm := request.ncm;
      this.planning := request.planning;
      this.preShipmentLicense := request.preShipmentLicense;
      this.pricerPerThousand := request.pricerPerThousand;
      this.unitPrice := request.unitPrice;
    }

    /** Material.updateNcmDescription: only the NCM description changes. */
    method UpdateNcmDescription(ncmDescription: string)
      modifies this
      ensures Record() == old(Record()).(ncmDescription := Some(ncmDescription))
    {
      this.ncmDescription := Some(ncmDescription);
    }
  }

  /** The material service. The Siscomex NCM search is the parameter `search`: for an
      NCM it gives the `nomeExtenso` of each answer, in order. */
  class MaterialService {
    var materials: map<Id, Material>

    constructor ()
      ensures materials == map[] && Valid()
    {
      materials := map[];
    }

    function Rows(): map<Id, MaterialRecord>
      reads this, materials.Values
    {
      map k | k in materials :: materials[k].Record()
    }

    /** Each material is filed under its own id and the rows keep the table invariant. */
    ghost predicate Valid()
      reads this, materials.Values
    {
      (forall k :: k in materials ==> materials[k].id == k) && RowsValid(Rows())
    }

    /** create: the code check, then the NCM search, then save, where the entity's
        constraints are checked before the row is written; the row's NCM description is
        the first answer's. */
    method Create(request: NewMaterialRequest, newId: Id, search: string -> seq<string>) returns (r: Result<Material>)
      requires Valid() && newId !in materials
      modifies this
      ensures Valid()
      ensures InUse(old(Rows()), CodeOf, request.code) ==> r == Failure(AlreadyExists(MaterialExists(request.code)))
      ensures !InUse(old(Rows()), CodeOf, request.code) && search(request.ncm) == [] ==>
        r == Failure(Invalid(NcmNotFound(request.ncm)))
      ensures !InUse(old(Rows()), CodeOf, request.code) && search(request.ncm) != [] && !WellFormed(ToModel(request)) ==>
        r == Failure(ConstraintViolations(EntityViolations(ToModel(request))))
      ensures r.Failure? ==> materials == old(materials) && Rows() == old(Rows())
      ensures !InUse(old(Rows()), CodeOf, request.code) && search(request.ncm) != [] && WellFormed(ToModel(request)) ==>
        && r.Success? && fresh(r.value) && r.value.id == newId
        && materials == old(materials)[newId := r.value]
        && Rows() == old(Rows())[newId := ToModel(request).(ncmDescription := Some(search(request.ncm)[0]))]
    {
      if InUse(Rows(), CodeOf, request.code) {
        return Failure(AlreadyExists(MaterialExists(request.code)));
      }
      var response := search(request.ncm);
      if response == [] {
        return Failure(Invalid(NcmNotFound(request.ncm)));
      }
      ghost var before := Rows();
      var material := new Material(newId, request);
      material.UpdateNcmDescription(response[0]);
      assert Rows() == before;
      var v := EntityViolations(material.Record());
      if v != {} {
        return Failure(ConstraintViolations(v));
      }
      Insert(material);
      r := Success(material);
    }

    /** save: the new material is filed under its id and nothing else changes. */
    method Insert(material: Material)
      requires Valid() && material.id !in materials && material !in materials.Values
      requires WellFormed(material.Record()) && !InUse(Rows(), CodeOf, material.code)
      modifies this
      ensures Valid()
      ensures materials == old(materials)[material.id := material]
      ensures Rows() == old(Rows())[material.id := material.Record()]
    {
      ghost var before := Rows();
      materials := materials[material.id := material];
      assert Rows() == before[material.id := material.Record()];
      StoreKeepsRowsValid(before, material.id, material.Record());
    }

    /** update: the id text is parsed and looked up, then the NCM search; the NCM
        description becomes the first answer's and six fields the request's. The entity's
        constraints are checked when the transaction writes the row, and a violation rolls
        the change back. */
    method Update(request: UpdateMaterialRequest, id: string, search: string -> seq<string>) returns (r: Result<Material>)
      requires Valid()
      modifies materials.Values
      ensures Valid() && materials == old(materials)
      ensures ParseUuid(id).Failure? ==> r == Failure(Invalid(InvalidUuid(id)))
      ensures ParseUuid(id).Success? && ParseUuid(id).value !in materials ==> r == Failure(NotFound(MaterialNotFound(id)))
      ensures ParseUuid(id).Success? && ParseUuid(id).value in materials && search(request.ncm) == [] ==>
        r == Failure(Invalid(NcmNotFound(request.ncm)))
      ensures ParseUuid(id).Success? && ParseUuid(id).value in materials && search(request.ncm) != [] ==>
        var updated := Updated(old(Rows())[ParseUuid(id).value], request);
        !WellFormed(updated) ==> r == Failure(ConstraintViolations(EntityViolations(updated)))
      ensures r.Failure? ==> Rows() == old(Rows())
      ensures ParseUuid(id).Success? && ParseUuid(id).value in materials && search(request.ncm) != [] ==>
        var key := ParseUuid(id).value;
        WellFormed(Updated(old(Rows())[key], request)) ==>
        && r == Success(materials[key])
        && Rows() == old(Rows())[key := Updated(old(Rows())[key], request).(ncmDescription := Some(search(request.ncm)[0]))]
    {
      var parsed := ParseUuid(id);
      if parsed.Failure? {
        return Failure(parsed.error);
      }
      var key := parsed.value;
      if key !in materials {
        return Failure(NotFound(MaterialNotFound(id)));
      }
      var material := materials[key];
      var response := search(request.ncm);
      if response == [] {
        return Failure(Invalid(NcmNotFound(request.ncm)));
      }
      ghost var before := Rows();
      var updated := Updated(material.Record(), request).(ncmDescription := Some(response[0]));
      var v := EntityViolations(updated);
      if v != {} {
        return Failure(ConstraintViolations(v));
      }
      material.UpdateNcmDescription(response[0]);
      material.Update(request);
      assert Rows() == before[key := material.Record()] by {
        forall k | k in materials && k != key ensures materials[k] != material {
          assert materials[k].id == k;
        }
      }
      RewriteKeepsRowsValid(before, key, material.Record());
      r := Success(material);
    }

    /** read: the search the request's filter picks. */
    function Read(request: ReadMaterialRequest): (p: Page<MaterialRecord>)
      requires HasFilterText(request)
      reads this, materials.Values
      ensures p == Search(request, Rows())
      ensures request.filter == ELSE ==> |p.matches| == |materials|
    {
      assert Rows().Keys == materials.Keys;
      Search(request, Rows())
    }

    /** delete: the id text is parsed and looked up; the row is removed. */
    method Delete(id: string) returns (r: Result<Material>)
      requires Valid()
      modifies this
      ensures Valid()
      ensures ParseUuid(id).Failure? ==> r == Failure(Invalid(InvalidUuid(id)))
      ensures ParseUuid(id).Success? && ParseUuid(id).value !in old(materials) ==>
        r == Failure(NotFound(MaterialNotFound(id)))
      ensures r.Failure? ==> materials == old(materials) && Rows() == old(Rows())
      ensures ParseUuid(id).Success? && ParseUuid(id).value in old(materials) ==>
        var key := ParseUuid(id).value;
        && r == Success(old(materials)[key])
        && materials == old(materials) - {key}
        && Rows() == old(Rows()) - {key}
    {
      var parsed := ParseUuid(id);
      if parsed.Failure? {
        return Failure(parsed.error);
      }
      var key := parsed.value;
      if key !in materials {
        return Failure(NotFound(MaterialNotFound(id)));
      }
      ghost var before := Rows();
      var material := materials[key];
      materials := materials - {key};
      assert Rows() == before - {key};
      RemoveKeepsRowsValid(before, key);
      r := Success(material);
    }
  }
}
