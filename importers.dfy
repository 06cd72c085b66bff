/** Importers: plants identified by a code under the importer_plant_uk unique
    constraint; only the address changes after creation. */
module Importers {
  import opened Common
  import opened Text
  import opened Validation
  import opened ValidUuid
  import opened Tables

  /** The stored columns of an importer. */
  datatype ImporterRecord = ImporterRecord(plant: string, fiscalName: string, fiscalNumber: string, address: Address)

  const CnpjPatternMessage := "must match \"([0-9]{2}[.]?[0-9]{3}[.]?[0-9]{3}[/]?[0-9]{4}[-]?[0-9]{2})\""

  /** The separator the pattern allows after d digits: '.' after 2 and 5, '/' after 8,
      '-' after 12. */
  predicate SeparatorFits(d: nat, c: char) {
    (d == 2 && c == '.') || (d == 5 && c == '.') || (d == 8 && c == '/') || (d == 12 && c == '-')
  }

  /** s[i..] completes a match of ([0-9]{2}[.]?[0-9]{3}[.]?[0-9]{3}[/]?[0-9]{4}[-]?[0-9]{2})
      after d digits have been read, `taken` telling whether the separator after them
      was read already. */
  predicate CnpjFrom(s: string, i: nat, d: nat, taken: bool)
    decreases |s| - i
  {
    if i >= |s| then d == 14
    else if IsDigit(s[i]) then d < 14 && CnpjFrom(s, i + 1, d + 1, false)
    else !taken && SeparatorFits(d, s[i]) && CnpjFrom(s, i + 1, d, true)
  }

  /** The whole of s matches the CNPJ pattern. */
  predicate IsCnpj(s: string) {
    CnpjFrom(s, 0, 0, false)
  }

  /** The separators still allowed after d digits. */
  function SeparatorsLeft(d: nat, taken: bool): nat {
    (if d < 2 || (d == 2 && !taken) then 1 else 0)
    + (if d < 5 || (d == 5 && !taken) then 1 else 0)
    + (if d < 8 || (d == 8 && !taken) then 1 else 0)
    + (if d < 12 || (d == 12 && !taken) then 1 else 0)
  }

  function DigitCount(s: string): (n: nat)
    ensures n <= |s|
  {
    if s == [] then 0 else (if IsDigit(s[0]) then 1 else 0) + DigitCount(s[1..])
  }

  lemma {:induction false} DigitCountAppend(a: string, b: string)
    ensures DigitCount(a + b) == DigitCount(a) + DigitCount(b)
    decreases |a|
  {
    if a != [] {
      assert (a + b)[1..] == a[1..] + b;
      DigitCountAppend(a[1..], b);
    } else {
      assert a + b == b;
    }
  }

  lemma {:induction false} AllDigitsCount(s: string)
    requires AllDigits(s)
    ensures DigitCount(s) == |s|
  {
    if s != [] {
      AllDigitsCount(s[1..]);
    }
  }

  /** What remains of a match holds the missing digits and at most the separators
      still allowed. */
  lemma {:induction false} CnpjFromCount(s: string, i: nat, d: nat, taken: bool)
    requires i <= |s| && d <= 14 && CnpjFrom(s, i, d, taken)
    ensures DigitCount(s[i..]) == 14 - d
    ensures 14 - d <= |s| - i <= 14 - d + SeparatorsLeft(d, taken)
    decreases |s| - i
  {
    if i < |s| {
      assert s[i..] == [s[i]] + s[i + 1..];
      DigitCountAppend([s[i]], s[i + 1..]);
      if IsDigit(s[i]) {
        CnpjFromCount(s, i + 1, d + 1, false);
      } else {
        CnpjFromCount(s, i + 1, d, true);
      }
    }
  }

  /** A number @CNPJ accepts has 14 digits and 14 to 18 characters. */
  lemma CnpjHasFourteenDigits(s: string)
    requires IsCnpj(s)
    ensures DigitCount(s) == 14 && 14 <= |s| <= 18
  {
    CnpjFromCount(s, 0, 0, false);
    assert s[0..] == s;
  }

  lemma {:induction false} PlainCnpjFrom(s: string, i: nat)
    requires |s| == 14 && AllDigits(s) && i <= 14
    ensures CnpjFrom(s, i, i, false)
    decreases 14 - i
  {
    if i < 14 {
      PlainCnpjFrom(s, i + 1);
    }
  }

  /** Fourteen digits without separators match. */
  lemma PlainCnpj(s: string)
    requires |s| == 14 && AllDigits(s)
    ensures IsCnpj(s)
  {
    PlainCnpjFrom(s, 0);
  }

  /** The test's number, plain and punctuated, matches; the empty text does not. */
  lemma CnpjExamples()
    ensures IsCnpj("27679970000111")
    ensures IsCnpj("27.679.970/0001-11")
    ensures !IsCnpj("")
  {
    PlainCnpj("27679970000111");
    var p := "27.679.970/0001-11";
    assert CnpjFrom(p, 15, 12, false);
    assert CnpjFrom(p, 10, 8, false);
    assert CnpjFrom(p, 6, 5, false);
  }

  function CnpjViolations(field: string, s: string): (r: set<Violation>)
    ensures r == {} <==> IsCnpj(s)
  {
    if IsCnpj(s) then {} else {Violation(field, CnpjPatternMessage)}
  }

  /** The constraints every stored importer meets: a plant of 1 to 4 characters, a fiscal
      name, a fiscal number of the CNPJ pattern and a full address. */
  predicate WellFormed(r: ImporterRecord) {
    && !IsBlank(r.plant) && |r.plant| <= 4
    && !IsBlank(r.fiscalName) && !IsBlank(r.fiscalNumber) && IsCnpj(r.fiscalNumber)
    && AddressComplete(r.address)
  }

  function PlantOf(r: ImporterRecord): string {
    r.plant
  }

  /** The request of create, with the fiscal name and number the entity's constructor
      needs. */
  datatype NewImporterRequest = NewImporterRequest(plant: string, fiscalName: string, fiscalNumber: string, address: Address)

  datatype UpdateImporterRequest = UpdateImporterRequest(address: Address)

  /** The violations @Valid reports for a NewImporterRequest. */
  function NewImporterViolations(request: NewImporterRequest): (v: set<Violation>)
    ensures v == {} <==> WellFormed(ToModel(request))
  {
    NotBlank("plant", request.plant) + Size("plant", |request.plant|, 0, 4)
    + NotBlank("fiscalName", request.fiscalName)
    + NotBlank("fiscalNumber", request.fiscalNumber) + CnpjViolations("fiscalNumber", request.fiscalNumber)
    + AddressViolations(request.address)
  }

  /** The violations @Valid reports for an UpdateImporterRequest. */
  function UpdateViolations(request: UpdateImporterRequest): (v: set<Violation>)
    ensures v == {} <==> AddressComplete(request.address)
  {
    AddressViolations(request.address)
  }

  /** An empty request is refused field by field, the fiscal number twice. */
  lemma EmptyRequestViolations()
    ensures NewImporterViolations(NewImporterRequest("", "", "", Address("", "", "", ""))) ==
      {Violation("plant", MustNotBeBlank), Violation("street", MustNotBeBlank),
       Violation("city", MustNotBeBlank), Violation("country", MustNotBeBlank),
       Violation("zipCode", MustNotBeBlank), Violation("fiscalName", MustNotBeBlank),
       Violation("fiscalNumber", MustNotBeBlank), Violation("fiscalNumber", CnpjPatternMessage)}
  {
  }

  /** NewImporterRequest.toModel: the fields are copied. */
  function ToModel(request: NewImporterRequest): (r: ImporterRecord)
    ensures r.plant == request.plant && r.address == request.address
    ensures r.fiscalName == request.fiscalName && r.fiscalNumber == request.fiscalNumber
  {
    ImporterRecord(request.plant, request.fiscalName, request.fiscalNumber, request.address)
  }

  function ImporterExists(plant: string): string {
    "Importer already exists with plant " + plant
  }

  function ImporterNotFound(id: string): string {
    "Importer not found with id " + id
  }

  /** ImporterService.read: every importer for a blank plant, otherwise the importers
      with exactly that plant (at most one, see QueryByPlantFindsAtMostOne). */
  function Query(plant: string, rows: map<Id, ImporterRecord>): (r: map<Id, ImporterRecord>)
    ensures r.Keys <= rows.Keys
    ensures forall k :: k in r ==> r[k] == rows[k]
    ensures IsKotlinBlank(plant) ==> r == rows
    ensures !IsKotlinBlank(plant) ==> forall k :: k in rows ==> (k in r <==> rows[k].plant == plant)
  {
    if IsKotlinBlank(plant) then rows
    else map k | k in rows && rows[k].plant == plant :: rows[k]
  }

  /** Plants are unique, so a plant filter finds at most one importer. */
  lemma QueryByPlantFindsAtMostOne(rows: map<Id, ImporterRecord>, plant: string)
    requires Unique(rows, PlantOf) && !IsKotlinBlank(plant)
    ensures |Query(plant, rows)| <= 1
  {
    var found := Query(plant, rows);
    if k :| k in found {
      assert found.Keys == {k} by {
        forall j | j in found ensures j == k {
          assert PlantOf(rows[j]) == plant && PlantOf(rows[k]) == plant;
        }
      }
      assert |found| == |found.Keys|;
    }
  }

  /** The table invariant on the rows alone: every row meets the request constraints
      and plants are unique. */
  ghost predicate RowsValid(rows: map<Id, ImporterRecord>) {
    (forall k :: k in rows ==> WellFormed(rows[k])) && Unique(rows, PlantOf)
  }

  /** persist of a well-formed row under a new key with a free plant keeps the invariant. */
  lemma StoreKeepsRowsValid(rows: map<Id, ImporterRecord>, k: Id, v: ImporterRecord)
    requires RowsValid(rows) && k !in rows && WellFormed(v) && !InUse(rows, PlantOf, v.plant)
    ensures RowsValid(rows[k := v])
  {
    assert rows - {k} == rows;
    StoreKeepsUnique(rows, PlantOf, k, v);
  }

  /** Importer.update with a complete address keeps the invariant. */
  lemma UpdateKeepsRowsValid(rows: map<Id, ImporterRecord>, k: Id, address: Address)
    requires RowsValid(rows) && k in rows && AddressComplete(address)
    ensures RowsValid(rows[k := rows[k].(address := address)])
  {
    RewriteKeepsUnique(rows, PlantOf, k, rows[k].(address := address));
  }

  /** Removing a row keeps the invariant. */
  lemma RemoveKeepsRowsValid(rows: map<Id, ImporterRecord>, k: Id)
    requires RowsValid(rows)
    ensures RowsValid(rows - {k})
  {
    RemoveKeepsUnique(rows, PlantOf, k);
  }

  class Importer {
    const id: Id
    const plant: string
    const fiscalName: string
    const fiscalNumber: string
    var address: Address

    constructor (id: Id, r: ImporterRecord)
      ensures this.id == id && Record() == r
    {
      this.id := id;
      this.plant := r.plant;
      this.fiscalName := r.fiscalName;
      this.fiscalNumber := r.fiscalNumber;
      this.address := r.address;
    }

    function Record(): ImporterRecord
      reads this
    {
      ImporterRecord(plant, fiscalName, fiscalNumber, address)
    }

    /** Importer.update: the address becomes the request's; nothing else changes. */
    method Update(request: UpdateImporterRequest)
      modifies this
      ensures Record() == old(Record()).(address := request.address)
    {
      this.address := request.address;
    }
  }

  class ImporterService {
    var importers: map<Id, Importer>

    constructor ()
      ensures importers == map[] && Valid()
    {
      importers := map[];
    }

    function Rows(): map<Id, ImporterRecord>
      reads this, importers.Values
    {
      map k | k in importers :: importers[k].Record()
    }

    /** Each importer is filed under its own id, and the rows keep the table invariant. */
    ghost predicate Valid()
      reads this, importers.Values
    {
      (forall k :: k in importers ==> importers[k].id == k) && RowsValid(Rows())
    }

    /** create: validation, then the plant constraint, then one row. */
    method Create(request: NewImporterRequest, newId: Id) returns (r: Result<Importer>)
      requires Valid() && newId !in importers
      modifies this
      ensures Valid()
      ensures NewImporterViolations(request) != {} ==>
        r == Failure(ConstraintViolations(NewImporterViolations(request)))
      ensures NewImporterViolations(request) == {} && InUse(old(Rows()), PlantOf, request.plant) ==>
        r == Failure(AlreadyExists(ImporterExists(request.plant)))
      ensures r.Failure? ==> importers == old(importers) && Rows() == old(Rows())
      ensures NewImporterViolations(request) == {} && !InUse(old(Rows()), PlantOf, request.plant) ==>
        && r.Success? && fresh(r.value) && r.value.id == newId
        && importers == old(importers)[newId := r.value]
        && Rows() == old(Rows())[newId := ToModel(request)]
    {
      var v := NewImporterViolations(request);
      if v != {} {
        return Failure(ConstraintViolations(v));
      }
      if InUse(Rows(), PlantOf, request.plant) {
        return Failure(AlreadyExists(ImporterExists(request.plant)));
      }
      ghost var before := Rows();
      var importer := new Importer(newId, ToModel(request));
      assert Rows() == before;
      Insert(importer);
      assert Rows() == before[newId := ToModel(request)];
      r := Success(importer);
    }

    /** persist: the new importer is filed under its id and nothing else changes. */
    method Insert(importer: Importer)
      requires Valid() && importer.id !in importers && importer !in importers.Values
      requires WellFormed(importer.Record()) && !InUse(Rows(), PlantOf, importer.plant)
      modifies this
      ensures Valid()
      ensures importers == old(importers)[importer.id := importer]
      ensures Rows() == old(Rows())[importer.id := importer.Record()]
    {
      ghost var before := Rows();
      importers := importers[importer.id := importer];
      assert Rows() == before[importer.id := importer.Record()];
      StoreKeepsRowsValid(before, importer.id, importer.Record());
    }

    /** read: the query on a blank or an exact plant. */
    function Read(plant: string): (r: map<Id, ImporterRecord>)
      reads this, importers.Values
      ensures r == Query(plant, Rows())
      ensures IsKotlinBlank(plant) ==> |r| == |importers|
    {
      assert Rows().Keys == importers.Keys;
      Query(plant, Rows())
    }

    /** update: validation, then the id text is parsed and looked up, then the address of
        the found importer is replaced. */
    method Update(request: UpdateImporterRequest, id: string) returns (r: Result<Importer>)
      requires Valid()
      modifies importers.Values
      ensures Valid() && importers == old(importers)
      ensures UpdateViolations(request) != {} ==> r == Failure(ConstraintViolations(UpdateViolations(request)))
      ensures UpdateViolations(request) == {} && ParseUuid(id).Failure? ==> r == Failure(Invalid(InvalidUuid(id)))
      ensures UpdateViolations(request) == {} && ParseUuid(id).Success? && ParseUuid(id).value !in importers ==>
        r == Failure(Invalid(ImporterNotFound(id)))
      ensures r.Failure? ==> Rows() == old(Rows())
      ensures UpdateViolations(request) == {} && ParseUuid(id).Success? && ParseUuid(id).value in importers ==>
        var key := ParseUuid(id).value;
        && r == Success(importers[key])
        && importers[key].address == request.address
        && Rows() == old(Rows())[key := old(Rows())[key].(address := request.address)]
    {
      var v := UpdateViolations(request);
      if v != {} {
        return Failure(ConstraintViolations(v));
      }
      var parsed := ParseUuid(id);
      if parsed.Failure? {
        return Failure(parsed.error);
      }
      var key := parsed.value;
      if key !in importers {
        return Failure(Invalid(ImporterNotFound(id)));
      }
      var importer := importers[key];
      Rewrite(key, request);
      r := Success(importer);
    }

    /** The update of a stored importer: its address becomes the request's, no other row
        changes, and the table invariant is kept. */
    method Rewrite(key: Id, request: UpdateImporterRequest)
      requires Valid() && key in importers && AddressComplete(request.address)
      modifies importers[key]
      ensures Valid() && importers == old(importers)
      ensures importers[key].address == request.address
      ensures Rows() == old(Rows())[key := old(Rows())[key].(address := request.address)]
    {
      var importer := importers[key];
      ghost var before := Rows();
      importer.Update(request);
      assert Rows() == before[key := importer.Record()] by {
        forall k | k in importers && k != key ensures importers[k] != importer {
          assert importers[k].id == k;
        }
      }
      UpdateKeepsRowsValid(before, key, request.address);
    }

    /** delete: the id text is parsed and looked up; the row is removed. */
    method Delete(id: string) returns (r: Result<Importer>)
      requires Valid()
      modifies this
      ensures Valid()
      ensures ParseUuid(id).Failure? ==> r == Failure(Invalid(InvalidUuid(id)))
      ensures ParseUuid(id).Success? && ParseUuid(id).value !in old(importers) ==>
        r == Failure(Invalid(ImporterNotFound(id)))
      ensures r.Failure? ==> importers == old(importers) && Rows() == old(Rows())
      ensures ParseUuid(id).Success? && ParseUuid(id).value in old(importers) ==>
        var key := ParseUuid(id).value;
        && r == Success(old(importers)[key])
        && importers == old(importers) - {key}
        && Rows() == old(Rows()) - {key}
    {
      var parsed := ParseUuid(id);
      if parsed.Failure? {
        return Failure(parsed.error);
      }
      var key := parsed.value;
      if key !in importers {
        return Failure(Invalid(ImporterNotFound(id)));
      }
      ghost var before := Rows();
      var importer := importers[key];
      importers := importers - {key};
      assert Rows() == before - {key};
      RemoveKeepsRowsValid(before, key);
      r := Success(importer);
    }
  }
}
