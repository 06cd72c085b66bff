/** Order reads: the closed family of filters, their field constraints, the query each
    runs, and the choice of a filter from a read request. */
module OrderFilters {
  import opened Common
  import opened Text
  import opened Validation
  import opened ValidUuid
  import opened Tables
  import opened Orders

  /** Every kind of order read: one variant per query. */
  datatype Filter =
    | ByDestination(destination: string)
    | ByOrigin(origin: string)
    | ByExporter(exporterId: string)
    | ByImporter(importerId: string)
    | ByNumber(number: string)
    | Neutral

  /** What a filter without violations satisfies. */
  predicate FilterValid(f: Filter) {
    match f
    case ByDestination(d) => !IsBlank(d)
    case ByOrigin(o) => !IsBlank(o)
    case ByExporter(e) => IsUuid(e)
    case ByImporter(i) => IsUuid(i)
    case ByNumber(n) => !IsBlank(n) && 10 <= |n| <= IntMax
    case Neutral => true
  }

  /** The violations validation reports for a filter's own field. */
  function FilterViolations(f: Filter): (v: set<Violation>)
    ensures v == {} <==> FilterValid(f)
  {
    match f
    case ByDestination(d) => NotBlank("destination", d)
    case ByOrigin(o) => NotBlank("origin", o)
    case ByExporter(e) => IdViolations("exporterId", e)
    case ByImporter(i) => IdViolations("importerId", i)
    case ByNumber(n) => NotBlank("number", n) + Size("number", |n|, 10, IntMax)
    case Neutral => {}
  }

  /** A blank exporter or importer id reports both the blank and the pattern violation. */
  lemma BlankIdFilterViolations(s: string)
    requires IsBlank(s)
    ensures FilterViolations(ByExporter(s)) == {Violation("exporterId", MustNotBeBlank), Violation("exporterId", PatternMessage)}
    ensures FilterViolations(ByImporter(s)) == {Violation("importerId", MustNotBeBlank), Violation("importerId", PatternMessage)}
  {
    BlankIdHasTwoViolations("exporterId", s);
    BlankIdHasTwoViolations("importerId", s);
  }

  /** What the queries demand: an exporter or importer id UUID.fromString accepts. */
  predicate Runnable(f: Filter) {
    match f
    case ByExporter(e) => ParseUuid(e).Success?
    case ByImporter(i) => ParseUuid(i).Success?
    case _ => true
  }

  /** The rows a filter's query returns: equality on destination, origin or number, the
      exporter's or importer's key, or every row. */
  predicate Selects(f: Filter, r: OrderRecord)
    requires Runnable(f)
  {
    match f
    case ByDestination(d) => r.destination == d
    case ByOrigin(o) => r.origin == o
    case ByExporter(e) => r.exporter.id == ParseUuid(e).value
    case ByImporter(i) => r.importer.id == ParseUuid(i).value
    case ByNumber(n) => r.number == n
    case Neutral => true
  }

  /** filter(repository, pageable): the matching orders, with the pageable passed on
      unchanged. */
  function Execute(f: Filter, pageable: Pageable, rows: map<Id, OrderRecord>): (p: Page<OrderRecord>)
    requires Runnable(f)
    ensures p.pageable == pageable
    ensures p.matches.Keys <= rows.Keys
    ensures forall k :: k in p.matches ==> p.matches[k] == rows[k]
    ensures forall k :: k in rows ==> (k in p.matches <==> Selects(f, rows[k]))
    ensures f == Neutral ==> p.matches == rows
  {
    Page(map k | k in rows && Selects(f, rows[k]) :: rows[k], pageable)
  }

  /** A valid exporter or importer filter selects the orders whose exporter or importer
      has exactly the filter's id. */
  lemma ValidIdFilterSelects(f: Filter, r: OrderRecord)
    requires (f.ByExporter? || f.ByImporter?) && FilterValid(f)
    ensures Runnable(f)
    ensures f.ByExporter? ==> (Selects(f, r) <==> r.exporter.id == f.exporterId)
    ensures f.ByImporter? ==> (Selects(f, r) <==> r.importer.id == f.importerId)
  {
    if f.ByExporter? {
      ParseValidUuid(f.exporterId);
    } else {
      ParseValidUuid(f.importerId);
    }
  }

  /** Numbers are unique, so a number filter finds at most one order. */
  lemma ByNumberFindsAtMostOne(rows: map<Id, OrderRecord>, n: string, pageable: Pageable)
    requires Unique(rows, NumberOf)
    ensures |Execute(ByNumber(n), pageable, rows).matches| <= 1
  {
    var found := Execute(ByNumber(n), pageable, rows).matches;
    if k :| k in found {
      assert found.Keys == {k} by {
        forall j | j in found ensures j == k {
          assert NumberOf(rows[j]) == n && NumberOf(rows[k]) == n;
        }
      }
      assert |found| == |found.Keys|;
    }
  }

  /** A number filter needs at least ten characters while an order number has at most
      ten, so a number search can only find an order whose number has exactly ten. */
  lemma ByNumberFindsOnlyTenCharacters(rows: map<Id, OrderRecord>, n: string, pageable: Pageable)
    requires FilterValid(ByNumber(n))
    requires forall k :: k in rows ==> |rows[k].number| <= 10
    ensures forall k :: k in Execute(ByNumber(n), pageable, rows).matches ==> |rows[k].number| == 10
  {
  }

  /** The read request cases. */
  datatype SearchOrderCase = DESTINATION | ORIGIN | NUMBER | EXPORTERCODE | IMPORTERID | SEARCHORDER_NOT_SET

  datatype ReadOrderRequest = ReadOrderRequest(
    searchCase: SearchOrderCase,
    destination: string,
    origin: string,
    number: string,
    exporterCode: string,
    importerId: string,
    pageable: Pageable)

  /** The `when` of toFilter: each case builds its variant from its own field, and every
      other case is Neutral. */
  function Chosen(request: ReadOrderRequest): (f: Filter)
    ensures request.searchCase == DESTINATION <==> f == ByDestination(request.destination)
    ensures request.searchCase == ORIGIN <==> f == ByOrigin(request.origin)
    ensures request.searchCase == NUMBER <==> f == ByNumber(request.number)
    ensures request.searchCase == EXPORTERCODE <==> f == ByExporter(request.exporterCode)
    ensures request.searchCase == IMPORTERID <==> f == ByImporter(request.importerId)
    ensures request.searchCase == SEARCHORDER_NOT_SET <==> f == Neutral
  {
    match request.searchCase
    case DESTINATION => ByDestination(request.destination)
    case ORIGIN => ByOrigin(request.origin)
    case NUMBER => ByNumber(request.number)
    case EXPORTERCODE => ByExporter(request.exporterCode)
    case IMPORTERID => ByImporter(request.importerId)
    case SEARCHORDER_NOT_SET => Neutral
  }

  /** toFilter: the chosen filter when it has no violations, otherwise the violations. */
  function ToFilter(request: ReadOrderRequest): (r: Result<Filter>)
    ensures FilterViolations(Chosen(request)) != {} ==>
      r == Failure(ConstraintViolations(FilterViolations(Chosen(request))))
    ensures FilterViolations(Chosen(request)) == {} ==> r == Success(Chosen(request))
    ensures r.Success? ==> FilterValid(r.value) && Runnable(r.value)
  {
    var f := Chosen(request);
    var v := FilterViolations(f);
    if v != {} then Failure(ConstraintViolations(v))
    else
      assert f.ByExporter? ==> ParseUuid(f.exporterId).Success? by {
        if f.ByExporter? { ParseValidUuid(f.exporterId); }
      }
      assert f.ByImporter? ==> ParseUuid(f.importerId).Success? by {
        if f.ByImporter? { ParseValidUuid(f.importerId); }
      }
      Success(f)
  }

  /** ReadOrderEndpoint.read: the filter of the request, run with the request's pageable. */
  function Read(request: ReadOrderRequest, rows: map<Id, OrderRecord>): (r: Result<Page<OrderRecord>>)
    ensures ToFilter(request).Failure? ==> r == Failure(ToFilter(request).error)
    ensures ToFilter(request).Success? ==> r == Success(Execute(ToFilter(request).value, request.pageable, rows))
    ensures r.Success? ==> r.value.pageable == request.pageable
    ensures request.searchCase == SEARCHORDER_NOT_SET ==> r.Success? && r.value.matches == rows
  {
    match ToFilter(request)
    case Failure(e) => Failure(e)
    case Success(f) => Success(Execute(f, request.pageable, rows))
  }
}
