/** The order requests: the constraints of NewOrderRequest, ItemRequest and
    UpdateOrderRequest, and the resolution of their ids into the referenced rows
    (NewOrderRequest.toModel and UpdateOrderRequest.toUpdateRequest). */
module OrderRequests {
  import opened Common
  import opened Text
  import opened Validation
  import opened ValidUuid
  import opened StringUtils
  import opened Orders
  import Exporters
  import Importers
  import Users
  import DeliveryPlaces
  import Materials

  datatype ItemRequest = ItemRequest(materialId: string, quantity: Option<Decimal>)

  datatype NewOrderRequest = NewOrderRequest(
    origin: string,
    destination: string,
    exporterId: string,
    items: seq<ItemRequest>,
    number: string,
    importerId: string,
    date: Option<Date>,
    responsibleId: string,
    modal: Option<Modal>,
    necessity: Option<Date>,
    deadline: Option<Date>,
    observation: Option<string>,
    deliveryPlaceId: Option<string>,
    route: Option<string>)

  datatype UpdateOrderRequest = UpdateOrderRequest(
    deliveryPlaceId: Option<string>,
    modal: Option<Modal>,
    necessity: string,
    responsibleId: string,
    deadline: string,
    route: Option<string>)

  // ---------------------------------------------------------------- constraints

  /** @Positive on a nullable BigDecimal: null passes. */
  function PositiveOpt(field: string, q: Option<Decimal>): (r: set<Violation>)
    ensures r == {} <==> (q.None? || IsPositive(q.value))
  {
    if q.Some? && !IsPositive(q.value) then {Violation(field, MustBePositive)} else {}
  }

  /** @PastOrPresent on a nullable date, against the current date: null passes. */
  function PastOrPresent(field: string, d: Option<Date>, today: Date): (r: set<Violation>)
    ensures r == {} <==> (d.None? || NotAfter(d.value, today))
  {
    if d.Some? && !NotAfter(d.value, today) then {Violation(field, MustBePastOrPresent)} else {}
  }

  /** @ValidUUID alone on a nullable String: null passes. */
  function UuidOpt(field: string, s: Option<string>): (r: set<Violation>)
    ensures r == {} <==> (s.None? || IsUuid(s.value))
  {
    if s.None? then {} else UuidViolations(field, s.value)
  }

  predicate ItemValid(item: ItemRequest) {
    IsUuid(item.materialId) && item.quantity.Some? && IsPositive(item.quantity.value)
  }

  /** The violations of one ItemRequest. */
  function ItemViolations(item: ItemRequest): (v: set<Violation>)
    ensures v == {} <==> ItemValid(item)
  {
    IdViolations("materialId", item.materialId) + NotNull("quantity", item.quantity)
    + PositiveOpt("quantity", item.quantity)
  }

  /** The violations @Valid collects from every item of a list. */
  function ItemsViolations(items: seq<ItemRequest>): (v: set<Violation>)
    ensures v == {} <==> forall i :: 0 <= i < |items| ==> ItemValid(items[i])
  {
    if |items| == 0 then {}
    else
      assert forall i :: 1 <= i < |items| ==> items[i] == items[1..][i - 1];
      ItemViolations(items[0]) + ItemsViolations(items[1..])
  }

  /** What a NewOrderRequest without violations satisfies. */
  predicate RequestValid(request: NewOrderRequest, today: Date) {
    && !IsBlank(request.origin) && !IsBlank(request.destination)
    && IsUuid(request.exporterId)
    && 1 <= |request.items| <= IntMax
    && (forall i :: 0 <= i < |request.items| ==> ItemValid(request.items[i]))
    && |request.number| <= 10
    && IsUuid(request.importerId)
    && request.date.Some? && NotAfter(request.date.value, today)
    && IsUuid(request.responsibleId)
    && request.modal.Some? && request.necessity.Some? && request.deadline.Some?
    && request.observation.Some? && !IsBlank(request.observation.value)
    && |request.observation.value| <= 1000
    && request.deliveryPlaceId.Some? && IsUuid(request.deliveryPlaceId.value)
  }

  /** The violations @Valid reports for a NewOrderRequest on the given day. */
  function NewOrderViolations(request: NewOrderRequest, today: Date): (v: set<Violation>)
    ensures v == {} <==> RequestValid(request, today)
  {
    NotBlank("origin", request.origin) + NotBlank("destination", request.destination)
    + IdViolations("exporterId", request.exporterId)
    + Size("items", |request.items|, 1, IntMax) + ItemsViolations(request.items)
    + Size("number", |request.number|, 0, 10)
    + IdViolations("importerId", request.importerId)
    + NotNull("date", request.date) + PastOrPresent("date", request.date, today)
    + IdViolations("responsibleId", request.responsibleId)
    + NotNull("modal", request.modal) + NotNull("necessity", request.necessity)
    + NotNull("deadline", request.deadline)
    + NotBlankOpt("observation", request.observation)
    + SizeOpt("observation", request.observation, 0, 1000)
    + (if request.deliveryPlaceId.Some? then IdViolations("deliveryPlaceId", request.deliveryPlaceId.value)
       else NotBlankOpt("deliveryPlaceId", None))
  }

  const EmptyRequest := NewOrderRequest("", "", "", [], "", "", None, "", None, None, None, Some(""), Some(""), None)

  /** An all-empty request reports sixteen violations; the empty number passes. */
  lemma EmptyRequestViolations(today: Date)
    ensures NewOrderViolations(EmptyRequest, today)
      == {Violation("origin", MustNotBeBlank), Violation("destination", MustNotBeBlank),
          Violation("exporterId", MustNotBeBlank), Violation("exporterId", PatternMessage),
          Violation("items", SizeMessage(1, IntMax)),
          Violation("importerId", MustNotBeBlank), Violation("importerId", PatternMessage),
          Violation("date", MustNotBeNull),
          Violation("responsibleId", MustNotBeBlank), Violation("responsibleId", PatternMessage),
          Violation("modal", MustNotBeNull), Violation("necessity", MustNotBeNull),
          Violation("deadline", MustNotBeNull), Violation("observation", MustNotBeBlank),
          Violation("deliveryPlaceId", MustNotBeBlank), Violation("deliveryPlaceId", PatternMessage)}
  {
    EmptyRequestGroups(today);
  }

  /** The violations of the empty request, grouped by constraint. */
  lemma EmptyRequestGroups(today: Date)
    ensures NewOrderViolations(EmptyRequest, today)
      == {Violation("origin", MustNotBeBlank), Violation("destination", MustNotBeBlank),
          Violation("observation", MustNotBeBlank)}
      + {Violation("exporterId", MustNotBeBlank), Violation("exporterId", PatternMessage),
         Violation("importerId", MustNotBeBlank), Violation("importerId", PatternMessage),
         Violation("responsibleId", MustNotBeBlank), Violation("responsibleId", PatternMessage),
         Violation("deliveryPlaceId", MustNotBeBlank), Violation("deliveryPlaceId", PatternMessage)}
      + {Violation("items", SizeMessage(1, IntMax))}
      + {Violation("date", MustNotBeNull), Violation("modal", MustNotBeNull),
         Violation("necessity", MustNotBeNull), Violation("deadline", MustNotBeNull)}
  {
    var request := EmptyRequest;
    BlankIdHasTwoViolations("exporterId", "");
    BlankIdHasTwoViolations("importerId", "");
    BlankIdHasTwoViolations("responsibleId", "");
    BlankIdHasTwoViolations("deliveryPlaceId", "");
    var ids := IdViolations("exporterId", "") + IdViolations("importerId", "")
      + IdViolations("responsibleId", "") + IdViolations("deliveryPlaceId", "");
    var texts := NotBlank("origin", "") + NotBlank("destination", "") + NotBlankOpt("observation", Some(""));
    var nulls := NotNull("date", request.date) + NotNull("modal", request.modal)
      + NotNull("necessity", request.necessity) + NotNull("deadline", request.deadline);
    var passing := ItemsViolations([]) + Size("number", 0, 0, 10) + PastOrPresent("date", None, today)
      + SizeOpt("observation", Some(""), 0, 1000);
    assert passing == {};
    assert texts == {Violation("origin", MustNotBeBlank), Violation("destination", MustNotBeBlank),
      Violation("observation", MustNotBeBlank)};
    assert ids == {Violation("exporterId", MustNotBeBlank), Violation("exporterId", PatternMessage),
      Violation("importerId", MustNotBeBlank), Violation("importerId", PatternMessage),
      Violation("responsibleId", MustNotBeBlank), Violation("responsibleId", PatternMessage),
      Violation("deliveryPlaceId", MustNotBeBlank), Violation("deliveryPlaceId", PatternMessage)};
    assert nulls == {Violation("date", MustNotBeNull), Violation("modal", MustNotBeNull),
      Violation("necessity", MustNotBeNull), Violation("deadline", MustNotBeNull)};
    assert Size("items", 0, 1, IntMax) == {Violation("items", SizeMessage(1, IntMax))};
    assert NewOrderViolations(request, today)
      == texts + ids + Size("items", 0, 1, IntMax) + nulls + passing;
  }

  /** What an UpdateOrderRequest without violations satisfies. */
  predicate UpdateRequestValid(request: UpdateOrderRequest) {
    && (request.deliveryPlaceId.None? || IsUuid(request.deliveryPlaceId.value))
    && request.modal.Some?
    && !IsBlank(request.necessity)
    && IsUuid(request.responsibleId)
    && !IsBlank(request.deadline)
  }

  /** The violations @Valid reports for an UpdateOrderRequest. */
  function UpdateOrderViolations(request: UpdateOrderRequest): (v: set<Violation>)
    ensures v == {} <==> UpdateRequestValid(request)
  {
    UuidOpt("deliveryPlaceId", request.deliveryPlaceId) + NotNull("modal", request.modal)
    + NotBlank("necessity", request.necessity)
    + IdViolations("responsibleId", request.responsibleId)
    + NotBlank("deadline", request.deadline)
  }

  /** An all-empty update with an empty id reports eight violations; an empty delivery
      place id fails only the pattern. */
  lemma EmptyUpdateViolations()
    ensures UpdateOrderViolations(UpdateOrderRequest(Some(""), None, "", "", "", None)) + IdViolations("id", "")
      == {Violation("deliveryPlaceId", PatternMessage), Violation("id", PatternMessage),
          Violation("necessity", MustNotBeBlank), Violation("responsibleId", MustNotBeBlank),
          Violation("modal", MustNotBeNull), Violation("id", MustNotBeBlank),
          Violation("responsibleId", PatternMessage), Violation("deadline", MustNotBeBlank)}
  {
    BlankIdHasTwoViolations("responsibleId", "");
    BlankIdHasTwoViolations("id", "");
  }

  // ---------------------------------------------------------------- resolution

  function PlaceNotFound(id: string): string {
    "Delivery place not found with id " + id
  }

  function MaterialNotFound(id: string): string {
    "Material not found with id " + id
  }

  /** The rows the entity manager can find, by key. */
  datatype Lookups = Lookups(
    exporters: map<Id, Exporters.Exporter>,
    importers: map<Id, Importers.Importer>,
    users: map<Id, Users.User>,
    places: map<Id, DeliveryPlaces.DeliveryPlace>,
    materials: map<Id, Materials.Material>)

  /** `manager.find(T, UUID.fromString(text)) ?: throw ObjectNotFoundException(missing)`:
      the parse error, the row under the parsed key, or NotFound. */
  function Find<T>(table: map<Id, T>, text: string, missing: string): (r: Result<T>)
    ensures ParseUuid(text).Failure? ==> r == Failure(ParseUuid(text).error)
    ensures ParseUuid(text).Success? && ParseUuid(text).value in table ==> r == Success(table[ParseUuid(text).value])
    ensures ParseUuid(text).Success? && ParseUuid(text).value !in table ==> r == Failure(NotFound(missing))
  {
    match ParseUuid(text)
    case Failure(e) => Failure(e)
    case Success(key) => if key in table then Success(table[key]) else Failure(NotFound(missing))
  }

  /** On a text the pattern accepts, find succeeds exactly for a stored key. */
  lemma FindByValidId<T>(table: map<Id, T>, text: string, missing: string)
    requires IsUuid(text)
    ensures Find(table, text, missing).Success? <==> text in table
    ensures text in table ==> Find(table, text, missing) == Success(table[text])
    ensures text !in table ==> Find(table, text, missing) == Failure(NotFound(missing))
  {
    ParseValidUuid(text);
  }

  function FindMaterial(item: ItemRequest, materials: map<Id, Materials.Material>): Result<Materials.Material> {
    Find(materials, item.materialId, MaterialNotFound(item.materialId))
  }

  /** Every item carries a quantity: what `it.quantity!!` demands. */
  predicate QuantitiesGiven(requests: seq<ItemRequest>) {
    forall i :: 0 <= i < |requests| ==> requests[i].quantity.Some?
  }

  /** The item lines of `items.map { ... }`: the materials are found in list order and
      the first that is missing is the error. */
  function ResolveItems(requests: seq<ItemRequest>, materials: map<Id, Materials.Material>): (r: Result<seq<Item>>)
    requires QuantitiesGiven(requests)
    ensures r.Success? <==> forall i :: 0 <= i < |requests| ==> FindMaterial(requests[i], materials).Success?
    ensures r.Success? ==> |r.value| == |requests|
    ensures r.Success? ==> forall i :: 0 <= i < |requests| ==>
      r.value[i] == Item(requests[i].quantity.value, FindMaterial(requests[i], materials).value)
    decreases |requests|
  {
    if |requests| == 0 then Success([])
    else
      var n := |requests| - 1;
      var init := requests[..n];
      assert forall i :: 0 <= i < n ==> init[i] == requests[i];
      match ResolveItems(init, materials)
      case Failure(e) => Failure(e)
      case Success(lines) =>
        match FindMaterial(requests[n], materials)
        case Failure(e) => Failure(e)
        case Success(m) => Success(lines + [Item(requests[n].quantity.value, m)])
  }

  /** What the `!!` of toModel demand: a date, a modal, a necessity, a deadline and a
      quantity on every item. */
  predicate Convertible(request: NewOrderRequest) {
    request.date.Some? && request.modal.Some? && request.necessity.Some? && request.deadline.Some?
    && QuantitiesGiven(request.items)
  }

  /** The delivery place of a new order: none for a null or blank id, otherwise the row
      the id finds. */
  function ResolvePlace(id: Option<string>, places: map<Id, DeliveryPlaces.DeliveryPlace>): (r: Result<Option<PlaceRef>>)
    ensures (id.None? || IsKotlinBlank(id.value)) ==> r == Success(None)
    ensures id.Some? && !IsKotlinBlank(id.value) ==>
      match Find(places, id.value, PlaceNotFound(id.value))
      case Failure(e) => r == Failure(e)
      case Success(p) => r == Success(Some(PlaceRef(ParseUuid(id.value).value, p)))
  {
    if id.None? || IsKotlinBlank(id.value) then Success(None)
    else
      match Find(places, id.value, PlaceNotFound(id.value))
      case Failure(e) => Failure(e)
      case Success(p) => Success(Some(PlaceRef(ParseUuid(id.value).value, p)))
  }

  datatype Resolution = Resolution(draft: OrderDraft, items: seq<Item>)

  /** NewOrderRequest.toModel as a value: the exporter, the importer, the user, the
      delivery place and the materials are found in that order, and the first that fails
      is the error; the order copies the rest of the request. */
  function Resolve(request: NewOrderRequest, lookups: Lookups): (r: Result<Resolution>)
    requires Convertible(request)
    ensures r.Success? ==>
      var d := r.value.draft;
      && d.origin == request.origin && d.destination == request.destination
      && d.number == request.number && d.date == request.date.value
      && d.modal == request.modal.value && d.necessity == request.necessity.value
      && d.deadline == request.deadline.value && d.observation == request.observation
      && d.route == request.route
      && ResolveItems(request.items, lookups.materials) == Success(r.value.items)
  {
    match Find(lookups.exporters, request.exporterId, Exporters.ExporterNotFound(request.exporterId))
    case Failure(e) => Failure(e)
    case Success(exporter) =>
      match Find(lookups.importers, request.importerId, Importers.ImporterNotFound(request.importerId))
      case Failure(e) => Failure(e)
      case Success(importer) =>
        match Find(lookups.users, request.responsibleId, Users.UserNotFound(request.responsibleId))
        case Failure(e) => Failure(e)
        case Success(responsible) =>
          match ResolvePlace(request.deliveryPlaceId, lookups.places)
          case Failure(e) => Failure(e)
          case Success(place) =>
            match ResolveItems(request.items, lookups.materials)
            case Failure(e) => Failure(e)
            case Success(items) =>
              Success(Resolution(
                OrderDraft(request.origin, request.destination, exporter, request.number, importer,
                  request.date.value, responsible, request.modal.value, request.necessity.value,
                  request.deadline.value, request.observation, place, request.route),
                items))
  }

  /** For an item whose id the pattern accepts, the material lookup succeeds exactly
      for a stored id. */
  lemma ValidItemFound(item: ItemRequest, materials: map<Id, Materials.Material>)
    requires ItemValid(item)
    ensures FindMaterial(item, materials).Success? <==> item.materialId in materials
    ensures item.materialId in materials ==>
      FindMaterial(item, materials).value == materials[item.materialId]
    ensures item.materialId !in materials ==>
      FindMaterial(item, materials).error == NotFound(MaterialNotFound(item.materialId))
  {
    FindByValidId(materials, item.materialId, MaterialNotFound(item.materialId));
  }

  /** The first item whose material is missing decides the error of the list. */
  lemma {:induction false} FirstMissingMaterial(requests: seq<ItemRequest>, materials: map<Id, Materials.Material>, i: int)
    requires QuantitiesGiven(requests)
    requires 0 <= i < |requests| && FindMaterial(requests[i], materials).Failure?
    requires forall j :: 0 <= j < i ==> FindMaterial(requests[j], materials).Success?
    ensures ResolveItems(requests, materials) == Failure(FindMaterial(requests[i], materials).error)
    decreases |requests|
  {
    var n := |requests| - 1;
    var init := requests[..n];
    assert forall j :: 0 <= j < n ==> init[j] == requests[j];
    if i < n {
      FirstMissingMaterial(init, materials, i);
    } else {
      assert ResolveItems(init, materials).Success?;
    }
  }

  /** With ids the pattern accepts, the item lines resolve exactly when every material
      is stored; the first material that is not stored gives its NotFound, and the
      lines refer to the materials under the requested ids. */
  lemma ValidItemsResolve(requests: seq<ItemRequest>, materials: map<Id, Materials.Material>)
    requires forall i :: 0 <= i < |requests| ==> ItemValid(requests[i])
    ensures QuantitiesGiven(requests)
    ensures ResolveItems(requests, materials).Success? <==>
      forall i :: 0 <= i < |requests| ==> requests[i].materialId in materials
    ensures ResolveItems(requests, materials).Success? ==>
      forall i :: 0 <= i < |requests| ==>
        ResolveItems(requests, materials).value[i] == Item(requests[i].quantity.value, materials[requests[i].materialId])
    ensures forall i :: (0 <= i < |requests| && requests[i].materialId !in materials
        && (forall j :: 0 <= j < i ==> requests[j].materialId in materials)) ==>
        ResolveItems(requests, materials) == Failure(NotFound(MaterialNotFound(requests[i].materialId)))
  {
    forall i | 0 <= i < |requests|
      ensures FindMaterial(requests[i], materials).Success? <==> requests[i].materialId in materials
      ensures requests[i].materialId in materials ==>
        FindMaterial(requests[i], materials).value == materials[requests[i].materialId]
      ensures requests[i].materialId !in materials ==>
        FindMaterial(requests[i], materials).error == NotFound(MaterialNotFound(requests[i].materialId))
    {
      ValidItemFound(requests[i], materials);
    }
    forall i | (0 <= i < |requests| && requests[i].materialId !in materials
        && (forall j :: 0 <= j < i ==> requests[j].materialId in materials))
      ensures ResolveItems(requests, materials) == Failure(NotFound(MaterialNotFound(requests[i].materialId)))
    {
      FirstMissingMaterial(requests, materials, i);
    }
  }

  /** A request without violations gives toModel every value it dereferences: the dates,
      the modal and each item's quantity. */
  lemma ValidRequestConvertible(request: NewOrderRequest, today: Date)
    requires RequestValid(request, today)
    ensures Convertible(request)
  {
    assert QuantitiesGiven(request.items) by {
      forall i | 0 <= i < |request.items| ensures request.items[i].quantity.Some? {
        assert ItemValid(request.items[i]);
      }
    }
  }

  /** For a request without violations every id is a key, and among the references the
      first missing row decides the NotFound message: exporter, then importer, then user,
      then delivery place. */
  lemma ReferenceResolutionOrder(request: NewOrderRequest, today: Date, lookups: Lookups)
    requires RequestValid(request, today)
    ensures Convertible(request)
    ensures request.exporterId !in lookups.exporters ==>
      Resolve(request, lookups) == Failure(NotFound(Exporters.ExporterNotFound(request.exporterId)))
    ensures (request.exporterId in lookups.exporters && request.importerId !in lookups.importers) ==>
      Resolve(request, lookups) == Failure(NotFound(Importers.ImporterNotFound(request.importerId)))
    ensures (request.exporterId in lookups.exporters && request.importerId in lookups.importers
      && request.responsibleId !in lookups.users) ==>
      Resolve(request, lookups) == Failure(NotFound(Users.UserNotFound(request.responsibleId)))
    ensures (request.exporterId in lookups.exporters && request.importerId in lookups.importers
      && request.responsibleId in lookups.users && request.deliveryPlaceId.value !in lookups.places) ==>
      Resolve(request, lookups) == Failure(NotFound(PlaceNotFound(request.deliveryPlaceId.value)))
  {
    var place := request.deliveryPlaceId.value;
    assert !IsKotlinBlank(place) by {
      assert CharFits(0, place[0]);
    }
    ValidRequestConvertible(request, today);
    FindByValidId(lookups.exporters, request.exporterId, Exporters.ExporterNotFound(request.exporterId));
    FindByValidId(lookups.importers, request.importerId, Importers.ImporterNotFound(request.importerId));
    FindByValidId(lookups.users, request.responsibleId, Users.UserNotFound(request.responsibleId));
    FindByValidId(lookups.places, place, PlaceNotFound(place));
  }

  /** Once every reference is found, the first material that is not stored decides the
      NotFound message; when none is missing, the order refers to exactly the rows the
      ids name, always with a delivery place, and has one line per item. */
  lemma MaterialResolutionOrder(request: NewOrderRequest, today: Date, lookups: Lookups)
    requires RequestValid(request, today)
    requires request.exporterId in lookups.exporters && request.importerId in lookups.importers
    requires request.responsibleId in lookups.users && request.deliveryPlaceId.value in lookups.places
    ensures Convertible(request)
    ensures forall i :: (0 <= i < |request.items| && request.items[i].materialId !in lookups.materials
        && (forall j :: 0 <= j < i ==> request.items[j].materialId in lookups.materials)) ==>
        Resolve(request, lookups) == Failure(NotFound(MaterialNotFound(request.items[i].materialId)))
    ensures (forall i :: 0 <= i < |request.items| ==> request.items[i].materialId in lookups.materials) ==>
      && Resolve(request, lookups).Success?
      && var d := Resolve(request, lookups).value.draft;
      && var items := Resolve(request, lookups).value.items;
      && d.exporter == lookups.exporters[request.exporterId]
      && d.importer == lookups.importers[request.importerId]
      && d.responsible == lookups.users[request.responsibleId]
      && d.deliveryPlace == Some(PlaceRef(request.deliveryPlaceId.value, lookups.places[request.deliveryPlaceId.value]))
      && |items| == |request.items|
      && forall i :: 0 <= i < |items| ==>
        items[i] == Item(request.items[i].quantity.value, lookups.materials[request.items[i].materialId])
  {
    ReferenceResolutionOrder(request, today, lookups);
    var place := request.deliveryPlaceId.value;
    assert !IsKotlinBlank(place) by {
      assert CharFits(0, place[0]);
    }
    FindByValidId(lookups.exporters, request.exporterId, Exporters.ExporterNotFound(request.exporterId));
    FindByValidId(lookups.importers, request.importerId, Importers.ImporterNotFound(request.importerId));
    FindByValidId(lookups.users, request.responsibleId, Users.UserNotFound(request.responsibleId));
    FindByValidId(lookups.places, place, PlaceNotFound(place));
    ParseValidUuid(place);
    ValidItemsResolve(request.items, lookups.materials);
  }

  /** toModel step by step: the lookups in order, a delivery place only for a non-blank
      id, the order built, then its items resolved and included. */
  method ToModel(request: NewOrderRequest, lookups: Lookups, newId: Id) returns (r: Result<Order>)
    requires Convertible(request)
    ensures match Resolve(request, lookups)
      case Failure(e) => r == Failure(e)
      case Success(res) =>
        && r.Success? && fresh(r.value) && r.value.id == newId
        && r.value.Record() == Initial(newId, res.draft).(items := Some(res.items))
  {
    var exporter := Find(lookups.exporters, request.exporterId, Exporters.ExporterNotFound(request.exporterId));
    if exporter.Failure? {
      return Failure(exporter.error);
    }
    var importer := Find(lookups.importers, request.importerId, Importers.ImporterNotFound(request.importerId));
    if importer.Failure? {
      return Failure(importer.error);
    }
    var responsible := Find(lookups.users, request.responsibleId, Users.UserNotFound(request.responsibleId));
    if responsible.Failure? {
      return Failure(responsible.error);
    }
    var deliveryPlace: Option<PlaceRef> := None;
    if request.deliveryPlaceId.Some? && !IsKotlinBlank(request.deliveryPlaceId.value) {
      var text := request.deliveryPlaceId.value;
      var place := Find(lookups.places, text, PlaceNotFound(text));
      if place.Failure? {
        return Failure(place.error);
      }
      deliveryPlace := Some(PlaceRef(ParseUuid(text).value, place.value));
    }
    var draft := OrderDraft(request.origin, request.destination, exporter.value, request.number,
      importer.value, request.date.value, responsible.value, request.modal.value,
      request.necessity.value, request.deadline.value, request.observation, deliveryPlace,
      request.route);
    var order := new Order(newId, draft);
    var items := BuildItems(request.items, lookups.materials);
    if items.Failure? {
      return Failure(items.error);
    }
    order.IncludeItems(items.value);
    r := Success(order);
  }

  /** `items.map { ... }`: one line per request, in order, stopping at the first missing
      material. */
  method BuildItems(requests: seq<ItemRequest>, materials: map<Id, Materials.Material>) returns (r: Result<seq<Item>>)
    requires QuantitiesGiven(requests)
    ensures r == ResolveItems(requests, materials)
  {
    var lines: seq<Item> := [];
    var i := 0;
    while i < |requests|
      invariant 0 <= i <= |requests|
      invariant ResolveItems(requests[..i], materials) == Success(lines)
    {
      var material := FindMaterial(requests[i], materials);
      assert requests[..i + 1][..i] == requests[..i];
      if material.Failure? {
        assert ResolveItems(requests[..i + 1], materials) == Failure(material.error);
        PrefixFailure(requests, materials, i + 1);
        return Failure(material.error);
      }
      lines := lines + [Item(requests[i].quantity.value, material.value)];
      i := i + 1;
    }
    assert requests[..i] == requests;
    r := Success(lines);
  }

  /** One more item after a failing list keeps its failure. */
  lemma ExtendFailure(init: seq<ItemRequest>, item: ItemRequest, materials: map<Id, Materials.Material>)
    requires QuantitiesGiven(init + [item])
    requires QuantitiesGiven(init) && ResolveItems(init, materials).Failure?
    ensures ResolveItems(init + [item], materials) == ResolveItems(init, materials)
  {
    assert (init + [item])[..|init|] == init;
  }

  /** A failure on a prefix of the list is the failure of the whole list. */
  lemma {:induction false} PrefixFailure(requests: seq<ItemRequest>, materials: map<Id, Materials.Material>, n: nat)
    requires QuantitiesGiven(requests) && n <= |requests|
    requires ResolveItems(requests[..n], materials).Failure?
    ensures ResolveItems(requests, materials) == ResolveItems(requests[..n], materials)
    decreases |requests| - n
  {
    if n < |requests| {
      assert requests[..n + 1] == requests[..n] + [requests[n]];
      ExtendFailure(requests[..n], requests[n], materials);
      PrefixFailure(requests, materials, n + 1);
    } else {
      assert requests[..n] == requests;
    }
  }

  /** UpdateOrderRequest.toUpdateRequest: the delivery place when an id is given (even a
      blank one), then the responsible user; necessity and deadline are parsed from text,
      necessity first. */
  function ToUpdateRequest(request: UpdateOrderRequest, lookups: Lookups): (r: Result<UpdateRequest>)
    requires request.modal.Some?
    ensures request.deliveryPlaceId.Some? && Find(lookups.places, request.deliveryPlaceId.value, PlaceNotFound(request.deliveryPlaceId.value)).Failure? ==>
      r == Failure(Find(lookups.places, request.deliveryPlaceId.value, PlaceNotFound(request.deliveryPlaceId.value)).error)
    ensures r.Success? ==>
      && r.value.modal == request.modal.value && r.value.route == request.route
      && (r.value.deliveryPlace.Some? <==> request.deliveryPlaceId.Some?)
      && Find(lookups.users, request.responsibleId, Users.UserNotFound(request.responsibleId)) == Success(r.value.responsible)
      && ToLocalDate(request.necessity) == Success(r.value.necessity)
      && ToLocalDate(request.deadline) == Success(r.value.deadline)
  {
    var place :=
      if request.deliveryPlaceId.None? then Success(None)
      else
        var text := request.deliveryPlaceId.value;
        match Find(lookups.places, text, PlaceNotFound(text))
        case Failure(e) => Failure(e)
        case Success(p) => Success(Some(PlaceRef(ParseUuid(text).value, p)));
    match place
    case Failure(e) => Failure(e)
    case Success(deliveryPlace) =>
      match Find(lookups.users, request.responsibleId, Users.UserNotFound(request.responsibleId))
      case Failure(e) => Failure(e)
      case Success(responsible) =>
        match ToLocalDate(request.necessity)
        case Failure(e) => Failure(e)
        case Success(necessity) =>
          match ToLocalDate(request.deadline)
          case Failure(e) => Failure(e)
          case Success(deadline) =>
            Success(UpdateRequest(deliveryPlace, request.modal.value, necessity, responsible, deadline, request.route))
  }

  /** For a request without violations: a missing delivery place is reported before a
      missing user, an unparsable date is the next error, and on success the dates are
      present and are the ones the texts denote. */
  lemma UpdateResolutionOrder(request: UpdateOrderRequest, lookups: Lookups)
    requires UpdateRequestValid(request)
    ensures request.deliveryPlaceId.Some? && request.deliveryPlaceId.value !in lookups.places ==>
      ToUpdateRequest(request, lookups) == Failure(NotFound(PlaceNotFound(request.deliveryPlaceId.value)))
    ensures ((request.deliveryPlaceId.None? || request.deliveryPlaceId.value in lookups.places)
      && request.responsibleId !in lookups.users) ==>
      ToUpdateRequest(request, lookups) == Failure(NotFound(Users.UserNotFound(request.responsibleId)))
    ensures ((request.deliveryPlaceId.None? || request.deliveryPlaceId.value in lookups.places)
      && request.responsibleId in lookups.users) ==>
      match ToUpdateRequest(request, lookups)
      case Failure(e) => e == Invalid(DateParseError)
        && (ParseIsoDate(request.necessity).None? || ParseIsoDate(request.deadline).None?)
      case Success(u) =>
        && u.responsible == lookups.users[request.responsibleId]
        && u.modal == request.modal.value
        && u.deliveryPlace == (if request.deliveryPlaceId.None? then None
             else Some(PlaceRef(request.deliveryPlaceId.value, lookups.places[request.deliveryPlaceId.value])))
        && u.necessity.Some? && FormatIsoDate(u.necessity.value) == request.necessity
        && u.deadline.Some? && FormatIsoDate(u.deadline.value) == request.deadline
  {
    if request.deliveryPlaceId.Some? {
      var text := request.deliveryPlaceId.value;
      FindByValidId(lookups.places, text, PlaceNotFound(text));
      ParseValidUuid(text);
    }
    FindByValidId(lookups.users, request.responsibleId, Users.UserNotFound(request.responsibleId));
  }
}
