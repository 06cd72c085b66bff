/** The order table and the two services over it: OrderService, the one the order
    endpoint calls, and ManageOrderService, which also tells the route service about an
    order's route. */
module OrderServices {
  import opened Common
  import opened Text
  import opened Validation
  import opened ValidUuid
  import opened Tables
  import opened StringUtils
  import opened Orders
  import opened OrderRequests
  import Exporters
  import Importers
  import Users
  import DeliveryPlaces
  import Materials

  function OrderExists(number: string): string {
    "Order with number " + number + " already exists"
  }

  function OrderNotFound(id: string): string {
    "Order not found with id " + id
  }

  function ReferenceExists(reference: string): string {
    "Reference " + reference + " already exists"
  }

  /** existsByBrokerReference. */
  predicate ReferenceInUse(rows: map<Id, OrderRecord>, reference: string) {
    exists k :: k in rows && rows[k].brokerReference == Some(reference)
  }

  /** No two orders share a broker reference; any number of orders may have none. */
  predicate ReferencesUnique(rows: map<Id, OrderRecord>) {
    forall a, b :: a in rows && b in rows && a != b && rows[a].brokerReference.Some? ==>
      rows[a].brokerReference != rows[b].brokerReference
  }

  /** Giving one order a reference no order has keeps references unique. */
  lemma SetReferenceKeepsUnique(rows: map<Id, OrderRecord>, k: Id, v: OrderRecord)
    requires ReferencesUnique(rows) && k in rows
    requires v.brokerReference.None? || v.brokerReference == rows[k].brokerReference
      || (v.brokerReference.Some? && !ReferenceInUse(rows, v.brokerReference.value))
    ensures ReferencesUnique(rows[k := v])
  {
    var m := rows[k := v];
    forall a, b | a in m && b in m && a != b && m[a].brokerReference.Some?
      ensures m[a].brokerReference != m[b].brokerReference
    {
      if a == k && v.brokerReference != rows[k].brokerReference {
        assert rows[b].brokerReference != Some(v.brokerReference.value);
      } else if b == k && v.brokerReference != rows[k].brokerReference && v.brokerReference.Some? {
        assert rows[a].brokerReference != Some(v.brokerReference.value);
      }
    }
  }

  /** What every stored order satisfies: the non-blank origin and destination and the
      number of at most ten characters its request had, a non-empty item list, and the
      initial status. */
  predicate Stored(r: OrderRecord) {
    && !IsBlank(r.origin) && !IsBlank(r.destination) && |r.number| <= 10
    && r.items.Some? && |r.items.value| >= 1
    && r.status == PENDING_APPROVAL
  }

  /** The table invariant on the rows alone: each row is as its request left it and owns
      the event of its key, numbers are unique (order_number_uk) and so are broker
      references. */
  ghost predicate RowsValid(rows: map<Id, OrderRecord>) {
    && (forall k :: k in rows ==> Stored(rows[k]) && rows[k].event == EmptyEvent(k))
    && Unique(rows, NumberOf)
    && ReferencesUnique(rows)
  }

  /** save of a new row with a free number and no reference keeps the invariant. */
  lemma StoreKeepsRowsValid(rows: map<Id, OrderRecord>, k: Id, v: OrderRecord)
    requires RowsValid(rows) && k !in rows
    requires Stored(v) && v.event == EmptyEvent(k) && v.brokerReference.None?
    requires !InUse(rows, NumberOf, v.number)
    ensures RowsValid(rows[k := v])
  {
    assert rows - {k} == rows;
    StoreKeepsUnique(rows, NumberOf, k, v);
    var m := rows[k := v];
    forall a, b | a in m && b in m && a != b && m[a].brokerReference.Some?
      ensures m[a].brokerReference != m[b].brokerReference
    {
      assert a != k;
    }
  }

  /** Rewriting a row in place, keeping its number and event and either keeping its
      reference or taking one no order has, keeps the invariant. */
  lemma RewriteKeepsRowsValid(rows: map<Id, OrderRecord>, k: Id, v: OrderRecord)
    requires RowsValid(rows) && k in rows
    requires Stored(v) && v.event == rows[k].event && v.number == rows[k].number
    requires v.brokerReference == rows[k].brokerReference
      || (v.brokerReference.Some? && !ReferenceInUse(rows, v.brokerReference.value))
    ensures RowsValid(rows[k := v])
  {
    RewriteKeepsUnique(rows, NumberOf, k, v);
    SetReferenceKeepsUnique(rows, k, v);
  }

  /** delete keeps the invariant. */
  lemma RemoveKeepsRowsValid(rows: map<Id, OrderRecord>, k: Id)
    requires RowsValid(rows)
    ensures RowsValid(rows - {k})
  {
    RemoveKeepsUnique(rows, NumberOf, k);
    var m := rows - {k};
    forall a, b | a in m && b in m && a != b && m[a].brokerReference.Some?
      ensures m[a].brokerReference != m[b].brokerReference
    {
      assert rows[a] == m[a] && rows[b] == m[b];
    }
  }

  /** OrderRepository: the order table. */
  class OrderRepository {
    var orders: map<Id, Order>

    constructor ()
      ensures orders == map[] && Valid()
    {
      orders := map[];
    }

    function Rows(): map<Id, OrderRecord>
      reads this, orders.Values
    {
      map k | k in orders :: orders[k].Record()
    }

    /** Each order is filed under its own id, and the rows keep the table invariant. */
    ghost predicate Valid()
      reads this, orders.Values
    {
      && (forall k :: k in orders ==> orders[k].id == k)
      && RowsValid(Rows())
    }
  }

  /** The entity manager's view of the other tables. */
  class EntityManager {
    const exporters: Exporters.ExporterService
    const importers: Importers.ImporterService
    const users: Users.UserService
    const places: DeliveryPlaces.DeliveryPlaceRepository
    const materials: Materials.MaterialService

    constructor (exporters: Exporters.ExporterService, importers: Importers.ImporterService,
                 users: Users.UserService, places: DeliveryPlaces.DeliveryPlaceRepository,
                 materials: Materials.MaterialService)
      ensures this.exporters == exporters && this.importers == importers && this.users == users
      ensures this.places == places && this.materials == materials
    {
      this.exporters := exporters;
      this.importers := importers;
      this.users := users;
      this.places := places;
      this.materials := materials;
    }

    function Tables(): Lookups
      reads exporters, importers, users, places, materials
    {
      Lookups(exporters.exporters, importers.importers, users.users, places.places, materials.materials)
    }
  }

  /** The order a resolution builds, with its items included. */
  function Built(id: Id, res: Resolution): (r: OrderRecord)
    ensures r.items == Some(res.items) && r.status == PENDING_APPROVAL && r.brokerReference.None?
  {
    Initial(id, res.draft).(items := Some(res.items))
  }

  /** The violations of the two parameters of update. */
  function UpdateViolations(request: UpdateOrderRequest, id: string): (v: set<Violation>)
    ensures v == {} <==> UpdateRequestValid(request) && IsUuid(id)
  {
    UpdateOrderViolations(request) + IdViolations("id", id)
  }

  function ObservationViolations(observation: string, id: string): (v: set<Violation>)
    ensures v == {} <==> !IsBlank(observation) && IsUuid(id)
  {
    NotBlank("observation", observation) + IdViolations("id", id)
  }

  /** What the parameters of updateReference satisfy when they have no violations. */
  predicate ReferenceRequestValid(reference: string, id: string) {
    !IsBlank(reference) && |reference| <= 20 && IsUuid(id)
  }

  function ReferenceViolations(reference: string, id: string): (v: set<Violation>)
    ensures v == {} <==> ReferenceRequestValid(reference, id)
  {
    NotBlank("reference", reference) + Size("reference", |reference|, 0, 20) + IdViolations("id", id)
  }

  /** A blank observation with a blank id reports three violations. */
  lemma EmptyObservationViolations()
    ensures ObservationViolations("", "") ==
      {Violation("id", PatternMessage), Violation("id", MustNotBeBlank), Violation("observation", MustNotBeBlank)}
  {
    BlankIdHasTwoViolations("id", "");
  }

  /** A blank reference with a blank id reports three violations. */
  lemma EmptyReferenceViolations()
    ensures ReferenceViolations("", "") ==
      {Violation("id", PatternMessage), Violation("id", MustNotBeBlank), Violation("reference", MustNotBeBlank)}
  {
    BlankIdHasTwoViolations("id", "");
    assert Size("reference", 0, 0, 20) == {};
  }

  /** What a request without violations brings to toModel and the table: every value
      toModel dereferences, the origin, destination and number the row keeps, and items. */
  predicate Admissible(request: NewOrderRequest) {
    && Convertible(request)
    && !IsBlank(request.origin) && !IsBlank(request.destination) && |request.number| <= 10
    && |request.items| >= 1
  }

  lemma ValidRequestAdmissible(request: NewOrderRequest, today: Date)
    requires RequestValid(request, today)
    ensures Admissible(request)
  {
    ValidRequestConvertible(request, today);
  }

  /** A row built from an admissible request is one the table may hold. */
  lemma BuiltIsStored(request: NewOrderRequest, lookups: Lookups, id: Id)
    requires Admissible(request) && Resolve(request, lookups).Success?
    ensures Stored(Built(id, Resolve(request, lookups).value))
    ensures Built(id, Resolve(request, lookups).value).event == EmptyEvent(id)
    ensures Built(id, Resolve(request, lookups).value).number == request.number
  {
    var res := Resolve(request, lookups).value;
    assert ResolveItems(request.items, lookups.materials) == Success(res.items);
  }

  class OrderService {
    const repository: OrderRepository
    const manager: EntityManager

    constructor (repository: OrderRepository, manager: EntityManager)
      ensures this.repository == repository && this.manager == manager
    {
      this.repository := repository;
      this.manager := manager;
    }

    /** create: validation, then the number check before any lookup, then toModel, then
        one row. */
    method Create(request: NewOrderRequest, newId: Id, today: Date) returns (r: Result<Order>)
      requires repository.Valid() && newId !in repository.orders
      modifies repository
      ensures repository.Valid()
      ensures !RequestValid(request, today) ==>
        r == Failure(ConstraintViolations(NewOrderViolations(request, today)))
      ensures RequestValid(request, today) && InUse(old(repository.Rows()), NumberOf, request.number) ==>
        r == Failure(AlreadyExists(OrderExists(request.number)))
      ensures RequestValid(request, today) && !InUse(old(repository.Rows()), NumberOf, request.number) ==>
        && Convertible(request)
        && match Resolve(request, manager.Tables())
           case Failure(e) => r == Failure(e)
           case Success(res) =>
             && r.Success? && fresh(r.value) && r.value.id == newId
             && repository.orders == old(repository.orders)[newId := r.value]
             && repository.Rows() == old(repository.Rows())[newId := Built(newId, res)]
      ensures r.Failure? ==> repository.orders == old(repository.orders) && repository.Rows() == old(repository.Rows())
    {
      var before := repository.Rows();
      var v := NewOrderViolations(request, today);
      if v != {} {
        return Failure(ConstraintViolations(v));
      }
      if InUse(before, NumberOf, request.number) {
        return Failure(AlreadyExists(OrderExists(request.number)));
      }
      ValidRequestAdmissible(request, today);
      r := Admit(repository, request, manager.Tables(), newId);
    }

    /** update: validation of the request and the id, then the order lookup, then
        toUpdateRequest; only the delivery place, modal, necessity, responsible and
        deadline change. */
    method Update(request: UpdateOrderRequest, id: string) returns (r: Result<Order>)
      requires repository.Valid()
      modifies repository.orders.Values
      ensures repository.Valid() && repository.orders == old(repository.orders)
      ensures !(UpdateRequestValid(request) && IsUuid(id)) ==>
        r == Failure(ConstraintViolations(UpdateViolations(request, id)))
      ensures UpdateRequestValid(request) && IsUuid(id) && id !in repository.orders ==>
        r == Failure(NotFound(OrderNotFound(id)))
      ensures UpdateRequestValid(request) && IsUuid(id) && id in repository.orders ==>
        match ToUpdateRequest(request, manager.Tables())
        case Failure(e) => r == Failure(e)
        case Success(u) =>
          && r == Success(repository.orders[id])
          && u.necessity.Some? && u.deadline.Some?
          && repository.Rows() == old(repository.Rows())[id := Updated(old(repository.Rows())[id], u)]
      ensures r.Failure? ==> repository.Rows() == old(repository.Rows())
    {
      var v := UpdateViolations(request, id);
      if v != {} {
        return Failure(ConstraintViolations(v));
      }
      if id !in repository.orders {
        return Failure(NotFound(OrderNotFound(id)));
      }
      r := Revise(repository, request, id, manager.Tables());
    }

    /** updateObservation: validation, then the lookup; only the observation changes. */
    method UpdateObservation(observation: string, id: string) returns (r: Result<Order>)
      requires repository.Valid()
      modifies repository.orders.Values
      ensures repository.Valid() && repository.orders == old(repository.orders)
      ensures !(!IsBlank(observation) && IsUuid(id)) ==>
        r == Failure(ConstraintViolations(ObservationViolations(observation, id)))
      ensures !IsBlank(observation) && IsUuid(id) && id !in repository.orders ==>
        r == Failure(NotFound(OrderNotFound(id)))
      ensures !IsBlank(observation) && IsUuid(id) && id in repository.orders ==>
        && r == Success(repository.orders[id])
        && repository.Rows() == old(repository.Rows())[id := old(repository.Rows())[id].(observation := Some(observation))]
      ensures r.Failure? ==> repository.Rows() == old(repository.Rows())
    {
      var v := ObservationViolations(observation, id);
      if v != {} {
        return Failure(ConstraintViolations(v));
      }
      if id !in repository.orders {
        return Failure(NotFound(OrderNotFound(id)));
      }
      Annotate(repository, id, observation);
      r := Success(repository.orders[id]);
    }

    /** updateReference: validation, then the reference check (which also refuses the
        order's own current reference) before the lookup; only the reference changes. */
    method UpdateReference(reference: string, id: string) returns (r: Result<Order>)
      requires repository.Valid()
      modifies repository.orders.Values
      ensures repository.Valid() && repository.orders == old(repository.orders)
      ensures !ReferenceRequestValid(reference, id) ==>
        r == Failure(ConstraintViolations(ReferenceViolations(reference, id)))
      ensures ReferenceRequestValid(reference, id) && ReferenceInUse(old(repository.Rows()), reference) ==>
        r == Failure(AlreadyExists(ReferenceExists(reference)))
      ensures (ReferenceRequestValid(reference, id) && !ReferenceInUse(old(repository.Rows()), reference)
        && id !in repository.orders) ==>
        r == Failure(NotFound(OrderNotFound(id)))
      ensures (ReferenceRequestValid(reference, id) && !ReferenceInUse(old(repository.Rows()), reference)
        && id in repository.orders) ==>
        && r == Success(repository.orders[id])
        && repository.Rows() == old(repository.Rows())[id := old(repository.Rows())[id].(brokerReference := Some(reference))]
      ensures r.Failure? ==> repository.Rows() == old(repository.Rows())
    {
      var v := ReferenceViolations(reference, id);
      if v != {} {
        return Failure(ConstraintViolations(v));
      }
      if ReferenceInUse(repository.Rows(), reference) {
        return Failure(AlreadyExists(ReferenceExists(reference)));
      }
      if id !in repository.orders {
        return Failure(NotFound(OrderNotFound(id)));
      }
      Refer(repository, id, reference);
      r := Success(repository.orders[id]);
    }

    /** delete: validation of the id, then the lookup; exactly that order is removed and
        returned. */
    method Delete(id: string) returns (r: Result<Order>)
      requires repository.Valid()
      modifies repository
      ensures repository.Valid()
      ensures !IsUuid(id) ==> r == Failure(ConstraintViolations(IdViolations("id", id)))
      ensures IsUuid(id) && id !in old(repository.orders) ==> r == Failure(NotFound(OrderNotFound(id)))
      ensures r.Failure? ==> repository.orders == old(repository.orders) && repository.Rows() == old(repository.Rows())
      ensures IsUuid(id) && id in old(repository.orders) ==>
        && r == Success(old(repository.orders)[id])
        && repository.orders == old(repository.orders) - {id}
        && repository.Rows() == old(repository.Rows()) - {id}
    {
      var v := IdViolations("id", id);
      if v != {} {
        return Failure(ConstraintViolations(v));
      }
      if id !in repository.orders {
        return Failure(NotFound(OrderNotFound(id)));
      }
      ghost var before := repository.Rows();
      var order := repository.orders[id];
      repository.orders := repository.orders - {id};
      assert repository.Rows() == before - {id};
      RemoveKeepsRowsValid(before, id);
      r := Success(order);
    }
  }

  /** toModel followed by repository.save, for an admissible request whose number no
      order has: the order the resolution builds becomes one more row. */
  method Admit(repository: OrderRepository, request: NewOrderRequest, lookups: Lookups, newId: Id)
    returns (r: Result<Order>)
    requires repository.Valid() && newId !in repository.orders
    requires Admissible(request) && !InUse(repository.Rows(), NumberOf, request.number)
    modifies repository
    ensures repository.Valid()
    ensures match Resolve(request, lookups)
      case Failure(e) =>
        r == Failure(e) && repository.orders == old(repository.orders) && repository.Rows() == old(repository.Rows())
      case Success(res) =>
        && r.Success? && fresh(r.value) && r.value.id == newId
        && repository.orders == old(repository.orders)[newId := r.value]
        && repository.Rows() == old(repository.Rows())[newId := Built(newId, res)]
  {
    ghost var before := repository.Rows();
    var order := ToModel(request, lookups, newId);
    if order.Failure? {
      return Failure(order.error);
    }
    assert repository.Rows() == before;
    Store(repository, order.value, request, lookups);
    r := order;
  }

  /** Admit as ManageOrderService does it: the built order's route notice is sent between
      toModel and save, so a failed resolution sends nothing. */
  method AdmitNotifying(repository: OrderRepository, request: NewOrderRequest, lookups: Lookups, newId: Id)
    returns (r: Result<Order>, sent: seq<NotifyRouteRequest>)
    requires repository.Valid() && newId !in repository.orders
    requires Admissible(request) && !InUse(repository.Rows(), NumberOf, request.number)
    modifies repository
    ensures repository.Valid()
    ensures match Resolve(request, lookups)
      case Failure(e) =>
        && r == Failure(e) && sent == []
        && repository.orders == old(repository.orders) && repository.Rows() == old(repository.Rows())
      case Success(res) =>
        && r.Success? && fresh(r.value) && r.value.id == newId
        && sent == RouteNotices(Built(newId, res))
        && repository.orders == old(repository.orders)[newId := r.value]
        && repository.Rows() == old(repository.Rows())[newId := Built(newId, res)]
  {
    ghost var before := repository.Rows();
    var order := ToModel(request, lookups, newId);
    if order.Failure? {
      return Failure(order.error), [];
    }
    sent := RouteNotices(order.value.Record());
    assert repository.Rows() == before;
    Store(repository, order.value, request, lookups);
    r := order;
  }

  /** repository.save of the order toModel built from an admissible request whose number
      no order has. */
  method Store(repository: OrderRepository, order: Order, request: NewOrderRequest, lookups: Lookups)
    requires repository.Valid() && order.id !in repository.orders && order !in repository.orders.Values
    requires Admissible(request) && Resolve(request, lookups).Success?
    requires order.Record() == Built(order.id, Resolve(request, lookups).value)
    requires !InUse(repository.Rows(), NumberOf, request.number)
    modifies repository
    ensures repository.Valid()
    ensures repository.orders == old(repository.orders)[order.id := order]
    ensures repository.Rows() == old(repository.Rows())[order.id := Built(order.id, Resolve(request, lookups).value)]
  {
    ghost var row := Built(order.id, Resolve(request, lookups).value);
    BuiltIsStored(request, lookups, order.id);
    Save(repository, order, row);
  }

  /** toUpdateRequest followed by Order.update on a stored order, for a request without
      violations. */
  method Revise(repository: OrderRepository, request: UpdateOrderRequest, id: Id, lookups: Lookups)
    returns (r: Result<Order>)
    requires repository.Valid() && id in repository.orders && UpdateRequestValid(request)
    modifies repository.orders.Values
    ensures repository.Valid() && repository.orders == old(repository.orders)
    ensures match ToUpdateRequest(request, lookups)
      case Failure(e) => r == Failure(e) && repository.Rows() == old(repository.Rows())
      case Success(u) =>
        && r == Success(repository.orders[id])
        && u.necessity.Some? && u.deadline.Some?
        && repository.Rows() == old(repository.Rows())[id := Updated(old(repository.Rows())[id], u)]
  {
    UpdateResolutionOrder(request, lookups);
    var u := ToUpdateRequest(request, lookups);
    if u.Failure? {
      return Failure(u.error);
    }
    Change(repository, id, u.value);
    r := Success(repository.orders[id]);
  }

  /** repository.save of an order built by toModel whose number is free. */
  method Save(repository: OrderRepository, order: Order, ghost row: OrderRecord)
    requires repository.Valid() && order.id !in repository.orders && order !in repository.orders.Values
    requires order.Record() == row && Stored(row) && row.event == EmptyEvent(order.id)
    requires !InUse(repository.Rows(), NumberOf, row.number) && row.brokerReference.None?
    modifies repository
    ensures repository.Valid()
    ensures repository.orders == old(repository.orders)[order.id := order]
    ensures repository.Rows() == old(repository.Rows())[order.id := row]
  {
    ghost var before := repository.Rows();
    repository.orders := repository.orders[order.id := order];
    assert repository.Rows() == before[order.id := row];
    StoreKeepsRowsValid(before, order.id, row);
  }

  /** Order.update applied to the stored order under the key. */
  method Change(repository: OrderRepository, id: Id, u: UpdateRequest)
    requires repository.Valid() && id in repository.orders
    requires u.necessity.Some? && u.deadline.Some?
    modifies repository.orders.Values
    ensures repository.Valid() && repository.orders == old(repository.orders)
    ensures repository.Rows() == old(repository.Rows())[id := Updated(old(repository.Rows())[id], u)]
  {
    var order := repository.orders[id];
    ghost var before := repository.Rows();
    order.Update(u);
    assert repository.Rows() == before[id := order.Record()] by {
      forall k | k in repository.orders && k != id ensures repository.orders[k] != order {
        assert repository.orders[k].id == k;
      }
    }
    RewriteKeepsRowsValid(before, id, order.Record());
  }

  /** Order.updateObservation applied to the stored order under the key. */
  method Annotate(repository: OrderRepository, id: Id, observation: string)
    requires repository.Valid() && id in repository.orders
    modifies repository.orders.Values
    ensures repository.Valid() && repository.orders == old(repository.orders)
    ensures repository.Rows() == old(repository.Rows())[id := old(repository.Rows())[id].(observation := Some(observation))]
  {
    var order := repository.orders[id];
    ghost var before := repository.Rows();
    order.UpdateObservation(observation);
    assert repository.Rows() == before[id := order.Record()] by {
      forall k | k in repository.orders && k != id ensures repository.orders[k] != order {
        assert repository.orders[k].id == k;
      }
    }
    RewriteKeepsRowsValid(before, id, order.Record());
  }

  /** Order.updateReference applied to the stored order under the key, with a reference
      no order has. */
  method Refer(repository: OrderRepository, id: Id, reference: string)
    requires repository.Valid() && id in repository.orders
    requires !ReferenceInUse(repository.Rows(), reference)
    modifies repository.orders.Values
    ensures repository.Valid() && repository.orders == old(repository.orders)
    ensures repository.Rows() == old(repository.Rows())[id := old(repository.Rows())[id].(brokerReference := Some(reference))]
  {
    var order := repository.orders[id];
    ghost var before := repository.Rows();
    order.UpdateReference(reference);
    assert repository.Rows() == before[id := order.Record()] by {
      forall k | k in repository.orders && k != id ensures repository.orders[k] != order {
        assert repository.orders[k].id == k;
      }
    }
    RewriteKeepsRowsValid(before, id, order.Record());
  }

  // ---------------------------------------------------------------- route notification

  /** The kind of operation a route notice carries; the order service only sends IMPORT. */
  datatype OperationType = IMPORT

  datatype NotifyRouteRequest = NotifyRouteRequest(exporterCode: string, importerPlant: string, name: string, kind: OperationType)

  /** notifyRoute: one IMPORT notification with the exporter's code, the importer's
      plant and the route's name when the route is neither null nor blank, else none. */
  function RouteNotices(r: OrderRecord): (n: seq<NotifyRouteRequest>)
    ensures |n| <= 1
    ensures |n| == 1 <==> r.route.Some? && !IsKotlinBlank(r.route.value)
    ensures |n| == 1 ==> n[0] == NotifyRouteRequest(r.exporter.code, r.importer.plant, r.route.value, IMPORT)
  {
    if r.route.Some? && !IsKotlinBlank(r.route.value)
    then [NotifyRouteRequest(r.exporter.code, r.importer.plant, r.route.value, IMPORT)]
    else []
  }

  /** ManageOrderService: OrderService with route notices to the route service. The
      notices a call sends are returned alongside its result, in the order sent. */
  class ManageOrderService {
    const repository: OrderRepository
    const manager: EntityManager

    constructor (repository: OrderRepository, manager: EntityManager)
      ensures this.repository == repository && this.manager == manager
    {
      this.repository := repository;
      this.manager := manager;
    }

    /** create: as OrderService.create, with the route notice of the built order sent once
        toModel has succeeded and before the order is saved; a failure sends nothing. */
    method Create(request: NewOrderRequest, newId: Id, today: Date) returns (r: Result<Order>, sent: seq<NotifyRouteRequest>)
      requires repository.Valid() && newId !in repository.orders
      modifies repository
      ensures repository.Valid()
      ensures !RequestValid(request, today) ==>
        r == Failure(ConstraintViolations(NewOrderViolations(request, today)))
      ensures RequestValid(request, today) && InUse(old(repository.Rows()), NumberOf, request.number) ==>
        r == Failure(AlreadyExists(OrderExists(request.number)))
      ensures RequestValid(request, today) && !InUse(old(repository.Rows()), NumberOf, request.number) ==>
        && Convertible(request)
        && match Resolve(request, manager.Tables())
           case Failure(e) => r == Failure(e)
           case Success(res) =>
             && r.Success? && fresh(r.value) && r.value.id == newId
             && repository.orders == old(repository.orders)[newId := r.value]
             && repository.Rows() == old(repository.Rows())[newId := Built(newId, res)]
             && sent == RouteNotices(Built(newId, res))
      ensures r.Failure? ==>
        && repository.orders == old(repository.orders) && repository.Rows() == old(repository.Rows())
        && sent == []
    {
      var before := repository.Rows();
      var v := NewOrderViolations(request, today);
      if v != {} {
        return Failure(ConstraintViolations(v)), [];
      }
      if InUse(before, NumberOf, request.number) {
        return Failure(AlreadyExists(OrderExists(request.number))), [];
      }
      ValidRequestAdmissible(request, today);
      r, sent := AdmitNotifying(repository, request, manager.Tables(), newId);
    }

    /** update: as OrderService.update, except that once the order is found its route
        notice, from the stored order, is sent before toUpdateRequest runs; so a later
        lookup or parse failure still leaves the notice sent. */
    method Update(request: UpdateOrderRequest, id: string) returns (r: Result<Order>, sent: seq<NotifyRouteRequest>)
      requires repository.Valid()
      modifies repository.orders.Values
      ensures repository.Valid() && repository.orders == old(repository.orders)
      ensures !(UpdateRequestValid(request) && IsUuid(id)) ==>
        r == Failure(ConstraintViolations(UpdateViolations(request, id))) && sent == []
      ensures UpdateRequestValid(request) && IsUuid(id) && id !in repository.orders ==>
        r == Failure(NotFound(OrderNotFound(id))) && sent == []
      ensures UpdateRequestValid(request) && IsUuid(id) && id in repository.orders ==>
        && sent == RouteNotices(old(repository.Rows())[id])
        && match ToUpdateRequest(request, manager.Tables())
           case Failure(e) => r == Failure(e)
           case Success(u) =>
             && r == Success(repository.orders[id])
             && u.necessity.Some? && u.deadline.Some?
             && repository.Rows() == old(repository.Rows())[id := Updated(old(repository.Rows())[id], u)]
      ensures r.Failure? ==> repository.Rows() == old(repository.Rows())
    {
      sent := [];
      var v := UpdateViolations(request, id);
      if v != {} {
        return Failure(ConstraintViolations(v)), sent;
      }
      if id !in repository.orders {
        return Failure(NotFound(OrderNotFound(id))), sent;
      }
      sent := RouteNotices(repository.orders[id].Record());
      r := Revise(repository, request, id, manager.Tables());
    }
  }
}
