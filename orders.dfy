/** The order aggregate: an order process from an exporter to an importer, with its item
    lines and its tracking event. Origin, destination, exporter, number, importer and date
    are fixed when the order is built; the other columns change through the update
    operations. */
module Orders {
  import opened Common
  import opened StringUtils
  import Exporters
  import Importers
  import Users
  import DeliveryPlaces
  import Materials

  /** The life-cycle states of an order; an order is built in PENDING_APPROVAL and no
      operation moves it. */
  datatype Status =
    | PENDING_APPROVAL | PENDING_DOCUMENTATION | WORKING_ON | FUTURE
    | PENDING_DEPARTURE_CONFIRMATION | PENDING_ARRIVAL_CONFIRMATION
    | PENDING_CUSTOMS_CLEARANCE | PENDING_SAP_CHECK | PENDING_MATTERS
    | PENDING_FINALIZATION | CONCLUDED

  /** A transport modal, by the name of its constant (ROAD, ...). */
  type Modal = string

  /** A delivery place as the order holds it: the row's key and its columns. */
  datatype PlaceRef = PlaceRef(id: Id, place: DeliveryPlaces.DeliveryPlace)

  /** One item line: a quantity of a material. */
  datatype Item = Item(quantity: Decimal, material: Materials.Material)

  /** The tracking event of an order: the key of its order and seven milestone dates. */
  datatype Event = Event(
    order: Id,
    availability: Option<Date>,
    estimatedDeparture: Option<Date>,
    realDeparture: Option<Date>,
    estimatedArrival: Option<Date>,
    realArrival: Option<Date>,
    preAlert: Option<Date>,
    wrongNecessityAlert: Option<Date>)

  /** The event an order is built with: back-referencing the order, no milestone set. */
  function EmptyEvent(order: Id): (e: Event)
    ensures e.order == order
    ensures e.availability.None? && e.estimatedDeparture.None? && e.realDeparture.None?
    ensures e.estimatedArrival.None? && e.realArrival.None?
    ensures e.preAlert.None? && e.wrongNecessityAlert.None?
  {
    Event(order, None, None, None, None, None, None, None)
  }

  /** The arguments of the Order constructor. */
  datatype OrderDraft = OrderDraft(
    origin: string,
    destination: string,
    exporter: Exporters.Exporter,
    number: string,
    importer: Importers.Importer,
    date: Date,
    responsible: Users.User,
    modal: Modal,
    necessity: Date,
    deadline: Date,
    observation: Option<string>,
    deliveryPlace: Option<PlaceRef>,
    route: Option<string>)

  /** Every column of an order. */
  datatype OrderRecord = OrderRecord(
    origin: string,
    destination: string,
    exporter: Exporters.Exporter,
    number: string,
    importer: Importers.Importer,
    date: Date,
    responsible: Users.User,
    modal: Modal,
    necessity: Date,
    deadline: Date,
    observation: Option<string>,
    deliveryPlace: Option<PlaceRef>,
    route: Option<string>,
    status: Status,
    brokerReference: Option<string>,
    items: Option<seq<Item>>,
    event: Event)

  /** The order a draft builds before its items are included. */
  function Initial(id: Id, d: OrderDraft): (r: OrderRecord)
    ensures r.status == PENDING_APPROVAL && r.brokerReference.None? && r.items.None?
    ensures r.event == EmptyEvent(id)
  {
    OrderRecord(d.origin, d.destination, d.exporter, d.number, d.importer, d.date,
      d.responsible, d.modal, d.necessity, d.deadline, d.observation, d.deliveryPlace,
      d.route, PENDING_APPROVAL, None, None, EmptyEvent(id))
  }

  function NumberOf(r: OrderRecord): string {
    r.number
  }

  /** The resolved form of an update: the new delivery place, modal, necessity,
      responsible, deadline and route. */
  datatype UpdateRequest = UpdateRequest(
    deliveryPlace: Option<PlaceRef>,
    modal: Modal,
    necessity: Option<Date>,
    responsible: Users.User,
    deadline: Option<Date>,
    route: Option<string>)

  /** The order after an update: the delivery place, modal, necessity, responsible and
      deadline are the request's; every other column keeps its value. */
  function Updated(r: OrderRecord, u: UpdateRequest): (s: OrderRecord)
    requires u.necessity.Some? && u.deadline.Some?
    ensures s.deliveryPlace == u.deliveryPlace && s.modal == u.modal && s.responsible == u.responsible
    ensures s.necessity == u.necessity.value && s.deadline == u.deadline.value
    ensures s.origin == r.origin && s.destination == r.destination && s.exporter == r.exporter
    ensures s.number == r.number && s.importer == r.importer && s.date == r.date
    ensures s.observation == r.observation && s.route == r.route && s.status == r.status
    ensures s.brokerReference == r.brokerReference && s.items == r.items && s.event == r.event
  {
    r.(deliveryPlace := u.deliveryPlace, modal := u.modal, necessity := u.necessity.value,
       responsible := u.responsible, deadline := u.deadline.value)
  }

  /** The response shape of one item line. */
  datatype ItemResponse = ItemResponse(code: string, description: string, quantity: Decimal)

  /** The response shape of the event: each milestone as text. */
  datatype EventResponse = EventResponse(
    availability: string,
    estimatedDeparture: string,
    realDeparture: string,
    estimatedArrival: string,
    realArrival: string,
    preAlert: string,
    wrongNecessityAlert: string)

  datatype OrderResponse = OrderResponse(
    origin: string,
    destination: string,
    exporter: string,
    items: seq<ItemResponse>,
    number: string,
    importer: string,
    date: string,
    responsible: string,
    modal: Modal,
    necessity: string,
    deadline: string,
    observation: string,
    deliveryPlace: string,
    id: Id,
    events: EventResponse)

  /** `toString` of a nullable date: "null" or the ISO text. */
  function DateText(d: Option<Date>): (s: string)
    ensures d.Some? ==> ParseIsoDate(s) == d
  {
    match d
    case None => "null"
    case Some(x) => ParseFormatIsoDate(x); FormatIsoDate(x)
  }

  /** `?: ""` on a nullable text. */
  function OrEmpty(s: Option<string>): (t: string)
    ensures s.Some? ==> t == s.value
    ensures s.None? ==> t == ""
  {
    if s.Some? then s.value else ""
  }

  /** The response lines of the items, one per item and in the same order. */
  function ItemLines(items: seq<Item>): (r: seq<ItemResponse>)
    reads set i | i in items :: i.material
    ensures |r| == |items|
    ensures forall k :: 0 <= k < |items| ==>
      r[k] == ItemResponse(items[k].material.code, items[k].material.description, items[k].quantity)
  {
    if |items| == 0 then []
    else
      [ItemResponse(items[0].material.code, items[0].material.description, items[0].quantity)]
      + ItemLines(items[1..])
  }

  class Order {
    const id: Id
    const origin: string
    const destination: string
    const exporter: Exporters.Exporter
    const number: string
    const importer: Importers.Importer
    const date: Date
    var responsible: Users.User
    var modal: Modal
    var necessity: Date
    var deadline: Date
    var observation: Option<string>
    var deliveryPlace: Option<PlaceRef>
    const route: Option<string>
    const status: Status
    var brokerReference: Option<string>
    var items: Option<seq<Item>>
    const event: Event

    /** A new order: status PENDING_APPROVAL, no broker reference, no items yet, and an
        empty event belonging to this order. */
    constructor (id: Id, d: OrderDraft)
      ensures this.id == id && Record() == Initial(id, d)
    {
      this.id := id;
      origin := d.origin;
      destination := d.destination;
      exporter := d.exporter;
      number := d.number;
      importer := d.importer;
      date := d.date;
      responsible := d.responsible;
      modal := d.modal;
      necessity := d.necessity;
      deadline := d.deadline;
      observation := d.observation;
      deliveryPlace := d.deliveryPlace;
      route := d.route;
      status := PENDING_APPROVAL;
      brokerReference := None;
      items := None;
      event := EmptyEvent(id);
    }

    function Record(): OrderRecord
      reads this
    {
      OrderRecord(origin, destination, exporter, number, importer, date, responsible, modal,
        necessity, deadline, observation, deliveryPlace, route, status, brokerReference,
        items, event)
    }

    /** includeItems: the item list is replaced wholesale; nothing else changes. */
    method IncludeItems(items: seq<Item>)
      modifies this
      ensures Record() == old(Record()).(items := Some(items))
    {
      this.items := Some(items);
    }

    /** update: the columns an UpdateRequest carries, except the route. */
    method Update(u: UpdateRequest)
      requires u.necessity.Some? && u.deadline.Some?
      modifies this
      ensures Record() == Updated(old(Record()), u)
    {
      deliveryPlace := u.deliveryPlace;
      modal := u.modal;
      necessity := u.necessity.value;
      responsible := u.responsible;
      deadline := u.deadline.value;
    }

    /** updateObservation: the observation becomes the given text; nothing else changes. */
    method UpdateObservation(observation: string)
      modifies this
      ensures Record() == old(Record()).(observation := Some(observation))
    {
      this.observation := Some(observation);
    }

    /** updateReference: the broker reference becomes the given text; nothing else changes. */
    method UpdateReference(reference: string)
      modifies this
      ensures Record() == old(Record()).(brokerReference := Some(reference))
    {
      brokerReference := Some(reference);
    }

    /** The materials the item lines refer to. */
    function ItemMaterials(): set<Materials.Material>
      reads this
    {
      if items.None? then {} else set i | i in items.value :: i.material
    }

    /** toGrpcOrderResponse: the columns as text; a null observation or delivery place
        becomes "", an item line shows its material's code and description, and a
        milestone that is not set shows as "null". */
    function Response(): (r: OrderResponse)
      requires items.Some?
      reads this, exporter, ItemMaterials()
      ensures r.id == id && r.origin == origin && r.destination == destination && r.number == number
      ensures r.exporter == exporter.name && r.importer == importer.plant && r.responsible == responsible.name
      ensures r.modal == modal
      ensures observation.None? ==> r.observation == ""
      ensures observation.Some? ==> r.observation == observation.value
      ensures deliveryPlace.None? ==> r.deliveryPlace == ""
      ensures deliveryPlace.Some? ==> r.deliveryPlace == deliveryPlace.value.place.name
      ensures ParseIsoDate(r.date) == Some(date) && ParseIsoDate(r.necessity) == Some(necessity)
      ensures ParseIsoDate(r.deadline) == Some(deadline)
      ensures |r.items| == |items.value|
      ensures forall i :: 0 <= i < |r.items| ==>
        var line := items.value[i];
        r.items[i] == ItemResponse(line.material.code, line.material.description, line.quantity)
      ensures event == EmptyEvent(id) ==>
        r.events == EventResponse("null", "null", "null", "null", "null", "null", "null")
    {
      OrderResponse(origin, destination, exporter.name, ItemLines(items.value), number, importer.plant,
        DateText(Some(date)), responsible.name, modal, DateText(Some(necessity)),
        DateText(Some(deadline)), OrEmpty(observation),
        OrEmpty(if deliveryPlace.Some? then Some(deliveryPlace.value.place.name) else None), id,
        EventResponse(DateText(event.availability), DateText(event.estimatedDeparture),
          DateText(event.realDeparture), DateText(event.estimatedArrival),
          DateText(event.realArrival), DateText(event.preAlert),
          DateText(event.wrongNecessityAlert)))
    }
  }
}
