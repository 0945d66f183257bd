/**
 * The Lambda request handler (`exports.handler`): it checks that a present
 * body parses, routes on the HTTP method and the path, runs one of five item
 * operations against the table, and answers with a status code and a JSON
 * payload. A storage failure is answered with 500 and the error's message.
 */
module Handler {
  import opened Wrappers
  import opened JsonValue
  import opened Storage
  import opened UpdateBuilder

  /** The outcome of `JSON.parse` on a non-empty request body. */
  datatype BodyParse = Parsed(obj: JsonObject) | Unparsable

  /**
   * The API Gateway proxy event, as far as the handler reads it: the method,
   * the full path, the `{id}` path parameter, and the body (`None` when the
   * body is absent or the empty string).
   */
  datatype Event = Event(httpMethod: string, path: string, pathId: Option<string>, body: Option<BodyParse>)

  /** The JSON payload of a response. */
  datatype Payload =
    | Message(message: string)
    | ItemBody(item: Item)
    | ItemList(list: seq<Item>)
    | Deleted(id: string, message: string)

  datatype Response = Response(statusCode: int, body: Payload)

  const InvalidJsonBody: string := "Invalid JSON body"
  const ItemNotFound: string := "Item not found"
  const NothingToUpdate: string := "Nothing to update"
  const ItemDeleted: string := "Item deleted"
  const NotFound: string := "Not Found"

  /** The collection path, matched exactly. */
  const CollectionPath: string := "/items"
  /** The prefix of a single item's path, matched as a prefix. */
  const ItemPathPrefix: string := "/items/"

  datatype Route = CreateRoute | ReadRoute | UpdateRoute | DeleteRoute | ListRoute | Unmatched

  /**
   * The handler's chain of route tests. The tests exclude each other, so each
   * route is characterised on its own, whatever the order of the chain.
   */
  function RouteOf(httpMethod: string, path: string): (r: Route)
    ensures r == CreateRoute <==> path == CollectionPath && httpMethod == "POST"
    ensures r == ReadRoute <==> ItemPathPrefix <= path && httpMethod == "GET"
    ensures r == UpdateRoute <==> ItemPathPrefix <= path && httpMethod == "PUT"
    ensures r == DeleteRoute <==> ItemPathPrefix <= path && httpMethod == "DELETE"
    ensures r == ListRoute <==> path == CollectionPath && httpMethod == "GET"
  {
    if path == CollectionPath && httpMethod == "POST" then CreateRoute
    else if ItemPathPrefix <= path && httpMethod == "GET" then ReadRoute
    else if ItemPathPrefix <= path && httpMethod == "PUT" then UpdateRoute
    else if ItemPathPrefix <= path && httpMethod == "DELETE" then DeleteRoute
    else if path == CollectionPath && httpMethod == "GET" then ListRoute
    else Unmatched
  }

  /** The body the operations see: the parsed object, or `{}` when there is none. */
  function BodyOf(event: Event): (b: JsonObject)
    ensures event.body.Some? && event.body.value.Parsed? ==> b == event.body.value.obj
    ensures event.body.None? ==> b == []
  {
    match event.body
    case Some(Parsed(o)) => o
    case _ => []
  }

  /**
   * The item a create request writes: `{ id, ...body }` where `id` is
   * `body.id` if truthy and the generated id otherwise.
   */
  function CreateItem(body: JsonObject, freshId: string): (item: Item)
    ensures item.Keys == KeySet(body) + {KeyAttribute}
    ensures forall i :: 0 <= i < |body| ==> item[body[i].0] == body[i].1
    // the spread comes last, so a present `id`, even a falsy one, is kept
    ensures Property(body, KeyAttribute).Some? ==> item[KeyAttribute] == Property(body, KeyAttribute).value
    ensures Property(body, KeyAttribute).None? ==> item[KeyAttribute] == Str(freshId)
  {
    var bodyId := Property(body, KeyAttribute);
    var id := if Truthy(bodyId) then bodyId.value else Str(freshId);
    map[KeyAttribute := id] + AsMap(body)
  }

  /** The created item has an empty attribute name exactly when the body has an empty key. */
  lemma CreateItemNamed(body: JsonObject, freshId: string)
    ensures NamedAttributes(CreateItem(body, freshId)) <==> "" !in KeySet(body)
  {
  }

  /** The request passed the body check and was routed to `route`. */
  ghost predicate Routed(event: Event, route: Route) {
    event.body != Some(Unparsable) && RouteOf(event.httpMethod, event.path) == route
  }

  /** The request reaches the table: a routed operation that was not rejected first. */
  ghost predicate ReachesStorage(event: Event) {
    && event.body != Some(Unparsable)
    && RouteOf(event.httpMethod, event.path) != Unmatched
    && !(RouteOf(event.httpMethod, event.path) == UpdateRoute && Assignments(BodyOf(event)) == [])
  }

  /**
   * A failed storage call is answered with 500 and the error's message, and
   * the table is as it was. The key check is DynamoDB's; the fault is any
   * other backend failure.
   */
  ghost predicate FailureAnswered(key: Option<string>, fault: Option<string>,
                                  before: map<string, Item>, after: map<string, Item>, response: Response)
  {
    && (fault.Some? ==> response == Response(500, Message(fault.value)) && after == before)
    && (fault.None? && !ValidKey(key) ==> response == Response(500, Message(KeySchemaMismatch)) && after == before)
  }

  /**
   * Create: 201 with the item written, which replaces whatever its id held;
   * an item with an empty attribute name is refused with 500.
   */
  ghost predicate CreateOutcome(item: Item, fault: Option<string>,
                                before: map<string, Item>, after: map<string, Item>, response: Response)
  {
    && FailureAnswered(ItemKey(item), fault, before, after, response)
    && (fault.None? && ValidKey(ItemKey(item)) && !NamedAttributes(item) ==>
          response == Response(500, Message(EmptyAttributeName)) && after == before)
    && (fault.None? && ValidKey(ItemKey(item)) && NamedAttributes(item) ==>
          response == Response(201, ItemBody(item)) && after == before[ItemKey(item).value := item])
  }

  /** Read: 404 for an absent id, otherwise 200 with exactly the stored item. */
  ghost predicate ReadOutcome(id: Option<string>, fault: Option<string>,
                              before: map<string, Item>, after: map<string, Item>, response: Response)
  {
    && FailureAnswered(id, fault, before, after, response)
    && after == before
    && (fault.None? && ValidKey(id) && id.value !in before ==> response == Response(404, Message(ItemNotFound)))
    && (fault.None? && ValidKey(id) && id.value in before ==> response == Response(200, ItemBody(before[id.value])))
  }

  /**
   * Update: the item under the path id (created when absent) gets every
   * assigned attribute, keeps every other attribute and its key, no other
   * item changes, and the whole new item is answered with 200.
   */
  ghost predicate UpdateOutcome(id: Option<string>, asg: seq<(string, Json)>, fault: Option<string>,
                                before: map<string, Item>, after: map<string, Item>, response: Response)
  {
    && FailureAnswered(id, fault, before, after, response)
    && (fault.None? && ValidKey(id) ==>
          && MergedInto(before, after, id.value, asg)
          && response == Response(200, ItemBody(after[id.value])))
  }

  /** Delete: 200 with the id and a confirmation whether or not the id was stored; the id is gone. */
  ghost predicate DeleteOutcome(id: Option<string>, fault: Option<string>,
                                before: map<string, Item>, after: map<string, Item>, response: Response)
  {
    && FailureAnswered(id, fault, before, after, response)
    && (fault.None? && ValidKey(id) ==>
          && response == Response(200, Deleted(id.value, ItemDeleted))
          && after == before - {id.value})
  }

  /** List: 200 with every stored item, each once, the table unchanged. */
  ghost predicate ListOutcome(fault: Option<string>,
                              before: map<string, Item>, after: map<string, Item>, response: Response)
  {
    && after == before
    && (fault.Some? ==> response == Response(500, Message(fault.value)))
    && (fault.None? ==> response.statusCode == 200 && response.body.ItemList? && Enumerates(response.body.list, before))
  }

  /** The create branch. */
  method Create(table: Table, body: JsonObject, freshId: string, fault: Option<string>) returns (response: Response)
    requires table.Valid()
    modifies table
    ensures table.Valid()
    ensures table.calls == old(table.calls) + [PutCall(CreateItem(body, freshId))]
    ensures CreateOutcome(CreateItem(body, freshId), fault, old(table.items), table.items, response)
  {
    var item := CreateItem(body, freshId);
    var r := table.Put(item, fault);
    response := if r.Ok? then Response(201, ItemBody(item)) else Response(500, Message(r.message));
  }

  /** The single-item read branch. */
  method Read(table: Table, id: Option<string>, fault: Option<string>) returns (response: Response)
    requires table.Valid()
    modifies table
    ensures table.Valid()
    ensures table.calls == old(table.calls) + [GetCall(id)]
    ensures ReadOutcome(id, fault, old(table.items), table.items, response)
  {
    var r := table.Get(id, fault);
    response := match r
      case Failed(m) => Response(500, Message(m))
      case Ok(None) => Response(404, Message(ItemNotFound))
      case Ok(Some(item)) => Response(200, ItemBody(item));
  }

  /** The update branch: builds the `SET` request and, unless it is empty, sends it. */
  method Update(table: Table, id: Option<string>, body: JsonObject, fault: Option<string>) returns (response: Response)
    requires table.Valid()
    modifies table
    ensures table.Valid()
    ensures Assignments(body) == [] ==>
      && response == Response(400, Message(NothingToUpdate))
      && table.items == old(table.items) && table.calls == old(table.calls)
    ensures Assignments(body) != [] ==>
      && table.calls == old(table.calls) + [UpdateCall(id, ClausesFor(Assignments(body)), ValuesFor(Assignments(body)))]
      && UpdateOutcome(id, Assignments(body), fault, old(table.items), table.items, response)
  {
    var clauses, values := BuildUpdate(body);
    BuiltRequest(body);
    if |clauses| == 0 {
      return Response(400, Message(NothingToUpdate));
    }
    ghost var before := table.items;
    var r := table.Update(id, clauses, values, fault);
    if fault.None? && ValidKey(id) {
      UpdateMerges(before, id.value, body);
    }
    response := if r.Ok? then Response(200, ItemBody(r.value)) else Response(500, Message(r.message));
  }

  /** The delete branch. */
  method Delete(table: Table, id: Option<string>, fault: Option<string>) returns (response: Response)
    requires table.Valid()
    modifies table
    ensures table.Valid()
    ensures table.calls == old(table.calls) + [DeleteCall(id)]
    ensures DeleteOutcome(id, fault, old(table.items), table.items, response)
  {
    var r := table.Delete(id, fault);
    response := if r.Ok? then Response(200, Deleted(id.value, ItemDeleted)) else Response(500, Message(r.message));
  }

  /** The list branch. */
  method List(table: Table, fault: Option<string>) returns (response: Response)
    requires table.Valid()
    modifies table
    ensures table.Valid()
    ensures table.calls == old(table.calls) + [ScanCall]
    ensures ListOutcome(fault, old(table.items), table.items, response)
  {
    var r := table.Scan(fault);
    response := if r.Ok? then Response(200, ItemList(r.value)) else Response(500, Message(r.message));
  }

  /**
   * `exports.handler`. `freshId` is the timestamp id a create request would
   * generate; `fault` is the error the one storage call, if made, fails with.
   */
  method Handle(table: Table, event: Event, freshId: string, fault: Option<string>) returns (response: Response)
    requires table.Valid()
    modifies table
    ensures table.Valid()
    // an unparsable body is rejected before anything else
    ensures event.body == Some(Unparsable) ==>
      && response == Response(400, Message(InvalidJsonBody))
      && table.items == old(table.items) && table.calls == old(table.calls)
    ensures Routed(event, Unmatched) ==>
      && response == Response(404, Message(NotFound))
      && table.items == old(table.items) && table.calls == old(table.calls)
    ensures Routed(event, UpdateRoute) && Assignments(BodyOf(event)) == [] ==>
      && response == Response(400, Message(NothingToUpdate))
      && table.items == old(table.items) && table.calls == old(table.calls)
    // every other request makes exactly one storage call; its failure is a 500
    ensures ReachesStorage(event) ==> |table.calls| == |old(table.calls)| + 1
    ensures ReachesStorage(event) && fault.Some? ==>
      response == Response(500, Message(fault.value)) && table.items == old(table.items)
    ensures Routed(event, CreateRoute) ==>
      && table.calls == old(table.calls) + [PutCall(CreateItem(BodyOf(event), freshId))]
      && CreateOutcome(CreateItem(BodyOf(event), freshId), fault, old(table.items), table.items, response)
    ensures Routed(event, ReadRoute) ==>
      && table.calls == old(table.calls) + [GetCall(event.pathId)]
      && ReadOutcome(event.pathId, fault, old(table.items), table.items, response)
    // the update targets the path id, never `body.id`
    ensures Routed(event, UpdateRoute) && Assignments(BodyOf(event)) != [] ==>
      var asg := Assignments(BodyOf(event));
      && table.calls == old(table.calls) + [UpdateCall(event.pathId, ClausesFor(asg), ValuesFor(asg))]
      && UpdateOutcome(event.pathId, asg, fault, old(table.items), table.items, response)
    ensures Routed(event, DeleteRoute) ==>
      && table.calls == old(table.calls) + [DeleteCall(event.pathId)]
      && DeleteOutcome(event.pathId, fault, old(table.items), table.items, response)
    ensures Routed(event, ListRoute) ==>
      && table.calls == old(table.calls) + [ScanCall]
      && ListOutcome(fault, old(table.items), table.items, response)
  {
    if event.body == Some(Unparsable) {
      return Response(400, Message(InvalidJsonBody));
    }
    var body := BodyOf(event);
    match RouteOf(event.httpMethod, event.path)
    case CreateRoute =>
      response := Create(table, body, freshId, fault);
    case ReadRoute =>
      response := Read(table, event.pathId, fault);
    case UpdateRoute =>
      response := Update(table, event.pathId, body, fault);
    case DeleteRoute =>
      response := Delete(table, event.pathId, fault);
    case ListRoute =>
      response := List(table, fault);
    case Unmatched =>
      response := Response(404, Message(NotFound));
  }
}
