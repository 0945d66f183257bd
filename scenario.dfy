/**
 * The example session of the item API, proved against the handler's
 * contracts on one new, empty table with no storage failure: an item created
 * without an id is read back and listed, then updated, then deleted, after
 * which reading it gives 404. Each step states the table it leaves behind.
 */
module Scenario {
  import opened Wrappers
  import opened JsonValue
  import opened Storage
  import opened UpdateBuilder
  import opened Handler

  /** The create body `{"message": "hello"}`. */
  const Hello: JsonObject := [("message", Str("hello"))]

  /** The item `Hello` becomes once created with `freshId`. */
  function HelloItem(freshId: string): Item {
    map["id" := Str(freshId), "message" := Str("hello")]
  }

  /** `Hello` has no `id`, so the created item takes the generated one. */
  lemma CreateHello(freshId: string)
    ensures CreateItem(Hello, freshId) == HelloItem(freshId)
    ensures NamedAttributes(HelloItem(freshId))
  {
    assert Hello[0].0 == "message";
    assert KeySet(Hello) == {"message"};
    assert Property(Hello, KeyAttribute).None?;
  }

  /** Creates `Hello` on `table`, which must be empty. */
  method PostHello(table: Table, freshId: string) returns (created: Response)
    requires table.Valid() && table.items == map[] && freshId != ""
    modifies table
    ensures table.Valid() && table.items == map[freshId := HelloItem(freshId)]
    ensures created == Response(201, ItemBody(HelloItem(freshId)))
  {
    var post := Event("POST", CollectionPath, None, Some(Parsed(Hello)));
    assert Routed(post, CreateRoute);
    CreateHello(freshId);
    created := Handle(table, post, freshId, None);
  }

  /** Reads the hello item back by its id, then lists the table; nothing changes. */
  method ReadAndList(table: Table, freshId: string) returns (read: Response, listed: Response)
    requires table.Valid() && table.items == map[freshId := HelloItem(freshId)] && freshId != ""
    modifies table
    ensures table.Valid() && table.items == map[freshId := HelloItem(freshId)]
    ensures read == Response(200, ItemBody(HelloItem(freshId)))
    ensures listed == Response(200, ItemList([HelloItem(freshId)]))
  {
    var get := Event("GET", ItemPathPrefix + freshId, Some(freshId), None);
    assert Routed(get, ReadRoute);
    read := Handle(table, get, freshId, None);
    var list := Event("GET", CollectionPath, None, None);
    assert Routed(list, ListRoute);
    listed := Handle(table, list, freshId, None);
    EnumeratesSingle(listed.body.list, freshId, HelloItem(freshId));
  }

  /** The update body `{"message": "bye"}`. */
  const Bye: JsonObject := [("message", Str("bye"))]

  /** The hello item once updated with `Bye`. */
  function ByeItem(freshId: string): Item {
    map["id" := Str(freshId), "message" := Str("bye")]
  }

  /** Updating the hello item with `Bye` replaces its message and keeps its id. */
  lemma UpdateWithBye(before: map<string, Item>, after: map<string, Item>, k: string, response: Response)
    requires k != "" && before == map[k := HelloItem(k)]
    requires UpdateOutcome(Some(k), Assignments(Bye), None, before, after, response)
    ensures response == Response(200, ItemBody(ByeItem(k)))
    ensures after == map[k := ByeItem(k)]
  {
    assert Bye[0].0 == "message";
    AssignmentsWithoutKey(Bye);
    assert KeySet(Bye) == {"message"};
    assert Prior(before, k) == HelloItem(k);
    assert after[k].Keys == {"id", "message"};
    assert after[k]["message"] == Str("bye");
    assert after[k] == ByeItem(k);
  }

  /** Updates the hello item with `Bye`: same id, new message. */
  method PutBye(table: Table, freshId: string) returns (updated: Response)
    requires table.Valid() && table.items == map[freshId := HelloItem(freshId)] && freshId != ""
    modifies table
    ensures table.Valid() && table.items == map[freshId := ByeItem(freshId)]
    ensures updated == Response(200, ItemBody(ByeItem(freshId)))
  {
    var put := Event("PUT", ItemPathPrefix + freshId, Some(freshId), Some(Parsed(Bye)));
    assert Routed(put, UpdateRoute);
    ghost var before := table.items;
    updated := Handle(table, put, freshId, None);
    UpdateWithBye(before, table.items, freshId, updated);
  }

  /** Deletes the single stored item, then reads its id again: the confirmation, then 404. */
  method DeleteAndRead(table: Table, freshId: string, item: Item) returns (deleted: Response, readAgain: Response)
    requires table.Valid() && table.items == map[freshId := item] && freshId != ""
    modifies table
    ensures table.Valid() && table.items == map[]
    ensures deleted == Response(200, Deleted(freshId, "Item deleted"))
    ensures readAgain == Response(404, Message("Item not found"))
  {
    var path := ItemPathPrefix + freshId;
    var delete := Event("DELETE", path, Some(freshId), None);
    assert Routed(delete, DeleteRoute);
    deleted := Handle(table, delete, freshId, None);
    assert table.items == map[];
    var get := Event("GET", path, Some(freshId), None);
    assert Routed(get, ReadRoute);
    readAgain := Handle(table, get, freshId, None);
  }

  /**
   * The whole session on one new table: create, read, list, update, delete,
   * read again.
   */
  method Session(freshId: string)
    returns (created: Response, read: Response, listed: Response, updated: Response,
             deleted: Response, readAgain: Response)
    requires freshId != ""
    ensures created == Response(201, ItemBody(HelloItem(freshId)))
    ensures read == Response(200, ItemBody(HelloItem(freshId)))
    ensures listed == Response(200, ItemList([HelloItem(freshId)]))
    ensures updated == Response(200, ItemBody(ByeItem(freshId)))
    ensures deleted == Response(200, Deleted(freshId, "Item deleted"))
    ensures readAgain == Response(404, Message("Item not found"))
  {
    var table := new Table();
    created := PostHello(table, freshId);
    read, listed := ReadAndList(table, freshId);
    updated := PutBye(table, freshId);
    deleted, readAgain := DeleteAndRead(table, freshId, ByeItem(freshId));
  }
}
