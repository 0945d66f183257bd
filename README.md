# Item CRUD API handler — a Dafny model

This project models the Lambda handler of a small serverless CRUD API
(`exports.handler` in `lambda/index.js`). The handler takes an API Gateway
proxy event. If a body is present it must parse, or the answer is 400
`Invalid JSON body`. The handler then routes on the HTTP method and the path:

- `POST /items` creates an item;
- `GET /items/{id}` reads one;
- `PUT /items/{id}` updates it through a `SET` update expression built from the body;
- `DELETE /items/{id}` removes it;
- `GET /items` lists the whole table.

Anything else is answered 404 `Not Found`. Any storage error is caught and
answered 500 with the error's message.

The DynamoDB table is the `Storage.Table` class. Its state is a map from the
string partition key `id` to the stored attribute map, plus a ghost log of the
storage calls made. Its methods `Put`, `Get`, `Update`, `Delete` and `Scan`
give the DocumentClient calls their DynamoDB meaning:

- `put` replaces the whole item;
- `get` may find nothing;
- `update` assigns only the named attributes, creates an absent item, and returns the whole new item (`ALL_NEW`);
- `delete` of an absent id is no error;
- `scan` yields every item once.

Each call can fail with:

- a backend failure, which is the `fault` parameter;
- for `put`, `get`, `update` and `delete`, DynamoDB's rejection of a key that is missing or is not a non-empty string. The table is declared with a STRING partition key `id` in `lib/aws-project-stack.ts:14-15`;
- for `put` only, DynamoDB's rejection of an item with an empty attribute name;
- for `update` only, DynamoDB's rejection of a structurally malformed request (`InvalidUpdateExpression`).

The update builder loop is `UpdateBuilder.BuildUpdate`. It is proved equal to
reference functions (`Assignments`, `ClausesFor`, `ValuesFor`), and the lemmas
about those functions state that the builder:

- never touches `id`;
- makes one `k = :k` clause per other body key, in key order;
- maps `:k` to `body[k]`;
- always produces a structurally well-formed request (`WellFormedUpdate`) once the `Nothing to update` guard has passed.

The routing, the create id choice and the body default are functions. Each
handler branch is a method that makes its storage call and builds its
response; its contract is an outcome predicate over the table before and
after the call. `Handler.Handle` dispatches to the branches. `Scenario`
proves, against `Handle`'s contract, the example session create → read →
list → update → delete → read on one new table.

Files:

- `wrappers.dfy`: `Option`.
- `json_value.dfy`: JSON values, objects as ordered entries with distinct keys, property reads, JavaScript truthiness.
- `storage.dfy`: the table, `SET` semantics, scan enumeration.
- `update_builder.dfy`: the update builder and its lemmas.
- `handler.dfy`: routing, branches, `Handle`.
- `scenario.dfy`: the example session.

Behaviour this API is sometimes described with, but that the handler's code
does not have:

- `GET /items` returns every item the scan yields. No result cap is applied.
- No CORS or `Content-Type` headers are sent, and `OPTIONS` is not handled.
  An `OPTIONS` request falls through to 404.
- `PUT` on an absent id does not answer 404. DynamoDB's `UpdateItem` creates
  the item, and the handler answers 200 with it.

## Model

| member | source | states |
|---|---|---|
| Handler.BodyOf | lambda/index.js:11-15 | The operations see the parsed object, or `{}` when there is no body. |
| JsonValue.AsMap | lambda/index.js:28 | The object as an attribute map, as the spread `...body` copies it (and as `body[key]` reads it at line 65): its keys are the object's keys, and each key holds its entry's value. |
| JsonValue.Property | lambda/index.js:27 | `body.id` is present exactly when `id` is one of the object's keys, and then it is that entry's value. |
| JsonValue.FalsyValues | lambda/index.js:27 | The id choice treats exactly undefined, `null`, `false`, `0` and `""` as false (`Truthy`). |
| Handler.RouteOf | lambda/index.js:25-108 | Each route holds exactly when its test holds. Create is exactly `POST` on `/items` and list is exactly `GET` on `/items`. Read, update and delete are `GET`, `PUT` and `DELETE` on a path starting with `/items/`. Every other pair is unmatched. |
| Handler.CreateItem | lambda/index.js:27-28 | The item's attributes are the body's keys plus `id`, and every body attribute keeps its value. A present `body.id` is kept, even a falsy one, because the spread comes last. Without `body.id` the item's id is the generated one. |
| Handler.Create | lambda/index.js:25-38 | Exactly one `put` of the created item is made. Without failure the answer is 201 with the item, and the table maps its id to it. An item with an empty attribute name is refused. On that or any other failure the answer is 500 with the message and the table is unchanged. |
| Handler.CreateItemNamed | lambda/index.js:28 | The created item has an empty attribute name exactly when the body has an empty key, since `{ id, ...body }` copies every body key. |
| Handler.Read | lambda/index.js:41-54 | Exactly one `get` with the path id is made and the table is unchanged. An absent id answers 404 `Item not found`. A stored id answers 200 with exactly the stored item. On failure the answer is 500. |
| Handler.Update | lambda/index.js:56-82 | A body with nothing but `id` answers 400 `Nothing to update`, with no storage call and the table unchanged. Otherwise exactly one `update` of the path id is made with the built request. The item under the path id (created when absent) then holds every assigned value and keeps its other attributes and its key. No other item changes, and the answer is 200 with the whole new item. On failure the answer is 500. |
| Handler.Delete | lambda/index.js:84-97 | Exactly one `delete` of the path id is made. The answer is 200 `{id, "Item deleted"}` whether or not the id was stored, and afterwards the id is absent. On failure the answer is 500 and the table is unchanged. |
| Handler.List | lambda/index.js:101-104 | Exactly one `scan` is made and the table is unchanged. Without failure the answer is 200 with every stored item exactly once, and nothing else. On failure the answer is 500. |
| Handler.Handle | lambda/index.js:4-113 | An unparsable body answers 400 `Invalid JSON body` before any storage call. An unmatched method and path answer 404 `Not Found` with no storage call. Every other request, except an update with nothing to update (400 `Nothing to update`, no storage call), makes exactly one storage call, and its failure is answered 500 with the error's message. Each route has its branch's outcome, and the update targets the path id, never `body.id`. |
| Storage.Table.Put | lambda/index.js:30-33 | Stores the whole item under its `id`, replacing what was there. A missing, non-string or empty key is rejected, and so is an item with an empty top-level attribute name. |
| Storage.Table.Get | lambda/index.js:44-47 | Finds an item exactly when the id is stored, and returns the stored item. The table is unchanged. |
| Storage.Table.Update | lambda/index.js:73-79 | A malformed request is rejected. A well-formed one turns the table into the `Upsert` of the `SET` clauses, and the call returns the new item. |
| Storage.Table.Delete | lambda/index.js:86-89 | Removes the id, and an absent id is no error. |
| Storage.Table.Scan | lambda/index.js:103 | Returns every stored item once, with the table unchanged. |
| Storage.ListItems | lambda/index.js:103 | The loop collecting the scanned items yields a sequence that enumerates the table: each item once, and nothing else. |
| Storage.ApplySet | lambda/index.js:76-77 | `SET` adds the named attributes and leaves every unnamed attribute as it was. |
| Storage.ApplySetAssigns | lambda/index.js:76-77 | With distinct names, each named attribute ends up holding its placeholder's value. |
| Storage.Upsert | lambda/index.js:73-79 | An update affects only the item under its key, which is created when absent and then holds the `SET` result. |
| Storage.UpsertKeepsKeys | lambda/index.js:63 | An update that does not assign `id` keeps every item stored under its own id. |
| Storage.ListedOnce | lambda/index.js:103 | Reading each key once, under distinct keys, enumerates the table. |
| Storage.EnumeratesSingle | lambda/index.js:101-104 | A table holding one item is listed as exactly that item. |
| UpdateBuilder.BuildUpdate | lambda/index.js:59-67 | The loop's clauses and values are exactly the reference clauses and values of the body's non-`id` entries. |
| UpdateBuilder.Placeholder | lambda/index.js:64-65 | The placeholder of `k` is `:` followed by `k`. |
| UpdateBuilder.AssignmentsMembers | lambda/index.js:62-63 | The assigned entries are exactly the body entries whose key is not `id`. |
| UpdateBuilder.AssignmentsDistinct | lambda/index.js:62 | The assigned keys are distinct, as the body's own keys are. |
| UpdateBuilder.AssignmentsWithoutKey | lambda/index.js:62-66 | A body without `id` is assigned entry for entry, in order. |
| UpdateBuilder.AssignmentsDropKey | lambda/index.js:62-66 | An `id` entry, wherever it stands, is the only entry dropped, and the order of the rest is kept. |
| UpdateBuilder.ClausesForAt | lambda/index.js:64 | Clause i is `k = :k` for the i-th assigned key k. |
| UpdateBuilder.ValuesForKeys | lambda/index.js:65 | The value map is keyed by the assigned keys' placeholders and by nothing else. |
| UpdateBuilder.ValuesNamedByPlaceholders | lambda/index.js:65 | Every value placeholder starts with `:`. |
| UpdateBuilder.ValuesForAt | lambda/index.js:65 | `:k` maps to the value of k in the body. |
| UpdateBuilder.NothingToUpdateIff | lambda/index.js:69-71 | Nothing is assigned exactly when the body is `{}` or holds only `id`. |
| UpdateBuilder.KeyNeverAssigned | lambda/index.js:63 | `id` appears neither among the clause names nor among the placeholders. |
| UpdateBuilder.BuiltNames | lambda/index.js:62-64 | One clause per assigned key, in order, with no name twice. |
| UpdateBuilder.BuiltValues | lambda/index.js:64-65 | The values define exactly the placeholders the clauses use, each with its entry's value. |
| UpdateBuilder.BuiltRequest | lambda/index.js:59-79 | The built request is structurally well-formed (`WellFormedUpdate`) exactly when it has a clause. |
| UpdateBuilder.UpdateMerges | lambda/index.js:56-81 | Sending the built request merges the body's non-`id` attributes into the item under the path id. The item keeps its other attributes and its key, and no other item changes. |
| Scenario.CreateHello | lambda/index.js:27-28 | `{"message": "hello"}` is created with the generated id. |
| Scenario.UpdateWithBye | lambda/index.js:56-81 | Updating the hello item with `{"message": "bye"}` answers 200 with the same id and the new message, and that item is the only one stored. |
| Scenario.Session | lambda/index.js:4-113 | On one new table: create answers 201 with `{id, message: "hello"}`. A read of that id answers 200 with the same item, and the list answers 200 with exactly that item. `PUT {"message": "bye"}` answers 200 with the same id and the new message. Delete answers 200 `{id, "Item deleted"}`, and a read of the id afterwards answers 404 `Item not found`. |

## Left out

- Logging (`console.log`, `console.error`) and the `TABLE_NAME` lookup: neither changes a response.
- The timestamp id of a create request is the `freshId` parameter. The clock is not modelled.
- `JSON.parse` and `JSON.stringify`: the body arrives already parsed, as `None` (absent or empty), `Parsed(object)` or `Unparsable`. Responses are structured payloads, so key order and serialisation are not modelled.
- Non-object JSON bodies (`null`, numbers, strings, arrays): the model's body is always an object.
- JSON numbers are integers. Fractions, exponents, `NaN` and precision limits are not modelled.
- `Object.keys` order is the order of the object's entries. The JavaScript rule that integer-like keys come first is not modelled.
- The AWS SDK client, the network, retries, timeouts and concurrent writers. A backend failure is the `fault` parameter, and at most one storage call is made per request.
- UpdateBuilder.BuiltRequest: "well-formed" is structural only. The handler writes each body key verbatim into `SET key = :key` and sends no `ExpressionAttributeNames`. So a body key that is a DynamoDB reserved word (`name`, `status`, `data`, ...) or is not a plain attribute name (`a-b`, `a.b`, `""`) gives a request DynamoDB rejects. The model accepts such a request.
- Handler.Update: for a body key that is a reserved word or not a plain attribute name, the program answers 500 with DynamoDB's `Invalid UpdateExpression` message. The model answers 200 with the merged item, because DynamoDB's reserved-word list and name syntax are not modelled.
- Storage.Table.Update: checks only the structure of the update request (distinct names, key not assigned, placeholders defined, used and prefixed with `:`). It does not model the textual `SET` expression, DynamoDB's reserved words, attribute-name syntax or nested paths. A key such as `a.b` or `status` is taken as a plain attribute name.
- Storage.Table.Put: refuses an empty top-level attribute name only. Name length limits, item size limits and the names inside nested maps are not checked.
- Storage.Table.Scan: returns all items in one page. The 1 MB page limit of a DynamoDB scan and its continuation are not modelled, and the handler reads only the first page.
- Item size limits and the attribute types beyond the JSON values listed are not modelled.
- DynamoDB's error messages are represented by fixed strings. Only their place in the 500 answer is modelled, not their exact wording.
- The deployment stack, the API Gateway wiring and the browser front end: they hold no handler behaviour.
