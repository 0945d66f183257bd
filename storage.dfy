/**
 * The DynamoDB table behind the handler, reached through the DocumentClient
 * calls `put`, `get`, `update`, `delete` and `scan`. The table is state: a map
 * from the partition key `id` (a string) to the stored attribute map. Every
 * call may fail in the backend; the model receives that failure as a `fault`
 * parameter carrying the error's message.
 */
module Storage {
  import opened Wrappers
  import opened JsonValue

  /** A stored item: its attribute map, the key attribute included. */
  type Item = map<string, Json>

  /** What a storage call yields: a value, or an error with its message. */
  datatype Outcome<T> = Ok(value: T) | Failed(message: string)

  /** One `name = :placeholder` clause of a `SET` update expression. */
  datatype SetClause = SetClause(name: string, placeholder: string)

  /** The storage calls the handler makes, as recorded in the table's log. */
  datatype Call =
    | PutCall(item: Item)
    | GetCall(id: Option<string>)
    | UpdateCall(id: Option<string>, clauses: seq<SetClause>, values: map<string, Json>)
    | DeleteCall(id: Option<string>)
    | ScanCall

  /** The table's partition key, of type string. */
  const KeyAttribute: string := "id"

  /** DynamoDB's rejection of a key that is missing, not a string, or empty. */
  const KeySchemaMismatch: string := "The provided key element does not match the schema"

  /** DynamoDB's rejection of an update request whose expression is malformed. */
  const InvalidUpdateExpression: string := "Invalid UpdateExpression"

  /** DynamoDB's rejection of an item with an empty attribute name. */
  const EmptyAttributeName: string := "Empty attribute name"

  /** Every top-level attribute of the item has a name of at least one character. */
  predicate NamedAttributes(item: Item) {
    "" !in item
  }

  /** A key value DynamoDB accepts for a string partition key. */
  predicate ValidKey(id: Option<string>) {
    id.Some? && id.value != ""
  }

  /** The key an item would be stored under: its `id` attribute, when that is a string. */
  function ItemKey(item: Item): (id: Option<string>)
    ensures id.Some? <==> KeyAttribute in item && item[KeyAttribute].Str?
    ensures id.Some? ==> item[KeyAttribute] == Str(id.value)
  {
    if KeyAttribute in item && item[KeyAttribute].Str? then Some(item[KeyAttribute].s) else None
  }

  /** The attribute names a `SET` expression assigns. */
  function Names(clauses: seq<SetClause>): set<string> {
    set i | 0 <= i < |clauses| :: clauses[i].name
  }

  /** The value placeholders a `SET` expression refers to. */
  function Placeholders(clauses: seq<SetClause>): set<string> {
    set i | 0 <= i < |clauses| :: clauses[i].placeholder
  }

  /** No attribute is assigned twice (DynamoDB rejects overlapping paths). */
  predicate DistinctNames(clauses: seq<SetClause>) {
    forall i, j :: 0 <= i < j < |clauses| ==> clauses[i].name != clauses[j].name
  }

  /**
   * A structurally well-formed update request: at least one clause, no name
   * twice, the key attribute never assigned, every placeholder defined, every
   * defined value used, and every placeholder prefixed with ':'. DynamoDB's
   * reserved words and attribute-name syntax are not modelled.
   */
  predicate WellFormedUpdate(clauses: seq<SetClause>, values: map<string, Json>) {
    && |clauses| > 0
    && DistinctNames(clauses)
    && KeyAttribute !in Names(clauses)
    && values.Keys == Placeholders(clauses)
    && forall p :: p in values ==> |p| > 0 && p[0] == ':'
  }

  /**
   * The item a `SET` expression applies to: the stored item, or, since
   * UpdateItem creates an absent item, one holding only its key.
   */
  function Prior(items: map<string, Item>, id: string): Item {
    if id in items then items[id] else map[KeyAttribute := Str(id)]
  }

  /** Splitting off the first clause splits off its name and placeholder; with distinct names, the rest do not assign its attribute. */
  lemma ClausesTail(clauses: seq<SetClause>)
    requires clauses != []
    ensures Placeholders(clauses) == {clauses[0].placeholder} + Placeholders(clauses[1..])
    ensures Names(clauses) == {clauses[0].name} + Names(clauses[1..])
    ensures DistinctNames(clauses) ==> DistinctNames(clauses[1..]) && clauses[0].name !in Names(clauses[1..])
  {
    var rest := clauses[1..];
    assert forall i :: 0 <= i < |rest| ==> rest[i] == clauses[i + 1];
    forall n | n in Names(clauses) ensures n == clauses[0].name || n in Names(rest) {
      var i :| 0 <= i < |clauses| && clauses[i].name == n;
      if i > 0 { assert rest[i - 1] == clauses[i]; }
    }
    forall p | p in Placeholders(clauses) ensures p == clauses[0].placeholder || p in Placeholders(rest) {
      var i :| 0 <= i < |clauses| && clauses[i].placeholder == p;
      if i > 0 { assert rest[i - 1] == clauses[i]; }
    }
  }

  /** The effect of `SET n1 = :p1, n2 = :p2, ...` on one item. */
  function ApplySet(item: Item, clauses: seq<SetClause>, values: map<string, Json>): (r: Item)
    requires Placeholders(clauses) <= values.Keys
    ensures r.Keys == item.Keys + Names(clauses)
    ensures forall a :: a in item && a !in Names(clauses) ==> r[a] == item[a]
    decreases |clauses|
  {
    if clauses == [] then item
    else
      var c := clauses[0];
      ClausesTail(clauses);
      ApplySet(item[c.name := values[c.placeholder]], clauses[1..], values)
  }

  /** When no attribute is named twice, each named attribute ends up with its clause's value. */
  lemma {:induction false} ApplySetAssigns(item: Item, clauses: seq<SetClause>, values: map<string, Json>)
    requires Placeholders(clauses) <= values.Keys && DistinctNames(clauses)
    ensures forall i :: 0 <= i < |clauses| ==>
      ApplySet(item, clauses, values)[clauses[i].name] == values[clauses[i].placeholder]
    decreases |clauses|
  {
    if clauses != [] {
      var c := clauses[0];
      var rest := clauses[1..];
      ClausesTail(clauses);
      var next := item[c.name := values[c.placeholder]];
      ApplySetAssigns(next, rest, values);
      forall i | 0 <= i < |clauses|
        ensures ApplySet(item, clauses, values)[clauses[i].name] == values[clauses[i].placeholder]
      {
        if i > 0 {
          assert clauses[i] == rest[i - 1];
        }
      }
    }
  }

  /** Each item is stored under its own non-empty string `id`. */
  ghost predicate KeyedById(items: map<string, Item>) {
    forall k :: k in items ==> k != "" && KeyAttribute in items[k] && items[k][KeyAttribute] == Str(k)
  }

  /**
   * The table after a successful `update`: the item under `id` (or, when
   * absent, a new one) gets the `SET` result, and no other item changes.
   */
  function Upsert(items: map<string, Item>, id: string, clauses: seq<SetClause>, values: map<string, Json>)
    : (after: map<string, Item>)
    requires Placeholders(clauses) <= values.Keys
    ensures after.Keys == items.Keys + {id}
    ensures forall j :: j in items && j != id ==> after[j] == items[j]
    ensures after[id] == ApplySet(Prior(items, id), clauses, values)
  {
    items[id := ApplySet(Prior(items, id), clauses, values)]
  }

  /** An update that does not assign the key attribute keeps the table keyed by id. */
  lemma UpsertKeepsKeys(items: map<string, Item>, id: string, clauses: seq<SetClause>, values: map<string, Json>)
    requires KeyedById(items) && id != ""
    requires Placeholders(clauses) <= values.Keys && KeyAttribute !in Names(clauses)
    ensures KeyedById(Upsert(items, id, clauses, values))
  {
    var after := Upsert(items, id, clauses, values);
    forall k | k in after ensures k != "" && KeyAttribute in after[k] && after[k][KeyAttribute] == Str(k) {
      if k != id {
        assert after[k] == items[k];
      }
    }
  }

  /** `s` lists every stored item exactly once, in some order. */
  ghost predicate Enumerates(s: seq<Item>, items: map<string, Item>) {
    && |s| == |items|
    && (forall k :: k in items ==> items[k] in s)
    && (forall i :: 0 <= i < |s| ==> s[i] in items.Values)
    && (forall i, j :: 0 <= i < j < |s| ==> s[i] != s[j])
  }

  /** Reading the items under distinct keys, every key once, enumerates the table. */
  lemma ListedOnce(items: map<string, Item>, seen: seq<string>, found: seq<Item>)
    requires KeyedById(items) && |seen| == |found| == |items|
    requires forall k :: k in items ==> k in seen
    requires forall i :: 0 <= i < |seen| ==> seen[i] in items && found[i] == items[seen[i]]
    requires forall i, j :: 0 <= i < j < |seen| ==> seen[i] != seen[j]
    ensures Enumerates(found, items)
  {
    forall k | k in items ensures items[k] in found {
      var i :| 0 <= i < |seen| && seen[i] == k;
      assert found[i] == items[k];
    }
    forall i, j | 0 <= i < j < |found| ensures found[i] != found[j] {
      assert found[i][KeyAttribute] == Str(seen[i]);
      assert found[j][KeyAttribute] == Str(seen[j]);
    }
  }

  /**
   * Part way through a scan: the keys in `pending` are still to be read, and
   * `found` holds the items under the distinct keys `seen`, all the others.
   */
  ghost predicate ScanProgress(all: map<string, Item>, pending: set<string>, seen: seq<string>, found: seq<Item>) {
    && pending <= all.Keys
    && |found| + |pending| == |all| && |seen| == |found|
    && (forall k :: k in all ==> k in pending || k in seen)
    && (forall i :: 0 <= i < |seen| ==> seen[i] in all && seen[i] !in pending && found[i] == all[seen[i]])
    && (forall i, j :: 0 <= i < j < |seen| ==> seen[i] != seen[j])
  }

  /** Reading one more pending key keeps the scan's progress consistent. */
  lemma ScanStep(all: map<string, Item>, pending: set<string>, seen: seq<string>, found: seq<Item>, k: string)
    requires ScanProgress(all, pending, seen, found) && k in pending
    ensures ScanProgress(all, pending - {k}, seen + [k], found + [all[k]])
  {
    var seen', found' := seen + [k], found + [all[k]];
    forall i | 0 <= i < |seen'| ensures seen'[i] in all && seen'[i] !in pending - {k} && found'[i] == all[seen'[i]] {
      if i < |seen| {
        assert seen'[i] == seen[i] && found'[i] == found[i];
      }
    }
    forall i, j | 0 <= i < j < |seen'| ensures seen'[i] != seen'[j] {
      assert seen'[i] == seen[i];
    }
  }

  /** Reads every stored item once, in an unspecified order, as a scan does. */
  method ListItems(all: map<string, Item>) returns (found: seq<Item>)
    requires KeyedById(all)
    ensures Enumerates(found, all)
  {
    var pending := all.Keys;
    found := [];
    ghost var seen: seq<string> := [];
    while pending != {}
      invariant ScanProgress(all, pending, seen, found)
      decreases |pending|
    {
      var k :| k in pending;
      ScanStep(all, pending, seen, found, k);
      found, seen, pending := found + [all[k]], seen + [k], pending - {k};
    }
    ListedOnce(all, seen, found);
  }

  /** A table holding one item lists exactly that item. */
  lemma EnumeratesSingle(s: seq<Item>, k: string, item: Item)
    requires Enumerates(s, map[k := item])
    ensures s == [item]
  {
    assert map[k := item].Values == {item};
    assert |map[k := item]| == 1;
    assert s[0] in map[k := item].Values;
  }

  class Table {
    /** The stored items, by key. */
    var items: map<string, Item>
    /** Every storage call made so far, oldest first. */
    ghost var calls: seq<Call>

    /** Each item is stored under its own non-empty string `id`. */
    ghost predicate Valid()
      reads this
    {
      KeyedById(items)
    }

    constructor ()
      ensures Valid() && items == map[] && calls == []
    {
      items := map[];
      calls := [];
    }

    /** `put`: writes the whole item under its `id`, replacing any item there. */
    method Put(item: Item, fault: Option<string>) returns (r: Outcome<()>)
      requires Valid()
      modifies this
      ensures Valid()
      ensures calls == old(calls) + [PutCall(item)]
      ensures fault.Some? ==> r == Failed(fault.value) && items == old(items)
      ensures fault.None? && !ValidKey(ItemKey(item)) ==> r == Failed(KeySchemaMismatch) && items == old(items)
      ensures fault.None? && ValidKey(ItemKey(item)) && !NamedAttributes(item) ==>
        r == Failed(EmptyAttributeName) && items == old(items)
      ensures fault.None? && ValidKey(ItemKey(item)) && NamedAttributes(item) ==>
        r == Ok(()) && items == old(items)[ItemKey(item).value := item]
    {
      calls := calls + [PutCall(item)];
      if fault.Some? {
        return Failed(fault.value);
      }
      var id := ItemKey(item);
      if !ValidKey(id) {
        return Failed(KeySchemaMismatch);
      }
      if !NamedAttributes(item) {
        return Failed(EmptyAttributeName);
      }
      items := items[id.value := item];
      r := Ok(());
    }

    /** `get`: the item stored under `id`, or nothing. */
    method Get(id: Option<string>, fault: Option<string>) returns (r: Outcome<Option<Item>>)
      requires Valid()
      modifies this
      ensures Valid() && items == old(items)
      ensures calls == old(calls) + [GetCall(id)]
      ensures fault.Some? ==> r == Failed(fault.value)
      ensures fault.None? && !ValidKey(id) ==> r == Failed(KeySchemaMismatch)
      ensures fault.None? && ValidKey(id) ==>
        && r.Ok?
        && (r.value.Some? <==> id.value in items)
        && (id.value in items ==> r.value.value == items[id.value])
    {
      calls := calls + [GetCall(id)];
      if fault.Some? {
        return Failed(fault.value);
      }
      if !ValidKey(id) {
        return Failed(KeySchemaMismatch);
      }
      if id.value in items {
        r := Ok(Some(items[id.value]));
      } else {
        r := Ok(None);
      }
    }

    /**
     * `update` with a `SET` expression and `ReturnValues: 'ALL_NEW'`: assigns
     * the named attributes of the item under `id` (creating it when absent)
     * and returns the whole new item.
     */
    method Update(id: Option<string>, clauses: seq<SetClause>, values: map<string, Json>, fault: Option<string>)
      returns (r: Outcome<Item>)
      requires Valid()
      modifies this
      ensures Valid()
      ensures calls == old(calls) + [UpdateCall(id, clauses, values)]
      ensures fault.Some? ==> r == Failed(fault.value) && items == old(items)
      ensures fault.None? && !ValidKey(id) ==> r == Failed(KeySchemaMismatch) && items == old(items)
      ensures fault.None? && ValidKey(id) && !WellFormedUpdate(clauses, values) ==>
        r == Failed(InvalidUpdateExpression) && items == old(items)
      ensures fault.None? && ValidKey(id) && WellFormedUpdate(clauses, values) ==>
        && items == Upsert(old(items), id.value, clauses, values)
        && r == Ok(items[id.value])
    {
      calls := calls + [UpdateCall(id, clauses, values)];
      if fault.Some? {
        return Failed(fault.value);
      }
      if !ValidKey(id) {
        return Failed(KeySchemaMismatch);
      }
      if !WellFormedUpdate(clauses, values) {
        return Failed(InvalidUpdateExpression);
      }
      UpsertKeepsKeys(items, id.value, clauses, values);
      items := Upsert(items, id.value, clauses, values);
      r := Ok(items[id.value]);
    }

    /** `delete`: removes the item under `id` if there is one; an absent id is no error. */
    method Delete(id: Option<string>, fault: Option<string>) returns (r: Outcome<()>)
      requires Valid()
      modifies this
      ensures Valid()
      ensures calls == old(calls) + [DeleteCall(id)]
      ensures fault.Some? ==> r == Failed(fault.value) && items == old(items)
      ensures fault.None? && !ValidKey(id) ==> r == Failed(KeySchemaMismatch) && items == old(items)
      ensures fault.None? && ValidKey(id) ==> r == Ok(()) && items == old(items) - {id.value}
    {
      calls := calls + [DeleteCall(id)];
      if fault.Some? {
        return Failed(fault.value);
      }
      if !ValidKey(id) {
        return Failed(KeySchemaMismatch);
      }
      items := items - {id.value};
      r := Ok(());
    }

    /** `scan`: every stored item once, in the backend's own order. */
    method Scan(fault: Option<string>) returns (r: Outcome<seq<Item>>)
      requires Valid()
      modifies this
      ensures Valid() && items == old(items)
      ensures calls == old(calls) + [ScanCall]
      ensures fault.Some? ==> r == Failed(fault.value)
      ensures fault.None? ==> r.Ok? && Enumerates(r.value, items)
    {
      calls := calls + [ScanCall];
      if fault.Some? {
        return Failed(fault.value);
      }
      var found := ListItems(items);
      r := Ok(found);
    }
  }
}
