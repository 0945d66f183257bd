/**
 * The update branch's expression builder: from the request body it collects
 * one `key = :key` clause and one `:key` value per body key other than `id`,
 * in the body's key order, so that the key attribute is never rewritten.
 */
module UpdateBuilder {
  import opened JsonValue
  import opened Storage

  /** The value placeholder for an attribute: ':' followed by its name. */
  function Placeholder(key: string): (p: string)
    ensures |p| == |key| + 1 && p[0] == ':' && p[1..] == key
  {
    ":" + key
  }

  /** The body entries the update assigns: every entry except `id`, in body order. */
  function Assignments(body: seq<(string, Json)>): seq<(string, Json)> {
    if body == [] then []
    else
      var last := body[|body| - 1];
      Assignments(body[..|body| - 1]) + (if last.0 == KeyAttribute then [] else [last])
  }

  /** The clauses `k = :k` for the assigned keys, in order. */
  function ClausesFor(asg: seq<(string, Json)>): seq<SetClause> {
    if asg == [] then []
    else
      var last := asg[|asg| - 1];
      ClausesFor(asg[..|asg| - 1]) + [SetClause(last.0, Placeholder(last.0))]
  }

  /** The expression attribute values, assigned in order. */
  function ValuesFor(asg: seq<(string, Json)>): map<string, Json> {
    if asg == [] then map[]
    else
      var last := asg[|asg| - 1];
      ValuesFor(asg[..|asg| - 1])[Placeholder(last.0) := last.1]
  }

  /**
   * The loop of the update branch: walks `Object.keys(body)`, skips `id`, and
   * pushes a clause and a value for every other key.
   */
  method BuildUpdate(body: JsonObject) returns (clauses: seq<SetClause>, values: map<string, Json>)
    ensures clauses == ClausesFor(Assignments(body))
    ensures values == ValuesFor(Assignments(body))
  {
    clauses := [];
    values := map[];
    for i := 0 to |body|
      invariant clauses == ClausesFor(Assignments(body[..i]))
      invariant values == ValuesFor(Assignments(body[..i]))
    {
      var (key, value) := body[i];
      assert body[..i + 1][..i] == body[..i];
      assert Assignments(body[..i + 1]) ==
        Assignments(body[..i]) + (if key == KeyAttribute then [] else [(key, value)]);
      if key != KeyAttribute {
        clauses := clauses + [SetClause(key, Placeholder(key))];
        values := values[Placeholder(key) := value];
        var asg := Assignments(body[..i]);
        var extended := asg + [(key, value)];
        assert extended[..|asg|] == asg && extended[|asg|] == (key, value);
        assert ClausesFor(extended) == ClausesFor(asg) + [SetClause(key, Placeholder(key))];
        assert ValuesFor(extended) == ValuesFor(asg)[Placeholder(key) := value];
      } else {
        assert Assignments(body[..i]) + [] == Assignments(body[..i]);
      }
    }
    assert body[..|body|] == body;
  }

  /** The assigned entries are exactly the body entries whose key is not `id`. */
  lemma {:induction false} AssignmentsMembers(body: seq<(string, Json)>)
    ensures forall e :: e in Assignments(body) <==> e in body && e.0 != KeyAttribute
  {
    if body != [] {
      var front := body[..|body| - 1];
      AssignmentsMembers(front);
      assert body == front + [body[|body| - 1]];
    }
  }

  /** Distinct body keys give distinct assigned keys. */
  lemma {:induction false} AssignmentsDistinct(body: seq<(string, Json)>)
    requires DistinctKeys(body)
    ensures DistinctKeys(Assignments(body))
  {
    if body != [] {
      var n := |body| - 1;
      var front := body[..n];
      AssignmentsDistinct(front);
      AssignmentsMembers(front);
      var asg := Assignments(front);
      forall i | 0 <= i < |asg| ensures asg[i].0 != body[n].0 {
        assert asg[i] in front;
      }
    }
  }

  /** A body without an `id` entry is assigned entry for entry, in order. */
  lemma {:induction false} AssignmentsWithoutKey(body: seq<(string, Json)>)
    requires forall i :: 0 <= i < |body| ==> body[i].0 != KeyAttribute
    ensures Assignments(body) == body
  {
    if body != [] {
      var front := body[..|body| - 1];
      AssignmentsWithoutKey(front);
      assert front + [body[|body| - 1]] == body;
    }
  }

  /** The `id` entry, wherever it stands in the body, is the only one dropped. */
  lemma {:induction false} AssignmentsDropKey(body: JsonObject, p: nat)
    requires p < |body| && body[p].0 == KeyAttribute
    ensures Assignments(body) == body[..p] + body[p + 1..]
    decreases |body|
  {
    var n := |body| - 1;
    var front: JsonObject := body[..n];
    if p == n {
      AssignmentsWithoutKey(front);
      assert body[p + 1..] == [];
    } else {
      AssignmentsDropKey(front, p);
      assert body[..p] == front[..p];
      assert body[p + 1..] == front[p + 1..] + [body[n]];
    }
  }

  /** Clause i is `k = :k` for the i-th assigned key k. */
  lemma {:induction false} ClausesForAt(asg: seq<(string, Json)>)
    ensures |ClausesFor(asg)| == |asg|
    ensures forall i :: 0 <= i < |asg| ==> ClausesFor(asg)[i] == SetClause(asg[i].0, Placeholder(asg[i].0))
  {
    if asg != [] {
      ClausesForAt(asg[..|asg| - 1]);
    }
  }

  /** The value map is keyed by the placeholders of the assigned keys, and by nothing else. */
  lemma {:induction false} ValuesForKeys(asg: seq<(string, Json)>)
    ensures ValuesFor(asg).Keys == set i | 0 <= i < |asg| :: Placeholder(asg[i].0)
  {
    if asg != [] {
      var front := asg[..|asg| - 1];
      ValuesForKeys(front);
      assert forall i :: 0 <= i < |front| ==> front[i] == asg[i];
    }
  }

  /** Every value placeholder starts with ':'. */
  lemma {:induction false} ValuesNamedByPlaceholders(asg: seq<(string, Json)>)
    ensures forall p :: p in ValuesFor(asg) ==> |p| > 0 && p[0] == ':'
  {
    if asg != [] {
      ValuesNamedByPlaceholders(asg[..|asg| - 1]);
    }
  }

  /** For distinct keys, `:k` sends to the value assigned to k. */
  lemma {:induction false} ValuesForAt(asg: seq<(string, Json)>)
    requires DistinctKeys(asg)
    ensures forall i :: 0 <= i < |asg| ==> Placeholder(asg[i].0) in ValuesFor(asg)
    ensures forall i :: 0 <= i < |asg| ==> ValuesFor(asg)[Placeholder(asg[i].0)] == asg[i].1
  {
    if asg != [] {
      var n := |asg| - 1;
      var front := asg[..n];
      ValuesForAt(front);
      forall i | 0 <= i < n ensures Placeholder(asg[i].0) != Placeholder(asg[n].0) {
        assert front[i] == asg[i];
      }
    }
  }

  /** The update is empty exactly when the body is `{}` or holds nothing but `id`. */
  lemma NothingToUpdateIff(body: JsonObject)
    ensures Assignments(body) == [] <==> body == [] || (|body| == 1 && body[0].0 == KeyAttribute)
  {
    if |body| == 1 && body[0].0 == KeyAttribute {
      assert body[..0] == [];
      assert Assignments(body) == Assignments([]) + [];
    } else if body != [] {
      AssignmentsMembers(body);
      var i := if body[0].0 == KeyAttribute then 1 else 0;
      assert body[i].0 != KeyAttribute;
      assert body[i] in Assignments(body);
    }
  }

  /** `id` appears neither among the clause names nor among the value placeholders. */
  lemma KeyNeverAssigned(body: seq<(string, Json)>)
    ensures KeyAttribute !in Names(ClausesFor(Assignments(body)))
    ensures Placeholder(KeyAttribute) !in ValuesFor(Assignments(body))
  {
    var asg := Assignments(body);
    var clauses := ClausesFor(asg);
    AssignmentsMembers(body);
    ClausesForAt(asg);
    ValuesForKeys(asg);
    forall i | 0 <= i < |asg| ensures asg[i].0 != KeyAttribute {
      assert asg[i] in asg;
    }
  }

  /** Clause i names the i-th assigned key, and no name is assigned twice. */
  lemma BuiltNames(body: JsonObject)
    ensures var asg := Assignments(body);
      var clauses := ClausesFor(asg);
      && |clauses| == |asg|
      && Names(clauses) == KeySet(asg)
      && DistinctNames(clauses)
      && (forall i :: 0 <= i < |clauses| ==> clauses[i] == SetClause(asg[i].0, Placeholder(asg[i].0)))
  {
    var asg := Assignments(body);
    var clauses := ClausesFor(asg);
    AssignmentsDistinct(body);
    ClausesForAt(asg);
    forall n | n in Names(clauses) ensures n in KeySet(asg) {
      var i :| 0 <= i < |clauses| && clauses[i].name == n;
    }
    forall n | n in KeySet(asg) ensures n in Names(clauses) {
      var i :| 0 <= i < |asg| && asg[i].0 == n;
      assert clauses[i].name == n;
    }
  }

  /** The value map defines exactly the placeholders the clauses use, each with its entry's value. */
  lemma BuiltValues(body: JsonObject)
    ensures var asg := Assignments(body);
      var clauses := ClausesFor(asg);
      var values := ValuesFor(asg);
      && |clauses| == |asg|
      && values.Keys == Placeholders(clauses)
      && (forall p :: p in values ==> |p| > 0 && p[0] == ':')
      && (forall i :: 0 <= i < |clauses| ==>
            clauses[i].placeholder in values && values[clauses[i].placeholder] == asg[i].1)
  {
    var asg := Assignments(body);
    var clauses := ClausesFor(asg);
    var values := ValuesFor(asg);
    ClausesForAt(asg);
    ValuesNamedByPlaceholders(asg);
    assert values.Keys == Placeholders(clauses) by {
      ValuesForKeys(asg);
      forall p | p in values ensures p in Placeholders(clauses) {
        var i :| 0 <= i < |asg| && Placeholder(asg[i].0) == p;
        assert clauses[i].placeholder == p;
      }
      forall p | p in Placeholders(clauses) ensures p in values {
        var i :| 0 <= i < |clauses| && clauses[i].placeholder == p;
      }
    }
    AssignmentsDistinct(body);
    ValuesForAt(asg);
  }

  /**
   * The request the builder produces: clause i assigns the i-th non-`id` entry
   * through its placeholder, and the request is structurally well-formed
   * (at least one clause, no name twice, `id` not assigned, placeholders
   * defined, used and prefixed with ':') exactly when there is at least one
   * clause. DynamoDB's reserved words and attribute-name syntax are not
   * modelled.
   */
  lemma BuiltRequest(body: JsonObject)
    ensures var asg := Assignments(body);
      var clauses := ClausesFor(asg);
      var values := ValuesFor(asg);
      && |clauses| == |asg|
      && Names(clauses) == KeySet(asg)
      && DistinctNames(clauses)
      && (forall i :: 0 <= i < |clauses| ==>
            && clauses[i].name == asg[i].0
            && clauses[i].placeholder in values
            && values[clauses[i].placeholder] == asg[i].1)
      && (WellFormedUpdate(clauses, values) <==> asg != [])
  {
    BuiltNames(body);
    BuiltValues(body);
    KeyNeverAssigned(body);
  }

  /**
   * `after` is `before` with the item under `k` (or a fresh `{id: k}`) given
   * every assigned attribute; its other attributes, its key and all other
   * items are unchanged.
   */
  ghost predicate MergedInto(before: map<string, Item>, after: map<string, Item>, k: string, asg: seq<(string, Json)>) {
    var prior := Prior(before, k);
    && after.Keys == before.Keys + {k}
    && (forall j :: j in before && j != k ==> after[j] == before[j])
    && after[k].Keys == prior.Keys + KeySet(asg)
    && (forall i :: 0 <= i < |asg| ==> asg[i].0 in after[k] && after[k][asg[i].0] == asg[i].1)
    && (forall a :: a in prior && a !in KeySet(asg) ==> a in after[k] && after[k][a] == prior[a])
    && KeyAttribute in after[k] && after[k][KeyAttribute] == Str(k)
  }

  /** Applying the built request merges the body's non-`id` attributes into the item under `k`. */
  lemma UpdateMerges(items: map<string, Item>, k: string, body: JsonObject)
    requires KeyedById(items) && k != "" && Assignments(body) != []
    ensures WellFormedUpdate(ClausesFor(Assignments(body)), ValuesFor(Assignments(body)))
    ensures MergedInto(items, Upsert(items, k, ClausesFor(Assignments(body)), ValuesFor(Assignments(body))),
                       k, Assignments(body))
  {
    var asg := Assignments(body);
    var clauses := ClausesFor(asg);
    var values := ValuesFor(asg);
    assert WellFormedUpdate(clauses, values) by {
      BuiltRequest(body);
    }
    var prior := Prior(items, k);
    var merged := ApplySet(prior, clauses, values);
    assert merged.Keys == prior.Keys + KeySet(asg) by {
      BuiltNames(body);
    }
    assert forall i :: 0 <= i < |asg| ==> asg[i].0 in merged && merged[asg[i].0] == asg[i].1 by {
      BuiltNames(body);
      BuiltValues(body);
      ApplySetAssigns(prior, clauses, values);
      forall i | 0 <= i < |asg| ensures asg[i].0 in merged && merged[asg[i].0] == asg[i].1 {
        assert clauses[i].name == asg[i].0;
      }
    }
    assert forall a :: a in prior && a !in KeySet(asg) ==> a in merged && merged[a] == prior[a] by {
      BuiltNames(body);
    }
    assert KeyAttribute in merged && merged[KeyAttribute] == Str(k) by {
      KeyNeverAssigned(body);
      assert KeyAttribute in prior && prior[KeyAttribute] == Str(k);
    }
  }
}
