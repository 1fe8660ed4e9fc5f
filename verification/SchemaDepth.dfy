/** The depth-bounded structural check of carried JSON schemas. */
module SchemaDepth {
  import opened Wrappers
  import opened JsonValue
  import opened Ordering

  datatype SchemaError = NotASchema(found: string) | TooDeep(maxDepth: nat)

  /** Every one of the values is a proper part of `v`. */
  ghost predicate Inside(values: seq<Json>, v: Json) {
    forall i :: 0 <= i < |values| ==> values[i] < v
  }

  /** The direct children, in the order they are visited. */
  ghost function Children(v: Json): (children: seq<Json>)
    ensures Inside(children, v)
  {
    match v
    case Arr(items) => items
    case Obj(fields) =>
      var keys := SortedKeys(fields.Keys);
      assert forall key :: key in fields ==> fields[key] < v;
      seq(|keys|, i requires 0 <= i < |keys| => assert keys[i] in keys; fields[keys[i]])
    case _ => []
  }

  ghost function ValidateSchema(schema: Json, maxDepth: nat): Result<(), SchemaError> {
    match schema
    case Obj(_) => CheckDepth(schema, 1, maxDepth)
    case Bool(_) => CheckDepth(schema, 1, maxDepth)
    case Null => Err(NotASchema("null"))
    case Integer(_) => Err(NotASchema("number"))
    case Float(_) => Err(NotASchema("number"))
    case Str(_) => Err(NotASchema("string"))
    case Arr(_) => Err(NotASchema("array"))
  }

  ghost function CheckDepth(v: Json, depth: nat, maxDepth: nat): Result<(), SchemaError>
    decreases v, 1
  {
    if depth > maxDepth then Err(TooDeep(maxDepth)) else CheckEach(v, Children(v), depth, maxDepth)
  }

  /** `try_for_each`: the first error ends the iteration. */
  ghost function CheckEach(v: Json, children: seq<Json>, depth: nat, maxDepth: nat): Result<(), SchemaError>
    requires Inside(children, v)
    decreases v, 0, |children|
  {
    if children == [] then Ok(()) else
      var first := CheckDepth(children[0], depth + 1, maxDepth);
      if first.Err? then first else CheckEach(v, children[1..], depth, maxDepth)
  }

  /** How many calls of `CheckDepth` are open at once, at most, while this one
      runs; children after the first error are not entered. */
  ghost function Frames(v: Json, depth: nat, maxDepth: nat): nat
    decreases v, 1
  {
    if depth > maxDepth then 1 else 1 + FramesEach(v, Children(v), depth, maxDepth)
  }

  ghost function FramesEach(v: Json, children: seq<Json>, depth: nat, maxDepth: nat): nat
    requires Inside(children, v)
    decreases v, 0, |children|
  {
    if children == [] then 0 else
      var first := Frames(children[0], depth + 1, maxDepth);
      if CheckDepth(children[0], depth + 1, maxDepth).Err? then first
      else var rest := FramesEach(v, children[1..], depth, maxDepth); if first < rest then rest else first
  }

  // ---- nesting, declaratively: no order, no recursion on a bound ----

  datatype Selector = Item(i: nat) | Member(key: string)

  predicate Selects(v: Json, at: Selector) {
    match at
    case Item(i) => v.Arr? && i < |v.items|
    case Member(key) => v.Obj? && key in v.fields
  }

  function Select(v: Json, at: Selector): Json
    requires Selects(v, at)
  {
    match at
    case Item(i) => v.items[i]
    case Member(key) => v.fields[key]
  }

  /** The path leads from the value down to something inside it. */
  predicate Leads(v: Json, path: seq<Selector>)
    decreases |path|
  {
    path == [] || (Selects(v, path[0]) && Leads(Select(v, path[0]), path[1..]))
  }

  /** Depth in levels: a scalar or an empty container has one. */
  ghost predicate NestsWithin(v: Json, levels: nat) {
    forall path :: Leads(v, path) ==> |path| < levels
  }

  lemma ChildrenAreSelected(v: Json)
    ensures forall at :: Selects(v, at) ==> Select(v, at) in Children(v)
    ensures forall c :: c in Children(v) ==> exists at :: Selects(v, at) && Select(v, at) == c
  {
    if v.Obj? {
      var keys := SortedKeys(v.fields.Keys);
      forall at | Selects(v, at) ensures Select(v, at) in Children(v) {
        var i :| 0 <= i < |keys| && keys[i] == at.key;
        assert Children(v)[i] == v.fields[at.key];
      }
      forall c | c in Children(v) ensures exists at :: Selects(v, at) && Select(v, at) == c {
        var i :| 0 <= i < |keys| && Children(v)[i] == c;
        assert keys[i] in keys;
        assert Selects(v, Member(keys[i])) && Select(v, Member(keys[i])) == c;
      }
    } else if v.Arr? {
      forall at | Selects(v, at) ensures Select(v, at) in Children(v) {
        assert v.items[at.i] in v.items;
      }
      forall c | c in Children(v) ensures exists at :: Selects(v, at) && Select(v, at) == c {
        var i :| 0 <= i < |v.items| && v.items[i] == c;
        assert Selects(v, Item(i)) && Select(v, Item(i)) == c;
      }
    }
  }

  ghost predicate AllNestWithin(values: seq<Json>, levels: nat) {
    forall i :: 0 <= i < |values| ==> NestsWithin(values[i], levels)
  }

  lemma AllNestStep(values: seq<Json>, levels: nat)
    requires values != []
    ensures AllNestWithin(values, levels) <==> NestsWithin(values[0], levels) && AllNestWithin(values[1..], levels)
  {
    assert forall i :: 0 < i < |values| ==> values[i] == values[1..][i - 1];
  }

  lemma NestsThenChildrenDo(v: Json, levels: nat)
    requires levels > 0 && NestsWithin(v, levels)
    ensures AllNestWithin(Children(v), levels - 1)
  {
    ChildrenAreSelected(v);
    forall i, path | 0 <= i < |Children(v)| && Leads(Children(v)[i], path)
      ensures |path| < levels - 1
    {
      var c := Children(v)[i];
      assert c in Children(v);
      var at :| Selects(v, at) && Select(v, at) == c;
      assert ([at] + path)[1..] == path;
      assert Leads(v, [at] + path);
    }
  }

  lemma ChildrenNestThenItDoes(v: Json, levels: nat)
    requires levels > 0 && AllNestWithin(Children(v), levels - 1)
    ensures NestsWithin(v, levels)
  {
    ChildrenAreSelected(v);
    forall path | Leads(v, path) ensures |path| < levels {
      if path != [] {
        assert Select(v, path[0]) in Children(v);
        var i :| 0 <= i < |Children(v)| && Children(v)[i] == Select(v, path[0]);
        assert NestsWithin(Children(v)[i], levels - 1);
        assert Leads(Select(v, path[0]), path[1..]);
      }
    }
  }

  /** A value nests within its levels iff every child does within one less. */
  lemma NestingStep(v: Json, levels: nat)
    ensures NestsWithin(v, levels) <==> levels > 0 && AllNestWithin(Children(v), levels - 1)
  {
    assert Leads(v, []);
    if levels > 0 {
      if NestsWithin(v, levels) {
        NestsThenChildrenDo(v, levels);
      }
      if AllNestWithin(Children(v), levels - 1) {
        ChildrenNestThenItDoes(v, levels);
      }
    }
  }

  lemma {:induction false} CheckDepthIsExact(v: Json, depth: nat, maxDepth: nat)
    requires depth <= maxDepth + 1
    ensures CheckDepth(v, depth, maxDepth)
            == if NestsWithin(v, maxDepth + 1 - depth) then Ok(()) else Err(TooDeep(maxDepth))
    decreases v, 1
  {
    NestingStep(v, maxDepth + 1 - depth);
    if depth <= maxDepth {
      CheckEachIsExact(v, Children(v), depth, maxDepth);
    }
  }

  lemma {:induction false} CheckEachIsExact(v: Json, children: seq<Json>, depth: nat, maxDepth: nat)
    requires depth <= maxDepth && Inside(children, v)
    ensures CheckEach(v, children, depth, maxDepth)
            == if AllNestWithin(children, maxDepth - depth) then Ok(()) else Err(TooDeep(maxDepth))
    decreases v, 0, |children|
  {
    if children == [] {
    } else {
      var first := CheckDepth(children[0], depth + 1, maxDepth);
      CheckDepthIsExact(children[0], depth + 1, maxDepth);
      AllNestStep(children, maxDepth - depth);
      if first.Ok? {
        CheckEachIsExact(v, children[1..], depth, maxDepth);
      }
    }
  }

  /** The check is exact: it accepts precisely objects and booleans that nest
      within the bound, and says which of the two was violated. No order of
      children enters into it. */
  lemma ValidateSchemaIsExact(schema: Json, maxDepth: nat)
    ensures ValidateSchema(schema, maxDepth).Ok? <==> (schema.Obj? || schema.Bool?) && NestsWithin(schema, maxDepth)
    ensures ValidateSchema(schema, maxDepth) == Err(TooDeep(maxDepth))
            <==> (schema.Obj? || schema.Bool?) && !NestsWithin(schema, maxDepth)
  {
    CheckDepthIsExact(schema, 1, maxDepth);
  }

  /** What is no schema is reported as what it is, whatever the bound. */
  lemma NonSchemasAreNamed(maxDepth: nat)
    ensures ValidateSchema(Null, maxDepth) == Err(NotASchema("null"))
    ensures forall n :: ValidateSchema(Integer(n), maxDepth) == Err(NotASchema("number"))
    ensures forall r :: ValidateSchema(Float(r), maxDepth) == Err(NotASchema("number"))
    ensures forall s :: ValidateSchema(Str(s), maxDepth) == Err(NotASchema("string"))
    ensures forall items :: ValidateSchema(Arr(items), maxDepth) == Err(NotASchema("array"))
  {
  }

  /** A looser bound accepts no less. */
  lemma ValidateSchemaMonotone(schema: Json, maxDepth: nat, looser: nat)
    requires maxDepth <= looser && ValidateSchema(schema, maxDepth).Ok?
    ensures ValidateSchema(schema, looser).Ok?
  {
    ValidateSchemaIsExact(schema, maxDepth);
    ValidateSchemaIsExact(schema, looser);
  }

  lemma {:induction false} FramesAreBounded(v: Json, depth: nat, maxDepth: nat)
    requires depth <= maxDepth + 1
    ensures Frames(v, depth, maxDepth) <= maxDepth + 2 - depth
    ensures Frames(v, depth, maxDepth) == maxDepth + 2 - depth <==> CheckDepth(v, depth, maxDepth).Err?
    decreases v, 1
  {
    if depth <= maxDepth {
      FramesEachAreBounded(v, Children(v), depth, maxDepth);
    }
  }

  lemma {:induction false} FramesEachAreBounded(v: Json, children: seq<Json>, depth: nat, maxDepth: nat)
    requires depth <= maxDepth && Inside(children, v)
    ensures FramesEach(v, children, depth, maxDepth) <= maxDepth + 1 - depth
    ensures FramesEach(v, children, depth, maxDepth) == maxDepth + 1 - depth
            <==> CheckEach(v, children, depth, maxDepth).Err?
    decreases v, 0, |children|
  {
    if children == [] {
    } else {
      FramesAreBounded(children[0], depth + 1, maxDepth);
      FramesEachAreBounded(v, children[1..], depth, maxDepth);
    }
  }

  /** On input of any depth the walk opens at most `maxDepth + 1` calls at once,
      and that many exactly when it refuses the input as too deep: the call that
      finds the bound exceeded is one more than the bound. */
  lemma RecursionIsBounded(schema: Json, maxDepth: nat)
    requires schema.Obj? || schema.Bool?
    ensures Frames(schema, 1, maxDepth) <= maxDepth + 1
    ensures Frames(schema, 1, maxDepth) == maxDepth + 1 <==> ValidateSchema(schema, maxDepth) == Err(TooDeep(maxDepth))
    ensures Frames(schema, 1, maxDepth) == maxDepth + 1 <==> !NestsWithin(schema, maxDepth)
  {
    FramesAreBounded(schema, 1, maxDepth);
    CheckDepthIsExact(schema, 1, maxDepth);
  }

  /** With a bound of one, a schema one level too deep opens two calls. */
  lemma OneFrameMoreThanTheBound()
    ensures var schema := Obj(map["not" := Bool(true)]);
            ValidateSchema(schema, 1) == Err(TooDeep(1)) && Frames(schema, 1, 1) == 2
  {
    var schema := Obj(map["not" := Bool(true)]);
    var path := [Member("not")];
    assert Selects(schema, path[0]) && Leads(Select(schema, path[0]), path[1..]);
    assert Leads(schema, path) && |path| == 1;
    assert !NestsWithin(schema, 1);
    ValidateSchemaIsExact(schema, 1);
    RecursionIsBounded(schema, 1);
  }

  /** A tool's schemas: the input schema, then the output schema if any. */
  ghost function ValidateSchemas(input: Json, output: Option<Json>, maxDepth: nat): Result<(), SchemaError> {
    var first := ValidateSchema(input, maxDepth);
    if first.Err? || output.None? then first else ValidateSchema(output.value, maxDepth)
  }

  ghost predicate IsSchemaWithin(schema: Json, maxDepth: nat) {
    (schema.Obj? || schema.Bool?) && NestsWithin(schema, maxDepth)
  }

  /** A tool passes iff all its schemas do, and the input schema is blamed first. */
  lemma ValidateSchemasIsExact(input: Json, output: Option<Json>, maxDepth: nat)
    ensures ValidateSchemas(input, output, maxDepth).Ok?
            <==> IsSchemaWithin(input, maxDepth) && (output.Some? ==> IsSchemaWithin(output.value, maxDepth))
    ensures !IsSchemaWithin(input, maxDepth) ==>
              ValidateSchemas(input, output, maxDepth) == ValidateSchema(input, maxDepth)
    ensures IsSchemaWithin(input, maxDepth) && output.Some? ==>
              ValidateSchemas(input, output, maxDepth) == ValidateSchema(output.value, maxDepth)
  {
    ValidateSchemaIsExact(input, maxDepth);
    if output.Some? {
      ValidateSchemaIsExact(output.value, maxDepth);
    }
  }
}
