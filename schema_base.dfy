/**
 * Schema inference from a sample document (json_schema_builder_base.py): every dict
 * becomes an object schema that requires all its keys, a list takes the schema of its
 * first element, and scalars map to their JSON Schema type.  A small validator for the
 * keywords the inference emits states what a generated schema promises.
 */
module SchemaInference {
  import opened Wrappers
  import opened OrderedMaps
  import opened JsonValues

  const Draft07: string := "http://json-schema.org/draft-07/schema#"

  function TypeOnly(t: string): Json
  {
    Obj([("type", Str(t))])
  }

  /**
   * `infer_schema`, lines 24-69, as written.  The `isinstance(data, int)` test comes before
   * the one for bool, and a Python bool is an int, so booleans get "integer".  The final
   * `{}` branch cannot be reached by a parsed JSON document.
   */
  function InferSchema(j: Json): Json
  {
    match j
    case Obj(fs) =>
      Obj([("type", Str("object")),
           ("properties", Obj(FromPairs(seq(|fs|, i requires 0 <= i < |fs| => (fs[i].0, InferSchema(fs[i].1)))))),
           ("required", Arr(Strs(Keys(fs))))])
    case Arr(xs) =>
      if xs == [] then TypeOnly("array")
      else Obj([("type", Str("array")), ("items", InferSchema(xs[0]))])
    case Int(_) => TypeOnly("integer")
    case Bool(_) => TypeOnly("integer")
    case Float(_) => TypeOnly("number")
    case Str(_) => TypeOnly("string")
    case Null => TypeOnly("null")
  }

  /** `generate_json_schema`, lines 10-22: the top-level object schema, tagged as draft-07. */
  function GenerateJsonSchema(j: Json): Result<Json, PyError>
  {
    match j
    case Obj(fs) =>
      Ok(Obj([("$schema", Str(Draft07)),
              ("type", Str("object")),
              ("properties", Obj(FromPairs(seq(|fs|, i requires 0 <= i < |fs| => (fs[i].0, InferSchema(fs[i].1)))))),
              ("required", Arr(Strs(Keys(fs))))]))
    case _ => Err(AttributeError("'" + PyTypeName(j) + "' object has no attribute 'items'"))
  }

  // ---------------------------------------------------------------------------
  // What the inferred schemas look like

  /** The top-level schema is the object schema of the document with "$schema" in front. */
  lemma GenerateIsInferPlusDraft(j: Json)
    ensures j.Obj? <==> GenerateJsonSchema(j).Ok?
    ensures j.Obj? ==> GenerateJsonSchema(j).value == Obj([("$schema", Str(Draft07))] + InferSchema(j).fields)
    ensures !j.Obj? ==> GenerateJsonSchema(j).error.AttributeError?
  {
  }

  /** Every inferred schema is a dict whose first key is "type". */
  lemma InferHasType(j: Json)
    ensures InferSchema(j).Obj? && InferSchema(j).fields != [] && InferSchema(j).fields[0].0 == "type"
  {
  }

  /** An object schema lists every key as required and describes each key's last value. */
  lemma {:induction false} InferObject(fs: Fields, k: string)
    ensures var sch := InferSchema(Obj(fs));
            Member(sch, "type") == Some(Str("object"))
            && Member(sch, "required") == Some(Arr(Strs(Keys(fs))))
            && Member(sch, "properties").Some? && Member(sch, "properties").value.Obj?
            && (k in Keys(fs) <==> k in Keys(Member(sch, "properties").value.fields))
            && (k in Keys(fs) ==> Get(Member(sch, "properties").value.fields, k) == Some(InferSchema(Get(fs, k).value)))
  {
    var ps := seq(|fs|, i requires 0 <= i < |fs| => (fs[i].0, InferSchema(fs[i].1)));
    FromPairsGet(ps, k);
    InferPairsGet(fs, ps, k);
    var body := [("type", Str("object")), ("properties", Obj(FromPairs(ps))), ("required", Arr(Strs(Keys(fs))))];
    assert Keys(body) == ["type", "properties", "required"];
    assert body[..2][..1] == [("type", Str("object"))];
    assert body[..2] == [("type", Str("object")), ("properties", Obj(FromPairs(ps)))];
    assert Get(body[..2][..1], "type") == Some(Str("object"));
    assert Get(body[..2], "type") == Some(Str("object"));
    assert Get(body, "type") == Some(Str("object"));
    assert Get(body[..2], "properties") == Some(Obj(FromPairs(ps)));
    assert Get(body, "properties") == Some(Obj(FromPairs(ps)));
  }

  lemma {:induction false} InferPairsGet(fs: Fields, ps: seq<(string, Json)>, k: string)
    requires |ps| == |fs| && forall i :: 0 <= i < |fs| ==> ps[i] == (fs[i].0, InferSchema(fs[i].1))
    ensures Get(ps, k).Some? <==> Get(fs, k).Some?
    ensures Get(fs, k).Some? ==> Get(ps, k) == Some(InferSchema(Get(fs, k).value))
    decreases |fs|
  {
    if fs != [] {
      var n := |fs| - 1;
      InferPairsGet(fs[..n], ps[..n], k);
    }
  }

  /** A list takes the schema of its first element only; an empty list has no "items". */
  lemma InferArray(xs: seq<Json>)
    ensures xs == [] ==> InferSchema(Arr(xs)) == Obj([("type", Str("array"))])
    ensures xs != [] ==> InferSchema(Arr(xs)) == Obj([("type", Str("array")), ("items", InferSchema(xs[0]))])
    ensures forall ys :: ys != [] && xs != [] && ys[0] == xs[0] ==> InferSchema(Arr(ys)) == InferSchema(Arr(xs))
  {
  }

  /** Scalars: int and bool give "integer", float "number", str "string", None "null". */
  lemma InferScalars(i: int, b: bool, z: bool, s: string)
    ensures InferSchema(Int(i)) == TypeOnly("integer")
    ensures InferSchema(Bool(b)) == TypeOnly("integer")
    ensures InferSchema(Float(z)) == TypeOnly("number")
    ensures InferSchema(Str(s)) == TypeOnly("string")
    ensures InferSchema(Null) == TypeOnly("null")
  {
  }

  // ---------------------------------------------------------------------------
  // Validation against the keywords the inference emits (draft-07 semantics)

  /** The draft-07 "type" keyword; a bool is neither an integer nor a number there. */
  predicate HasType(j: Json, t: string)
  {
    match t
    case "object" => j.Obj?
    case "array" => j.Arr?
    case "string" => j.Str?
    case "integer" => j.Int?
    case "number" => j.Int? || j.Float?
    case "boolean" => j.Bool?
    case "null" => j.Null?
    case _ => false
  }

  /** `jsonschema.validate(j, schema)` for a schema dict: every keyword holds. */
  predicate Conforms(j: Json, schema: Json)
    decreases schema, 0
  {
    match schema
    case Obj(sfs) => forall i :: 0 <= i < |sfs| ==> KeywordHolds(j, sfs[i].0, sfs[i].1)
    case _ => false
  }

  /** One keyword; those the inference does not emit ("$schema" among them) constrain nothing. */
  predicate KeywordHolds(j: Json, keyword: string, arg: Json)
    decreases arg, 1
  {
    match keyword
    case "type" => arg.Str? && HasType(j, arg.s)
    case "properties" =>
      arg.Obj? &&
      (j.Obj? ==> forall m :: 0 <= m < |arg.fields| && arg.fields[m].0 in Keys(j.fields) ==>
                     Conforms(Get(j.fields, arg.fields[m].0).value, arg.fields[m].1))
    case "required" =>
      arg.Arr? &&
      (j.Obj? ==> forall m :: 0 <= m < |arg.items| ==> arg.items[m].Str? && arg.items[m].s in Keys(j.fields))
    case "items" => j.Arr? ==> forall m :: 0 <= m < |j.items| ==> Conforms(j.items[m], arg)
    case _ => true
  }

  /** What `json.load` builds: no dict, at any depth, repeats a key. */
  predicate UniqueDicts(j: Json)
  {
    match j
    case Obj(fs) => UniqueKeys(fs) && forall i :: 0 <= i < |fs| ==> UniqueDicts(fs[i].1)
    case Arr(xs) => forall i :: 0 <= i < |xs| ==> UniqueDicts(xs[i])
    case _ => true
  }

  /**
   * The data must conform to the schema inferred from it (lines 104-108 validate it), yet a
   * boolean does not conform to the "integer" schema the as-written inference gives it.
   */
  lemma BooleanRejectedByOwnSchema(b: bool)
    ensures InferSchema(Bool(b)) == TypeOnly("integer")
    ensures !Conforms(Bool(b), InferSchema(Bool(b)))
  {
    assert KeywordHolds(Bool(b), TypeOnly("integer").fields[0].0, TypeOnly("integer").fields[0].1) ==> false;
  }

  /** A "properties" keyword fails when the value under one of its keys does not conform. */
  lemma PropertyRejects(j: Json, props: Fields, m: nat)
    requires j.Obj? && m < |props| && props[m].0 in Keys(j.fields)
    requires !Conforms(Get(j.fields, props[m].0).value, props[m].1)
    ensures !KeywordHolds(j, "properties", Obj(props))
  {
  }

  /**
   * A whole document is rejected as soon as one of its values is a boolean: the generated
   * schema's "properties" entry for that key asks for an integer.
   */
  lemma DocumentWithBooleanRejected(fs: Fields, i: nat)
    requires UniqueKeys(fs) && i < |fs| && fs[i].1.Bool?
    ensures GenerateJsonSchema(Obj(fs)).Ok?
    ensures !Conforms(Obj(fs), GenerateJsonSchema(Obj(fs)).value)
  {
    var ps := seq(|fs|, j requires 0 <= j < |fs| => (fs[j].0, InferSchema(fs[j].1)));
    var sfs := GenerateJsonSchema(Obj(fs)).value.fields;
    assert sfs[2] == ("properties", Obj(FromPairs(ps)));
    BooleanPropertyRejects(fs, ps, i);
    SchemaRejects(Obj(fs), sfs, 2);
  }

  /** The properties inferred for a dict without repeated keys reject its boolean value. */
  lemma BooleanPropertyRejects(fs: Fields, ps: Fields, i: nat)
    requires UniqueKeys(fs) && i < |fs| && fs[i].1.Bool?
    requires |ps| == |fs| && forall j :: 0 <= j < |fs| ==> ps[j] == (fs[j].0, InferSchema(fs[j].1))
    ensures !KeywordHolds(Obj(fs), "properties", Obj(FromPairs(ps)))
  {
    assert UniqueKeys(ps) by {
      forall a, c | 0 <= a < c < |ps| ensures ps[a].0 != ps[c].0 {
        assert ps[a].0 == fs[a].0 && ps[c].0 == fs[c].0;
      }
    }
    FromPairsOfUnique(ps);
    GetUnique(fs, i);
    assert fs[i].0 in Keys(fs) by { assert Keys(fs)[i] == fs[i].0; }
    BooleanRejectedByOwnSchema(fs[i].1.b);
    PropertyRejects(Obj(fs), ps, i);
  }

  /** A schema dict is not met when one of its keywords fails. */
  lemma SchemaRejects(j: Json, sfs: Fields, n: nat)
    requires n < |sfs| && !KeywordHolds(j, sfs[n].0, sfs[n].1)
    ensures !Conforms(j, Obj(sfs))
  {
  }

  /** The two-key document `{"a": 1, "b": true}` fails its own schema. */
  lemma MixedDocumentRejected()
    ensures var doc := Obj([("a", Int(1)), ("b", Bool(true))]);
            GenerateJsonSchema(doc).Ok? && !Conforms(doc, GenerateJsonSchema(doc).value)
  {
    var fs: Fields := [("a", Int(1)), ("b", Bool(true))];
    assert "a" != "b" by { assert "a"[0] != "b"[0]; }
    DocumentWithBooleanRejected(fs, 1);
  }

  // ---------------------------------------------------------------------------
  // The inference with the bool test placed before the int test

  /** `infer_schema` with `isinstance(data, bool)` checked before `isinstance(data, int)`. */
  function InferSchemaFixed(j: Json): Json
  {
    match j
    case Obj(fs) =>
      Obj([("type", Str("object")),
           ("properties", Obj(FromPairs(seq(|fs|, i requires 0 <= i < |fs| => (fs[i].0, InferSchemaFixed(fs[i].1)))))),
           ("required", Arr(Strs(Keys(fs))))])
    case Arr(xs) =>
      if xs == [] then TypeOnly("array")
      else Obj([("type", Str("array")), ("items", InferSchemaFixed(xs[0]))])
    case Int(_) => TypeOnly("integer")
    case Bool(_) => TypeOnly("boolean")
    case Float(_) => TypeOnly("number")
    case Str(_) => TypeOnly("string")
    case Null => TypeOnly("null")
  }

  /** The corrected inference differs from the written one on booleans only. */
  lemma {:induction false} FixedDiffersOnlyOnBooleans(j: Json)
    requires !ContainsBool(j)
    ensures InferSchemaFixed(j) == InferSchema(j)
  {
    match j
    case Obj(fs) =>
      forall i | 0 <= i < |fs| ensures InferSchemaFixed(fs[i].1) == InferSchema(fs[i].1) {
        FixedDiffersOnlyOnBooleans(fs[i].1);
      }
      assert seq(|fs|, i requires 0 <= i < |fs| => (fs[i].0, InferSchemaFixed(fs[i].1)))
          == seq(|fs|, i requires 0 <= i < |fs| => (fs[i].0, InferSchema(fs[i].1)));
    case Arr(xs) =>
      if xs != [] {
        FixedDiffersOnlyOnBooleans(xs[0]);
      }
    case _ =>
  }

  predicate ContainsBool(j: Json)
  {
    match j
    case Bool(_) => true
    case Obj(fs) => exists i :: 0 <= i < |fs| && ContainsBool(fs[i].1)
    case Arr(xs) => exists i :: 0 <= i < |xs| && ContainsBool(xs[i])
    case _ => false
  }

  /** Every list holds elements of one inferred shape, at any depth. */
  predicate Homogeneous(j: Json)
  {
    match j
    case Obj(fs) => forall i :: 0 <= i < |fs| ==> Homogeneous(fs[i].1)
    case Arr(xs) => forall i :: 0 <= i < |xs| ==> Homogeneous(xs[i]) && InferSchemaFixed(xs[i]) == InferSchemaFixed(xs[0])
    case _ => true
  }

  /**
   * With the corrected inference, a document conforms to the schema inferred from it,
   * provided its lists are homogeneous (a list schema describes the first element only).
   */
  lemma {:induction false} ConformsToFixedSchema(j: Json)
    requires UniqueDicts(j) && Homogeneous(j)
    ensures Conforms(j, InferSchemaFixed(j))
  {
    match j
    case Obj(fs) =>
      forall i | 0 <= i < |fs| ensures Conforms(fs[i].1, InferSchemaFixed(fs[i].1)) {
        ConformsToFixedSchema(fs[i].1);
      }
      PropertiesHold(fs);
      RequiredHolds(fs);
    case Arr(xs) =>
      if xs != [] {
        forall m | 0 <= m < |xs| ensures Conforms(xs[m], InferSchemaFixed(xs[0])) {
          ConformsToFixedSchema(xs[m]);
        }
        var sfs := InferSchemaFixed(j).fields;
        assert KeywordHolds(j, sfs[1].0, sfs[1].1);
      }
    case _ =>
  }

  /** Each value of a dict without repeated keys conforms to the schema inferred for it. */
  lemma PropertiesHold(fs: Fields)
    requires UniqueKeys(fs)
    requires forall i :: 0 <= i < |fs| ==> Conforms(fs[i].1, InferSchemaFixed(fs[i].1))
    ensures KeywordHolds(Obj(fs), "properties",
                         Obj(FromPairs(seq(|fs|, i requires 0 <= i < |fs| => (fs[i].0, InferSchemaFixed(fs[i].1))))))
  {
    var ps := seq(|fs|, i requires 0 <= i < |fs| => (fs[i].0, InferSchemaFixed(fs[i].1)));
    assert Keys(ps) == Keys(fs);
    FromPairsOfUnique(ps);
    forall m | 0 <= m < |ps| && ps[m].0 in Keys(fs)
      ensures Conforms(Get(fs, ps[m].0).value, ps[m].1)
    {
      GetUnique(fs, m);
    }
  }

  /** A dict has every one of its own keys. */
  lemma RequiredHolds(fs: Fields)
    ensures KeywordHolds(Obj(fs), "required", Arr(Strs(Keys(fs))))
  {
    forall m | 0 <= m < |fs| ensures Strs(Keys(fs))[m].s in Keys(fs) {
      assert Strs(Keys(fs))[m].s == Keys(fs)[m];
    }
  }

  /** The corrected top-level schema accepts the document it was generated from. */
  lemma GeneratedSchemaFixedAccepts(fs: Fields)
    requires UniqueDicts(Obj(fs)) && Homogeneous(Obj(fs))
    ensures Conforms(Obj(fs), Obj([("$schema", Str(Draft07))] + InferSchemaFixed(Obj(fs)).fields))
  {
    ConformsToFixedSchema(Obj(fs));
    var sfs := [("$schema", Str(Draft07))] + InferSchemaFixed(Obj(fs)).fields;
    forall i | 0 <= i < |sfs| ensures KeywordHolds(Obj(fs), sfs[i].0, sfs[i].1) {
      if i > 0 {
        assert sfs[i] == InferSchemaFixed(Obj(fs)).fields[i - 1];
      }
    }
  }
}
