/**
 * Metametadata-driven schema generation (json_schema_builder.py): the metadata
 * descriptors of one OIMS content object are turned into the property schemas and the
 * required list of the metadata items of a fixed default OIMS schema.
 */
module SchemaBuilder {
  import opened Wrappers
  import opened OrderedMaps
  import opened JsonValues

  function TypeOnly(t: string): Json
  {
    Obj([("type", Str(t))])
  }

  // ---------------------------------------------------------------------------
  // default_schema (lines 180-344), written level by level along the path to the
  // metadata item schema, the only part generate_schema changes

  function StringArray(): Json
  {
    Obj([("type", Str("array")), ("items", TypeOnly("string"))])
  }

  function ObjectOf(props: seq<(string, Json)>): Json
  {
    Obj([("type", Str("object")), ("properties", Obj(props))])
  }

  function ArrayOf(items: Json): Json
  {
    Obj([("type", Str("array")), ("items", items)])
  }

  function HeaderSchema(): Json
  {
    Obj([("type", Str("object")),
         ("properties", Obj([
            ("mapping_info", ArrayOf(ObjectOf([("mapper_tool_name", TypeOnly("string"))]))),
            ("metadata_schema", ArrayOf(ObjectOf([
               ("OIMS_content_object", Obj([])),
               ("schema_properties", ArrayOf(ObjectOf([
                  ("schema_name", Obj([])),
                  ("schema_description", Obj([])),
                  ("schema_type", Obj([])),
                  ("schema_version", Obj([])),
                  ("schema_url", Obj([])),
                  ("OIMS_content_object", Obj([]))])))]))),
            ("file_descriptors", ObjectOf([
               ("metadata_name", Obj([])),
               ("meta_data_description", Obj([])),
               ("metadata_version", ObjectOf([("current_version", Obj([])), ("metadata_version_status", Obj([]))])),
               ("contact", ArrayOf(ObjectOf([
                  ("contact_name", Obj([])),
                  ("contact_affiliation", ObjectOf([("contact_affiliation_name", Obj([])),
                                                    ("contact_affiliation_acronym", Obj([]))])),
                  ("contact_identifier", ArrayOf(ObjectOf([("identifier_scheme", Obj([])), ("identifier", Obj([]))]))),
                  ("contact_email", StringArray())])))]))])),
         ("required", Arr(Strs(["mapping_info", "metadata_schema", "file_descriptors"])))])
  }

  function EmptyProperties(): Json
  {
    Obj([("properties", Obj([]))])
  }

  /** The schema of one metadata item, with the given "properties" and "required". */
  function MetadataItemSchema(props: Json, required: Json): Json
  {
    Obj([("type", Str("object")),
         ("properties", props),
         ("required", required),
         ("if", EmptyProperties()),
         ("then", EmptyProperties()),
         ("else", Obj([("if", EmptyProperties()),
                       ("then", EmptyProperties()),
                       ("else", Obj([("if", EmptyProperties()), ("then", EmptyProperties())]))]))])
  }

  /**
   * One level of the default schema on the way down to the metadata item schema: the
   * entries before the key the path follows, the key, and the entries after it.
   */
  datatype Frame = Frame(before: Fields, key: string, after: Fields)

  /** The levels from the root down to the metadata item schema. */
  function MetadataFrames(): seq<Frame>
  {
    [Frame([("$schema", Str("https://json-schema.org/draft/2020-12/schema")),
            ("$id", Str("<uri to the github repository of the schema>")),
            ("title", Str("<e.g. schema build on OIMS_basis.json>")),
            ("description", Str("<e.g. Basic structure of an OIMS compatible metadata file>")),
            ("type", Str("object"))],
           "properties", [("required", Arr([Str("OIMS")]))]),
     Frame([], "OIMS", []),
     Frame([("type", Str("object"))], "properties", [("required", Arr(Strs(["\\", "OIMS_header", "OIMS_content"])))]),
     Frame([("\\", StringArray()), ("OIMS_header", HeaderSchema())], "OIMS_content", []),
     Frame([("type", Str("array"))], "items", []),
     Frame([("type", Str("object"))], "properties",
           [("required", Arr(Strs(["OIMS_content_object_properties", "OIMS_content_object"])))]),
     Frame([("\\", StringArray()), ("OIMS_content_object", Obj([]))], "OIMS_content_object_properties", []),
     Frame([("type", Str("array"))], "items", []),
     Frame([("type", Str("object"))], "properties", [("required", Arr([Str("metadata")]))]),
     Frame([], "metadata", []),
     Frame([("type", Str("array"))], "items", [])]
  }

  /** The entries of one level with `x` under the key the path follows. */
  function Fill(f: Frame, x: Json): Fields
  {
    f.before + [(f.key, x)] + f.after
  }

  /** The levels with `m` in the innermost place. */
  function Plug(frames: seq<Frame>, m: Json): Json
    decreases |frames|
  {
    if frames == [] then m
    else Obj(Fill(frames[0], Plug(frames[1..], m)))
  }

  /** The keys followed through the levels. */
  function PathOf(frames: seq<Frame>): seq<string>
  {
    seq(|frames|, i requires 0 <= i < |frames| => frames[i].key)
  }

  /** At every level the key the path follows occurs nowhere else. */
  predicate FramesKeyOnce(frames: seq<Frame>)
  {
    forall i :: 0 <= i < |frames| ==> frames[i].key !in Keys(frames[i].before) && frames[i].key !in Keys(frames[i].after)
  }

  /** The default schema with `m` as the schema of a metadata item. */
  function SchemaAround(m: Json): Json
  {
    Plug(MetadataFrames(), m)
  }

  /** `default_schema()`: no metadata properties, nothing required. */
  function DefaultSchema(): Json
  {
    SchemaAround(MetadataItemSchema(Obj([]), Arr([])))
  }

  /** The keys lines 173-174 follow from the root. */
  const MetadataPath: seq<string> :=
    ["properties", "OIMS", "properties", "OIMS_content", "items", "properties",
     "OIMS_content_object_properties", "items", "properties", "metadata", "items"]

  lemma MetadataFramesPath()
    ensures PathOf(MetadataFrames()) == MetadataPath
  {
  }

  lemma MetadataFramesKeyOnce()
    ensures FramesKeyOnce(MetadataFrames())
  {
  }

  // ---------------------------------------------------------------------------
  // Nested assignment: `j[p0][p1]...[pn][k] = v`

  /** Subscripting raises KeyError for a missing key and TypeError below a non-dict. */
  function UpdateAt(j: Json, path: seq<string>, k: string, v: Json): Result<Json, PyError>
    decreases |path|
  {
    if !j.Obj? then Err(TypeError("'" + PyTypeName(j) + "' object does not support item assignment"))
    else if path == [] then Ok(Obj(Put(j.fields, k, v)))
    else if path[0] !in Keys(j.fields) then Err(KeyError(path[0]))
    else
      var sub :- UpdateAt(Get(j.fields, path[0]).value, path[1..], k, v);
      Ok(Obj(Put(j.fields, path[0], sub)))
  }

  lemma PutAtUnique(fs: Fields, i: nat, x: Json)
    requires UniqueKeys(fs) && i < |fs|
    ensures Put(fs, fs[i].0, x) == fs[i := (fs[i].0, x)]
  {
    assert Keys(fs)[i] == fs[i].0;
  }

  /** A key absent from the tail is read from the head. */
  lemma {:induction false} GetSkipTail(a: Fields, b: Fields, k: string)
    requires k !in Keys(b)
    ensures Get(a + b, k) == Get(a, k)
    decreases |b|
  {
    if b != [] {
      var n := |b| - 1;
      assert (a + b)[..|a| + n] == a + b[..n];
      assert (a + b)[|a| + n] == b[n];
      assert Keys(b) == Keys(b[..n]) + [b[n].0];
      GetSkipTail(a, b[..n], k);
    } else {
      assert a + b == a;
    }
  }

  /** Reading the key a level follows finds the filled-in value. */
  lemma FillGet(f: Frame, x: Json)
    requires f.key !in Keys(f.after)
    ensures Get(Fill(f, x), f.key) == Some(x)
  {
    GetSkipTail(f.before + [(f.key, x)], f.after, f.key);
    GetAppend(f.before, f.key, x, f.key);
  }

  /** Assigning the key a level follows replaces the filled-in value in place. */
  lemma FillPut(f: Frame, x: Json, y: Json)
    requires f.key !in Keys(f.before) && f.key !in Keys(f.after)
    ensures Put(Fill(f, x), f.key, y) == Fill(f, y)
  {
    var fs := Fill(f, x);
    var n := |f.before|;
    assert Keys(fs)[n] == f.key;
    forall i | 0 <= i < |fs| ensures (if fs[i].0 == f.key then (f.key, y) else fs[i]) == Fill(f, y)[i] {
      if i < n {
        assert Keys(f.before)[i] == fs[i].0;
      } else if i > n {
        assert Keys(f.after)[i - n - 1] == fs[i].0;
      }
    }
  }

  lemma FramesKeyOnceTail(frames: seq<Frame>)
    requires frames != [] && FramesKeyOnce(frames)
    ensures FramesKeyOnce(frames[1..])
  {
    forall i | 0 <= i < |frames| - 1
      ensures frames[1..][i].key !in Keys(frames[1..][i].before) && frames[1..][i].key !in Keys(frames[1..][i].after)
    {
      assert frames[1..][i] == frames[i + 1];
    }
  }

  /** Assigning along the levels reaches the innermost dict and rebuilds every level around it. */
  lemma {:induction false} PlugUpdate(frames: seq<Frame>, m: Json, k: string, v: Json)
    requires FramesKeyOnce(frames) && UpdateAt(m, [], k, v).Ok?
    ensures UpdateAt(Plug(frames, m), PathOf(frames), k, v) == Ok(Plug(frames, UpdateAt(m, [], k, v).value))
    decreases |frames|
  {
    if frames != [] {
      var f := frames[0];
      FramesKeyOnceTail(frames);
      assert PathOf(frames)[1..] == PathOf(frames[1..]);
      PlugUpdate(frames[1..], m, k, v);
      var inner := Plug(frames[1..], m);
      FillGet(f, inner);
      FillPut(f, inner, Plug(frames[1..], UpdateAt(m, [], k, v).value));
    }
  }

  /** Reading along the levels finds the innermost value. */
  lemma {:induction false} PlugLookup(frames: seq<Frame>, m: Json)
    requires FramesKeyOnce(frames)
    ensures Lookup(Plug(frames, m), PathOf(frames)) == Some(m)
    decreases |frames|
  {
    if frames != [] {
      FramesKeyOnceTail(frames);
      assert PathOf(frames)[1..] == PathOf(frames[1..]);
      PlugLookup(frames[1..], m);
      FillGet(frames[0], Plug(frames[1..], m));
    }
  }

  /** Lines 173-174 write into the metadata item schema and leave the rest of the default schema as it is. */
  lemma UpdateMetadataItem(m: Json, k: string, v: Json)
    requires UpdateAt(m, [], k, v).Ok?
    ensures UpdateAt(SchemaAround(m), MetadataPath, k, v) == Ok(SchemaAround(UpdateAt(m, [], k, v).value))
  {
    MetadataFramesPath();
    MetadataFramesKeyOnce();
    PlugUpdate(MetadataFrames(), m, k, v);
  }

  /** The metadata item schema sits under the metadata path. */
  lemma LookupMetadataItem(m: Json)
    ensures Lookup(SchemaAround(m), MetadataPath) == Some(m)
  {
    MetadataFramesPath();
    MetadataFramesKeyOnce();
    PlugLookup(MetadataFrames(), m);
  }

  /** Replacing "properties" and then "required" of the metadata item schema, in place. */
  lemma MetadataItemUpdates(p0: Json, r0: Json, p: Json, r: Json)
    ensures UpdateAt(MetadataItemSchema(p0, r0), [], "properties", p) == Ok(MetadataItemSchema(p, r0))
    ensures UpdateAt(MetadataItemSchema(p, r0), [], "required", r) == Ok(MetadataItemSchema(p, r))
  {
    PutAtUnique(MetadataItemSchema(p0, r0).fields, 1, p);
    assert MetadataItemSchema(p0, r0).fields[1 := ("properties", p)] == MetadataItemSchema(p, r0).fields;
    PutAtUnique(MetadataItemSchema(p, r0).fields, 2, r);
    assert MetadataItemSchema(p, r0).fields[2 := ("required", r)] == MetadataItemSchema(p, r).fields;
  }

  // ---------------------------------------------------------------------------
  // One metadata descriptor

  /** `metadata_obj.get(key) == value`. */
  predicate HasValue(mo: Json, key: string, value: string)
  {
    MemberOrNull(mo, key) == Str(value)
  }

  function InvalidCombination(mo: Json): string
  {
    "Invalid combination of data_type: " + PyStr(MemberOrNull(mo, "data_type"))
    + " and data_type_class: " + PyStr(MemberOrNull(mo, "data_type_class"))
  }

  function MissingElements(mo: Json, name: Json): string
  {
    "evaluating " + PyStr(name) + " of data_type_class: " + PyStr(MemberOrNull(mo, "data_type_class"))
    + " expecting values for 'attribute_value_elements'"
  }

  /**
   * Lines 109-110 and 142-143: one "string" property per value element, filled in order,
   * a repeated element overwriting itself.  Elements must be strings here.
   */
  function ElementProperties(elements: seq<Json>): Result<Fields, PyError>
    decreases |elements|
  {
    if elements == [] then Ok([])
    else
      var props :- ElementProperties(elements[..|elements| - 1]);
      var e := elements[|elements| - 1];
      if !e.Str? then Err(TypeError("attribute value element of type '" + PyTypeName(e) + "' is not a string"))
      else Ok(Put(props, e.s, TypeOnly("string")))
  }

  /**
   * The schema of one value of the attribute: lines 101-133 give it as `items` when
   * `multiple` is truthy, lines 136-160 spell the same mapping out at the top level.
   * The two ValueError messages for an invalid combination differ in their prefix.
   */
  function ValueSchema(mo: Json, name: Json, multiple: bool): Result<Json, PyError>
  {
    if HasValue(mo, "data_type", "compound_object") then
      if !HasValue(mo, "data_type_class", "compound") then
        Err(ValueError((if multiple then "evaluating " + PyStr(name) + " " else "") + InvalidCombination(mo)))
      else if !Truthy(MemberOrNull(mo, "attribute_value_elements")) then
        Err(ValueError(MissingElements(mo, name)))
      else
        var elements :- Iterate(MemberOrNull(mo, "attribute_value_elements"));
        var props :- ElementProperties(elements);
        Ok(ObjectOf(props))
    else if HasValue(mo, "data_type", "boolean") then Ok(TypeOnly("boolean"))
    else if HasValue(mo, "data_type", "integer") || HasValue(mo, "data_type", "float") then Ok(TypeOnly("number"))
    else Ok(TypeOnly("string"))
  }

  /** Line 164: the `vocabulary_element_name` of each element, None where it has none. */
  function VocabularyNames(elements: seq<Json>): Result<seq<Json>, PyError>
    decreases |elements|
  {
    if elements == [] then Ok([])
    else
      var name :- GetOr(elements[0], "vocabulary_element_name", Null);
      var rest :- VocabularyNames(elements[1..]);
      Ok([name] + rest)
  }

  /** Lines 91-164: the schema of one attribute, keys in the order the source sets them. */
  function AttributeSchema(mo: Json, name: Json): Result<Json, PyError>
  {
    var multiple := Truthy(MemberOrNull(mo, "multiple"));
    var value :- ValueSchema(mo, name, multiple);
    var typed := if multiple then [("type", Str("array")), ("items", value)] else value.fields;
    var head := [("description", MemberOrNull(mo, "attribute_description"))] + typed;
    var vocabulary := MemberOrNull(mo, "controlled_vocabulary");
    if Truthy(vocabulary) then
      var elements :- Iterate(vocabulary);
      var names :- VocabularyNames(elements);
      Ok(Obj(head + [("enum", Arr(names))]))
    else
      Ok(Obj(head))
  }

  datatype Collected = Collected(properties: Fields, required: seq<string>)

  /**
   * One iteration of the loop at line 85: a descriptor without a truthy attribute_name is
   * skipped; otherwise its schema is stored under its name (a dict key, so a string here).
   */
  function AddAttribute(acc: Collected, mo: Json): Result<Collected, PyError>
  {
    var name :- GetOr(mo, "attribute_name", Null);
    if !Truthy(name) then Ok(acc)
    else
      var attribute :- AttributeSchema(mo, name);
      if !name.Str? then Err(TypeError("attribute_name of type '" + PyTypeName(name) + "' is not a string"))
      else
        var required := if HasValue(mo, "requirement_level", "required") then acc.required + [name.s] else acc.required;
        Ok(Collected(Put(acc.properties, name.s, attribute), required))
  }

  /** The descriptors folded in order; the first exception aborts. */
  function Collect(ms: seq<Json>): Result<Collected, PyError>
    decreases |ms|
  {
    if ms == [] then Ok(Collected([], []))
    else
      var acc :- Collect(ms[..|ms| - 1]);
      AddAttribute(acc, ms[|ms| - 1])
  }

  // ---------------------------------------------------------------------------
  // generate_schema

  /** Lines 70-73: the first content item whose OIMS_content_object is `obj`. */
  function SelectItem(items: seq<Json>, obj: string): Result<Option<Json>, PyError>
    decreases |items|
  {
    if items == [] then Ok(None)
    else
      var tag :- GetOr(items[0], "OIMS_content_object", Null);
      if tag == Str(obj) then Ok(Some(items[0])) else SelectItem(items[1..], obj)
  }

  /** `x[0]` where `x` is the value stored under OIMS_content_object_properties. */
  function First(j: Json): Result<Json, PyError>
  {
    match j
    case Arr(xs) => if xs == [] then Err(IndexError) else Ok(xs[0])
    case Obj(_) => Err(KeyError("0"))
    case Str(s) => if s == [] then Err(IndexError) else Ok(Str([s[0]]))
    case _ => Err(TypeError("'" + PyTypeName(j) + "' object is not subscriptable"))
  }

  /** Line 77 and the iteration of line 85: the descriptors of the selected item. */
  function MetadataList(item: Json): Result<seq<Json>, PyError>
  {
    var objectProperties :- GetOr(item, "OIMS_content_object_properties", Arr([Obj([])]));
    var first :- First(objectProperties);
    var metadata :- GetOr(first, "metadata", Arr([]));
    Iterate(metadata)
  }

  /** The content items of the document, as line 70 iterates them. */
  function ContentItems(jsonData: Json): Result<seq<Json>, PyError>
  {
    var oims :- Subscript(jsonData, "OIMS");
    var content :- Subscript(oims, "OIMS_content");
    Iterate(content)
  }

  /** What `generate_schema(json_data, _, obj)` returns. */
  function GenerateSchemaSpec(jsonData: Json, obj: string): Result<Json, PyError>
  {
    var selected :- Selection(jsonData, obj);
    SchemaOfSelected(selected)
  }

  /** Lines 68-73: the content item the search loop stops at, if any. */
  function Selection(jsonData: Json, obj: string): Result<Option<Json>, PyError>
  {
    var items :- ContentItems(jsonData);
    SelectItem(items, obj)
  }

  /** Lines 76-174: the default schema without a selected item, else the one built from its metadata. */
  function SchemaOfSelected(selected: Option<Json>): Result<Json, PyError>
  {
    if selected.None? || !Truthy(selected.value) then Ok(DefaultSchema())
    else SchemaOfItem(selected.value)
  }

  /** Lines 80-174: the attributes of the item's metadata written into the default schema. */
  function SchemaOfItem(item: Json): Result<Json, PyError>
  {
    var ms :- MetadataList(item);
    var acc :- Collect(ms);
    Ok(SchemaAround(MetadataItemSchema(Obj(acc.properties), Arr(Strs(acc.required)))))
  }

  lemma {:induction false} CollectAbort(ms: seq<Json>, n: nat, e: PyError)
    requires n <= |ms| && Collect(ms[..n]) == Err(e)
    ensures Collect(ms) == Err(e)
    decreases |ms| - n
  {
    if n < |ms| {
      assert ms[..n + 1][..n] == ms[..n];
      CollectAbort(ms, n + 1, e);
    } else {
      assert ms[..n] == ms;
    }
  }

  /** Lines 69-73: the search loop with its `break`. */
  method FindContentItem(items: seq<Json>, obj: string) returns (r: Result<Option<Json>, PyError>)
    ensures r == SelectItem(items, obj)
  {
    var i := 0;
    while i < |items|
      invariant 0 <= i <= |items|
      invariant SelectItem(items, obj) == SelectItem(items[i..], obj)
    {
      var tag := GetOr(items[i], "OIMS_content_object", Null);
      if tag.Err? {
        return Err(tag.error);
      }
      if tag.value == Str(obj) {
        return Ok(Some(items[i]));
      }
      assert items[i..][1..] == items[i + 1..];
      i := i + 1;
    }
    return Ok(None);
  }

  /** Lines 80-170: the loop over the descriptors, filling the properties and the required list. */
  method CollectAttributes(ms: seq<Json>) returns (r: Result<Collected, PyError>)
    ensures r == Collect(ms)
  {
    var acc := Collected([], []);
    var n := 0;
    while n < |ms|
      invariant 0 <= n <= |ms|
      invariant Collect(ms[..n]) == Ok(acc)
    {
      assert ms[..n + 1][..n] == ms[..n];
      var step := AddAttribute(acc, ms[n]);
      if step.Err? {
        CollectAbort(ms, n + 1, step.error);
        return Err(step.error);
      }
      acc := step.value;
      n := n + 1;
    }
    assert ms[..n] == ms;
    return Ok(acc);
  }

  /** Lines 173-174: the two nested assignments into the default schema. */
  method WriteMetadata(acc: Collected) returns (schema: Json)
    ensures schema == SchemaAround(MetadataItemSchema(Obj(acc.properties), Arr(Strs(acc.required))))
  {
    var props := Obj(acc.properties);
    var required := Arr(Strs(acc.required));
    WriteItemParts(Obj([]), Arr([]), props, required);
    var withProperties := UpdateAt(DefaultSchema(), MetadataPath, "properties", props);
    var withRequired := UpdateAt(withProperties.value, MetadataPath, "required", required);
    schema := withRequired.value;
  }

  /** `generate_schema` (lines 61-177). */
  method GenerateSchema(jsonData: Json, obj: string) returns (r: Result<Json, PyError>)
    ensures r == GenerateSchemaSpec(jsonData, obj)
  {
    var items := ContentItems(jsonData);
    if items.Err? {
      return Err(items.error);
    }
    var selected := FindContentItem(items.value, obj);
    assert selected == Selection(jsonData, obj);
    if selected.Err? {
      return Err(selected.error);
    }
    r := SchemaFromSelection(selected.value);
  }

  /** Lines 76-174 once the search loop has run. */
  method SchemaFromSelection(selected: Option<Json>) returns (r: Result<Json, PyError>)
    ensures r == SchemaOfSelected(selected)
  {
    if selected.None? || !Truthy(selected.value) {
      return Ok(DefaultSchema());
    }
    r := SchemaFromItem(selected.value);
  }

  /** Lines 80-174: collect the item's attributes, then write them into the default schema. */
  method SchemaFromItem(item: Json) returns (r: Result<Json, PyError>)
    ensures r == SchemaOfItem(item)
  {
    var ms := MetadataList(item);
    if ms.Err? {
      return Err(ms.error);
    }
    var acc := CollectAttributes(ms.value);
    if acc.Err? {
      return Err(acc.error);
    }
    var schema := WriteMetadata(acc.value);
    r := Ok(schema);
  }

  // ---------------------------------------------------------------------------
  // What nested assignment changes

  /** After `j[p0]...[pn][k] = v`, the value is found under the path followed by `k`. */
  lemma {:induction false} UpdateAtLookup(j: Json, path: seq<string>, k: string, v: Json)
    requires UpdateAt(j, path, k, v).Ok?
    ensures Lookup(UpdateAt(j, path, k, v).value, path + [k]) == Some(v)
    decreases |path|
  {
    if path == [] {
      PutGet(j.fields, k, v, k);
      assert ([] + [k])[1..] == [];
    } else {
      var sub := UpdateAt(Get(j.fields, path[0]).value, path[1..], k, v).value;
      UpdateAtLookup(Get(j.fields, path[0]).value, path[1..], k, v);
      PutGet(j.fields, path[0], sub, path[0]);
      assert (path + [k])[1..] == path[1..] + [k];
    }
  }

  /** `q` follows `p` for its first `n` keys and then takes a different key. */
  predicate LeavesAt(q: seq<string>, p: seq<string>, n: nat)
  {
    n < |p| && n < |q| && q[..n] == p[..n] && q[n] != p[n]
  }

  /** Every path that leaves `path + [k]` somewhere reads what it read before the assignment. */
  lemma {:induction false} UpdateAtFrame(j: Json, path: seq<string>, k: string, v: Json, q: seq<string>, n: nat)
    requires UpdateAt(j, path, k, v).Ok?
    requires LeavesAt(q, path + [k], n)
    ensures Lookup(UpdateAt(j, path, k, v).value, q) == Lookup(j, q)
    decreases n
  {
    var fs := j.fields;
    if path == [] {
      assert q[0] != k by { assert ([] + [k])[0] == k; }
      PutGet(fs, k, v, q[0]);
    } else {
      var sub := UpdateAt(Get(fs, path[0]).value, path[1..], k, v).value;
      PutGet(fs, path[0], sub, q[0]);
      if n > 0 {
        LeavesAfterFirst(path, k, q, n);
        UpdateAtFrame(Get(fs, path[0]).value, path[1..], k, v, q[1..], n - 1);
      }
    }
  }

  /** A path that agrees with `path` on its first key and leaves `path + [k]` later: its tail leaves the tail. */
  lemma LeavesAfterFirst(path: seq<string>, k: string, q: seq<string>, n: nat)
    requires 0 < n && LeavesAt(q, path + [k], n)
    ensures path != [] && q[0] == path[0] && LeavesAt(q[1..], path[1..] + [k], n - 1)
  {
    var p := path + [k];
    assert q[..n][0] == p[..n][0];
    assert q[1..][..n - 1] == q[..n][1..];
    assert (path[1..] + [k]) == p[1..];
    assert p[1..][..n - 1] == p[..n][1..];
  }

  /**
   * Only the metadata item's "properties" and "required" differ from the default schema:
   * a path that leaves both of them somewhere reads the same in the generated schema.
   */
  lemma OnlyMetadataChanges(acc: Collected, q: seq<string>, n1: nat, n2: nat)
    requires LeavesAt(q, MetadataPath + ["properties"], n1) && LeavesAt(q, MetadataPath + ["required"], n2)
    ensures Lookup(SchemaAround(MetadataItemSchema(Obj(acc.properties), Arr(Strs(acc.required)))), q)
            == Lookup(DefaultSchema(), q)
  {
    OnlyItemPartsChange(Obj([]), Arr([]), Obj(acc.properties), Arr(Strs(acc.required)), q, n1, n2);
  }

  /** Writing "properties" and then "required" into a schema built around a metadata item schema. */
  lemma WriteItemParts(p0: Json, r0: Json, p: Json, r: Json)
    ensures UpdateAt(SchemaAround(MetadataItemSchema(p0, r0)), MetadataPath, "properties", p)
            == Ok(SchemaAround(MetadataItemSchema(p, r0)))
    ensures UpdateAt(SchemaAround(MetadataItemSchema(p, r0)), MetadataPath, "required", r)
            == Ok(SchemaAround(MetadataItemSchema(p, r)))
  {
    MetadataItemUpdates(p0, r0, p, r);
    UpdateMetadataItem(MetadataItemSchema(p0, r0), "properties", p);
    UpdateMetadataItem(MetadataItemSchema(p, r0), "required", r);
  }

  lemma OnlyItemPartsChange(p0: Json, r0: Json, p: Json, r: Json, q: seq<string>, n1: nat, n2: nat)
    requires LeavesAt(q, MetadataPath + ["properties"], n1) && LeavesAt(q, MetadataPath + ["required"], n2)
    ensures Lookup(SchemaAround(MetadataItemSchema(p, r)), q) == Lookup(SchemaAround(MetadataItemSchema(p0, r0)), q)
  {
    MetadataItemUpdates(p0, r0, p, r);
    ItemKeyUnchanged(MetadataItemSchema(p0, r0), "properties", p, q, n1);
    ItemKeyUnchanged(MetadataItemSchema(p, r0), "required", r, q, n2);
  }

  /** Assigning one key of the metadata item schema leaves every path that avoids it as it was. */
  lemma ItemKeyUnchanged(m: Json, k: string, v: Json, q: seq<string>, n: nat)
    requires UpdateAt(m, [], k, v).Ok?
    requires LeavesAt(q, MetadataPath + [k], n)
    ensures Lookup(SchemaAround(UpdateAt(m, [], k, v).value), q) == Lookup(SchemaAround(m), q)
  {
    UpdateMetadataItem(m, k, v);
    UpdateAtFrame(SchemaAround(m), MetadataPath, k, v, q, n);
  }

  /** Reading a path in two steps. */
  lemma {:induction false} LookupAppend(j: Json, p: seq<string>, q: seq<string>)
    requires Lookup(j, p).Some?
    ensures Lookup(j, p + q) == Lookup(Lookup(j, p).value, q)
    decreases |p|
  {
    if p != [] {
      assert (p + q)[1..] == p[1..] + q;
      LookupAppend(Member(j, p[0]).value, p[1..], q);
    } else {
      assert p + q == q;
    }
  }

  /** A key of the metadata item schema, read from the root. */
  lemma SchemaAroundLookup(m: Json, k: string)
    ensures Lookup(SchemaAround(m), MetadataPath + [k]) == Lookup(m, [k])
  {
    LookupMetadataItem(m);
    LookupAppend(SchemaAround(m), MetadataPath, [k]);
  }

  lemma MetadataItemFields(props: Json, required: Json)
    ensures Lookup(MetadataItemSchema(props, required), ["properties"]) == Some(props)
    ensures Lookup(MetadataItemSchema(props, required), ["required"]) == Some(required)
  {
    var fs := MetadataItemSchema(props, required).fields;
    assert UniqueKeys(fs);
    GetUnique(fs, 1);
    GetUnique(fs, 2);
  }

  /** The metadata item's "properties" and "required" as read from a schema built around it. */
  lemma MetadataItemParts(props: Json, required: Json)
    ensures Lookup(SchemaAround(MetadataItemSchema(props, required)), MetadataPath + ["properties"]) == Some(props)
    ensures Lookup(SchemaAround(MetadataItemSchema(props, required)), MetadataPath + ["required"]) == Some(required)
  {
    SchemaAroundLookup(MetadataItemSchema(props, required), "properties");
    SchemaAroundLookup(MetadataItemSchema(props, required), "required");
    MetadataItemFields(props, required);
  }

  /** The collected properties and required list are found where lines 173-174 put them. */
  lemma MetadataWritten(jsonData: Json, obj: string, acc: Collected)
    requires Selection(jsonData, obj).Ok?
    requires var sel := Selection(jsonData, obj).value;
             sel.Some? && MetadataList(sel.value).Ok? && Collect(MetadataList(sel.value).value) == Ok(acc)
    ensures GenerateSchemaSpec(jsonData, obj).Ok?
    ensures Lookup(GenerateSchemaSpec(jsonData, obj).value, MetadataPath + ["properties"]) == Some(Obj(acc.properties))
    ensures Lookup(GenerateSchemaSpec(jsonData, obj).value, MetadataPath + ["required"]) == Some(Arr(Strs(acc.required)))
  {
    GeneratedFromItem(jsonData, obj);
    ItemSchema(Selection(jsonData, obj).value.value, acc);
    MetadataItemParts(Obj(acc.properties), Arr(Strs(acc.required)));
  }

  /** A found item: the schema is the one built from that item. */
  lemma GeneratedFromItem(jsonData: Json, obj: string)
    requires Selection(jsonData, obj).Ok? && Selection(jsonData, obj).value.Some?
    ensures GenerateSchemaSpec(jsonData, obj) == SchemaOfItem(Selection(jsonData, obj).value.value)
  {
    SpecOfSelection(jsonData, obj);
    SelectedMatches(ContentItems(jsonData).value, obj);
    ItemSelected(Selection(jsonData, obj).value);
  }

  lemma ItemSelected(sel: Option<Json>)
    requires sel.Some? && Truthy(sel.value)
    ensures SchemaOfSelected(sel) == SchemaOfItem(sel.value)
  {
  }

  lemma ItemSchema(item: Json, acc: Collected)
    requires MetadataList(item).Ok? && Collect(MetadataList(item).value) == Ok(acc)
    ensures SchemaOfItem(item) == Ok(SchemaAround(MetadataItemSchema(Obj(acc.properties), Arr(Strs(acc.required)))))
  {
  }

  /** Once the items are read and the search has run, the schema depends on the selection only. */
  lemma SpecOfSelection(jsonData: Json, obj: string)
    requires Selection(jsonData, obj).Ok?
    ensures GenerateSchemaSpec(jsonData, obj) == SchemaOfSelected(Selection(jsonData, obj).value)
  {
  }

  // ---------------------------------------------------------------------------
  // Selecting the content item

  /** The first dict whose OIMS_content_object is `obj` is selected, provided every item before it is a dict. */
  lemma {:induction false} SelectFirstMatch(items: seq<Json>, obj: string, i: nat)
    requires i < |items| && items[i].Obj? && MemberOrNull(items[i], "OIMS_content_object") == Str(obj)
    requires forall j :: 0 <= j < i ==> items[j].Obj? && MemberOrNull(items[j], "OIMS_content_object") != Str(obj)
    ensures SelectItem(items, obj) == Ok(Some(items[i]))
    decreases i
  {
    if i > 0 {
      SelectFirstMatch(items[1..], obj, i - 1);
    }
  }

  /** With no matching item among dict items, nothing is selected. */
  lemma {:induction false} SelectNoMatch(items: seq<Json>, obj: string)
    requires forall j :: 0 <= j < |items| ==> items[j].Obj? && MemberOrNull(items[j], "OIMS_content_object") != Str(obj)
    ensures SelectItem(items, obj) == Ok(None)
    decreases |items|
  {
    if items != [] {
      SelectNoMatch(items[1..], obj);
    }
  }

  /** A selected item is a dict holding the requested OIMS_content_object, so it is truthy. */
  lemma {:induction false} SelectedMatches(items: seq<Json>, obj: string)
    requires SelectItem(items, obj).Ok? && SelectItem(items, obj).value.Some?
    ensures var it := SelectItem(items, obj).value.value;
            it in items && it.Obj? && MemberOrNull(it, "OIMS_content_object") == Str(obj) && Truthy(it)
    decreases |items|
  {
    var tag := GetOr(items[0], "OIMS_content_object", Null).value;
    if tag != Str(obj) {
      SelectedMatches(items[1..], obj);
    } else {
      assert items[0].fields != [];
    }
  }

  /** Without a matching item the result is the default schema. */
  lemma NoMatchGivesDefault(jsonData: Json, obj: string)
    requires Selection(jsonData, obj).Ok? && Selection(jsonData, obj).value.None?
    ensures GenerateSchemaSpec(jsonData, obj) == Ok(DefaultSchema())
  {
    SpecOfSelection(jsonData, obj);
    NothingSelected(Selection(jsonData, obj).value);
  }

  lemma NothingSelected(sel: Option<Json>)
    requires sel.None?
    ensures SchemaOfSelected(sel) == Ok(DefaultSchema())
  {
  }

  // ---------------------------------------------------------------------------
  // One attribute

  /** `multiple` truthy: the attribute is an array whose items have the value schema. */
  lemma AttributeMultiple(mo: Json, name: Json)
    requires Truthy(MemberOrNull(mo, "multiple")) && AttributeSchema(mo, name).Ok?
    ensures var a := AttributeSchema(mo, name).value;
            a.Obj? && |a.fields| >= 3
            && a.fields[0] == ("description", MemberOrNull(mo, "attribute_description"))
            && a.fields[1] == ("type", Str("array"))
            && a.fields[2] == ("items", ValueSchema(mo, name, true).value)
  {
  }

  /** `multiple` falsy: the value schema's keys stand at the top of the attribute. */
  lemma AttributeSingle(mo: Json, name: Json)
    requires !Truthy(MemberOrNull(mo, "multiple")) && AttributeSchema(mo, name).Ok?
    ensures var a := AttributeSchema(mo, name).value;
            var vs := ValueSchema(mo, name, false).value;
            a.Obj? && vs.Obj? && a.fields[..1 + |vs.fields|] == [("description", MemberOrNull(mo, "attribute_description"))] + vs.fields
  {
    var vs := ValueSchema(mo, name, false).value;
    var a := AttributeSchema(mo, name).value;
    var head := [("description", MemberOrNull(mo, "attribute_description"))] + vs.fields;
    assert a.fields == head || a.fields[..|head|] == head;
  }

  /** Line 164: one name per vocabulary element, in order; a non-dict element raises AttributeError. */
  lemma {:induction false} VocabularyNamesSpec(elements: seq<Json>)
    ensures VocabularyNames(elements).Ok? <==> forall i :: 0 <= i < |elements| ==> elements[i].Obj?
    ensures VocabularyNames(elements).Ok? ==>
              |VocabularyNames(elements).value| == |elements|
              && forall i :: 0 <= i < |elements| ==>
                   VocabularyNames(elements).value[i] == MemberOrNull(elements[i], "vocabulary_element_name")
    decreases |elements|
  {
    if elements != [] {
      VocabularyNamesSpec(elements[1..]);
      if VocabularyNames(elements).Ok? {
        forall i | 0 <= i < |elements|
          ensures VocabularyNames(elements).value[i] == MemberOrNull(elements[i], "vocabulary_element_name")
        {
          if i > 0 {
            assert elements[i] == elements[1..][i - 1];
          }
        }
      } else if elements[0].Obj? {
        var i :| 0 <= i < |elements[1..]| && !elements[1..][i].Obj?;
        assert !elements[i + 1].Obj?;
      }
    }
  }

  /**
   * A truthy controlled_vocabulary adds "enum" as the last key, holding the
   * vocabulary_element_name of each element in order; otherwise there is no "enum".
   */
  lemma AttributeEnum(mo: Json, name: Json)
    requires AttributeSchema(mo, name).Ok?
    ensures var a := AttributeSchema(mo, name).value;
            var vocabulary := MemberOrNull(mo, "controlled_vocabulary");
            a.Obj? && a.fields != []
            && (Truthy(vocabulary) <==> a.fields[|a.fields| - 1].0 == "enum")
            && (Truthy(vocabulary) ==>
                  var names := a.fields[|a.fields| - 1].1;
                  var elements := Iterate(vocabulary).value;
                  names.Arr? && |names.items| == |elements|
                  && forall i :: 0 <= i < |elements| ==>
                       names.items[i] == MemberOrNull(elements[i], "vocabulary_element_name"))
  {
    var multiple := Truthy(MemberOrNull(mo, "multiple"));
    var value := ValueSchema(mo, name, multiple).value;
    var vocabulary := MemberOrNull(mo, "controlled_vocabulary");
    if Truthy(vocabulary) {
      VocabularyNamesSpec(Iterate(vocabulary).value);
    } else if !multiple {
      assert value.fields != [] && value.fields[|value.fields| - 1].0 != "enum";
    }
  }

  /** The data_type mapping: boolean, integer or float to number, anything but compound_object to string. */
  lemma ValueSchemaScalars(mo: Json, name: Json, multiple: bool)
    requires !HasValue(mo, "data_type", "compound_object")
    ensures HasValue(mo, "data_type", "boolean") ==> ValueSchema(mo, name, multiple) == Ok(TypeOnly("boolean"))
    ensures HasValue(mo, "data_type", "integer") || HasValue(mo, "data_type", "float") ==>
              ValueSchema(mo, name, multiple) == Ok(TypeOnly("number"))
    ensures (!HasValue(mo, "data_type", "boolean") && !HasValue(mo, "data_type", "integer")
             && !HasValue(mo, "data_type", "float")) ==> ValueSchema(mo, name, multiple) == Ok(TypeOnly("string"))
  {
  }

  /** compound_object raises ValueError unless the class is "compound" and value elements are given. */
  lemma ValueSchemaCompoundErrors(mo: Json, name: Json, multiple: bool)
    requires HasValue(mo, "data_type", "compound_object")
    ensures !HasValue(mo, "data_type_class", "compound") ==>
              ValueSchema(mo, name, multiple)
              == Err(ValueError((if multiple then "evaluating " + PyStr(name) + " " else "") + InvalidCombination(mo)))
    ensures HasValue(mo, "data_type_class", "compound") && !Truthy(MemberOrNull(mo, "attribute_value_elements")) ==>
              ValueSchema(mo, name, multiple) == Err(ValueError(MissingElements(mo, name)))
  {
  }

  /** Each value element becomes a "string" property; the properties are exactly the elements. */
  lemma {:induction false} ElementPropertiesSpec(ss: seq<string>, e: string)
    ensures ElementProperties(Strs(ss)).Ok?
    ensures var props := ElementProperties(Strs(ss)).value;
            (e in Keys(props) <==> e in ss) && (e in ss ==> Get(props, e) == Some(TypeOnly("string")))
    decreases |ss|
  {
    if ss != [] {
      var n := |ss| - 1;
      assert Strs(ss)[..n] == Strs(ss[..n]);
      ElementPropertiesSpec(ss[..n], e);
      var props := ElementProperties(Strs(ss[..n])).value;
      PutGet(props, ss[n], TypeOnly("string"), e);
      assert ss == ss[..n] + [ss[n]];
    }
  }

  /** A compound attribute with a list of string elements: an object whose properties are all strings. */
  lemma ValueSchemaCompound(mo: Json, name: Json, multiple: bool, ss: seq<string>)
    requires HasValue(mo, "data_type", "compound_object") && HasValue(mo, "data_type_class", "compound")
    requires MemberOrNull(mo, "attribute_value_elements") == Arr(Strs(ss)) && ss != []
    ensures ElementProperties(Strs(ss)).Ok?
    ensures ValueSchema(mo, name, multiple) == Ok(ObjectOf(ElementProperties(Strs(ss)).value))
    ensures forall e :: e in ss <==> e in Keys(ElementProperties(Strs(ss)).value)
  {
    ElementPropertiesSpec(ss, "");
    forall e ensures e in ss <==> e in Keys(ElementProperties(Strs(ss)).value) {
      ElementPropertiesSpec(ss, e);
    }
  }

  // ---------------------------------------------------------------------------
  // The loop over the descriptors

  function NameOf(mo: Json): Json
  {
    MemberOrNull(mo, "attribute_name")
  }

  /** Names, in order, of the descriptors whose requirement_level is "required". */
  function RequiredNames(ms: seq<Json>): seq<string>
    decreases |ms|
  {
    if ms == [] then []
    else
      var mo := ms[|ms| - 1];
      RequiredNames(ms[..|ms| - 1])
      + (if NameOf(mo).Str? && NameOf(mo).s != "" && HasValue(mo, "requirement_level", "required") then [NameOf(mo).s] else [])
  }

  /** A descriptor without a truthy attribute_name changes nothing. */
  lemma AddAttributeSkip(acc: Collected, mo: Json)
    requires mo.Obj? && !Truthy(NameOf(mo))
    ensures AddAttribute(acc, mo) == Ok(acc)
  {
  }

  /**
   * A named descriptor stores its schema under its name, replacing an earlier one in place,
   * leaves every other name alone, and adds the name to `required` when it is required.
   */
  lemma AddAttributeNamed(acc: Collected, mo: Json, k: string)
    requires mo.Obj? && NameOf(mo) == Str(k) && k != "" && AttributeSchema(mo, Str(k)).Ok?
    ensures var r := AddAttribute(acc, mo);
            r.Ok?
            && Get(r.value.properties, k) == Some(AttributeSchema(mo, Str(k)).value)
            && (forall k' :: k' != k ==> Get(r.value.properties, k') == Get(acc.properties, k'))
            && Keys(r.value.properties) == (if k in Keys(acc.properties) then Keys(acc.properties) else Keys(acc.properties) + [k])
            && r.value.required == acc.required + (if HasValue(mo, "requirement_level", "required") then [k] else [])
  {
    var a := AttributeSchema(mo, Str(k)).value;
    PutGet(acc.properties, k, a, k);
    PutKeys(acc.properties, k, a);
    forall k' | k' != k ensures Get(Put(acc.properties, k, a), k') == Get(acc.properties, k') {
      PutGet(acc.properties, k, a, k');
    }
  }

  /** `required` lists, in order, the names of the required descriptors. */
  lemma {:induction false} CollectRequired(ms: seq<Json>)
    requires Collect(ms).Ok?
    ensures Collect(ms).value.required == RequiredNames(ms)
    decreases |ms|
  {
    if ms != [] {
      CollectRequired(ms[..|ms| - 1]);
    }
  }

  lemma CollectStep(ms: seq<Json>)
    requires ms != [] && Collect(ms).Ok?
    ensures Collect(ms[..|ms| - 1]).Ok?
    ensures Collect(ms) == AddAttribute(Collect(ms[..|ms| - 1]).value, ms[|ms| - 1])
  {
  }

  /** A descriptor with another name leaves the property of `k` alone. */
  lemma AddAttributeKeeps(acc: Collected, mo: Json, k: string)
    requires AddAttribute(acc, mo).Ok? && NameOf(mo) != Str(k)
    ensures Get(AddAttribute(acc, mo).value.properties, k) == Get(acc.properties, k)
  {
    var name := NameOf(mo);
    if Truthy(name) {
      PutGet(acc.properties, name.s, AttributeSchema(mo, name).value, k);
    }
  }

  /** A descriptor that went through with a truthy name had a string name and a schema. */
  lemma AddAttributeNamedOk(acc: Collected, mo: Json)
    requires AddAttribute(acc, mo).Ok? && Truthy(NameOf(mo))
    ensures mo.Obj? && NameOf(mo).Str? && NameOf(mo).s != "" && AttributeSchema(mo, NameOf(mo)).Ok?
  {
  }

  /**
   * Every named descriptor has a property under its name, and the property of a name is
   * the schema of the last descriptor carrying it.
   */
  lemma {:induction false} CollectLastWins(ms: seq<Json>, i: nat, k: string)
    requires Collect(ms).Ok? && i < |ms| && NameOf(ms[i]) == Str(k) && k != ""
    requires forall j :: i < j < |ms| ==> NameOf(ms[j]) != Str(k)
    ensures AttributeSchema(ms[i], Str(k)).Ok?
            && Get(Collect(ms).value.properties, k) == Some(AttributeSchema(ms[i], Str(k)).value)
    decreases |ms|
  {
    var n := |ms| - 1;
    CollectStep(ms);
    var acc := Collect(ms[..n]).value;
    if i == n {
      AddAttributeNamedOk(acc, ms[n]);
      AddAttributeNamed(acc, ms[n], k);
    } else {
      assert ms[..n][i] == ms[i];
      assert forall j :: i < j < n ==> ms[..n][j] == ms[j];
      CollectLastWins(ms[..n], i, k);
      AddAttributeKeeps(acc, ms[n], k);
    }
  }

}
