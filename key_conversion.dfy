/**
 * `standardize_oims_properties` and `convert_keys_recursive` of
 * OIMS_snake_case_converter.py: every dict key of a document is renamed to its snake-case
 * form, and the renamings are recorded in a conversion dictionary.
 */
module KeyConversion {
  import opened Wrappers
  import opened OrderedMaps
  import opened JsonValues
  import opened Text
  import opened SnakeCase

  // ---------------------------------------------------------------------------
  // standardize_oims_properties (lines 57-73)

  /** `key in item`: dict keys, list elements, substrings; TypeError for anything else. */
  function PyIn(key: string, item: Json): Result<bool, PyError>
  {
    match item
    case Obj(fs) => Ok(key in Keys(fs))
    case Arr(xs) => Ok(Str(key) in xs)
    case Str(s) => Ok(Contains(s, key))
    case _ => Err(TypeError("argument of type '" + PyTypeName(item) + "' is not iterable"))
  }

  /**
   * Line 65 tests "persistent_entity_id" first, which raises for an item that is no
   * container; for a container each of the three branches continues exactly when
   * "metadata" is in the item.
   */
  function HasMetadata(item: Json): Result<bool, PyError>
  {
    var _ :- PyIn("persistent_entity_id", item);
    PyIn("metadata", item)
  }

  /** Whether every item has "metadata"; the scan stops at the first item that has not. */
  function AllHaveMetadata(xs: seq<Json>): Result<bool, PyError>
    decreases |xs|
  {
    if xs == [] then Ok(true)
    else
      var has :- HasMetadata(xs[0]);
      if !has then Ok(false) else AllHaveMetadata(xs[1..])
  }

  function Standardize(data: Json): Result<Json, PyError>
  {
    if !data.Arr? then Ok(Arr([Obj([("metadata", Arr([data]))])]))
    else
      var all :- AllHaveMetadata(data.items);
      if all then Ok(data) else Ok(Arr([Obj([("metadata", data)])]))
  }

  /** A value that is no list is wrapped as `[{"metadata": [data]}]`. */
  lemma StandardizeNonList(data: Json)
    requires !data.Arr?
    ensures Standardize(data) == Ok(Arr([Obj([("metadata", Arr([data]))])]))
  {
  }

  /** A list whose items all have "metadata" is returned as it is. */
  lemma {:induction false} StandardizeAllHave(xs: seq<Json>)
    requires forall i :: 0 <= i < |xs| ==> PyIn("metadata", xs[i]) == Ok(true)
    ensures Standardize(Arr(xs)) == Ok(Arr(xs))
  {
    AllHaveFrom(xs, 0);
  }

  lemma {:induction false} AllHaveFrom(xs: seq<Json>, n: nat)
    requires n <= |xs| && forall i :: n <= i < |xs| ==> PyIn("metadata", xs[i]) == Ok(true)
    ensures AllHaveMetadata(xs[n..]) == Ok(true)
    decreases |xs| - n
  {
    if n < |xs| {
      assert xs[n..][1..] == xs[n + 1..];
      AllHaveFrom(xs, n + 1);
    }
  }

  /**
   * The first item without "metadata" decides: a container makes the whole list the
   * "metadata" of one new item, anything else raises TypeError.
   */
  lemma {:induction false} StandardizeFirstWithout(xs: seq<Json>, k: nat)
    requires k < |xs| && forall i :: 0 <= i < k ==> PyIn("metadata", xs[i]) == Ok(true)
    requires PyIn("metadata", xs[k]) != Ok(true)
    ensures PyIn("metadata", xs[k]).Ok? ==> Standardize(Arr(xs)) == Ok(Arr([Obj([("metadata", Arr(xs))])]))
    ensures PyIn("metadata", xs[k]).Err? ==> Standardize(Arr(xs)) == Err(PyIn("metadata", xs[k]).error)
  {
    StopsAt(xs, 0, k);
  }

  lemma {:induction false} StopsAt(xs: seq<Json>, n: nat, k: nat)
    requires n <= k < |xs| && forall i :: n <= i < k ==> PyIn("metadata", xs[i]) == Ok(true)
    requires PyIn("metadata", xs[k]) != Ok(true)
    ensures PyIn("metadata", xs[k]).Ok? ==> AllHaveMetadata(xs[n..]) == Ok(false)
    ensures PyIn("metadata", xs[k]).Err? ==> AllHaveMetadata(xs[n..]) == Err(PyIn("metadata", xs[k]).error)
    decreases k - n
  {
    if n < k {
      assert xs[n..][1..] == xs[n + 1..];
      StopsAt(xs, n + 1, k);
    }
  }

  /** The three results standardisation can give. */
  lemma StandardizeShape(data: Json)
    requires Standardize(data).Ok?
    ensures var w := Standardize(data).value;
            w == data || w == Arr([Obj([("metadata", Arr([data]))])]) || w == Arr([Obj([("metadata", data)])])
  {
  }

  // ---------------------------------------------------------------------------
  // convert_keys_recursive (lines 75-111)

  /** The conversion dictionary: original key to its snake-case form. */
  type ConvDict = seq<(string, string)>

  /** The record stored for each renamed key. */
  function ConversionRecord(newKey: string): Json
  {
    Obj([("new_item", Str(newKey)), ("conversion_type", Str("CamelCase to snake_case"))])
  }

  /** The conversion dictionary as the document the script writes. */
  function ConversionDocument(cd: ConvDict): Json
  {
    Obj(seq(|cd|, i requires 0 <= i < |cd| => (cd[i].0, ConversionRecord(cd[i].1))))
  }

  /** Line 95: in the written document a recorded key holds its record, any other key nothing. */
  lemma {:induction false} ConversionDocumentGet(cd: ConvDict, k: string)
    ensures Get(ConversionDocument(cd).fields, k)
            == if Get(cd, k).Some? then Some(ConversionRecord(Get(cd, k).value)) else None
    decreases |cd|
  {
    if cd != [] {
      var n := |cd| - 1;
      assert ConversionDocument(cd).fields[..n] == ConversionDocument(cd[..n]).fields;
      ConversionDocumentGet(cd[..n], k);
    }
  }

  /**
   * `to_snake_case(v)` on a value that may be no string: `"OIMS" in v` raises TypeError on
   * a non-container; a list or dict holding "OIMS" fails at `.replace`; any other
   * container fails in `re.sub`.
   */
  function SnakeArg(v: Json): (r: Result<string, PyError>)
    ensures r.Ok? <==> v.Str?
    ensures v.Str? ==> r.value == ToSnakeCase(v.s)
  {
    match v
    case Str(s) => Ok(ToSnakeCase(s))
    case Arr(xs) =>
      if Str("OIMS") in xs then Err(AttributeError("'list' object has no attribute 'replace'"))
      else Err(TypeError("expected string or bytes-like object"))
    case Obj(fs) =>
      if "OIMS" in Keys(fs) then Err(AttributeError("'dict' object has no attribute 'replace'"))
      else Err(TypeError("expected string or bytes-like object"))
    case _ => Err(TypeError("argument of type '" + PyTypeName(v) + "' is not iterable"))
  }

  /** Line 103: every element snake-cased; so every element must be a string. */
  function SnakeAll(xs: seq<Json>): (r: Result<seq<Json>, PyError>)
    ensures r.Ok? ==> |r.value| == |xs|
                      && forall i :: 0 <= i < |xs| ==> xs[i].Str? && r.value[i] == Str(ToSnakeCase(xs[i].s))
    decreases |xs|
  {
    if xs == [] then Ok([])
    else match SnakeArg(xs[0])
      case Err(e) => Err(e)
      case Ok(t) =>
        match SnakeAll(xs[1..])
        case Err(e) => Err(e)
        case Ok(rest) =>
          assert forall i :: 1 <= i < |xs| ==> xs[i] == xs[1..][i - 1] && ([Str(t)] + rest)[i] == rest[i - 1];
          Ok([Str(t)] + rest)
  }

  /** Snake-casing a list of strings never raises. */
  lemma {:induction false} SnakeAllOfStrings(xs: seq<Json>)
    requires forall i :: 0 <= i < |xs| ==> xs[i].Str?
    ensures SnakeAll(xs).Ok?
    decreases |xs|
  {
    if xs != [] {
      SnakeAllOfStrings(xs[1..]);
    }
  }

  const OimsProperties: string := "OIMS_content_object_properties"

  /** Lines 97-106: the value as it is before the recursive call, by the new key. */
  function Prepare(newKey: string, v: Json): Result<Json, PyError>
  {
    if newKey == "attribute_name" then
      var t :- SnakeArg(v);
      Ok(Str(t))
    else if newKey == "attribute_value_elements" && v.Arr? then
      var ts :- SnakeAll(v.items);
      Ok(Arr(ts))
    else if newKey == OimsProperties then Standardize(v)
    else Ok(v)
  }

  /** A size that shrinks from a dict to the standardised value of any of its entries. */
  function Sum(xs: seq<nat>): nat
    decreases |xs|
  {
    if xs == [] then 0 else Sum(xs[..|xs| - 1]) + xs[|xs| - 1]
  }

  function Weight(k: string): nat
  {
    if ToSnakeCase(k) == OimsProperties then 5 else 1
  }

  function Size(j: Json): (n: nat)
    ensures n >= 1
  {
    match j
    case Arr(xs) => 1 + Sum(seq(|xs|, i requires 0 <= i < |xs| => Size(xs[i])))
    case Obj(fs) => 1 + Sum(seq(|fs|, i requires 0 <= i < |fs| => Weight(fs[i].0) + Size(fs[i].1)))
    case _ => 1
  }

  function ItemsSize(xs: seq<Json>): nat
  {
    Sum(seq(|xs|, i requires 0 <= i < |xs| => Size(xs[i])))
  }

  function FieldsSize(fs: Fields): nat
  {
    Sum(seq(|fs|, i requires 0 <= i < |fs| => Weight(fs[i].0) + Size(fs[i].1)))
  }

  lemma {:induction false} SumElem(xs: seq<nat>, i: nat)
    requires i < |xs|
    ensures xs[i] <= Sum(xs)
    decreases |xs|
  {
    if i < |xs| - 1 {
      assert xs[..|xs| - 1][i] == xs[i];
      SumElem(xs[..|xs| - 1], i);
    }
  }

  lemma {:induction false} SumBounds(xs: seq<nat>)
    ensures (forall i :: 0 <= i < |xs| ==> xs[i] >= 1) ==> Sum(xs) >= |xs|
    ensures (forall i :: 0 <= i < |xs| ==> xs[i] == 1) ==> Sum(xs) == |xs|
    decreases |xs|
  {
    if xs != [] {
      assert forall i :: 0 <= i < |xs| - 1 ==> xs[..|xs| - 1][i] == xs[i];
      SumBounds(xs[..|xs| - 1]);
    }
  }

  lemma ItemsSizeLast(xs: seq<Json>)
    requires xs != []
    ensures ItemsSize(xs) == ItemsSize(xs[..|xs| - 1]) + Size(xs[|xs| - 1])
  {
    var n := |xs| - 1;
    var ss := seq(|xs|, i requires 0 <= i < |xs| => Size(xs[i]));
    assert ss[..n] == seq(n, i requires 0 <= i < n => Size(xs[..n][i]));
  }

  lemma FieldsSizeLast(fs: Fields)
    requires fs != []
    ensures FieldsSize(fs) == FieldsSize(fs[..|fs| - 1]) + Weight(fs[|fs| - 1].0) + Size(fs[|fs| - 1].1)
  {
    var n := |fs| - 1;
    var ss := seq(|fs|, i requires 0 <= i < |fs| => Weight(fs[i].0) + Size(fs[i].1));
    assert ss[..n] == seq(n, i requires 0 <= i < n => Weight(fs[..n][i].0) + Size(fs[..n][i].1));
  }

  lemma ItemSizeBound(xs: seq<Json>, i: nat)
    requires i < |xs|
    ensures Size(xs[i]) <= ItemsSize(xs)
  {
    SumElem(seq(|xs|, j requires 0 <= j < |xs| => Size(xs[j])), i);
  }

  lemma FieldSizeBound(fs: Fields, i: nat)
    requires i < |fs|
    ensures Weight(fs[i].0) + Size(fs[i].1) <= FieldsSize(fs)
  {
    SumElem(seq(|fs|, j requires 0 <= j < |fs| => Weight(fs[j].0) + Size(fs[j].1)), i);
  }

  lemma SingletonSizes(v: Json)
    ensures Size(Arr([v])) == 1 + Size(v)
    ensures Size(Obj([("metadata", v)])) == 2 + Size(v)
  {
    MetadataIsSnake();
    assert Size(Arr([v])) == 1 + ItemsSize([v]);
    ItemsSizeLast([v]);
    assert [v][..0] == [];
    assert Size(Obj([("metadata", v)])) == 1 + FieldsSize([("metadata", v)]);
    FieldsSizeLast([("metadata", v)]);
    assert [("metadata", v)][..0] == [];
  }

  lemma StandardizeSize(v: Json)
    requires Standardize(v).Ok?
    ensures Size(Standardize(v).value) <= 4 + Size(v)
  {
    SingletonSizes(v);
    SingletonSizes(Arr([v]));
    SingletonSizes(Obj([("metadata", Arr([v]))]));
    SingletonSizes(Obj([("metadata", v)]));
    StandardizeShape(v);
  }

  lemma SnakeAllSize(xs: seq<Json>)
    requires SnakeAll(xs).Ok?
    ensures Size(Arr(SnakeAll(xs).value)) <= Size(Arr(xs))
  {
    var ts := SnakeAll(xs).value;
    ItemsSizeOfStrings(ts);
    ItemsSizeAtLeast(xs);
  }

  /** Every item has size at least one. */
  lemma ItemsSizeAtLeast(xs: seq<Json>)
    ensures ItemsSize(xs) >= |xs|
  {
    SumBounds(seq(|xs|, i requires 0 <= i < |xs| => Size(xs[i])));
  }

  /** A string has size one. */
  lemma ItemsSizeOfStrings(ts: seq<Json>)
    requires forall i :: 0 <= i < |ts| ==> ts[i].Str?
    ensures ItemsSize(ts) == |ts|
  {
    SumBounds(seq(|ts|, i requires 0 <= i < |ts| => Size(ts[i])));
  }

  /** What lines 97-106 leave for the recursive call is never much larger than the value. */
  lemma PrepareSize(k: string, v: Json)
    ensures Prepare(ToSnakeCase(k), v).Ok? ==> Size(Prepare(ToSnakeCase(k), v).value) <= Weight(k) + Size(v)
  {
    var nk := ToSnakeCase(k);
    if Prepare(nk, v).Ok? {
      if nk == "attribute_name" {
      } else if nk == "attribute_value_elements" && v.Arr? {
        SnakeAllSize(v.items);
      } else if nk == OimsProperties {
        StandardizeSize(v);
      }
    }
  }

  /** `convert_keys_recursive(data)`: the converted value and the conversion dictionary. */
  function Convert(data: Json): Result<(Json, ConvDict), PyError>
    decreases Size(data), 1
  {
    match data
    case Arr(xs) =>
      var r :- ConvertItems(xs);
      Ok((Arr(r.0), r.1))
    case Obj(fs) =>
      var r :- ConvertFields(fs);
      Ok((Obj(r.0), r.1))
    case _ => Ok((data, []))
  }

  /** Lines 83-88: the items converted in order, their dictionaries merged in order. */
  function ConvertItems(xs: seq<Json>): Result<(seq<Json>, ConvDict), PyError>
    decreases 1 + ItemsSize(xs), 0
  {
    if xs == [] then Ok(([], []))
    else
      ItemsSizeLast(xs);
      var init :- ConvertItems(xs[..|xs| - 1]);
      var last :- Convert(xs[|xs| - 1]);
      Ok((init.0 + [last.0], Update(init.1, last.1)))
  }

  /** Lines 97-108 for one entry: the value prepared by its new key, then converted. */
  function Entry(k: string, v: Json): Result<(Json, ConvDict), PyError>
    decreases Weight(k) + Size(v), 2
  {
    var prepared :- Prepare(ToSnakeCase(k), v);
    PrepareSize(k, v);
    Convert(prepared)
  }

  /**
   * The key "OIMS_content_object_properties" itself is renamed, so the standardisation of
   * lines 105-106 never applies to it: its value is converted as it is.
   */
  lemma OimsPropertiesNotStandardized(v: Json)
    ensures ToSnakeCase(OimsProperties) == "OIMScontent_object_properties"
    ensures Entry(OimsProperties, v) == Convert(v)
  {
    OimsPropertiesRenamed();
    RenamedPropertiesKept(v);
  }

  lemma RenamedPropertiesKept(v: Json)
    ensures Prepare("OIMScontent_object_properties", v) == Ok(v)
  {
    var nk := "OIMScontent_object_properties";
    assert nk[0] != "attribute_name"[0] && nk[0] != "attribute_value_elements"[0];
    assert nk[4] != OimsProperties[4];
  }

  /** Lines 91-110: entries in order; a renamed key is recorded, then its value's renamings. */
  function ConvertFields(fs: Fields): Result<(Fields, ConvDict), PyError>
    decreases 1 + FieldsSize(fs), 0
  {
    if fs == [] then Ok(([], []))
    else
      var n := |fs| - 1;
      FieldsSizeLast(fs);
      var init :- ConvertFields(fs[..n]);
      var sub :- Entry(fs[n].0, fs[n].1);
      Ok((Put(init.0, ToSnakeCase(fs[n].0), sub.0), Update(Recorded(init.1, fs[n].0), sub.1)))
  }

  /** Lines 94-95: a key that snake-casing changes is recorded under its new name. */
  function Recorded(cd: ConvDict, k: string): ConvDict
  {
    if ToSnakeCase(k) != k then Put(cd, k, ToSnakeCase(k)) else cd
  }

  /** One more list item: the prefix's result extended by the item's, or the item's error. */
  lemma ItemsStep(xs: seq<Json>, i: nat, init: (seq<Json>, ConvDict))
    requires i < |xs| && ConvertItems(xs[..i]) == Ok(init)
    ensures Convert(xs[i]).Err? ==> ConvertItems(xs[..i + 1]) == Err(Convert(xs[i]).error)
    ensures Convert(xs[i]).Ok? ==>
              ConvertItems(xs[..i + 1])
              == Ok((init.0 + [Convert(xs[i]).value.0], Update(init.1, Convert(xs[i]).value.1)))
  {
    assert xs[..i + 1][..i] == xs[..i];
  }

  /** One more dict entry: the prefix's result extended by the entry's, or the entry's error. */
  lemma FieldsStep(fs: Fields, i: nat, init: (Fields, ConvDict))
    requires i < |fs| && ConvertFields(fs[..i]) == Ok(init)
    ensures Entry(fs[i].0, fs[i].1).Err? ==> ConvertFields(fs[..i + 1]) == Err(Entry(fs[i].0, fs[i].1).error)
    ensures Entry(fs[i].0, fs[i].1).Ok? ==>
              ConvertFields(fs[..i + 1])
              == Ok((Put(init.0, ToSnakeCase(fs[i].0), Entry(fs[i].0, fs[i].1).value.0),
                     Update(Recorded(init.1, fs[i].0), Entry(fs[i].0, fs[i].1).value.1)))
  {
    assert fs[..i + 1][..i] == fs[..i];
  }

  /** The first item that raises ends the loop with its error. */
  lemma {:induction false} ConvertItemsAbort(xs: seq<Json>, n: nat)
    requires n <= |xs|
    ensures ConvertItems(xs[..n]).Err? ==> ConvertItems(xs) == ConvertItems(xs[..n])
    decreases |xs| - n
  {
    if n < |xs| {
      assert xs[..n + 1][..n] == xs[..n];
      ConvertItemsAbort(xs, n + 1);
    } else {
      assert xs[..n] == xs;
    }
  }

  /** The first entry that raises ends the loop with its error. */
  lemma {:induction false} ConvertFieldsAbort(fs: Fields, n: nat)
    requires n <= |fs|
    ensures ConvertFields(fs[..n]).Err? ==> ConvertFields(fs) == ConvertFields(fs[..n])
    decreases |fs| - n
  {
    if n < |fs| {
      assert fs[..n + 1][..n] == fs[..n];
      ConvertFieldsAbort(fs, n + 1);
    } else {
      assert fs[..n] == fs;
    }
  }

  /** `convert_keys_recursive`: lists and dicts are rebuilt by their loops, anything else returned as it is. */
  method ConvertKeys(data: Json) returns (r: Result<(Json, ConvDict), PyError>)
    ensures r == Convert(data)
    decreases Size(data), 1
  {
    match data
    case Arr(xs) =>
      var items := ConvertList(xs);
      if items.Err? {
        return Err(items.error);
      }
      return Ok((Arr(items.value.0), items.value.1));
    case Obj(fs) =>
      var entries := ConvertDict(fs);
      if entries.Err? {
        return Err(entries.error);
      }
      return Ok((Obj(entries.value.0), entries.value.1));
    case _ =>
      return Ok((data, []));
  }

  /** Lines 83-88: the loop over a list. */
  method ConvertList(xs: seq<Json>) returns (r: Result<(seq<Json>, ConvDict), PyError>)
    ensures r == ConvertItems(xs)
    decreases 1 + ItemsSize(xs), 0
  {
    var newList: seq<Json> := [];
    var conversion: ConvDict := [];
    var i := 0;
    while i < |xs|
      invariant 0 <= i <= |xs|
      invariant ConvertItems(xs[..i]) == Ok((newList, conversion))
    {
      ItemSizeBound(xs, i);
      var item := ConvertKeys(xs[i]);
      ItemsStep(xs, i, (newList, conversion));
      if item.Err? {
        ConvertItemsAbort(xs, i + 1);
        return Err(item.error);
      }
      newList := newList + [item.value.0];
      conversion := Update(conversion, item.value.1);
      i := i + 1;
    }
    assert xs[..i] == xs;
    return Ok((newList, conversion));
  }

  /** Lines 91-109: the loop over a dict's entries. */
  method ConvertDict(fs: Fields) returns (r: Result<(Fields, ConvDict), PyError>)
    ensures r == ConvertFields(fs)
    decreases 1 + FieldsSize(fs), 0
  {
    var newData: Fields := [];
    var conversion: ConvDict := [];
    var i := 0;
    while i < |fs|
      invariant 0 <= i <= |fs|
      invariant ConvertFields(fs[..i]) == Ok((newData, conversion))
    {
      var (k, v) := fs[i];
      FieldsStep(fs, i, (newData, conversion));
      var newKey := ToSnakeCase(k);
      if newKey != k {
        conversion := Put(conversion, k, newKey);
      }
      var prepared := Prepare(newKey, v);
      if prepared.Err? {
        ConvertFieldsAbort(fs, i + 1);
        return Err(prepared.error);
      }
      PrepareSize(k, v);
      FieldSizeBound(fs, i);
      var sub := ConvertKeys(prepared.value);
      if sub.Err? {
        ConvertFieldsAbort(fs, i + 1);
        return Err(sub.error);
      }
      newData := Put(newData, newKey, sub.value.0);
      conversion := Update(conversion, sub.value.1);
      i := i + 1;
    }
    assert fs[..i] == fs;
    return Ok((newData, conversion));
  }

  // ---------------------------------------------------------------------------
  // What the conversion does

  function Concat<T>(ss: seq<seq<T>>): seq<T>
    decreases |ss|
  {
    if ss == [] then [] else Concat(ss[..|ss| - 1]) + ss[|ss| - 1]
  }

  lemma ConcatStep<T>(ss: seq<seq<T>>, i: nat)
    requires i < |ss|
    ensures Concat(ss[..i + 1]) == Concat(ss[..i]) + ss[i]
  {
    assert ss[..i + 1][..i] == ss[..i];
  }

  lemma {:induction false} ConcatEmpty<T>(ss: seq<seq<T>>)
    requires forall i :: 0 <= i < |ss| ==> ss[i] == []
    ensures Concat(ss) == []
    decreases |ss|
  {
    if ss != [] {
      ConcatEmpty(ss[..|ss| - 1]);
    }
  }

  /** Every dict key of the document, at any depth, in document order. */
  function KeyOccurrences(j: Json): seq<string>
  {
    match j
    case Arr(xs) => Concat(seq(|xs|, i requires 0 <= i < |xs| => KeyOccurrences(xs[i])))
    case Obj(fs) => Concat(seq(|fs|, i requires 0 <= i < |fs| => [fs[i].0] + KeyOccurrences(fs[i].1)))
    case _ => []
  }

  lemma KeyOccurrencesItemsLast(xs: seq<Json>)
    requires xs != []
    ensures KeyOccurrences(Arr(xs)) == KeyOccurrences(Arr(xs[..|xs| - 1])) + KeyOccurrences(xs[|xs| - 1])
  {
    var n := |xs| - 1;
    var ss := seq(|xs|, i requires 0 <= i < |xs| => KeyOccurrences(xs[i]));
    assert ss[..n] == seq(n, i requires 0 <= i < n => KeyOccurrences(xs[..n][i]));
  }

  lemma KeyOccurrencesFieldsLast(fs: Fields)
    requires fs != []
    ensures KeyOccurrences(Obj(fs))
            == KeyOccurrences(Obj(fs[..|fs| - 1])) + [fs[|fs| - 1].0] + KeyOccurrences(fs[|fs| - 1].1)
  {
    var n := |fs| - 1;
    var ss := seq(|fs|, i requires 0 <= i < |fs| => [fs[i].0] + KeyOccurrences(fs[i].1));
    assert ss[..n] == seq(n, i requires 0 <= i < n => [fs[..n][i].0] + KeyOccurrences(fs[..n][i].1));
  }

  lemma StringsHaveNoKeys(xs: seq<Json>)
    requires forall i :: 0 <= i < |xs| ==> xs[i].Str?
    ensures KeyOccurrences(Arr(xs)) == []
  {
    ConcatEmpty(seq(|xs|, i requires 0 <= i < |xs| => KeyOccurrences(xs[i])));
  }

  lemma SingletonKeys(v: Json)
    ensures KeyOccurrences(Arr([v])) == KeyOccurrences(v)
    ensures KeyOccurrences(Obj([("metadata", v)])) == ["metadata"] + KeyOccurrences(v)
  {
    KeyOccurrencesItemsLast([v]);
    assert [v][..0] == [];
    KeyOccurrencesFieldsLast([("metadata", v)]);
    assert [("metadata", v)][..0] == [];
  }

  /** Every recorded pair maps a key to its snake-case form, which differs from it. */
  predicate ConvSound(cd: ConvDict)
  {
    forall i :: 0 <= i < |cd| ==> cd[i].1 == ToSnakeCase(cd[i].0) && cd[i].1 != cd[i].0
  }

  /** `cd` records exactly the keys of `keys` that snake-casing changes. */
  ghost predicate Records(cd: ConvDict, keys: seq<string>)
  {
    ConvSound(cd) && forall k :: k in Keys(cd) <==> (k in keys && ToSnakeCase(k) != k)
  }

  lemma PutSound(m: ConvDict, k: string)
    requires ConvSound(m) && ToSnakeCase(k) != k
    ensures ConvSound(Put(m, k, ToSnakeCase(k)))
    ensures forall k' :: k' in Keys(Put(m, k, ToSnakeCase(k))) <==> k' in Keys(m) || k' == k
  {
    PutKeys(m, k, ToSnakeCase(k));
    if k in Keys(m) {
      forall i | 0 <= i < |m| ensures m[i].0 == k ==> m[i].1 == ToSnakeCase(k) {
      }
    }
  }

  lemma {:induction false} UpdateSound(a: ConvDict, b: ConvDict)
    requires ConvSound(a) && ConvSound(b)
    ensures ConvSound(Update(a, b))
    decreases |b|
  {
    if b != [] {
      var n := |b| - 1;
      assert ConvSound(b[..n]) by {
        forall i | 0 <= i < n ensures b[..n][i] == b[i] {
        }
      }
      UpdateSound(a, b[..n]);
      PutSound(Update(a, b[..n]), b[n].0);
    }
  }

  /** Lines 97-106 neither add nor remove a key that snake-casing changes. */
  lemma PrepareKeys(newKey: string, v: Json)
    requires Prepare(newKey, v).Ok?
    ensures forall key :: (key in KeyOccurrences(Prepare(newKey, v).value) && ToSnakeCase(key) != key)
                          <==> (key in KeyOccurrences(v) && ToSnakeCase(key) != key)
  {
    var w := Prepare(newKey, v).value;
    if newKey == "attribute_name" {
    } else if newKey == "attribute_value_elements" && v.Arr? {
      StringsHaveNoKeys(v.items);
      StringsHaveNoKeys(w.items);
    } else if newKey == OimsProperties {
      MetadataIsSnake();
      StandardizeShape(v);
      SingletonKeys(v);
      SingletonKeys(Arr([v]));
      SingletonKeys(Obj([("metadata", Arr([v]))]));
      SingletonKeys(Obj([("metadata", v)]));
    }
  }

  /**
   * The conversion dictionary holds exactly the keys of the document, at any depth, whose
   * snake-case form differs, each mapped to that form.
   */
  lemma {:induction false} ConvertRecords(data: Json)
    ensures Convert(data).Ok? ==> Records(Convert(data).value.1, KeyOccurrences(data))
    decreases Size(data), 1
  {
    match data
    case Arr(xs) =>
      assert Size(data) == 1 + ItemsSize(xs);
      ItemsRecords(xs);
    case Obj(fs) =>
      assert Size(data) == 1 + FieldsSize(fs);
      FieldsRecords(fs);
    case _ =>
  }

  lemma {:induction false} ItemsRecords(xs: seq<Json>)
    ensures ConvertItems(xs).Ok? ==> Records(ConvertItems(xs).value.1, KeyOccurrences(Arr(xs)))
    decreases 1 + ItemsSize(xs), 0
  {
    if xs != [] && ConvertItems(xs).Ok? {
      var n := |xs| - 1;
      ItemsSizeLast(xs);
      ItemsRecords(xs[..n]);
      ConvertRecords(xs[n]);
      UpdateSound(ConvertItems(xs[..n]).value.1, Convert(xs[n]).value.1);
      UpdateKeys(ConvertItems(xs[..n]).value.1, Convert(xs[n]).value.1);
      KeyOccurrencesItemsLast(xs);
    }
  }

  lemma {:induction false} EntryRecords(k: string, v: Json)
    ensures Entry(k, v).Ok? ==> Records(Entry(k, v).value.1, KeyOccurrences(v))
    decreases Weight(k) + Size(v), 2
  {
    if Entry(k, v).Ok? {
      PrepareSize(k, v);
      ConvertRecords(Prepare(ToSnakeCase(k), v).value);
      PrepareKeys(ToSnakeCase(k), v);
    }
  }

  lemma {:induction false} FieldsRecords(fs: Fields)
    ensures ConvertFields(fs).Ok? ==> Records(ConvertFields(fs).value.1, KeyOccurrences(Obj(fs)))
    decreases 1 + FieldsSize(fs), 0
  {
    if fs != [] && ConvertFields(fs).Ok? {
      var n := |fs| - 1;
      var k := fs[n].0;
      FieldsSizeLast(fs);
      FieldsRecords(fs[..n]);
      EntryRecords(k, fs[n].1);
      var init := ConvertFields(fs[..n]).value.1;
      var recorded := Recorded(init, k);
      if ToSnakeCase(k) != k {
        PutSound(init, k);
      }
      UpdateSound(recorded, Entry(k, fs[n].1).value.1);
      UpdateKeys(recorded, Entry(k, fs[n].1).value.1);
      KeyOccurrencesFieldsLast(fs);
    }
  }

  /** The dictionary maps each recorded key to its snake-case form. */
  lemma RecordedForm(cd: ConvDict, keys: seq<string>, k: string)
    requires Records(cd, keys) && k in keys && ToSnakeCase(k) != k
    ensures Get(cd, k) == Some(ToSnakeCase(k))
  {
    GetFound(cd, k);
  }

  /** The converted value of one entry; None where the entry raises. */
  function EntryValue(k: string, v: Json): Json
  {
    match Entry(k, v)
    case Ok(r) => r.0
    case Err(_) => Null
  }

  lemma {:induction false} ItemsShape(xs: seq<Json>)
    requires ConvertItems(xs).Ok?
    ensures |ConvertItems(xs).value.0| == |xs|
    ensures forall i :: 0 <= i < |xs| ==> Convert(xs[i]).Ok? && ConvertItems(xs).value.0[i] == Convert(xs[i]).value.0
    decreases |xs|
  {
    if xs != [] {
      var n := |xs| - 1;
      ConvertItemsAbort(xs, n);
      ItemsShape(xs[..n]);
      ItemsStep(xs, n, ConvertItems(xs[..n]).value);
      assert xs[..n + 1] == xs;
      forall i | 0 <= i < n ensures xs[..n][i] == xs[i] {
      }
    }
  }

  function ConvertedPairs(fs: Fields): Fields
  {
    seq(|fs|, i requires 0 <= i < |fs| => (ToSnakeCase(fs[i].0), EntryValue(fs[i].0, fs[i].1)))
  }

  /** A dict converts only when every entry does. */
  lemma {:induction false} FieldsEntriesOk(fs: Fields, n: nat)
    requires n <= |fs| && ConvertFields(fs[..n]).Ok?
    ensures forall i :: 0 <= i < n ==> Entry(fs[i].0, fs[i].1).Ok?
  {
    if n > 0 {
      var m := n - 1;
      ConvertFieldsAbort(fs[..n], m);
      assert fs[..n][..m] == fs[..m];
      FieldsEntriesOk(fs, m);
      FieldsStep(fs, m, ConvertFields(fs[..m]).value);
      forall i | 0 <= i < n ensures Entry(fs[i].0, fs[i].1).Ok? {
        if i == m {
          assert fs[i] == fs[m];
        }
      }
    }
  }

  lemma {:induction false} FieldsShapePrefix(fs: Fields, n: nat)
    requires n <= |fs| && ConvertFields(fs[..n]).Ok?
    ensures ConvertFields(fs[..n]).value.0 == FromPairs(ConvertedPairs(fs[..n]))
  {
    if n > 0 {
      var m := n - 1;
      ConvertFieldsAbort(fs[..n], m);
      assert fs[..n][..m] == fs[..m];
      FieldsShapePrefix(fs, m);
      var init := ConvertFields(fs[..m]).value;
      FieldsStep(fs, m, init);
      var e := Entry(fs[m].0, fs[m].1);
      assert e.Ok?;
      assert ConvertFields(fs[..n]).value.0 == Put(init.0, ToSnakeCase(fs[m].0), e.value.0);
      var ps := ConvertedPairs(fs[..n]);
      assert ps[..m] == ConvertedPairs(fs[..m]);
      assert ps[m] == (ToSnakeCase(fs[m].0), e.value.0);
      assert FromPairs(ps) == Put(FromPairs(ps[..m]), ps[m].0, ps[m].1);
    }
  }

  lemma FieldsShape(fs: Fields)
    requires ConvertFields(fs).Ok?
    ensures forall i :: 0 <= i < |fs| ==> Entry(fs[i].0, fs[i].1).Ok?
    ensures ConvertFields(fs).value.0 == FromPairs(ConvertedPairs(fs))
  {
    assert fs[..|fs|] == fs;
    FieldsEntriesOk(fs, |fs|);
    FieldsShapePrefix(fs, |fs|);
  }

  /**
   * Conversion keeps the shape of the document: scalars are returned as they are with an
   * empty dictionary, lists keep their length and order, and a dict is rebuilt entry by
   * entry under the snake-case keys (a later entry whose key collides overwrites an earlier
   * one in its place).
   */
  lemma ConvertShape(data: Json)
    requires Convert(data).Ok?
    ensures var r := Convert(data).value.0;
            (!data.Arr? && !data.Obj? ==> r == data && Convert(data).value.1 == [])
            && (data.Arr? ==>
                  r.Arr? && |r.items| == |data.items|
                  && forall i :: 0 <= i < |data.items| ==>
                       Convert(data.items[i]).Ok? && r.items[i] == Convert(data.items[i]).value.0)
            && (data.Obj? ==>
                  r.Obj? && r.fields == FromPairs(ConvertedPairs(data.fields))
                  && (forall i :: 0 <= i < |data.fields| ==> Entry(data.fields[i].0, data.fields[i].1).Ok?)
                  && forall k :: k in Keys(r.fields) <==> k in Keys(ConvertedPairs(data.fields)))
  {
    if data.Arr? {
      ItemsShape(data.items);
    } else if data.Obj? {
      FieldsShape(data.fields);
      forall k ensures k in Keys(FromPairs(ConvertedPairs(data.fields))) <==> k in Keys(ConvertedPairs(data.fields)) {
        FromPairsGet(ConvertedPairs(data.fields), k);
      }
    }
  }

  /** The keys of a converted dict are the snake-case forms of the original keys. */
  lemma ConvertedKeys(fs: Fields, k: string)
    ensures k in Keys(ConvertedPairs(fs)) <==> exists i :: 0 <= i < |fs| && ToSnakeCase(fs[i].0) == k
  {
    var ps := ConvertedPairs(fs);
    if k in Keys(ps) {
      var i :| 0 <= i < |ps| && Keys(ps)[i] == k;
      assert ToSnakeCase(fs[i].0) == k;
    }
    if exists i :: 0 <= i < |fs| && ToSnakeCase(fs[i].0) == k {
      var i :| 0 <= i < |fs| && ToSnakeCase(fs[i].0) == k;
      assert Keys(ps)[i] == k;
    }
  }

  /** Line 99: the value of an attribute_name key is snake-cased; it must be a string. */
  lemma EntryAttributeName(k: string, v: Json)
    requires ToSnakeCase(k) == "attribute_name"
    ensures v.Str? ==> Entry(k, v) == Ok((Str(ToSnakeCase(v.s)), []))
    ensures !v.Str? ==> Entry(k, v).Err?
  {
  }

  /** A list of strings holds no dict: converting it changes nothing and records nothing. */
  lemma {:induction false} StringItemsPrefix(xs: seq<Json>, n: nat)
    requires n <= |xs| && forall i :: 0 <= i < |xs| ==> xs[i].Str?
    ensures ConvertItems(xs[..n]) == Ok((xs[..n], []))
  {
    if n == 0 {
      assert xs[..0] == [];
    } else {
      StringItemsPrefix(xs, n - 1);
      ItemsStep(xs, n - 1, (xs[..n - 1], []));
      assert Convert(xs[n - 1]) == Ok((xs[n - 1], []));
      assert Update<string, string>([], []) == [];
      assert xs[..n - 1] + [xs[n - 1]] == xs[..n];
    }
  }

  lemma StringItemsConvert(xs: seq<Json>)
    requires forall i :: 0 <= i < |xs| ==> xs[i].Str?
    ensures ConvertItems(xs) == Ok((xs, []))
  {
    StringItemsPrefix(xs, |xs|);
    assert xs[..|xs|] == xs;
  }

  /** Line 103: a list under attribute_value_elements is snake-cased element by element. */
  lemma EntryValueElements(k: string, ss: seq<string>)
    requires ToSnakeCase(k) == "attribute_value_elements"
    ensures Entry(k, Arr(Strs(ss))) == Ok((Arr(Strs(seq(|ss|, i requires 0 <= i < |ss| => ToSnakeCase(ss[i])))), []))
  {
    var v := Arr(Strs(ss));
    SnakeAllOfStrings(v.items);
    var ts := SnakeAll(v.items).value;
    assert ts == Strs(seq(|ss|, i requires 0 <= i < |ss| => ToSnakeCase(ss[i])));
    assert Prepare(ToSnakeCase(k), v) == Ok(Arr(ts));
    StringItemsConvert(ts);
    assert Convert(Arr(ts)) == Ok((Arr(ts), []));
  }
}
