/**
 * The spreadsheet-to-OIMS converter (convert_approach_ii_EXCEL_to_OIMS.py): rows with a
 * dotted parent path, an optional property and a value are folded into a nested dict,
 * nulls are pruned, and the header and content trees are wrapped into one document.
 */
module ExcelToOims {
  import opened Wrappers
  import opened OrderedMaps
  import opened JsonValues
  import opened Text

  /**
   * One spreadsheet row; None stands for an empty (NaN) cell, and for `compound_object` and
   * `multiple`, which lines 73-74 read with `.get`, also for a missing column.
   */
  datatype Row = Row(
    parentProperty: Option<string>,
    property: Option<string>,
    value: Option<Json>,
    compoundObject: Option<Json>,
    multiple: Option<Json>)

  /** `pd.notnull(cell)`. */
  predicate NotNull(cell: Option<Json>)
  {
    cell.Some? && cell.value != Null
  }

  // ---------------------------------------------------------------------------
  // get_nested_dict

  /** The value a compound row stores: `[value] if value else []`. */
  function CompoundWrap(value: Json, compound: bool): Json
  {
    if !compound then value else if Truthy(value) then Arr([value]) else Arr([])
  }

  /** `get_nested_dict(keys, value, compound)`; the recursive call passes compound=False. */
  function NestedDict(keys: seq<string>, value: Json, compound: bool): (r: Json)
    ensures keys != [] ==> r.Obj? && Keys(r.fields) == [keys[0]]
    decreases |keys|
  {
    var returnValue := CompoundWrap(value, compound);
    if keys != [] then Obj([(keys[0], NestedDict(keys[1..], returnValue, false))])
    else returnValue
  }

  /** The value sits at the end of the key path, wrapped once if compound. */
  lemma {:induction false} NestedDictLookup(keys: seq<string>, value: Json, compound: bool)
    ensures Lookup(NestedDict(keys, value, compound), keys) == Some(CompoundWrap(value, compound))
    ensures keys == [] ==> NestedDict(keys, value, compound) == CompoundWrap(value, compound)
    decreases |keys|
  {
    if keys != [] {
      NestedDictLookup(keys[1..], CompoundWrap(value, compound), false);
    }
  }

  /** Every level above the value is a dict with exactly one key, the next path segment. */
  lemma {:induction false} NestedDictDepth(keys: seq<string>, value: Json, compound: bool, n: nat)
    requires n < |keys|
    ensures var sub := Lookup(NestedDict(keys, value, compound), keys[..n]);
            sub.Some? && sub.value.Obj? && Keys(sub.value.fields) == [keys[n]]
    decreases n
  {
    if n > 0 {
      NestedDictDepth(keys[1..], CompoundWrap(value, compound), false, n - 1);
      assert keys[..n][1..] == keys[1..][..n - 1];
    }
  }

  // ---------------------------------------------------------------------------
  // excel_sheet_to_dict

  /** Line 72: the dotted parent path, split on '.', or no keys for an empty cell. */
  function RowPath(row: Row): seq<string>
  {
    if row.parentProperty.Some? then Split(row.parentProperty.value, '.') else []
  }

  /** Line 73: compound only when the cell holds the string 'TRUE'. */
  predicate IsCompound(row: Row)
  {
    row.compoundObject == Some(Str("TRUE"))
  }

  /** Lines 74-80: the value of a row, split on '|' when `multiple` is 'local'. */
  function RowValue(row: Row): Result<Json, PyError>
  {
    if row.multiple == Some(Str("local")) && NotNull(row.value) then
      match row.value.value
      case Str(s) => Ok(Arr(Strs(Split(s, '|'))))
      case other => Err(AttributeError("'" + PyTypeName(other) + "' object has no attribute 'split'"))
    else if NotNull(row.value) then Ok(row.value.value)
    else Ok(Null)
  }

  /** Line 92: the property, else the last path segment, else nothing. */
  function PropertyKey(row: Row, keys: seq<string>): Option<string>
  {
    if row.property.Some? then row.property
    else if keys != [] then Some(keys[|keys| - 1])
    else None
  }

  function ConflictMessage(key: string, found: Json): string
  {
    "Conflict at key '" + key + "'. Expected a dictionary but found " + PyTypeName(found) + "."
  }

  function AssignMessage(key: string): string
  {
    "Cannot assign a value to key '" + key + "' because it is already a dictionary."
  }

  /** What a compound row adds to its list: the pieces of a split value, else the value or {}. */
  function Appended(value: Json): seq<Json>
  {
    if value.Arr? then value.items else [if Truthy(value) then value else Obj([])]
  }

  /** Lines 94-106, in the dict `d` that the cursor reached. */
  function Assign(d: Fields, keys: seq<string>, pk: Option<string>, value: Json, compound: bool)
    : Result<Fields, PyError>
  {
    if compound && pk.None? then
      var nk := if keys != [] then keys[|keys| - 1] else "items";
      var current := if nk in Keys(d) then Get(d, nk).value else Arr([]);
      if !current.Arr? then
        Err(AttributeError("'" + PyTypeName(current) + "' object has no attribute '"
                           + (if value.Arr? then "extend" else "append") + "'"))
      else
        Ok(Put(d, nk, Arr(current.items + Appended(value))))
    else if pk.Some? && pk.value != "" then
      var k := pk.value;
      if k in Keys(d) && Get(d, k).value.Obj? then Err(ValueError(AssignMessage(k)))
      else Ok(Put(d, k, value))
    else
      Ok(d)
  }

  /** Lines 83-106: walk `path` down from `d`, creating `{}` for missing keys, then assign. */
  function Walk(d: Fields, path: seq<string>, keys: seq<string>, pk: Option<string>, value: Json, compound: bool)
    : Result<Fields, PyError>
    decreases |path|
  {
    if path == [] then Assign(d, keys, pk, value, compound)
    else
      var k := path[0];
      if k !in Keys(d) then
        var sub :- Walk([], path[1..], keys, pk, value, compound);
        Ok(Put(d, k, Obj(sub)))
      else
        var here := Get(d, k).value;
        if !here.Obj? then Err(ValueError(ConflictMessage(k, here)))
        else
          var sub :- Walk(here.fields, path[1..], keys, pk, value, compound);
          Ok(Put(d, k, Obj(sub)))
  }

  /** One iteration of the loop at line 70. */
  function ApplyRow(data: Fields, row: Row): Result<Fields, PyError>
  {
    var keys := RowPath(row);
    var value :- RowValue(row);
    Walk(data, keys, keys, PropertyKey(row, keys), value, IsCompound(row))
  }

  /** The rows folded in order; the first exception aborts the whole sheet. */
  function SheetFields(rows: seq<Row>): Result<Fields, PyError>
    decreases |rows|
  {
    if rows == [] then Ok([])
    else
      var data :- SheetFields(rows[..|rows| - 1]);
      ApplyRow(data, rows[|rows| - 1])
  }

  function SheetToDict(rows: seq<Row>): Result<Json, PyError>
  {
    var fields :- SheetFields(rows);
    Ok(Obj(fields))
  }

  lemma {:induction false} SheetFieldsAbort(rows: seq<Row>, n: nat, e: PyError)
    requires n <= |rows| && SheetFields(rows[..n]) == Err(e)
    ensures SheetFields(rows) == Err(e)
    decreases |rows| - n
  {
    if n < |rows| {
      assert rows[..n + 1][..n] == rows[..n];
      SheetFieldsAbort(rows, n + 1, e);
    } else {
      assert rows[..n] == rows;
    }
  }

  /** `excel_sheet_to_dict`: the loop over the rows, building the tree row by row. */
  method ExcelSheetToDict(rows: seq<Row>) returns (r: Result<Json, PyError>)
    ensures r == SheetToDict(rows)
  {
    var data: Fields := [];
    var i := 0;
    while i < |rows|
      invariant 0 <= i <= |rows|
      invariant SheetFields(rows[..i]) == Ok(data)
    {
      assert rows[..i + 1][..i] == rows[..i];
      var step := ApplyRow(data, rows[i]);
      if step.Err? {
        SheetFieldsAbort(rows, i + 1, step.error);
        return Err(step.error);
      }
      data := step.value;
      i := i + 1;
    }
    assert rows[..i] == rows;
    r := Ok(Obj(data));
  }

  // ---------------------------------------------------------------------------
  // remove_none_values

  /** A dict entry survives when its value is not None and does not clean to {}. */
  function KeepFields(es: seq<(string, Json, Json)>): Fields
  {
    if es == [] then []
    else (if es[0].1 != Null && es[0].2 != Obj([]) then [(es[0].0, es[0].2)] else []) + KeepFields(es[1..])
  }

  /** A list element survives when it is not None and does not clean to []. */
  function KeepItems(es: seq<(Json, Json)>): seq<Json>
  {
    if es == [] then []
    else (if es[0].0 != Null && es[0].1 != Arr([]) then [es[0].1] else []) + KeepItems(es[1..])
  }

  /** `remove_none_values`: each entry carries its original and its cleaned value. */
  function Prune(j: Json): Json
  {
    match j
    case Obj(fs) => Obj(KeepFields(seq(|fs|, i requires 0 <= i < |fs| => (fs[i].0, fs[i].1, Prune(fs[i].1)))))
    case Arr(xs) => Arr(KeepItems(seq(|xs|, i requires 0 <= i < |xs| => (xs[i], Prune(xs[i])))))
    case _ => j
  }

  /** No None below the top: neither as a dict value nor as a list element. */
  predicate NoNulls(j: Json)
  {
    match j
    case Obj(fs) => forall i :: 0 <= i < |fs| ==> fs[i].1 != Null && NoNulls(fs[i].1)
    case Arr(xs) => forall i :: 0 <= i < |xs| ==> xs[i] != Null && NoNulls(xs[i])
    case _ => true
  }

  /** What the cleaner leaves: no None, no {} as a dict value, no [] as a list element. */
  predicate Clean(j: Json)
  {
    match j
    case Obj(fs) => forall i :: 0 <= i < |fs| ==> fs[i].1 != Null && fs[i].1 != Obj([]) && Clean(fs[i].1)
    case Arr(xs) => forall i :: 0 <= i < |xs| ==> xs[i] != Null && xs[i] != Arr([]) && Clean(xs[i])
    case _ => true
  }

  lemma {:induction false} KeepFieldsClean(es: seq<(string, Json, Json)>)
    requires forall i :: 0 <= i < |es| && es[i].1 != Null ==> es[i].2 != Null && Clean(es[i].2)
    ensures Clean(Obj(KeepFields(es)))
  {
    if es != [] {
      KeepFieldsClean(es[1..]);
      var head := if es[0].1 != Null && es[0].2 != Obj([]) then [(es[0].0, es[0].2)] else [];
      assert KeepFields(es) == head + KeepFields(es[1..]);
    }
  }

  lemma {:induction false} KeepItemsClean(es: seq<(Json, Json)>)
    requires forall i :: 0 <= i < |es| && es[i].0 != Null ==> es[i].1 != Null && Clean(es[i].1)
    ensures Clean(Arr(KeepItems(es)))
  {
    if es != [] {
      KeepItemsClean(es[1..]);
      var head := if es[0].0 != Null && es[0].1 != Arr([]) then [es[0].1] else [];
      assert KeepItems(es) == head + KeepItems(es[1..]);
    }
  }

  lemma {:induction false} KeepFieldsAll(es: seq<(string, Json, Json)>)
    requires forall i :: 0 <= i < |es| ==> es[i].1 != Null && es[i].1 != Obj([]) && es[i].2 == es[i].1
    ensures KeepFields(es) == seq(|es|, i requires 0 <= i < |es| => (es[i].0, es[i].1))
  {
    if es != [] {
      KeepFieldsAll(es[1..]);
    }
  }

  lemma {:induction false} KeepItemsAll(es: seq<(Json, Json)>)
    requires forall i :: 0 <= i < |es| ==> es[i].0 != Null && es[i].0 != Arr([]) && es[i].1 == es[i].0
    ensures KeepItems(es) == seq(|es|, i requires 0 <= i < |es| => es[i].0)
  {
    if es != [] {
      KeepItemsAll(es[1..]);
    }
  }

  /** The cleaner never turns a non-None value into None. */
  lemma PruneKeepsKind(j: Json)
    ensures Prune(j) == Null <==> j == Null
  {
  }

  /** Whatever the cleaner returns is clean. */
  lemma {:induction false} PruneIsClean(j: Json)
    ensures Clean(Prune(j))
  {
    match j
    case Obj(fs) =>
      var es := seq(|fs|, i requires 0 <= i < |fs| => (fs[i].0, fs[i].1, Prune(fs[i].1)));
      forall i | 0 <= i < |fs| ensures Clean(Prune(fs[i].1)) {
        PruneIsClean(fs[i].1);
      }
      KeepFieldsClean(es);
    case Arr(xs) =>
      var es := seq(|xs|, i requires 0 <= i < |xs| => (xs[i], Prune(xs[i])));
      forall i | 0 <= i < |xs| ensures Clean(Prune(xs[i])) {
        PruneIsClean(xs[i]);
      }
      KeepItemsClean(es);
    case _ =>
  }

  /** The cleaner leaves a clean value as it is. */
  lemma {:induction false} PruneOfClean(j: Json)
    requires Clean(j)
    ensures Prune(j) == j
  {
    match j
    case Obj(fs) =>
      var es := seq(|fs|, i requires 0 <= i < |fs| => (fs[i].0, fs[i].1, Prune(fs[i].1)));
      forall i | 0 <= i < |fs| ensures Prune(fs[i].1) == fs[i].1 {
        PruneOfClean(fs[i].1);
      }
      KeepFieldsAll(es);
    case Arr(xs) =>
      var es := seq(|xs|, i requires 0 <= i < |xs| => (xs[i], Prune(xs[i])));
      forall i | 0 <= i < |xs| ensures Prune(xs[i]) == xs[i] {
        PruneOfClean(xs[i]);
      }
      KeepItemsAll(es);
    case _ =>
  }

  lemma {:induction false} CleanHasNoNulls(j: Json)
    requires Clean(j)
    ensures NoNulls(j)
  {
    match j
    case Obj(fs) =>
      forall i | 0 <= i < |fs| ensures NoNulls(fs[i].1) {
        CleanHasNoNulls(fs[i].1);
      }
    case Arr(xs) =>
      forall i | 0 <= i < |xs| ensures NoNulls(xs[i]) {
        CleanHasNoNulls(xs[i]);
      }
    case _ =>
  }

  /** After cleaning, no dict value and no list element is None, at any depth. */
  lemma PruneRemovesNulls(j: Json)
    ensures NoNulls(Prune(j))
  {
    PruneIsClean(j);
    CleanHasNoNulls(Prune(j));
  }

  /** Cleaning twice is cleaning once. */
  lemma PruneIdempotent(j: Json)
    ensures Prune(Prune(j)) == Prune(j)
  {
    PruneIsClean(j);
    PruneOfClean(Prune(j));
  }

  /** A one-entry dict keeps its entry exactly when the value is not None and does not clean to {}. */
  lemma PruneSingleField(k: string, v: Json)
    ensures Prune(Obj([(k, v)])) == if v != Null && Prune(v) != Obj([]) then Obj([(k, Prune(v))]) else Obj([])
  {
    var fs := [(k, v)];
    var es := seq(|fs|, i requires 0 <= i < |fs| => (fs[i].0, fs[i].1, Prune(fs[i].1)));
    assert es == [(k, v, Prune(v))];
    assert KeepFields(es) == (if v != Null && Prune(v) != Obj([]) then [(k, Prune(v))] else []) + KeepFields([]);
  }

  /** A one-element list keeps its element exactly when it is not None and does not clean to []. */
  lemma PruneSingleItem(v: Json)
    ensures Prune(Arr([v])) == if v != Null && Prune(v) != Arr([]) then Arr([Prune(v)]) else Arr([])
  {
    var xs := [v];
    var es := seq(|xs|, i requires 0 <= i < |xs| => (xs[i], Prune(xs[i])));
    assert es == [(v, Prune(v))];
    assert KeepItems(es) == (if v != Null && Prune(v) != Arr([]) then [Prune(v)] else []) + KeepItems([]);
  }

  /**
   * Empty containers are treated asymmetrically: a dict drops a value that cleans to {}
   * but keeps one that is [], a list drops an element that cleans to [] but keeps {}.
   */
  lemma PruneEmptyContainers(k: string)
    ensures Prune(Obj([(k, Obj([]))])) == Obj([])
    ensures Prune(Obj([(k, Arr([]))])) == Obj([(k, Arr([]))])
    ensures Prune(Arr([Arr([])])) == Arr([])
    ensures Prune(Arr([Obj([])])) == Arr([Obj([])])
    ensures Prune(Obj([(k, Obj([("x", Null)]))])) == Obj([])
  {
    assert Prune(Obj([])) == Obj([]) by { assert KeepFields([]) == []; }
    assert Prune(Arr([])) == Arr([]) by { assert KeepItems([]) == []; }
    PruneSingleField(k, Obj([]));
    PruneSingleField(k, Arr([]));
    PruneSingleItem(Arr([]));
    PruneSingleItem(Obj([]));
    PruneSingleField("x", Null);
    PruneSingleField(k, Obj([("x", Null)]));
  }

  /** Scalars come back unchanged. */
  lemma PruneScalar(j: Json)
    requires !j.Obj? && !j.Arr?
    ensures Prune(j) == j
  {
  }

  // ---------------------------------------------------------------------------
  // The cursor walk of excel_sheet_to_dict

  /** The dict the cursor of lines 83-89 stops at: a missing key is a fresh {}; None on a conflict. */
  function Reach(d: Fields, path: seq<string>): Option<Fields>
    decreases |path|
  {
    if path == [] then Some(d)
    else if path[0] !in Keys(d) then Reach([], path[1..])
    else
      var here := Get(d, path[0]).value;
      if here.Obj? then Reach(here.fields, path[1..]) else None
  }

  /**
   * The walk fails with the conflict ValueError exactly when some key on the path holds a
   * non-dict; otherwise it does what the assignment does in the dict it reaches, and the
   * updated dict is found under the path.
   */
  lemma {:induction false} WalkReach(d: Fields, path: seq<string>, keys: seq<string>, pk: Option<string>,
                                     value: Json, compound: bool)
    ensures var r := Walk(d, path, keys, pk, value, compound);
            Reach(d, path).None? ==> r.Err? && r.error.ValueError?
    ensures var r := Walk(d, path, keys, pk, value, compound);
            Reach(d, path).Some? ==>
              var a := Assign(Reach(d, path).value, keys, pk, value, compound);
              (r.Ok? <==> a.Ok?) && (r.Err? ==> r.error == a.error)
              && (r.Ok? ==> Lookup(Obj(r.value), path) == Some(Obj(a.value)))
    decreases |path|
  {
    if path != [] {
      var k := path[0];
      if k !in Keys(d) || Get(d, k).value.Obj? {
        var sub := if k !in Keys(d) then [] else Get(d, k).value.fields;
        WalkReach(sub, path[1..], keys, pk, value, compound);
        var w := Walk(sub, path[1..], keys, pk, value, compound);
        if w.Ok? {
          PutGet(d, k, Obj(w.value), k);
        }
      }
    }
  }

  /** The first step of a successful walk: the key's dict, updated by the rest of the walk. */
  lemma WalkStep(d: Fields, path: seq<string>, keys: seq<string>, pk: Option<string>, value: Json, compound: bool)
    requires path != [] && Walk(d, path, keys, pk, value, compound).Ok?
    ensures var k := path[0];
            var sub := if k !in Keys(d) then [] else Get(d, k).value.fields;
            (k in Keys(d) ==> Get(d, k).value.Obj?)
            && Walk(sub, path[1..], keys, pk, value, compound).Ok?
            && Walk(d, path, keys, pk, value, compound).value
               == Put(d, k, Obj(Walk(sub, path[1..], keys, pk, value, compound).value))
  {
  }

  /** Away from the path, the walk changes nothing, however deep one looks. */
  lemma {:induction false} WalkFrame(d: Fields, path: seq<string>, keys: seq<string>, pk: Option<string>,
                                     value: Json, compound: bool, q: seq<string>, n: nat)
    requires n < |path| && n < |q| && q[..n] == path[..n] && q[n] != path[n]
    requires Walk(d, path, keys, pk, value, compound).Ok?
    ensures Lookup(Obj(Walk(d, path, keys, pk, value, compound).value), q) == Lookup(Obj(d), q)
    decreases n
  {
    var k := path[0];
    WalkStep(d, path, keys, pk, value, compound);
    var sub := if k !in Keys(d) then [] else Get(d, k).value.fields;
    var w := Walk(sub, path[1..], keys, pk, value, compound).value;
    var d' := Put(d, k, Obj(w));
    PutGet(d, k, Obj(w), q[0]);
    assert Member(Obj(d'), q[0]) == Get(d', q[0]);
    if n > 0 {
      assert q[0] == k by { assert q[..n][0] == path[..n][0]; }
      assert q[1..][..n - 1] == path[1..][..n - 1] by {
        assert q[1..][..n - 1] == q[..n][1..];
        assert path[1..][..n - 1] == path[..n][1..];
      }
      WalkFrame(sub, path[1..], keys, pk, value, compound, q[1..], n - 1);
      assert Lookup(Obj(d'), q) == Lookup(Obj(w), q[1..]);
      if k in Keys(d) {
        assert Lookup(Obj(d), q) == Lookup(Obj(sub), q[1..]);
      } else {
        assert Lookup(Obj(d), q) == None;
        assert Member(Obj(sub), q[1..][0]) == None;
      }
    }
  }

  /** At the top level, only the first key of the path can change, and a new one is added last. */
  lemma WalkTopFrame(d: Fields, path: seq<string>, keys: seq<string>, pk: Option<string>,
                     value: Json, compound: bool, k': string)
    requires path != [] && k' != path[0]
    requires Walk(d, path, keys, pk, value, compound).Ok?
    ensures Get(Walk(d, path, keys, pk, value, compound).value, k') == Get(d, k')
    ensures Keys(Walk(d, path, keys, pk, value, compound).value)
            == if path[0] in Keys(d) then Keys(d) else Keys(d) + [path[0]]
  {
    var k := path[0];
    var sub := if k !in Keys(d) then [] else Get(d, k).value.fields;
    var w := Walk(sub, path[1..], keys, pk, value, compound);
    PutGet(d, k, Obj(w.value), k');
    PutKeys(d, k, Obj(w.value));
  }

  /**
   * Lines 103-106: with a property key, the value is stored under it (the compound flag plays
   * no part), unless a dict is already there; every other key keeps its value.
   */
  lemma AssignProperty(d: Fields, keys: seq<string>, k: string, value: Json, compound: bool)
    requires k != ""
    ensures Assign(d, keys, Some(k), value, compound) == Assign(d, keys, Some(k), value, false)
    ensures var r := Assign(d, keys, Some(k), value, compound);
            (r.Ok? <==> !(k in Keys(d) && Get(d, k).value.Obj?))
            && (r.Err? ==> r.error == ValueError(AssignMessage(k)))
            && (r.Ok? ==> Get(r.value, k) == Some(value)
                          && forall k' :: k' != k ==> Get(r.value, k') == Get(d, k'))
  {
    if !(k in Keys(d) && Get(d, k).value.Obj?) {
      forall k' | k' != k ensures Get(Put(d, k, value), k') == Get(d, k') {
        PutGet(d, k, value, k');
      }
      PutGet(d, k, value, k);
    }
  }

  /** An empty property key (line 103 tests truthiness) and a plain row without one store nothing. */
  lemma AssignNothing(d: Fields, keys: seq<string>, pk: Option<string>, value: Json, compound: bool)
    requires pk == Some("") || (pk.None? && !compound)
    ensures Assign(d, keys, pk, value, compound) == Ok(d)
  {
  }

  /**
   * Lines 95-102: a compound row without a property key extends (for a split value) or appends
   * to the list under its nested key, starting from []; anything else there raises.
   */
  lemma AssignCompound(d: Fields, keys: seq<string>, value: Json)
    ensures var nk := if keys != [] then keys[|keys| - 1] else "items";
            var r := Assign(d, keys, None, value, true);
            var before := if nk in Keys(d) then Get(d, nk).value else Arr([]);
            (r.Ok? <==> before.Arr?)
            && (r.Err? ==> r.error.AttributeError?)
            && (r.Ok? ==> Get(r.value, nk) == Some(Arr(before.items + Appended(value)))
                          && forall k' :: k' != nk ==> Get(r.value, k') == Get(d, k'))
  {
    var nk := if keys != [] then keys[|keys| - 1] else "items";
    var before := if nk in Keys(d) then Get(d, nk).value else Arr([]);
    if before.Arr? {
      var v := Arr(before.items + Appended(value));
      forall k' | k' != nk ensures Get(Put(d, nk, v), k') == Get(d, k') {
        PutGet(d, nk, v, k');
      }
      PutGet(d, nk, v, nk);
    }
  }

  /**
   * A row has no property key only when both its property and its parent cells are empty, so
   * the nested key of a compound row is always 'items' (line 96's `keys[-1]` is never taken).
   */
  lemma PropertyKeyNone(row: Row)
    ensures PropertyKey(row, RowPath(row)).None? <==> row.property.None? && row.parentProperty.None?
    ensures PropertyKey(row, RowPath(row)).None? ==> RowPath(row) == []
  {
  }

  /** A 'local' row's cell is split on '|' into strings that join back to the cell. */
  lemma RowValueLocal(row: Row, s: string)
    requires row.multiple == Some(Str("local")) && row.value == Some(Str(s))
    ensures RowValue(row).Ok? && RowValue(row).value.Arr?
    ensures var xs := RowValue(row).value.items;
            |xs| == multiset(s)['|'] + 1
            && exists parts :: xs == Strs(parts) && Join(parts, '|') == s
  {
    JoinSplit(s, '|');
    SplitPieces(s, '|');
    assert RowValue(row).value.items == Strs(Split(s, '|'));
  }

  /**
   * A row with parent "a.b", no property and value x stores x under the last path segment
   * inside the dict reached by the path: {a: {b: {b: x}}}.
   */
  lemma ScenarioNestedParent(a: string, b: string, x: string)
    requires '.' !in a && '.' !in b && b != ""
    ensures SheetToDict([Row(Some(a + "." + b), None, Some(Str(x)), None, None)])
            == Ok(Obj([(a, Obj([(b, Obj([(b, Str(x))]))]))]))
  {
    var row := Row(Some(a + "." + b), None, Some(Str(x)), None, None);
    var rows := [row];
    SplitAtSeparator(a, b, '.');
    SplitNoSeparator(b, '.');
    var keys := [a, b];
    assert RowPath(row) == keys;
    assert PropertyKey(row, keys) == Some(b);
    assert RowValue(row) == Ok(Str(x));
    assert keys[1..] == [b];
    assert [b][1..] == [];
    var inner := Put([], b, Str(x));
    assert inner == [(b, Str(x))];
    assert Walk([], [], keys, Some(b), Str(x), false) == Ok(inner);
    var mid := Put([], b, Obj(inner));
    assert mid == [(b, Obj(inner))];
    assert Walk([], [b], keys, Some(b), Str(x), false) == Ok(mid);
    var top := Put([], a, Obj(mid));
    assert top == [(a, Obj(mid))];
    assert Walk([], keys, keys, Some(b), Str(x), false) == Ok(top);
    assert rows[..0] == [];
    assert SheetFields(rows) == ApplyRow([], row);
  }

  /** Compound rows without parent or property collect their values in a list under 'items', {} for an empty cell. */
  lemma ScenarioCompoundItems(x: string)
    requires x != ""
    ensures SheetToDict([Row(None, None, Some(Str(x)), Some(Str("TRUE")), None),
                         Row(None, None, None, Some(Str("TRUE")), None)])
            == Ok(Obj([("items", Arr([Str(x), Obj([])]))]))
  {
    var r0 := Row(None, None, Some(Str(x)), Some(Str("TRUE")), None);
    var r1 := Row(None, None, None, Some(Str("TRUE")), None);
    var rows := [r0, r1];
    assert IsCompound(r0) && IsCompound(r1);
    var d1 := Put([], "items", Arr([Str(x)]));
    assert d1 == [("items", Arr([Str(x)]))];
    assert Keys<string, Json>([]) == [];
    assert Appended(Str(x)) == [Str(x)];
    assert Arr([]).items + [Str(x)] == [Str(x)];
    assert Assign([], [], None, Str(x), true) == Ok(d1);
    assert ApplyRow([], r0) == Ok(d1);
    assert Keys(d1) == ["items"];
    assert Get(d1, "items") == Some(Arr([Str(x)]));
    var d2 := Put(d1, "items", Arr([Str(x), Obj([])]));
    assert d2 == [("items", Arr([Str(x), Obj([])]))];
    assert Appended(Null) == [Obj([])];
    assert [Str(x)] + [Obj([])] == [Str(x), Obj([])];
    assert Assign(d1, [], None, Null, true) == Ok(d2);
    assert ApplyRow(d1, r1) == Ok(d2);
    assert rows[..1] == [r0];
    assert rows[..1][..0] == [];
    assert SheetFields(rows[..1]) == Ok(d1);
  }

  // ---------------------------------------------------------------------------
  // excel_to_json

  /** `data.get(key1, {}).get(key2, data)`: AttributeError when the inner value is no dict. */
  function SafeExtract(data: Json, key1: string, key2: string): Result<Json, PyError>
  {
    var outer :- GetOr(data, key1, Obj([]));
    GetOr(outer, key2, data)
  }

  /** Lines 143-148: the combined document; a dict content is wrapped in a list. */
  function Combine(header: Json, content: Json): Json
  {
    Obj([("OIMS", Obj([("OIMS_header", header),
                       ("OIMS_content", if content.Obj? then Arr([content]) else content)]))])
  }

  /** Lines 121-148 without the file I/O: both sheets built, cleaned, extracted and combined. */
  function ExcelToJson(headerRows: seq<Row>, contentRows: seq<Row>): Result<Json, PyError>
  {
    var header :- SheetToDict(headerRows);
    var content :- SheetToDict(contentRows);
    var finalHeader :- SafeExtract(Prune(header), "OIMS", "OIMS_header");
    var finalContent :- SafeExtract(Prune(content), "OIMS", "OIMS_content");
    Ok(Combine(finalHeader, finalContent))
  }

  lemma CleanMember(fs: Fields, k: string)
    requires Clean(Obj(fs)) && k in Keys(fs)
    ensures Get(fs, k).value != Null && Clean(Get(fs, k).value)
  {
    GetFound(fs, k);
  }

  /** Extracting from a cleaned dict gives a clean value that is not None. */
  lemma SafeExtractClean(data: Json, key1: string, key2: string)
    requires data.Obj? && Clean(data)
    requires SafeExtract(data, key1, key2).Ok?
    ensures SafeExtract(data, key1, key2).value != Null && Clean(SafeExtract(data, key1, key2).value)
  {
    if key1 in Keys(data.fields) {
      CleanMember(data.fields, key1);
      var outer := Get(data.fields, key1).value;
      if key2 in Keys(outer.fields) {
        CleanMember(outer.fields, key2);
      }
    }
  }

  /** The header and the content sit under "OIMS"; the content is never a bare dict. */
  lemma CombineShape(header: Json, content: Json)
    requires header != Null && NoNulls(header) && content != Null && NoNulls(content)
    ensures var doc := Combine(header, content);
            Lookup(doc, ["OIMS", "OIMS_header"]) == Some(header)
            && Lookup(doc, ["OIMS", "OIMS_content"]) == Some(if content.Obj? then Arr([content]) else content)
            && NoNulls(doc)
  {
    var c := if content.Obj? then Arr([content]) else content;
    var inner := [("OIMS_header", header), ("OIMS_content", c)];
    assert Keys(inner) == ["OIMS_header", "OIMS_content"];
    assert inner[..1] == [("OIMS_header", header)];
    assert Get(inner, "OIMS_header") == Some(header);
    assert Get(inner, "OIMS_content") == Some(c);
    assert Get([("OIMS", Obj(inner))], "OIMS") == Some(Obj(inner));
    assert ["OIMS", "OIMS_content"][1..] == ["OIMS_content"];
    assert ["OIMS", "OIMS_header"][1..] == ["OIMS_header"];
  }

  /** No None survives anywhere in the combined document. */
  lemma ExcelToJsonNoNulls(headerRows: seq<Row>, contentRows: seq<Row>)
    requires ExcelToJson(headerRows, contentRows).Ok?
    ensures NoNulls(ExcelToJson(headerRows, contentRows).value)
    ensures !Lookup(ExcelToJson(headerRows, contentRows).value, ["OIMS", "OIMS_content"]).value.Obj?
  {
    var header := SheetToDict(headerRows).value;
    var content := SheetToDict(contentRows).value;
    PruneIsClean(header);
    PruneIsClean(content);
    SafeExtractClean(Prune(header), "OIMS", "OIMS_header");
    SafeExtractClean(Prune(content), "OIMS", "OIMS_content");
    var h := SafeExtract(Prune(header), "OIMS", "OIMS_header").value;
    var c := SafeExtract(Prune(content), "OIMS", "OIMS_content").value;
    CleanHasNoNulls(h);
    CleanHasNoNulls(c);
    CombineShape(h, c);
  }

  /** Without an "OIMS" key, the whole cleaned sheet is used: the content becomes a one-element list. */
  lemma ExcelToJsonWithoutOims(headerRows: seq<Row>, contentRows: seq<Row>)
    requires SheetToDict(headerRows).Ok? && SheetToDict(contentRows).Ok?
    requires "OIMS" !in Keys(Prune(SheetToDict(headerRows).value).fields)
    requires "OIMS" !in Keys(Prune(SheetToDict(contentRows).value).fields)
    ensures ExcelToJson(headerRows, contentRows)
            == Ok(Combine(Prune(SheetToDict(headerRows).value), Prune(SheetToDict(contentRows).value)))
  {
  }
}
