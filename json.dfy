/**
 * JSON documents as the Python scripts see them after `json.load` (or as pandas
 * cells): None, bool, int, float, str, list and insertion-ordered dict.
 */
module JsonValues {
  import opened Wrappers
  import opened OrderedMaps

  /** Floats are opaque: only whether a float is zero (and so falsy) is kept. */
  datatype Json =
    | Null
    | Bool(b: bool)
    | Int(i: int)
    | Float(isZero: bool)
    | Str(s: string)
    | Arr(items: seq<Json>)
    | Obj(fields: seq<(string, Json)>)

  type Fields = seq<(string, Json)>

  /** The Python exceptions the modelled code can raise. */
  datatype PyError =
    | KeyError(key: string)
    | TypeError(reason: string)
    | AttributeError(reason: string)
    | IndexError
    | ValueError(reason: string)
    | PatternError(reason: string)  // `re.error`: a regular expression that does not compile

  /** Python truthiness: None, False, 0, 0.0, "", [] and {} are false. */
  predicate Truthy(j: Json)
  {
    match j
    case Null => false
    case Bool(b) => b
    case Int(i) => i != 0
    case Float(z) => !z
    case Str(s) => s != ""
    case Arr(xs) => xs != []
    case Obj(fs) => fs != []
  }

  /** `type(j).__name__`. */
  function PyTypeName(j: Json): string
  {
    match j
    case Null => "NoneType"
    case Bool(_) => "bool"
    case Int(_) => "int"
    case Float(_) => "float"
    case Str(_) => "str"
    case Arr(_) => "list"
    case Obj(_) => "dict"
  }

  /** `j.get(k)` on a dict, None when the key is absent; None also when `j` is no dict. */
  function Member(j: Json, k: string): Option<Json>
  {
    if j.Obj? then Get(j.fields, k) else None
  }

  /** `j.get(k, default)`: AttributeError when `j` is no dict. */
  function GetOr(j: Json, k: string, default: Json): Result<Json, PyError>
  {
    if !j.Obj? then Err(AttributeError("'" + PyTypeName(j) + "' object has no attribute 'get'"))
    else match Get(j.fields, k)
      case Some(v) => Ok(v)
      case None => Ok(default)
  }

  /** `j[k]` on a dict: KeyError when absent, TypeError when `j` is no dict. */
  function Subscript(j: Json, k: string): Result<Json, PyError>
  {
    if !j.Obj? then Err(TypeError("'" + PyTypeName(j) + "' object is not subscriptable by a string"))
    else match Get(j.fields, k)
      case Some(v) => Ok(v)
      case None => Err(KeyError(k))
  }

  /** The elements a `for` loop visits: list items, dict keys, or the characters of a string. */
  function Iterate(j: Json): Result<seq<Json>, PyError>
  {
    match j
    case Arr(xs) => Ok(xs)
    case Obj(fs) => Ok(seq(|fs|, i requires 0 <= i < |fs| => Str(fs[i].0)))
    case Str(s) => Ok(seq(|s|, i requires 0 <= i < |s| => Str([s[i]])))
    case _ => Err(TypeError("'" + PyTypeName(j) + "' object is not iterable"))
  }

  function Strs(ss: seq<string>): seq<Json>
  {
    seq(|ss|, i requires 0 <= i < |ss| => Str(ss[i]))
  }

  /** Follows a path of dict keys from `j`. */
  function Lookup(j: Json, path: seq<string>): Option<Json>
    decreases |path|
  {
    if path == [] then Some(j)
    else match Member(j, path[0])
      case Some(v) => Lookup(v, path[1..])
      case None => None
  }

  /** The decimal digit character for `d`. */
  function DigitChar(d: nat): (c: char)
    requires d < 10
    ensures '0' <= c <= '9' && c as int - '0' as int == d
  {
    ('0' as int + d) as char
  }

  /** The decimal digits of `n`, most significant first, with no leading zero. */
  function DigitsOf(n: nat): string
    decreases n
  {
    if n < 10 then [DigitChar(n)] else DigitsOf(n / 10) + [DigitChar(n % 10)]
  }

  /**
   * `str(j)` as an f-string renders it: None, True/False, decimal integers and strings as
   * Python writes them; floats, lists and dicts by their type name only.
   */
  function PyStr(j: Json): string
  {
    match j
    case Null => "None"
    case Bool(b) => if b then "True" else "False"
    case Int(i) => if i < 0 then "-" + DigitsOf(-i) else DigitsOf(i)
    case Str(s) => s
    case _ => "<" + PyTypeName(j) + ">"
  }

  /** `str(i)` of a negative integer: a minus sign before the digits of its magnitude. */
  lemma PyStrOfNegative(i: int)
    requires i < 0
    ensures PyStr(Int(i)) == "-" + DigitsOf(-i)
  {
  }

  /** `j.get(k)` on a value known to be a dict: None when absent. */
  function MemberOrNull(j: Json, k: string): Json
  {
    match Member(j, k)
    case Some(v) => v
    case None => Null
  }
}
