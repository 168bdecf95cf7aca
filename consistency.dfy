/**
 * `check_consistency` of OIMS_snake_case_converter.py: one message for every dict key of a
 * document that the conversion dictionary would rename.
 */
module Consistency {
  import opened Wrappers
  import opened OrderedMaps
  import opened JsonValues
  import opened KeyConversion

  // ---------------------------------------------------------------------------
  // check_consistency (lines 113-134)

  /** Line 130: the report line for a key the dictionary renames. */
  function Message(key: string, newKey: string): string
  {
    "Inconsistency: " + key + " should be " + newKey
  }

  /** Lines 127-130: the message for one key, when the dictionary renames it. */
  function KeyMessages(key: string, cd: ConvDict): seq<string>
  {
    match Get(cd, key)
    case Some(newKey) => if newKey != key then [Message(key, newKey)] else []
    case None => []
  }

  function Inconsistencies(data: Json, cd: ConvDict): seq<string>
  {
    match data
    case Arr(xs) => Concat(seq(|xs|, i requires 0 <= i < |xs| => Inconsistencies(xs[i], cd)))
    case Obj(fs) => Concat(seq(|fs|, i requires 0 <= i < |fs| => KeyMessages(fs[i].0, cd) + Inconsistencies(fs[i].1, cd)))
    case _ => []
  }

  /** `check_consistency`: lists and dicts are walked by their loops; anything else has no keys. */
  method CheckConsistency(data: Json, cd: ConvDict) returns (msgs: seq<string>)
    ensures msgs == Inconsistencies(data, cd)
    decreases data, 1
  {
    if data.Arr? {
      msgs := CheckList(data, cd);
    } else if data.Obj? {
      msgs := CheckDict(data, cd);
    } else {
      msgs := [];
    }
  }

  /** Lines 122-124: the loop over a list. */
  method CheckList(data: Json, cd: ConvDict) returns (msgs: seq<string>)
    requires data.Arr?
    ensures msgs == Inconsistencies(data, cd)
    decreases data, 0
  {
    var xs := data.items;
    ghost var blocks := seq(|xs|, j requires 0 <= j < |xs| => Inconsistencies(xs[j], cd));
    msgs := [];
    var i := 0;
    while i < |xs|
      invariant 0 <= i <= |xs|
      invariant msgs == Concat(blocks[..i])
    {
      var sub := CheckConsistency(xs[i], cd);
      ConcatStep(blocks, i);
      msgs := msgs + sub;
      i := i + 1;
    }
    assert blocks[..i] == blocks;
  }

  /** Lines 126-133: the loop over a dict's entries. */
  method CheckDict(data: Json, cd: ConvDict) returns (msgs: seq<string>)
    requires data.Obj?
    ensures msgs == Inconsistencies(data, cd)
    decreases data, 0
  {
    var fs := data.fields;
    ghost var blocks := seq(|fs|, j requires 0 <= j < |fs| => KeyMessages(fs[j].0, cd) + Inconsistencies(fs[j].1, cd));
    msgs := [];
    var i := 0;
    while i < |fs|
      invariant 0 <= i <= |fs|
      invariant msgs == Concat(blocks[..i])
    {
      var sub := CheckEntry(fs[i].0, fs[i].1, cd);
      ConcatStep(blocks, i);
      msgs := msgs + sub;
      i := i + 1;
    }
    assert blocks[..i] == blocks;
  }

  /** Lines 127-133 for one entry: the key's own message, then those of its value. */
  method CheckEntry(key: string, value: Json, cd: ConvDict) returns (msgs: seq<string>)
    ensures msgs == KeyMessages(key, cd) + Inconsistencies(value, cd)
    decreases value, 2
  {
    msgs := [];
    var found := Get(cd, key);
    if found.Some? && found.value != key {
      msgs := msgs + [Message(key, found.value)];
    }
    var sub := CheckConsistency(value, cd);
    msgs := msgs + sub;
  }

  /** The messages for a sequence of keys, in order. */
  function Messages(keys: seq<string>, cd: ConvDict): seq<string>
    decreases |keys|
  {
    if keys == [] then [] else Messages(keys[..|keys| - 1], cd) + KeyMessages(keys[|keys| - 1], cd)
  }

  lemma {:induction false} MessagesAppend(a: seq<string>, b: seq<string>, cd: ConvDict)
    ensures Messages(a + b, cd) == Messages(a, cd) + Messages(b, cd)
    decreases |b|
  {
    if b == [] {
      assert a + b == a;
    } else {
      var n := |b| - 1;
      assert (a + b)[..|a + b| - 1] == a + b[..n];
      MessagesAppend(a, b[..n], cd);
    }
  }

  lemma {:induction false} MessagesConcat(kss: seq<seq<string>>, cd: ConvDict)
    ensures Messages(Concat(kss), cd) == Concat(seq(|kss|, i requires 0 <= i < |kss| => Messages(kss[i], cd)))
    decreases |kss|
  {
    if kss != [] {
      var n := |kss| - 1;
      MessagesConcat(kss[..n], cd);
      MessagesAppend(Concat(kss[..n]), kss[n], cd);
      var ms := seq(|kss|, i requires 0 <= i < |kss| => Messages(kss[i], cd));
      assert ms[..n] == seq(n, i requires 0 <= i < n => Messages(kss[..n][i], cd));
    }
  }

  /**
   * One message per dict key occurrence, at any depth and in document order, that the
   * dictionary maps to a different name; nothing else.
   */
  lemma {:induction false} InconsistenciesByKeys(data: Json, cd: ConvDict)
    ensures Inconsistencies(data, cd) == Messages(KeyOccurrences(data), cd)
    decreases data, 0
  {
    match data
    case Arr(xs) =>
      var kss := seq(|xs|, i requires 0 <= i < |xs| => KeyOccurrences(xs[i]));
      var blocks := seq(|xs|, i requires 0 <= i < |xs| => Inconsistencies(xs[i], cd));
      forall i | 0 <= i < |xs| ensures blocks[i] == Messages(kss[i], cd) {
        InconsistenciesByKeys(xs[i], cd);
      }
      MessagesOfBlocks(kss, blocks, cd);
    case Obj(fs) =>
      var kss := seq(|fs|, i requires 0 <= i < |fs| => [fs[i].0] + KeyOccurrences(fs[i].1));
      var blocks := seq(|fs|, i requires 0 <= i < |fs| => KeyMessages(fs[i].0, cd) + Inconsistencies(fs[i].1, cd));
      forall i | 0 <= i < |fs| ensures blocks[i] == Messages(kss[i], cd) {
        EntryByKeys(fs[i].0, fs[i].1, cd);
      }
      MessagesOfBlocks(kss, blocks, cd);
    case _ =>
  }

  /** Blocks that are the messages of groups of keys concatenate to the messages of all the keys. */
  lemma MessagesOfBlocks(kss: seq<seq<string>>, blocks: seq<seq<string>>, cd: ConvDict)
    requires |blocks| == |kss| && forall i :: 0 <= i < |kss| ==> blocks[i] == Messages(kss[i], cd)
    ensures Concat(blocks) == Messages(Concat(kss), cd)
  {
    MessagesConcat(kss, cd);
    assert blocks == seq(|kss|, i requires 0 <= i < |kss| => Messages(kss[i], cd));
  }

  lemma {:induction false} EntryByKeys(key: string, value: Json, cd: ConvDict)
    ensures KeyMessages(key, cd) + Inconsistencies(value, cd) == Messages([key] + KeyOccurrences(value), cd)
    decreases value, 1
  {
    InconsistenciesByKeys(value, cd);
    MessagesAppend([key], KeyOccurrences(value), cd);
    assert Messages([key], cd) == KeyMessages(key, cd) by {
      assert [key][..0] == [];
    }
  }
}
