/**
 * The key normaliser of OIMS_snake_case_converter.py, lines 41-55: `to_snake_case`
 * rewrites a key in two regular-expression passes, lowercases it and keeps "OIMS" in
 * capitals.
 */
module SnakeCase {
  import opened Text

  // ---------------------------------------------------------------------------
  // to_snake_case (lines 41-55)

  /** Length of the run of lowercase letters `[a-z]+` would consume greedily. */
  function LowerRun(s: string): (n: nat)
    ensures n <= |s| && (forall i :: 0 <= i < n ==> IsLower(s[i])) && (n < |s| ==> !IsLower(s[n]))
    decreases |s|
  {
    if s != [] && IsLower(s[0]) then 1 + LowerRun(s[1..]) else 0
  }

  /** `(.)([A-Z][a-z]+)` matches at the start of `s` (`.` excludes a newline). */
  predicate WordStartsAt(s: string)
  {
    |s| >= 3 && s[0] != '\n' && IsUpper(s[1]) && IsLower(s[2])
  }

  /** Line 48: `re.sub('(.)([A-Z][a-z]+)', r'\1_\2', s)`, scanning left to right without overlaps. */
  function SplitBeforeWords(s: string): string
    decreases |s|
  {
    if s == [] then []
    else if WordStartsAt(s) then
      var n := 2 + LowerRun(s[2..]);
      [s[0]] + "_" + s[1..n] + SplitBeforeWords(s[n..])
    else [s[0]] + SplitBeforeWords(s[1..])
  }

  predicate IsLowerOrDigit(c: char) { IsLower(c) || IsDigit(c) }

  /** Line 49: `re.sub('([a-z0-9])([A-Z])', r'\1_\2', s)`. */
  function SplitAfterLower(s: string): string
    decreases |s|
  {
    if |s| >= 2 && IsLowerOrDigit(s[0]) && IsUpper(s[1]) then [s[0], '_', s[1]] + SplitAfterLower(s[2..])
    else if s == [] then []
    else [s[0]] + SplitAfterLower(s[1..])
  }

  /** Lines 45-50: "OIMS" isolated by underscores, the words split, lowercased, "__" collapsed. */
  function Collapsed(s: string): string
  {
    var isolated := if Contains(s, "OIMS") then ReplaceAll(s, "OIMS", "_OIMS_") else s;
    var lowered := Lower(SplitAfterLower(SplitBeforeWords(isolated)));
    ReplaceAll(lowered, "__", "_")
  }

  /** `to_snake_case(s)`: lines 52-53 turn each "_oims_" back into "OIMS". */
  function ToSnakeCase(s: string): string
  {
    var single := Collapsed(s);
    if Contains(single, "_oims_") then ReplaceAll(single, "_oims_", "OIMS") else single
  }

  /**
   * `s` is made of pieces each of which is "OIMS" or a single character that is not an
   * uppercase letter.
   */
  predicate OimsCovered(s: string)
    decreases |s|
  {
    s == [] || (StartsWith(s, "OIMS") && OimsCovered(s[4..])) || (!IsUpper(s[0]) && OimsCovered(s[1..]))
  }

  /** `p` occurs in `s` at position `i`. */
  predicate OccursAt(s: string, p: string, i: int)
  {
    0 <= i && i + |p| <= |s| && s[i..i + |p|] == p
  }

  /** A pattern occurring at no position is not `in` the string. */
  lemma {:induction false} NotContains(s: string, p: string)
    requires forall i :: !OccursAt(s, p, i)
    ensures !Contains(s, p)
    decreases |s|
  {
    assert !OccursAt(s, p, 0);
    if s != [] {
      forall i ensures !OccursAt(s[1..], p, i) {
        if 0 <= i && i + |p| <= |s[1..]| {
          assert s[1..][i..i + |p|] == s[i + 1..i + 1 + |p|];
          assert !OccursAt(s, p, i + 1);
        }
      }
      NotContains(s[1..], p);
    }
  }

  /** A pattern whose first character is absent does not occur. */
  lemma ContainsFirst(s: string, p: string)
    requires p != [] && p[0] !in s
    ensures !Contains(s, p)
  {
    forall i ensures !OccursAt(s, p, i) {
      if 0 <= i && i + |p| <= |s| {
        assert s[i..i + |p|][0] == s[i];
      }
    }
    NotContains(s, p);
  }

  lemma {:induction false} SplitBeforeWordsPlain(s: string)
    requires NoUpper(s)
    ensures SplitBeforeWords(s) == s
    decreases |s|
  {
    if s != [] {
      SplitBeforeWordsPlain(s[1..]);
    }
  }

  /** Without a lowercase letter or digit followed by an uppercase letter, line 49 changes nothing. */
  lemma {:induction false} SplitAfterLowerPlain(s: string)
    requires forall i :: 0 <= i < |s| - 1 ==> !(IsLowerOrDigit(s[i]) && IsUpper(s[i + 1]))
    ensures SplitAfterLower(s) == s
    decreases |s|
  {
    if s != [] {
      forall i | 0 <= i < |s[1..]| - 1 ensures !(IsLowerOrDigit(s[1..][i]) && IsUpper(s[1..][i + 1])) {
        assert s[1..][i] == s[i + 1] && s[1..][i + 1] == s[i + 2];
      }
      SplitAfterLowerPlain(s[1..]);
    }
  }

  lemma {:induction false} ReplaceNoUpper(s: string, pat: string, rep: string)
    requires pat != [] && NoUpper(s) && NoUpper(rep)
    ensures NoUpper(ReplaceAll(s, pat, rep))
    decreases |s|
  {
    if s != [] {
      if StartsWith(s, pat) {
        ReplaceNoUpper(s[|pat|..], pat, rep);
      } else {
        ReplaceNoUpper(s[1..], pat, rep);
      }
    }
  }

  lemma {:induction false} NoUpperCovered(s: string)
    requires NoUpper(s)
    ensures OimsCovered(s)
    decreases |s|
  {
    if s != [] {
      NoUpperCovered(s[1..]);
    }
  }

  lemma {:induction false} ReplaceOimsCovered(s: string)
    requires NoUpper(s)
    ensures OimsCovered(ReplaceAll(s, "_oims_", "OIMS"))
    decreases |s|
  {
    if s != [] {
      var r := ReplaceAll(s, "_oims_", "OIMS");
      if StartsWith(s, "_oims_") {
        ReplaceOimsCovered(s[6..]);
        assert r[4..] == ReplaceAll(s[6..], "_oims_", "OIMS");
        assert StartsWith(r, "OIMS");
      } else {
        ReplaceOimsCovered(s[1..]);
        assert r[1..] == ReplaceAll(s[1..], "_oims_", "OIMS");
      }
    }
  }

  /**
   * Every uppercase letter of a snake-cased key belongs to an "OIMS" put back by the last
   * replacement; every other character is lowercase.
   */
  lemma UpperOnlyInOims(s: string)
    ensures OimsCovered(ToSnakeCase(s))
  {
    var isolated := if Contains(s, "OIMS") then ReplaceAll(s, "OIMS", "_OIMS_") else s;
    var lowered := Lower(SplitAfterLower(SplitBeforeWords(isolated)));
    LowerHasNoUpper(SplitAfterLower(SplitBeforeWords(isolated)));
    ReplaceNoUpper(lowered, "__", "_");
    var single := ReplaceAll(lowered, "__", "_");
    if Contains(single, "_oims_") {
      ReplaceOimsCovered(single);
    } else {
      NoUpperCovered(single);
    }
  }

  /** A key without capitals, "__" or "_oims_" is already in snake case. */
  lemma SnakeCasePlain(s: string)
    requires NoUpper(s) && !Contains(s, "__") && !Contains(s, "_oims_")
    ensures ToSnakeCase(s) == s
  {
    assert 'O' !in s by {
      forall i | 0 <= i < |s| ensures s[i] != 'O' {
        assert !IsUpper(s[i]);
      }
    }
    ContainsFirst(s, "OIMS");
    SplitBeforeWordsPlain(s);
    SplitAfterLowerPlain(s);
    LowerOfNoUpper(s);
    ReplaceAbsent(s, "__", "_");
  }

  predicate AllLower(s: string)
  {
    forall i :: 0 <= i < |s| ==> IsLower(s[i])
  }

  lemma {:induction false} LowerRunAll(w: string)
    requires AllLower(w)
    ensures LowerRun(w) == |w|
    decreases |w|
  {
    if w != [] {
      LowerRunAll(w[1..]);
    }
  }

  /** Line 48 on a character followed by one capitalised word that ends the string. */
  lemma SplitBeforeLastWord(c: char, y: char, w: string)
    requires c != '\n' && IsUpper(y) && w != [] && AllLower(w)
    ensures SplitBeforeWords([c] + [y] + w) == [c] + "_" + [y] + w
  {
    var s := [c] + [y] + w;
    assert WordStartsAt(s);
    assert s[2..] == w;
    LowerRunAll(w);
    assert s[|s|..] == [];
    assert s[1..|s|] == [y] + w;
  }

  /** Where line 48's pattern does not match, the first character is kept and the scan moves on. */
  lemma SplitBeforeSkip(c: char, t: string)
    requires !WordStartsAt([c] + t)
    ensures SplitBeforeWords([c] + t) == [c] + SplitBeforeWords(t)
  {
    assert ([c] + t)[1..] == t;
  }

  lemma {:induction false} SplitBeforeOneWord(u: string, y: char, w: string)
    requires u != [] && AllLower(u) && IsUpper(y) && w != [] && AllLower(w)
    ensures SplitBeforeWords(u + [y] + w) == u + "_" + [y] + w
    decreases |u|
  {
    if |u| == 1 {
      assert u == [u[0]];
      SplitBeforeLastWord(u[0], y, w);
    } else {
      var t := u[1..] + [y] + w;
      assert u + [y] + w == [u[0]] + t;
      assert !WordStartsAt([u[0]] + t) by { assert ([u[0]] + t)[1] == u[1]; }
      SplitBeforeSkip(u[0], t);
      SplitBeforeOneWord(u[1..], y, w);
      assert u + "_" + [y] + w == [u[0]] + (u[1..] + "_" + [y] + w);
    }
  }

  /** No two capitals stand side by side, so "OIMS" does not occur. */
  lemma TwoWordsNoOims(x: char, u: string, y: char, w: string)
    requires u != [] && AllLower(u) && AllLower(w)
    ensures !Contains([x] + u + [y] + w, "OIMS")
  {
    var s := [x] + u + [y] + w;
    forall i ensures !OccursAt(s, "OIMS", i) {
      if 0 <= i && i + 4 <= |s| {
        assert s[i..i + 4][1] == s[i + 1];
        if i + 1 <= |u| {
          assert s[i + 1] == u[i];
        } else if i + 1 > |u| + 1 {
          assert s[i + 1] == w[i - |u| - 1];
        } else {
          assert s[i..i + 4][0] == s[i] == u[i - 1];
        }
      }
    }
    NotContains(s, "OIMS");
  }

  /** Line 48 puts one underscore before the second word and nowhere else. */
  lemma TwoWordsSplitBefore(x: char, u: string, y: char, w: string)
    requires IsUpper(y) && u != [] && AllLower(u) && w != [] && AllLower(w)
    ensures SplitBeforeWords([x] + u + [y] + w) == [x] + u + "_" + [y] + w
  {
    var r := u + [y] + w;
    assert [x] + u + [y] + w == [x] + r;
    assert !WordStartsAt([x] + r) by { assert ([x] + r)[1] == u[0]; }
    SplitBeforeSkip(x, r);
    SplitBeforeOneWord(u, y, w);
    assert [x] + (u + "_" + [y] + w) == [x] + u + "_" + [y] + w;
  }

  lemma TwoWordsSplit(x: char, u: string, y: char, w: string)
    requires IsUpper(x) && IsUpper(y) && u != [] && AllLower(u) && w != [] && AllLower(w)
    ensures SplitAfterLower(SplitBeforeWords([x] + u + [y] + w)) == [x] + u + "_" + [y] + w
  {
    TwoWordsSplitBefore(x, u, y, w);
    TwoWordsNoCapitalAfterLower(x, u, y, w);
    SplitAfterLowerPlain([x] + u + "_" + [y] + w);
  }

  /** After line 48 has split the words, every capital follows an underscore or starts the string. */
  lemma TwoWordsNoCapitalAfterLower(x: char, u: string, y: char, w: string)
    requires AllLower(u) && AllLower(w)
    ensures var t := [x] + u + "_" + [y] + w;
            forall i :: 0 <= i < |t| - 1 ==> !(IsLowerOrDigit(t[i]) && IsUpper(t[i + 1]))
  {
    var t := [x] + u + "_" + [y] + w;
    forall i | 0 <= i < |t| - 1 ensures !(IsLowerOrDigit(t[i]) && IsUpper(t[i + 1])) {
      if i + 1 == |u| + 2 {
        assert t[i] == '_';
      } else if i + 1 <= |u| {
        assert t[i + 1] == u[i];
      } else if i + 1 == |u| + 1 {
        assert t[i + 1] == '_';
      } else {
        assert t[i + 1] == w[i + 1 - |u| - 3];
      }
    }
  }

  lemma TwoWordsLower(x: char, u: string, y: char, w: string)
    requires AllLower(u) && AllLower(w)
    ensures Lower([x] + u + "_" + [y] + w) == [ToLowerChar(x)] + u + "_" + [ToLowerChar(y)] + w
  {
    var t := [x] + u + "_" + [y] + w;
    var l := [ToLowerChar(x)] + u + "_" + [ToLowerChar(y)] + w;
    forall i | 0 <= i < |t| ensures Lower(t)[i] == l[i] {
      if 1 <= i <= |u| {
        assert t[i] == u[i - 1] && l[i] == u[i - 1];
      } else if i >= |u| + 3 {
        assert t[i] == w[i - |u| - 3] && l[i] == w[i - |u| - 3];
      }
    }
  }

  /** A string whose only underscore is at `k` holds neither "__" nor "_oims_". */
  lemma OneUnderscore(l: string, k: nat)
    requires forall i :: 0 <= i < |l| && i != k ==> l[i] != '_'
    ensures !Contains(l, "__") && !Contains(l, "_oims_")
  {
    forall i ensures !OccursAt(l, "__", i) && !OccursAt(l, "_oims_", i) {
      if 0 <= i && i + 2 <= |l| {
        assert l[i..i + 2][0] == l[i] && l[i..i + 2][1] == l[i + 1];
      }
      if 0 <= i && i + 6 <= |l| {
        assert l[i..i + 6][0] == l[i] && l[i..i + 6][5] == l[i + 5];
      }
    }
    NotContains(l, "__");
    NotContains(l, "_oims_");
  }

  /** Two capitalised words are lowercased and joined by one underscore. */
  lemma TwoWords(x: char, u: string, y: char, w: string)
    requires IsUpper(x) && IsUpper(y) && u != [] && AllLower(u) && w != [] && AllLower(w)
    ensures ToSnakeCase([x] + u + [y] + w) == [ToLowerChar(x)] + u + "_" + [ToLowerChar(y)] + w
  {
    TwoWordsNoOims(x, u, y, w);
    TwoWordsSplit(x, u, y, w);
    TwoWordsLower(x, u, y, w);
    var l := [ToLowerChar(x)] + u + "_" + [ToLowerChar(y)] + w;
    forall i | 0 <= i < |l| && i != |u| + 1 ensures l[i] != '_' {
      if 1 <= i <= |u| {
        assert l[i] == u[i - 1];
      } else if i >= |u| + 3 {
        assert l[i] == w[i - |u| - 3];
      }
    }
    OneUnderscore(l, |u| + 1);
    ReplaceAbsent(l, "__", "_");
  }

  lemma CamelCaseSpelling()
    ensures "CamelCase" == ['C'] + "amel" + ['C'] + "ase"
    ensures "camel_case" == ['c'] + "amel" + "_" + ['c'] + "ase"
  {
  }

  /** The example of the converter's documentation. */
  lemma CamelCaseExample()
    ensures ToSnakeCase("CamelCase") == "camel_case"
  {
    TwoWords('C', "amel", 'C', "ase");
    assert ToLowerChar('C') == 'c';
    CamelCaseSpelling();
  }

  lemma MetadataPlain()
    ensures NoUpper("metadata") && '_' !in "metadata"
  {
  }

  /** "metadata", the key standardisation introduces, is its own snake-case form. */
  lemma MetadataIsSnake()
    ensures ToSnakeCase("metadata") == "metadata"
  {
    MetadataPlain();
    ContainsFirst("metadata", "__");
    ContainsFirst("metadata", "_oims_");
    SnakeCasePlain("metadata");
  }

  // ---------------------------------------------------------------------------
  // A key that starts with "OIMS_"

  /** Line 48 changes nothing where no capital is followed by a lowercase letter. */
  lemma {:induction false} SplitBeforeWordsNoWord(s: string)
    requires forall i :: 0 <= i < |s| - 1 ==> !(IsUpper(s[i]) && IsLower(s[i + 1]))
    ensures SplitBeforeWords(s) == s
    decreases |s|
  {
    if s != [] {
      assert !WordStartsAt(s) by {
        if |s| >= 3 {
          assert !(IsUpper(s[1]) && IsLower(s[2]));
        }
      }
      forall i | 0 <= i < |s[1..]| - 1 ensures !(IsUpper(s[1..][i]) && IsLower(s[1..][i + 1])) {
        assert s[1..][i] == s[i + 1] && s[1..][i + 1] == s[i + 2];
      }
      SplitBeforeWordsNoWord(s[1..]);
    }
  }

  /** Line 46 on "OIMS_" + t: the leading "OIMS" is wrapped, next to the key's own underscore. */
  lemma IsolatedLeadingOims(t: string)
    requires NoUpper(t)
    ensures ReplaceAll("OIMS_" + t, "OIMS", "_OIMS_") == "_OIMS__" + t
  {
    var s := "OIMS_" + t;
    assert StartsWith(s, "OIMS");
    assert s[4..] == "_" + t;
    assert 'O' !in "_" + t by {
      forall i | 0 <= i < |"_" + t| ensures ("_" + t)[i] != 'O' {
        if i > 0 {
          assert ("_" + t)[i] == t[i - 1] && !IsUpper(t[i - 1]);
        }
      }
    }
    ContainsFirst("_" + t, "OIMS");
    ReplaceAbsent("_" + t, "OIMS", "_OIMS_");
  }

  /** Lines 48-49 leave "_OIMS__" + t alone; lowercasing gives "_oims__" + t. */
  lemma LoweredLeadingOims(t: string)
    requires NoUpper(t)
    ensures Lower(SplitAfterLower(SplitBeforeWords("_OIMS__" + t))) == "_oims__" + t
  {
    var s := "_OIMS__" + t;
    forall i | 0 <= i < |s| - 1
      ensures !(IsUpper(s[i]) && IsLower(s[i + 1])) && !(IsLowerOrDigit(s[i]) && IsUpper(s[i + 1]))
    {
      if i >= 6 {
        assert s[i + 1] == t[i - 6];
      }
      if i >= 7 {
        assert s[i] == t[i - 7];
      }
    }
    SplitBeforeWordsNoWord(s);
    SplitAfterLowerPlain(s);
    var l := "_oims__" + t;
    forall i | 0 <= i < |s| ensures Lower(s)[i] == l[i] {
      if i >= 7 {
        assert s[i] == t[i - 7] == l[i];
      }
    }
  }

  /** Line 50 collapses the two underscores after "oims" into one. */
  lemma CollapsedLeadingOims(t: string)
    requires !Contains(t, "__")
    ensures ReplaceAll("_oims__" + t, "__", "_") == "_oims_" + t
  {
    ReplaceFront(t, "__", "_");
    ReplaceAbsent(t, "__", "_");
    ReplaceKeepPrefix("_oims", "__" + t, "__", "_");
    assert "_oims" + ("__" + t) == "_oims__" + t;
    assert "_oims" + ("_" + t) == "_oims_" + t;
  }

  /** Before lines 52-53, "OIMS_" + t has become "_oims_" + t. */
  lemma CollapsedOfLeadingOims(t: string)
    requires NoUpper(t) && !Contains(t, "__")
    ensures Collapsed("OIMS_" + t) == "_oims_" + t
    ensures Contains(Collapsed("OIMS_" + t), "_oims_")
  {
    assert StartsWith("OIMS_" + t, "OIMS");
    IsolatedLeadingOims(t);
    LoweredLeadingOims(t);
    CollapsedLeadingOims(t);
    assert StartsWith("_oims_" + t, "_oims_");
  }

  /**
   * A key that starts with "OIMS_" loses the underscore after "OIMS": the "_oims_" that
   * line 53 replaces takes the key's own underscore with it.
   */
  lemma LeadingOimsLosesUnderscore(t: string)
    requires NoUpper(t) && !Contains(t, "__") && !Contains(t, "_oims_")
    ensures ToSnakeCase("OIMS_" + t) == "OIMS" + t
  {
    CollapsedOfLeadingOims(t);
    ReplaceFront(t, "_oims_", "OIMS");
    ReplaceAbsent(t, "_oims_", "OIMS");
  }

  /** Three lowercase words joined by underscores hold no capital, no "__" and no "_oims_". */
  lemma ThreeWords(a: string, b: string, c: string)
    requires a != [] && b != [] && c != [] && AllLower(a) && AllLower(b) && AllLower(c)
    requires !(|b| >= 2 && b[0] == 'o' && b[1] == 'i') && !(|c| >= 2 && c[0] == 'o' && c[1] == 'i')
    ensures var t := a + "_" + b + "_" + c;
            NoUpper(t) && !Contains(t, "__") && !Contains(t, "_oims_")
  {
    var t := a + "_" + b + "_" + c;
    var p := |a|;
    var q := |a| + 1 + |b|;
    forall k | 0 <= k < |t| ensures (k == p || k == q) == (t[k] == '_') && (k != p && k != q ==> IsLower(t[k])) {
      if k < p {
        assert t[k] == a[k];
      } else if p < k < q {
        assert t[k] == b[k - p - 1];
      } else if q < k {
        assert t[k] == c[k - q - 1];
      }
    }
    forall i ensures !OccursAt(t, "__", i) && !OccursAt(t, "_oims_", i) {
      if 0 <= i && i + 2 <= |t| {
        assert t[i..i + 2][0] == t[i] && t[i..i + 2][1] == t[i + 1];
      }
      if 0 <= i && i + 6 <= |t| {
        assert t[i..i + 6][0] == t[i] && t[i..i + 6][1] == t[i + 1] && t[i..i + 6][2] == t[i + 2];
        if i == p {
          assert t[i + 1] == b[0];
          if |b| >= 2 {
            assert t[i + 2] == b[1];
          }
        } else if i == q {
          assert t[i + 1] == c[0] && t[i + 2] == c[1];
        }
      }
    }
    NotContains(t, "__");
    NotContains(t, "_oims_");
  }

  lemma PropertiesTailWords()
    ensures AllLower("content") && AllLower("object") && AllLower("properties")
    ensures "object"[1] == 'b' && "properties"[0] == 'p'
  {
  }

  lemma PropertiesTailSpelling()
    ensures "content" + "_" + "object" + "_" + "properties" == "content_object_properties"
  {
  }

  lemma PropertiesKeySpelling()
    ensures "OIMS_" + "content_object_properties" == "OIMS_content_object_properties"
  {
  }

  lemma RenamedKeySpelling()
    ensures "OIMS" + "content_object_properties" == "OIMScontent_object_properties"
  {
  }

  lemma PropertiesTailPlain()
    ensures NoUpper("content_object_properties") && !Contains("content_object_properties", "__")
            && !Contains("content_object_properties", "_oims_")
  {
    PropertiesTailWords();
    PropertiesTailSpelling();
    ThreeWords("content", "object", "properties");
  }

  /** The key "OIMS_content_object_properties" is renamed "OIMScontent_object_properties". */
  lemma OimsPropertiesRenamed()
    ensures ToSnakeCase("OIMS_content_object_properties") == "OIMScontent_object_properties"
  {
    PropertiesTailPlain();
    LeadingOimsLosesUnderscore("content_object_properties");
    PropertiesKeySpelling();
    RenamedKeySpelling();
  }

  // ---------------------------------------------------------------------------
  // The restoration as the documentation describes it: "OIMS" kept intact

  function TrimLeadingUnderscores(s: string): (r: string)
    ensures r == [] || r[0] != '_'
    decreases |s|
  {
    if s != [] && s[0] == '_' then TrimLeadingUnderscores(s[1..]) else s
  }

  function TrimTrailingUnderscores(s: string): (r: string)
    ensures r == [] || r[|r| - 1] != '_'
    ensures s != [] && s[0] != '_' ==> r != [] && r[0] == s[0]
    decreases |s|
  {
    if s != [] && s[|s| - 1] == '_' then TrimTrailingUnderscores(s[..|s| - 1]) else s
  }

  /** `s.strip("_")`. */
  function StripUnderscores(s: string): (r: string)
    ensures r == [] || (r[0] != '_' && r[|r| - 1] != '_')
  {
    TrimTrailingUnderscores(TrimLeadingUnderscores(s))
  }

  /**
   * `to_snake_case` with line 53 restoring "_OIMS_" and then stripping the underscores the
   * isolation of line 46 left at the ends of the key.
   */
  function ToSnakeCaseFixed(s: string): string
  {
    var single := Collapsed(s);
    if Contains(single, "_oims_") then StripUnderscores(ReplaceAll(single, "_oims_", "_OIMS_")) else single
  }

  /** Stripping removes the isolating underscore in front and none at the end. */
  lemma StripIsolatedOims(t: string)
    requires t != [] && t[|t| - 1] != '_'
    ensures StripUnderscores("_OIMS_" + t) == "OIMS_" + t
  {
    var r := "_OIMS_" + t;
    assert r[1..] == "OIMS_" + t;
    assert TrimLeadingUnderscores(r) == "OIMS_" + t;
    assert ("OIMS_" + t)[|"OIMS_" + t| - 1] == t[|t| - 1];
  }

  /** A key that starts with "OIMS_" keeps its underscore under the corrected restoration. */
  lemma LeadingOimsKept(t: string)
    requires NoUpper(t) && !Contains(t, "__") && !Contains(t, "_oims_") && t != [] && t[|t| - 1] != '_'
    ensures ToSnakeCaseFixed("OIMS_" + t) == "OIMS_" + t
  {
    CollapsedOfLeadingOims(t);
    ReplaceFront(t, "_oims_", "_OIMS_");
    ReplaceAbsent(t, "_oims_", "_OIMS_");
    StripIsolatedOims(t);
  }

  /** With the corrected restoration, "OIMS_content_object_properties" is its own snake-case form. */
  lemma OimsPropertiesKept()
    ensures ToSnakeCaseFixed("OIMS_content_object_properties") == "OIMS_content_object_properties"
  {
    PropertiesTailPlain();
    LeadingOimsKept("content_object_properties");
    PropertiesKeySpelling();
  }
}
