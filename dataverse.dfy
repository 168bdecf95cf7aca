/**
 * The unquoted-key fixer of convert_dataverse_to_OIMS.py.  `quote_properties` puts double
 * quotes around every bare property name of a JSON-like text: a name is an identifier
 * `[a-zA-Z_][a-zA-Z_0-9]*` that directly follows "{" or ", " and is followed by optional
 * whitespace and a ':'.  The text is scanned once, left to right, as `re.sub` does.
 *
 * The substitution is modelled on a split string: `l` is the text already read (only its
 * last two characters matter, for the look-behind) and `r` the text still to read.
 */
module DataverseCleaner {
  import opened Wrappers
  import opened Text
  import opened JsonValues

  // ---------------------------------------------------------------------------
  // The pattern `(?<=\{|, )([a-zA-Z_][a-zA-Z_0-9]*)(?=\s*:)`

  predicate IsIdStart(c: char) { IsUpper(c) || IsLower(c) || c == '_' }

  predicate IsIdChar(c: char) { IsIdStart(c) || IsDigit(c) }

  /** The length of the leading run of identifier characters: what the greedy `[a-zA-Z_0-9]*` takes. */
  function IdLen(r: string): (n: nat)
    ensures n <= |r|
    decreases |r|
  {
    if r != [] && IsIdChar(r[0]) then 1 + IdLen(r[1..]) else 0
  }

  /** The greedy run: identifier characters up to `IdLen(r)`, and none right after. */
  lemma {:induction false} IdLenRun(r: string)
    ensures forall k :: 0 <= k < IdLen(r) ==> IsIdChar(r[k])
    ensures IdLen(r) == |r| || !IsIdChar(r[IdLen(r)])
    decreases |r|
  {
    if r != [] && IsIdChar(r[0]) {
      IdLenRun(r[1..]);
      forall k | 0 < k < IdLen(r) ensures IsIdChar(r[k]) {
        assert r[k] == r[1..][k - 1];
      }
    }
  }

  /** The look-ahead `(?=\s*:)`: whitespace, then a colon. */
  predicate ColonAhead(t: string)
    decreases |t|
  {
    t != [] && (t[0] == ':' || (IsSpace(t[0]) && ColonAhead(t[1..])))
  }

  /** The look-behind `(?<=\{|, )`: the text read so far ends in "{" or in ", ". */
  predicate Behind(l: string)
  {
    (|l| >= 1 && l[|l| - 1] == '{') || (|l| >= 2 && l[|l| - 2] == ',' && l[|l| - 1] == ' ')
  }

  /** The pattern matches where `r` begins, after the text `l`. */
  predicate MatchHere(l: string, r: string)
  {
    Behind(l) && r != [] && IsIdStart(r[0]) && ColonAhead(r[IdLen(r)..])
  }

  /** `re.sub(pattern, r'"\1"', ...)` on the rest `r` of the text, after `l`. */
  function Quote(l: string, r: string): string
    decreases |r|
  {
    if r == [] then []
    else if MatchHere(l, r) then
      var n := IdLen(r);
      "\"" + r[..n] + "\"" + Quote(l + r[..n], r[n..])
    else
      [r[0]] + Quote(l + [r[0]], r[1..])
  }

  /** Where the pattern does not match, the character is copied. */
  lemma QuoteCopyStep(l: string, r: string)
    requires r != [] && !MatchHere(l, r)
    ensures Quote(l, r) == [r[0]] + Quote(l + [r[0]], r[1..])
  {
  }

  /** Where it matches, the name goes between quotes and the scan resumes after it. */
  lemma QuoteMatchStep(l: string, r: string)
    requires MatchHere(l, r)
    ensures IdLen(r) > 0
    ensures Quote(l, r) == "\"" + r[..IdLen(r)] + "\"" + Quote(l + r[..IdLen(r)], r[IdLen(r)..])
  {
  }

  /** `quote_properties(s)` as its authors evidently intended it. */
  function QuoteProperties(s: string): string
  {
    Quote([], s)
  }

  // ---------------------------------------------------------------------------
  // As written: Python's `re` does not compile the pattern

  /** The alternatives of the look-behind `(?<=\{|, )`. */
  const LookbehindAlternatives: seq<string> := ["{", ", "]

  /** The message of the `re.error` raised for a look-behind of varying width. */
  const VariableWidthLookbehind := "look-behind requires fixed-width pattern"

  /**
   * Python's `re` compiles a look-behind only when every string it can match has one and
   * the same width; the result is that width.
   */
  function LookbehindWidth(alts: seq<string>): Result<nat, PyError>
    requires alts != []
  {
    if forall i :: 0 <= i < |alts| ==> |alts[i]| == |alts[0]| then Ok(|alts[0]|)
    else Err(PatternError(VariableWidthLookbehind))
  }

  /** `quote_properties(s)` as written: the pattern is compiled before anything is substituted. */
  function QuotePropertiesAsWritten(s: string): Result<string, PyError>
  {
    var width :- LookbehindWidth(LookbehindAlternatives);
    Ok(QuoteProperties(s))
  }

  /** "{" has width 1 and ", " width 2, so every call raises `re.error`, whatever the input. */
  lemma AsWrittenAlwaysRaises(s: string)
    ensures QuotePropertiesAsWritten(s) == Err(PatternError(VariableWidthLookbehind))
  {
    assert |LookbehindAlternatives[1]| != |LookbehindAlternatives[0]|;
  }

  // ---------------------------------------------------------------------------
  // A reference by positions: what happens at each character of the input

  /** A quote is opened before position `i` of `s`. */
  predicate Opens(s: string, i: nat)
    requires i < |s|
  {
    MatchHere(s[..i], s[i..])
  }

  /** Where the run of identifier characters holding position `i` begins. */
  function RunStart(s: string, i: nat): (j: nat)
    requires i < |s|
    ensures j <= i
    decreases i
  {
    if i > 0 && IsIdChar(s[i - 1]) then RunStart(s, i - 1) else i
  }

  /** A quote is closed after position `i`: it ends a run whose start opened one. */
  predicate Closes(s: string, i: nat)
    requires i < |s|
  {
    IsIdChar(s[i]) && (i + 1 == |s| || !IsIdChar(s[i + 1])) && Opens(s, RunStart(s, i))
  }

  /** For each position of `s`: whether a quote opens before it and whether one closes after it. */
  function Marks(s: string): (m: seq<(bool, bool)>)
    ensures |m| == |s|
  {
    seq(|s|, k requires 0 <= k < |s| => (Opens(s, k), Closes(s, k)))
  }

  /** The characters of `s` from position `i` on, with the quotes the marks `m` put around them. */
  function Emit(s: string, m: seq<(bool, bool)>, i: nat): string
    requires |m| == |s| && i <= |s|
    decreases |s| - i
  {
    if i == |s| then ""
    else (if m[i].0 then "\"" else "") + [s[i]] + (if m[i].1 then "\"" else "") + Emit(s, m, i + 1)
  }

  /** How many quotes the marks open from position `i` on. */
  function Opened(m: seq<(bool, bool)>, i: nat): nat
    requires i <= |m|
    decreases |m| - i
  {
    if i == |m| then 0 else (if m[i].0 then 1 else 0) + Opened(m, i + 1)
  }

  /** Position `i` is not strictly inside a run of identifier characters. */
  predicate Boundary(s: string, i: nat)
    requires i <= |s|
  {
    i == 0 || i == |s| || !IsIdChar(s[i - 1]) || !IsIdChar(s[i])
  }

  // ---------------------------------------------------------------------------
  // Helpers

  /** Inside a run of identifier characters the look-behind fails. */
  lemma InsideRunNoOpen(s: string, k: nat)
    requires 0 < k < |s| && IsIdChar(s[k - 1])
    ensures !Opens(s, k)
  {
    assert s[..k][k - 1] == s[k - 1];
  }

  lemma {:induction false} RunStartWithin(s: string, i: nat, k: nat)
    requires i <= k < |s| && (i == 0 || !IsIdChar(s[i - 1]))
    requires forall j :: i <= j < k ==> IsIdChar(s[j])
    ensures RunStart(s, k) == i
    decreases k - i
  {
    if k > i {
      RunStartWithin(s, i, k - 1);
    }
  }

  /** The marks at position `k`, as far as the runs of identifier characters decide them. */
  predicate ShapedAt(s: string, m: seq<(bool, bool)>, k: nat)
    requires |m| == |s| && k < |s|
  {
    (!IsIdChar(s[k]) ==> m[k] == (false, false))
    && (0 < k && IsIdChar(s[k - 1]) ==> !m[k].0)
    && (m[k].1 <==> IsIdChar(s[k]) && (k + 1 == |s| || !IsIdChar(s[k + 1])) && m[RunStart(s, k)].0)
  }

  /** The opening mark at `k` is where the pattern matches. */
  predicate OpenMarked(s: string, m: seq<(bool, bool)>, k: nat)
    requires |m| == |s| && k < |s|
  {
    m[k].0 == Opens(s, k)
  }

  /** Quotes open only at the start of a run and close at the end of a run that opened one. */
  predicate Shaped(s: string, m: seq<(bool, bool)>)
    requires |m| == |s|
  {
    forall k :: 0 <= k < |s| ==> ShapedAt(s, m, k)
  }

  lemma MarksShaped(s: string)
    ensures Shaped(s, Marks(s))
  {
    var m := Marks(s);
    forall k | 0 <= k < |s| ensures ShapedAt(s, m, k) {
      assert s[k..][0] == s[k];
      if 0 < k && IsIdChar(s[k - 1]) {
        InsideRunNoOpen(s, k);
      }
    }
  }

  /** The run that starts at `i` ends at `e`: only its start can open, only its end can close, and it closes when it opens. */
  lemma RunShape(s: string, m: seq<(bool, bool)>, i: nat) returns (e: nat)
    requires |m| == |s| && Shaped(s, m)
    requires i < |s| && IsIdChar(s[i]) && (i == 0 || !IsIdChar(s[i - 1]))
    ensures e == i + IdLen(s[i..]) && i < e <= |s| && (e == |s| || !IsIdChar(s[e]))
    ensures m[i] == (m[i].0, e == i + 1 && m[i].0)
    ensures forall k :: i < k < e - 1 ==> m[k] == (false, false)
    ensures e > i + 1 ==> m[e - 1] == (false, m[i].0)
  {
    var r := s[i..];
    e := i + IdLen(r);
    IdLenRun(r);
    forall k | i <= k < e ensures IsIdChar(s[k]) {
      assert s[k] == r[k - i];
    }
    if e < |s| {
      assert s[e] == r[e - i];
    }
    forall k | i <= k < e ensures RunStart(s, k) == i {
      RunStartWithin(s, i, k);
    }
    assert ShapedAt(s, m, i);
    forall k | i < k < e - 1 ensures m[k] == (false, false) {
      assert ShapedAt(s, m, k);
      assert IsIdChar(s[k + 1]);
    }
    if e > i + 1 {
      assert ShapedAt(s, m, e - 1);
    }
  }

  /** Unmarked characters are copied. */
  lemma {:induction false} EmitCopy(s: string, m: seq<(bool, bool)>, i: nat, e: nat)
    requires |m| == |s| && i <= e <= |s|
    requires forall k :: i <= k < e ==> m[k] == (false, false)
    ensures Emit(s, m, i) == s[i..e] + Emit(s, m, e)
    decreases e - i
  {
    if i < e {
      assert Emit(s, m, i) == [s[i]] + Emit(s, m, i + 1);
      EmitCopy(s, m, i + 1, e);
      assert [s[i]] + s[i + 1..e] == s[i..e];
    } else {
      assert s[i..e] == [];
    }
  }

  lemma {:induction false} OpenedCopy(m: seq<(bool, bool)>, i: nat, e: nat)
    requires i <= e <= |m|
    requires forall k :: i <= k < e ==> !m[k].0
    ensures Opened(m, i) == Opened(m, e)
    decreases e - i
  {
    if i < e {
      OpenedCopy(m, i + 1, e);
    }
  }

  /** One marked position: its character with the quotes its marks ask for. */
  lemma EmitStep(s: string, m: seq<(bool, bool)>, i: nat)
    requires |m| == |s| && i < |s|
    ensures Emit(s, m, i) == (if m[i].0 then "\"" else "") + [s[i]] + (if m[i].1 then "\"" else "") + Emit(s, m, i + 1)
  {
  }

  /** A run marked open at its start and closed at its end comes out between quotes. */
  lemma EmitQuoted(s: string, m: seq<(bool, bool)>, i: nat, e: nat)
    requires |m| == |s| && i < e <= |s|
    requires m[i] == (true, e == i + 1)
    requires forall k :: i < k < e - 1 ==> m[k] == (false, false)
    requires e > i + 1 ==> m[e - 1] == (false, true)
    ensures Emit(s, m, i) == "\"" + s[i..e] + "\"" + Emit(s, m, e)
  {
    var q: string := "\"";
    var tail := Emit(s, m, e);
    EmitStep(s, m, i);
    if e == i + 1 {
      assert s[i..e] == [s[i]];
    } else {
      var mid := s[i + 1..e - 1];
      EmitStep(s, m, e - 1);
      EmitCopy(s, m, i + 1, e - 1);
      assert Emit(s, m, i) == q + [s[i]] + (mid + ([s[e - 1]] + q + tail));
      assert s[i..e] == [s[i]] + mid + [s[e - 1]];
      ConcatRun(q, [s[i]], mid, [s[e - 1]], tail);
    }
  }

  lemma ConcatRun(q: string, a: string, b: string, c: string, t: string)
    ensures q + a + (b + (c + q + t)) == q + (a + b + c) + q + t
  {
  }

  lemma OpenedQuoted(m: seq<(bool, bool)>, i: nat, e: nat)
    requires i < e <= |m| && m[i].0
    requires forall k :: i < k < e ==> !m[k].0
    ensures Opened(m, i) == 1 + Opened(m, e)
  {
    OpenedCopy(m, i + 1, e);
  }

  /** The scan puts a run whose start matches between quotes and resumes after it. */
  lemma MatchedRunQuote(s: string, i: nat, e: nat)
    requires i < |s| && Opens(s, i) && e == i + IdLen(s[i..])
    ensures e <= |s| && Quote(s[..i], s[i..]) == "\"" + s[i..e] + "\"" + Quote(s[..e], s[e..])
  {
    QuoteMatchStep(s[..i], s[i..]);
    SliceAt(s, i, e);
  }

  /** The pieces of `s` around a run from `i` to `e`. */
  lemma SliceAt(s: string, i: nat, e: nat)
    requires i <= e <= |s|
    ensures s[i..][..e - i] == s[i..e] && s[i..][e - i..] == s[e..] && s[..i] + s[i..e] == s[..e]
  {
  }

  /** The scan copies a run whose start does not match. */
  lemma UnmatchedRunQuote(s: string, i: nat, e: nat)
    requires i < |s| && IsIdChar(s[i]) && !Opens(s, i) && e == i + IdLen(s[i..])
    ensures e <= |s| && Quote(s[..i], s[i..]) == s[i..e] + Quote(s[..e], s[e..])
  {
    var l, r := s[..i], s[i..];
    var n := IdLen(r);
    assert Quote(l, r) == r[..n] + Quote(l + r[..n], r[n..]) by {
      assert r[0] == s[i];
      QuoteSkipsRun(l, r);
    }
    SliceAt(s, i, e);
  }

  /** Where no match starts, the scan copies the whole run of identifier characters. */
  lemma QuoteSkipsRun(l: string, r: string)
    requires r != [] && IsIdChar(r[0]) && !MatchHere(l, r)
    ensures Quote(l, r) == r[..IdLen(r)] + Quote(l + r[..IdLen(r)], r[IdLen(r)..])
  {
    var n := IdLen(r);
    QuoteCopyStep(l, r);
    UnquotedRun(l, r);
    assert [r[0]] + r[1..n] == r[..n];
  }

  // ---------------------------------------------------------------------------
  // What quote_properties does

  /** Two outputs with the same head and equal tails are equal. */
  lemma SameAround(a: string, c: string, head: string, b: string, d: string)
    requires a == head + b && c == head + d && b == d
    ensures a == c
  {
  }

  /** A character that cannot be part of a name is copied, by the scan and by the marks alike. */
  lemma CharStep(s: string, m: seq<(bool, bool)>, i: nat)
    requires |m| == |s| && Shaped(s, m)
    requires i < |s| && !IsIdChar(s[i])
    requires Quote(s[..i + 1], s[i + 1..]) == Emit(s, m, i + 1)
    ensures Quote(s[..i], s[i..]) == Emit(s, m, i)
  {
    assert ShapedAt(s, m, i);
    EmitStep(s, m, i);
    assert s[i..][0] == s[i];
    QuoteCopyStep(s[..i], s[i..]);
    assert s[..i] + [s[i]] == s[..i + 1];
    assert s[i..][1..] == s[i + 1..];
  }

  /** A run whose start matches: the scan and the marks both put it between quotes. */
  lemma MatchedRunStep(s: string, m: seq<(bool, bool)>, i: nat, e: nat)
    requires |m| == |s| && i < e <= |s| && e == i + IdLen(s[i..]) && Opens(s, i)
    requires m[i] == (true, e == i + 1)
    requires forall k :: i < k < e - 1 ==> m[k] == (false, false)
    requires e > i + 1 ==> m[e - 1] == (false, true)
    requires Quote(s[..e], s[e..]) == Emit(s, m, e)
    ensures Quote(s[..i], s[i..]) == Emit(s, m, i)
  {
    MatchedRunQuote(s, i, e);
    EmitQuoted(s, m, i, e);
    SameAround(Quote(s[..i], s[i..]), Emit(s, m, i), "\"" + s[i..e] + "\"", Quote(s[..e], s[e..]), Emit(s, m, e));
  }

  /** A run whose start does not match: the scan and the marks both copy it. */
  lemma UnmatchedRunStep(s: string, m: seq<(bool, bool)>, i: nat, e: nat)
    requires |m| == |s| && i < e <= |s| && e == i + IdLen(s[i..]) && IsIdChar(s[i]) && !Opens(s, i)
    requires forall k :: i <= k < e ==> m[k] == (false, false)
    requires Quote(s[..e], s[e..]) == Emit(s, m, e)
    ensures Quote(s[..i], s[i..]) == Emit(s, m, i)
  {
    UnmatchedRunQuote(s, i, e);
    EmitCopy(s, m, i, e);
    SameAround(Quote(s[..i], s[i..]), Emit(s, m, i), s[i..e], Quote(s[..e], s[e..]), Emit(s, m, e));
  }

  /**
   * From a boundary on, the scan outputs exactly the marked characters: a name is wrapped
   * in quotes exactly when the pattern matches at its first character, and every other
   * character is copied unchanged.
   */
  lemma {:induction false} QuoteFromBoundary(s: string, m: seq<(bool, bool)>, i: nat)
    requires |m| == |s| && Shaped(s, m) && forall k :: 0 <= k < |s| ==> OpenMarked(s, m, k)
    requires i <= |s| && Boundary(s, i)
    ensures Quote(s[..i], s[i..]) == Emit(s, m, i)
    decreases |s| - i
  {
    if i == |s| {
      assert s[i..] == [];
    } else if !IsIdChar(s[i]) {
      QuoteFromBoundary(s, m, i + 1);
      CharStep(s, m, i);
    } else {
      var e := RunShape(s, m, i);
      assert OpenMarked(s, m, i);
      QuoteFromBoundary(s, m, e);
      RunStep(s, m, i, e);
    }
  }

  /** A whole run, quoted or copied as its opening mark says: the scan and the marks agree. */
  lemma RunStep(s: string, m: seq<(bool, bool)>, i: nat, e: nat)
    requires |m| == |s| && i < e <= |s| && e == i + IdLen(s[i..]) && IsIdChar(s[i])
    requires OpenMarked(s, m, i)
    requires m[i] == (m[i].0, e == i + 1 && m[i].0)
    requires forall k :: i < k < e - 1 ==> m[k] == (false, false)
    requires e > i + 1 ==> m[e - 1] == (false, m[i].0)
    requires Quote(s[..e], s[e..]) == Emit(s, m, e)
    ensures Quote(s[..i], s[i..]) == Emit(s, m, i)
  {
    if m[i].0 {
      MatchedRunStep(s, m, i, e);
    } else {
      UnmatchedRunStep(s, m, i, e);
    }
  }

  /** Two more characters than the run for a quoted run, none for a copied one. */
  lemma RunLength(s: string, m: seq<(bool, bool)>, i: nat, e: nat)
    requires |m| == |s| && i < e <= |s|
    requires m[i] == (m[i].0, e == i + 1 && m[i].0)
    requires forall k :: i < k < e - 1 ==> m[k] == (false, false)
    requires e > i + 1 ==> m[e - 1] == (false, m[i].0)
    requires |Emit(s, m, e)| == |s| - e + 2 * Opened(m, e)
    ensures |Emit(s, m, i)| == |s| - i + 2 * Opened(m, i)
  {
    if m[i].0 {
      EmitQuoted(s, m, i, e);
      OpenedQuoted(m, i, e);
    } else {
      EmitCopy(s, m, i, e);
      OpenedCopy(m, i, e);
    }
  }

  /** The marks put two quotes around each name they open, so the output grows by two per name. */
  lemma {:induction false} LengthFromBoundary(s: string, m: seq<(bool, bool)>, i: nat)
    requires |m| == |s| && Shaped(s, m)
    requires i <= |s| && Boundary(s, i)
    ensures |Emit(s, m, i)| == |s| - i + 2 * Opened(m, i)
    decreases |s| - i
  {
    if i < |s| {
      if !IsIdChar(s[i]) {
        assert ShapedAt(s, m, i);
        LengthFromBoundary(s, m, i + 1);
        RunLength(s, m, i, i + 1);
      } else {
        var e := RunShape(s, m, i);
        LengthFromBoundary(s, m, e);
        RunLength(s, m, i, e);
      }
    }
  }

  /** The whole output, position by position. */
  lemma QuotePropertiesMarked(s: string)
    ensures QuoteProperties(s) == Emit(s, Marks(s), 0)
  {
    MarksShaped(s);
    var m := Marks(s);
    forall k | 0 <= k < |s| ensures OpenMarked(s, m, k) {
    }
    QuoteFromBoundary(s, m, 0);
    assert s[..0] == [] && s[0..] == s;
  }

  /** Output length is input length plus two for each name that gets quoted. */
  lemma QuotePropertiesLength(s: string)
    ensures |QuoteProperties(s)| == |s| + 2 * Opened(Marks(s), 0)
  {
    QuotePropertiesMarked(s);
    MarksShaped(s);
    LengthFromBoundary(s, Marks(s), 0);
  }

  /** A text in which the pattern never matches comes back unchanged. */
  lemma QuotePropertiesNoMatch(s: string)
    requires forall k :: 0 <= k < |s| ==> !Opens(s, k)
    ensures QuoteProperties(s) == s
  {
    QuotePropertiesMarked(s);
    var m := Marks(s);
    forall k | 0 <= k < |s| ensures m[k] == (false, false) {
      assert !Opens(s, RunStart(s, k));
    }
    EmitCopy(s, m, 0, |s|);
    assert s[0..|s|] == s;
  }

  /**
   * A name that is already quoted, or that starts with a digit, is left alone: its whole
   * run of identifier characters is copied without quotes.
   */
  lemma RunLeftAlone(s: string, i: nat)
    requires i < |s| && IsIdChar(s[i]) && (i == 0 || !IsIdChar(s[i - 1]))
    requires IsDigit(s[i]) || (i > 0 && s[i - 1] == '"')
    ensures Emit(s, Marks(s), i) == s[i..i + IdLen(s[i..])] + Emit(s, Marks(s), i + IdLen(s[i..]))
  {
    NotOpened(s, i);
    var m := Marks(s);
    assert !m[i].0;
    MarksShaped(s);
    UnopenedRunCopied(s, m, i);
  }

  lemma NotOpened(s: string, i: nat)
    requires i < |s| && (IsDigit(s[i]) || (i > 0 && s[i - 1] == '"'))
    ensures !Opens(s, i)
  {
    assert s[i..][0] == s[i];
    assert i == 0 || s[..i][i - 1] == s[i - 1];
  }

  lemma UnopenedRunCopied(s: string, m: seq<(bool, bool)>, i: nat)
    requires |m| == |s| && Shaped(s, m)
    requires i < |s| && IsIdChar(s[i]) && (i == 0 || !IsIdChar(s[i - 1])) && !m[i].0
    ensures Emit(s, m, i) == s[i..i + IdLen(s[i..])] + Emit(s, m, i + IdLen(s[i..]))
  {
    var e := RunShape(s, m, i);
    EmitCopy(s, m, i, e);
  }

  // ---------------------------------------------------------------------------
  // Idempotence

  predicate LastComma(l: string)
  {
    |l| >= 1 && l[|l| - 1] == ','
  }

  /** Two texts read so far that the look-behind cannot tell apart, now or after any further character. */
  predicate SameBehind(l: string, l': string)
  {
    (Behind(l) <==> Behind(l')) && (LastComma(l) <==> LastComma(l'))
  }

  lemma SameBehindAppend(l: string, l': string, c: char)
    requires SameBehind(l, l')
    ensures SameBehind(l + [c], l' + [c])
  {
    var a, b := l + [c], l' + [c];
    assert a[|a| - 1] == c && b[|b| - 1] == c;
    if |a| >= 2 {
      assert a[|a| - 2] == l[|l| - 1];
    }
    if |b| >= 2 {
      assert b[|b| - 2] == l'[|l'| - 1];
    }
  }

  /** Copying `u` in front of `t`, when no character of `u` can start a match. */
  lemma {:induction false} QuoteCopyPrefix(l: string, u: string, t: string)
    requires forall k :: 0 <= k < |u| ==> !IsIdStart(u[k]) || !Behind(l + u[..k])
    ensures Quote(l, u + t) == u + Quote(l + u, t)
    decreases |u|
  {
    if u == [] {
      assert u + t == t && l + u == l;
    } else {
      var r := u + t;
      assert !MatchHere(l, r) by {
        assert r[0] == u[0];
        assert u[..0] == [] && l + u[..0] == l;
      }
      QuoteCopyStep(l, r);
      CopyPrefixShift(l, u);
      QuoteCopyPrefix(l + [u[0]], u[1..], t);
      CopyPrefixJoin(l, u, t, Quote(l + u, t));
    }
  }

  /** After its first character is copied, the rest of `u` still cannot start a match. */
  lemma CopyPrefixShift(l: string, u: string)
    requires u != [] && forall k :: 0 <= k < |u| ==> !IsIdStart(u[k]) || !Behind(l + u[..k])
    ensures forall k :: 0 <= k < |u[1..]| ==> !IsIdStart(u[1..][k]) || !Behind(l + [u[0]] + u[1..][..k])
  {
    forall k | 0 <= k < |u[1..]| ensures !IsIdStart(u[1..][k]) || !Behind(l + [u[0]] + u[1..][..k]) {
      assert u[1..][k] == u[k + 1];
      assert l + [u[0]] + u[1..][..k] == l + u[..k + 1];
    }
  }

  lemma CopyPrefixJoin(l: string, u: string, t: string, q: string)
    requires u != []
    ensures (u + t)[1..] == u[1..] + t && (u + t)[0] == u[0]
    ensures l + [u[0]] + u[1..] == l + u && [u[0]] + (u[1..] + q) == u + q
  {
    assert [u[0]] + u[1..] == u;
  }

  /** A quoted name cannot start a match again: its characters follow '"' or an identifier character. */
  lemma QuotedNameCopied(l: string, w: string, t: string)
    requires forall k :: 0 <= k < |w| ==> IsIdChar(w[k])
    ensures Quote(l, "\"" + w + "\"" + t) == "\"" + w + "\"" + Quote(l + "\"" + w + "\"", t)
  {
    var u := "\"" + w + "\"";
    forall k | 0 <= k < |u| ensures !IsIdStart(u[k]) || !Behind(l + u[..k]) {
      if 0 < k <= |w| {
        var p := l + u[..k];
        assert p[|p| - 1] == u[k - 1];
        assert u[k - 1] == '"' || IsIdChar(u[k - 1]);
      }
    }
    QuoteCopyPrefix(l, u, t);
    assert u + t == "\"" + w + "\"" + t;
    assert l + u == l + "\"" + w + "\"";
  }

  /** The scan never changes whether whitespace-then-colon comes first. */
  lemma {:induction false} ColonAheadQuote(l: string, t: string)
    ensures ColonAhead(Quote(l, t)) <==> ColonAhead(t)
    decreases |t|
  {
    if t != [] && !MatchHere(l, t) {
      ColonAheadQuote(l + [t[0]], t[1..]);
      var q := Quote(l, t);
      assert q[1..] == Quote(l + [t[0]], t[1..]);
    }
  }

  /** The first character the scan outputs is the first input character or an opening quote. */
  lemma QuoteFirst(l: string, t: string)
    ensures t == [] <==> Quote(l, t) == []
    ensures t != [] ==> Quote(l, t)[0] == t[0] || Quote(l, t)[0] == '"'
  {
  }

  /** Where a name is not quoted because no colon follows, its run is copied and still has none. */
  lemma UnquotedRun(l: string, r: string)
    requires r != [] && IsIdChar(r[0])
    ensures Quote(l + [r[0]], r[1..]) == r[1..IdLen(r)] + Quote(l + r[..IdLen(r)], r[IdLen(r)..])
  {
    var n := IdLen(r);
    var u := r[1..n];
    IdLenRun(r);
    forall k | 0 <= k < |u| ensures !Behind(l + [r[0]] + u[..k]) {
      var p := l + [r[0]] + u[..k];
      assert p[|p| - 1] == r[k];
    }
    assert r[1..] == u + r[n..];
    assert l + [r[0]] + u == l + r[..n];
    QuoteCopyPrefix(l + [r[0]], u, r[n..]);
  }

  lemma IdLenOfRun(w: string, t: string)
    requires forall k :: 0 <= k < |w| ==> IsIdChar(w[k])
    requires t == [] || !IsIdChar(t[0])
    ensures IdLen(w + t) == |w| && (w + t)[|w|..] == t
    decreases |w|
  {
    if w != [] {
      assert (w + t)[1..] == w[1..] + t;
      IdLenOfRun(w[1..], t);
    }
  }

  /** An unquoted name that a match could start stays unquoted on a second scan. */
  lemma NoColonStaysUnmatched(l: string, l': string, r: string)
    requires SameBehind(l, l') && !MatchHere(l, r) && r != []
    ensures !MatchHere(l', [r[0]] + Quote(l + [r[0]], r[1..]))
  {
    var o := [r[0]] + Quote(l + [r[0]], r[1..]);
    if Behind(l') && IsIdStart(r[0]) {
      var n := IdLen(r);
      var rest := Quote(l + r[..n], r[n..]);
      IdLenRun(r);
      UnquotedRun(l, r);
      assert r[..n] == [r[0]] + r[1..n];
      assert o == r[..n] + rest;
      QuoteFirst(l + r[..n], r[n..]);
      IdLenOfRun(r[..n], rest);
      ColonAheadQuote(l + r[..n], r[n..]);
    }
  }

  /** A second scan, after a text the look-behind cannot tell from the first, changes nothing. */
  lemma {:induction false} QuoteIdempotent(l: string, l': string, r: string)
    requires SameBehind(l, l')
    ensures Quote(l', Quote(l, r)) == Quote(l, r)
    decreases |r|
  {
    if r != [] {
      if MatchHere(l, r) {
        var n := IdLen(r);
        var w := r[..n];
        IdLenRun(r);
        var rest := Quote(l + w, r[n..]);
        QuotedNameCopied(l', w, rest);
        var a, b := l + w, l' + "\"" + w + "\"";
        assert a[|a| - 1] == w[n - 1] && b[|b| - 1] == '"';
        QuoteIdempotent(a, b, r[n..]);
      } else {
        NoColonStaysUnmatched(l, l', r);
        SameBehindAppend(l, l', r[0]);
        var o := [r[0]] + Quote(l + [r[0]], r[1..]);
        assert o[1..] == Quote(l + [r[0]], r[1..]);
        QuoteIdempotent(l + [r[0]], l' + [r[0]], r[1..]);
      }
    }
  }

  /** Quoting twice is quoting once. */
  lemma QuotePropertiesIdempotent(s: string)
    ensures QuoteProperties(QuoteProperties(s)) == QuoteProperties(s)
  {
    QuoteIdempotent([], [], s);
  }
}
