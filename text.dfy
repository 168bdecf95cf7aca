/** The string operations of Python that the scripts use, on ASCII letters. */
module Text {

  predicate IsUpper(c: char) { 'A' <= c <= 'Z' }

  predicate IsLower(c: char) { 'a' <= c <= 'z' }

  predicate IsDigit(c: char) { '0' <= c <= '9' }

  /** `c.isspace()`: the characters Python's `str.strip()`, `int()` and the regex class `\s` treat as whitespace. */
  predicate IsSpace(c: char)
  {
    c == ' ' || '\t' <= c <= '\r' || '\U{001C}' <= c <= '\U{001F}' || c == '\U{0085}' || c == '\U{00A0}'
    || c == '\U{1680}' || '\U{2000}' <= c <= '\U{200A}' || c == '\U{2028}' || c == '\U{2029}'
    || c == '\U{202F}' || c == '\U{205F}' || c == '\U{3000}'
  }

  function ToLowerChar(c: char): char
  {
    if IsUpper(c) then (c as int + 32) as char else c
  }

  function ToUpperChar(c: char): char
  {
    if IsLower(c) then (c as int - 32) as char else c
  }

  /** `s.lower()` on ASCII letters. */
  function Lower(s: string): string
  {
    seq(|s|, i requires 0 <= i < |s| => ToLowerChar(s[i]))
  }

  /** `s.upper()` on ASCII letters. */
  function Upper(s: string): string
  {
    seq(|s|, i requires 0 <= i < |s| => ToUpperChar(s[i]))
  }

  predicate NoUpper(s: string)
  {
    forall i :: 0 <= i < |s| ==> !IsUpper(s[i])
  }

  lemma LowerHasNoUpper(s: string)
    ensures NoUpper(Lower(s))
  {
  }

  lemma LowerOfNoUpper(s: string)
    requires NoUpper(s)
    ensures Lower(s) == s
  {
  }

  /** `s.split(sep)` for a one-character separator: never empty. */
  function Split(s: string, sep: char): (parts: seq<string>)
    ensures |parts| >= 1
    decreases |s|
  {
    if s == [] then [""]
    else
      var rest := Split(s[1..], sep);
      if s[0] == sep then [""] + rest else [[s[0]] + rest[0]] + rest[1..]
  }

  /** `sep.join(parts)`. */
  function Join(parts: seq<string>, sep: char): string
    decreases |parts|
  {
    if parts == [] then ""
    else if |parts| == 1 then parts[0]
    else parts[0] + [sep] + Join(parts[1..], sep)
  }

  /** Splitting loses nothing: joining the pieces back gives the string. */
  lemma {:induction false} JoinSplit(s: string, sep: char)
    ensures Join(Split(s, sep), sep) == s
    decreases |s|
  {
    if s != [] {
      var rest := Split(s[1..], sep);
      JoinSplit(s[1..], sep);
      if s[0] != sep {
        if |rest| > 1 {
          assert Split(s, sep)[1..] == rest[1..];
        }
      }
    }
  }

  /** No piece holds the separator, and there is one piece more than separators. */
  lemma {:induction false} SplitPieces(s: string, sep: char)
    ensures forall i :: 0 <= i < |Split(s, sep)| ==> sep !in Split(s, sep)[i]
    ensures |Split(s, sep)| == multiset(s)[sep] + 1
    decreases |s|
  {
    if s != [] {
      SplitPieces(s[1..], sep);
      assert s == [s[0]] + s[1..];
      assert multiset(s) == multiset{s[0]} + multiset(s[1..]);
    }
  }

  /** A string without the separator is one piece. */
  lemma {:induction false} SplitNoSeparator(s: string, sep: char)
    requires sep !in s
    ensures Split(s, sep) == [s]
    decreases |s|
  {
    if s != [] {
      SplitNoSeparator(s[1..], sep);
      assert [s[0]] + s[1..] == s;
    }
  }

  /** The first separator ends the first piece. */
  lemma {:induction false} SplitAtSeparator(a: string, b: string, sep: char)
    requires sep !in a
    ensures Split(a + [sep] + b, sep) == [a] + Split(b, sep)
    decreases |a|
  {
    var s := a + [sep] + b;
    if a == [] {
      assert s[1..] == b;
    } else {
      assert s[1..] == a[1..] + [sep] + b;
      SplitAtSeparator(a[1..], b, sep);
      assert [a[0]] + a[1..] == a;
    }
  }

  /** `s.strip()`: leading and trailing whitespace removed. */
  function Strip(s: string): (r: string)
    ensures r == [] || (!IsSpace(r[0]) && !IsSpace(r[|r| - 1]))
  {
    StripRight(StripLeft(s))
  }

  function StripLeft(s: string): (r: string)
    ensures r == [] || !IsSpace(r[0])
    decreases |s|
  {
    if s != [] && IsSpace(s[0]) then StripLeft(s[1..]) else s
  }

  function StripRight(s: string): (r: string)
    ensures r == [] || !IsSpace(r[|r| - 1])
    ensures s != [] && !IsSpace(s[0]) ==> r != [] && r[0] == s[0]
    decreases |s|
  {
    if s != [] && IsSpace(s[|s| - 1]) then StripRight(s[..|s| - 1]) else s
  }

  /** A string that neither starts nor ends with whitespace is its own strip. */
  lemma StripUnchanged(s: string)
    requires s != [] && !IsSpace(s[0]) && !IsSpace(s[|s| - 1])
    ensures Strip(s) == s
  {
  }

  predicate StartsWith(s: string, p: string)
  {
    |p| <= |s| && s[..|p|] == p
  }

  /** `p in s`. */
  predicate Contains(s: string, p: string)
    decreases |s|
  {
    StartsWith(s, p) || (s != [] && Contains(s[1..], p))
  }

  /** `s.replace(pat, rep)`: left to right, matches do not overlap. */
  function ReplaceAll(s: string, pat: string, rep: string): string
    requires pat != []
    decreases |s|
  {
    if s == [] then []
    else if StartsWith(s, pat) then rep + ReplaceAll(s[|pat|..], pat, rep)
    else [s[0]] + ReplaceAll(s[1..], pat, rep)
  }

  /** Replacing a pattern that does not occur changes nothing. */
  lemma {:induction false} ReplaceAbsent(s: string, pat: string, rep: string)
    requires pat != [] && !Contains(s, pat)
    ensures ReplaceAll(s, pat, rep) == s
    decreases |s|
  {
    if s != [] {
      ReplaceAbsent(s[1..], pat, rep);
    }
  }

  /** Where no match starts at the first character, it is copied and the scan moves on. */
  lemma ReplaceKeep(c: char, s: string, pat: string, rep: string)
    requires |pat| >= 2 && (c != pat[0] || (s != [] && s[0] != pat[1]))
    ensures ReplaceAll([c] + s, pat, rep) == [c] + ReplaceAll(s, pat, rep)
  {
    var x := [c] + s;
    if |pat| <= |x| {
      assert x[..|pat|][0] == c && x[..|pat|][1] == s[0];
    }
    assert x[1..] == s;
  }

  /** A match at the start is replaced and the scan resumes after it. */
  lemma ReplaceFront(s: string, pat: string, rep: string)
    requires pat != []
    ensures ReplaceAll(pat + s, pat, rep) == rep + ReplaceAll(s, pat, rep)
  {
    assert StartsWith(pat + s, pat);
    assert (pat + s)[|pat|..] == s;
  }

  /** No match of a two-character pattern starts inside `u`, so `u` is copied. */
  lemma {:induction false} ReplaceKeepPrefix(u: string, s: string, pat: string, rep: string)
    requires |pat| == 2
    requires forall i :: 0 <= i < |u| - 1 ==> u[i] != pat[0] || u[i + 1] != pat[1]
    requires u != [] ==> u[|u| - 1] != pat[0] || (s != [] && s[0] != pat[1])
    ensures ReplaceAll(u + s, pat, rep) == u + ReplaceAll(s, pat, rep)
    decreases |u|
  {
    if u != [] {
      forall i | 0 <= i < |u[1..]| - 1 ensures u[1..][i] != pat[0] || u[1..][i + 1] != pat[1] {
        assert u[1..][i] == u[i + 1] && u[1..][i + 1] == u[i + 2];
      }
      if |u| > 1 {
        assert u[1..][|u[1..]| - 1] == u[|u| - 1];
        assert (u[1..] + s)[0] == u[1];
      } else {
        assert u[1..] + s == s;
      }
      ReplaceKeepPrefix(u[1..], s, pat, rep);
      ReplaceKeep(u[0], u[1..] + s, pat, rep);
      calc {
        ReplaceAll(u + s, pat, rep);
        { assert u + s == [u[0]] + (u[1..] + s); }
        ReplaceAll([u[0]] + (u[1..] + s), pat, rep);
        [u[0]] + ReplaceAll(u[1..] + s, pat, rep);
        [u[0]] + (u[1..] + ReplaceAll(s, pat, rep));
        { assert [u[0]] + u[1..] == u; }
        u + ReplaceAll(s, pat, rep);
      }
    } else {
      assert u + s == s && u + ReplaceAll(s, pat, rep) == ReplaceAll(s, pat, rep);
    }
  }
}
