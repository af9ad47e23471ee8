/**
 * The JavaScript string built-ins that the topic resolution of the Waku provider relies on:
 * `split` with a one-character separator, `trim`, `includes`, `startsWith` and `replace` with a
 * string pattern (first occurrence only, with the `$` patterns of GetSubstitution in ECMA-262).
 * Strings are `seq<char>`, one `char` per character; the UTF-16 encoding of JavaScript strings is
 * not modelled, so a character outside the Basic Multilingual Plane counts as one unit here.
 */
module JsString {
  import opened Wrappers

  // ---------------------------------------------------------------------------------------------
  // split(sep)
  // ---------------------------------------------------------------------------------------------

  /** `s.split(sep)` for a one-character separator: never empty (`"".split(",") == [""]`), one more
      piece than there are separators, and no piece contains the separator. */
  function Split(s: string, sep: char): (pieces: seq<string>)
    ensures |pieces| >= 1
    ensures forall k :: 0 <= k < |pieces| ==> sep !in pieces[k]
    decreases |s|
  {
    if |s| == 0 then [""]
    else
      var rest := Split(s[1..], sep);
      if s[0] == sep then [""] + rest
      else [[s[0]] + rest[0]] + rest[1..]
  }

  /** `pieces.join(sep)`, the inverse of `Split`. */
  function Join(pieces: seq<string>, sep: char): string
  {
    if |pieces| == 0 then ""
    else if |pieces| == 1 then pieces[0]
    else pieces[0] + [sep] + Join(pieces[1..], sep)
  }

  /** Prepending a unit to the first piece prepends it to the joined text. */
  lemma JoinConsFirst(c: char, first: string, tail: seq<string>, sep: char)
    ensures Join([[c] + first] + tail, sep) == [c] + Join([first] + tail, sep)
  {
    if |tail| > 0 {
      assert ([[c] + first] + tail)[1..] == tail;
      assert ([first] + tail)[1..] == tail;
    }
  }

  /** Joining the pieces of a split with the same separator gives the original string back. */
  lemma {:induction false} JoinSplit(s: string, sep: char)
    ensures Join(Split(s, sep), sep) == s
    decreases |s|
  {
    if |s| > 0 {
      var rest := Split(s[1..], sep);
      JoinSplit(s[1..], sep);
      assert s == [s[0]] + s[1..];
      if s[0] == sep {
        assert Split(s, sep) == [""] + rest;
        assert ([""] + rest)[1..] == rest;
      } else {
        assert Split(s, sep) == [[s[0]] + rest[0]] + rest[1..];
        assert [rest[0]] + rest[1..] == rest;
        JoinConsFirst(s[0], rest[0], rest[1..], sep);
      }
    }
  }

  /** There is one more piece than there are separators in the string. */
  lemma {:induction false} SplitCount(s: string, sep: char)
    ensures |Split(s, sep)| == multiset(s)[sep] + 1
    decreases |s|
  {
    if |s| > 0 {
      SplitCount(s[1..], sep);
      assert s == [s[0]] + s[1..];
      assert multiset(s) == multiset{s[0]} + multiset(s[1..]);
    }
  }

  /** Every unit of every piece comes from the split string. */
  lemma {:induction false} SplitPiecesFromSource(s: string, sep: char, c: char)
    requires c !in s
    ensures forall k :: 0 <= k < |Split(s, sep)| ==> c !in Split(s, sep)[k]
    decreases |s|
  {
    if |s| > 0 {
      assert c !in s[1..];
      SplitPiecesFromSource(s[1..], sep, c);
      var rest := Split(s[1..], sep);
      if s[0] != sep {
        assert Split(s, sep) == [[s[0]] + rest[0]] + rest[1..];
        assert forall k :: 1 <= k < |Split(s, sep)| ==> Split(s, sep)[k] == rest[k];
      } else {
        assert forall k :: 1 <= k < |Split(s, sep)| ==> Split(s, sep)[k] == rest[k - 1];
      }
    }
  }

  /** A string without the separator splits into itself alone. */
  lemma {:induction false} SplitWithoutSeparator(s: string, sep: char)
    requires sep !in s
    ensures Split(s, sep) == [s]
    decreases |s|
  {
    if |s| > 0 {
      assert sep !in s[1..];
      SplitWithoutSeparator(s[1..], sep);
      assert [s[0]] + s[1..] == s;
    }
  }

  // ---------------------------------------------------------------------------------------------
  // trim()
  // ---------------------------------------------------------------------------------------------

  /** The code units that `trim` removes: ECMAScript WhiteSpace and LineTerminator. */
  predicate IsTrimmable(c: char)
  {
    || c == '\t' || c == '\U{000B}' || c == '\U{000C}' || c == ' ' || c == '\U{00A0}' || c == '\U{FEFF}'
    || c == '\U{1680}' || ('\U{2000}' <= c <= '\U{200A}') || c == '\U{202F}' || c == '\U{205F}'
    || c == '\U{3000}'
    || c == '\n' || c == '\r' || c == '\U{2028}' || c == '\U{2029}'
  }

  /** Drops the leading trimmable code units: what remains is a suffix of `s` that starts with a
      non-trimmable unit, and everything dropped was trimmable. */
  function TrimStart(s: string): (r: string)
    ensures |r| <= |s| && r == s[|s| - |r|..]
    ensures r == [] || !IsTrimmable(r[0])
    ensures forall k :: 0 <= k < |s| - |r| ==> IsTrimmable(s[k])
    decreases |s|
  {
    if |s| > 0 && IsTrimmable(s[0]) then TrimStart(s[1..]) else s
  }

  /** Drops the trailing trimmable code units: what remains is a prefix of `s` that ends with a
      non-trimmable unit, and everything dropped was trimmable. */
  function TrimEnd(s: string): (r: string)
    ensures |r| <= |s| && r == s[..|r|]
    ensures r == [] || !IsTrimmable(r[|r| - 1])
    ensures forall k :: |r| <= k < |s| ==> IsTrimmable(s[k])
    decreases |s|
  {
    if |s| > 0 && IsTrimmable(s[|s| - 1]) then TrimEnd(s[..|s| - 1]) else s
  }

  /** `s.trim()`. */
  function Trim(s: string): string
  {
    TrimEnd(TrimStart(s))
  }

  /** The result of `trim` is a piece of `s` whose first and last units are not trimmable, and
      whose removed borders were entirely trimmable. */
  lemma TrimIsInnerPiece(s: string)
    ensures var r := Trim(s); var start := |s| - |TrimStart(s)|;
      && start + |r| <= |s| && r == s[start..start + |r|]
      && (r == [] || (!IsTrimmable(r[0]) && !IsTrimmable(r[|r| - 1])))
      && (forall k :: 0 <= k < start ==> IsTrimmable(s[k]))
      && (forall k :: start + |r| <= k < |s| ==> IsTrimmable(s[k]))
  {
    var t := TrimStart(s);
    var r := TrimEnd(t);
    var start := |s| - |t|;
    assert t == s[start..];
    assert r == t[..|r|];
    assert r == s[start..start + |r|];
    forall k | start + |r| <= k < |s| ensures IsTrimmable(s[k]) {
      assert s[k] == t[k - start];
    }
  }

  /** `trim` introduces no unit that was not in the string. */
  lemma TrimFromSource(s: string, c: char)
    requires c !in s
    ensures c !in Trim(s)
  {
    TrimIsInnerPiece(s);
    var start := |s| - |TrimStart(s)|;
    assert Trim(s) == s[start..start + |Trim(s)|];
  }

  /** A string with no trimmable unit at either end is left as it is by `trim`. */
  lemma TrimKeepsInner(s: string)
    requires s == [] || (!IsTrimmable(s[0]) && !IsTrimmable(s[|s| - 1]))
    ensures Trim(s) == s
  {
  }

  // ---------------------------------------------------------------------------------------------
  // includes / startsWith / indexOf
  // ---------------------------------------------------------------------------------------------

  /** `pat` occurs in `s` at position `i`. */
  predicate MatchesAt(s: string, pat: string, i: int)
  {
    0 <= i && i + |pat| <= |s| && s[i..i + |pat|] == pat
  }

  /** The first occurrence of `pat` at or after `from`, if any. This is `s.indexOf(pat, from)` for
      `from <= |s|`; for an empty pattern and `from > |s|` JavaScript clamps `from` to `|s|` and
      finds `|s|`, which this search (only ever started at 0 here) does not do. */
  function IndexOfFrom(s: string, pat: string, from: nat): (r: Option<nat>)
    ensures r.Some? ==> from <= r.value && MatchesAt(s, pat, r.value)
    ensures r.Some? ==> forall j :: from <= j < r.value ==> !MatchesAt(s, pat, j)
    ensures r.None? ==> forall j :: from <= j ==> !MatchesAt(s, pat, j)
    decreases |s| - from
  {
    if from + |pat| > |s| then None
    else if s[from..from + |pat|] == pat then Some(from)
    else IndexOfFrom(s, pat, from + 1)
  }

  /** `s.indexOf(pat)`. */
  function IndexOf(s: string, pat: string): Option<nat>
  {
    IndexOfFrom(s, pat, 0)
  }

  /** `s.includes(pat)`. */
  predicate Includes(s: string, pat: string)
  {
    IndexOf(s, pat).Some?
  }

  /** `includes` holds exactly when the pattern occurs somewhere in the string. */
  lemma IncludesMeansOccurs(s: string, pat: string)
    ensures Includes(s, pat) <==> exists i :: MatchesAt(s, pat, i)
  {
  }

  /** `includes` of a one-unit pattern is membership of that unit. */
  lemma IncludesUnit(s: string, c: char)
    ensures Includes(s, [c]) <==> c in s
  {
    if c in s {
      var i :| 0 <= i < |s| && s[i] == c;
      assert MatchesAt(s, [c], i);
    }
    if Includes(s, [c]) {
      var i := IndexOf(s, [c]).value;
      assert s[i..i + 1] == [c];
      assert s[i] == c;
    }
  }

  /** `s.startsWith(prefix)`. */
  predicate StartsWith(s: string, prefix: string)
  {
    |prefix| <= |s| && s[..|prefix|] == prefix
  }

  // ---------------------------------------------------------------------------------------------
  // replace(pattern: string, replacement: string)
  // ---------------------------------------------------------------------------------------------

  /** GetSubstitution for a string pattern (no capture groups): `$$` gives `$`, `$&` the matched
      text, `` $` `` the text before the match, `$'` the text after it; any other `$` is literal. */
  function Substitution(replacement: string, before: string, matched: string, after: string): string
    decreases |replacement|
  {
    if |replacement| == 0 then ""
    else if |replacement| >= 2 && replacement[0] == '$' && replacement[1] in "$&`'" then
      var expansion :=
        if replacement[1] == '$' then "$"
        else if replacement[1] == '&' then matched
        else if replacement[1] == '`' then before
        else after;
      expansion + Substitution(replacement[2..], before, matched, after)
    else
      [replacement[0]] + Substitution(replacement[1..], before, matched, after)
  }

  /** A replacement without `$` is inserted verbatim. */
  lemma {:induction false} SubstitutionVerbatim(replacement: string, before: string, matched: string, after: string)
    requires '$' !in replacement
    ensures Substitution(replacement, before, matched, after) == replacement
    decreases |replacement|
  {
    if |replacement| > 0 {
      assert replacement[0] != '$';
      assert '$' !in replacement[1..];
      SubstitutionVerbatim(replacement[1..], before, matched, after);
      assert [replacement[0]] + replacement[1..] == replacement;
    }
  }

  /** `s.replace(pattern, replacement)` with a string pattern: only the FIRST occurrence of the
      pattern is replaced; a string without the pattern is returned unchanged. */
  function ReplaceFirst(s: string, pattern: string, replacement: string): (r: string)
    ensures IndexOf(s, pattern).None? ==> r == s
  {
    match IndexOf(s, pattern)
    case None => s
    case Some(i) =>
      s[..i] + Substitution(replacement, s[..i], pattern, s[i + |pattern|..]) + s[i + |pattern|..]
  }

  /** With a `$`-free replacement, the first occurrence is swapped for the replacement and the text
      after it is kept verbatim, including any later occurrences of the pattern. */
  lemma ReplaceFirstSplices(s: string, pattern: string, replacement: string)
    requires '$' !in replacement
    requires Includes(s, pattern)
    ensures var i := IndexOf(s, pattern).value;
      && ReplaceFirst(s, pattern, replacement) == s[..i] + replacement + s[i + |pattern|..]
      && forall j :: 0 <= j < i ==> !MatchesAt(s, pattern, j)
  {
    var i := IndexOf(s, pattern).value;
    SubstitutionVerbatim(replacement, s[..i], pattern, s[i + |pattern|..]);
  }
}
