/**
 * The string built-ins the core uses: JavaScript's `startsWith`, `endsWith`,
 * `includes`, `indexOf` and `replace` with a string pattern, and Python's
 * `str.split(sep)` and `str.strip()`.
 */
module Text {
  import opened Wrappers

  predicate StartsWith(s: string, prefix: string)
  {
    |prefix| <= |s| && s[..|prefix|] == prefix
  }

  predicate EndsWith(s: string, suffix: string)
  {
    |suffix| <= |s| && s[|s| - |suffix|..] == suffix
  }

  /** A one-character prefix is the first character. */
  lemma StartsWithChar(s: string, c: char)
    ensures StartsWith(s, [c]) <==> |s| >= 1 && s[0] == c
  {
    if |s| >= 1 {
      assert s[..1] == [s[0]];
    }
  }

  /** `s.indexOf(needle)`: the first position where `needle` occurs, if any. */
  function IndexOf(s: string, needle: string): (r: Option<nat>)
    ensures r.Some? ==> r.value + |needle| <= |s| && StartsWith(s[r.value..], needle)
    ensures r.Some? ==> forall j :: 0 <= j < r.value ==> !StartsWith(s[j..], needle)
    ensures r.None? ==> forall j :: 0 <= j <= |s| ==> !StartsWith(s[j..], needle)
  {
    if StartsWith(s, needle) then Some(0)
    else if s == [] then None
    else
      var r := IndexOf(s[1..], needle);
      assert forall j :: 1 <= j <= |s| ==> s[j..] == s[1..][j - 1..];
      if r.Some? then Some(r.value + 1) else None
  }

  /** `indexOf` finds an occurrence when no earlier position starts one. */
  lemma {:induction false} IndexOfFirst(s: string, needle: string, k: nat)
    requires k <= |s| && StartsWith(s[k..], needle)
    requires forall j :: 0 <= j < k ==> !StartsWith(s[j..], needle)
    ensures IndexOf(s, needle) == Some(k)
  {
    if k > 0 {
      assert s[0..] == s;
      assert !StartsWith(s, needle);
      forall j | 0 <= j < k - 1
        ensures !StartsWith(s[1..][j..], needle)
      {
        assert s[1..][j..] == s[j + 1..];
      }
      assert s[1..][k - 1..] == s[k..];
      IndexOfFirst(s[1..], needle, k - 1);
    }
  }

  /** `s.includes(needle)`. */
  predicate Includes(s: string, needle: string)
  {
    IndexOf(s, needle).Some?
  }

  /** `includes` holds exactly when `needle` occurs at some position of `s`. */
  lemma IncludesAt(s: string, needle: string, i: nat)
    requires i + |needle| <= |s| && s[i..i + |needle|] == needle
    ensures Includes(s, needle)
  {
    assert StartsWith(s[i..], needle);
  }

  /** The empty string is included in every string, and a string in itself. */
  lemma IncludesTrivial(s: string)
    ensures Includes(s, "") && Includes(s, s)
  {
    assert StartsWith(s, "") && StartsWith(s, s);
  }

  /** `s.replace(pattern, replacement)` with a string pattern: the first occurrence only. */
  function ReplaceFirst(s: string, pattern: string, replacement: string): (r: string)
    ensures !Includes(s, pattern) ==> r == s
    ensures Includes(s, pattern) ==>
      var i := IndexOf(s, pattern).value;
      r == s[..i] + replacement + s[i + |pattern|..]
  {
    match IndexOf(s, pattern)
    case None => s
    case Some(i) => s[..i] + replacement + s[i + |pattern|..]
  }

  /** `sep.join(parts)` / `parts.join(sep)`. */
  function Join(parts: seq<string>, sep: string): string
  {
    if |parts| == 0 then ""
    else if |parts| == 1 then parts[0]
    else parts[0] + sep + Join(parts[1..], sep)
  }

  /** Python's `s.split(sep)` for a one-character separator. */
  function Split(s: string, sep: char): (parts: seq<string>)
    ensures |parts| > 0
  {
    if s == [] then [""]
    else
      var rest := Split(s[1..], sep);
      if s[0] == sep then [""] + rest
      else [[s[0]] + rest[0]] + rest[1..]
  }

  /** `split` gives one more part than there are separators. */
  lemma {:induction false} SplitCount(s: string, sep: char)
    ensures |Split(s, sep)| == multiset(s)[sep] + 1
  {
    if s != [] {
      SplitCount(s[1..], sep);
      assert s == [s[0]] + s[1..];
      assert multiset(s) == multiset{s[0]} + multiset(s[1..]);
    }
  }

  /** No part of `split` contains the separator. */
  lemma {:induction false} SplitParts(s: string, sep: char)
    ensures forall p :: p in Split(s, sep) ==> sep !in p
  {
    if s != [] {
      var rest := Split(s[1..], sep);
      SplitParts(s[1..], sep);
      if s[0] != sep {
        var parts := [[s[0]] + rest[0]] + rest[1..];
        assert forall p :: p in parts ==> p == [s[0]] + rest[0] || p in rest;
      }
    }
  }

  /** Joining the parts of `split` with the separator gives `s` back. */
  lemma {:induction false} SplitJoin(s: string, sep: char)
    ensures Join(Split(s, sep), [sep]) == s
  {
    if s != [] {
      var rest := Split(s[1..], sep);
      SplitJoin(s[1..], sep);
      assert s == [s[0]] + s[1..];
      if s[0] == sep {
        assert Join([""] + rest, [sep]) == [sep] + Join(rest, [sep]);
      } else {
        var parts := [[s[0]] + rest[0]] + rest[1..];
        assert parts[1..] == rest[1..];
        if |rest| > 1 {
          assert Join(rest, [sep]) == rest[0] + [sep] + Join(rest[1..], [sep]);
          assert Join(parts, [sep]) == [s[0]] + rest[0] + [sep] + Join(rest[1..], [sep]);
        }
      }
    }
  }

  /** The characters Python's `str.isspace` accepts. */
  predicate IsSpace(c: char)
  {
    ('\U{0009}' <= c <= '\U{000D}') || ('\U{001C}' <= c <= '\U{0020}')
    || c == '\U{0085}' || c == '\U{00A0}' || c == '\U{1680}'
    || ('\U{2000}' <= c <= '\U{200A}') || c == '\U{2028}' || c == '\U{2029}'
    || c == '\U{202F}' || c == '\U{205F}' || c == '\U{3000}'
  }

  /** Length of the whitespace run that starts `s`. */
  function LeadingSpace(s: string): (n: nat)
    ensures n <= |s|
    ensures forall i :: 0 <= i < n ==> IsSpace(s[i])
    ensures n < |s| ==> !IsSpace(s[n])
  {
    if s == [] || !IsSpace(s[0]) then 0 else 1 + LeadingSpace(s[1..])
  }

  /** Length of the whitespace run that ends `s`. */
  function TrailingSpace(s: string): (n: nat)
    ensures n <= |s|
    ensures forall i :: |s| - n <= i < |s| ==> IsSpace(s[i])
    ensures n < |s| ==> !IsSpace(s[|s| - n - 1])
  {
    if s == [] || !IsSpace(s[|s| - 1]) then 0 else 1 + TrailingSpace(s[..|s| - 1])
  }

  /** Python's `s.strip()`: `s` without its leading and trailing whitespace. */
  function Strip(s: string): string
  {
    var a := LeadingSpace(s);
    if a == |s| then [] else s[a..|s| - TrailingSpace(s)]
  }

  /** Stripping adds no character. */
  lemma StripKeeps(s: string, c: char)
    ensures c in Strip(s) ==> c in s
  {
    var a := LeadingSpace(s);
    if a < |s| {
      var r := Strip(s);
      if c in r {
        var k :| 0 <= k < |r| && r[k] == c;
        assert r[k] == s[a + k];
      }
    }
  }

  /** The stripped string neither starts nor ends with whitespace. */
  lemma StripEnds(s: string)
    ensures var r := Strip(s); r == [] || (!IsSpace(r[0]) && !IsSpace(r[|r| - 1]))
  {
    StripSlice(s);
    var r := Strip(s);
    if r != [] {
      assert r[0] == s[LeadingSpace(s)];
      assert r[|r| - 1] == s[|s| - TrailingSpace(s) - 1];
    }
  }

  /** Where the stripped text lies in `s`: after the leading whitespace, up to the trailing whitespace. */
  lemma StripSlice(s: string)
    ensures var a, r := LeadingSpace(s), Strip(s);
      && a + |r| <= |s| && s[a..a + |r|] == r
      && (r == [] <==> a == |s|)
      && (a < |s| ==> a + |r| == |s| - TrailingSpace(s))
  {
    var a := LeadingSpace(s);
    if a < |s| {
      var b := TrailingSpace(s);
      assert b < |s| - a by {
        assert !IsSpace(s[a]);
      }
    }
  }
}
