/**
 * Models of the java.lang.String operations the plugin relies on:
 * `replace(CharSequence, CharSequence)`, `replace(char, char)`,
 * `startsWith` and `split` on a one-character separator.
 */
module JavaStrings {

  /** `pat` occurs in `s` starting at index `i`. */
  predicate MatchAt(s: string, pat: string, i: nat)
  {
    i + |pat| <= |s| && s[i..i + |pat|] == pat
  }

  /** `pat` occurs somewhere in `s`. */
  predicate Occurs(s: string, pat: string)
  {
    exists i: nat | i <= |s| :: MatchAt(s, pat, i)
  }

  predicate StartsWith(s: string, prefix: string)
  {
    |prefix| <= |s| && s[..|prefix|] == prefix
  }

  predicate EndsWith(s: string, suffix: string)
  {
    |suffix| <= |s| && s[|s| - |suffix|..] == suffix
  }

  /**
   * `s.replace(pat, rep)`: scanning left to right, every occurrence of `pat`
   * that does not overlap an earlier replaced one becomes `rep`; text that
   * `rep` brings in is not scanned again.
   */
  function Replace(s: string, pat: string, rep: string): (r: string)
    requires pat != []
    ensures rep == pat ==> r == s
    decreases |s|
  {
    if |s| < |pat| then s
    else if s[..|pat|] == pat then rep + Replace(s[|pat|..], pat, rep)
    else [s[0]] + Replace(s[1..], pat, rep)
  }

  /** No occurrence of `pat` in `s` starts before index `k`. */
  predicate NoMatchBefore(s: string, pat: string, k: nat)
  {
    forall i: nat | i < k :: !MatchAt(s, pat, i)
  }

  /** Dropping the first character shifts every later match left by one. */
  lemma NoMatchBeforeTail(s: string, pat: string, k: nat)
    requires 0 < k <= |s|
    requires NoMatchBefore(s, pat, k)
    ensures NoMatchBefore(s[1..], pat, k - 1)
  {
    var t := s[1..];
    forall i: nat | i < k - 1
      ensures !MatchAt(t, pat, i)
    {
      assert !MatchAt(s, pat, i + 1);
      if i + |pat| <= |t| {
        assert t[i..i + |pat|] == s[i + 1..i + 1 + |pat|];
      }
    }
  }

  /** Where no match starts at index 0, the first character is copied and the scan goes on after it. */
  lemma ReplaceUnmatchedFirst(s: string, pat: string, rep: string)
    requires pat != [] && |pat| <= |s|
    requires !MatchAt(s, pat, 0)
    ensures Replace(s, pat, rep) == [s[0]] + Replace(s[1..], pat, rep)
  {
    assert s[0..|pat|] == s[..|pat|];
  }

  /** Text before the first place a match can start is copied unchanged. */
  lemma {:induction false} ReplaceKeepsUnmatchedPrefix(s: string, pat: string, rep: string, k: nat)
    requires pat != []
    requires k <= |s|
    requires NoMatchBefore(s, pat, k)
    ensures Replace(s, pat, rep) == s[..k] + Replace(s[k..], pat, rep)
    decreases k
  {
    if k == 0 {
      assert s[..0] == [] && s[0..] == s;
    } else if |s| < |pat| {
      assert |s[k..]| < |pat|;
      assert s[..k] + s[k..] == s;
    } else {
      NoMatchBeforeTail(s, pat, k);
      ReplaceKeepsUnmatchedPrefix(s[1..], pat, rep, k - 1);
      UnmatchedPrefixStep(s, pat, rep, k);
    }
  }

  /** One step of `ReplaceKeepsUnmatchedPrefix`: from the tail after the first character to the whole text. */
  lemma UnmatchedPrefixStep(s: string, pat: string, rep: string, k: nat)
    requires pat != [] && |pat| <= |s| && 0 < k <= |s|
    requires !MatchAt(s, pat, 0)
    requires Replace(s[1..], pat, rep) == s[1..][..k - 1] + Replace(s[1..][k - 1..], pat, rep)
    ensures Replace(s, pat, rep) == s[..k] + Replace(s[k..], pat, rep)
  {
    var t := s[1..];
    ReplaceUnmatchedFirst(s, pat, rep);
    assert t[k - 1..] == s[k..];
    assert [s[0]] + t[..k - 1] == s[..k];
  }

  /** A string in which `pat` does not occur is returned unchanged. */
  lemma ReplaceAbsent(s: string, pat: string, rep: string)
    requires pat != []
    requires !Occurs(s, pat)
    ensures Replace(s, pat, rep) == s
  {
    ReplaceKeepsUnmatchedPrefix(s, pat, rep, |s|);
    assert s[|s|..] == [];
    assert s[..|s|] == s;
  }

  /** A match at the very start is replaced, and scanning resumes after it. */
  lemma ReplaceLeadingMatch(pat: string, rest: string, rep: string)
    requires pat != []
    ensures Replace(pat + rest, pat, rep) == rep + Replace(rest, pat, rep)
  {
    var s := pat + rest;
    assert s[..|pat|] == pat;
    assert s[|pat|..] == rest;
  }

  /** A string that is exactly `pat` becomes `rep`. */
  lemma ReplaceWhole(pat: string, rep: string)
    requires pat != []
    ensures Replace(pat, pat, rep) == rep
  {
    assert pat + "" == pat;
    ReplaceLeadingMatch(pat, "", rep);
    assert rep + "" == rep;
  }

  /** A character that neither `s` nor `rep` contains is not in the result. */
  lemma {:induction false} ReplaceAvoidsChar(s: string, pat: string, rep: string, c: char)
    requires pat != [] && c !in s && c !in rep
    ensures c !in Replace(s, pat, rep)
    decreases |s|
  {
    if |s| >= |pat| {
      if s[..|pat|] == pat {
        ReplaceAvoidsChar(s[|pat|..], pat, rep, c);
      } else {
        ReplaceAvoidsChar(s[1..], pat, rep, c);
      }
    }
  }

  /** Replacing in a non-empty string by a non-empty text gives a non-empty string. */
  lemma ReplaceNonEmpty(s: string, pat: string, rep: string)
    requires pat != [] && s != [] && rep != []
    ensures Replace(s, pat, rep) != []
  {
  }

  /** Replacing distributes over a concatenation when no match starts in the left part. */
  lemma ReplaceAfterUnmatched(a: string, b: string, pat: string, rep: string)
    requires pat != []
    requires NoMatchBefore(a + b, pat, |a|)
    ensures Replace(a + b, pat, rep) == a + Replace(b, pat, rep)
  {
    ReplaceKeepsUnmatchedPrefix(a + b, pat, rep, |a|);
    assert (a + b)[..|a|] == a;
    assert (a + b)[|a|..] == b;
  }

  /** `s.replace(from, to)` on characters. */
  function ReplaceChar(s: string, from: char, to: char): (r: string)
    ensures |r| == |s|
    ensures forall i :: 0 <= i < |s| ==> r[i] == if s[i] == from then to else s[i]
  {
    if s == [] then [] else [if s[0] == from then to else s[0]] + ReplaceChar(s[1..], from, to)
  }

  /**
   * All fields of `s` between occurrences of `sep`, empty ones included:
   * k separators give k + 1 fields.
   */
  function Fields(s: string, sep: char): (r: seq<string>)
    ensures |r| >= 1
    ensures forall i :: 0 <= i < |r| ==> sep !in r[i]
    decreases |s|
  {
    if s == [] then [""]
    else
      var rest := Fields(s[1..], sep);
      if s[0] == sep then [""] + rest
      else [[s[0]] + rest[0]] + rest[1..]
  }

  /** `String.join` of `fields` with `sep` between consecutive fields. */
  function Join(fields: seq<string>, sep: char): string
  {
    if fields == [] then ""
    else if |fields| == 1 then fields[0]
    else fields[0] + [sep] + Join(fields[1..], sep)
  }

  /** Joining the fields with the separator gives the original string back. */
  lemma {:induction false} JoinFields(s: string, sep: char)
    ensures Join(Fields(s, sep), sep) == s
    decreases |s|
  {
    if s != [] {
      var rest := Fields(s[1..], sep);
      JoinFields(s[1..], sep);
      if s[0] == sep {
        assert Fields(s, sep) == [""] + rest;
        assert ([""] + rest)[1..] == rest;
      } else {
        var f := Fields(s, sep);
        assert f == [[s[0]] + rest[0]] + rest[1..];
        if |rest| == 1 {
          assert f == [[s[0]] + rest[0]];
        } else {
          assert f[1..] == rest[1..];
          assert Join(rest, sep) == rest[0] + [sep] + Join(rest[1..], sep);
        }
      }
    }
  }

  /** Fields of a string without the separator: the string itself. */
  lemma {:induction false} FieldsWithoutSeparator(s: string, sep: char)
    requires sep !in s
    ensures Fields(s, sep) == [s]
    decreases |s|
  {
    if s != [] {
      FieldsWithoutSeparator(s[1..], sep);
      assert [s[0]] + s[1..] == s;
    }
  }

  /** `fs` with its trailing empty strings removed. */
  function DropTrailingEmpty(fs: seq<string>): (r: seq<string>)
    ensures |r| <= |fs| && r == fs[..|r|]
    ensures r == [] || r[|r| - 1] != ""
    ensures forall i :: |r| <= i < |fs| ==> fs[i] == ""
    decreases |fs|
  {
    if fs != [] && fs[|fs| - 1] == "" then DropTrailingEmpty(fs[..|fs| - 1]) else fs
  }

  /**
   * `s.split(String.valueOf(sep))`: a string without the separator gives
   * itself; otherwise the fields, with trailing empty fields removed.
   */
  function Split(s: string, sep: char): (r: seq<string>)
    ensures |r| <= |Fields(s, sep)| && r == Fields(s, sep)[..|r|]
  {
    if sep !in s then
      FieldsWithoutSeparator(s, sep);
      [s]
    else DropTrailingEmpty(Fields(s, sep))
  }

  /** `split(":")` of `group:artifact:version` with no ':' in the parts and a non-empty version. */
  lemma SplitCoordinates(group: string, artifact: string, version: string)
    requires ':' !in group && ':' !in artifact && ':' !in version && version != ""
    ensures Split(group + ":" + artifact + ":" + version, ':') == [group, artifact, version]
  {
    var s := group + ":" + artifact + ":" + version;
    FieldsWithoutSeparator(version, ':');
    FieldsWithoutSeparator(artifact, ':');
    FieldsWithoutSeparator(group, ':');
    FieldsAfterField(artifact, version, ':');
    assert artifact + ":" + version == artifact + [':'] + version;
    FieldsAfterField(group, artifact + ":" + version, ':');
    assert s == group + [':'] + (artifact + ":" + version);
    assert s[|group|] == ':';
  }

  /** A field without the separator, then the separator: one field, then the rest's fields. */
  lemma {:induction false} FieldsAfterField(field: string, rest: string, sep: char)
    requires sep !in field
    ensures Fields(field + [sep] + rest, sep) == [field] + Fields(rest, sep)
    decreases |field|
  {
    var s := field + [sep] + rest;
    if field == [] {
      assert s == [sep] + rest;
      assert s[1..] == rest;
    } else {
      assert s[1..] == field[1..] + [sep] + rest;
      FieldsAfterField(field[1..], rest, sep);
      assert [field[0]] + field[1..] == field;
    }
  }

  /**
   * Changing every `from` into a character `to` the string did not contain
   * keeps the fields: those between `to`s afterwards are those between
   * `from`s before.
   */
  lemma {:induction false} FieldsAfterReplaceChar(s: string, from: char, to: char)
    requires to !in s
    ensures Fields(ReplaceChar(s, from, to), to) == Fields(s, from)
    decreases |s|
  {
    if s != [] {
      var r := ReplaceChar(s, from, to);
      assert r[1..] == ReplaceChar(s[1..], from, to);
      FieldsAfterReplaceChar(s[1..], from, to);
    }
  }
}
