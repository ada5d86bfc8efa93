/**
 * The string-casing helpers used to build file names and shell variable
 * names: kebab-case to snake_case and PascalCase, routes to camel case,
 * spaces to PascalCase, capitalising the first character, and prefixing.
 *
 * Case mapping is the ASCII part of the invariant culture's mapping.
 * `Split` follows the runtime's `string.Split(char)`: `k` separators give
 * `k + 1` segments, empty ones included.
 */
module StringExtensions {
  import opened Wrappers
  import Sequences

  // ---------------------------------------------------------------------------
  // Characters
  // ---------------------------------------------------------------------------

  predicate IsAsciiLower(c: char) { 'a' <= c <= 'z' }

  predicate IsAsciiUpper(c: char) { 'A' <= c <= 'Z' }

  /** `char.ToUpperInvariant`, restricted to ASCII letters. */
  function UpperChar(c: char): (r: char)
    ensures !IsAsciiLower(r)
    ensures IsAsciiLower(c) ==> IsAsciiUpper(r) && r as int == c as int - 32
    ensures !IsAsciiLower(c) ==> r == c
  {
    if IsAsciiLower(c) then (c as int - 32) as char else c
  }

  /** `char.ToLowerInvariant`, restricted to ASCII letters. */
  function LowerChar(c: char): (r: char)
    ensures !IsAsciiUpper(r)
    ensures IsAsciiUpper(c) ==> IsAsciiLower(r) && r as int == c as int + 32
    ensures !IsAsciiUpper(c) ==> r == c
  {
    if IsAsciiUpper(c) then (c as int + 32) as char else c
  }

  // ---------------------------------------------------------------------------
  // Whole-string primitives of the runtime
  // ---------------------------------------------------------------------------

  /** `string.ToLowerInvariant()`. */
  function ToLower(s: string): (r: string)
    ensures |r| == |s|
    ensures forall i :: 0 <= i < |s| ==> r[i] == LowerChar(s[i])
  {
    seq(|s|, i requires 0 <= i < |s| => LowerChar(s[i]))
  }

  /** `string.Replace(from, to)` for one-character strings `from` and `to`. */
  function Replace(s: string, from: char, to: char): (r: string)
    ensures |r| == |s|
    ensures forall i :: 0 <= i < |s| ==> r[i] == if s[i] == from then to else s[i]
  {
    seq(|s|, i requires 0 <= i < |s| => if s[i] == from then to else s[i])
  }

  /** Ordinal `string.StartsWith(prefix)`. */
  predicate StartsWith(s: string, prefix: string) {
    |prefix| <= |s| && s[..|prefix|] == prefix
  }

  predicate EndsWith(s: string, suffix: string) {
    |suffix| <= |s| && s[|s| - |suffix|..] == suffix
  }

  /** Number of occurrences of `c` in `s`. */
  function Count(s: string, c: char): nat {
    if s == [] then 0 else (if s[0] == c then 1 else 0) + Count(s[1..], c)
  }

  /** `string.Split(sep)`: the maximal separator-free pieces between separators. */
  function Split(s: string, sep: char): (parts: seq<string>)
    ensures |parts| == Count(s, sep) + 1
    ensures forall k :: 0 <= k < |parts| ==> sep !in parts[k]
  {
    if s == [] then [""]
    else
      var rest := Split(s[1..], sep);
      if s[0] == sep then [""] + rest
      else [[s[0]] + rest[0]] + rest[1..]
  }

  /** `string.Join(sep, parts)`. */
  function JoinWith(parts: seq<string>, sep: string): string {
    if |parts| == 0 then ""
    else if |parts| == 1 then parts[0]
    else parts[0] + sep + JoinWith(parts[1..], sep)
  }

  /** Joining one more part adds the separator and that part. */
  lemma {:induction false} JoinWithSnoc(parts: seq<string>, last: string, sep: string)
    requires parts != []
    ensures JoinWith(parts + [last], sep) == JoinWith(parts, sep) + sep + last
    decreases |parts|
  {
    var joined := parts + [last];
    assert joined[1..] == parts[1..] + [last];
    if |parts| > 1 {
      JoinWithSnoc(parts[1..], last, sep);
      var rest := JoinWith(parts[1..], sep);
      assert parts[0] + sep + (rest + sep + last) == (parts[0] + sep + rest) + sep + last;
    }
  }

  /** `string.Concat(parts)`. */
  function Concat(parts: seq<string>): string {
    if parts == [] then "" else parts[0] + Concat(parts[1..])
  }

  /** The filter applied by `StringSplitOptions.RemoveEmptyEntries`. */
  function NonEmptyEntries(parts: seq<string>): (r: seq<string>)
    ensures forall k :: 0 <= k < |r| ==> r[k] != ""
  {
    if parts == [] then []
    else (if parts[0] == "" then [] else [parts[0]]) + NonEmptyEntries(parts[1..])
  }

  predicate AllNonEmpty(parts: seq<string>) {
    forall k :: 0 <= k < |parts| ==> parts[k] != ""
  }

  /** Joining the segments of a split with the separator gives back the string. */
  lemma {:induction false} SplitJoinRoundTrip(s: string, sep: char)
    ensures JoinWith(Split(s, sep), [sep]) == s
  {
    if s != [] {
      var rest := Split(s[1..], sep);
      SplitJoinRoundTrip(s[1..], sep);
      if s[0] == sep {
        assert ([""] + rest)[1..] == rest;
      } else if |rest| > 1 {
        assert ([[s[0]] + rest[0]] + rest[1..])[1..] == rest[1..];
      }
    }
  }

  // ---------------------------------------------------------------------------
  // The helpers of the source
  // ---------------------------------------------------------------------------

  /**
   * `CapitalizeFirstCharacter`: upper-cases the first character. The source
   * slices `str[0..1]`, which throws on the empty string.
   */
  function CapitalizeFirstCharacter(s: string): (r: string)
    requires |s| > 0
    ensures |r| == |s| && r[1..] == s[1..]
    ensures r[0] == UpperChar(s[0]) && !IsAsciiLower(r[0])
    ensures !IsAsciiLower(s[0]) ==> r == s
  {
    [UpperChar(s[0])] + s[1..]
  }

  lemma CapitalizeIdempotent(s: string)
    requires |s| > 0
    ensures CapitalizeFirstCharacter(CapitalizeFirstCharacter(s)) == CapitalizeFirstCharacter(s)
  {
  }

  /** Capitalises every segment of a list of non-empty segments. */
  function MapCapitalize(parts: seq<string>): (r: seq<string>)
    requires AllNonEmpty(parts)
    ensures |r| == |parts|
  {
    if parts == [] then [] else [CapitalizeFirstCharacter(parts[0])] + MapCapitalize(parts[1..])
  }

  /** `ConvertKebabCaseToSnakeCase`: hyphens become underscores, the rest is lower-cased. */
  function ConvertKebabCaseToSnakeCase(s: string): (r: string)
    ensures |r| == |s|
    ensures forall i :: 0 <= i < |s| ==> r[i] == if s[i] == '-' then '_' else LowerChar(s[i])
    ensures '-' !in r
    ensures forall i :: 0 <= i < |r| ==> !IsAsciiUpper(r[i])
  {
    ToLower(Replace(s, '-', '_'))
  }

  lemma SnakeCaseIdempotent(s: string)
    ensures ConvertKebabCaseToSnakeCase(ConvertKebabCaseToSnakeCase(s)) == ConvertKebabCaseToSnakeCase(s)
  {
    var once := ConvertKebabCaseToSnakeCase(s);
    var twice := ConvertKebabCaseToSnakeCase(once);
    forall i | 0 <= i < |s| ensures twice[i] == once[i] {
      assert once[i] != '-';
    }
  }

  /** `Prefix`: puts `prefix` in front of `s` unless `s` already starts with it. */
  function Prefix(s: string, prefix: string): (r: string)
    ensures StartsWith(r, prefix)
    ensures StartsWith(s, prefix) ==> r == s
    ensures !StartsWith(s, prefix) ==> r == prefix + s
  {
    if StartsWith(s, prefix) then s else prefix + s
  }

  lemma PrefixIdempotent(s: string, prefix: string)
    ensures Prefix(Prefix(s, prefix), prefix) == Prefix(s, prefix)
  {
  }

  // ---------------------------------------------------------------------------
  // The segment converters, against a character-level reference
  // ---------------------------------------------------------------------------

  /**
   * Reference definition of "capitalise each segment and drop the
   * separators": walks `s` once, removing every `sep` and upper-casing the
   * first character after a separator (or at the start when `atStart`).
   */
  function CapitalizeAfter(s: string, sep: char, atStart: bool): string {
    if s == [] then []
    else if s[0] == sep then CapitalizeAfter(s[1..], sep, true)
    else [if atStart then UpperChar(s[0]) else s[0]] + CapitalizeAfter(s[1..], sep, false)
  }

  lemma {:induction false} CapitalizeAfterShape(s: string, sep: char, atStart: bool)
    requires !IsAsciiUpper(sep)
    ensures sep !in CapitalizeAfter(s, sep, atStart)
    ensures |CapitalizeAfter(s, sep, atStart)| == |s| - Count(s, sep)
  {
    if s != [] {
      CapitalizeAfterShape(s[1..], sep, true);
      CapitalizeAfterShape(s[1..], sep, false);
    }
  }

  /** The separator-free reading of a string's split, capitalised and concatenated. */
  function CapitalizedSegments(parts: seq<string>): string {
    Concat(MapCapitalize(NonEmptyEntries(parts)))
  }

  lemma CapitalizedSegmentsCons(head: string, tail: seq<string>)
    ensures head == "" ==> CapitalizedSegments([head] + tail) == CapitalizedSegments(tail)
    ensures head != "" ==> CapitalizedSegments([head] + tail) == CapitalizeFirstCharacter(head) + CapitalizedSegments(tail)
  {
    assert ([head] + tail)[1..] == tail;
    if head != "" {
      var entries := NonEmptyEntries(tail);
      assert NonEmptyEntries([head] + tail) == [head] + entries;
      assert ([head] + entries)[1..] == entries;
      var caps := MapCapitalize([head] + entries);
      assert caps == [CapitalizeFirstCharacter(head)] + MapCapitalize(entries);
      assert caps[1..] == MapCapitalize(entries);
      assert Concat(caps) == caps[0] + Concat(caps[1..]);
    } else {
      assert NonEmptyEntries([head] + tail) == [] + NonEmptyEntries(tail);
      assert [] + NonEmptyEntries(tail) == NonEmptyEntries(tail);
    }
  }

  /** The step of `SplitCapitalizeIsCapitalizeAfter` when `s` starts with the separator. */
  lemma SplitCapitalizeAtSeparator(s: string, sep: char)
    requires s != [] && s[0] == sep
    requires CapitalizedSegments(Split(s[1..], sep)) == CapitalizeAfter(s[1..], sep, true)
    ensures CapitalizedSegments(Split(s, sep)) == CapitalizeAfter(s, sep, true)
    ensures Split(s, sep)[0] + CapitalizedSegments(Split(s, sep)[1..]) == CapitalizeAfter(s, sep, false)
  {
    var rest := Split(s[1..], sep);
    assert Split(s, sep) == [""] + rest;
    CapitalizedSegmentsCons("", rest);
    assert ([""] + rest)[1..] == rest;
  }

  /** The step of `SplitCapitalizeIsCapitalizeAfter` when `s` starts with another character. */
  lemma SplitCapitalizeAtOther(s: string, sep: char)
    requires s != [] && s[0] != sep
    requires Split(s[1..], sep)[0] + CapitalizedSegments(Split(s[1..], sep)[1..]) == CapitalizeAfter(s[1..], sep, false)
    ensures CapitalizedSegments(Split(s, sep)) == CapitalizeAfter(s, sep, true)
    ensures Split(s, sep)[0] + CapitalizedSegments(Split(s, sep)[1..]) == CapitalizeAfter(s, sep, false)
  {
    var rest := Split(s[1..], sep);
    var first := rest[0];
    var head := [s[0]] + first;
    var tail := CapitalizedSegments(rest[1..]);
    assert Split(s, sep) == [head] + rest[1..];
    assert ([head] + rest[1..])[1..] == rest[1..];
    CapitalizedSegmentsCons(head, rest[1..]);
    assert head[1..] == first;
    Sequences.Assoc([UpperChar(s[0])], first, tail);
    Sequences.Assoc([s[0]], first, tail);
  }

  /**
   * Capitalising the non-empty segments of a split and concatenating them
   * is the one-pass reference. The second clause is the invariant for a
   * string whose first segment is not capitalised.
   */
  lemma {:induction false} SplitCapitalizeIsCapitalizeAfter(s: string, sep: char)
    ensures CapitalizedSegments(Split(s, sep)) == CapitalizeAfter(s, sep, true)
    ensures Split(s, sep)[0] + CapitalizedSegments(Split(s, sep)[1..]) == CapitalizeAfter(s, sep, false)
  {
    if s == [] {
      assert [""][1..] == [];
    } else {
      SplitCapitalizeIsCapitalizeAfter(s[1..], sep);
      if s[0] == sep {
        SplitCapitalizeAtSeparator(s, sep);
      } else {
        SplitCapitalizeAtOther(s, sep);
      }
    }
  }

  lemma {:induction false} NonEmptyEntriesOfNonEmpty(parts: seq<string>)
    requires AllNonEmpty(parts)
    ensures NonEmptyEntries(parts) == parts
  {
    if parts != [] {
      NonEmptyEntriesOfNonEmpty(parts[1..]);
    }
  }

  /**
   * Direct statement of "no segment of the split is empty": the string is
   * non-empty, neither starts nor ends with `sep`, and has no two adjacent
   * separators.
   */
  predicate NoEmptySegment(s: string, sep: char) {
    && |s| > 0 && s[0] != sep && s[|s| - 1] != sep
    && forall i :: 0 <= i < |s| - 1 && s[i] == sep ==> s[i + 1] != sep
  }

  lemma {:induction false} NoEmptySegmentIff(s: string, sep: char)
    ensures AllNonEmpty(Split(s, sep)) <==> NoEmptySegment(s, sep)
    decreases |s|
  {
    if s == [] || s[0] == sep {
      assert Split(s, sep)[0] == "";
    } else {
      var rest := s[1..];
      var t := Split(rest, sep);
      var parts := [[s[0]] + t[0]] + t[1..];
      assert Split(s, sep) == parts;
      if AllNonEmpty(t[1..]) {
        forall k | 0 <= k < |parts| ensures parts[k] != "" {
          if k > 0 { assert parts[k] == t[1..][k - 1]; }
        }
      }
      if AllNonEmpty(parts) {
        forall k | 0 <= k < |t[1..]| ensures t[1..][k] != "" {
          assert parts[k + 1] == t[1..][k];
        }
      }
      if rest == [] {
        assert t[1..] == [];
      } else if rest[0] == sep {
        var r2 := rest[1..];
        assert t == [""] + Split(r2, sep);
        assert t[1..] == Split(r2, sep);
        NoEmptySegmentIff(r2, sep);
        if NoEmptySegment(s, sep) {
          assert |r2| > 0;
          assert r2[0] != sep by { assert s[1] == sep && s[2] == r2[0]; }
          assert r2[|r2| - 1] == s[|s| - 1];
          forall i | 0 <= i < |r2| - 1 && r2[i] == sep ensures r2[i + 1] != sep {
            assert s[i + 2] == r2[i] && s[i + 3] == r2[i + 1];
          }
        }
        if NoEmptySegment(r2, sep) {
          forall i | 0 <= i < |s| - 1 && s[i] == sep ensures s[i + 1] != sep {
            if i >= 2 {
              assert s[i] == r2[i - 2] && s[i + 1] == r2[i - 1];
            }
          }
        }
      } else {
        assert t[0] != "" by { assert t[0][0] == rest[0]; }
        assert AllNonEmpty(t) <==> AllNonEmpty(t[1..]) by {
          assert forall k :: 1 <= k < |t| ==> t[k] == t[1..][k - 1];
        }
        NoEmptySegmentIff(rest, sep);
        if NoEmptySegment(s, sep) {
          forall i | 0 <= i < |rest| - 1 && rest[i] == sep ensures rest[i + 1] != sep {
            assert s[i + 1] == rest[i] && s[i + 2] == rest[i + 1];
          }
        }
        if NoEmptySegment(rest, sep) {
          forall i | 0 <= i < |s| - 1 && s[i] == sep ensures s[i + 1] != sep {
            assert i >= 1;
            assert s[i] == rest[i - 1] && s[i + 1] == rest[i];
          }
        }
      }
    }
  }

  /** `ConvertRouteToCamelCase`: never fails, since empty segments are dropped. */
  function ConvertRouteToCamelCase(s: string): (r: string)
    ensures r == CapitalizeAfter(s, '/', true)
    ensures '/' !in r
    ensures |r| == |s| - Count(s, '/')
  {
    SplitCapitalizeIsCapitalizeAfter(s, '/');
    CapitalizeAfterShape(s, '/', true);
    Concat(MapCapitalize(NonEmptyEntries(Split(s, '/'))))
  }

  /**
   * `ConvertSpacesToPascalCase`. `None` models the exception an empty
   * segment raises in `CapitalizeFirstCharacter`.
   */
  function ConvertSpacesToPascalCase(s: string): (r: Option<string>)
    ensures r.Some? <==> NoEmptySegment(s, ' ')
    ensures r.Some? ==> r.value == CapitalizeAfter(s, ' ', true)
    ensures r.Some? ==> ' ' !in r.value && |r.value| == |s| - Count(s, ' ')
  {
    var parts := Split(s, ' ');
    NoEmptySegmentIff(s, ' ');
    if AllNonEmpty(parts) then
      NonEmptyEntriesOfNonEmpty(parts);
      SplitCapitalizeIsCapitalizeAfter(s, ' ');
      CapitalizeAfterShape(s, ' ', true);
      Some(Concat(MapCapitalize(parts)))
    else
      None
  }

  /** One segment of `ConvertKebabCaseToPascalCase`: capitalised, dots made underscores. */
  function MapPascalSegment(parts: seq<string>): (r: seq<string>)
    requires AllNonEmpty(parts)
    ensures |r| == |parts|
  {
    if parts == [] then []
    else [Replace(CapitalizeFirstCharacter(parts[0]), '.', '_')] + MapPascalSegment(parts[1..])
  }

  lemma ReplaceAppend(a: string, b: string, from: char, to: char)
    ensures Replace(a + b, from, to) == Replace(a, from, to) + Replace(b, from, to)
  {
    var lhs, rhs := Replace(a + b, from, to), Replace(a, from, to) + Replace(b, from, to);
    forall i | 0 <= i < |a + b| ensures lhs[i] == rhs[i] {
      if i < |a| { assert (a + b)[i] == a[i]; } else { assert (a + b)[i] == b[i - |a|]; }
    }
  }

  lemma {:induction false} MapPascalSegmentIsReplace(parts: seq<string>)
    requires AllNonEmpty(parts)
    ensures Concat(MapPascalSegment(parts)) == Replace(Concat(MapCapitalize(parts)), '.', '_')
  {
    if parts != [] {
      MapPascalSegmentIsReplace(parts[1..]);
      ReplaceAppend(CapitalizeFirstCharacter(parts[0]), Concat(MapCapitalize(parts[1..])), '.', '_');
    }
  }

  /**
   * `ConvertKebabCaseToPascalCase`. `None` models the exception an empty
   * segment raises in `CapitalizeFirstCharacter`.
   */
  function ConvertKebabCaseToPascalCase(s: string): (r: Option<string>)
    ensures r.Some? <==> NoEmptySegment(s, '-')
    ensures r.Some? ==> r.value == Replace(CapitalizeAfter(s, '-', true), '.', '_')
    ensures r.Some? ==> '-' !in r.value && '.' !in r.value && |r.value| == |s| - Count(s, '-')
  {
    var parts := Split(s, '-');
    NoEmptySegmentIff(s, '-');
    if AllNonEmpty(parts) then
      NonEmptyEntriesOfNonEmpty(parts);
      SplitCapitalizeIsCapitalizeAfter(s, '-');
      CapitalizeAfterShape(s, '-', true);
      MapPascalSegmentIsReplace(parts);
      Some(Concat(MapPascalSegment(parts)))
    else
      None
  }
}
