/** The string operations of .NET that the package indexer relies on, with ordinal semantics. */
module Text {
  import opened Wrappers

  predicate IsAsciiUpper(c: char) { 'A' <= c <= 'Z' }

  /** char.ToLowerInvariant, restricted to the ASCII letters. */
  function ToLowerChar(c: char): (r: char)
    ensures !IsAsciiUpper(r)
  {
    if IsAsciiUpper(c) then (c as int + 32) as char else c
  }

  /** string.ToLowerInvariant, character by character. */
  function ToLowerInvariant(s: string): (r: string)
    ensures |r| == |s|
  {
    if s == [] then [] else [ToLowerChar(s[0])] + ToLowerInvariant(s[1..])
  }

  predicate IsLowerCase(s: string) {
    forall i :: 0 <= i < |s| ==> !IsAsciiUpper(s[i])
  }

  lemma {:induction false} ToLowerAt(s: string, i: nat)
    requires i < |s|
    ensures ToLowerInvariant(s)[i] == ToLowerChar(s[i])
  {
    if i > 0 {
      ToLowerAt(s[1..], i - 1);
    }
  }

  /** Every lower-cased string is in lower case. */
  lemma {:induction false} ToLowerIsLowerCase(s: string)
    ensures IsLowerCase(ToLowerInvariant(s))
  {
    forall i | 0 <= i < |s|
      ensures !IsAsciiUpper(ToLowerInvariant(s)[i])
    {
      ToLowerAt(s, i);
    }
  }

  /** Lower-casing leaves a lower-case string alone, so it is idempotent. */
  lemma {:induction false} ToLowerKeepsLowerCase(s: string)
    requires IsLowerCase(s)
    ensures ToLowerInvariant(s) == s
  {
    if s != [] {
      assert IsLowerCase(s[1..]) by {
        forall i | 0 <= i < |s| - 1 ensures !IsAsciiUpper(s[1..][i]) {
          assert s[1..][i] == s[i + 1];
        }
      }
      ToLowerKeepsLowerCase(s[1..]);
    }
  }

  /** StringComparison.OrdinalIgnoreCase equality. */
  predicate EqualsIgnoreCase(a: string, b: string) {
    |a| == |b| && forall i :: 0 <= i < |a| ==> ToLowerChar(a[i]) == ToLowerChar(b[i])
  }

  /** Ordinal string.StartsWith. */
  predicate StartsWith(s: string, prefix: string) {
    |prefix| <= |s| && s[..|prefix|] == prefix
  }

  /** string.StartsWith(prefix, StringComparison.OrdinalIgnoreCase). */
  predicate StartsWithIgnoreCase(s: string, prefix: string) {
    |prefix| <= |s| && EqualsIgnoreCase(s[..|prefix|], prefix)
  }

  /** Two strings lower-case to the same string exactly when they are equal ignoring case. */
  lemma {:induction false} SameLowerIffEqualsIgnoreCase(a: string, b: string)
    ensures ToLowerInvariant(a) == ToLowerInvariant(b) <==> EqualsIgnoreCase(a, b)
  {
    if ToLowerInvariant(a) == ToLowerInvariant(b) {
      forall i | 0 <= i < |a| ensures ToLowerChar(a[i]) == ToLowerChar(b[i]) {
        ToLowerAt(a, i);
        ToLowerAt(b, i);
      }
    }
    if EqualsIgnoreCase(a, b) {
      forall i | 0 <= i < |a| ensures ToLowerInvariant(a)[i] == ToLowerInvariant(b)[i] {
        ToLowerAt(a, i);
        ToLowerAt(b, i);
      }
    }
  }

  /** char.IsWhiteSpace: the Unicode space separators, line and paragraph separators, and the
      control characters U+0009 to U+000D, U+0085. */
  predicate IsWhiteSpace(c: char) {
    || ('\t' <= c <= '\r')
    || c == ' '
    || c == '\U{85}'
    || c == '\U{A0}'
    || c == '\U{1680}'
    || ('\U{2000}' <= c <= '\U{200A}')
    || c == '\U{2028}'
    || c == '\U{2029}'
    || c == '\U{202F}'
    || c == '\U{205F}'
    || c == '\U{3000}'
  }

  /** string.IsNullOrWhiteSpace; None stands for null. */
  predicate IsNullOrWhiteSpace(s: Option<string>) {
    s.None? || forall i :: 0 <= i < |s.value| ==> IsWhiteSpace(s.value[i])
  }

  /** The white space at the start of s removed. */
  function TrimStart(s: string): (r: string)
    ensures |r| <= |s| && r == s[|s| - |r|..]
    ensures r == [] || !IsWhiteSpace(r[0])
  {
    if s != [] && IsWhiteSpace(s[0]) then TrimStart(s[1..]) else s
  }

  /** The white space at the end of s removed. */
  function TrimEnd(s: string): (r: string)
    ensures |r| <= |s| && r == s[..|r|]
    ensures r == [] || !IsWhiteSpace(r[|r| - 1])
  {
    if s != [] && IsWhiteSpace(s[|s| - 1]) then TrimEnd(s[..|s| - 1]) else s
  }

  /** string.Trim. */
  function Trim(s: string): string {
    TrimEnd(TrimStart(s))
  }

  /** Trimming the end never reaches into a prefix that ends in a non-white-space character. */
  lemma {:induction false} TrimEndBehindPrefix(p: string, s: string)
    requires p != [] && !IsWhiteSpace(p[|p| - 1])
    ensures TrimEnd(p + s) == p + TrimEnd(s)
    decreases |s|
  {
    if s != [] && IsWhiteSpace(s[|s| - 1]) {
      assert (p + s)[..|p + s| - 1] == p + s[..|s| - 1];
      TrimEndBehindPrefix(p, s[..|s| - 1]);
    } else if s == [] {
      assert p + s == p;
    }
  }

  /** The index of the first occurrence of c in s (string.IndexOf). */
  function IndexOf(s: string, c: char): (r: Option<nat>)
    ensures r.Some? ==> r.value < |s| && s[r.value] == c && c !in s[..r.value]
    ensures r.None? ==> c !in s
  {
    if s == [] then None
    else if s[0] == c then Some(0)
    else
      match IndexOf(s[1..], c)
      case None => None
      case Some(i) =>
        assert s[..i + 1] == [s[0]] + s[1..][..i];
        Some(i + 1)
  }

  /** string.Split(sep): the pieces between the occurrences of sep, in order. */
  function Split(s: string, sep: char): (pieces: seq<string>)
    ensures |pieces| >= 1
    ensures forall k :: 0 <= k < |pieces| ==> sep !in pieces[k]
    decreases |s|
  {
    match IndexOf(s, sep)
    case None => [s]
    case Some(i) => [s[..i]] + Split(s[i + 1..], sep)
  }

  /** string.Join(sep, pieces). */
  function Join(pieces: seq<string>, sep: char): string
    requires |pieces| >= 1
  {
    if |pieces| == 1 then pieces[0] else pieces[0] + [sep] + Join(pieces[1..], sep)
  }

  /** Joining the pieces of a split gives the string back. */
  lemma {:induction false} JoinSplit(s: string, sep: char)
    ensures Join(Split(s, sep), sep) == s
    decreases |s|
  {
    match IndexOf(s, sep)
    case None =>
    case Some(i) =>
      var pieces := Split(s, sep);
      var tail := Split(s[i + 1..], sep);
      assert pieces == [s[..i]] + tail;
      assert pieces[1..] == tail;
      JoinSplit(s[i + 1..], sep);
      calc {
        Join(pieces, sep);
        pieces[0] + [sep] + Join(tail, sep);
        s[..i] + [sep] + s[i + 1..];
        { assert s == s[..i] + [sep] + s[i + 1..]; }
        s;
      }
  }

  lemma {:induction false} IndexOfBehindPrefix(p: string, sep: char, rest: string)
    requires sep !in p
    ensures IndexOf(p + [sep] + rest, sep) == Some(|p|)
    decreases |p|
  {
    if p != [] {
      assert (p + [sep] + rest)[1..] == p[1..] + [sep] + rest;
      IndexOfBehindPrefix(p[1..], sep, rest);
    }
  }

  /** Splitting pieces that do not contain the separator after joining them gives them back. */
  lemma {:induction false} SplitJoin(pieces: seq<string>, sep: char)
    requires |pieces| >= 1
    requires forall k :: 0 <= k < |pieces| ==> sep !in pieces[k]
    ensures Split(Join(pieces, sep), sep) == pieces
  {
    if |pieces| > 1 {
      var rest := Join(pieces[1..], sep);
      IndexOfBehindPrefix(pieces[0], sep, rest);
      var s := pieces[0] + [sep] + rest;
      assert s[..|pieces[0]|] == pieces[0];
      assert s[|pieces[0]| + 1..] == rest;
      SplitJoin(pieces[1..], sep);
    }
  }

  /** Split yields a second piece exactly when the separator occurs. */
  lemma SecondPieceIffSeparator(s: string, sep: char)
    ensures |Split(s, sep)| > 1 <==> sep in s
  {
  }
}
