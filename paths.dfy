/** The System.IO.Path operations used to locate logo files, with Windows separators.
    A path is rooted when it starts with a separator or a drive letter and a colon, so UNC and
    device paths are rooted too; but the root of a UNC or device path is taken to be its first
    separator only, not the whole "\\server\share" prefix, and separators are not normalised. */
module Paths {
  import opened Wrappers
  import opened Text

  predicate IsDirectorySeparator(c: char) { c == '\\' || c == '/' }

  predicate IsValidDriveChar(c: char) { ('A' <= c <= 'Z') || ('a' <= c <= 'z') }

  /** Path.IsPathRooted. */
  predicate IsPathRooted(p: string) {
    || (|p| >= 1 && IsDirectorySeparator(p[0]))
    || (|p| >= 2 && IsValidDriveChar(p[0]) && p[1] == ':')
  }

  /** The length of the root of p: "\", "C:" or "C:\". */
  function RootLength(p: string): (n: nat)
    ensures n <= |p|
  {
    if |p| >= 1 && IsDirectorySeparator(p[0]) then 1
    else if |p| >= 2 && IsValidDriveChar(p[0]) && p[1] == ':' then
      (if |p| >= 3 && IsDirectorySeparator(p[2]) then 3 else 2)
    else 0
  }

  /** Path.Combine(a, b): b itself when it is rooted, otherwise b appended to a with one
      separator between them unless one is already there. */
  function Combine(a: string, b: string): string {
    if a == [] then b
    else if b == [] then a
    else if IsPathRooted(b) then b
    else if IsDirectorySeparator(a[|a| - 1]) || IsDirectorySeparator(b[0]) then a + b
    else a + "\\" + b
  }

  /** The index of the last separator of p at or after position lo. */
  function LastSeparatorFrom(p: string, lo: nat): (r: Option<nat>)
    ensures r.Some? ==> lo <= r.value < |p| && IsDirectorySeparator(p[r.value])
    ensures r.Some? ==> forall k :: r.value < k < |p| ==> !IsDirectorySeparator(p[k])
    ensures r.None? ==> forall k :: lo <= k < |p| ==> !IsDirectorySeparator(p[k])
    decreases |p|
  {
    if |p| <= lo then None
    else if IsDirectorySeparator(p[|p| - 1]) then Some(|p| - 1)
    else LastSeparatorFrom(p[..|p| - 1], lo)
  }

  /** Moves end back over separators, but not into the root. */
  function TrimSeparatorsBack(p: string, end: nat, root: nat): (e: nat)
    requires root <= end <= |p|
    ensures root <= e <= end
    decreases end
  {
    if end > root && IsDirectorySeparator(p[end - 1]) then TrimSeparatorsBack(p, end - 1, root) else end
  }

  /** Path.GetDirectoryName; "" stands for both null and the empty string. */
  function DirectoryName(p: string): (r: string)
    ensures |r| <= |p| && r == p[..|r|]
  {
    var root := RootLength(p);
    if |p| <= root then ""
    else
      var end := match LastSeparatorFrom(p, root) case Some(k) => k case None => root;
      p[..TrimSeparatorsBack(p, end, root)]
  }

  /** Path.GetFileName: what follows the last separator and the root. */
  function FileName(p: string): (r: string)
    ensures |r| <= |p| && r == p[|p| - |r|..]
    ensures forall k :: 0 <= k < |r| ==> !IsDirectorySeparator(r[k])
  {
    var start := match LastSeparatorFrom(p, 0) case Some(k) => k + 1 case None => 0;
    var root := RootLength(p);
    p[if start < root then root else start..]
  }

  /** The index of the last '.' in s. */
  function LastDot(s: string): (r: Option<nat>)
    ensures r.Some? ==> r.value < |s| && s[r.value] == '.'
    ensures r.None? ==> '.' !in s
  {
    if s == [] then None
    else if s[|s| - 1] == '.' then Some(|s| - 1)
    else
      assert s == s[..|s| - 1] + [s[|s| - 1]];
      LastDot(s[..|s| - 1])
  }

  /** Path.GetFileNameWithoutExtension. */
  function FileNameWithoutExtension(p: string): (r: string)
    ensures |r| <= |FileName(p)| && r == FileName(p)[..|r|]
  {
    var name := FileName(p);
    match LastDot(name)
    case None => name
    case Some(k) => name[..k]
  }

  /** Path.GetExtension of a non-null path: "" when the file name has no '.' or ends in one. */
  function Extension(p: string): (r: string)
    ensures r == [] || r[0] == '.'
    ensures r != [] ==> FileNameWithoutExtension(p) + r == FileName(p)
  {
    var name := FileName(p);
    match LastDot(name)
    case None => ""
    case Some(k) => if k == |name| - 1 then "" else name[k..]
  }

  /** TrimSeparatorsBack steps back over separators only, and stops at the root or after a
      character that is not a separator. */
  lemma {:induction false} TrimSkipsOnlySeparators(p: string, end: nat, root: nat)
    requires root <= end <= |p|
    ensures forall j :: TrimSeparatorsBack(p, end, root) <= j < end ==> IsDirectorySeparator(p[j])
    ensures var e := TrimSeparatorsBack(p, end, root); e == root || !IsDirectorySeparator(p[e - 1])
    decreases end
  {
    if end > root && IsDirectorySeparator(p[end - 1]) {
      TrimSkipsOnlySeparators(p, end - 1, root);
    }
  }

  /** The directory of a path ends where its last run of separators before the file name
      starts: only separators lie between the directory and the file name, and the directory
      is the root or ends in a character that is not a separator. */
  lemma DirectoryNameEndsBeforeLastSeparators(p: string)
    ensures var r := DirectoryName(p);
      r != [] ==> forall k :: |r| <= k < |p| - |FileName(p)| ==> IsDirectorySeparator(p[k])
    ensures var r := DirectoryName(p);
      r != [] ==> |r| == RootLength(p) || !IsDirectorySeparator(r[|r| - 1])
  {
    var root := RootLength(p);
    if root < |p| {
      var last := LastSeparatorFrom(p, root);
      var end := match last case Some(k) => k case None => root;
      TrimSkipsOnlySeparators(p, end, root);
      var e := TrimSeparatorsBack(p, end, root);
      assert DirectoryName(p) == p[..e];
      match last
      case Some(k) =>
        var first := LastSeparatorFrom(p, 0);
        assert first == Some(k);
        assert |FileName(p)| == |p| - (k + 1);
      case None =>
        assert e == root;
        assert |FileName(p)| == |p| - root;
    }
  }

  /** The dot LastDot finds is the last one. */
  lemma {:induction false} LastDotIsLast(s: string)
    ensures LastDot(s).Some? ==> '.' !in s[LastDot(s).value + 1..]
  {
    if s != [] && s[|s| - 1] != '.' {
      LastDotIsLast(s[..|s| - 1]);
      if LastDot(s).Some? {
        var k := LastDot(s).value;
        assert s[k + 1..] == s[..|s| - 1][k + 1..] + [s[|s| - 1]];
      }
    }
  }

  /** The file name starts right after the last separator, or at the end of the root when no
      separator follows the root; with FileName's own contract, this fixes it completely. */
  lemma FileNameStartsAfterLastSeparator(p: string)
    ensures var s := |p| - |FileName(p)|;
      s >= RootLength(p) && (s == RootLength(p) || IsDirectorySeparator(p[s - 1]))
  {
  }

  /** The name without extension is the file name cut at its last dot, or the whole file name
      when it has no dot; the extension is what follows from that dot, or "" when there is no
      dot or the dot ends the name. */
  lemma StemCutsAtLastDot(p: string)
    ensures var n, r := FileName(p), FileNameWithoutExtension(p);
      && ('.' !in n ==> r == n)
      && ('.' in n ==> |r| < |n| && n[|r|] == '.' && '.' !in n[|r| + 1..])
    ensures var n, r := FileName(p), FileNameWithoutExtension(p);
      if '.' in n && n[|n| - 1] != '.' then Extension(p) == n[|r|..] else Extension(p) == ""
  {
    LastDotIsLast(FileName(p));
  }

  /** Path.Combine always ends with its second argument. */
  lemma CombineEndsWith(a: string, b: string)
    ensures |b| <= |Combine(a, b)| && Combine(a, b)[|Combine(a, b)| - |b|..] == b
  {
  }

  /** A rooted second argument makes Path.Combine ignore the first. */
  lemma CombineRooted(a: string, b: string)
    requires IsPathRooted(b)
    ensures Combine(a, b) == b
  {
  }

  /** Joining a relative path to a, or to a\Assets, gives paths of lengths differing by
      "Assets\".Length, so they are never equal, not even ignoring case. */
  lemma {:induction false} AssetsFallbackIsLonger(a: string, b: string)
    requires b != [] && !IsPathRooted(b)
    ensures |Combine(Combine(a, "Assets"), b)| == |Combine(a, b)| + 7
  {
    var assets := Combine(a, "Assets");
    assert assets != [] && assets[|assets| - 1] == 's' by {
      if a == [] {
      } else if IsDirectorySeparator(a[|a| - 1]) {
        assert assets == a + "Assets";
      } else {
        assert assets == a + "\\" + "Assets";
      }
    }
    assert !IsDirectorySeparator(b[0]);
  }

  /** The fallback location of a uri is the primary one, ignoring case, exactly when the uri is
      rooted: Path.Combine then returns the uri for both. */
  lemma FallbackSameIffRooted(location: string, uri: string)
    requires uri != []
    ensures EqualsIgnoreCase(Combine(location, uri), Combine(Combine(location, "Assets"), uri))
        <==> IsPathRooted(uri)
  {
    if !IsPathRooted(uri) {
      AssetsFallbackIsLonger(location, uri);
    }
  }
}
