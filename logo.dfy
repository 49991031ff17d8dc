/** InitLogoPathFromUri and its local function TryToFindLogo: from the logo uri of a manifest
    to the image file, among the qualifier variants in the directory, whose pixel count is
    closest to 44 x 44. */
module LogoResolution {
  import opened Wrappers
  import opened Text
  import opened Paths

  const IntMaxValue: int := 0x7FFF_FFFF
  /** 44 * 44, the pixel count of the small logo the launcher shows. */
  const TargetPixelCount: int := 1936
  /** The largest side for which height * width stays within an int. */
  const MaxSide: int := 46340

  type Pixels = n: int | 0 <= n <= MaxSide

  datatype ImageSize = ImageSize(width: Pixels, height: Pixels)

  /** A file of a directory listing: its name, and the size in its image header, or None when
      opening or decoding it throws. The name is the file's name within its directory, so it
      contains no separator and is not rooted: then Path.GetFileName of the listed path is the
      name itself, as the filter of TryToFindLogo takes it. A file system is trusted to list
      only such names; the model does not check it. */
  datatype LogoFile = LogoFile(name: string, size: Option<ImageSize>)

  /** Directory.Exists and Directory.EnumerateFiles: the files of a directory, or None when it
      does not exist. */
  type FileSystem = string -> Option<seq<LogoFile>>

  /** Multiplying by the same natural number keeps the order. */
  lemma {:induction false} MulMonotone(a: nat, b: nat, c: nat)
    requires a <= b
    ensures a * c <= b * c && c * a <= c * b
  {
    if c > 0 {
      MulMonotone(a, b, c - 1);
      assert a * c == a * (c - 1) + a && b * c == b * (c - 1) + b;
    }
  }

  /** Math.Abs(height * width - 1936). */
  function PixelCountDiff(size: ImageSize): (d: nat)
    ensures d < IntMaxValue
  {
    var count := size.height * size.width;
    assert count <= MaxSide * MaxSide by {
      MulMonotone(size.height, MaxSide, size.width);
      MulMonotone(size.width, MaxSide, MaxSide);
    }
    if count >= TargetPixelCount then count - TargetPixelCount else TargetPixelCount - count
  }

  predicate Readable(f: LogoFile) { f.size.Some? }

  function Diff(f: LogoFile): nat
    requires Readable(f)
  {
    PixelCountDiff(f.size.value)
  }

  /** The C# null-coalescing operator x ?? fallback on a nullable bool. */
  function Coalesce(x: Option<bool>, fallback: bool): bool {
    match x
    case Some(b) => b
    case None => fallback
  }

  /** The filter of TryToFindLogo. C# binds `name?.StartsWith(prefix) ?? false && sameExtension`
      as `name?.StartsWith(prefix) ?? (false && sameExtension)`, and the file name of a listed
      file is never null, so only the prefix test decides. */
  predicate KeepsLogo(file: LogoFile, prefix: string, extension: string) {
    Coalesce(Some(StartsWithIgnoreCase(file.name, prefix)),
             false && EqualsIgnoreCase(extension, Extension(file.name)))
  }

  /** files.Where(KeepsLogo), in enumeration order. */
  function LogoCandidates(files: seq<LogoFile>, prefix: string, extension: string): (r: seq<LogoFile>)
    ensures |r| <= |files|
    ensures forall k :: 0 <= k < |r| ==> StartsWithIgnoreCase(r[k].name, prefix)
  {
    if files == [] then []
    else if KeepsLogo(files[0], prefix, extension) then [files[0]] + LogoCandidates(files[1..], prefix, extension)
    else LogoCandidates(files[1..], prefix, extension)
  }

  /** A file is a candidate exactly when its name starts with the prefix, ignoring case. */
  lemma {:induction false} CandidatesArePrefixMatches(files: seq<LogoFile>, prefix: string, extension: string)
    ensures forall f :: f in LogoCandidates(files, prefix, extension) <==>
      f in files && StartsWithIgnoreCase(f.name, prefix)
  {
    if files != [] {
      CandidatesArePrefixMatches(files[1..], prefix, extension);
      assert files == [files[0]] + files[1..];
    }
  }

  /** The extension of the uri never changes the candidates. */
  lemma {:induction false} CandidatesIgnoreExtension(files: seq<LogoFile>, prefix: string, e1: string, e2: string)
    ensures LogoCandidates(files, prefix, e1) == LogoCandidates(files, prefix, e2)
  {
    if files != [] {
      CandidatesIgnoreExtension(files[1..], prefix, e1, e2);
    }
  }

  /** Where the selection loop stops: at the first file that cannot be read or whose pixel
      count is exactly 1936, or after the last file. */
  function StopIndex(logos: seq<LogoFile>): (k: nat)
    ensures k <= |logos|
    ensures forall j :: 0 <= j < k ==> Readable(logos[j]) && Diff(logos[j]) > 0
    ensures k < |logos| ==> !Readable(logos[k]) || Diff(logos[k]) == 0
  {
    if logos == [] then 0
    else if !Readable(logos[0]) || Diff(logos[0]) == 0 then 0
    else 1 + StopIndex(logos[1..])
  }

  /** The first n files can be read. */
  predicate ReadableUpTo(s: seq<LogoFile>, n: nat)
    requires n <= |s|
  {
    forall j :: 0 <= j < n ==> Readable(s[j])
  }

  /** The index of the earliest of the first n files with the smallest difference to 1936
      pixels. */
  function ClosestIndex(s: seq<LogoFile>, n: nat): (k: nat)
    requires 0 < n <= |s| && ReadableUpTo(s, n)
    ensures k < n
    ensures forall j :: 0 <= j < n ==> Diff(s[k]) <= Diff(s[j])
    ensures forall j :: 0 <= j < k ==> Diff(s[k]) < Diff(s[j])
  {
    if n == 1 then 0
    else
      var k := ClosestIndex(s, n - 1);
      if Diff(s[n - 1]) < Diff(s[k]) then n - 1 else k
  }

  /** The selection of TryToFindLogo as an index into the candidates: an exception when the scan
      reaches a file it cannot read, None when there is no candidate, otherwise the earliest
      candidate closest to 1936 pixels among those scanned, up to the first exact match. */
  function Closest(logos: seq<LogoFile>): (r: Outcome<Option<nat>>)
    ensures r.Threw? <==> StopIndex(logos) < |logos| && !Readable(logos[StopIndex(logos)])
    ensures r.Threw? ==> r.fault == ImageUnreadable
    ensures r == Done(None) <==> logos == []
    ensures r.Done? && r.value.Some? ==>
      var k := r.value.value;
      && k < |logos| && k <= StopIndex(logos) && Readable(logos[k])
      && (forall j :: 0 <= j < |logos| && j <= StopIndex(logos) ==> Readable(logos[j]) && Diff(logos[k]) <= Diff(logos[j]))
      && (forall j :: 0 <= j < k ==> Diff(logos[k]) < Diff(logos[j]))
  {
    var stop := StopIndex(logos);
    if stop < |logos| && !Readable(logos[stop]) then Threw(ImageUnreadable)
    else if logos == [] then Done(None)
    else Done(Some(ClosestIndex(logos, if stop < |logos| then stop + 1 else |logos|)))
  }

  /** When every candidate can be read, the choice is the earliest closest candidate of all:
      stopping at an exact match loses nothing. */
  lemma {:induction false} ClosestOverAllReadable(logos: seq<LogoFile>)
    requires logos != [] && ReadableUpTo(logos, |logos|)
    ensures Closest(logos).Done? && Closest(logos).value.Some?
    ensures var k := Closest(logos).value.value;
      && k < |logos|
      && (forall j :: 0 <= j < |logos| ==> Diff(logos[k]) <= Diff(logos[j]))
      && (forall j :: 0 <= j < k ==> Diff(logos[k]) < Diff(logos[j]))
  {
    var stop := StopIndex(logos);
    var k := Closest(logos).value.value;
    if stop < |logos| {
      assert Diff(logos[stop]) == 0;
      assert Diff(logos[k]) <= Diff(logos[stop]);
    }
  }

  /** The path of a listed file, as Directory.EnumerateFiles returns it. */
  function FilePath(dir: string, f: LogoFile): string {
    Combine(dir, f.name)
  }

  /** The path of the chosen candidate among logos, "" when there is none. */
  function ChosenPath(dir: string, logos: seq<LogoFile>): Outcome<string> {
    match Closest(logos)
    case Threw(f) => Threw(f)
    case Done(None) => Done("")
    case Done(Some(k)) => Done(FilePath(dir, logos[k]))
  }

  /** TryToFindLogo(uri, path): "" when the logo name or its directory is missing, or when no
      file qualifies; otherwise the path of the chosen candidate. */
  function FindLogo(uri: string, path: string, fs: FileSystem): Outcome<string> {
    var prefix := FileNameWithoutExtension(uri);
    var dir := DirectoryName(path);
    if prefix == "" || dir == "" || fs(dir).None? then Done("")
    else ChosenPath(dir, LogoCandidates(fs(dir).value, prefix, Extension(path)))
  }

  /** The scan meets an unreadable file before any exact match. */
  lemma ScanHitsUnreadable(logos: seq<LogoFile>, i: nat)
    requires i < |logos| && !Readable(logos[i])
    requires forall j :: 0 <= j < i ==> Readable(logos[j]) && Diff(logos[j]) > 0
    ensures Closest(logos) == Threw(ImageUnreadable)
  {
    assert StopIndex(logos) == i;
  }

  /** The scan stops at the first exact match, which is then the choice. */
  lemma ScanHitsExactMatch(logos: seq<LogoFile>, i: nat)
    requires i < |logos| && Readable(logos[i]) && Diff(logos[i]) == 0
    requires forall j :: 0 <= j < i ==> Readable(logos[j]) && Diff(logos[j]) > 0
    ensures Closest(logos) == Done(Some(i))
  {
    assert StopIndex(logos) == i;
    var k := Closest(logos).value.value;
    assert Diff(logos[k]) <= Diff(logos[i]);
  }

  /** The scan reaches the end: the choice is the closest of all. */
  lemma ScanCompletes(logos: seq<LogoFile>)
    requires logos != []
    requires forall j :: 0 <= j < |logos| ==> Readable(logos[j]) && Diff(logos[j]) > 0
    ensures Closest(logos) == Done(Some(ClosestIndex(logos, |logos|)))
  {
    assert StopIndex(logos) == |logos|;
  }

  /** TryToFindLogo: the filter and the closest-pixel-count loop with its early exit. */
  method TryToFindLogo(uri: string, path: string, fs: FileSystem) returns (r: Outcome<string>)
    ensures r == FindLogo(uri, path, fs)
  {
    var extension := Extension(path);
    var logoNamePrefix := FileNameWithoutExtension(uri);
    var logoDir := DirectoryName(path);
    if logoNamePrefix == "" || logoDir == "" || fs(logoDir).None? {
      return Done("");
    }
    var files := fs(logoDir).value;
    var logos := LogoCandidates(files, logoNamePrefix, extension);
    r := SelectClosest(logoDir, logos);
  }

  /** The selection loop of TryToFindLogo: the first candidate unless a readable one is
      closer to 44x44 pixels, stopping at an exact match or an unreadable file. */
  method SelectClosest(logoDir: string, logos: seq<LogoFile>) returns (r: Outcome<string>)
    ensures r == ChosenPath(logoDir, logos)
  {
    var selected: Option<LogoFile> := if |logos| > 0 then Some(logos[0]) else None;
    var closest := selected;
    var min := IntMaxValue;
    ghost var best := 0;
    ghost var exact := false;
    var i := 0;
    while i < |logos|
      invariant 0 <= i <= |logos|
      invariant forall j :: 0 <= j < i ==> Readable(logos[j]) && Diff(logos[j]) > 0
      invariant i == 0 ==> min == IntMaxValue && closest == selected
      invariant i > 0 ==> best == ClosestIndex(logos, i) && min == Diff(logos[best])
      invariant i > 0 ==> closest == Some(logos[best])
    {
      var logo := logos[i];
      if logo.size.None? {
        ScanHitsUnreadable(logos, i);
        return Threw(ImageUnreadable);
      }
      var pixelCountDiff := PixelCountDiff(logo.size.value);
      if pixelCountDiff < min {
        closest := Some(logo);
        best := i;
        if pixelCountDiff == 0 {
          ScanHitsExactMatch(logos, i);
          exact := true;
          break;
        }
        min := pixelCountDiff;
      }
      i := i + 1;
    }
    if !exact {
      if logos != [] {
        ScanCompletes(logos);
      }
    }
    selected := closest;
    var path := if selected.Some? then FilePath(logoDir, selected.value) else "";
    if path != "" {
      return Done(path);
    } else {
      return Done("");
    }
  }

  /** InitLogoPathFromUri as a value: an exception for a null or blank uri; otherwise the logo
      found under location\uri, or else under location\Assets\uri when that path differs from
      the first ignoring case. None means LogoPath keeps its value. */
  function LogoFromUri(location: string, uri: Option<string>, fs: FileSystem): Outcome<Option<string>> {
    if IsNullOrWhiteSpace(uri) then Threw(InvalidUri)
    else
      var path := Combine(location, uri.value);
      match FindLogo(uri.value, path, fs)
      case Threw(f) => Threw(f)
      case Done(logoPath) =>
        if logoPath != "" then Done(Some(logoPath))
        else
          var tmp := Combine(Combine(location, "Assets"), uri.value);
          if EqualsIgnoreCase(path, tmp) then Done(None)
          else
            match FindLogo(uri.value, tmp, fs)
            case Threw(f) => Threw(f)
            case Done(fallback) => if fallback != "" then Done(Some(fallback)) else Done(None)
  }

  /** A chosen path is that of a candidate; "" is chosen exactly when there is no candidate. */
  lemma ChosenPathIsCandidate(dir: string, logos: seq<LogoFile>)
    requires dir != [] && ChosenPath(dir, logos).Done?
    ensures var p := ChosenPath(dir, logos).value;
      && (p == "" <==> logos == [])
      && (p != "" ==> exists f :: f in logos && p == FilePath(dir, f))
  {
    match Closest(logos)
    case Done(None) =>
    case Done(Some(k)) =>
      assert logos[k] in logos;
      assert FilePath(dir, logos[k]) != [] by {
        var name := logos[k].name;
        if name != [] && !IsPathRooted(name) && !IsDirectorySeparator(dir[|dir| - 1]) && !IsDirectorySeparator(name[0]) {
          assert |Combine(dir, name)| == |dir| + 1 + |name|;
        }
      }
  }

  /** A non-empty answer of TryToFindLogo is a listed file of the directory of path whose name
      starts with the uri's file name without extension; "" means that no such file is listed
      or that the logo name or the directory is missing. */
  lemma FoundLogoIsListedCandidate(uri: string, path: string, fs: FileSystem)
    requires FindLogo(uri, path, fs).Done?
    ensures var p := FindLogo(uri, path, fs).value;
      var dir := DirectoryName(path);
      var prefix := FileNameWithoutExtension(uri);
      && (p == "" <==>
           prefix == "" || dir == "" || fs(dir).None?
           || forall f :: f in fs(dir).value ==> !StartsWithIgnoreCase(f.name, prefix))
      && (p != "" ==> exists f :: f in fs(dir).value && StartsWithIgnoreCase(f.name, prefix) && p == FilePath(dir, f))
  {
    var dir := DirectoryName(path);
    var prefix := FileNameWithoutExtension(uri);
    if prefix != "" && dir != "" && fs(dir).Some? {
      var logos := LogoCandidates(fs(dir).value, prefix, Extension(path));
      CandidatesArePrefixMatches(fs(dir).value, prefix, Extension(path));
      ChosenPathIsCandidate(dir, logos);
      if logos != [] {
        assert logos[0] in logos;
      }
    }
  }

  /** InitLogoPathFromUri throws its ArgumentException exactly for a null or blank uri; the only
      other exception it lets through is that of an unreadable image. */
  lemma ArgumentExceptionIffBlankUri(location: string, uri: Option<string>, fs: FileSystem)
    ensures LogoFromUri(location, uri, fs) == Threw(InvalidUri) <==> IsNullOrWhiteSpace(uri)
    ensures LogoFromUri(location, uri, fs).Threw? ==>
      LogoFromUri(location, uri, fs).fault == InvalidUri || LogoFromUri(location, uri, fs).fault == ImageUnreadable
  {
    if !IsNullOrWhiteSpace(uri) {
      var path := Combine(location, uri.value);
      FindLogoOnlyThrowsUnreadable(uri.value, path, fs);
      FindLogoOnlyThrowsUnreadable(uri.value, Combine(Combine(location, "Assets"), uri.value), fs);
    }
  }

  /** The only exception TryToFindLogo lets through is that of an unreadable image. */
  lemma FindLogoOnlyThrowsUnreadable(uri: string, path: string, fs: FileSystem)
    ensures FindLogo(uri, path, fs).Threw? ==> FindLogo(uri, path, fs).fault == ImageUnreadable
  {
  }

  /** The Assets fallback is tried only for a relative uri whose primary lookup came back empty;
      a rooted uri names the same path both times, so its fallback is skipped. */
  lemma FallbackOnlyForRelativeUri(location: string, uri: string, fs: FileSystem)
    requires !IsNullOrWhiteSpace(Some(uri))
    requires FindLogo(uri, Combine(location, uri), fs) == Done("")
    ensures LogoFromUri(location, Some(uri), fs) ==
      if IsPathRooted(uri) then Done(None)
      else match FindLogo(uri, Combine(Combine(location, "Assets"), uri), fs)
        case Threw(f) => Threw(f)
        case Done(fallback) => if fallback != "" then Done(Some(fallback)) else Done(None)
  {
    FallbackSameIffRooted(location, uri);
  }

  /** Whatever LogoPath becomes is a listed file, of the directory of location\uri or of
      location\Assets\uri, whose name starts with the uri's file name without extension. */
  lemma ResolvedLogoIsListedFile(location: string, uri: Option<string>, fs: FileSystem)
    requires LogoFromUri(location, uri, fs).Done? && LogoFromUri(location, uri, fs).value.Some?
    ensures uri.Some? && var p := LogoFromUri(location, uri, fs).value.value;
      exists dir, f :: dir in {DirectoryName(Combine(location, uri.value)), DirectoryName(Combine(Combine(location, "Assets"), uri.value))}
        && fs(dir).Some? && f in fs(dir).value
        && StartsWithIgnoreCase(f.name, FileNameWithoutExtension(uri.value)) && p == FilePath(dir, f)
  {
    var u := uri.value;
    var path := Combine(location, u);
    var tmp := Combine(Combine(location, "Assets"), u);
    FoundLogoIsListedCandidate(u, path, fs);
    if FindLogo(u, path, fs).value == "" {
      FoundLogoIsListedCandidate(u, tmp, fs);
    }
  }

  /** The worked example: of a 40 x 40 and an 88 x 88 variant, the 40 x 40 one (1600 pixels,
      336 away from 1936) wins over the 88 x 88 one (7744 pixels, 5808 away). */
  lemma SmallerVariantPreferred()
    ensures Closest([LogoFile("Square44x44Logo.scale-100.png", Some(ImageSize(40, 40))),
                     LogoFile("Square44x44Logo.scale-200.png", Some(ImageSize(88, 88)))]) == Done(Some(0))
  {
    var logos := [LogoFile("Square44x44Logo.scale-100.png", Some(ImageSize(40, 40))),
                  LogoFile("Square44x44Logo.scale-200.png", Some(ImageSize(88, 88)))];
    assert Diff(logos[0]) == 336 && Diff(logos[1]) == 5808;
    assert StopIndex(logos) == 2;
  }
}
