# UWP program indexing of the Flow Launcher Program plugin

Flow Launcher's Program plugin lists the packaged (UWP) apps of the current user as launcher
results. `UWP.cs` handles this in several steps:

- It keeps the valid packages of the current user.
- For each package it builds one `Application` per app list entry.
- It reads the package's `AppxManifest.xml` to find:
  - the schema generation;
  - whether each app can run elevated;
  - which logo file to show (the image closest to 44 x 44 pixels among the file's qualifier
    variants).
- It then builds each app's search result, action and context menu.
- It watches the package catalog and re-indexes after changes, through a channel with one slot.

This project models those decision rules in Dafny and proves properties about them. The operating
system, the file system and the XML document become plain values:

- a package is a record whose properties either have a value or throw;
- the manifest is its list of elements in document order;
- a directory listing is a sequence of file names with the pixel size in each image header.

The modules follow the parts of the source:

- `Wrappers`: options and the exceptions that escape a step.
- `Text`: the .NET string operations used, with ordinal semantics.
- `Paths`: `System.IO.Path` on Windows separators.
- `Manifest`: the XPath queries and the two version tables.
- `LogoResolution`: `TryToFindLogo` and `InitLogoPathFromUri`.
- `UwpApplication`: the class `Application`, holding its identity, result, action, context menu and
  launch.
- `UwpPackage`: the class `UWP`, `InitAppsInPackage`, the package filter and `All`.
- `PackageWatch`: `PackageChangeChannel` and `WatchPackageChange`.

Four behaviours of the code are easy to misread. The model follows the code as written:

- The logo filter never looks at the file extension.
  - The comment at `UWP.cs:648-650` describes the intended selection, qualifier variants
    `logo.[xxx_yyy].png`.
  - Line 654 compares extensions, but the filter `?? false && ...` binds as `?? (false && ...)`.
  - A listed file always has a name, so only the prefix test on line 653 decides
    (`CandidatesIgnoreExtension`).
- A manifest of unknown schema version skips all manifest metadata of the package, not just the
  logo.
  - The `logoNameFromNamespace` indexer on line 76 throws before the loop starts.
  - The catch on line 102 then leaves every app without elevation as well
    (`UnknownVersionKeepsDefaults`).
- Elevation and the `uap:VisualElements` lookup do not come from the app's own `Application`
  element.
  - Every query on lines 92, 96 and 527-528 starts with `//`, so each one returns the first match
    in the whole document (`LaterFullTrustApplicationIsIgnored`).
- An image file that cannot be opened throws, on lines 663-664.
  - The exception ends the metadata loop for the remaining apps of the package (`AfterStepsFrame`).

## Model

| member | source | states |
|---|---|---|
| Text.ToLowerIsLowerCase | Plugins/Flow.Launcher.Plugin.Program/Programs/UWP.cs:332 | `ToLowerInvariant` always yields a lower-case string |
| Text.ToLowerKeepsLowerCase | Plugins/Flow.Launcher.Plugin.Program/Programs/UWP.cs:332 | lower-casing leaves a lower-case string unchanged |
| Text.ToLowerInvariant | Plugins/Flow.Launcher.Plugin.Program/Programs/UWP.cs:332 | `ToLowerInvariant`, character by character and of the same length; `ToLowerIsLowerCase`, `ToLowerKeepsLowerCase` and `SameLowerIffEqualsIgnoreCase` state what it guarantees |
| Text.EqualsIgnoreCase | Plugins/Flow.Launcher.Plugin.Program/Programs/UWP.cs:609 | `Equals(..., OrdinalIgnoreCase)`: equal lengths and equal characters after folding; `SameLowerIffEqualsIgnoreCase` shows it is equality after lower-casing, and `FallbackSameIffRooted` decides the guard on line 609 with it |
| Text.StartsWithIgnoreCase | Plugins/Flow.Launcher.Plugin.Program/Programs/UWP.cs:653 | `StartsWith(..., OrdinalIgnoreCase)`: the prefix is no longer than the string and equals its head ignoring case; `CandidatesArePrefixMatches` shows it is the whole logo filter |
| Text.IsNullOrWhiteSpace | Plugins/Flow.Launcher.Plugin.Program/Programs/UWP.cs:598 | `string.IsNullOrWhiteSpace`: null, or white space only; `ArgumentExceptionIffBlankUri` shows it decides the `ArgumentException` of `InitLogoPathFromUri` |
| Text.SameLowerIffEqualsIgnoreCase | Plugins/Flow.Launcher.Plugin.Program/Programs/UWP.cs:332 | two strings lower-case to the same string exactly when they are equal under `OrdinalIgnoreCase` |
| Text.Split | Plugins/Flow.Launcher.Plugin.Program/Programs/UWP.cs:91 | `Split('!')` gives at least one piece, and no piece contains the separator |
| Text.JoinSplit | Plugins/Flow.Launcher.Plugin.Program/Programs/UWP.cs:91 | joining the pieces of a split with the separator gives the string back |
| Text.SplitJoin | Plugins/Flow.Launcher.Plugin.Program/Programs/UWP.cs:91 | splitting joined pieces that do not contain the separator gives the pieces back |
| Text.SecondPieceIffSeparator | Plugins/Flow.Launcher.Plugin.Program/Programs/UWP.cs:91 | `Split('!')[1]` exists exactly when the id contains '!' |
| Text.TrimEndBehindPrefix | Plugins/Flow.Launcher.Plugin.Program/Programs/UWP.cs:460-461 | trimming the end of `prefix + s` never reaches into a prefix that ends in a non-blank character |
| Text.StartsWith | Plugins/Flow.Launcher.Plugin.Program/Programs/UWP.cs:360-365 | the ordinal `StartsWith` of the title choice: the prefix is no longer than the string and equals its head; `TitleStartsWithName` uses it to state the shape of every title |
| Text.Trim | Plugins/Flow.Launcher.Plugin.Program/Programs/UWP.cs:461 | `string.Trim` as `TrimEnd` after `TrimStart`; `LaunchCommandKeepsId` shows it removes only the trailing blanks of the id in the launch command |
| Paths.Combine | Plugins/Flow.Launcher.Plugin.Program/Programs/UWP.cs:603-608 | `Path.Combine`: the second argument when it is rooted or the first is empty, otherwise both joined with one separator; its properties are `CombineEndsWith`, `CombineRooted` and `AssetsFallbackIsLonger` |
| Paths.CombineEndsWith | Plugins/Flow.Launcher.Plugin.Program/Programs/UWP.cs:603-608 | the combined path always ends with its second argument |
| Paths.DirectoryName | Plugins/Flow.Launcher.Plugin.Program/Programs/UWP.cs:637 | `Path.GetDirectoryName`: a prefix of the path; where it ends is stated by `DirectoryNameEndsBeforeLastSeparators` |
| Paths.DirectoryNameEndsBeforeLastSeparators | Plugins/Flow.Launcher.Plugin.Program/Programs/UWP.cs:637 | a non-empty directory name is followed in the path by separators only, up to the file name, and is the root or ends in a character that is not a separator |
| Paths.FileName | Plugins/Flow.Launcher.Plugin.Program/Programs/UWP.cs:653 | `Path.GetFileName`: a suffix of the path that contains no separator; `FileNameStartsAfterLastSeparator` shows it starts right after the last separator, or at the end of the root |
| Paths.FileNameWithoutExtension | Plugins/Flow.Launcher.Plugin.Program/Programs/UWP.cs:636 | `Path.GetFileNameWithoutExtension`: a prefix of the file name; `StemCutsAtLastDot` shows it is the whole name without a dot, and otherwise the name cut at its last dot |
| Paths.Extension | Plugins/Flow.Launcher.Plugin.Program/Programs/UWP.cs:628 | `Path.GetExtension`: "" or a string starting with '.', and the name without extension followed by it is the file name; `StemCutsAtLastDot` shows it is the suffix from the last dot, "" exactly when there is no dot or the dot ends the name |
| Paths.LastDotIsLast | Plugins/Flow.Launcher.Plugin.Program/Programs/UWP.cs:628 | the dot found in a file name is its last one |
| Paths.FileNameStartsAfterLastSeparator | Plugins/Flow.Launcher.Plugin.Program/Programs/UWP.cs:653 | the file name starts after the last separator, or at the end of the root when no separator follows it |
| Paths.StemCutsAtLastDot | Plugins/Flow.Launcher.Plugin.Program/Programs/UWP.cs:636 | the name without extension ends at the last dot of the file name, or is all of it; the extension is the rest, "" when there is no dot or it ends the name |
| Paths.CombineRooted | Plugins/Flow.Launcher.Plugin.Program/Programs/UWP.cs:603 | `Path.Combine` returns a rooted second argument unchanged |
| Paths.AssetsFallbackIsLonger | Plugins/Flow.Launcher.Plugin.Program/Programs/UWP.cs:603-609 | for a relative uri, the Assets fallback path is exactly 7 characters longer than the primary path |
| Paths.FallbackSameIffRooted | Plugins/Flow.Launcher.Plugin.Program/Programs/UWP.cs:603-609 | the primary and Assets paths are equal ignoring case exactly when the uri is rooted |
| Manifest.AttributeIndex | Plugins/Flow.Launcher.Plugin.Program/Programs/UWP.cs:97 | `Attributes[name]` is the first attribute with that name, and None only when there is none |
| Manifest.AttributeValue | Plugins/Flow.Launcher.Plugin.Program/Programs/UWP.cs:97 | `Attributes[name]?.Value`, also on lines 530-531; `AttributeValueOfFirstNamed` and `AttributeValueNullIffUnnamed` show it is the value of the first attribute with that name, and null exactly when there is none |
| Manifest.AttributeValueOfFirstNamed | Plugins/Flow.Launcher.Plugin.Program/Programs/UWP.cs:97 | the first attribute with the name gives the value |
| Manifest.AttributeValueNullIffUnnamed | Plugins/Flow.Launcher.Plugin.Program/Programs/UWP.cs:97 | the value is null exactly when no attribute has the name |
| Manifest.Root | Plugins/Flow.Launcher.Plugin.Program/Programs/UWP.cs:74 | `DocumentElement`: the first element of the document, null for an empty one; `GetPackageVersionFromManifest` and `UnknownVersionKeepsDefaults` take the version from it |
| Manifest.Matches | Plugins/Flow.Launcher.Plugin.Program/Programs/UWP.cs:83-96 | the element tests of the six XPath queries of lines 83, 86, 92, 96, 527 and 528: `name()` compares the qualified name as written, `local-name()` only the local name; `FirstMatch`, `ElevationComesFromFirstDeclaringApplication` and `LaterFullTrustApplicationIsIgnored` state what the queries select with them |
| Manifest.SelectSingleNode | Plugins/Flow.Launcher.Plugin.Program/Programs/UWP.cs:83-96 | a `//` query answers the first matching element of the whole document whichever node it is called on; `SelectsFirstSelected` states it, and `LaterFullTrustApplicationIsIgnored` shows the consequence |
| Manifest.FirstMatch | Plugins/Flow.Launcher.Plugin.Program/Programs/UWP.cs:83-96 | a `//` query returns the earliest matching element of the whole document, and nothing only when no element matches |
| Manifest.VersionFromNamespace | Plugins/Flow.Launcher.Plugin.Program/Programs/UWP.cs:160-171 | the namespace table never yields `Unknown` |
| Manifest.LogoNameFromNamespace | Plugins/Flow.Launcher.Plugin.Program/Programs/UWP.cs:173-184 | the logo-name lookup fails exactly for `Unknown`, the key missing from the table |
| Manifest.PackageVersionOf | Plugins/Flow.Launcher.Plugin.Program/Programs/UWP.cs:132-158 | the version of the first root attribute with a known namespace value, `Unknown` for no root or none; the method `GetPackageVersionFromManifest` is proved to return it |
| Manifest.GetPackageVersionFromManifest | Plugins/Flow.Launcher.Plugin.Program/Programs/UWP.cs:132-158 | for a null root, or when no root attribute has one of the three namespace values, the result is `Unknown`; otherwise it is the version of the first such attribute in attribute order |
| Manifest.IfAppCanRunElevated | Plugins/Flow.Launcher.Plugin.Program/Programs/UWP.cs:522-532 | `IfAppCanRunElevated` holds only when the document has an element named `Application`; `ElevationComesFromFirstDeclaringApplication` characterises it exactly |
| Manifest.ElevationComesFromFirstDeclaringApplication | Plugins/Flow.Launcher.Plugin.Program/Programs/UWP.cs:522-532 | the app can run elevated exactly when the first `Application` with `EntryPoint` has the full-trust value, or the first with `uap10:TrustLevel` has `mediumIL` |
| Manifest.LaterFullTrustApplicationIsIgnored | Plugins/Flow.Launcher.Plugin.Program/Programs/UWP.cs:527-531 | a full-trust `Application` declared after another `Application` with an entry point does not make the package elevated |
| LogoResolution.PixelCountDiff | Plugins/Flow.Launcher.Plugin.Program/Programs/UWP.cs:667 | the distance to 1936 pixels fits in an int, and stays below `int.MaxValue`, for any header size |
| LogoResolution.KeepsLogo | Plugins/Flow.Launcher.Plugin.Program/Programs/UWP.cs:652-655 | the `Where` predicate as C# binds it, `?? (false && ...)`; `CandidatesIgnoreExtension` shows the extension never matters, and `CandidatesArePrefixMatches` that exactly the prefix matches are kept |
| LogoResolution.LogoCandidates | Plugins/Flow.Launcher.Plugin.Program/Programs/UWP.cs:652-655 | the filtered candidates are at most the listed files, each with a name starting with the prefix, ignoring case |
| LogoResolution.CandidatesArePrefixMatches | Plugins/Flow.Launcher.Plugin.Program/Programs/UWP.cs:652-655 | a listed file is a candidate exactly when its name starts with the logo prefix, ignoring case |
| LogoResolution.CandidatesIgnoreExtension | Plugins/Flow.Launcher.Plugin.Program/Programs/UWP.cs:652-655 | the uri's extension never changes the candidate list |
| LogoResolution.StopIndex | Plugins/Flow.Launcher.Plugin.Program/Programs/UWP.cs:660-676 | the scan passes only readable files that are not exact matches, and stops at the first unreadable file or exact match |
| LogoResolution.ClosestIndex | Plugins/Flow.Launcher.Plugin.Program/Programs/UWP.cs:668-675 | the update rule `diff < min` keeps the earliest file with the smallest distance |
| LogoResolution.Closest | Plugins/Flow.Launcher.Plugin.Program/Programs/UWP.cs:657-688 | the selection throws exactly when the scan reaches an unreadable file, and finds nothing exactly when there is no candidate; otherwise it picks the earliest closest candidate scanned, up to the first exact match |
| LogoResolution.ClosestOverAllReadable | Plugins/Flow.Launcher.Plugin.Program/Programs/UWP.cs:657-676 | when every candidate can be read, the early exit loses nothing: the choice is the earliest closest candidate overall |
| LogoResolution.ScanHitsUnreadable | Plugins/Flow.Launcher.Plugin.Program/Programs/UWP.cs:663-664 | an unreadable file reached before any exact match makes the selection throw |
| LogoResolution.ScanHitsExactMatch | Plugins/Flow.Launcher.Plugin.Program/Programs/UWP.cs:672-673 | the first exact 44 x 44 match reached is the choice |
| LogoResolution.ScanCompletes | Plugins/Flow.Launcher.Plugin.Program/Programs/UWP.cs:657-676 | when the scan reaches the end, the choice is the earliest closest candidate of all |
| LogoResolution.TryToFindLogo | Plugins/Flow.Launcher.Plugin.Program/Programs/UWP.cs:626-697 | the method's result is exactly the function `FindLogo` |
| LogoResolution.SelectClosest | Plugins/Flow.Launcher.Plugin.Program/Programs/UWP.cs:657-688 | the loop with its `min`, `closest` and `break` computes exactly the path of the candidate that `Closest` chooses |
| LogoResolution.ChosenPath | Plugins/Flow.Launcher.Plugin.Program/Programs/UWP.cs:657-688 | the path of the candidate the scan chooses, "" for none, and the exception of an unreadable image; `ChosenPathIsCandidate` states it, and `TryToFindLogo` is proved equal to it through `SelectClosest` |
| LogoResolution.FindLogo | Plugins/Flow.Launcher.Plugin.Program/Programs/UWP.cs:626-697 | `TryToFindLogo` as a function: "" for a missing prefix or directory, else the chosen candidate; its properties are `FoundLogoIsListedCandidate` and `ChosenPathIsCandidate` |
| LogoResolution.ChosenPathIsCandidate | Plugins/Flow.Launcher.Plugin.Program/Programs/UWP.cs:678-688 | a selected path is the path of a candidate, and "" is returned exactly when there is no candidate |
| LogoResolution.FoundLogoIsListedCandidate | Plugins/Flow.Launcher.Plugin.Program/Programs/UWP.cs:636-688 | a non-empty result is a listed file of the logo directory starting with the prefix; "" means the prefix or directory is missing or no file starts with the prefix |
| LogoResolution.FallbackOnlyForRelativeUri | Plugins/Flow.Launcher.Plugin.Program/Programs/UWP.cs:603-620 | after an empty primary lookup, a rooted uri leaves `LogoPath` unchanged, and a relative uri takes the Assets result |
| LogoResolution.ArgumentExceptionIffBlankUri | Plugins/Flow.Launcher.Plugin.Program/Programs/UWP.cs:598-600 | `InitLogoPathFromUri` throws `ArgumentException` exactly for a null or blank uri, and otherwise throws only for an unreadable image |
| LogoResolution.LogoFromUri | Plugins/Flow.Launcher.Plugin.Program/Programs/UWP.cs:591-624 | `InitLogoPathFromUri` as a function: a throw for a null or blank uri, else the primary logo or the Assets fallback; its properties are `FallbackOnlyForRelativeUri` and `ResolvedLogoIsListedFile` |
| LogoResolution.ResolvedLogoIsListedFile | Plugins/Flow.Launcher.Plugin.Program/Programs/UWP.cs:598-624 | any logo `InitLogoPathFromUri` assigns is a listed file with the prefix, in the primary or the Assets directory |
| LogoResolution.SmallerVariantPreferred | Plugins/Flow.Launcher.Plugin.Program/Programs/UWP.cs:667-675 | of a 40 x 40 and an 88 x 88 variant, the 40 x 40 one is chosen |
| UwpApplication.NormalizedIdentifier | Plugins/Flow.Launcher.Plugin.Program/Programs/UWP.cs:332 | the stored identifier is "" for null, and otherwise lower case and equal to the value ignoring case |
| UwpApplication.InitialView | Plugins/Flow.Launcher.Plugin.Program/Programs/UWP.cs:344-352 | the state of a new application: the entry's ids and names, the package location, enabled, not elevated, without logo; `EqualIffSameIdIgnoringCase` and, through `Constructed`, `ConstructedDefaults` state its properties |
| UwpApplication.NormalizedIdentifierIdempotent | Plugins/Flow.Launcher.Plugin.Program/Programs/UWP.cs:332 | assigning the stored identifier again changes nothing |
| UwpApplication.SameIdentifierIffEqualIgnoringCase | Plugins/Flow.Launcher.Plugin.Program/Programs/UWP.cs:332 | two ids give the same identifier exactly when they are equal ignoring case |
| UwpApplication.ChooseTitle | Plugins/Flow.Launcher.Plugin.Program/Programs/UWP.cs:360-372 | the title uses the description only when descriptions are enabled and there is a description |
| UwpApplication.Title | Plugins/Flow.Launcher.Plugin.Program/Programs/UWP.cs:360-372 | the title is the name, the description, or "name: description"; its properties are `TitleStartsWithName` and `TitleShowsDescription` |
| UwpApplication.SelectedMatch | Plugins/Flow.Launcher.Plugin.Program/Programs/UWP.cs:360-384 | the match of the shown text, or for a combined title the better of name and description, with the description offsets shifted; its property is `ShiftedHighlightPointsIntoDescription` |
| UwpApplication.TitleStartsWithName | Plugins/Flow.Launcher.Plugin.Program/Programs/UWP.cs:360-372 | every title begins with the name |
| UwpApplication.TitleShowsDescription | Plugins/Flow.Launcher.Plugin.Program/Programs/UWP.cs:360-372 | with descriptions enabled, the description appears in the title at some offset |
| UwpApplication.ShiftedHighlightPointsIntoDescription | Plugins/Flow.Launcher.Plugin.Program/Programs/UWP.cs:372-381 | in a combined title, each offset shifted by `Name.Length + 2` marks the same character the unshifted offset marked in the description |
| UwpApplication.Shifted | Plugins/Flow.Launcher.Plugin.Program/Programs/UWP.cs:379 | every offset moved by the same amount, as the loop of lines 377-380 does in place; `ShiftMatchData` is proved to leave exactly this, and `ShiftedHighlightPointsIntoDescription` shows the moved offsets mark the same characters in the title |
| UwpApplication.LaunchInfo | Plugins/Flow.Launcher.Plugin.Program/Programs/UWP.cs:458-470 | launching uses the shell, expands `shell:AppsFolder\` plus the end-trimmed user model id, and uses the `runas` verb exactly when elevated |
| UwpApplication.LaunchCommandKeepsId | Plugins/Flow.Launcher.Plugin.Program/Programs/UWP.cs:460-461 | `Trim` on the command removes only trailing blank characters of the user model id |
| UwpApplication.ElevationGesture | Plugins/Flow.Launcher.Plugin.Program/Programs/UWP.cs:400-405 | Ctrl and Shift held, Alt and Win not; `Application.Action` elevates exactly on this gesture when the app can elevate |
| UwpApplication.Application.constructor | Plugins/Flow.Launcher.Plugin.Program/Programs/UWP.cs:344-352 | a new application has the entry's ids and names, the package location, is enabled and not elevated, has no logo and has a lower-case identifier |
| UwpApplication.Application.Name | Plugins/Flow.Launcher.Plugin.Program/Programs/UWP.cs:337 | `Name` is the display name the constructor copies, and the title of `Result` starts with it (`TitleStartsWithName`) |
| UwpApplication.Application.SetUniqueIdentifier | Plugins/Flow.Launcher.Plugin.Program/Programs/UWP.cs:332 | the setter stores the normalised identifier, which is lower case |
| UwpApplication.Application.InitLogoPathFromUri | Plugins/Flow.Launcher.Plugin.Program/Programs/UWP.cs:591-624 | the method throws exactly when `LogoFromUri` does, leaving `LogoPath`; otherwise it sets `LogoPath` to the logo found or keeps it |
| UwpApplication.Application.Result | Plugins/Flow.Launcher.Plugin.Program/Programs/UWP.cs:354-396 | there is a result exactly when the selected match succeeds, with the chosen title, the subtitle (location unless hidden), the logo, and the match's score and offsets |
| UwpApplication.Application.Action | Plugins/Flow.Launcher.Plugin.Program/Programs/UWP.cs:398-417 | the launch is elevated exactly when Ctrl+Shift without Alt/Win is held and the app can elevate; the warning shows exactly when the gesture is held and the app cannot |
| UwpApplication.Application.ContextMenus | Plugins/Flow.Launcher.Plugin.Program/Programs/UWP.cs:424-456 | "open containing folder" always comes first; "run as administrator", launching elevated, is second and present exactly when the app can run elevated |
| UwpApplication.ShiftMatchData | Plugins/Flow.Launcher.Plugin.Program/Programs/UWP.cs:377-380 | the in-place loop adds the shift to every offset and changes nothing else |
| UwpApplication.Application.Equals | Plugins/Flow.Launcher.Plugin.Program/Programs/UWP.cs:793-803 | `Equals`: the other application has the same `UniqueIdentifier`, compared ordinally. Identifiers are stored lower-cased, so `EqualIffSameIdIgnoringCase` shows that two applications are equal exactly when their user model ids agree ignoring case. `EqualApplicationsHashEqual` connects `Equals` with `GetHashCode` |
| UwpApplication.Application.GetHashCode | Plugins/Flow.Launcher.Plugin.Program/Programs/UWP.cs:805-808 | `GetHashCode`: the string hash of `UniqueIdentifier` alone |
| UwpApplication.EqualApplicationsHashEqual | Plugins/Flow.Launcher.Plugin.Program/Programs/UWP.cs:793-808 | equal applications hash equal, whatever the string hash |
| UwpApplication.EqualIffSameIdIgnoringCase | Plugins/Flow.Launcher.Plugin.Program/Programs/UWP.cs:793-803 | two constructed applications are equal exactly when their user model ids are equal ignoring case |
| UwpPackage.IsValidPackage | Plugins/Flow.Launcher.Plugin.Program/Programs/UWP.cs:246-264 | a package is kept exactly when it is not a framework, not in development mode and has a non-empty path; a property that throws excludes it |
| UwpPackage.ValidPackagesMembership | Plugins/Flow.Launcher.Plugin.Program/Programs/UWP.cs:245-265 | the filtered packages are exactly the valid ones |
| UwpPackage.ValidPackages | Plugins/Flow.Launcher.Plugin.Program/Programs/UWP.cs:246-264 | the `Where` filter over the user's packages, in order; `ValidPackagesMembership` shows it keeps exactly the packages that pass `IsValidPackage` |
| UwpPackage.CurrentUserPackages | Plugins/Flow.Launcher.Plugin.Program/Programs/UWP.cs:227-271 | no packages without a current user; otherwise exactly the packages of that user that pass `IsValidPackage` |
| UwpPackage.FactsOf | Plugins/Flow.Launcher.Plugin.Program/Programs/UWP.cs:74-86 | the logo-name lookup throws `KeyNotFound` exactly for version `Unknown`; otherwise the logo name comes from the table, and `packageCanElevate` is true exactly when an `allowElevation` capability exists |
| UwpPackage.ApplicationId | Plugins/Flow.Launcher.Plugin.Program/Programs/UWP.cs:91 | the application id exists exactly when the user model id contains '!' |
| UwpPackage.HasApplicationNode | Plugins/Flow.Launcher.Plugin.Program/Programs/UWP.cs:92-94 | the branch of the loop that touches an application: it has an id, the manifest has `Applications`, and some `Application` has that id; `AppStepEffect` and `MatchedAppsShareMetadata` use it |
| UwpPackage.LogoStep | Plugins/Flow.Launcher.Plugin.Program/Programs/UWP.cs:96-98 | the first `uap:VisualElements` of the whole document gives the logo uri, and a missing one throws `NullReferenceException`; `AppStepWithNode` ties it to the loop body |
| UwpPackage.AppStep | Plugins/Flow.Launcher.Plugin.Program/Programs/UWP.cs:91-99 | one pass of the loop over one application; its properties are `AppStepEffect`, and `ApplyManifest` proves the loop body equal to it |
| UwpPackage.AppStepEffect | Plugins/Flow.Launcher.Plugin.Program/Programs/UWP.cs:91-99 | one pass changes only elevation and logo, and nothing when no `Application` element is found; otherwise elevation becomes package capability or `IfAppCanRunElevated` |
| UwpPackage.AbortIndex | Plugins/Flow.Launcher.Plugin.Program/Programs/UWP.cs:87-105 | every pass before the abort index completes normally, and the pass at that index throws |
| UwpPackage.AfterSteps | Plugins/Flow.Launcher.Plugin.Program/Programs/UWP.cs:87-100 | the loop over `Apps` in the try block: every pass up to and including the first throwing one takes effect, the rest keep their state, and the length is kept; `AfterStepsFrame` and `IdWithoutSeparatorStopsLoop` state this, and `ApplyManifestToAll` proves the object loop equal to it |
| UwpPackage.PackageMetadata | Plugins/Flow.Launcher.Plugin.Program/Programs/UWP.cs:65-105 | the metadata part of `InitAppsInPackage`; it keeps the number of applications, and its properties are `MetadataChangesOnlyElevationAndLogo`, `UnknownVersionKeepsDefaults` and `ElevationNeedsManifestEvidence` |
| UwpPackage.ConstructedDefaults | Plugins/Flow.Launcher.Plugin.Program/Programs/UWP.cs:48-62 | constructed applications are enabled, not elevated, without a logo, located in the package and have lower-case identifiers |
| UwpPackage.Constructed | Plugins/Flow.Launcher.Plugin.Program/Programs/UWP.cs:48-62 | an application for each entry whose constructor does not throw, in entry order; `ConstructedDefaults` states their state and `ConstructApps` proves the object loop equal to it |
| UwpPackage.UnknownVersionKeepsDefaults | Plugins/Flow.Launcher.Plugin.Program/Programs/UWP.cs:65-105 | without a manifest, or with one of unknown version, no application is elevated or gets a logo |
| UwpPackage.AfterStepsFrame | Plugins/Flow.Launcher.Plugin.Program/Programs/UWP.cs:87-105 | the loop changes only elevation and logo, and nothing of the applications after the pass that throws |
| UwpPackage.MetadataChangesOnlyElevationAndLogo | Plugins/Flow.Launcher.Plugin.Program/Programs/UWP.cs:65-105 | whatever the manifest, the metadata step changes nothing but elevation and logo |
| UwpPackage.ElevationNeedsManifestEvidence | Plugins/Flow.Launcher.Plugin.Program/Programs/UWP.cs:76-95 | an application becomes elevated only when the version is known and the manifest has the capability or a full-trust/medium-`Application` |
| UwpPackage.AllowElevationElevatesMatchedApps | Plugins/Flow.Launcher.Plugin.Program/Programs/UWP.cs:83-95 | with `allowElevation`, every app the loop reaches whose `Application` element is found becomes elevated |
| UwpPackage.MatchedAppsShareMetadata | Plugins/Flow.Launcher.Plugin.Program/Programs/UWP.cs:92-98 | two reached apps whose element is found get the same elevation, and the same logo when they start alike, because the queries are global |
| UwpPackage.IdWithoutSeparatorStopsLoop | Plugins/Flow.Launcher.Plugin.Program/Programs/UWP.cs:91 | an id without '!' stops the loop at its app, and that app and all later ones keep their state |
| UwpPackage.WithoutDisabled | Plugins/Flow.Launcher.Plugin.Program/Programs/UWP.cs:215-217 | an application is kept exactly when it was indexed and its identifier is not a disabled source |
| UwpPackage.IndexedAppsMembership | Plugins/Flow.Launcher.Plugin.Program/Programs/UWP.cs:192-213 | every indexed application is an application of one of the packages |
| UwpPackage.IndexedAppsComplete | Plugins/Flow.Launcher.Plugin.Program/Programs/UWP.cs:192-213 | every application of every package whose constructor succeeds is indexed |
| UwpPackage.IndexedApps | Plugins/Flow.Launcher.Plugin.Program/Programs/UWP.cs:192-213 | the `SelectMany` over the packages, in package order, a throwing constructor contributing none; `IndexedAppsMembership` and `IndexedAppsComplete` give both directions |
| UwpPackage.PackageAppsKeepIdentity | Plugins/Flow.Launcher.Plugin.Program/Programs/UWP.cs:37-107 | every application of a package is enabled, in the package location and has a lower-case identifier, whatever its manifest |
| UwpPackage.PackageApps | Plugins/Flow.Launcher.Plugin.Program/Programs/UWP.cs:37-107 | `UWP(package).Apps`: none when a property of the constructor throws, else the metadata pass over the constructed applications; `PackageAppsKeepIdentity` states its invariant and `UWP.constructor` proves the class equal to it |
| UwpPackage.AllAppsComeFromValidPackages | Plugins/Flow.Launcher.Plugin.Program/Programs/UWP.cs:186-225 | every indexed application comes from a valid package of the current user on Windows 10 or later, is not disabled, and has a lower-case identifier |
| UwpPackage.AllApps | Plugins/Flow.Launcher.Plugin.Program/Programs/UWP.cs:186-225 | `All` as a function: nothing before Windows 10, and no application with a disabled identifier |
| UwpPackage.AllAppsIncludeEveryEnabledApp | Plugins/Flow.Launcher.Plugin.Program/Programs/UWP.cs:186-225 | conversely, on Windows 10 or later every application of a valid package of the current user whose identifier is not disabled is indexed |
| UwpPackage.ApplyManifest | Plugins/Flow.Launcher.Plugin.Program/Programs/UWP.cs:91-99 | the loop body changes the application and ends exactly as the function `AppStep` says, keeping the identifier |
| UwpPackage.ConstructApps | Plugins/Flow.Launcher.Plugin.Program/Programs/UWP.cs:48-62 | the first loop creates one new, distinct application for each entry with display info, in entry order |
| UwpPackage.ApplyManifestToAll | Plugins/Flow.Launcher.Plugin.Program/Programs/UWP.cs:87-100 | the loop over the application objects leaves them exactly as `AfterSteps` says: updated up to and including the pass that throws, untouched after it |
| UwpPackage.ApplyPackageMetadata | Plugins/Flow.Launcher.Plugin.Program/Programs/UWP.cs:65-105 | the try block leaves the applications as `PackageMetadata` says |
| UwpPackage.UWP.constructor | Plugins/Flow.Launcher.Plugin.Program/Programs/UWP.cs:37-44 | the package's names and location are copied, and `Apps` holds exactly the applications `PackageApps` specifies |
| UwpPackage.UWP.InitAppsInPackage | Plugins/Flow.Launcher.Plugin.Program/Programs/UWP.cs:46-107 | `Apps` becomes the constructed applications after the manifest metadata, as new objects |
| UwpPackage.EqualPackagesHashEqual | Plugins/Flow.Launcher.Plugin.Program/Programs/UWP.cs:311-326 | equal packages hash equal, whatever the string hash |
| UwpPackage.PackageEqualityIsFamilyName | Plugins/Flow.Launcher.Plugin.Program/Programs/UWP.cs:311-321 | packages are equal exactly when their family names are, and equality is symmetric |
| UwpPackage.UWP.Equals | Plugins/Flow.Launcher.Plugin.Program/Programs/UWP.cs:311-321 | `Equals`: another package with the same family name; its properties are `PackageEqualityIsFamilyName` and `EqualPackagesHashEqual` |
| UwpPackage.UWP.GetHashCode | Plugins/Flow.Launcher.Plugin.Program/Programs/UWP.cs:323-326 | `GetHashCode`: the string hash of the family name alone |
| UwpPackage.ApplicationsOf | Plugins/Flow.Launcher.Plugin.Program/Programs/UWP.cs:193-212 | the query body yields the package's applications, or none when its constructor throws |
| UwpPackage.All | Plugins/Flow.Launcher.Plugin.Program/Programs/UWP.cs:186-225 | `All` returns exactly the applications the function `AllApps` gives |
| UwpPackage.KeepEnabled | Plugins/Flow.Launcher.Plugin.Program/Programs/UWP.cs:215-217 | the `Where` filter over the application objects agrees with `WithoutDisabled` on their fields |
| PackageWatch.AfterEvent | Plugins/Flow.Launcher.Plugin.Program/Programs/UWP.cs:280-294 | after a catalog event the channel holds an item exactly when it held one or the change completed, and no re-index has run |
| PackageWatch.AfterDrain | Plugins/Flow.Launcher.Plugin.Program/Programs/UWP.cs:296-301 | a pass of the loop empties the channel and re-indexes once exactly when an item was waiting |
| PackageWatch.AfterStep | Plugins/Flow.Launcher.Plugin.Program/Programs/UWP.cs:280-301 | one event handler run or one pass of the watch loop; `BurstLeavesOneItem` and `CompletedChangeIsNotLost` state what runs of steps keep |
| PackageWatch.Run | Plugins/Flow.Launcher.Plugin.Program/Programs/UWP.cs:273-301 | any interleaving of catalog events and loop passes; `ReindexesBoundedByChanges`, `ReindexesNeverDecrease` and `PendingUntilReindexed` hold over every such run |
| PackageWatch.Watch | Plugins/Flow.Launcher.Plugin.Program/Programs/UWP.cs:277 | before Windows 10 nothing is watched and nothing is re-indexed |
| PackageWatch.BurstLeavesOneItem | Plugins/Flow.Launcher.Plugin.Program/Programs/UWP.cs:273-294 | a burst of events holds at most one item: pending exactly when an item waited before or some change completed |
| PackageWatch.BurstCostsOneReindex | Plugins/Flow.Launcher.Plugin.Program/Programs/UWP.cs:273-301 | a burst followed by one pass of the loop re-indexes once if any change completed, and leaves the channel empty |
| PackageWatch.ReindexesBoundedByChanges | Plugins/Flow.Launcher.Plugin.Program/Programs/UWP.cs:273-301 | re-indexes plus the waiting item never exceed the starting count plus the completed changes |
| PackageWatch.FromStartReindexesBoundedByChanges | Plugins/Flow.Launcher.Plugin.Program/Programs/UWP.cs:273-301 | from an empty channel, there are no more re-indexes than completed changes |
| PackageWatch.PendingUntilReindexed | Plugins/Flow.Launcher.Plugin.Program/Programs/UWP.cs:296-301 | a waiting item stays until a pass of the loop takes it and re-indexes |
| PackageWatch.ReindexesNeverDecrease | Plugins/Flow.Launcher.Plugin.Program/Programs/UWP.cs:296-301 | the re-index count never goes down |
| PackageWatch.CompletedChangeIsNotLost | Plugins/Flow.Launcher.Plugin.Program/Programs/UWP.cs:280-301 | after a completed change, a re-index is either still pending or has run |
| PackageWatch.PackageChangeChannel.constructor | Plugins/Flow.Launcher.Plugin.Program/Programs/UWP.cs:273 | a new channel is empty and nothing has been re-indexed |
| PackageWatch.PackageChangeChannel.OnPackageEvent | Plugins/Flow.Launcher.Plugin.Program/Programs/UWP.cs:280-294 | the handler updates the channel as `AfterEvent`; `TryWrite` succeeds exactly for a completed change on an empty slot |
| PackageWatch.PackageChangeChannel.DrainOnce | Plugins/Flow.Launcher.Plugin.Program/Programs/UWP.cs:296-301 | one pass of the loop updates the state as `AfterDrain` |

## Left out

- WinRT package APIs are left out because they are operating-system calls.
  - This covers `PackageManager`, its retry-once construction, `FindPackagesForUser`, `GetAppListEntries` and `PackageCatalog`.
  - Packages, their entries and the current user are given as values (`PackageHandle`, `packagesFor`).
- Manifest and image I/O is left out.
  - `GetManifestXml` (`File.ReadAllText`, `XmlDocument.LoadXml`) is replaced by an optional parsed document. It is None when reading or parsing fails.
  - `Directory.Exists`/`EnumerateFiles`, `File.OpenRead` and `BitmapDecoder` are replaced by a function from a directory to its files and image sizes.
  - Real XPath evaluation is not modelled. Each query is a predicate on one element, applied in document order.
- LogoResolution.FilePath: a listed file's name is assumed to be a plain file name without separator or drive, as `Directory.EnumerateFiles` yields them; the model does not check this of the file system it is given, and for other names `Path.GetFileName` of the listed path would differ from the name.
- Manifest.IfAppCanRunElevated: namespace prefixes are matched as written.
  - `@uap10:TrustLevel` in the XPath on UWP.cs:528 resolves `uap10` through the namespace manager to its URI, but the model compares the written attribute name "uap10:TrustLevel".
  - So a manifest that binds the uap10 URI to another prefix, or binds `uap10` to another URI, is decided differently.
  - `Attributes["uap10:TrustLevel"]` on line 531 also matches the written name, as the model does.
- XPath quoting is left out: an application id that contains an apostrophe would break the `@Id='...'` query, and the manifest schema forbids it.
- Logging (`ProgramLogger`) is left out; it has no effect on the results.
- The order of `AsParallel().SelectMany` in `All` is left out because it is concurrency. The model concatenates the packages' applications in package order.
- The `DEBUG` build's rethrow in `All` is left out. The model follows the release build, where a package whose constructor throws contributes nothing.
- `Task.Delay(3000)`, `Task.Run` and the asynchronous wait of `WatchPackageChange` are left out because they are timing.
  - An event that arrives during the delay is modelled as coming before the read.
  - An event that arrives during the re-index is modelled as coming after it.
- PackageWatch.PackageChangeChannel.DrainOnce: with no item waiting it returns at once, whereas the source's loop waits for one.
- `Main.IndexUwpPrograms` is only counted, not modelled.
- `StringMatcher.FuzzySearch`, `api.GetTranslation`, `api.ShowMsg`, `Environment.ExpandEnvironmentVariables` and `Process.Start` are external collaborators.
  - They are passed in as functions.
  - The action and the context-menu actions are described by what they launch and show.
- The WPF parts are left out because they are graphics code: `Logo`, `ImageFromPath`, `PlatedImage` and colour parsing.
- Commented-out code, the P/Invoke declarations and `ToString` are left out: they are not live behaviour.
- Text.ToLowerInvariant: maps only the ASCII letters, not the full invariant-culture case mapping.
- Text.EqualsIgnoreCase: folds only the ASCII letters, whereas `StringComparison.OrdinalIgnoreCase` (UWP.cs:609) folds every character that has an upper-case mapping.
- Text.StartsWithIgnoreCase: the same ASCII-only folding, for the prefix test of the logo filter (UWP.cs:653).
- UwpApplication.SelectedMatch: string lengths count Unicode scalar values, whereas `Name.Length + 2` (UWP.cs:379) counts UTF-16 code units.
  - For a name with a character outside the Basic Multilingual Plane, the model shifts the description offsets by less than the source does.
  - The fuzzy matcher's offsets are taken to be scalar-value indices too. On that reading the shifted offsets land on the description's characters (`ShiftedHighlightPointsIntoDescription`).
- UwpApplication.Application.Result: the same scalar-value lengths as `SelectedMatch`, for the shift of the highlight offsets.
- UwpApplication.ChooseTitle: compares with the ordinal `Text.StartsWith`, in place of the culture-sensitive `string.StartsWith` of the title choice.
- LogoResolution.PixelCountDiff: does not model the int overflow of `height * width`. Image sides are bounded by 46340, so the product always fits in an int.
- Paths.DirectoryName: a path that starts with a separator is rooted, so UNC and device paths are rooted as in .NET, and `Path.Combine` returns them unchanged. Their root, however, is taken to be the first separator alone, not the whole `\\server\share` prefix. So `DirectoryName` and `FileName` differ from .NET on a path that ends inside a UNC share root.
- Paths.FileName: the same root simplification as `DirectoryName`. In both functions, separators are not normalised.
- `Path.Combine(Location, "Assets", uri)` is modelled as two nested two-argument combines. These agree for the non-empty arguments used.
- `GetExtension` never returns null for a non-null path, so the `extension == null` branch of `TryToFindLogo` is unreachable and not modelled.
- `GetDirectoryName` returning null and returning "" are both modelled as "", because `TryToFindLogo` treats them alike.
- An exception inside the metadata loop is caught by the surrounding `try`. It is modelled as a `Completion` that ends the remaining passes.
- `BackgroundColor` is never assigned in this file; it keeps its default.
