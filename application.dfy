/** UWP.Application: one launcher entry of a packaged app, with its identity, its search
    result, its actions and its logo. */
module UwpApplication {
  import opened Wrappers
  import opened Text
  import opened Paths
  import opened LogoResolution

  datatype DisplayInfo = DisplayInfo(displayName: string, description: Option<string>)

  /** An AppListEntry of the package; displayInfo None stands for a null DisplayInfo. */
  datatype AppListEntry = AppListEntry(appUserModelId: string, displayInfo: Option<DisplayInfo>)

  /** The fields of an Application, as a value. */
  datatype AppView = AppView(
    uniqueIdentifier: string,
    displayName: string,
    description: Option<string>,
    userModelId: string,
    backgroundColor: string,
    location: string,
    enabled: bool,
    canRunElevated: bool,
    logoPath: string)

  /** What the UniqueIdentifier setter stores: "" for null, otherwise the value in lower case. */
  function NormalizedIdentifier(value: Option<string>): (r: string)
    ensures IsLowerCase(r)
    ensures value.None? ==> r == ""
    ensures value.Some? ==> EqualsIgnoreCase(r, value.value)
  {
    match value
    case None => ""
    case Some(s) =>
      ToLowerIsLowerCase(s);
      SameLowerIffEqualsIgnoreCase(ToLowerInvariant(s), s);
      ToLowerKeepsLowerCase(ToLowerInvariant(s));
      ToLowerInvariant(s)
  }

  /** Storing an identifier again changes nothing. */
  lemma NormalizedIdentifierIdempotent(value: Option<string>)
    ensures NormalizedIdentifier(Some(NormalizedIdentifier(value))) == NormalizedIdentifier(value)
  {
    ToLowerKeepsLowerCase(NormalizedIdentifier(value));
  }

  /** Two user model ids give the same identifier exactly when they are equal ignoring case. */
  lemma SameIdentifierIffEqualIgnoringCase(a: string, b: string)
    ensures NormalizedIdentifier(Some(a)) == NormalizedIdentifier(Some(b)) <==> EqualsIgnoreCase(a, b)
  {
    SameLowerIffEqualsIgnoreCase(a, b);
  }

  /** The state of an Application right after its constructor. */
  function InitialView(entry: AppListEntry, location: string): AppView
    requires entry.displayInfo.Some?
  {
    AppView(NormalizedIdentifier(Some(entry.appUserModelId)), entry.displayInfo.value.displayName,
            entry.displayInfo.value.description, entry.appUserModelId, "", location, true, false, "")
  }

  /** The two settings of the plugin that the result depends on. */
  datatype Settings = Settings(enableDescription: bool, hideAppsPath: bool)

  /** StringMatcher's answer: whether the query matched, its score and the highlighted offsets. */
  datatype MatchResult = MatchResult(success: bool, score: int, matchData: seq<int>)

  /** A launcher result: title, subtitle, icon, score and title highlight offsets. */
  datatype ResultItem = ResultItem(title: string, subTitle: string, icoPath: string, score: int, titleHighlightData: seq<int>)

  datatype TitleChoice = NameOnly | DescriptionOnly | Combined

  /** Which of name, description or "name: description" the title shows. */
  function ChooseTitle(settings: Settings, name: string, description: Option<string>): (c: TitleChoice)
    ensures c != NameOnly ==> settings.enableDescription && description.Some?
  {
    if !settings.enableDescription || description.None? || StartsWith(name, description.value) then NameOnly
    else if StartsWith(description.value, name) then DescriptionOnly
    else Combined
  }

  const TitleSeparator := ": "

  function TitleText(choice: TitleChoice, name: string, description: Option<string>): string
    requires choice != NameOnly ==> description.Some?
  {
    match choice
    case NameOnly => name
    case DescriptionOnly => description.value
    case Combined => name + TitleSeparator + description.value
  }

  /** The title of the result for a name and a description. */
  function Title(settings: Settings, name: string, description: Option<string>): string {
    TitleText(ChooseTitle(settings, name, description), name, description)
  }

  /** Every offset moved by delta. */
  function Shifted(data: seq<int>, delta: int): seq<int> {
    seq(|data|, k requires 0 <= k < |data| => data[k] + delta)
  }

  /** The match the result is built from: of the title itself, or, for a combined title, of the
      description with its offsets moved past "name: " when it scores strictly higher than the
      name, and of the name otherwise. */
  function SelectedMatch(query: string, settings: Settings, fuzzy: (string, string) -> MatchResult,
                         name: string, description: Option<string>): MatchResult {
    match ChooseTitle(settings, name, description)
    case NameOnly => fuzzy(query, name)
    case DescriptionOnly => fuzzy(query, description.value)
    case Combined =>
      var nameMatch := fuzzy(query, name);
      var descriptionMatch := fuzzy(query, description.value);
      if descriptionMatch.score > nameMatch.score
      then descriptionMatch.(matchData := Shifted(descriptionMatch.matchData, |name| + |TitleSeparator|))
      else nameMatch
  }

  /** The title always begins with the name: a description shown alone starts with it. */
  lemma TitleStartsWithName(settings: Settings, name: string, description: Option<string>)
    ensures StartsWith(Title(settings, name, description), name)
  {
    if ChooseTitle(settings, name, description) == Combined {
      assert (name + TitleSeparator + description.value)[..|name|] == name;
    }
  }

  /** d is the part of t that starts at off. */
  predicate OccursAt(d: string, t: string, off: int) {
    0 <= off && off + |d| <= |t| && t[off..off + |d|] == d
  }

  /** With descriptions enabled, a description is always visible in the title: as its start,
      as all of it, or after "name: ". */
  lemma TitleShowsDescription(settings: Settings, name: string, description: Option<string>)
    requires settings.enableDescription && description.Some?
    ensures var t := Title(settings, name, description); var d := description.value;
      exists off :: OccursAt(d, t, off)
  {
    var t := Title(settings, name, description);
    var d := description.value;
    match ChooseTitle(settings, name, description)
    case NameOnly =>
      assert OccursAt(d, t, 0);
    case DescriptionOnly =>
      assert OccursAt(d, t, 0);
    case Combined =>
      var off := |name| + |TitleSeparator|;
      assert t == name + TitleSeparator + d;
      assert OccursAt(d, t, off);
  }

  /** In a combined title, a highlighted offset of the description match, once shifted, marks in
      the title the character it marked in the description. */
  lemma ShiftedHighlightPointsIntoDescription(query: string, settings: Settings, fuzzy: (string, string) -> MatchResult,
                                             name: string, description: Option<string>)
    requires ChooseTitle(settings, name, description) == Combined
    requires fuzzy(query, description.value).score > fuzzy(query, name).score
    ensures var d := description.value; var m := fuzzy(query, d); var t := Title(settings, name, description);
      var shown := SelectedMatch(query, settings, fuzzy, name, description).matchData;
      && |shown| == |m.matchData|
      && forall k :: 0 <= k < |m.matchData| && 0 <= m.matchData[k] < |d| ==>
           0 <= shown[k] < |t| && t[shown[k]] == d[m.matchData[k]]
  {
    var d := description.value;
    var t := Title(settings, name, description);
    assert t == name + TitleSeparator + d;
  }

  /** Ctrl and Shift held, Alt and Win not: the gesture asking to run as administrator. */
  datatype SpecialKeyState = SpecialKeyState(ctrlPressed: bool, shiftPressed: bool, altPressed: bool, winPressed: bool)

  predicate ElevationGesture(keys: SpecialKeyState) {
    keys.ctrlPressed && keys.shiftPressed && !keys.altPressed && !keys.winPressed
  }

  /** The ProcessStartInfo handed to the process starter. */
  datatype ProcessStart = ProcessStart(fileName: string, useShellExecute: bool, verb: string)

  const AppsFolderPrefix := "shell:AppsFolder\\"
  const RunAsVerb := "runas"

  /** Launch: the apps-folder shell command for the user model id, trimmed and with environment
      variables expanded by expand, run through the shell, with the "runas" verb when elevated. */
  function LaunchInfo(userModelId: string, expand: string -> string, elevated: bool): (p: ProcessStart)
    ensures p.useShellExecute
    ensures p.verb == RunAsVerb <==> elevated
    ensures p.fileName == expand(AppsFolderPrefix + TrimEnd(userModelId))
  {
    LaunchCommandKeepsId(userModelId);
    ProcessStart(expand(Trim(AppsFolderPrefix + userModelId)), true, if elevated then RunAsVerb else "")
  }

  /** Trimming the command only removes trailing white space of the user model id. */
  lemma LaunchCommandKeepsId(userModelId: string)
    ensures Trim(AppsFolderPrefix + userModelId) == AppsFolderPrefix + TrimEnd(userModelId)
  {
    assert TrimStart(AppsFolderPrefix + userModelId) == AppsFolderPrefix + userModelId;
    TrimEndBehindPrefix(AppsFolderPrefix, userModelId);
  }

  datatype Message = Message(title: string, body: string)

  /** What the result's action does: the launch it starts, the message it shows, and its answer. */
  datatype ActionEffect = ActionEffect(launch: ProcessStart, warning: Option<Message>, hideWindow: bool)

  const WarningTitle := "Plugin: Program"
  const RunAsNotSupportedKey := "flowlauncher_plugin_program_run_as_administrator_not_supported_message"
  const OpenFolderKey := "flowlauncher_plugin_program_open_containing_folder"
  const RunAsAdministratorKey := "flowlauncher_plugin_program_run_as_administrator"
  const FolderIcon := "Images/folder.png"
  const AdminIcon := "Images/cmd.png"

  datatype MenuAction = OpenDirectory(path: string) | StartProcess(info: ProcessStart)

  datatype MenuEntry = MenuEntry(title: string, icoPath: string, action: MenuAction)

  class Application {
    var uid: string
    var DisplayName: string
    var Description: Option<string>
    var UserModelId: string
    var BackgroundColor: string
    var Location: string
    var Enabled: bool
    var CanRunElevated: bool
    var LogoPath: string

    function View(): AppView
      reads this
    {
      AppView(uid, DisplayName, Description, UserModelId, BackgroundColor, Location, Enabled, CanRunElevated, LogoPath)
    }

    /** Application(appListEntry, package); a null DisplayInfo makes it throw, which the caller
        catches, so the entry must have one. */
    constructor(entry: AppListEntry, location: string)
      requires entry.displayInfo.Some?
      ensures View() == InitialView(entry, location)
    {
      UserModelId := entry.appUserModelId;
      uid := NormalizedIdentifier(Some(entry.appUserModelId));
      DisplayName := entry.displayInfo.value.displayName;
      Description := entry.displayInfo.value.description;
      BackgroundColor := "";
      Location := location;
      Enabled := true;
      CanRunElevated := false;
      LogoPath := "";
    }

    /** The UniqueIdentifier setter; None stands for null. */
    method SetUniqueIdentifier(value: Option<string>)
      modifies this`uid
      ensures uid == NormalizedIdentifier(value)
      ensures IsLowerCase(uid)
    {
      uid := NormalizedIdentifier(value);
    }

    /** Equals(object): another Application with the same UniqueIdentifier. */
    predicate Equals(other: Application?)
      reads this, other
    {
      other != null && uid == other.uid
    }

    /** GetHashCode: the string hash of UniqueIdentifier. */
    function GetHashCode(stringHash: string -> int): int
      reads this
    {
      stringHash(uid)
    }

    /** Name: the display name. */
    function Name(): string
      reads this
    {
      DisplayName
    }

    /** InitLogoPathFromUri: LogoPath becomes the logo found under Location\uri, or else the one
        found under Location\Assets\uri; an exception leaves it as it was. */
    method InitLogoPathFromUri(uri: Option<string>, fs: FileSystem) returns (c: Completion)
      modifies this`LogoPath
      ensures match LogoFromUri(Location, uri, fs)
        case Threw(f) => c == Abrupt(f) && LogoPath == old(LogoPath)
        case Done(None) => c == Normal && LogoPath == old(LogoPath)
        case Done(Some(p)) => c == Normal && LogoPath == p
    {
      if IsNullOrWhiteSpace(uri) {
        return Abrupt(InvalidUri);
      }
      var path := Combine(Location, uri.value);
      var logoPath := TryToFindLogo(uri.value, path, fs);
      if logoPath.Threw? {
        return Abrupt(logoPath.fault);
      }
      if logoPath.value == "" {
        var tmp := Combine(Combine(Location, "Assets"), uri.value);
        if !EqualsIgnoreCase(path, tmp) {
          var fallback := TryToFindLogo(uri.value, tmp, fs);
          if fallback.Threw? {
            return Abrupt(fallback.fault);
          }
          if fallback.value != "" {
            LogoPath := fallback.value;
          }
        }
      } else {
        LogoPath := logoPath.value;
      }
      return Normal;
    }

    /** Result(query, api): no result unless the selected match succeeds; otherwise the chosen
        title, the location unless paths are hidden, the logo, and the selected match's score
        and offsets. */
    method Result(query: string, settings: Settings, fuzzy: (string, string) -> MatchResult) returns (r: Option<ResultItem>)
      ensures var m := SelectedMatch(query, settings, fuzzy, DisplayName, Description);
        && (r.Some? <==> m.success)
        && (r.Some? ==> r.value == ResultItem(Title(settings, DisplayName, Description),
                                              if settings.hideAppsPath then "" else Location,
                                              LogoPath, m.score, m.matchData))
    {
      var title: string;
      var matchResult: MatchResult;
      var name := Name();
      var choice := ChooseTitle(settings, name, Description);
      if choice == NameOnly {
        title := name;
        matchResult := fuzzy(query, title);
      } else if choice == DescriptionOnly {
        title := Description.value;
        matchResult := fuzzy(query, Description.value);
      } else {
        title := name + TitleSeparator + Description.value;
        var nameMatch := fuzzy(query, name);
        var descriptionMatch := fuzzy(query, Description.value);
        if descriptionMatch.score > nameMatch.score {
          var offsets := new int[|descriptionMatch.matchData|](k requires 0 <= k < |descriptionMatch.matchData| => descriptionMatch.matchData[k]);
          assert offsets[..] == descriptionMatch.matchData;
          ShiftMatchData(offsets, |name| + |TitleSeparator|);
          matchResult := descriptionMatch.(matchData := offsets[..]);
        } else {
          matchResult := nameMatch;
        }
      }
      if !matchResult.success {
        return None;
      }
      r := Some(ResultItem(title, if settings.hideAppsPath then "" else Location, LogoPath,
                           matchResult.score, matchResult.matchData));
    }

    /** The result's action: it launches the app, elevated exactly when the elevation gesture is
        held and the app can run elevated, and shows a warning exactly when the gesture is held
        and the app cannot. */
    function Action(keys: SpecialKeyState, expand: string -> string, translate: string -> string): (e: ActionEffect)
      reads this
      ensures e.launch == LaunchInfo(UserModelId, expand, e.launch.verb == RunAsVerb)
      ensures e.launch.verb == RunAsVerb <==> ElevationGesture(keys) && CanRunElevated
      ensures e.warning.Some? <==> ElevationGesture(keys) && !CanRunElevated
      ensures e.warning.Some? ==> e.warning.value == Message(WarningTitle, translate(RunAsNotSupportedKey))
      ensures e.hideWindow
    {
      var elevated := ElevationGesture(keys);
      var shouldRunElevated := elevated && CanRunElevated;
      var warning := if elevated && !shouldRunElevated then Some(Message(WarningTitle, translate(RunAsNotSupportedKey))) else None;
      ActionEffect(LaunchInfo(UserModelId, expand, shouldRunElevated), warning, true)
    }

    /** ContextMenus: "open containing folder" first, then "run as administrator" exactly when
        the app can run elevated. */
    function ContextMenus(translate: string -> string, expand: string -> string): (r: seq<MenuEntry>)
      reads this
      ensures |r| >= 1 && r[0] == MenuEntry(translate(OpenFolderKey), FolderIcon, OpenDirectory(Location))
      ensures |r| == if CanRunElevated then 2 else 1
      ensures forall k :: 0 < k < |r| ==>
        r[k] == MenuEntry(translate(RunAsAdministratorKey), AdminIcon, StartProcess(LaunchInfo(UserModelId, expand, true)))
    {
      var open := MenuEntry(translate(OpenFolderKey), FolderIcon, OpenDirectory(Location));
      if CanRunElevated
      then [open, MenuEntry(translate(RunAsAdministratorKey), AdminIcon, StartProcess(LaunchInfo(UserModelId, expand, true)))]
      else [open]
    }
  }

  /** The loop of Result that moves every highlighted offset by delta, in place. */
  method ShiftMatchData(matchData: array<int>, delta: int)
    modifies matchData
    ensures matchData[..] == Shifted(old(matchData[..]), delta)
  {
    for i := 0 to matchData.Length
      invariant forall k :: 0 <= k < i ==> matchData[k] == old(matchData[k]) + delta
      invariant forall k :: i <= k < matchData.Length ==> matchData[k] == old(matchData[k])
    {
      matchData[i] := matchData[i] + delta;
    }
  }

  /** Equal applications have equal hash codes, whatever the string hash. */
  lemma EqualApplicationsHashEqual(a: Application, b: Application, stringHash: string -> int)
    requires a.Equals(b)
    ensures a.GetHashCode(stringHash) == b.GetHashCode(stringHash)
  {
  }

  /** Applications built from two entries are equal exactly when their user model ids are equal
      ignoring case. */
  lemma EqualIffSameIdIgnoringCase(a: Application, b: Application, ea: AppListEntry, eb: AppListEntry, la: string, lb: string)
    requires ea.displayInfo.Some? && eb.displayInfo.Some?
    requires a.View() == InitialView(ea, la) && b.View() == InitialView(eb, lb)
    ensures a.Equals(b) <==> EqualsIgnoreCase(ea.appUserModelId, eb.appUserModelId)
  {
    SameIdentifierIffEqualIgnoringCase(ea.appUserModelId, eb.appUserModelId);
  }
}
