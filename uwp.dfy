/** UWP: a package of the current user, the applications it contributes, and the indexing of
    all packages. */
module UwpPackage {
  import opened Wrappers
  import opened Text
  import opened Manifest
  import opened LogoResolution
  import opened UwpApplication

  /** A Windows.ApplicationModel.Package as the indexer reads it. A property that is None
      throws when it is read; an installed path of "" also stands for null. */
  datatype PackageHandle = PackageHandle(
    name: string,
    fullName: string,
    familyName: string,
    isFramework: Option<bool>,
    isDevelopmentMode: Option<bool>,
    installedPath: Option<string>,
    /** GetAppListEntries, or None when it throws. */
    appListEntries: Option<seq<AppListEntry>>,
    /** GetManifestXml: None when AppxManifest.xml cannot be read or parsed. */
    manifest: Option<Document>)

  /** The filter of CurrentUserPackages: not a framework, not in development mode, with an
      installed path; a property that throws excludes the package. */
  function IsValidPackage(p: PackageHandle): (valid: bool)
    ensures valid <==>
      p.isFramework == Some(false) && p.isDevelopmentMode == Some(false)
      && p.installedPath.Some? && p.installedPath.value != ""
  {
    if p.isFramework.None? || p.isDevelopmentMode.None? || p.installedPath.None? then false
    else !p.isFramework.value && !p.isDevelopmentMode.value && p.installedPath.value != ""
  }

  function ValidPackages(ps: seq<PackageHandle>): seq<PackageHandle> {
    if ps == [] then []
    else if IsValidPackage(ps[0]) then [ps[0]] + ValidPackages(ps[1..])
    else ValidPackages(ps[1..])
  }

  /** CurrentUserPackages: the valid packages installed for the current user, none when there is
      no current user. packagesFor stands for PackageManager.FindPackagesForUser. */
  function CurrentUserPackages(user: Option<string>, packagesFor: string -> seq<PackageHandle>): (r: seq<PackageHandle>)
    ensures user.None? ==> r == []
    ensures user.Some? ==> forall p :: p in r <==> p in packagesFor(user.value) && IsValidPackage(p)
  {
    match user
    case None => []
    case Some(id) =>
      ValidPackagesMembership(packagesFor(id));
      ValidPackages(packagesFor(id))
  }

  /** A package is kept exactly when it is valid. */
  lemma {:induction false} ValidPackagesMembership(ps: seq<PackageHandle>)
    ensures forall p :: p in ValidPackages(ps) <==> p in ps && IsValidPackage(p)
  {
    if ps != [] {
      ValidPackagesMembership(ps[1..]);
      assert ps == [ps[0]] + ps[1..];
    }
  }

  /** What the manifest tells every application: the logo attribute name of its schema, whether
      it declares the allowElevation capability, and whether it has an Applications element. */
  datatype ManifestFacts = ManifestFacts(logoName: string, packageCanElevate: bool, hasApplications: bool)

  /** The part of InitAppsInPackage before its loop: the version, the logo name (whose lookup
      throws for Unknown) and the two package-wide queries. */
  function FactsOf(doc: Document): (r: Outcome<ManifestFacts>)
    ensures r.Threw? <==> PackageVersionOf(Root(doc)) == Unknown
    ensures r.Threw? ==> r.fault == KeyNotFound
    ensures r.Done? ==> Some(r.value.logoName) == LogoNameFromNamespace(PackageVersionOf(Root(doc)))
    ensures r.Done? ==> r.value.packageCanElevate == SelectSingleNode(doc, AllowElevationCapability).Some?
  {
    match LogoNameFromNamespace(PackageVersionOf(Root(doc)))
    case None => Threw(KeyNotFound)
    case Some(logoName) =>
      Done(ManifestFacts(logoName, SelectSingleNode(doc, AllowElevationCapability).Some?,
                         SelectSingleNode(doc, ApplicationsNode).Some?))
  }

  /** The application after one pass of the loop, and how the pass ended. */
  datatype StepResult = StepResult(app: AppView, completion: Completion)

  /** UserModelId.Split('!')[1]: what follows the first '!' up to any second one; None when
      there is no '!' and the indexer throws. */
  function ApplicationId(userModelId: string): (id: Option<string>)
    ensures id.Some? <==> '!' in userModelId
  {
    SecondPieceIffSeparator(userModelId, '!');
    var pieces := Split(userModelId, '!');
    if |pieces| < 2 then None else Some(pieces[1])
  }

  /** The loop finds an Application element for app: the manifest has an Applications element
      and some Application element carries the application id. */
  predicate HasApplicationNode(app: AppView, doc: Document, facts: ManifestFacts) {
    && ApplicationId(app.userModelId).Some?
    && facts.hasApplications
    && SelectSingleNode(doc, ApplicationById(ApplicationId(app.userModelId).value)).Some?
  }

  /** visualElement.Attributes[logoName]?.Value for the first uap:VisualElements element of the
      document, then InitLogoPathFromUri; without such an element the dereference throws. */
  function LogoStep(location: string, doc: Document, facts: ManifestFacts, fs: FileSystem): Outcome<Option<string>> {
    match SelectSingleNode(doc, VisualElementsNode)
    case None => Threw(NullReference)
    case Some(visual) => LogoFromUri(location, AttributeValue(visual.attributes, facts.logoName), fs)
  }

  /** One pass of the loop of InitAppsInPackage over an application: its application id, its
      Application element, its elevation, and its logo. Every query searches the whole
      document. */
  function AppStep(app: AppView, doc: Document, facts: ManifestFacts, fs: FileSystem): StepResult {
    if ApplicationId(app.userModelId).None? then StepResult(app, Abrupt(IndexOutOfRange))
    else if !HasApplicationNode(app, doc, facts) then StepResult(app, Normal)
    else
      var elevated := app.(canRunElevated := facts.packageCanElevate || IfAppCanRunElevated(doc));
      match LogoStep(app.location, doc, facts, fs)
      case Threw(f) => StepResult(elevated, Abrupt(f))
      case Done(None) => StepResult(elevated, Normal)
      case Done(Some(p)) => StepResult(elevated.(logoPath := p), Normal)
  }

  /** A pass changes nothing but CanRunElevated and LogoPath, and nothing at all without an
      Application element; with one, the elevation and the logo depend only on the manifest,
      the location and the logo the application had. */
  lemma AppStepEffect(app: AppView, doc: Document, facts: ManifestFacts, fs: FileSystem)
    ensures var a := AppStep(app, doc, facts, fs).app;
      && a.(canRunElevated := app.canRunElevated, logoPath := app.logoPath) == app
      && (!HasApplicationNode(app, doc, facts) ==> a == app)
      && (HasApplicationNode(app, doc, facts) ==>
            && a.canRunElevated == (facts.packageCanElevate || IfAppCanRunElevated(doc))
            && a.logoPath == match LogoStep(app.location, doc, facts, fs) case Done(Some(p)) => p case _ => app.logoPath)
  {
  }

  /** A pass over an application whose Application element is found, given the outcome of its
      logo resolution. */
  lemma AppStepWithNode(app: AppView, doc: Document, facts: ManifestFacts, fs: FileSystem, logo: Outcome<Option<string>>)
    requires HasApplicationNode(app, doc, facts)
    requires logo == LogoStep(app.location, doc, facts, fs)
    ensures var elevated := app.(canRunElevated := facts.packageCanElevate || IfAppCanRunElevated(doc));
      AppStep(app, doc, facts, fs) == match logo
        case Threw(f) => StepResult(elevated, Abrupt(f))
        case Done(None) => StepResult(elevated, Normal)
        case Done(Some(p)) => StepResult(elevated.(logoPath := p), Normal)
  {
  }

  /** The pass whose exception ends the loop, or the number of applications when none throws. */
  function AbortIndex(apps: seq<AppView>, doc: Document, facts: ManifestFacts, fs: FileSystem): (k: nat)
    ensures k <= |apps|
    ensures forall j :: 0 <= j < k ==> AppStep(apps[j], doc, facts, fs).completion.Normal?
    ensures k < |apps| ==> AppStep(apps[k], doc, facts, fs).completion.Abrupt?
  {
    if apps == [] then 0
    else if AppStep(apps[0], doc, facts, fs).completion.Abrupt? then 0
    else 1 + AbortIndex(apps[1..], doc, facts, fs)
  }

  /** The applications after the loop: every pass up to and including the one that throws has
      its effect, the applications after it keep their state. */
  function AfterSteps(apps: seq<AppView>, doc: Document, facts: ManifestFacts, fs: FileSystem): (r: seq<AppView>)
    ensures |r| == |apps|
  {
    var k := AbortIndex(apps, doc, facts, fs);
    seq(|apps|, j requires 0 <= j < |apps| => if j <= k then AppStep(apps[j], doc, facts, fs).app else apps[j])
  }

  /** The metadata part of InitAppsInPackage: nothing happens without a manifest or for a
      manifest of unknown version; otherwise the loop runs. */
  function PackageMetadata(apps: seq<AppView>, manifest: Option<Document>, fs: FileSystem): (r: seq<AppView>)
    ensures |r| == |apps|
  {
    match manifest
    case None => apps
    case Some(doc) =>
      match FactsOf(doc)
      case Threw(_) => apps
      case Done(facts) => AfterSteps(apps, doc, facts, fs)
  }

  /** The first loop of InitAppsInPackage over the first n entries: an application for every
      entry whose constructor does not throw, in order. */
  function Constructed(entries: seq<AppListEntry>, n: nat, location: string): seq<AppView>
    requires n <= |entries|
  {
    if n == 0 then []
    else
      Constructed(entries, n - 1, location)
        + (if entries[n - 1].displayInfo.Some? then [InitialView(entries[n - 1], location)] else [])
  }

  /** Freshly constructed applications are enabled, not elevated, without a logo, with a lower-case
      identifier, and located in the package. */
  lemma {:induction false} ConstructedDefaults(entries: seq<AppListEntry>, n: nat, location: string)
    requires n <= |entries|
    ensures forall v :: v in Constructed(entries, n, location) ==>
      v.enabled && !v.canRunElevated && v.logoPath == "" && v.location == location && IsLowerCase(v.uniqueIdentifier)
  {
    if n > 0 {
      ConstructedDefaults(entries, n - 1, location);
    }
  }

  /** Without a manifest of known version no application is elevated or gets a logo: the logo
      name lookup throws before the loop starts. */
  lemma UnknownVersionKeepsDefaults(entries: seq<AppListEntry>, location: string, manifest: Option<Document>, fs: FileSystem)
    requires manifest.None? || PackageVersionOf(Root(manifest.value)) == Unknown
    ensures forall v :: v in PackageMetadata(Constructed(entries, |entries|, location), manifest, fs) ==>
      !v.canRunElevated && v.logoPath == ""
  {
    ConstructedDefaults(entries, |entries|, location);
  }

  /** The loop changes nothing but elevation and logo, and nothing at all after the pass that
      throws. */
  lemma AfterStepsFrame(apps: seq<AppView>, doc: Document, facts: ManifestFacts, fs: FileSystem)
    ensures var r := AfterSteps(apps, doc, facts, fs); var k := AbortIndex(apps, doc, facts, fs);
      && (forall j :: k < j < |apps| ==> r[j] == apps[j])
      && (forall j :: 0 <= j < |apps| ==>
            r[j].(canRunElevated := apps[j].canRunElevated, logoPath := apps[j].logoPath) == apps[j])
  {
    forall j | 0 <= j < |apps|
      ensures AfterSteps(apps, doc, facts, fs)[j].(canRunElevated := apps[j].canRunElevated, logoPath := apps[j].logoPath) == apps[j]
    {
      AppStepEffect(apps[j], doc, facts, fs);
    }
  }

  /** Whatever the manifest, the metadata changes nothing of an application but its elevation
      and its logo. */
  lemma MetadataChangesOnlyElevationAndLogo(apps: seq<AppView>, manifest: Option<Document>, fs: FileSystem)
    ensures var r := PackageMetadata(apps, manifest, fs);
      forall j :: 0 <= j < |apps| ==>
        r[j].(canRunElevated := apps[j].canRunElevated, logoPath := apps[j].logoPath) == apps[j]
  {
    if manifest.Some? && FactsOf(manifest.value).Done? {
      AfterStepsFrame(apps, manifest.value, FactsOf(manifest.value).value, fs);
    }
  }

  /** An application becomes elevated only on evidence in the manifest: the allowElevation
      capability, or the full-trust or medium-integrity Application element. */
  lemma ElevationNeedsManifestEvidence(apps: seq<AppView>, doc: Document, fs: FileSystem, j: nat)
    requires j < |apps| && !apps[j].canRunElevated
    requires PackageMetadata(apps, Some(doc), fs)[j].canRunElevated
    ensures PackageVersionOf(Root(doc)) != Unknown
    ensures SelectSingleNode(doc, AllowElevationCapability).Some? || IfAppCanRunElevated(doc)
  {
    if FactsOf(doc).Done? {
      AppStepEffect(apps[j], doc, FactsOf(doc).value, fs);
    }
  }

  /** With the allowElevation capability, every application the loop reaches whose Application
      element is found becomes elevated. */
  lemma AllowElevationElevatesMatchedApps(apps: seq<AppView>, doc: Document, facts: ManifestFacts, fs: FileSystem, j: nat)
    requires facts.packageCanElevate
    requires j < |apps| && j <= AbortIndex(apps, doc, facts, fs)
    requires HasApplicationNode(apps[j], doc, facts)
    ensures AfterSteps(apps, doc, facts, fs)[j].canRunElevated
  {
    AppStepEffect(apps[j], doc, facts, fs);
  }

  /** The queries search the whole document, so any two applications of a package that the loop
      reaches and whose Application elements are found get the same elevation, and the same logo
      when they start from the same one. */
  lemma MatchedAppsShareMetadata(apps: seq<AppView>, doc: Document, facts: ManifestFacts, fs: FileSystem, j: nat, k: nat)
    requires j < |apps| && k < |apps|
    requires j <= AbortIndex(apps, doc, facts, fs) && k <= AbortIndex(apps, doc, facts, fs)
    requires apps[j].location == apps[k].location && apps[j].logoPath == apps[k].logoPath
    requires HasApplicationNode(apps[j], doc, facts) && HasApplicationNode(apps[k], doc, facts)
    ensures var r := AfterSteps(apps, doc, facts, fs);
      r[j].canRunElevated == r[k].canRunElevated && r[j].logoPath == r[k].logoPath
  {
    AppStepEffect(apps[j], doc, facts, fs);
    AppStepEffect(apps[k], doc, facts, fs);
  }

  /** A user model id without '!' ends the loop at its application, which keeps its state, as do
      all later ones. */
  lemma IdWithoutSeparatorStopsLoop(apps: seq<AppView>, doc: Document, facts: ManifestFacts, fs: FileSystem, j: nat)
    requires j < |apps| && '!' !in apps[j].userModelId
    ensures AbortIndex(apps, doc, facts, fs) <= j
    ensures forall i :: j <= i < |apps| ==> AfterSteps(apps, doc, facts, fs)[i] == apps[i]
  {
    var k := AbortIndex(apps, doc, facts, fs);
    assert ApplicationId(apps[j].userModelId).None?;
    assert AppStep(apps[j], doc, facts, fs) == StepResult(apps[j], Abrupt(IndexOutOfRange));
    forall i | j <= i < |apps|
      ensures AfterSteps(apps, doc, facts, fs)[i] == apps[i]
    {
      if i <= k {
        assert i == j;
      }
    }
  }

  /** The applications of a package as UWP(package).Apps holds them; None when the constructor
      throws, because the installed location or the app list entries cannot be read. */
  function PackageApps(p: PackageHandle, fs: FileSystem): Option<seq<AppView>> {
    if p.installedPath.None? || p.appListEntries.None? then None
    else
      var entries := p.appListEntries.value;
      Some(PackageMetadata(Constructed(entries, |entries|, p.installedPath.value), p.manifest, fs))
  }

  /** The applications of the first n packages, in package order; a package whose constructor
      throws contributes none. */
  function IndexedApps(packages: seq<PackageHandle>, n: nat, fs: FileSystem): seq<AppView>
    requires n <= |packages|
  {
    if n == 0 then []
    else
      IndexedApps(packages, n - 1, fs)
        + (match PackageApps(packages[n - 1], fs) case None => [] case Some(apps) => apps)
  }

  /** The filter of All: applications whose identifier is that of a disabled program source go. */
  function WithoutDisabled(apps: seq<AppView>, disabled: seq<string>): (r: seq<AppView>)
    ensures forall v :: v in r <==> v in apps && v.uniqueIdentifier !in disabled
  {
    if apps == [] then []
    else
      var rest := WithoutDisabled(apps[1..], disabled);
      assert forall v :: v in apps <==> v == apps[0] || v in apps[1..];
      if apps[0].uniqueIdentifier in disabled then rest else [apps[0]] + rest
  }

  /** All: nothing before Windows 10; otherwise the enabled applications of the valid packages
      of the current user. */
  function AllApps(osMajor: int, user: Option<string>, packagesFor: string -> seq<PackageHandle>,
                   disabled: seq<string>, fs: FileSystem): (r: seq<AppView>)
    ensures osMajor < 10 ==> r == []
    ensures forall v :: v in r ==> v.uniqueIdentifier !in disabled
  {
    if osMajor < 10 then []
    else
      var packages := CurrentUserPackages(user, packagesFor);
      WithoutDisabled(IndexedApps(packages, |packages|, fs), disabled)
  }

  lemma {:induction false} IndexedAppsMembership(packages: seq<PackageHandle>, n: nat, fs: FileSystem, v: AppView)
    requires n <= |packages| && v in IndexedApps(packages, n, fs)
    ensures exists p :: p in packages && PackageApps(p, fs).Some? && v in PackageApps(p, fs).value
  {
    if v in IndexedApps(packages, n - 1, fs) {
      IndexedAppsMembership(packages, n - 1, fs, v);
    } else {
      assert packages[n - 1] in packages;
    }
  }

  /** Every application of each of the first n packages is indexed. */
  lemma {:induction false} IndexedAppsComplete(packages: seq<PackageHandle>, n: nat, fs: FileSystem, i: nat, v: AppView)
    requires i < n <= |packages|
    requires PackageApps(packages[i], fs).Some? && v in PackageApps(packages[i], fs).value
    ensures v in IndexedApps(packages, n, fs)
  {
    var earlier := IndexedApps(packages, n - 1, fs);
    var all := IndexedApps(packages, n, fs);
    assert earlier <= all;
    if i < n - 1 {
      IndexedAppsComplete(packages, n - 1, fs, i, v);
      var k :| 0 <= k < |earlier| && earlier[k] == v;
      assert all[k] == v;
    } else {
      assert all == earlier + PackageApps(packages[i], fs).value;
    }
  }

  /** Every application of a package is enabled, located in the package and has a lower-case
      identifier, whatever its manifest says. */
  lemma PackageAppsKeepIdentity(p: PackageHandle, fs: FileSystem, v: AppView)
    requires PackageApps(p, fs).Some? && v in PackageApps(p, fs).value
    ensures v.enabled && v.location == p.installedPath.value && IsLowerCase(v.uniqueIdentifier)
  {
    var entries := p.appListEntries.value;
    var before := Constructed(entries, |entries|, p.installedPath.value);
    ConstructedDefaults(entries, |entries|, p.installedPath.value);
    MetadataChangesOnlyElevationAndLogo(before, p.manifest, fs);
    var j :| 0 <= j < |before| && PackageApps(p, fs).value[j] == v;
    assert before[j] in before;
  }

  /** Every indexed application has a lower-case identifier, is not disabled, and comes from a
      valid package of the current user, on Windows 10 or later. */
  lemma AllAppsComeFromValidPackages(osMajor: int, user: Option<string>, packagesFor: string -> seq<PackageHandle>,
                                     disabled: seq<string>, fs: FileSystem, v: AppView)
    requires v in AllApps(osMajor, user, packagesFor, disabled, fs)
    ensures osMajor >= 10 && user.Some?
    ensures v.uniqueIdentifier !in disabled && IsLowerCase(v.uniqueIdentifier)
    ensures exists p :: p in packagesFor(user.value) && IsValidPackage(p) && PackageApps(p, fs).Some? && v in PackageApps(p, fs).value
  {
    var packages := CurrentUserPackages(user, packagesFor);
    IndexedAppsMembership(packages, |packages|, fs, v);
    var p :| p in packages && PackageApps(p, fs).Some? && v in PackageApps(p, fs).value;
    ValidPackagesMembership(packagesFor(user.value));
    PackageAppsKeepIdentity(p, fs, v);
  }

  /** Conversely, on Windows 10 or later every application of a valid package of the current
      user whose identifier is not disabled is indexed. */
  lemma AllAppsIncludeEveryEnabledApp(osMajor: int, user: Option<string>, packagesFor: string -> seq<PackageHandle>,
                                      disabled: seq<string>, fs: FileSystem, p: PackageHandle, v: AppView)
    requires osMajor >= 10 && user.Some?
    requires p in packagesFor(user.value) && IsValidPackage(p)
    requires PackageApps(p, fs).Some? && v in PackageApps(p, fs).value
    requires v.uniqueIdentifier !in disabled
    ensures v in AllApps(osMajor, user, packagesFor, disabled, fs)
  {
    var packages := CurrentUserPackages(user, packagesFor);
    var i :| 0 <= i < |packages| && packages[i] == p;
    IndexedAppsComplete(packages, |packages|, fs, i, v);
  }

  /** The fields of a sequence of applications, as values. */
  function Views(apps: seq<Application>): (r: seq<AppView>)
    reads apps
    ensures |r| == |apps| && forall j :: 0 <= j < |apps| ==> r[j] == apps[j].View()
  {
    seq(|apps|, j requires 0 <= j < |apps| reads apps => apps[j].View())
  }

  predicate Distinct(apps: seq<Application>) {
    forall j, k :: 0 <= j < k < |apps| ==> apps[j] != apps[k]
  }

  /** The body of the loop of InitAppsInPackage for one application. */
  method ApplyManifest(app: Application, doc: Document, facts: ManifestFacts, fs: FileSystem) returns (c: Completion)
    modifies app
    ensures StepResult(app.View(), c) == AppStep(old(app.View()), doc, facts, fs)
    ensures app.uid == old(app.uid)
  {
    ghost var before := app.View();
    var pieces := Split(app.UserModelId, '!');
    assert ApplicationId(before.userModelId) == if |pieces| < 2 then None else Some(pieces[1]);
    if |pieces| < 2 {
      return Abrupt(IndexOutOfRange);
    }
    var id := pieces[1];
    var appNode := if facts.hasApplications then SelectSingleNode(doc, ApplicationById(id)) else None;
    assert appNode.Some? <==> HasApplicationNode(before, doc, facts);
    if appNode.Some? {
      app.CanRunElevated := facts.packageCanElevate || IfAppCanRunElevated(doc);
      var visualElement := SelectSingleNode(doc, VisualElementsNode);
      if visualElement.None? {
        return Abrupt(NullReference);
      }
      var logoUri := AttributeValue(visualElement.value.attributes, facts.logoName);
      ghost var logo := LogoFromUri(app.Location, logoUri, fs);
      AppStepWithNode(before, doc, facts, fs, logo);
      c := app.InitLogoPathFromUri(logoUri, fs);
      return;
    }
    return Normal;
  }

  /** The first loop of InitAppsInPackage: a new Application for each entry whose constructor
      does not throw; the one that throws is skipped. */
  method ConstructApps(entries: seq<AppListEntry>, location: string) returns (applist: seq<Application>)
    ensures Views(applist) == Constructed(entries, |entries|, location)
    ensures forall a :: a in applist ==> fresh(a)
    ensures Distinct(applist)
  {
    applist := [];
    for i := 0 to |entries|
      invariant Views(applist) == Constructed(entries, i, location)
      invariant forall j :: 0 <= j < |applist| ==> fresh(applist[j])
      invariant Distinct(applist)
    {
      var app := entries[i];
      ghost var prior := Views(applist);
      if app.displayInfo.Some? {
        var tmp := new Application(app, location);
        assert Views(applist) == prior;
        ViewsAppend(applist, [tmp]);
        assert Views([tmp]) == [InitialView(app, location)];
        applist := applist + [tmp];
      }
      assert Constructed(entries, i + 1, location)
        == prior + (if app.displayInfo.Some? then [InitialView(app, location)] else []);
    }
  }

  lemma LoopStopsAt(before: seq<AppView>, after: seq<AppView>, doc: Document, facts: ManifestFacts, fs: FileSystem, i: nat)
    requires |after| == |before| && i <= |before|
    requires forall j :: 0 <= j < i ==> AppStep(before[j], doc, facts, fs).completion.Normal?
    requires forall j :: 0 <= j < |before| ==> after[j] == if j <= i then AppStep(before[j], doc, facts, fs).app else before[j]
    requires i < |before| ==> AppStep(before[i], doc, facts, fs).completion.Abrupt?
    ensures after == AfterSteps(before, doc, facts, fs)
  {
    assert AbortIndex(before, doc, facts, fs) == i;
  }

  method ApplyManifestToAll(applist: seq<Application>, doc: Document, facts: ManifestFacts, fs: FileSystem)
    requires Distinct(applist)
    modifies set a | a in applist
    ensures Views(applist) == AfterSteps(old(Views(applist)), doc, facts, fs)
  {
    ghost var before := Views(applist);
    var i := 0;
    while i < |applist|
      invariant 0 <= i <= |applist|
      invariant forall j :: 0 <= j < i ==> AppStep(before[j], doc, facts, fs).completion.Normal?
      invariant forall j :: 0 <= j < |applist| ==> applist[j].View() == if j < i then AppStep(before[j], doc, facts, fs).app else before[j]
    {
      label Pass:
      var c := ApplyManifest(applist[i], doc, facts, fs);
      forall j | 0 <= j < |applist| && j != i
        ensures applist[j].View() == old@Pass(applist[j].View())
      {
        assert applist[j] != applist[i];
      }
      if c.Abrupt? {
        LoopStopsAt(before, Views(applist), doc, facts, fs, i);
        return;
      }
      i := i + 1;
    }
    LoopStopsAt(before, Views(applist), doc, facts, fs, i);
  }

  /** The metadata part of InitAppsInPackage: the logo name lookup, then the loop; without a
      manifest, or when the lookup throws, the applications are left as constructed. */
  method ApplyPackageMetadata(applist: seq<Application>, manifest: Option<Document>, fs: FileSystem)
    requires Distinct(applist)
    modifies set a | a in applist
    ensures Views(applist) == PackageMetadata(old(Views(applist)), manifest, fs)
  {
    if manifest.None? {
      return;
    }
    var facts := FactsOf(manifest.value);
    if facts.Threw? {
      return;
    }
    ApplyManifestToAll(applist, manifest.value, facts.value, fs);
  }

  class UWP {
    const Name: string
    const FullName: string
    const FamilyName: string
    var Location: string
    var Apps: seq<Application>

    /** UWP(package): the names and location of the package, then InitAppsInPackage. */
    constructor(p: PackageHandle, fs: FileSystem)
      requires p.installedPath.Some? && p.appListEntries.Some?
      ensures Name == p.name && FullName == p.fullName && FamilyName == p.familyName
      ensures Location == p.installedPath.value
      ensures Some(Views(Apps)) == PackageApps(p, fs)
      ensures forall a :: a in Apps ==> fresh(a)
    {
      Location := p.installedPath.value;
      Name := p.name;
      FullName := p.fullName;
      FamilyName := p.familyName;
      Apps := [];
      new;
      InitAppsInPackage(p.appListEntries.value, p.manifest, fs);
    }

    /** InitAppsInPackage: one application per entry that constructs, then the metadata of the
        manifest, applied to the applications in order until the first exception. */
    method InitAppsInPackage(entries: seq<AppListEntry>, manifest: Option<Document>, fs: FileSystem)
      modifies this`Apps
      ensures Views(Apps) == PackageMetadata(Constructed(entries, |entries|, Location), manifest, fs)
      ensures forall a :: a in Apps ==> fresh(a)
    {
      var applist := ConstructApps(entries, Location);
      Apps := applist;
      assert Views(applist) == Constructed(entries, |entries|, Location);
      ApplyPackageMetadata(applist, manifest, fs);
      assert Apps == applist;
    }

    /** Equals(object): another package with the same family name. */
    predicate Equals(other: UWP?) {
      other != null && FamilyName == other.FamilyName
    }

    /** GetHashCode: the string hash of the family name. */
    function GetHashCode(stringHash: string -> int): int {
      stringHash(FamilyName)
    }
  }

  /** Equal packages have equal hash codes, whatever the string hash. */
  lemma EqualPackagesHashEqual(a: UWP, b: UWP, stringHash: string -> int)
    requires a.Equals(b)
    ensures a.GetHashCode(stringHash) == b.GetHashCode(stringHash)
  {
  }

  /** Packages are equal exactly when their family names are, whatever else differs. */
  lemma PackageEqualityIsFamilyName(a: UWP, b: UWP)
    ensures a.Equals(b) <==> a.FamilyName == b.FamilyName
    ensures a.Equals(b) <==> b.Equals(a)
  {
  }

  /** The body of the parallel query of All for one package: the applications of UWP(package),
      or none when its constructor throws. */
  method ApplicationsOf(p: PackageHandle, fs: FileSystem) returns (apps: seq<Application>)
    ensures Views(apps) == match PackageApps(p, fs) case None => [] case Some(v) => v
  {
    if p.installedPath.None? || p.appListEntries.None? {
      return [];
    }
    var u := new UWP(p, fs);
    return u.Apps;
  }

  lemma ViewsAppend(a: seq<Application>, b: seq<Application>)
    ensures Views(a + b) == Views(a) + Views(b)
  {
    assert forall j :: 0 <= j < |a + b| ==> Views(a + b)[j] == (Views(a) + Views(b))[j];
  }

  /** All: the applications of the valid packages of the current user, without the disabled
      ones; none before Windows 10. */
  method All(osMajor: int, user: Option<string>, packagesFor: string -> seq<PackageHandle>,
             disabled: seq<string>, fs: FileSystem) returns (apps: seq<Application>)
    ensures Views(apps) == AllApps(osMajor, user, packagesFor, disabled, fs)
  {
    if osMajor < 10 {
      return [];
    }
    var packages := CurrentUserPackages(user, packagesFor);
    var applications: seq<Application> := [];
    for i := 0 to |packages|
      invariant Views(applications) == IndexedApps(packages, i, fs)
    {
      var more := ApplicationsOf(packages[i], fs);
      ViewsAppend(applications, more);
      applications := applications + more;
    }
    apps := KeepEnabled(applications, disabled);
  }

  /** applications.Where(app => no disabled source has its identifier). */
  function KeepEnabled(apps: seq<Application>, disabled: seq<string>): (r: seq<Application>)
    reads apps
    ensures Views(r) == WithoutDisabled(Views(apps), disabled)
  {
    if apps == [] then []
    else
      var rest := KeepEnabled(apps[1..], disabled);
      var views := Views(apps);
      assert views[1..] == Views(apps[1..]);
      assert views[0].uniqueIdentifier == apps[0].uid;
      if apps[0].uid in disabled then rest
      else
        ViewsAppend([apps[0]], rest);
        assert Views([apps[0]]) == [views[0]];
        [apps[0]] + rest
  }
}
