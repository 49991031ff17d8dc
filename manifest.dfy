/** The AppxManifest.xml document as the package indexer queries it: the elements in document
    order, and XPath queries that all start with "//" and so search the whole document and
    return its first matching element. */
module Manifest {
  import opened Wrappers

  datatype Attribute = Attribute(name: string, value: string)

  /** An element with its namespace prefix as written ("" for none), its local name and its
      attributes in document order, namespace declarations included. */
  datatype Element = Element(prefix: string, localName: string, attributes: seq<Attribute>)

  /** Every element of the document, in document order; the first one is the root. */
  datatype Document = Document(elements: seq<Element>)

  datatype PackageVersion = Windows10 | Windows81 | Windows8 | Unknown

  const Windows10Namespace := "http://schemas.microsoft.com/appx/manifest/foundation/windows10"
  const Windows81Namespace := "http://schemas.microsoft.com/appx/2013/manifest"
  const Windows8Namespace := "http://schemas.microsoft.com/appx/2010/manifest"

  const FullTrustEntryPoint := "Windows.FullTrustApplication"
  const MediumIntegrityTrustLevel := "mediumIL"

  /** XmlDocument.DocumentElement; None stands for null. */
  function Root(doc: Document): Option<Element> {
    if doc.elements == [] then None else Some(doc.elements[0])
  }

  /** XPath name(): the qualified name as written. */
  function QualifiedName(e: Element): string {
    if e.prefix == "" then e.localName else e.prefix + ":" + e.localName
  }

  /** The index of the first attribute called name. */
  function AttributeIndex(attributes: seq<Attribute>, name: string): (r: Option<nat>)
    ensures r.Some? ==> r.value < |attributes| && attributes[r.value].name == name
    ensures r.Some? ==> forall j :: 0 <= j < r.value ==> attributes[j].name != name
    ensures r.None? ==> forall j :: 0 <= j < |attributes| ==> attributes[j].name != name
  {
    if attributes == [] then None
    else if attributes[0].name == name then Some(0)
    else
      match AttributeIndex(attributes[1..], name)
      case None => None
      case Some(i) => Some(i + 1)
  }

  /** Attributes[name]?.Value. */
  function AttributeValue(attributes: seq<Attribute>, name: string): Option<string> {
    match AttributeIndex(attributes, name)
    case None => None
    case Some(i) => Some(attributes[i].value)
  }

  /** Attributes[name]?.Value is null exactly when no attribute has that name, and otherwise
      the value of the first attribute that has it. */
  lemma AttributeValueOfFirstNamed(attributes: seq<Attribute>, name: string, i: nat)
    requires i < |attributes| && attributes[i].name == name
    requires forall j :: 0 <= j < i ==> attributes[j].name != name
    ensures AttributeValue(attributes, name) == Some(attributes[i].value)
  {
    var k := AttributeIndex(attributes, name);
    assert k.Some? && !(k.value < i) && !(k.value > i);
  }

  lemma AttributeValueNullIffUnnamed(attributes: seq<Attribute>, name: string)
    ensures AttributeValue(attributes, name).None? <==> forall j :: 0 <= j < |attributes| ==> attributes[j].name != name
  {
  }

  /** The XPath expressions of UWP.cs, each as the test it applies to one element. */
  datatype Query =
    | AllowElevationCapability   // //*[name()='rescap:Capability' and @Name='allowElevation']
    | ApplicationsNode           // //*[name()='Applications']
    | ApplicationById(id: string) // //*[name()='Application' and @Id='{id}']
    | ApplicationWithEntryPoint  // //*[local-name()='Application' and @EntryPoint]
    | ApplicationWithTrustLevel  // //*[local-name()='Application' and @uap10:TrustLevel]
    | VisualElementsNode         // //*[name()='uap:VisualElements']

  predicate Matches(q: Query, e: Element) {
    match q
    case AllowElevationCapability =>
      QualifiedName(e) == "rescap:Capability" && AttributeValue(e.attributes, "Name") == Some("allowElevation")
    case ApplicationsNode => QualifiedName(e) == "Applications"
    case ApplicationById(id) => QualifiedName(e) == "Application" && AttributeValue(e.attributes, "Id") == Some(id)
    case ApplicationWithEntryPoint =>
      e.localName == "Application" && AttributeValue(e.attributes, "EntryPoint").Some?
    case ApplicationWithTrustLevel =>
      e.localName == "Application" && AttributeValue(e.attributes, "uap10:TrustLevel").Some?
    case VisualElementsNode => QualifiedName(e) == "uap:VisualElements"
  }

  /** The index of the first element at or after position from, in document order, that a
      query selects. */
  function FirstMatch(elements: seq<Element>, q: Query, from: nat): (r: Option<nat>)
    requires from <= |elements|
    ensures r.Some? ==> from <= r.value < |elements| && Matches(q, elements[r.value])
    ensures r.Some? ==> forall j :: from <= j < r.value ==> !Matches(q, elements[j])
    ensures r.None? ==> forall j :: from <= j < |elements| ==> !Matches(q, elements[j])
    decreases |elements| - from
  {
    if from == |elements| then None
    else if Matches(q, elements[from]) then Some(from)
    else
      var r := FirstMatch(elements, q, from + 1);
      assert r.Some? ==> forall j :: from < j < r.value ==> !Matches(q, elements[j]);
      r
  }

  /** XmlNode.SelectSingleNode for a query starting with "//": whichever node it is called on,
      the answer is the first matching element of the whole document. */
  function SelectSingleNode(doc: Document, q: Query): Option<Element> {
    match FirstMatch(doc.elements, q, 0)
    case None => None
    case Some(i) => Some(doc.elements[i])
  }

  /** The versionFromNamespace dictionary (TryGetValue). */
  function VersionFromNamespace(uri: string): (v: Option<PackageVersion>)
    ensures v != Some(Unknown)
  {
    if uri == Windows10Namespace then Some(Windows10)
    else if uri == Windows81Namespace then Some(Windows81)
    else if uri == Windows8Namespace then Some(Windows8)
    else None
  }

  /** The logoNameFromNamespace dictionary; None is the KeyNotFoundException of its indexer. */
  function LogoNameFromNamespace(v: PackageVersion): (name: Option<string>)
    ensures name.None? <==> v == Unknown
  {
    match v
    case Windows10 => Some("Square44x44Logo")
    case Windows81 => Some("Square30x30Logo")
    case Windows8 => Some("SmallLogo")
    case Unknown => None
  }

  /** The index of the first attribute at or after position from whose value is a known
      foundation namespace. */
  function FirstKnownNamespace(attributes: seq<Attribute>, from: nat): (r: Option<nat>)
    requires from <= |attributes|
    ensures r.Some? ==> from <= r.value < |attributes| && VersionFromNamespace(attributes[r.value].value).Some?
    ensures r.Some? ==> forall j :: from <= j < r.value ==> VersionFromNamespace(attributes[j].value).None?
    ensures r.None? ==> forall j :: from <= j < |attributes| ==> VersionFromNamespace(attributes[j].value).None?
    decreases |attributes| - from
  {
    if from == |attributes| then None
    else if VersionFromNamespace(attributes[from].value).Some? then Some(from)
    else FirstKnownNamespace(attributes, from + 1)
  }

  /** The schema generation of a manifest whose root element is root. */
  function PackageVersionOf(root: Option<Element>): PackageVersion {
    match root
    case None => Unknown
    case Some(e) =>
      match FirstKnownNamespace(e.attributes, 0)
      case None => Unknown
      case Some(i) => VersionFromNamespace(e.attributes[i].value).value
  }

  /** GetPackageVersionFromManifest: the version of the first root attribute, in attribute
      order, whose value is one of the three foundation namespaces; Unknown for a null root or
      when no attribute has such a value. */
  method GetPackageVersionFromManifest(root: Option<Element>) returns (v: PackageVersion)
    ensures v == PackageVersionOf(root)
    ensures v == Unknown <==>
      root.None? || forall i :: 0 <= i < |root.value.attributes| ==> VersionFromNamespace(root.value.attributes[i].value).None?
    ensures v != Unknown ==>
      exists i :: 0 <= i < |root.value.attributes|
        && VersionFromNamespace(root.value.attributes[i].value) == Some(v)
        && forall j :: 0 <= j < i ==> VersionFromNamespace(root.value.attributes[j].value).None?
  {
    if root.None? {
      return Unknown;
    }
    var namespaces := root.value.attributes;
    for i := 0 to |namespaces|
      invariant forall j :: 0 <= j < i ==> VersionFromNamespace(namespaces[j].value).None?
    {
      var packageVersion := VersionFromNamespace(namespaces[i].value);
      if packageVersion.Some? {
        assert FirstKnownNamespace(namespaces, 0) == Some(i);
        return packageVersion.value;
      }
    }
    assert FirstKnownNamespace(namespaces, 0).None?;
    return Unknown;
  }

  /** Application.IfAppCanRunElevated: decided by the first Application element of the document
      that has an EntryPoint and the first that has a uap10:TrustLevel, whichever application is
      being asked about. */
  function IfAppCanRunElevated(doc: Document): (r: bool)
    ensures r ==> exists i :: 0 <= i < |doc.elements| && doc.elements[i].localName == "Application"
  {
    var entryPointNode := SelectSingleNode(doc, ApplicationWithEntryPoint);
    var trustLevelNode := SelectSingleNode(doc, ApplicationWithTrustLevel);
    || (entryPointNode.Some? && AttributeValue(entryPointNode.value.attributes, "EntryPoint") == Some(FullTrustEntryPoint))
    || (trustLevelNode.Some? && AttributeValue(trustLevelNode.value.attributes, "uap10:TrustLevel") == Some(MediumIntegrityTrustLevel))
  }

  /** Element i is the one a query returns: it matches and no earlier element does. */
  predicate FirstSelected(elements: seq<Element>, q: Query, i: int) {
    0 <= i < |elements| && Matches(q, elements[i]) && forall j :: 0 <= j < i ==> !Matches(q, elements[j])
  }

  lemma {:induction false} SelectsFirstSelected(doc: Document, q: Query, i: int)
    requires FirstSelected(doc.elements, q, i)
    ensures SelectSingleNode(doc, q) == Some(doc.elements[i])
  {
    var r := FirstMatch(doc.elements, q, 0);
    assert Matches(q, doc.elements[i]);
    assert r.Some? && !(r.value < i) && !(r.value > i);
  }

  /** Elevation is decided by the first Application element carrying EntryPoint and the first
      carrying uap10:TrustLevel, in document order: the application is elevated when the first
      has the full-trust entry point or the second the medium-integrity trust level. */
  lemma {:induction false} ElevationComesFromFirstDeclaringApplication(doc: Document)
    ensures IfAppCanRunElevated(doc) <==>
      || (exists i :: FirstSelected(doc.elements, ApplicationWithEntryPoint, i)
           && AttributeValue(doc.elements[i].attributes, "EntryPoint") == Some(FullTrustEntryPoint))
      || (exists i :: FirstSelected(doc.elements, ApplicationWithTrustLevel, i)
           && AttributeValue(doc.elements[i].attributes, "uap10:TrustLevel") == Some(MediumIntegrityTrustLevel))
  {
    var els := doc.elements;
    var ep := FirstMatch(els, ApplicationWithEntryPoint, 0);
    var tl := FirstMatch(els, ApplicationWithTrustLevel, 0);
    if ep.Some? {
      assert FirstSelected(els, ApplicationWithEntryPoint, ep.value);
    }
    if tl.Some? {
      assert FirstSelected(els, ApplicationWithTrustLevel, tl.value);
    }
    forall i | FirstSelected(els, ApplicationWithEntryPoint, i)
      ensures SelectSingleNode(doc, ApplicationWithEntryPoint) == Some(els[i])
    {
      SelectsFirstSelected(doc, ApplicationWithEntryPoint, i);
    }
    forall i | FirstSelected(els, ApplicationWithTrustLevel, i)
      ensures SelectSingleNode(doc, ApplicationWithTrustLevel) == Some(els[i])
    {
      SelectsFirstSelected(doc, ApplicationWithTrustLevel, i);
    }
  }

  /** A full-trust Application is ignored when an earlier Application declares another entry
      point: the queries search the document, not the application asked about. */
  lemma LaterFullTrustApplicationIsIgnored()
    ensures !IfAppCanRunElevated(Document([
      Element("", "Application", [Attribute("Id", "App"), Attribute("EntryPoint", "App.App")]),
      Element("", "Application", [Attribute("Id", "Tool"), Attribute("EntryPoint", FullTrustEntryPoint)])]))
  {
    var doc := Document([
      Element("", "Application", [Attribute("Id", "App"), Attribute("EntryPoint", "App.App")]),
      Element("", "Application", [Attribute("Id", "Tool"), Attribute("EntryPoint", FullTrustEntryPoint)])]);
    assert FirstSelected(doc.elements, ApplicationWithEntryPoint, 0);
    SelectsFirstSelected(doc, ApplicationWithEntryPoint, 0);
    assert SelectSingleNode(doc, ApplicationWithTrustLevel).None? by {
      assert !Matches(ApplicationWithTrustLevel, doc.elements[0]);
      assert !Matches(ApplicationWithTrustLevel, doc.elements[1]);
    }
  }
}
