/** The records the viewer works with: the CycloneDX and SPDX document shapes it reads, the
    OSV advisory shape it fetches, the canonical `Package` both normalisers produce and the
    `Dependency` tree each package carries. Fields the core never reads are omitted. A TypeScript
    field declared optional (`?`) is an `Option`, except that an absent `description`, `version`,
    `versionInfo`, `licenseDeclared` or component `type` reads as "" here. Identifier
    fields (`bom-ref`, `ref`, `SPDXID`) are always present strings here. */
module SbomTypes {
  import opened Wrappers

  /** One node of a package's dependency tree: a value, copied wherever it is embedded. */
  datatype Dependency = Dependency(name: string, version: string, children: seq<Dependency>)

  /** The largest element of a sequence of naturals, 0 for the empty sequence. */
  function MaxOf(s: seq<nat>): (r: nat)
    ensures forall i :: 0 <= i < |s| ==> s[i] <= r
    ensures s != [] ==> r in s
    ensures s == [] ==> r == 0
  {
    if s == [] then 0
    else
      var m := MaxOf(s[1..]);
      if s[0] < m then m else s[0]
  }

  /** The number of nodes on the longest root-to-leaf path. */
  function Height(d: Dependency): (h: nat)
    ensures h >= 1
  {
    1 + MaxOf(ChildHeights(d))
  }

  function ChildHeights(d: Dependency): (hs: seq<nat>)
    ensures |hs| == |d.children|
    decreases d, 0
  {
    seq(|d.children|, i requires 0 <= i < |d.children| => Height(d.children[i]))
  }

  /** A node whose children are all at most `n` high is at most `n + 1` high. */
  lemma HeightBound(d: Dependency, n: nat)
    requires forall i :: 0 <= i < |d.children| ==> Height(d.children[i]) <= n
    ensures Height(d) <= n + 1
  {
    var hs := ChildHeights(d);
    assert forall i :: 0 <= i < |hs| ==> hs[i] <= n;
  }

  // CycloneDX documents

  datatype LicenseObject = LicenseObject(id: Option<string>, name: Option<string>)

  datatype LicenseChoice = LicenseChoice(license: Option<LicenseObject>, expression: Option<string>)

  datatype Component = Component(
    componentType: string,
    name: string,
    version: string,
    licenses: Option<seq<LicenseChoice>>,
    bomRef: string,
    description: string)

  datatype BomDependency = BomDependency(ref: string, dependsOn: Option<seq<string>>)

  datatype VulnerabilityAffected = VulnerabilityAffected(ref: Option<string>)

  /** A vulnerability embedded in a CycloneDX document. */
  datatype SbomVulnerability = SbomVulnerability(
    id: Option<string>,
    description: Option<string>,
    affects: Option<seq<VulnerabilityAffected>>)

  datatype CycloneDxBom = CycloneDxBom(
    components: seq<Component>,
    dependencies: Option<seq<BomDependency>>,
    vulnerabilities: Option<seq<SbomVulnerability>>)

  // SPDX 2.x documents

  datatype ExternalRef = ExternalRef(referenceCategory: string, referenceType: string, referenceLocator: string)

  datatype SpdxPackage = SpdxPackage(
    name: string,
    spdxId: string,
    versionInfo: string,
    licenseDeclared: string,
    description: string,
    externalRefs: Option<seq<ExternalRef>>)

  datatype SpdxRelationship = SpdxRelationship(spdxElementId: string, relationshipType: string, relatedSpdxElement: string)

  datatype SpdxBom = SpdxBom(packages: seq<SpdxPackage>, relationships: Option<seq<SpdxRelationship>>)

  // Format detection input: the two fields the detector looks at

  datatype SbomData = SbomData(bomFormat: Option<string>, spdxVersion: Option<string>)

  datatype SbomFormat = CycloneDX | SPDX | Unsupported

  // OSV advisories

  datatype SeverityScore = SeverityScore(scoreType: string, score: string)

  datatype OsvVulnerability = OsvVulnerability(
    id: string,
    summary: string,
    aliases: seq<string>,
    severity: seq<SeverityScore>)

  datatype Severity = Critical | High | Medium | Low | Unknown

  // The canonical package

  datatype Package = Package(
    id: string,
    bomRef: string,
    name: string,
    version: string,
    source: string,
    license: string,
    description: string,
    dependencies: Dependency,
    vulnerabilities: seq<OsvVulnerability>,
    sbomVulnerabilities: seq<SbomVulnerability>,
    scanned: bool)
}
