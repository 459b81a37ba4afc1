/** Format detection and the two normalisers that turn a CycloneDX or an SPDX 2.x document into
    the canonical `Package` sequence. Each normaliser first fills lookup maps in loops (methods
    below, each proved equal to a specification function) and then maps the document's entries to
    packages (pure functions). */
module SbomParser {
  import opened Wrappers
  import opened Sequences
  import opened Maps
  import opened SbomTypes

  // ---------------------------------------------------------------- format detection

  /** CycloneDX wins whenever `bomFormat` says so; otherwise a non-empty `spdxVersion` means SPDX. */
  function IdentifySbomFormat(data: SbomData): (r: SbomFormat)
    ensures r == CycloneDX <==> data.bomFormat == Some("CycloneDX")
    ensures r == SPDX <==> data.bomFormat != Some("CycloneDX") && Truthy(data.spdxVersion)
    ensures r == Unsupported <==> data.bomFormat != Some("CycloneDX") && !Truthy(data.spdxVersion)
  {
    if data.bomFormat == Some("CycloneDX") then CycloneDX
    else if Truthy(data.spdxVersion) then SPDX
    else Unsupported
  }

  // ---------------------------------------------------------------- shared helpers

  /** `s.split("?")[0]`: the text before the first `?`, or all of `s` when it has none. */
  function StripQuery(s: string): string {
    TakeUntil(s, '?')
  }

  /** `${sourceName}:${ref}`, the document-scoped package id. */
  function PackageId(sourceName: string, ref: string): string {
    sourceName + ":" + ref
  }

  /** Within one document, distinct native references give distinct package ids. */
  lemma PackageIdInjective(sourceName: string, a: string, b: string)
    requires PackageId(sourceName, a) == PackageId(sourceName, b)
    ensures a == b
  {
    var n := |sourceName| + 1;
    assert PackageId(sourceName, a)[n..] == a;
    assert PackageId(sourceName, b)[n..] == b;
  }

  function DescriptionOrDefault(description: string): string {
    if description != "" then description else "No description available."
  }

  // ---------------------------------------------------------------- CycloneDX: license

  /** Only `licenses[0]` is consulted. A license object yields its `id`, else its `name`, else
      "N/A" (its sibling `expression` is then ignored); without one, a non-empty `expression`. */
  function ResolveLicense(licenses: Option<seq<LicenseChoice>>): (r: string)
    ensures r != ""
    ensures licenses.None? || licenses.value == [] ==> r == "N/A"
    ensures licenses.Some? && licenses.value != [] ==>
      var first := licenses.value[0];
      if first.license.Some? then
        var lic := first.license.value;
        && (Truthy(lic.id) ==> r == lic.id.value)
        && (!Truthy(lic.id) && Truthy(lic.name) ==> r == lic.name.value)
        && (!Truthy(lic.id) && !Truthy(lic.name) ==> r == "N/A")
      else
        && (Truthy(first.expression) ==> r == first.expression.value)
        && (!Truthy(first.expression) ==> r == "N/A")
  {
    if licenses.Some? && |licenses.value| > 0 then
      var entry := licenses.value[0];
      if entry.license.Some? then
        var lic := entry.license.value;
        if Truthy(lic.id) then lic.id.value
        else if Truthy(lic.name) then lic.name.value
        else "N/A"
      else if Truthy(entry.expression) then entry.expression.value
      else "N/A"
    else "N/A"
  }

  /** Entries after the first never influence the license. */
  lemma LicenseUsesFirstEntryOnly(first: LicenseChoice, rest: seq<LicenseChoice>)
    ensures ResolveLicense(Some([first] + rest)) == ResolveLicense(Some([first]))
  {
  }

  /** With a license object present, the expression of the same entry is ignored. */
  lemma LicenseObjectHidesExpression(lic: LicenseObject, e1: Option<string>, e2: Option<string>)
    ensures ResolveLicense(Some([LicenseChoice(Some(lic), e1)])) == ResolveLicense(Some([LicenseChoice(Some(lic), e2)]))
  {
  }

  // ---------------------------------------------------------------- CycloneDX: lookup maps

  /** `componentsMap`: bom-ref to component, the last component wins on a repeated bom-ref. */
  function ComponentIndex(bom: CycloneDxBom): map<string, Component> {
    IndexOf(bom.components, (c: Component) => c.bomRef, (c: Component) => c)
  }

  /** `dependencyMap`: ref to its `dependsOn` list (absent list = []), the last entry wins. */
  function DependencyIndex(bom: CycloneDxBom): map<string, seq<string>> {
    IndexOf(bom.dependencies.GetOr([]), (d: BomDependency) => d.ref, (d: BomDependency) => d.dependsOn.GetOr([]))
  }

  /** An `affects` entry names `key` when its `ref` is non-empty and its text before `?` is `key`. */
  predicate AffectsKey(a: VulnerabilityAffected, key: string) {
    Truthy(a.ref) && StripQuery(a.ref.value) == key
  }

  /** How many entries of `affects` name `key`. */
  function AffectedCount(affects: seq<VulnerabilityAffected>, key: string): nat {
    if affects == [] then 0
    else AffectedCount(affects[..|affects| - 1], key) + (if AffectsKey(affects[|affects| - 1], key) then 1 else 0)
  }

  /** The list the source accumulates under `key`: each vulnerability, in document order, once
      for every one of its `affects` entries that names `key`. */
  function AffectingVulnerabilities(vulns: seq<SbomVulnerability>, key: string): seq<SbomVulnerability> {
    if vulns == [] then []
    else
      var v := vulns[|vulns| - 1];
      AffectingVulnerabilities(vulns[..|vulns| - 1], key) + Repeat(v, AffectedCount(v.affects.GetOr([]), key))
  }

  lemma {:induction false} AffectedCountPositive(affects: seq<VulnerabilityAffected>, key: string)
    ensures AffectedCount(affects, key) > 0 <==> exists a :: a in affects && AffectsKey(a, key)
  {
    if affects != [] {
      var n := |affects| - 1;
      AffectedCountPositive(affects[..n], key);
      assert forall a :: a in affects <==> a in affects[..n] || a == affects[n];
    }
  }

  /** A vulnerability is listed under `key` exactly when the document has it and one of its
      `affects` entries names `key`. */
  lemma {:induction false} AffectingVulnerabilitiesMembers(vulns: seq<SbomVulnerability>, key: string, v: SbomVulnerability)
    ensures v in AffectingVulnerabilities(vulns, key) <==>
      v in vulns && exists a :: a in v.affects.GetOr([]) && AffectsKey(a, key)
  {
    if vulns != [] {
      var n := |vulns| - 1;
      AffectingVulnerabilitiesMembers(vulns[..n], key, v);
      var last := vulns[n];
      var extra := Repeat(last, AffectedCount(last.affects.GetOr([]), key));
      assert AffectingVulnerabilities(vulns, key) == AffectingVulnerabilities(vulns[..n], key) + extra;
      if |extra| > 0 {
        assert extra[0] == last;
      }
      assert v in extra ==> v == last;
      AffectedCountPositive(last.affects.GetOr([]), key);
      assert forall x :: x in vulns <==> x in vulns[..n] || x == last;
    }
  }

  /** The inner `affects.forEach`: push `v` under each non-empty affected ref cut at `?`. */
  function IndexAffects(m: map<string, seq<SbomVulnerability>>, v: SbomVulnerability,
                        affects: seq<VulnerabilityAffected>): map<string, seq<SbomVulnerability>>
  {
    if affects == [] then m
    else
      var a := affects[|affects| - 1];
      var m' := IndexAffects(m, v, affects[..|affects| - 1]);
      if Truthy(a.ref) then PushAt(m', StripQuery(a.ref.value), v) else m'
  }

  /** `componentVulnerabilitiesMap` after the outer `vulnerabilities.forEach`. */
  function VulnerabilityIndex(vulns: seq<SbomVulnerability>): map<string, seq<SbomVulnerability>> {
    if vulns == [] then map[]
    else
      var v := vulns[|vulns| - 1];
      var m := VulnerabilityIndex(vulns[..|vulns| - 1]);
      if v.affects.Some? && |v.affects.value| > 0 then IndexAffects(m, v, v.affects.value) else m
  }

  lemma {:induction false} IndexAffectsLookup(m: map<string, seq<SbomVulnerability>>, v: SbomVulnerability,
                                              affects: seq<VulnerabilityAffected>, k: string)
    ensures Lookup(IndexAffects(m, v, affects), k) == Lookup(m, k) + Repeat(v, AffectedCount(affects, k))
  {
    if affects != [] {
      var n := |affects| - 1;
      IndexAffectsLookup(m, v, affects[..n], k);
      assert Repeat(v, AffectedCount(affects[..n], k) + 1) == Repeat(v, AffectedCount(affects[..n], k)) + [v];
    }
  }

  /** What the source's vulnerability map gives for a key is the list `AffectingVulnerabilities`
      describes. */
  lemma {:induction false} VulnerabilityIndexLookup(vulns: seq<SbomVulnerability>, k: string)
    ensures Lookup(VulnerabilityIndex(vulns), k) == AffectingVulnerabilities(vulns, k)
  {
    if vulns != [] {
      var n := |vulns| - 1;
      var v := vulns[n];
      VulnerabilityIndexLookup(vulns[..n], k);
      if v.affects.Some? && |v.affects.value| > 0 {
        IndexAffectsLookup(VulnerabilityIndex(vulns[..n]), v, v.affects.value, k);
      } else {
        assert AffectedCount(v.affects.GetOr([]), k) == 0;
      }
    }
  }

  /** The nested `forEach` that fills `componentVulnerabilitiesMap`. */
  method BuildVulnerabilityIndex(vulnerabilities: Option<seq<SbomVulnerability>>) returns (m: map<string, seq<SbomVulnerability>>)
    ensures m == VulnerabilityIndex(vulnerabilities.GetOr([]))
  {
    m := map[];
    var vulns := vulnerabilities.GetOr([]);
    var i := 0;
    while i < |vulns|
      invariant 0 <= i <= |vulns|
      invariant m == VulnerabilityIndex(vulns[..i])
    {
      var v := vulns[i];
      assert vulns[..i + 1][..i] == vulns[..i];
      if v.affects.Some? && |v.affects.value| > 0 {
        var affects := v.affects.value;
        ghost var start := m;
        var j := 0;
        while j < |affects|
          invariant 0 <= j <= |affects|
          invariant m == IndexAffects(start, v, affects[..j])
        {
          var a := affects[j];
          assert affects[..j + 1][..j] == affects[..j];
          if a.ref.Some? && a.ref.value != "" {
            var key := StripQuery(a.ref.value);
            var current := if key in m then m[key] else [];
            m := m[key := current + [v]];
          }
          j := j + 1;
        }
        assert affects[..j] == affects;
      }
      i := i + 1;
    }
    assert vulns[..i] == vulns;
  }

  // ---------------------------------------------------------------- CycloneDX: dependency tree

  /** `buildDependencyTree(bomRef, visited)`: `visited` holds the refs on the path from the root
      (each child receives its own copy), so a ref is expanded at most once per root-to-leaf
      path but can be expanded again in a sibling branch. A ref with no component is an
      "unknown" leaf; a ref already on the path is a leaf with its name and version. */
  function DependencyTree(bomRef: string, visited: set<string>, components: map<string, Component>,
                          dependencies: map<string, seq<string>>): (d: Dependency)
    ensures Height(d) <= |components.Keys - visited| + 1
    decreases |components.Keys - visited|
  {
    if bomRef !in components then Dependency(bomRef, "unknown", [])
    else
      var c := components[bomRef];
      if bomRef in visited then Dependency(c.name, c.version, [])
      else
        var refs := Lookup(dependencies, bomRef);
        var ancestors := visited + {bomRef};
        assert components.Keys - visited == (components.Keys - ancestors) + {bomRef};
        var d := Dependency(c.name, c.version,
          seq(|refs|, i requires 0 <= i < |refs| => DependencyTree(refs[i], ancestors, components, dependencies)));
        HeightBound(d, |components.Keys - ancestors| + 1);
        d
  }

  /** The three cases of `buildDependencyTree`: a reference without a component is a leaf named
      after it with version "unknown"; a reference already among its ancestors is a leaf with the
      component's name and version; any other reference is expanded, its children being the trees
      of its `dependsOn` references in order, each built with this reference added to the
      ancestors. */
  lemma DependencyTreeCases(bomRef: string, visited: set<string>, components: map<string, Component>,
                            dependencies: map<string, seq<string>>)
    ensures var d := DependencyTree(bomRef, visited, components, dependencies);
      && (bomRef !in components ==> d == Dependency(bomRef, "unknown", []))
      && (bomRef in components && bomRef in visited ==>
            d == Dependency(components[bomRef].name, components[bomRef].version, []))
      && (bomRef in components && bomRef !in visited ==>
            var refs := Lookup(dependencies, bomRef);
            && d.name == components[bomRef].name && d.version == components[bomRef].version
            && |d.children| == |refs|
            && forall i :: 0 <= i < |refs| ==>
                 d.children[i] == DependencyTree(refs[i], visited + {bomRef}, components, dependencies))
  {
  }

  /** The children of an expanded node are the trees of its `dependsOn` refs, in order, each built
      with the same ancestor set: two siblings naming the same ref get identical, fully expanded
      subtrees. */
  lemma CycloneDxSiblingsIndependent(bomRef: string, visited: set<string>, components: map<string, Component>,
                                     dependencies: map<string, seq<string>>, i: nat, j: nat)
    requires bomRef in components && bomRef !in visited && bomRef in dependencies
    requires i < |dependencies[bomRef]| && j < |dependencies[bomRef]|
    requires dependencies[bomRef][i] == dependencies[bomRef][j]
    ensures var d := DependencyTree(bomRef, visited, components, dependencies);
      |d.children| == |dependencies[bomRef]| &&
      d.children[i] == d.children[j] == DependencyTree(dependencies[bomRef][i], visited + {bomRef}, components, dependencies)
  {
  }

  // ---------------------------------------------------------------- CycloneDX: packages

  predicate IsNotFile(c: Component) {
    c.componentType != "file"
  }

  function NonFileComponents(bom: CycloneDxBom): seq<Component> {
    Filter(bom.components, IsNotFile)
  }

  /** `data.vulnerabilities && data.vulnerabilities.length > 0`. */
  function DocumentHasVulnerabilities(bom: CycloneDxBom): bool {
    bom.vulnerabilities.Some? && |bom.vulnerabilities.value| > 0
  }

  /** The package built for one component, given the lookup maps and its embedded vulnerabilities. */
  function CycloneDxPackage(c: Component, sourceName: string, components: map<string, Component>,
                            dependencies: map<string, seq<string>>, sbomVulnerabilities: seq<SbomVulnerability>,
                            scanned: bool): Package
  {
    Package(
      id := PackageId(sourceName, c.bomRef),
      bomRef := c.bomRef,
      name := c.name,
      version := c.version,
      source := sourceName,
      license := ResolveLicense(c.licenses),
      description := DescriptionOrDefault(c.description),
      dependencies := DependencyTree(c.bomRef, {}, components, dependencies),
      vulnerabilities := [],
      sbomVulnerabilities := sbomVulnerabilities,
      scanned := scanned)
  }

  /** What `processCycloneDxData` returns. */
  function CycloneDxPackages(bom: CycloneDxBom, sourceName: string): (r: seq<Package>)
    ensures |r| == |NonFileComponents(bom)|
  {
    var kept := NonFileComponents(bom);
    var vulnerabilityIndex := VulnerabilityIndex(bom.vulnerabilities.GetOr([]));
    seq(|kept|, i requires 0 <= i < |kept| =>
      CycloneDxPackage(kept[i], sourceName, ComponentIndex(bom), DependencyIndex(bom),
                       Lookup(vulnerabilityIndex, StripQuery(kept[i].bomRef)), DocumentHasVulnerabilities(bom)))
  }

  /** `processCycloneDxData(data, sourceName)`. */
  method ProcessCycloneDx(bom: CycloneDxBom, sourceName: string) returns (packages: seq<Package>)
    ensures packages == CycloneDxPackages(bom, sourceName)
  {
    var components := BuildIndex(bom.components, (c: Component) => c.bomRef, (c: Component) => c);
    var dependencies := BuildIndex(bom.dependencies.GetOr([]), (d: BomDependency) => d.ref,
                                   (d: BomDependency) => d.dependsOn.GetOr([]));
    var vulnerabilityIndex := BuildVulnerabilityIndex(bom.vulnerabilities);
    var scanned := bom.vulnerabilities.Some? && |bom.vulnerabilities.value| > 0;
    var kept := Filter(bom.components, IsNotFile);
    packages := seq(|kept|, i requires 0 <= i < |kept| =>
      CycloneDxPackage(kept[i], sourceName, components, dependencies,
                       Lookup(vulnerabilityIndex, StripQuery(kept[i].bomRef)), scanned));
  }

  /** One package per non-`file` component, in document order, with the component's identity,
      `source` = the document name, no OSV vulnerabilities yet, a non-empty license, the default
      description, and `scanned` set document-wide from the embedded vulnerability list. */
  lemma CycloneDxPackagesShape(bom: CycloneDxBom, sourceName: string)
    ensures var r, kept := CycloneDxPackages(bom, sourceName), NonFileComponents(bom);
      && IsSubsequence(kept, bom.components)
      && (forall c :: c in kept <==> c in bom.components && c.componentType != "file")
      && |r| == |kept|
      && forall i :: 0 <= i < |r| ==>
           && r[i].id == sourceName + ":" + kept[i].bomRef
           && r[i].bomRef == kept[i].bomRef && r[i].name == kept[i].name && r[i].version == kept[i].version
           && r[i].source == sourceName
           && r[i].license == ResolveLicense(kept[i].licenses)
           && (kept[i].description != "" ==> r[i].description == kept[i].description)
           && (kept[i].description == "" ==> r[i].description == "No description available.")
           && r[i].dependencies == DependencyTree(kept[i].bomRef, {}, ComponentIndex(bom), DependencyIndex(bom))
           && r[i].vulnerabilities == []
           && (r[i].scanned <==> bom.vulnerabilities.Some? && bom.vulnerabilities.value != [])
  {
    FilterIsSubsequence(bom.components, IsNotFile);
  }

  /** Package ids within one CycloneDX document are distinct when its non-file bom-refs are. */
  lemma CycloneDxIdsDistinct(bom: CycloneDxBom, sourceName: string, i: nat, j: nat)
    requires var kept := NonFileComponents(bom); i < |kept| && j < |kept| && kept[i].bomRef != kept[j].bomRef
    ensures CycloneDxPackages(bom, sourceName)[i].id != CycloneDxPackages(bom, sourceName)[j].id
  {
    var kept := NonFileComponents(bom);
    if CycloneDxPackages(bom, sourceName)[i].id == CycloneDxPackages(bom, sourceName)[j].id {
      PackageIdInjective(sourceName, kept[i].bomRef, kept[j].bomRef);
    }
  }

  /** A package's embedded vulnerabilities are the document's vulnerabilities that have an
      `affects` entry whose ref, cut at the first `?`, equals the package's bom-ref cut the same way:
      in document order, once per such entry. */
  lemma CycloneDxEmbeddedVulnerabilities(bom: CycloneDxBom, sourceName: string, i: nat, v: SbomVulnerability)
    requires i < |NonFileComponents(bom)|
    ensures var p := CycloneDxPackages(bom, sourceName)[i];
      p.sbomVulnerabilities == AffectingVulnerabilities(bom.vulnerabilities.GetOr([]), StripQuery(p.bomRef))
    ensures var p := CycloneDxPackages(bom, sourceName)[i];
      v in p.sbomVulnerabilities <==>
        && v in bom.vulnerabilities.GetOr([])
        && exists a :: a in v.affects.GetOr([]) && Truthy(a.ref) && StripQuery(a.ref.value) == StripQuery(p.bomRef)
  {
    var p := CycloneDxPackages(bom, sourceName)[i];
    VulnerabilityIndexLookup(bom.vulnerabilities.GetOr([]), StripQuery(p.bomRef));
    AffectingVulnerabilitiesMembers(bom.vulnerabilities.GetOr([]), StripQuery(p.bomRef), v);
  }

  // ---------------------------------------------------------------- SPDX: lookup maps

  /** `spdxPackagesMap`: SPDXID to package, the last package wins on a repeated SPDXID. */
  function SpdxPackageIndex(bom: SpdxBom): (r: map<string, SpdxPackage>)
    ensures forall id :: id in r <==> exists i :: 0 <= i < |bom.packages| && bom.packages[i].spdxId == id
    ensures forall id :: id in r ==>
      exists i :: && 0 <= i < |bom.packages| && bom.packages[i].spdxId == id && r[id] == bom.packages[i]
                  && forall j :: i < j < |bom.packages| ==> bom.packages[j].spdxId != id
  {
    var r := IndexOf(bom.packages, (p: SpdxPackage) => p.spdxId, (p: SpdxPackage) => p);
    forall id
      ensures id in r <==> exists i :: 0 <= i < |bom.packages| && bom.packages[i].spdxId == id
      ensures id in r ==>
        exists i :: && 0 <= i < |bom.packages| && bom.packages[i].spdxId == id && r[id] == bom.packages[i]
                    && forall j :: i < j < |bom.packages| ==> bom.packages[j].spdxId != id
    {
      IndexOfLast(bom.packages, (p: SpdxPackage) => p.spdxId, (p: SpdxPackage) => p, id);
    }
    r
  }

  datatype Edge = Edge(parent: string, child: string)

  /** The parent-to-child edge a relationship contributes, if any: `DEPENDS_ON` and `CONTAINS`
      point from the element to the related element, `DEPENDENCY_OF` the other way; other types
      and edges with an empty end are ignored (section 11 of the SPDX 2.3 specification). */
  function RelationshipEdge(rel: SpdxRelationship): (e: Option<Edge>)
    ensures e.Some? ==> e.value.parent != "" && e.value.child != ""
  {
    var ends :=
      if rel.relationshipType == "DEPENDS_ON" || rel.relationshipType == "CONTAINS" then
        Some(Edge(rel.spdxElementId, rel.relatedSpdxElement))
      else if rel.relationshipType == "DEPENDENCY_OF" then
        Some(Edge(rel.relatedSpdxElement, rel.spdxElementId))
      else None;
    if ends.Some? && ends.value.parent != "" && ends.value.child != "" then ends else None
  }

  /** The children recorded for `parent`, in relationship order. */
  function SpdxChildren(rels: seq<SpdxRelationship>, parent: string): seq<string> {
    if rels == [] then []
    else
      var e := RelationshipEdge(rels[|rels| - 1]);
      SpdxChildren(rels[..|rels| - 1], parent) + (if e.Some? && e.value.parent == parent then [e.value.child] else [])
  }

  /** Direction normalisation: `child` is recorded under `parent` exactly when some relationship
      says `parent DEPENDS_ON child`, `parent CONTAINS child` or `child DEPENDENCY_OF parent`,
      with both ends non-empty. */
  lemma {:induction false} SpdxChildrenMembers(rels: seq<SpdxRelationship>, parent: string, child: string)
    ensures child in SpdxChildren(rels, parent) <==>
      && parent != "" && child != ""
      && exists r :: r in rels &&
           (|| (r.relationshipType in {"DEPENDS_ON", "CONTAINS"} && r.spdxElementId == parent && r.relatedSpdxElement == child)
            || (r.relationshipType == "DEPENDENCY_OF" && r.relatedSpdxElement == parent && r.spdxElementId == child))
  {
    if rels != [] {
      var n := |rels| - 1;
      SpdxChildrenMembers(rels[..n], parent, child);
      assert forall x :: x in rels <==> x in rels[..n] || x == rels[n];
    }
  }

  /** The SPDX `dependencyMap` after the loop over the relationships. */
  function SpdxAdjacency(rels: seq<SpdxRelationship>): map<string, seq<string>> {
    if rels == [] then map[]
    else
      var e := RelationshipEdge(rels[|rels| - 1]);
      var m := SpdxAdjacency(rels[..|rels| - 1]);
      if e.Some? then PushAt(m, e.value.parent, e.value.child) else m
  }

  /** What the adjacency map gives for a parent is the list `SpdxChildren` describes. */
  lemma {:induction false} SpdxAdjacencyLookup(rels: seq<SpdxRelationship>, parent: string)
    ensures Lookup(SpdxAdjacency(rels), parent) == SpdxChildren(rels, parent)
  {
    if rels != [] {
      SpdxAdjacencyLookup(rels[..|rels| - 1], parent);
    }
  }

  /** The `for ... of` loop that fills the SPDX `dependencyMap`. */
  method BuildSpdxAdjacency(relationships: Option<seq<SpdxRelationship>>) returns (m: map<string, seq<string>>)
    ensures m == SpdxAdjacency(relationships.GetOr([]))
  {
    m := map[];
    var rels := relationships.GetOr([]);
    var i := 0;
    while i < |rels|
      invariant 0 <= i <= |rels|
      invariant m == SpdxAdjacency(rels[..i])
    {
      var rel := rels[i];
      assert rels[..i + 1][..i] == rels[..i];
      var parentId, childId := "", "";
      if rel.relationshipType == "DEPENDS_ON" || rel.relationshipType == "CONTAINS" {
        parentId, childId := rel.spdxElementId, rel.relatedSpdxElement;
      } else if rel.relationshipType == "DEPENDENCY_OF" {
        parentId, childId := rel.relatedSpdxElement, rel.spdxElementId;
      }
      if parentId != "" && childId != "" {
        var current := if parentId in m then m[parentId] else [];
        m := m[parentId := current + [childId]];
      }
      i := i + 1;
    }
    assert rels[..i] == rels;
  }

  // ---------------------------------------------------------------- SPDX: dependency tree

  /** `buildSpdxDependencyTree(id, visited)` with its one `visited` set made explicit: the result
      is the tree and the set after the call. Children missing from the package index are dropped
      before the descent; the set is threaded from each child to the next sibling, so a package
      expanded anywhere earlier in the traversal appears again only as a leaf. */
  function SpdxTree(id: string, visited: set<string>, packages: map<string, SpdxPackage>,
                    adjacency: map<string, seq<string>>): (res: (Dependency, set<string>))
    ensures visited <= res.1 <= visited + packages.Keys
    ensures id in packages ==> id in res.1
    ensures Height(res.0) <= |packages.Keys - visited| + 1
    decreases |packages.Keys - visited|, 0
  {
    if id !in packages then (Dependency(id, "unknown", []), visited)
    else
      var p := packages[id];
      if id in visited then (Dependency(p.name, p.versionInfo, []), visited)
      else
        var ids := Filter(Lookup(adjacency, id), (c: string) => c in packages);
        assert packages.Keys - visited == (packages.Keys - (visited + {id})) + {id};
        var forest := SpdxForest(ids, visited + {id}, packages, adjacency);
        var d := Dependency(p.name, p.versionInfo, forest.0);
        HeightBound(d, |packages.Keys - (visited + {id})| + 1);
        (d, forest.1)
  }

  lemma {:induction false} SubsetCardinality<T>(a: set<T>, b: set<T>)
    requires a <= b
    ensures |a| <= |b|
  {
    if a != {} {
      var x :| x in a;
      SubsetCardinality(a - {x}, b - {x});
    }
  }

  /** The children of one node, left to right, threading the visited set. */
  function SpdxForest(ids: seq<string>, visited: set<string>, packages: map<string, SpdxPackage>,
                      adjacency: map<string, seq<string>>): (res: (seq<Dependency>, set<string>))
    ensures visited <= res.1 <= visited + packages.Keys
    ensures |res.0| == |ids|
    ensures forall i :: 0 <= i < |ids| ==> Height(res.0[i]) <= |packages.Keys - visited| + 1
    decreases |packages.Keys - visited|, |ids|
  {
    if ids == [] then ([], visited)
    else
      var first := SpdxTree(ids[0], visited, packages, adjacency);
      SubsetCardinality(packages.Keys - first.1, packages.Keys - visited);
      var rest := SpdxForest(ids[1..], first.1, packages, adjacency);
      ConsHeights(first.0, rest.0, |packages.Keys - visited| + 1);
      ([first.0] + rest.0, rest.1)
  }

  lemma ConsHeights(d: Dependency, ds: seq<Dependency>, bound: nat)
    requires Height(d) <= bound && forall i :: 0 <= i < |ds| ==> Height(ds[i]) <= bound
    ensures forall i :: 0 <= i < |ds| + 1 ==> Height(([d] + ds)[i]) <= bound
  {
    assert forall i :: 1 <= i < |ds| + 1 ==> ([d] + ds)[i] == ds[i - 1];
  }

  /** The forest threads the visited set from each sibling to the next. */
  lemma SpdxForestCons(x: string, rest: seq<string>, visited: set<string>, packages: map<string, SpdxPackage>,
                       adjacency: map<string, seq<string>>)
    ensures var first := SpdxTree(x, visited, packages, adjacency);
      var tail := SpdxForest(rest, first.1, packages, adjacency);
      SpdxForest([x] + rest, visited, packages, adjacency) == ([first.0] + tail.0, tail.1)
  {
    assert ([x] + rest)[0] == x && ([x] + rest)[1..] == rest;
  }

  /** The three cases of `buildSpdxDependencyTree`: an unknown id is a leaf with version "unknown";
      an id visited anywhere earlier in the walk is a leaf; any other id is marked visited and its
      children known to the index are expanded in turn, sharing one visited set. */
  lemma SpdxTreeCases(id: string, visited: set<string>, packages: map<string, SpdxPackage>,
                      adjacency: map<string, seq<string>>)
    ensures var t := SpdxTree(id, visited, packages, adjacency);
      && (id !in packages ==> t == (Dependency(id, "unknown", []), visited))
      && (id in packages && id in visited ==>
            t == (Dependency(packages[id].name, packages[id].versionInfo, []), visited))
      && (id in packages && id !in visited ==>
            var forest := SpdxForest(Filter(Lookup(adjacency, id), (c: string) => c in packages),
                                     visited + {id}, packages, adjacency);
            t == (Dependency(packages[id].name, packages[id].versionInfo, forest.0), forest.1))
  {
  }

  /** The shared visited set at work: when a package appears twice among the children of one
      node, the second occurrence is a leaf even though the first was expanded. */
  lemma SpdxRepeatedSiblingIsLeaf(x: string, rest: seq<string>, visited: set<string>,
                                  packages: map<string, SpdxPackage>, adjacency: map<string, seq<string>>)
    requires x in packages
    ensures var f := SpdxForest([x, x] + rest, visited, packages, adjacency);
      f.0[1] == Dependency(packages[x].name, packages[x].versionInfo, [])
  {
    var ids := [x, x] + rest;
    var first := SpdxTree(x, visited, packages, adjacency);
    assert ids[0] == x && ids[1..] == [x] + rest;
    var second := SpdxForest([x] + rest, first.1, packages, adjacency);
    assert ([x] + rest)[0] == x;
    assert second.0[0] == SpdxTree(x, first.1, packages, adjacency).0;
    assert SpdxForest(ids, visited, packages, adjacency).0[1] == second.0[0];
  }

  // ---------------------------------------------------------------- SPDX: packages

  /** `licenseDeclared`, with "NOASSERTION" and the empty string shown as "N/A". */
  function SpdxLicense(declared: string): (r: string)
    ensures r != "" && r != "NOASSERTION"
    ensures r == declared || r == "N/A"
    ensures declared != "" && declared != "NOASSERTION" ==> r == declared
  {
    if declared == "NOASSERTION" then "N/A"
    else if declared != "" then declared
    else "N/A"
  }

  predicate IsPurl(r: ExternalRef) {
    r.referenceType == "purl"
  }

  /** The locator of the first `purl` external reference when it is non-empty, else the SPDXID. */
  function SpdxBomRef(p: SpdxPackage): (r: string)
    ensures var refs := p.externalRefs.GetOr([]);
      (forall i :: 0 <= i < |refs| ==> !IsPurl(refs[i])) ==> r == p.spdxId
    ensures var refs := p.externalRefs.GetOr([]);
      forall i :: 0 <= i < |refs| && IsPurl(refs[i]) && (forall j :: 0 <= j < i ==> !IsPurl(refs[j])) ==>
        r == (if refs[i].referenceLocator != "" then refs[i].referenceLocator else p.spdxId)
  {
    var refs := p.externalRefs.GetOr([]);
    match FindIndex(refs, IsPurl)
    case Some(i) => if refs[i].referenceLocator != "" then refs[i].referenceLocator else p.spdxId
    case None => p.spdxId
  }

  function SpdxToPackage(p: SpdxPackage, sourceName: string, packages: map<string, SpdxPackage>,
                         adjacency: map<string, seq<string>>): Package
  {
    Package(
      id := PackageId(sourceName, p.spdxId),
      bomRef := SpdxBomRef(p),
      name := p.name,
      version := p.versionInfo,
      source := sourceName,
      license := SpdxLicense(p.licenseDeclared),
      description := DescriptionOrDefault(p.description),
      dependencies := SpdxTree(p.spdxId, {}, packages, adjacency).0,
      vulnerabilities := [],
      sbomVulnerabilities := [],
      scanned := false)
  }

  /** What `processSpdxData` returns. */
  function SpdxPackages(bom: SpdxBom, sourceName: string): (r: seq<Package>)
    ensures |r| == |bom.packages|
  {
    seq(|bom.packages|, i requires 0 <= i < |bom.packages| =>
      SpdxToPackage(bom.packages[i], sourceName, SpdxPackageIndex(bom), SpdxAdjacency(bom.relationships.GetOr([]))))
  }

  /** `processSpdxData(data, sourceName)`. */
  method ProcessSpdx(bom: SpdxBom, sourceName: string) returns (packages: seq<Package>)
    ensures packages == SpdxPackages(bom, sourceName)
  {
    var index := BuildIndex(bom.packages, (p: SpdxPackage) => p.spdxId, (p: SpdxPackage) => p);
    var adjacency := BuildSpdxAdjacency(bom.relationships);
    packages := seq(|bom.packages|, i requires 0 <= i < |bom.packages| =>
      SpdxToPackage(bom.packages[i], sourceName, index, adjacency));
  }

  /** One package per SPDX package, in order, with no vulnerabilities of either kind, not scanned,
      a license that is never empty nor "NOASSERTION", and `source` = the document name. */
  lemma SpdxPackagesShape(bom: SpdxBom, sourceName: string)
    ensures var r := SpdxPackages(bom, sourceName);
      && |r| == |bom.packages|
      && forall i :: 0 <= i < |r| ==>
           && r[i].id == sourceName + ":" + bom.packages[i].spdxId
           && r[i].name == bom.packages[i].name && r[i].version == bom.packages[i].versionInfo
           && r[i].source == sourceName
           && r[i].bomRef == SpdxBomRef(bom.packages[i])
           && r[i].license == SpdxLicense(bom.packages[i].licenseDeclared)
           && (bom.packages[i].description != "" ==> r[i].description == bom.packages[i].description)
           && (bom.packages[i].description == "" ==> r[i].description == "No description available.")
           && r[i].dependencies
                == SpdxTree(bom.packages[i].spdxId, {}, SpdxPackageIndex(bom), SpdxAdjacency(bom.relationships.GetOr([]))).0
           && r[i].vulnerabilities == [] && r[i].sbomVulnerabilities == [] && !r[i].scanned
  {
  }
}
