/** `useOsvScanner`: deciding from a package's `bom-ref` whether OSV can be queried for it, folding
    the outcome of one query into the package, and merging a batch of scan results back into the
    package list by id. The query itself is a parameter (`OsvQuery`). */
module OsvScanner {
  import opened Wrappers
  import opened Sequences
  import opened Maps
  import opened SbomTypes

  // ---------------------------------------------------------------- purl type and ecosystem

  /** The pattern `pkg:([^/]+)` matches at position `i`: `pkg:` followed by at least one
      character other than `/`. */
  ghost predicate PurlAt(s: string, i: int) {
    0 <= i && i + 5 <= |s| && s[i..i + 4] == "pkg:" && s[i + 4] != '/'
  }

  /** The leftmost position at or after `from` where the pattern matches. */
  function FirstPurlAt(s: string, from: nat): (r: Option<nat>)
    ensures r.Some? ==> from <= r.value && PurlAt(s, r.value) && forall j :: from <= j < r.value ==> !PurlAt(s, j)
    ensures r.None? ==> forall j :: from <= j ==> !PurlAt(s, j)
    decreases |s| - from
  {
    if from + 5 > |s| then None
    else if s[from..from + 4] == "pkg:" && s[from + 4] != '/' then Some(from)
    else FirstPurlAt(s, from + 1)
  }

  /** `bomRef.match(/pkg:([^/]+)/)?.[1]`: the run of non-`/` characters after the leftmost
      `pkg:` that is followed by such a character. */
  function PurlType(bomRef: string): (r: Option<string>)
    ensures r.None? <==> forall i :: !PurlAt(bomRef, i)
    ensures r.Some? ==> r.value != "" && '/' !in r.value
    ensures r.Some? ==>
      exists i :: && PurlAt(bomRef, i)
                  && (forall j :: 0 <= j < i ==> !PurlAt(bomRef, j))
                  && r.value <= bomRef[i + 4..]
                  && (r.value == bomRef[i + 4..] || bomRef[i + 4 + |r.value|] == '/')
  {
    match FirstPurlAt(bomRef, 0)
    case None => None
    case Some(i) =>
      var t := TakeUntil(bomRef[i + 4..], '/');
      assert t != [] by { assert bomRef[i + 4..][0] == bomRef[i + 4]; }
      Some(t)
  }

  /** `purlType ? ecosystemMapping[purlType] : ""`, with a missing key read as `""`. */
  function Ecosystem(bomRef: string, ecosystemMapping: map<string, string>): (r: string)
    ensures r != "" <==>
      PurlType(bomRef).Some? && PurlType(bomRef).value in ecosystemMapping
      && ecosystemMapping[PurlType(bomRef).value] != ""
    ensures r != "" ==> r == ecosystemMapping[PurlType(bomRef).value]
  {
    match PurlType(bomRef)
    case None => ""
    case Some(t) => if t in ecosystemMapping then ecosystemMapping[t] else ""
  }

  /** The filter of `scanAllPackages`: a package is scanned only when its purl type has an ecosystem. */
  predicate Scannable(pkg: Package, ecosystemMapping: map<string, string>) {
    Ecosystem(pkg.bomRef, ecosystemMapping) != ""
  }

  /** A `bom-ref` without any `pkg:` match is never scannable, whatever the mapping holds. */
  lemma NoPurlNotScannable(pkg: Package, ecosystemMapping: map<string, string>)
    requires forall i :: !PurlAt(pkg.bomRef, i)
    ensures !Scannable(pkg, ecosystemMapping)
  {
  }

  // ---------------------------------------------------------------- one query

  /** What came back from the OSV query: a response (with its `ok` flag and the `vulns` of its
      body) or a failure (network error, unreadable body). */
  datatype FetchOutcome = Responded(ok: bool, vulns: Option<seq<OsvVulnerability>>) | Failed

  /** The OSV query for (name, version, ecosystem). */
  type OsvQuery = (string, string, string) -> FetchOutcome

  /** `scanPackage`: the package marked scanned, with its vulnerabilities replaced by the query
      result (none on failure); without an ecosystem no query is made. */
  function ScanPackage(pkg: Package, ecosystemMapping: map<string, string>, osv: OsvQuery): (r: Package)
    ensures r.scanned && r.id == pkg.id
    ensures r == pkg.(vulnerabilities := r.vulnerabilities, scanned := true)
    ensures !Scannable(pkg, ecosystemMapping) ==> r.vulnerabilities == pkg.vulnerabilities
    ensures Scannable(pkg, ecosystemMapping) ==>
      var outcome := osv(pkg.name, pkg.version, Ecosystem(pkg.bomRef, ecosystemMapping));
      r.vulnerabilities == (if outcome.Responded? && outcome.ok then outcome.vulns.GetOr([]) else [])
  {
    var ecosystem := Ecosystem(pkg.bomRef, ecosystemMapping);
    if ecosystem == "" then pkg.(scanned := true)
    else
      match osv(pkg.name, pkg.version, ecosystem)
      case Responded(true, vulns) => pkg.(vulnerabilities := vulns.GetOr([]), scanned := true)
      case _ => pkg.(vulnerabilities := [], scanned := true)
  }

  /** Without an ecosystem the query is never consulted. */
  lemma UnscannableIgnoresQuery(pkg: Package, ecosystemMapping: map<string, string>, osv1: OsvQuery, osv2: OsvQuery)
    requires !Scannable(pkg, ecosystemMapping)
    ensures ScanPackage(pkg, ecosystemMapping, osv1) == ScanPackage(pkg, ecosystemMapping, osv2)
  {
  }

  /** Scanning a package twice with the same query gives what one scan gives. */
  lemma ScanPackageIdempotent(pkg: Package, ecosystemMapping: map<string, string>, osv: OsvQuery)
    ensures var once := ScanPackage(pkg, ecosystemMapping, osv);
      ScanPackage(once, ecosystemMapping, osv) == once
  {
  }

  // ---------------------------------------------------------------- all packages

  /** The packages `scanAllPackages` queries, in order. */
  function ScannablePackages(pkgs: seq<Package>, ecosystemMapping: map<string, string>): (r: seq<Package>)
    ensures forall p :: p in r <==> p in pkgs && Scannable(p, ecosystemMapping)
  {
    Filter(pkgs, p => Scannable(p, ecosystemMapping))
  }

  /** `Promise.all(scannablePackages.map(scanPackage))`, without the concurrency. */
  function ScanResults(pkgs: seq<Package>, ecosystemMapping: map<string, string>, osv: OsvQuery): (results: seq<Package>)
    ensures var scannable := ScannablePackages(pkgs, ecosystemMapping);
      |results| == |scannable|
      && forall i :: 0 <= i < |results| ==> results[i] == ScanPackage(scannable[i], ecosystemMapping, osv)
  {
    var scannable := ScannablePackages(pkgs, ecosystemMapping);
    seq(|scannable|, i requires 0 <= i < |scannable| => ScanPackage(scannable[i], ecosystemMapping, osv))
  }

  /** `new Map(results.map((p) => [p.id, p]))`: the last result with each id. */
  function ById(results: seq<Package>): (updated: map<string, Package>)
    ensures forall k :: k in updated ==> updated[k].id == k && updated[k] in results
    ensures forall i :: 0 <= i < |results| ==> results[i].id in updated
  {
    var updated := IndexOf(results, (p: Package) => p.id, (p: Package) => p);
    forall k | k in updated
      ensures updated[k].id == k && updated[k] in results
    {
      IndexOfLast(results, (p: Package) => p.id, (p: Package) => p, k);
    }
    forall i | 0 <= i < |results|
      ensures results[i].id in updated
    {
      IndexOfLast(results, (p: Package) => p.id, (p: Package) => p, results[i].id);
    }
    updated
  }

  /** `scanAllPackages`: every package whose id has a scan result is replaced by it
      (`updatedPackagesMap.get(p.id) || p`), the others are kept. */
  function ScanAllPackages(pkgs: seq<Package>, ecosystemMapping: map<string, string>, osv: OsvQuery): (r: seq<Package>)
    ensures |r| == |pkgs|
    ensures forall i :: 0 <= i < |pkgs| ==> r[i].id == pkgs[i].id
  {
    var updated := ById(ScanResults(pkgs, ecosystemMapping, osv));
    seq(|pkgs|, i requires 0 <= i < |pkgs| => ReplaceById(updated, pkgs[i]))
  }

  /** `updatedPackagesMap.get(p.id) || p`: a package record is never falsy. */
  function ReplaceById(updated: map<string, Package>, p: Package): (r: Package)
    requires forall k :: k in updated ==> updated[k].id == k
    ensures r.id == p.id
    ensures r == p || r in updated.Values
  {
    match Get(updated, p.id)
    case Some(q) => q
    case None => p
  }

  predicate DistinctIds(pkgs: seq<Package>) {
    forall i, j :: 0 <= i < |pkgs| && 0 <= j < |pkgs| && pkgs[i].id == pkgs[j].id ==> i == j
  }

  /** With distinct ids, each scannable package is replaced by its own scan and every other
      package comes back unchanged. */
  lemma ScanAllPackagesReplacesOwnScan(pkgs: seq<Package>, ecosystemMapping: map<string, string>, osv: OsvQuery)
    requires DistinctIds(pkgs)
    ensures var r := ScanAllPackages(pkgs, ecosystemMapping, osv);
      forall i :: 0 <= i < |pkgs| ==>
        r[i] == (if Scannable(pkgs[i], ecosystemMapping) then ScanPackage(pkgs[i], ecosystemMapping, osv) else pkgs[i])
  {
    forall i | 0 <= i < |pkgs|
      ensures ScanAllPackages(pkgs, ecosystemMapping, osv)[i] ==
        (if Scannable(pkgs[i], ecosystemMapping) then ScanPackage(pkgs[i], ecosystemMapping, osv) else pkgs[i])
    {
      ScanAllPackagesAt(pkgs, ecosystemMapping, osv, i);
    }
  }

  lemma ScanAllPackagesAt(pkgs: seq<Package>, ecosystemMapping: map<string, string>, osv: OsvQuery, i: nat)
    requires DistinctIds(pkgs) && i < |pkgs|
    ensures ScanAllPackages(pkgs, ecosystemMapping, osv)[i] ==
      (if Scannable(pkgs[i], ecosystemMapping) then ScanPackage(pkgs[i], ecosystemMapping, osv) else pkgs[i])
  {
    var scannable := ScannablePackages(pkgs, ecosystemMapping);
    var results := ScanResults(pkgs, ecosystemMapping, osv);
    var updated := ById(results);
    var p := pkgs[i];
    assert ScanAllPackages(pkgs, ecosystemMapping, osv)[i] == ReplaceById(updated, p);
    if p.id in updated {
      var k :| 0 <= k < |results| && results[k] == updated[p.id];
      assert scannable[k] in scannable;
      var m :| 0 <= m < |pkgs| && pkgs[m] == scannable[k];
      assert pkgs[m].id == p.id;
    }
  }
}
