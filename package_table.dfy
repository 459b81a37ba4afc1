/** `PackageTable`: the component that loads the documents, keeps the package list and the
    table's controls as state, filters and pages the list, scans single packages on demand, toggles
    columns and sums up the scan results. */
module PackageTableComponent {
  import opened Wrappers
  import opened Sequences
  import opened SbomTypes
  import opened SbomParser
  import opened Utils
  import opened Pagination
  import opened PackageFiltering
  import opened OsvScanner

  /** `ITEMS_PER_PAGE`. */
  const ItemsPerPage: nat := 8

  // ---------------------------------------------------------------- the table's filter

  /** The table's search condition: unlike the hook, the license is searched without first
      checking that it is non-empty. */
  predicate TableMatchesSearch(query: string, pkg: Package) {
    || query == ""
    || Includes(ToLower(pkg.name), ToLower(query))
    || Includes(ToLower(pkg.license), ToLower(query))
  }

  predicate TableKeep(state: FilterState, pkg: Package) {
    && MatchesSbom(state.selectedSbom, pkg)
    && TableMatchesSearch(state.searchQuery, pkg)
    && MatchesVulnerable(state.showVulnerableOnly, pkg)
  }

  /** The table's inline `packages.filter(...)`: it keeps exactly what `usePackageFiltering`
      keeps. */
  function TableFilter(packages: seq<Package>, state: FilterState): (r: seq<Package>)
    ensures r == FilteredData(packages, state)
  {
    forall p | p in packages
      ensures TableKeep(state, p) == Keep(state, p)
    {
      LicenseGuardRedundant(state.searchQuery, p);
    }
    FilterExtensional(packages, (p: Package) => TableKeep(state, p), (p: Package) => Keep(state, p));
    Filter(packages, (p: Package) => TableKeep(state, p))
  }

  // ---------------------------------------------------------------- paging

  /** `filteredData.slice((currentPage - 1) * ITEMS_PER_PAGE, currentPage * ITEMS_PER_PAGE)`. */
  function PageOf(filtered: seq<Package>, currentPage: int): (r: seq<Package>)
    ensures |r| <= ItemsPerPage
    ensures currentPage >= 1 ==>
      var w := PageBounds(currentPage, ItemsPerPage);
      r == filtered[Min(w.startIndex, |filtered|)..Min(w.endIndex, |filtered|)]
  {
    var w := PageBounds(currentPage, ItemsPerPage);
    var r := Slice(filtered, w.startIndex, w.endIndex);
    assert currentPage < 1 ==> w.endIndex <= 0;
    r
  }

  /** Every filtered package is shown on exactly one page, and that page is one of the
      `totalPages` pages the strip offers. */
  lemma ItemOnItsPage(filtered: seq<Package>, k: nat)
    requires k < |filtered|
    ensures var page := k / ItemsPerPage + 1;
      && 1 <= page <= CeilDiv(|filtered|, ItemsPerPage)
      && PageOf(filtered, page)[k - (page - 1) * ItemsPerPage] == filtered[k]
      && forall other :: InWindow(k, other, ItemsPerPage) ==> other == page
  {
    PageOfItem(k, |filtered|, ItemsPerPage);
  }

  /** `getPaginationRange(totalPages, currentPage)`: the strip of `usePagination` with one sibling
      on each side. Up to seven pages are all listed; beyond that the strip has exactly seven
      entries, is well formed, shows the current page and takes the dotted shape the current page
      calls for. */
  function GetPaginationRange(totalPages: nat, currentPage: int): (r: seq<PageItem>)
    ensures totalPages <= 7 ==> r == Pages(1, totalPages)
    ensures totalPages > 7 ==> |r| == 7 && WellFormed(r, totalPages)
    ensures totalPages > 7 ==> TruncatedShape(r, totalPages, currentPage, 1)
    ensures 1 <= currentPage <= totalPages ==> Page(currentPage) in r
  {
    if totalPages <= 7 then
      ShortRange(totalPages, currentPage, 1);
      PaginationRange(totalPages, currentPage, 1)
    else
      TruncatedRange(totalPages, currentPage, 1);
      TruncatedRangeShape(totalPages, currentPage, 1);
      PaginationRange(totalPages, currentPage, 1)
  }

  // ---------------------------------------------------------------- summary counts

  /** `scannedPackages.reduce((acc, p) => acc + p.vulnerabilities.length, 0)`. */
  function VulnerabilityTotal(pkgs: seq<Package>): (r: nat)
    ensures r == 0 <==> forall p :: p in pkgs ==> p.vulnerabilities == []
  {
    if pkgs == [] then 0 else |pkgs[0].vulnerabilities| + VulnerabilityTotal(pkgs[1..])
  }

  predicate IsCritical(v: OsvVulnerability, lib: CvssLibrary) {
    GetSeverity(v.severity, lib) == Critical
  }

  /** The critical count: per package, the vulnerabilities whose severity is critical. */
  function CriticalTotal(pkgs: seq<Package>, lib: CvssLibrary): (r: nat)
    ensures r == 0 <==> forall p, v :: p in pkgs && v in p.vulnerabilities ==> !IsCritical(v, lib)
  {
    if pkgs == [] then 0
    else
      var here := Filter(pkgs[0].vulnerabilities, (v: OsvVulnerability) => IsCritical(v, lib));
      assert here == [] <==> forall v :: v in pkgs[0].vulnerabilities ==> !IsCritical(v, lib) by {
        if here != [] {
          assert here[0] in here;
        }
      }
      assert forall p :: p in pkgs <==> p == pkgs[0] || p in pkgs[1..];
      |here| + CriticalTotal(pkgs[1..], lib)
  }

  /** There are never more critical vulnerabilities than vulnerabilities. */
  lemma {:induction false} CriticalAtMostTotal(pkgs: seq<Package>, lib: CvssLibrary)
    ensures CriticalTotal(pkgs, lib) <= VulnerabilityTotal(pkgs)
  {
    if pkgs != [] {
      CriticalAtMostTotal(pkgs[1..], lib);
    }
  }

  /** The packages the summary counts look at. */
  function ScannedOnly(pkgs: seq<Package>): seq<Package> {
    Filter(pkgs, (p: Package) => p.scanned)
  }

  /** Only scanned packages count: two lists that agree on which packages are scanned and on every
      scanned package give the same totals, whatever the unscanned packages hold. */
  lemma {:induction false} UnscannedDoNotCount(a: seq<Package>, b: seq<Package>, lib: CvssLibrary)
    requires |a| == |b|
    requires forall i :: 0 <= i < |a| ==> a[i].scanned == b[i].scanned && (a[i].scanned ==> a[i] == b[i])
    ensures ScannedOnly(a) == ScannedOnly(b)
    ensures VulnerabilityTotal(ScannedOnly(a)) == VulnerabilityTotal(ScannedOnly(b))
    ensures CriticalTotal(ScannedOnly(a), lib) == CriticalTotal(ScannedOnly(b), lib)
  {
    if a != [] {
      UnscannedDoNotCount(a[1..], b[1..], lib);
      assert ScannedOnly(a) == (if a[0].scanned then [a[0]] else []) + ScannedOnly(a[1..]);
      assert ScannedOnly(b) == (if b[0].scanned then [b[0]] else []) + ScannedOnly(b[1..]);
    }
  }

  // ---------------------------------------------------------------- one scan

  /** `prev.map((p) => p.id === id ? { ...p, vulnerabilities, scanned: true } : p)`. */
  function MarkScanned(packages: seq<Package>, id: string, vulns: seq<OsvVulnerability>): (r: seq<Package>)
    ensures |r| == |packages|
    ensures forall i :: 0 <= i < |r| ==> r[i].id == packages[i].id
    ensures forall i :: 0 <= i < |r| && packages[i].id != id ==> r[i] == packages[i]
    ensures forall i :: 0 <= i < |r| && packages[i].id == id ==>
      r[i].scanned && r[i].vulnerabilities == vulns
      && r[i] == packages[i].(vulnerabilities := r[i].vulnerabilities, scanned := r[i].scanned)
  {
    seq(|packages|, i requires 0 <= i < |packages| =>
      if packages[i].id == id then packages[i].(vulnerabilities := vulns, scanned := true) else packages[i])
  }

  /** Marking the same result twice is marking it once. */
  lemma MarkScannedIdempotent(packages: seq<Package>, id: string, vulns: seq<OsvVulnerability>)
    ensures MarkScanned(MarkScanned(packages, id, vulns), id, vulns) == MarkScanned(packages, id, vulns)
  {
    var once := MarkScanned(packages, id, vulns);
    assert forall i :: 0 <= i < |once| ==> MarkScanned(once, id, vulns)[i] == once[i];
  }

  /** The query `handleScan` makes for a package. */
  function Query(pkg: Package, ecosystemMapping: map<string, string>, osv: OsvQuery): FetchOutcome {
    osv(pkg.name, pkg.version, Ecosystem(pkg.bomRef, ecosystemMapping))
  }

  /** The package list after `handleScan(id)`: the first package with that id decides the query;
      without such a package, without an ecosystem or when the query fails, nothing changes; any
      response, whatever its status, sets its `vulns` (or none) on every package with that id. */
  function ApplyScan(packages: seq<Package>, id: string, ecosystemMapping: map<string, string>, osv: OsvQuery): (r: seq<Package>)
    ensures |r| == |packages|
    ensures forall i :: 0 <= i < |r| ==> r[i].id == packages[i].id
    ensures forall i :: 0 <= i < |r| && packages[i].id != id ==> r[i] == packages[i]
    ensures var k := FindIndex(packages, (p: Package) => p.id == id);
      (|| k.None?
       || !Scannable(packages[k.value], ecosystemMapping)
       || Query(packages[k.value], ecosystemMapping, osv).Failed?) ==> r == packages
    ensures var k := FindIndex(packages, (p: Package) => p.id == id);
      k.Some? && Scannable(packages[k.value], ecosystemMapping) && Query(packages[k.value], ecosystemMapping, osv).Responded? ==>
        r == MarkScanned(packages, id, Query(packages[k.value], ecosystemMapping, osv).vulns.GetOr([]))
  {
    match FindIndex(packages, (p: Package) => p.id == id)
    case None => packages
    case Some(k) =>
      if !Scannable(packages[k], ecosystemMapping) then packages
      else
        match Query(packages[k], ecosystemMapping, osv)
        case Failed => packages
        case Responded(_, vulns) => MarkScanned(packages, id, vulns.GetOr([]))
  }

  /** When ids are distinct and the query succeeds, `handleScan` replaces the package with what
      `scanPackage` returns for it and leaves every other entry alone. */
  lemma ScanPathsAgreeOnSuccess(packages: seq<Package>, k: nat, ecosystemMapping: map<string, string>, osv: OsvQuery)
    requires DistinctIds(packages) && k < |packages|
    requires Scannable(packages[k], ecosystemMapping)
    requires var q := Query(packages[k], ecosystemMapping, osv); q.Responded? && q.ok
    ensures ApplyScan(packages, packages[k].id, ecosystemMapping, osv)
         == packages[..k] + [ScanPackage(packages[k], ecosystemMapping, osv)] + packages[k + 1..]
  {
    var id := packages[k].id;
    var found := FindIndex(packages, (p: Package) => p.id == id);
    assert found == Some(k);
    var r := ApplyScan(packages, id, ecosystemMapping, osv);
    var expected := packages[..k] + [ScanPackage(packages[k], ecosystemMapping, osv)] + packages[k + 1..];
    assert |r| == |expected|;
    forall i | 0 <= i < |r|
      ensures r[i] == expected[i]
    {
      if i != k {
        assert packages[i].id != id;
      }
    }
  }

  /** The two scan paths part ways on a failed query: `handleScan` leaves the package as it was
      (an unscanned package stays unscanned), while `scanPackage` marks it scanned with no
      vulnerabilities. */
  lemma ScanPathsDifferOnFailure(packages: seq<Package>, k: nat, ecosystemMapping: map<string, string>, osv: OsvQuery)
    requires DistinctIds(packages) && k < |packages|
    requires Scannable(packages[k], ecosystemMapping)
    requires Query(packages[k], ecosystemMapping, osv).Failed?
    ensures ApplyScan(packages, packages[k].id, ecosystemMapping, osv)[k] == packages[k]
    ensures var s := ScanPackage(packages[k], ecosystemMapping, osv); s.scanned && s.vulnerabilities == []
  {
    var found := FindIndex(packages, (p: Package) => p.id == packages[k].id);
    assert found == Some(k);
  }

  // ---------------------------------------------------------------- columns

  /** `handleColumnChange`: drop every occurrence of a visible column, or append a hidden one. */
  function ToggleColumn(columns: seq<string>, columnId: string): (r: seq<string>)
    ensures columnId in r <==> columnId !in columns
    ensures forall c :: c != columnId ==> (c in r <==> c in columns)
  {
    if columnId in columns then Filter(columns, (c: string) => c != columnId) else columns + [columnId]
  }

  /** Toggling a column twice restores which columns are visible; starting from a hidden column
      it restores the list itself. */
  lemma ToggleColumnTwice(columns: seq<string>, columnId: string)
    ensures forall c :: c in ToggleColumn(ToggleColumn(columns, columnId), columnId) <==> c in columns
    ensures columnId !in columns ==> ToggleColumn(ToggleColumn(columns, columnId), columnId) == columns
  {
    if columnId !in columns {
      var keep := (c: string) => c != columnId;
      FilterConcat(columns, [columnId], keep);
      FilterAll(columns, keep);
      assert Filter([columnId], keep) == [];
    }
  }

  // ---------------------------------------------------------------- loading documents

  /** One document file as the loader sees it: the fetch or JSON parse failed, or the parsed JSON
      with its format markers and its contents read as each format (`None` where reading it as that
      format throws, e.g. a CycloneDX document without `components`). */
  datatype FileContent =
    | FetchFailed
    | Fetched(header: SbomData, asCycloneDx: Option<CycloneDxBom>, asSpdx: Option<SpdxBom>)

  /** `sbomsToLoad`: every file for "all", the selected file when one is selected, else none. */
  function FilesToLoad(sbomFiles: seq<string>, selectedSbom: string): (r: seq<string>)
    ensures selectedSbom == "all" ==> r == sbomFiles
    ensures selectedSbom != "all" ==> (selectedSbom == "" <==> r == [])
    ensures selectedSbom != "all" && r != [] ==> r == [selectedSbom]
  {
    if selectedSbom == "all" then sbomFiles
    else if selectedSbom != "" then [selectedSbom]
    else []
  }

  /** The packages one file contributes to `allPackages` (none when loading or processing it fails
      or its format is not recognised). */
  function FilePackages(file: string, content: FileContent): (r: seq<Package>)
    ensures content.FetchFailed? ==> r == []
    ensures content.Fetched? && IdentifySbomFormat(content.header) == Unsupported ==> r == []
    ensures content.Fetched? && IdentifySbomFormat(content.header) == CycloneDX ==>
      r == (if content.asCycloneDx.Some? then CycloneDxPackages(content.asCycloneDx.value, file) else [])
    ensures content.Fetched? && IdentifySbomFormat(content.header) == SPDX ==>
      r == (if content.asSpdx.Some? then SpdxPackages(content.asSpdx.value, file) else [])
    ensures forall p :: p in r ==> p.source == file
  {
    match content
    case FetchFailed => []
    case Fetched(header, asCycloneDx, asSpdx) =>
      match IdentifySbomFormat(header)
      case CycloneDX =>
        if asCycloneDx.Some? then
          CycloneDxPackagesShape(asCycloneDx.value, file);
          CycloneDxPackages(asCycloneDx.value, file)
        else []
      case SPDX =>
        if asSpdx.Some? then
          SpdxPackagesShape(asSpdx.value, file);
          SpdxPackages(asSpdx.value, file)
        else []
      case Unsupported => []
  }

  /** The body of the loop in `loadBoms` for one file. */
  method LoadFile(file: string, content: FileContent) returns (loaded: seq<Package>)
    ensures loaded == FilePackages(file, content)
  {
    loaded := [];
    match content {
      case FetchFailed =>
      case Fetched(header, asCycloneDx, asSpdx) =>
        var format := IdentifySbomFormat(header);
        if format == CycloneDX && asCycloneDx.Some? {
          loaded := ProcessCycloneDx(asCycloneDx.value, file);
        } else if format == SPDX && asSpdx.Some? {
          loaded := ProcessSpdx(asSpdx.value, file);
        }
    }
  }

  /** `p` is among the packages of one of `files`. */
  predicate FromSomeFile(p: Package, files: seq<string>, fetch: string -> FileContent) {
    exists i :: 0 <= i < |files| && p in FilePackages(files[i], fetch(files[i]))
  }

  /** `allPackages` after the loop has handled `files`: only packages of those files. */
  function AllPackages(files: seq<string>, fetch: string -> FileContent): (r: seq<Package>)
    ensures files == [] ==> r == []
    ensures forall p :: p in r ==> FromSomeFile(p, files, fetch)
  {
    if files == [] then []
    else
      var n := |files| - 1;
      var prefix := files[..n];
      var earlier := AllPackages(prefix, fetch);
      var last := FilePackages(files[n], fetch(files[n]));
      forall p | p in earlier + last
        ensures FromSomeFile(p, files, fetch)
      {
        if p in earlier {
          var i :| 0 <= i < n && p in FilePackages(prefix[i], fetch(prefix[i]));
          assert prefix[i] == files[i];
        } else {
          assert p in last;
        }
      }
      earlier + last
  }

  /** Nothing a loaded file yields is lost: every package of every file is in `allPackages`. */
  lemma {:induction false} AllPackagesComplete(files: seq<string>, fetch: string -> FileContent)
    ensures forall p :: FromSomeFile(p, files, fetch) ==> p in AllPackages(files, fetch)
  {
    if files != [] {
      var n := |files| - 1;
      var prefix := files[..n];
      var earlier := AllPackages(prefix, fetch);
      var last := FilePackages(files[n], fetch(files[n]));
      assert AllPackages(files, fetch) == earlier + last;
      AllPackagesComplete(prefix, fetch);
      forall p | FromSomeFile(p, files, fetch)
        ensures p in earlier + last
      {
        var i :| 0 <= i < |files| && p in FilePackages(files[i], fetch(files[i]));
        if i < n {
          assert prefix[i] == files[i];
          assert FromSomeFile(p, prefix, fetch);
          assert p in earlier;
        } else {
          assert i == n;
        }
      }
    }
  }

  /** The `for (const sbomFile of sbomsToLoad)` loop filling `allPackages`. */
  method LoadAll(files: seq<string>, fetch: string -> FileContent) returns (allPackages: seq<Package>)
    ensures allPackages == AllPackages(files, fetch)
  {
    allPackages := [];
    var i := 0;
    while i < |files|
      invariant 0 <= i <= |files|
      invariant allPackages == AllPackages(files[..i], fetch)
    {
      var loaded := LoadFile(files[i], fetch(files[i]));
      assert files[..i + 1][..i] == files[..i];
      allPackages := allPackages + loaded;
      i := i + 1;
    }
    assert files[..i] == files;
  }

  /** Every loaded package names one of the loaded files as its source. */
  lemma AllPackagesSource(files: seq<string>, fetch: string -> FileContent)
    ensures forall p :: p in AllPackages(files, fetch) ==> p.source in files
  {
    forall p | p in AllPackages(files, fetch)
      ensures p.source in files
    {
      var i :| 0 <= i < |files| && p in FilePackages(files[i], fetch(files[i]));
    }
  }

  /** After loading one selected file, the table's source condition keeps every package. */
  lemma SelectedFileMatchesSource(sbomFiles: seq<string>, selectedSbom: string, fetch: string -> FileContent)
    requires selectedSbom != "all"
    ensures forall p :: p in AllPackages(FilesToLoad(sbomFiles, selectedSbom), fetch) ==> MatchesSbom(selectedSbom, p)
  {
    AllPackagesSource(FilesToLoad(sbomFiles, selectedSbom), fetch);
  }

  // ---------------------------------------------------------------- the component state

  class PackageTable {
    var packages: seq<Package>
    var searchQuery: string
    var selectedSbom: string
    var showVulnerableOnly: bool
    var currentPage: int
    var visibleColumns: seq<string>

    /** The initial state; the initially visible columns come from a column list that is not
        part of this model. */
    constructor(defaultColumns: seq<string>)
      ensures packages == [] && searchQuery == "" && selectedSbom == "all" && !showVulnerableOnly
      ensures currentPage == 1 && visibleColumns == defaultColumns
    {
      packages := [];
      searchQuery := "";
      selectedSbom := "all";
      showVulnerableOnly := false;
      currentPage := 1;
      visibleColumns := defaultColumns;
    }

    function State(): FilterState
      reads this
    {
      FilterState(searchQuery, showVulnerableOnly, selectedSbom)
    }

    /** `filteredData`. */
    function Filtered(): (r: seq<Package>)
      reads this
      ensures r == FilteredData(packages, State())
    {
      TableFilter(packages, State())
    }

    /** `totalPages`: just enough pages of `ITEMS_PER_PAGE` for the filtered list. */
    function TotalPages(): (n: nat)
      reads this
      ensures (n - 1) * ItemsPerPage < |Filtered()| <= n * ItemsPerPage
    {
      CeilDiv(|Filtered()|, ItemsPerPage)
    }

    /** `paginatedData`: the current page of the filtered list. */
    function PaginatedData(): (r: seq<Package>)
      reads this
      ensures |r| <= ItemsPerPage
      ensures r == PageOf(Filtered(), currentPage)
      ensures forall p :: p in r ==> p in packages && Keep(State(), p)
    {
      var filtered := Filtered();
      var r := PageOf(filtered, currentPage);
      assert forall p :: p in r ==> p in filtered by {
        if currentPage < 1 {
          assert r == Slice(filtered, (currentPage - 1) * ItemsPerPage, currentPage * ItemsPerPage);
        }
      }
      r
    }

    /** `totalVulnerabilities`: the OSV vulnerabilities of the scanned filtered packages. */
    function TotalVulnerabilities(): (n: nat)
      reads this
      ensures n == 0 <==> forall p :: p in Filtered() && p.scanned ==> p.vulnerabilities == []
    {
      VulnerabilityTotal(ScannedOnly(Filtered()))
    }

    /** `criticalCount`: never more than `totalVulnerabilities`. */
    function CriticalCount(lib: CvssLibrary): (n: nat)
      reads this
      ensures n <= TotalVulnerabilities()
      ensures n == 0 <==> forall p, v :: p in Filtered() && p.scanned && v in p.vulnerabilities ==> !IsCritical(v, lib)
    {
      CriticalAtMostTotal(ScannedOnly(Filtered()), lib);
      CriticalTotal(ScannedOnly(Filtered()), lib)
    }

    /** `setSelectedSbom` with the effect that resets the page to 1. The `loadBoms` effect also
        depends on `selectedSbom`: in the component a selection is followed by `LoadBoms`, which
        replaces the package list. */
    method SelectSbom(name: string)
      modifies this
      ensures selectedSbom == name && currentPage == 1
      ensures packages == old(packages) && searchQuery == old(searchQuery)
      ensures showVulnerableOnly == old(showVulnerableOnly) && visibleColumns == old(visibleColumns)
    {
      selectedSbom := name;
      currentPage := 1;
    }

    /** The search box's `onChange`: set the query and go back to page 1. */
    method SetSearch(query: string)
      modifies this
      ensures searchQuery == query && currentPage == 1
      ensures packages == old(packages) && selectedSbom == old(selectedSbom)
      ensures showVulnerableOnly == old(showVulnerableOnly) && visibleColumns == old(visibleColumns)
    {
      searchQuery := query;
      currentPage := 1;
    }

    /** The "previous" button: one page back, never below page 1. */
    method PreviousPage()
      modifies this
      ensures currentPage == Max(1, old(currentPage) - 1)
      ensures 1 <= currentPage
      ensures old(currentPage) > 1 ==> currentPage == old(currentPage) - 1
      ensures packages == old(packages) && searchQuery == old(searchQuery) && selectedSbom == old(selectedSbom)
      ensures showVulnerableOnly == old(showVulnerableOnly) && visibleColumns == old(visibleColumns)
    {
      currentPage := Max(1, currentPage - 1);
    }

    /** The "next" button: one page on, never past `totalPages` (so page 0 when nothing is shown). */
    method NextPage()
      modifies this
      ensures currentPage == Min(old(TotalPages()), old(currentPage) + 1)
      ensures 1 <= old(currentPage) <= old(TotalPages()) ==> 1 <= currentPage <= old(TotalPages())
      ensures old(currentPage) < old(TotalPages()) ==> currentPage == old(currentPage) + 1
      ensures packages == old(packages) && searchQuery == old(searchQuery) && selectedSbom == old(selectedSbom)
      ensures showVulnerableOnly == old(showVulnerableOnly) && visibleColumns == old(visibleColumns)
    {
      var total := TotalPages();
      currentPage := Min(total, currentPage + 1);
    }

    /** `handleScan(id)`, with the query outcome supplied by `osv`. */
    method HandleScan(id: string, ecosystemMapping: map<string, string>, osv: OsvQuery)
      modifies this
      ensures packages == ApplyScan(old(packages), id, ecosystemMapping, osv)
      ensures searchQuery == old(searchQuery) && selectedSbom == old(selectedSbom)
      ensures showVulnerableOnly == old(showVulnerableOnly) && currentPage == old(currentPage)
      ensures visibleColumns == old(visibleColumns)
    {
      var found := FindIndex(packages, (p: Package) => p.id == id);
      if found.None? {
        return;
      }
      var pkg := packages[found.value];
      var ecosystem := Ecosystem(pkg.bomRef, ecosystemMapping);
      if ecosystem == "" {
        return;
      }
      var outcome := osv(pkg.name, pkg.version, ecosystem);
      if outcome.Responded? {
        packages := MarkScanned(packages, id, outcome.vulns.GetOr([]));
      }
    }

    /** `handleColumnChange(columnId)`. */
    method HandleColumnChange(columnId: string)
      modifies this
      ensures visibleColumns == ToggleColumn(old(visibleColumns), columnId)
      ensures packages == old(packages) && searchQuery == old(searchQuery) && selectedSbom == old(selectedSbom)
      ensures showVulnerableOnly == old(showVulnerableOnly) && currentPage == old(currentPage)
    {
      if columnId in visibleColumns {
        visibleColumns := Filter(visibleColumns, (c: string) => c != columnId);
      } else {
        visibleColumns := visibleColumns + [columnId];
      }
    }

    /** `loadBoms`: with the index of document files in hand, load the selected files one by one
        and replace the package list with everything they yield. */
    method LoadBoms(sbomFiles: seq<string>, fetch: string -> FileContent)
      modifies this
      ensures sbomFiles == [] ==> packages == old(packages)
      ensures sbomFiles != [] ==> packages == AllPackages(FilesToLoad(sbomFiles, selectedSbom), fetch)
      ensures searchQuery == old(searchQuery) && selectedSbom == old(selectedSbom)
      ensures showVulnerableOnly == old(showVulnerableOnly) && currentPage == old(currentPage)
      ensures visibleColumns == old(visibleColumns)
    {
      if sbomFiles == [] {
        return;
      }
      var sbomsToLoad := FilesToLoad(sbomFiles, selectedSbom);
      if sbomsToLoad == [] {
        packages := [];
        return;
      }
      var allPackages := LoadAll(sbomsToLoad, fetch);
      packages := allPackages;
    }
  }
}
