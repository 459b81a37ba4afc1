# bom-view core, modelled in Dafny

bom-view is a browser viewer for software bills of materials (SBOMs). It loads CycloneDX and
SPDX 2.x documents listed in an index file and normalises every component or package into one
canonical `Package` record. Each record carries:

- a document-scoped id;
- the purl-bearing `bom-ref`;
- a license and a description;
- a dependency tree;
- the vulnerabilities embedded in the document.

The package table filters this list by source document, search text and a "vulnerable only"
switch. It pages the list eight rows at a time and shows a page-number strip with "..." gaps. It
can scan packages against the OSV database, and it sums up the scan results, counting critical
advisories by their CVSS v3 base score.

This project models that core as Dafny datatypes, functions, methods and one class. It proves
what each operation promises:

- format detection;
- the normalisers' output shape and their lookup maps;
- the two dependency-tree walks and their cycle handling, with worked examples;
- license and `bom-ref` fallbacks;
- the severity buckets;
- the pagination strip's shape;
- the filter's meaning and monotonicity;
- purl-type extraction;
- the two scan paths (single and batch) and where they agree and differ;
- column toggling;
- the loading loop.

Modules, one per file:

| file | module | models |
|---|---|---|
| wrappers.dfy | `Wrappers` | optional values and JavaScript truthiness of strings |
| sequences.dfy | `Sequences` | `filter`, `find`, `slice`, `split("?")[0]` on sequences |
| maps.dfy | `Maps` | `Map` objects filled by `set` in a loop |
| sbom_types.dfy | `SbomTypes` | document, advisory, `Package` and `Dependency` records |
| parser.dfy | `SbomParser` | `src/lib/sbom/parser.ts` |
| utils.dfy | `Utils` | `src/lib/utils.ts` |
| pagination.dfy | `Pagination` | `src/hooks/usePagination.ts` |
| package_filtering.dfy | `PackageFiltering` | `src/hooks/usePackageFiltering.ts` |
| osv_scanner.dfy | `OsvScanner` | `src/hooks/useOsvScanner.ts` |
| package_table.dfy | `PackageTableComponent` | the logic of `src/components/PackageTable.tsx` |
| tree_examples.dfy | `TreeExamples` | the two tree walks on a cycle and on a diamond |

The index-building `forEach`/`for` loops and the table's loading loop are methods with loop
invariants. Each is proved equal to a specification function, and the lemmas speak about those
functions. The component's React state becomes the fields of class
`PackageTableComponent.PackageTable`, and its handlers become methods that modify them.

The following are parameters of the model:

- the network;
- the JSON parsing of fetched files;
- the CVSS library's scoring;
- the purl-type-to-ecosystem table (`ecosystemMapping`).

## Model

| member | source | states |
|---|---|---|
| SbomParser.IdentifySbomFormat | src/lib/sbom/parser.ts:14-22 | CycloneDX exactly when `bomFormat` is "CycloneDX"; otherwise SPDX exactly when `spdxVersion` is present and non-empty; otherwise Unsupported |
| SbomParser.PackageIdInjective | src/lib/sbom/parser.ts:106 | within one document, `${sourceName}:${ref}` ids of different refs differ |
| SbomParser.ResolveLicense | src/lib/sbom/parser.ts:90-99 | never empty; only `licenses[0]` counts: its license object's non-empty `id`, else its non-empty `name`, else "N/A"; without a license object its non-empty `expression`, else "N/A"; no entries gives "N/A" |
| SbomParser.LicenseUsesFirstEntryOnly | src/lib/sbom/parser.ts:91-92 | entries after the first never change the license |
| SbomParser.LicenseObjectHidesExpression | src/lib/sbom/parser.ts:93-98 | with a license object present, the same entry's expression is ignored |
| SbomParser.AffectedCountPositive | src/lib/sbom/parser.ts:43-46 | an `affects` list names a key at least once iff it has an entry with a non-empty ref whose text before `?` is the key |
| SbomParser.AffectingVulnerabilitiesMembers | src/lib/sbom/parser.ts:40-55 | a vulnerability is listed under a key iff the document has it and one of its `affects` refs, cut at `?`, is the key |
| SbomParser.IndexAffectsLookup | src/lib/sbom/parser.ts:44-51 | the inner `forEach` appends the vulnerability once per matching `affects` entry under each key, and leaves the other keys alone |
| SbomParser.VulnerabilityIndexLookup | src/lib/sbom/parser.ts:40-55 | what `componentVulnerabilitiesMap.get(k) \|\| []` yields is the document-order list of vulnerabilities affecting `k`, one copy per matching entry |
| SbomParser.BuildVulnerabilityIndex | src/lib/sbom/parser.ts:40-55 | the nested loops build exactly the map `VulnerabilityIndex` describes (absent list read as empty) |
| SbomParser.DependencyTree | src/lib/sbom/parser.ts:57-85 | the tree is finite: its height is at most one more than the number of components not yet on the path |
| SbomParser.CycloneDxSiblingsIndependent | src/lib/sbom/parser.ts:75-78 | two siblings naming the same ref get identical subtrees, because each child gets its own copy of `visited` |
| SbomParser.CycloneDxPackages | src/lib/sbom/parser.ts:87-118 | one package per non-`file` component |
| SbomParser.ProcessCycloneDx | src/lib/sbom/parser.ts:24-119 | the three map-filling loops followed by the mapping give exactly `CycloneDxPackages` |
| SbomParser.CycloneDxPackagesShape | src/lib/sbom/parser.ts:87-118 | non-file components in document order; id `source:bom-ref`; identity fields copied; source is the file; license is `ResolveLicense` of the component's licenses; dependencies are the tree `DependencyTree` builds from its bom-ref; description kept when non-empty, else "No description available."; no OSV vulnerabilities; `scanned` iff the document embeds a non-empty vulnerability list |
| SbomParser.CycloneDxIdsDistinct | src/lib/sbom/parser.ts:106 | packages from components with different bom-refs get different ids |
| SbomParser.CycloneDxEmbeddedVulnerabilities | src/lib/sbom/parser.ts:40-55 | a package's embedded vulnerabilities are exactly `AffectingVulnerabilities` of its bom-ref cut at `?`: the document's vulnerabilities in document order, each once per `affects` entry whose ref, cut at `?`, is that key |
| SbomParser.SpdxPackageIndex | src/lib/sbom/parser.ts:125-128 | the SPDXID map holds, for each id, the last package with it |
| SbomParser.RelationshipEdge | src/lib/sbom/parser.ts:136-147 | an edge is produced only with a non-empty parent and child |
| SbomParser.SpdxChildrenMembers | src/lib/sbom/parser.ts:130-154 | a child is recorded under a parent iff some DEPENDS_ON/CONTAINS relationship goes parent to child or some DEPENDENCY_OF goes child to parent, both ends non-empty |
| SbomParser.SpdxAdjacencyLookup | src/lib/sbom/parser.ts:130-154 | the map built by the loop gives, per parent, its children in relationship order |
| SbomParser.BuildSpdxAdjacency | src/lib/sbom/parser.ts:130-154 | the `for ... of` loop builds exactly `SpdxAdjacency` |
| SbomParser.SpdxTree | src/lib/sbom/parser.ts:156-180 | the shared visited set only grows, only by package ids; the root is marked; the height is bounded by the unvisited packages, so the walk ends |
| SbomParser.SpdxForest | src/lib/sbom/parser.ts:170-173 | one tree per child id, the visited set growing from sibling to sibling |
| SbomParser.SpdxRepeatedSiblingIsLeaf | src/lib/sbom/parser.ts:168-173 | a package listed twice under one parent is a leaf the second time |
| SbomParser.SpdxLicense | src/lib/sbom/parser.ts:192-195 | never empty or "NOASSERTION"; a real declared license is kept, anything else is "N/A" |
| SbomParser.SpdxBomRef | src/lib/sbom/parser.ts:183-188 | the first `purl` reference's locator when it is non-empty; the SPDXID when that locator is empty or there is no purl reference |
| SbomParser.ProcessSpdx | src/lib/sbom/parser.ts:121-203 | the two map-filling loops followed by the mapping give exactly `SpdxPackages` |
| SbomParser.SpdxPackages | src/lib/sbom/parser.ts:182-202 | one package per SPDX package |
| SbomParser.SpdxPackagesShape | src/lib/sbom/parser.ts:182-202 | one package per SPDX package in order; id `source:SPDXID`; bom-ref is `SpdxBomRef` of its external references; license is `SpdxLicense` of `licenseDeclared`; description kept when non-empty, else "No description available."; dependencies are the tree `SpdxTree` builds from the package with an empty visited set; no vulnerabilities of either kind; never scanned |
| Maps.IndexOfLast | src/lib/sbom/parser.ts:28-31 | a key is in a `Map` filled by `set` iff some item has it, and it holds the last such item's value |
| Maps.BuildIndex | src/lib/sbom/parser.ts:33-38 | the `forEach`/`set` loop builds exactly `IndexOf` |
| Sequences.TakeUntil | src/lib/sbom/parser.ts:46 | `split("?")[0]` is the longest prefix without `?` |
| Utils.GetCvss | src/lib/utils.ts:10-28 | no `CVSS_V3` entry gives no score; otherwise only the first such entry counts: a "CVSS:3.1" vector is scored by the 3.1 scorer, else a "CVSS:3.0" vector by the 3.0 scorer, and any other vector (the empty one included) gives no score |
| Utils.GetCvssFirstEntryOnly | src/lib/utils.ts:13 | later `CVSS_V3` entries never change the score |
| Utils.GetSeverity | src/lib/utils.ts:30-40 | critical iff score >= 9, high iff 7 <= score < 9, medium iff 4 <= score < 7, low iff 0 < score < 4, unknown iff no score or score <= 0 |
| Utils.Classify | src/lib/utils.ts:35-39 | critical iff score >= 9, high iff 7 <= score < 9, medium iff 4 <= score < 7, low iff 0 < score < 4, unknown iff score <= 0 |
| Utils.ClassifyMonotone | src/lib/utils.ts:35-39 | a higher score never gets a lower bucket |
| Pagination.CeilDiv | src/hooks/usePagination.ts:17 | `Math.ceil(a / b)` is the least `r` with `a <= r * b` |
| Pagination.PaginationRange | src/hooks/usePagination.ts:16-58 | at most `2 * siblings + 5` entries, and every page number listed is between 1 and `totalPages` |
| Pagination.WellFormedConsequences | src/hooks/usePagination.ts:16-58 | a well-formed strip lists strictly increasing pages within `1..totalPages` and never two "..." in a row |
| Pagination.ShortRange | src/hooks/usePagination.ts:21-23 | up to `2 * siblings + 5` pages, the strip is every page from 1 |
| Pagination.TruncatedRangeShape | src/hooks/usePagination.ts:25-57 | beyond that the strip is one of the three dotted shapes, picked by the dot conditions |
| Pagination.TruncatedRange | src/hooks/usePagination.ts:25-57 | beyond that the strip has exactly `2 * siblings + 5` entries, is well formed and shows the current page when it is a real page |
| Pagination.PageBounds | src/hooks/usePagination.ts:62-66 | the item window of page `p` starts at `(p - 1) * itemsPerPage` and is `itemsPerPage` wide, so it starts at index >= 0 on pages >= 1 |
| Pagination.PageOfItem | src/hooks/usePagination.ts:60-66 | every item index lies in the window of exactly one page, and that page is between 1 and `totalPages` |
| Pagination.UsePagination | src/hooks/usePagination.ts:10-73 | `totalPages` is the ceiling of items over page size; the strip is the one for that page count; the window has the page size |
| PackageFiltering.ToLower | src/hooks/usePackageFiltering.ts:22-24 | same length, no upper-case letter left, other characters unchanged |
| PackageFiltering.ToLowerIdempotent | src/hooks/usePackageFiltering.ts:22-24 | lower-casing twice is lower-casing once |
| PackageFiltering.Includes | src/hooks/usePackageFiltering.ts:22-24 | `includes` is true iff the needle occurs at some position |
| PackageFiltering.IncludesEmpty | src/hooks/usePackageFiltering.ts:21-22 | every text includes the empty text |
| PackageFiltering.FilteredData | src/hooks/usePackageFiltering.ts:15-33 | a package is shown iff it is in the list and matches the source, the search and the vulnerable switch |
| PackageFiltering.FilteredDataIsSubsequence | src/hooks/usePackageFiltering.ts:17 | the shown packages keep their relative order |
| PackageFiltering.InitialStateShowsAll | src/hooks/usePackageFiltering.ts:11-13 | in the initial state every package is shown |
| PackageFiltering.VulnerableOnlyNarrows | src/hooks/usePackageFiltering.ts:26-28 | switching "vulnerable only" on never adds a package |
| PackageFiltering.SelectingSourceNarrows | src/hooks/usePackageFiltering.ts:18-19 | picking one source instead of "all" never adds a package |
| PackageFiltering.VulnerableOnlyIgnoresEmbedded | src/hooks/usePackageFiltering.ts:26-28 | embedded document vulnerabilities never decide visibility; with the switch on, every shown package was scanned and has OSV vulnerabilities |
| PackageFiltering.LicenseGuardRedundant | src/hooks/usePackageFiltering.ts:20-24 | the non-empty-license guard never changes the search result |
| OsvScanner.FirstPurlAt | src/hooks/useOsvScanner.ts:13 | the leftmost position where `pkg:` is followed by a character other than `/` |
| OsvScanner.PurlType | src/hooks/useOsvScanner.ts:13 | no type iff `pkg:([^/]+)` matches nowhere; otherwise the non-empty, `/`-free maximal run after the leftmost match |
| OsvScanner.Ecosystem | src/hooks/useOsvScanner.ts:13-14 | non-empty iff there is a purl type mapped to a non-empty ecosystem, and then it is that ecosystem |
| OsvScanner.NoPurlNotScannable | src/hooks/useOsvScanner.ts:13-16 | a bom-ref without a purl is never scanned, whatever the mapping |
| OsvScanner.ScanPackage | src/hooks/useOsvScanner.ts:10-52 | always marks scanned and changes only `vulnerabilities`; without an ecosystem they are kept; with one they become the response's `vulns` (or none) on an OK response and none on a non-OK response or failure |
| OsvScanner.UnscannableIgnoresQuery | src/hooks/useOsvScanner.ts:16-24 | without an ecosystem no query is consulted |
| OsvScanner.ScanPackageIdempotent | src/hooks/useOsvScanner.ts:10-52 | scanning the result again with the same answers changes nothing |
| OsvScanner.ScannablePackages | src/hooks/useOsvScanner.ts:57-60 | exactly the packages whose purl type maps to an ecosystem |
| OsvScanner.ScanResults | src/hooks/useOsvScanner.ts:61-63 | one scan result per scannable package, in order |
| OsvScanner.ById | src/hooks/useOsvScanner.ts:65 | the map holds every result's id, each under its own id |
| OsvScanner.ReplaceById | src/hooks/useOsvScanner.ts:67 | keeps the package's id; the result is the package or one of the mapped results |
| OsvScanner.ScanAllPackages | src/hooks/useOsvScanner.ts:54-70 | same length and ids in the same order |
| OsvScanner.ScanAllPackagesReplacesOwnScan | src/hooks/useOsvScanner.ts:54-70 | with distinct ids, each scannable package is replaced by its own scan and every other package is returned unchanged |
| PackageTableComponent.TableFilter | src/components/PackageTable.tsx:190-201 | the table's inline filter (license searched without a guard) keeps exactly what `usePackageFiltering` keeps |
| PackageTableComponent.PageOf | src/components/PackageTable.tsx:204-207 | at most `ITEMS_PER_PAGE` rows; on pages >= 1 it is the clamped window of that page |
| PackageTableComponent.ItemOnItsPage | src/components/PackageTable.tsx:203-207 | each filtered package appears on exactly one page, at its offset, and that page is in `1..totalPages` |
| PackageTableComponent.GetPaginationRange | src/components/PackageTable.tsx:58-103 | up to 7 pages all are listed; beyond that the strip has 7 entries, is well formed and is `TruncatedShape` with one sibling: pages 1-5, "...", the last page when the current page is at most 3; page 1, "...", the last five pages when it is at least the last page minus 3; otherwise page 1, "...", the current page with one neighbour on each side, "...", the last page; a real current page is always shown |
| PackageTableComponent.VulnerabilityTotal | src/components/PackageTable.tsx:333-336 | zero iff no package in the list has an OSV vulnerability |
| PackageTableComponent.CriticalTotal | src/components/PackageTable.tsx:338-344 | zero iff no OSV vulnerability of any package in the list is critical |
| PackageTableComponent.CriticalAtMostTotal | src/components/PackageTable.tsx:333-344 | the critical count never exceeds the vulnerability total |
| PackageTableComponent.UnscannedDoNotCount | src/components/PackageTable.tsx:299 | two lists that agree on which packages are scanned and on every scanned package have the same scanned packages, and so the same vulnerability total and critical count, whatever the unscanned packages hold |
| PackageTableComponent.MarkScanned | src/components/PackageTable.tsx:249-255 | same length and ids; entries with other ids unchanged; entries with the id get the vulnerabilities and are marked scanned, nothing else changes |
| PackageTableComponent.MarkScannedIdempotent | src/components/PackageTable.tsx:249-255 | applying the same update twice is applying it once |
| PackageTableComponent.ApplyScan | src/components/PackageTable.tsx:214-265 | same length and ids; other ids unchanged; nothing changes when no package has the id, the first one has no ecosystem, or the request fails; on any response every package with the id becomes scanned with the response's `vulns` (or none) |
| PackageTableComponent.ScanPathsAgreeOnSuccess | src/components/PackageTable.tsx:214-265 | with distinct ids and an OK response, `handleScan` yields what `scanPackage` yields, in place |
| PackageTableComponent.ScanPathsDifferOnFailure | src/components/PackageTable.tsx:256-257 | on a failed request `handleScan` leaves the package as it was, while `scanPackage` marks it scanned with no vulnerabilities |
| PackageTableComponent.ToggleColumn | src/components/PackageTable.tsx:286-292 | the column becomes visible iff it was hidden; other columns keep their visibility |
| PackageTableComponent.ToggleColumnTwice | src/components/PackageTable.tsx:286-292 | toggling twice restores the visible set, and restores the list when the column started hidden |
| PackageTableComponent.FilesToLoad | src/components/PackageTable.tsx:136-141 | every file for "all", the selected file when one is selected, none otherwise |
| PackageTableComponent.FilePackages | src/components/PackageTable.tsx:150-173 | a CycloneDX file yields `CycloneDxPackages` of its contents and an SPDX file `SpdxPackages` (none when reading it as that format fails); a failed fetch or an unsupported format yields none; every package names the file as its source |
| PackageTableComponent.LoadFile | src/components/PackageTable.tsx:150-173 | one loop step: the packages of the file by its detected format, none on failure or unsupported format |
| PackageTableComponent.LoadAll | src/components/PackageTable.tsx:148-175 | the loop's result is the concatenation, in file order, of every file's packages |
| PackageTableComponent.AllPackages | src/components/PackageTable.tsx:148-175 | no files yield no packages; every loaded package is a package of one of the files |
| PackageTableComponent.AllPackagesComplete | src/components/PackageTable.tsx:148-175 | every package of every loaded file is in the loaded list |
| PackageTableComponent.AllPackagesSource | src/components/PackageTable.tsx:148-175 | every loaded package names a loaded file as its source |
| PackageTableComponent.SelectedFileMatchesSource | src/components/PackageTable.tsx:136-191 | after loading a selected file, the source condition keeps every loaded package |
| PackageTableComponent.PackageTable.constructor | src/components/PackageTable.tsx:106-188 | empty package list, empty search, "all" selected, switch off, page 1, default columns |
| PackageTableComponent.PackageTable.Filtered | src/components/PackageTable.tsx:190-201 | the table state's filtered list is `FilteredData` of the current state |
| PackageTableComponent.PackageTable.TotalPages | src/components/PackageTable.tsx:203 | just enough pages of 8 for the filtered list |
| PackageTableComponent.PackageTable.PaginatedData | src/components/PackageTable.tsx:204-207 | the current page's slice of the filtered list: at most 8 rows, each a package that passes the filter |
| PackageTableComponent.PackageTable.TotalVulnerabilities | src/components/PackageTable.tsx:299-336 | zero iff every scanned package that passes the filter has no OSV vulnerabilities |
| PackageTableComponent.PackageTable.CriticalCount | src/components/PackageTable.tsx:338-344 | never more than the vulnerability total; zero iff no scanned package that passes the filter has a critical OSV vulnerability |
| PackageTableComponent.PackageTable.SelectSbom | src/components/PackageTable.tsx:180-182 | selecting a source resets the page to 1; the other fields are unchanged until the `loadBoms` effect, modelled by `LoadBoms`, replaces the package list |
| PackageTableComponent.PackageTable.SetSearch | src/components/PackageTable.tsx:405-408 | typing a search sets the query and resets the page to 1; the other fields are unchanged |
| PackageTableComponent.PackageTable.PreviousPage | src/components/PackageTable.tsx:595 | one page back, never below 1; the other fields are unchanged |
| PackageTableComponent.PackageTable.NextPage | src/components/PackageTable.tsx:626 | one page on, never past `totalPages`; a page in `1..totalPages` stays in that range; the other fields are unchanged |
| PackageTableComponent.PackageTable.HandleScan | src/components/PackageTable.tsx:214-265 | the package list becomes `ApplyScan` of the old list; the other fields are unchanged |
| PackageTableComponent.PackageTable.HandleColumnChange | src/components/PackageTable.tsx:286-292 | the visible columns become `ToggleColumn` of the old ones; the other fields are unchanged |
| PackageTableComponent.PackageTable.LoadBoms | src/components/PackageTable.tsx:130-178 | no index leaves the list alone; otherwise the list becomes everything the files to load yield; the other fields are unchanged |
| TreeExamples.CycloneDxCycle | src/lib/sbom/parser.ts:57-85 | on A depends on B and B on A, the tree of A is A(B(A)), the inner A a leaf |
| TreeExamples.SpdxCycle | src/lib/sbom/parser.ts:156-180 | on the same cycle in SPDX, the tree of A is also A(B(A)), the inner A a leaf |
| TreeExamples.CycloneDxDiamond | src/lib/sbom/parser.ts:75-78 | on the diamond A to B, C to D to E, D is expanded under both B and C |
| TreeExamples.SpdxDiamond | src/lib/sbom/parser.ts:170-173 | on the same diamond in SPDX, D is expanded under B and is a leaf under C |

## Left out

- Fetching the index, the documents and the OSV API is not modelled as I/O. Each is a parameter:
  - `fetch` maps a file name to its parsed content, or to a failure;
  - `OsvQuery` maps (name, version, ecosystem) to a response with its `ok` flag and `vulns`, or to a failure.
- JSON parsing and the casts `data as CycloneDXBom` / `data as SpdxBom` are left out. A fetched file carries:
  - its format markers;
  - its contents read as each format, or `None` where the code would throw.
- `src/lib/ecosystems.ts` is not part of this model. `ecosystemMapping` is a parameter map, and a missing key reads as "". Lookups of inherited object keys such as "constructor" are not modelled.
- The CVSS library (`@pandatix/js-cvss`) is not part of this model. Its two base-score functions are parameters, with `None` for a vector it rejects. Scores are `real`, not floating point.
- `toLowerCase` lower-cases ASCII letters only. Other Unicode case mappings are not modelled.
- The progress state is not modelled: `scanningIds`, `isScanningAll`, `scanningAll`, the `finally` blocks, the `console` calls and `e.stopPropagation`.
- Concurrency is not modelled:
  - `Promise.all` in `scanAllPackages` is modelled as mapping the scan over the scannable packages in order;
  - `handleScanAll` (which races several `handleScan` state updates) is not modelled beyond `HandleScan`.
- The rendering is not modelled: the JSX, `cn`, the detail dialog, the filter sidebar, the duplicated `getCVSS`/`getSeverity` inside `PackageTable.tsx` (the same as `Utils.GetSeverity`), `isColumnVisible` and `activeFiltersCount`.
- The `columns` list is not part of this model. The initially visible columns are a constructor parameter.
- The effect that fetches `/sboms/index.json` is not modelled. `LoadBoms` takes the index as a parameter.
- Setters that only assign a field are not modelled as separate methods: `setShowVulnerableOnly` and the page-number click `setCurrentPage(page)`.
- `Pagination.UsePagination`: requires `itemsPerPage > 0`. With 0 the source divides by zero: `Infinity` pages when there are items, `NaN` when there are none.
- `siblings` is a natural number. A negative or fractional value is not modelled.
- Fields the core never reads are not modelled: OSV `details`, `affected`, `references` and the like, and the Package fields used only by other components.
- The tree walks carry no separate lemma saying that no ref repeats along a root-to-leaf path. It follows from how the walks treat a ref already seen: it becomes a leaf.
- `OsvScanner.ScanAllPackagesReplacesOwnScan`: requires distinct package ids. With repeated ids, every package with that id takes the last scan result with it.
- A non-file CycloneDX component without a `bom-ref` makes the code throw, so the whole document yields no packages. The model expresses this only through `asCycloneDx` being `None`; `bomRef` is a plain string.
- An absent component `version` or SPDX `versionInfo` is read as "", so the package's version is "". The code copies `undefined` into the package instead.
- An SPDX package without an `SPDXID`, or a component without a `ref` in a dependency entry, is not modelled. The code would build the id "<file>:undefined" or a map key `undefined`; the model reads those fields as strings.

Behaviour of the code worth knowing:

- A present but empty `spdxVersion` is Unsupported, not SPDX.
- An SPDX cycle A to B to A ends with A as a leaf under B. The back edge is not dropped, because the child filter only checks the package index.
- A CycloneDX license entry with a license object but no `id` or `name` gives "N/A". It does not fall back to the entry's `expression`.
- Packages from different documents are concatenated without de-duplication or reconciliation of vulnerabilities.
- A vulnerability with two `affects` entries naming the same component is listed twice for it.
- `handleScan` in the table does not check `response.ok`: any parsed response sets its `vulns` (or none). On a failed request it leaves the package as it was, scanned or not. The hook's `scanPackage` instead marks the package scanned with no vulnerabilities on a non-OK or failed request.
- The table's search reads `pkg.license` without the hook's non-empty guard. `LicenseGuardRedundant` shows that the two filters agree.
