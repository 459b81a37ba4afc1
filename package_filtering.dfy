/** `usePackageFiltering`: which packages the table shows for the current source selection, search
    text and "vulnerable only" switch. */
module PackageFiltering {
  import opened Sequences
  import opened SbomTypes

  // ---------------------------------------------------------------- text helpers

  predicate IsUpper(c: char) {
    'A' <= c <= 'Z'
  }

  /** `toLowerCase`, restricted to ASCII letters. */
  function ToLower(s: string): (r: string)
    ensures |r| == |s|
    ensures forall i :: 0 <= i < |s| ==> !IsUpper(r[i])
    ensures forall i :: 0 <= i < |s| && !IsUpper(s[i]) ==> r[i] == s[i]
  {
    seq(|s|, i requires 0 <= i < |s| => if IsUpper(s[i]) then (s[i] as int + 32) as char else s[i])
  }

  /** Lower-casing twice is lower-casing once. */
  lemma ToLowerIdempotent(s: string)
    ensures ToLower(ToLower(s)) == ToLower(s)
  {
    var once := ToLower(s);
    assert forall i :: 0 <= i < |s| ==> ToLower(once)[i] == once[i];
  }

  /** `n` occurs in `h` starting at position `i`. */
  ghost predicate OccursAt(h: string, n: string, i: int) {
    0 <= i && i + |n| <= |h| && h[i..i + |n|] == n
  }

  /** `h.includes(n)`. */
  function Includes(h: string, n: string): (b: bool)
    ensures b <==> exists i :: OccursAt(h, n, i)
    decreases |h|
  {
    if |n| > |h| then false
    else if n <= h then
      assert OccursAt(h, n, 0);
      true
    else
      ShiftOccurrence(h, n);
      Includes(h[1..], n)
  }

  /** When `n` is not a prefix of `h`, its occurrences in `h` are those in `h[1..]`, shifted. */
  lemma ShiftOccurrence(h: string, n: string)
    requires |n| <= |h| && !(n <= h)
    ensures (exists i :: OccursAt(h, n, i)) <==> (exists i :: OccursAt(h[1..], n, i))
  {
    forall i | OccursAt(h, n, i)
      ensures i >= 1 && OccursAt(h[1..], n, i - 1)
    {
      assert h[1..][i - 1..i - 1 + |n|] == h[i..i + |n|];
    }
    forall i | OccursAt(h[1..], n, i)
      ensures OccursAt(h, n, i + 1)
    {
      assert h[1..][i..i + |n|] == h[i + 1..i + 1 + |n|];
    }
  }

  /** Every text includes the empty text. */
  lemma IncludesEmpty(h: string)
    ensures Includes(h, "")
  {
    assert OccursAt(h, "", 0);
  }

  // ---------------------------------------------------------------- the filter

  /** The three inputs of the filter; the hook starts from `InitialState`. */
  datatype FilterState = FilterState(searchQuery: string, showVulnerableOnly: bool, selectedSbom: string)

  const InitialState := FilterState("", false, "all")

  predicate MatchesSbom(selectedSbom: string, pkg: Package) {
    selectedSbom == "all" || pkg.source == selectedSbom
  }

  /** The search condition of the hook: the license is searched only when it is not empty. */
  predicate MatchesSearch(query: string, pkg: Package) {
    || query == ""
    || Includes(ToLower(pkg.name), ToLower(query))
    || (pkg.license != "" && Includes(ToLower(pkg.license), ToLower(query)))
  }

  predicate MatchesVulnerable(showVulnerableOnly: bool, pkg: Package) {
    !showVulnerableOnly || (pkg.scanned && |pkg.vulnerabilities| > 0)
  }

  predicate Keep(state: FilterState, pkg: Package) {
    && MatchesSbom(state.selectedSbom, pkg)
    && MatchesSearch(state.searchQuery, pkg)
    && MatchesVulnerable(state.showVulnerableOnly, pkg)
  }

  /** `filteredData`: the packages that meet all three conditions, in their original order. */
  function FilteredData(packages: seq<Package>, state: FilterState): (r: seq<Package>)
    ensures |r| <= |packages|
    ensures forall p :: p in r <==> p in packages && Keep(state, p)
  {
    Filter(packages, p => Keep(state, p))
  }

  /** The result keeps the relative order of the input. */
  lemma FilteredDataIsSubsequence(packages: seq<Package>, state: FilterState)
    ensures IsSubsequence(FilteredData(packages, state), packages)
  {
    FilterIsSubsequence(packages, p => Keep(state, p));
  }

  /** Before the user touches any control, every package is shown. */
  lemma InitialStateShowsAll(packages: seq<Package>)
    ensures FilteredData(packages, InitialState) == packages
  {
    FilterAll(packages, p => Keep(InitialState, p));
  }

  /** Turning "vulnerable only" on never adds a package. */
  lemma VulnerableOnlyNarrows(packages: seq<Package>, query: string, selectedSbom: string)
    ensures IsSubsequence(FilteredData(packages, FilterState(query, true, selectedSbom)),
                          FilteredData(packages, FilterState(query, false, selectedSbom)))
  {
    FilterMonotone(packages, p => Keep(FilterState(query, true, selectedSbom), p),
                   p => Keep(FilterState(query, false, selectedSbom), p));
  }

  /** Going from "all" to one source never adds a package. */
  lemma SelectingSourceNarrows(packages: seq<Package>, query: string, vulnerableOnly: bool, selectedSbom: string)
    ensures IsSubsequence(FilteredData(packages, FilterState(query, vulnerableOnly, selectedSbom)),
                          FilteredData(packages, FilterState(query, vulnerableOnly, "all")))
  {
    FilterMonotone(packages, p => Keep(FilterState(query, vulnerableOnly, selectedSbom), p),
                   p => Keep(FilterState(query, vulnerableOnly, "all"), p));
  }

  /** "Vulnerable only" looks at the scan results alone: the vulnerabilities embedded in the
      document never decide whether a package is shown, so a package whose only known
      vulnerabilities are embedded ones is hidden. */
  lemma VulnerableOnlyIgnoresEmbedded(packages: seq<Package>, state: FilterState, embedded: seq<SbomVulnerability>)
    ensures forall p :: p in packages ==> (Keep(state, p) <==> Keep(state, p.(sbomVulnerabilities := embedded)))
    ensures state.showVulnerableOnly ==>
      forall p :: p in FilteredData(packages, state) ==> p.scanned && p.vulnerabilities != []
  {
  }

  /** An empty license never matches a search on its own: dropping the license guard would not
      change the hook's result. */
  lemma LicenseGuardRedundant(query: string, pkg: Package)
    ensures MatchesSearch(query, pkg) <==>
      (|| query == ""
       || Includes(ToLower(pkg.name), ToLower(query))
       || Includes(ToLower(pkg.license), ToLower(query)))
  {
    if pkg.license == "" && Includes(ToLower(pkg.license), ToLower(query)) {
      var i :| OccursAt(ToLower(pkg.license), ToLower(query), i);
      assert query == "";
    }
  }
}
