/** `getCVSS` and `getSeverity`: pick the CVSS v3 vector of an advisory, score it with the CVSS
    library and bucket the base score on the qualitative scale of section 5 of the CVSS v3.1
    specification, except that a score of 0 (and no score at all) is "unknown". */
module Utils {
  import opened Wrappers
  import opened Sequences
  import opened SbomTypes

  /** The CVSS library's `new CVSS31(vector).BaseScore()` and `new CVSS30(vector).BaseScore()`;
      `None` stands for a constructor or scorer that throws. */
  datatype CvssLibrary = CvssLibrary(baseScore31: string -> Option<real>, baseScore30: string -> Option<real>)

  predicate IsCvssV3(s: SeverityScore) {
    s.scoreType == "CVSS_V3"
  }

  predicate StartsWith(s: string, prefix: string) {
    prefix <= s
  }

  /** `getCVSS`: only the first `CVSS_V3` entry is looked at; an empty vector, a vector that does
      not start with "CVSS:3.1" or "CVSS:3.0", or a library failure gives no score. */
  function GetCvss(severity: seq<SeverityScore>, lib: CvssLibrary): (r: Option<real>)
    ensures r.Some? ==>
      exists i :: 0 <= i < |severity| && IsCvssV3(severity[i]) && (forall j :: 0 <= j < i ==> !IsCvssV3(severity[j]))
        && (|| (StartsWith(severity[i].score, "CVSS:3.1") && r == lib.baseScore31(severity[i].score))
            || (!StartsWith(severity[i].score, "CVSS:3.1") && StartsWith(severity[i].score, "CVSS:3.0")
                && r == lib.baseScore30(severity[i].score)))
    ensures (forall i :: 0 <= i < |severity| ==> !IsCvssV3(severity[i])) ==> r.None?
    ensures var k := FindIndex(severity, IsCvssV3);
      k.Some? && StartsWith(severity[k.value].score, "CVSS:3.1") ==>
        r == lib.baseScore31(severity[k.value].score)
    ensures var k := FindIndex(severity, IsCvssV3);
      k.Some? && !StartsWith(severity[k.value].score, "CVSS:3.1") && StartsWith(severity[k.value].score, "CVSS:3.0") ==>
        r == lib.baseScore30(severity[k.value].score)
    ensures var k := FindIndex(severity, IsCvssV3);
      k.Some? && !StartsWith(severity[k.value].score, "CVSS:3.1") && !StartsWith(severity[k.value].score, "CVSS:3.0") ==>
        r.None?
  {
    match FindIndex(severity, IsCvssV3)
    case None => None
    case Some(i) =>
      var vector := severity[i].score;
      if vector == "" then None
      else if StartsWith(vector, "CVSS:3.1") then lib.baseScore31(vector)
      else if StartsWith(vector, "CVSS:3.0") then lib.baseScore30(vector)
      else None
  }

  /** Later `CVSS_V3` entries are never consulted. */
  lemma GetCvssFirstEntryOnly(before: seq<SeverityScore>, entry: SeverityScore, after1: seq<SeverityScore>,
                              after2: seq<SeverityScore>, lib: CvssLibrary)
    requires forall j :: 0 <= j < |before| ==> !IsCvssV3(before[j])
    requires IsCvssV3(entry)
    ensures GetCvss(before + [entry] + after1, lib) == GetCvss(before + [entry] + after2, lib)
  {
    FindFirstAfterPrefix(before, entry, after1);
    FindFirstAfterPrefix(before, entry, after2);
  }

  lemma FindFirstAfterPrefix(before: seq<SeverityScore>, entry: SeverityScore, after: seq<SeverityScore>)
    requires forall j :: 0 <= j < |before| ==> !IsCvssV3(before[j])
    requires IsCvssV3(entry)
    ensures FindIndex(before + [entry] + after, IsCvssV3) == Some(|before|)
  {
    var s := before + [entry] + after;
    assert s[|before|] == entry;
    assert forall j :: 0 <= j < |before| ==> s[j] == before[j];
  }

  /** The bucket of a base score: lower bounds inclusive, 0 and below "unknown". */
  function Classify(score: real): (r: Severity)
    ensures r == Critical <==> 9.0 <= score
    ensures r == High <==> 7.0 <= score < 9.0
    ensures r == Medium <==> 4.0 <= score < 7.0
    ensures r == Low <==> 0.0 < score < 4.0
    ensures r == Unknown <==> score <= 0.0
  {
    if score >= 9.0 then Critical
    else if score >= 7.0 then High
    else if score >= 4.0 then Medium
    else if score > 0.0 then Low
    else Unknown
  }

  /** `getSeverity`: total, and each bucket is an interval of the base score. */
  function GetSeverity(severity: seq<SeverityScore>, lib: CvssLibrary): (r: Severity)
    ensures var c := GetCvss(severity, lib);
      && (r == Critical <==> c.Some? && 9.0 <= c.value)
      && (r == High <==> c.Some? && 7.0 <= c.value < 9.0)
      && (r == Medium <==> c.Some? && 4.0 <= c.value < 7.0)
      && (r == Low <==> c.Some? && 0.0 < c.value < 4.0)
      && (r == Unknown <==> c.None? || c.value <= 0.0)
  {
    match GetCvss(severity, lib)
    case None => Unknown
    case Some(score) => Classify(score)
  }

  /** The order of the buckets, "unknown" lowest. */
  function Rank(s: Severity): nat {
    match s
    case Unknown => 0
    case Low => 1
    case Medium => 2
    case High => 3
    case Critical => 4
  }

  /** Raising a score never lowers its bucket. */
  lemma ClassifyMonotone(a: real, b: real)
    requires a <= b
    ensures Rank(Classify(a)) <= Rank(Classify(b))
  {
  }
}
