/**
 * The fact checker's own logic (agents/definitions/fact_checker.py): which
 * lines of the model's answer count as claims, how a verification text is
 * turned into a status, and the report over the checked claims. The model's
 * answers are parameters: the claim-extraction text, and `verifier`, the
 * verification text the model gives for each claim.
 */
module FactChecker {
  import opened Wrappers
  import opened PyStrings
  import opened LineParsing

  // ---------------------------------------------------------------------
  // extract_claims

  /** A stripped line starting with "- " or "* ", or a raw line holding ": ". */
  predicate IsClaimLine(line: string) {
    StartsWith(Strip(line), "- ") || StartsWith(Strip(line), "* ") || Contains(line, ": ")
  }

  /** What one line contributes: itself, stripped, when it is a claim line. */
  function ClaimOf(line: string): Option<string> {
    if IsClaimLine(line) then Some(Strip(line)) else None
  }

  /** The claims of a model answer: its stripped claim lines, in line order. */
  function Claims(result: string): seq<string> {
    CollectLines(ClaimOf, Split(Strip(result), "\n"))
  }

  method ExtractClaims(result: string) returns (claims: seq<string>)
    ensures claims == Claims(result)
  {
    var lines := Split(Strip(result), "\n");
    claims := [];
    for k := 0 to |lines|
      invariant claims == CollectLines(ClaimOf, lines[..k])
    {
      CollectLinesStep(ClaimOf, lines, k);
      var line := lines[k];
      if StartsWith(Strip(line), "- ") || StartsWith(Strip(line), "* ") || Contains(line, ": ") {
        claims := claims + [Strip(line)];
      }
    }
    assert lines[..|lines|] == lines;
  }

  /** Every claim is the stripped form of a claim line of the answer, so it comes back stripped. */
  lemma ClaimsStripped(result: string)
    ensures forall c :: c in Claims(result) ==> Strip(c) == c
  {
    var lines := Split(Strip(result), "\n");
    forall c | c in Claims(result)
      ensures Strip(c) == c
    {
      CollectLinesExact(ClaimOf, lines, c);
      var k :| 0 <= k < |lines| && ClaimOf(lines[k]) == Some(c);
      StripIdempotent(lines[k]);
    }
  }

  // ---------------------------------------------------------------------
  // verify_claim

  datatype Status = Verified | Refuted | PartiallyVerified | Unverifiable | Unknown

  /** The status strings stored in a result record. */
  function StatusName(s: Status): string {
    match s
    case Verified => "Verified"
    case Refuted => "Refuted"
    case PartiallyVerified => "Partially Verified"
    case Unverifiable => "Unverifiable"
    case Unknown => "Unknown"
  }

  /** The keyword tests, in order, on the upper-cased verification text. */
  function ClassifyStatus(verificationResult: string): Status {
    var u := Upper(verificationResult);
    if Contains(u, "TRUE") || Contains(u, "VERIFIED") then Verified
    else if Contains(u, "FALSE") || Contains(u, "INCORRECT") then Refuted
    else if Contains(u, "PARTIALLY") then PartiallyVerified
    else if Contains(u, "UNVERIFIABLE") || Contains(u, "INSUFFICIENT") then Unverifiable
    else Unknown
  }

  /**
   * The first keyword group that occurs decides, and a later group counts only
   * when no earlier one occurs: any text holding "TRUE" (so "PARTIALLY TRUE"
   * and "UNTRUE") or "VERIFIED" (so "UNVERIFIED") is Verified.
   */
  lemma ClassifyStatusOrder(verificationResult: string)
    ensures var u := Upper(verificationResult);
            var s := ClassifyStatus(verificationResult);
            (s == Verified <==> Contains(u, "TRUE") || Contains(u, "VERIFIED")) &&
            (s == Refuted <==> !Contains(u, "TRUE") && !Contains(u, "VERIFIED") &&
                               (Contains(u, "FALSE") || Contains(u, "INCORRECT"))) &&
            (s == PartiallyVerified ==> Contains(u, "PARTIALLY") && !Contains(u, "TRUE")) &&
            (s == Unverifiable ==> (Contains(u, "UNVERIFIABLE") || Contains(u, "INSUFFICIENT")) &&
                                   !Contains(u, "PARTIALLY") && !Contains(u, "FALSE")) &&
            (s == Unknown <==> !Contains(u, "TRUE") && !Contains(u, "VERIFIED") && !Contains(u, "FALSE") &&
                               !Contains(u, "INCORRECT") && !Contains(u, "PARTIALLY") &&
                               !Contains(u, "UNVERIFIABLE") && !Contains(u, "INSUFFICIENT"))
  {
  }

  /** The result dictionary of `verify_claim`. */
  datatype VerificationRecord = VerificationRecord(claim: string, status: Status, details: string, sources: seq<string>)

  /** The record echoes the claim, keeps the raw verification text as details, and lists no sources. */
  function VerifyClaim(claim: string, verificationResult: string): VerificationRecord {
    VerificationRecord(claim, ClassifyStatus(verificationResult), verificationResult, [])
  }

  const WikipediaPrefix := "Wikipedia context: "

  /** `" ".join(claim.split()[:5])`: the first five words of the claim. */
  function SearchQuery(claim: string): string {
    Join(SlicePrefix(Words(claim), 5), " ")
  }

  /**
   * The query's own words are the claim's first five words (all of them when
   * there are fewer), in order: joining with single spaces loses and merges none.
   */
  lemma SearchQueryWords(claim: string)
    ensures Words(SearchQuery(claim)) == SlicePrefix(Words(claim), 5)
    ensures |Words(SearchQuery(claim))| == if |Words(claim)| <= 5 then |Words(claim)| else 5
  {
    var ws := Words(claim);
    var first := SlicePrefix(ws, 5);
    WordsFromAreWords(claim, 0);
    assert forall k :: 0 <= k < |first| ==> first[k] == ws[k];
    WordsOfJoin(first);
  }

  /**
   * The context handed to the verification: the first 1000 characters of a
   * non-empty search result, labelled; empty when the search is off, raised
   * (`None`) or found nothing.
   */
  function WikipediaContext(useWikipedia: bool, wikiResult: Option<string>): (r: string)
    ensures |r| <= |WikipediaPrefix| + 1000
    ensures r == [] <==> !useWikipedia || wikiResult.None? || wikiResult.value == []
    ensures r != [] ==> StartsWith(r, WikipediaPrefix) && StartsWith(wikiResult.value, r[|WikipediaPrefix|..])
    ensures r != [] ==>
              r == WikipediaPrefix + wikiResult.value[..if |wikiResult.value| <= 1000 then |wikiResult.value| else 1000]
  {
    if useWikipedia && wikiResult.Some? && wikiResult.value != [] then
      var r := WikipediaPrefix + SlicePrefix(wikiResult.value, 1000);
      assert r[..|WikipediaPrefix|] == WikipediaPrefix && r[|WikipediaPrefix|..] == SlicePrefix(wikiResult.value, 1000);
      r
    else ""
  }

  // ---------------------------------------------------------------------
  // check_transcript_facts

  /** `claims[:max_claims]` when there are more than `max_claims` claims. */
  function ClaimsToCheck(claims: seq<string>, maxClaims: int): (r: seq<string>)
    ensures maxClaims >= 0 ==> |r| == if |claims| <= maxClaims then |claims| else maxClaims
    ensures |r| <= |claims| && r == claims[..|r|]
  {
    if |claims| > maxClaims then SlicePrefix(claims, maxClaims) else claims
  }

  /** The verification of one claim, with the model's answer for it. */
  function Verify(verifier: string -> string): string -> VerificationRecord {
    claim => VerifyClaim(claim, verifier(claim))
  }

  /** One record per claim, in order. */
  function Verifications(claims: seq<string>, verifier: string -> string): (r: seq<VerificationRecord>)
    ensures |r| == |claims|
  {
    MapLines(Verify(verifier), claims)
  }

  /** `sum(1 for r in results if r["status"] == status)` */
  function CountStatus(results: seq<VerificationRecord>, status: Status): (n: nat)
    ensures n <= |results|
  {
    if results == [] then 0
    else CountStatus(results[..|results| - 1], status) + (if results[|results| - 1].status == status then 1 else 0)
  }

  /** `sum(1 for r in results if r["status"] not in ["Verified", "Refuted"])` */
  function CountUncertain(results: seq<VerificationRecord>): (n: nat)
    ensures n <= |results|
  {
    if results == [] then 0
    else
      var s := results[|results| - 1].status;
      CountUncertain(results[..|results| - 1]) + (if s != Verified && s != Refuted then 1 else 0)
  }

  /** The statuses of the records, in order. */
  function StatusesOf(results: seq<VerificationRecord>): (r: seq<Status>)
    ensures |r| == |results| && forall k :: 0 <= k < |results| ==> r[k] == results[k].status
  {
    seq(|results|, k requires 0 <= k < |results| => results[k].status)
  }

  /** The count of a status is how many records carry it. */
  lemma {:induction false} CountStatusIsMultiplicity(results: seq<VerificationRecord>, status: Status)
    ensures CountStatus(results, status) == multiset(StatusesOf(results))[status]
    decreases |results|
  {
    if results != [] {
      var init := results[..|results| - 1];
      CountStatusIsMultiplicity(init, status);
      assert StatusesOf(results) == StatusesOf(init) + [results[|results| - 1].status];
    }
  }

  /** The uncertain records are those that are neither verified nor refuted. */
  lemma {:induction false} CountUncertainIsRest(results: seq<VerificationRecord>)
    ensures var ss := multiset(StatusesOf(results));
            CountUncertain(results) == |results| - ss[Verified] - ss[Refuted]
    decreases |results|
  {
    if results != [] {
      var init := results[..|results| - 1];
      CountUncertainIsRest(init);
      assert StatusesOf(results) == StatusesOf(init) + [results[|results| - 1].status];
    }
  }

  datatype Report = Report(totalClaims: nat, verifiedClaims: nat, refutedClaims: nat, uncertainClaims: nat,
                           results: seq<VerificationRecord>)

  function ReportOf(results: seq<VerificationRecord>): Report {
    Report(|results|, CountStatus(results, Verified), CountStatus(results, Refuted), CountUncertain(results), results)
  }

  /** The claims are extracted, cut to `maxClaims`, and verified one by one in order. */
  method CheckTranscriptFacts(extractionResult: string, maxClaims: int, verifier: string -> string)
    returns (report: Report)
    ensures report == ReportOf(Verifications(ClaimsToCheck(Claims(extractionResult), maxClaims), verifier))
  {
    var claims := ExtractClaims(extractionResult);
    if |claims| > maxClaims {
      claims := SlicePrefix(claims, maxClaims);
    }
    var verificationResults := VerifyAll(claims, verifier);
    report := Report(|claims|, CountStatus(verificationResults, Verified), CountStatus(verificationResults, Refuted),
                     CountUncertain(verificationResults), verificationResults);
  }

  /** The loop of `check_transcript_facts` that verifies each claim in turn. */
  method VerifyAll(claims: seq<string>, verifier: string -> string) returns (verificationResults: seq<VerificationRecord>)
    ensures verificationResults == Verifications(claims, verifier)
  {
    verificationResults := [];
    for k := 0 to |claims|
      invariant verificationResults == Verifications(claims[..k], verifier)
    {
      MapLinesStep(Verify(verifier), claims, k);
      var result := VerifyClaim(claims[k], verifier(claims[k]));
      verificationResults := verificationResults + [result];
    }
    assert claims[..|claims|] == claims;
  }

  /** Every checked claim is counted exactly once: verified, refuted or uncertain. */
  lemma {:induction false} TalliesAddUp(results: seq<VerificationRecord>)
    ensures var r := ReportOf(results);
            r.verifiedClaims + r.refutedClaims + r.uncertainClaims == r.totalClaims
    decreases |results|
  {
    if results != [] {
      TalliesAddUp(results[..|results| - 1]);
    }
  }

  /**
   * The report covers the first `maxClaims` claims (all of them when there are
   * no more), each with its own verification, in claim order.
   */
  lemma ReportCoversFirstClaims(extractionResult: string, maxClaims: nat, verifier: string -> string)
    ensures var claims := Claims(extractionResult);
            var r := ReportOf(Verifications(ClaimsToCheck(claims, maxClaims), verifier));
            r.totalClaims == (if |claims| <= maxClaims then |claims| else maxClaims) &&
            forall k :: 0 <= k < r.totalClaims ==>
              r.results[k].claim == claims[k] && r.results[k].status == ClassifyStatus(verifier(claims[k]))
  {
    var checked := ClaimsToCheck(Claims(extractionResult), maxClaims);
    MapLinesAt(Verify(verifier), checked);
  }
}
