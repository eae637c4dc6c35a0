/** `generate_networking_hashtags` of team.py: three tags per target company,
    then the tags of the user's industry, de-duplicated through a set and
    cut to at most eight. Python iterates a set of strings in an order fixed
    by string hashing, which changes from run to run; the model therefore
    picks the order of the distinct tags arbitrarily and promises only what
    holds for every order. */
module Hashtags {
  import opened Text

  /** At most this many tags are returned. */
  const MaxTags: nat := 8

  /** Tags for an industry not in the table. */
  const FallbackTags: seq<string> := ["#Professional", "#Networking"]

  /** Industry tags, keyed by the lower-cased industry name. */
  const IndustryTable: map<string, seq<string>> := map[
    "technology" := ["#TechNetworking", "#SoftwareEngineers", "#TechCommunity", "#DevCommunity"],
    "ai" := ["#AIEngineers", "#MachineLearning", "#DataScience", "#AIResearch"],
    "finance" := ["#FinTech", "#Finance", "#Banking", "#FinanceJobs"],
    "healthcare" := ["#HealthTech", "#Healthcare", "#MedTech", "#HealthcareIT"]
  ]

  predicate StartsWithHash(t: string) {
    |t| > 0 && t[0] == '#'
  }

  predicate Distinct<T(==)>(s: seq<T>) {
    forall i, j :: 0 <= i < j < |s| ==> s[i] != s[j]
  }

  function Min(a: nat, b: nat): nat {
    if a <= b then a else b
  }

  /** `company.replace(" ", "").replace(",", "")`: the company name with every
      space and every comma removed. */
  function CleanCompany(company: string): (r: string)
    ensures ' ' !in r && ',' !in r
    ensures forall x :: x in r ==> x in company
  {
    RemoveAll(RemoveAll(company, ' '), ',')
  }

  /** Cleaning keeps every character other than space and comma, as often as
      it occurs in the name. */
  lemma CleanCompanyCounts(company: string)
    ensures multiset(CleanCompany(company)) == multiset(company)[' ' := 0][',' := 0]
  {
    RemoveAllCounts(company, ' ');
    RemoveAllCounts(RemoveAll(company, ' '), ',');
  }

  /** Cleaning works piece by piece, so the kept characters stay in the
      order of the name. */
  lemma CleanCompanyAppend(a: string, b: string)
    ensures CleanCompany(a + b) == CleanCompany(a) + CleanCompany(b)
  {
    RemoveAllAppend(a, b, ' ');
    RemoveAllAppend(RemoveAll(a, ' '), RemoveAll(b, ' '), ',');
  }

  /** Cleaning one character drops a space or a comma and keeps anything else. */
  lemma CleanCompanySingle(x: char)
    ensures CleanCompany([x]) == if x == ' ' || x == ',' then [] else [x]
  {
    RemoveAllSingle(x, ' ');
    RemoveAllSingle(x, ',');
    assert RemoveAll([], ',') == [];
  }

  /** The three tags one company contributes. */
  function CompanyTriple(company: string): seq<string> {
    var c := CleanCompany(company);
    ["#" + c, "#" + c + "Careers", "#" + c + "Tech"]
  }

  /** `f(xs[0]) + f(xs[1]) + ...`: the list a loop of `extend(f(x))` calls builds. */
  function FlatMap<T, U>(f: T -> seq<U>, xs: seq<T>): seq<U> {
    if xs == [] then [] else FlatMap(f, xs[..|xs| - 1]) + f(xs[|xs| - 1])
  }

  /** The company tags after the loop has visited every company of `companies`. */
  function CompanyTags(companies: seq<string>): seq<string> {
    FlatMap(CompanyTriple, companies)
  }

  /** `industry_hashtags.get(industry.lower(), ["#Professional", "#Networking"])`:
      every industry contributes two or four tags, all starting with '#'. */
  function IndustryTags(industry: string): (r: seq<string>)
    ensures |r| == 2 || |r| == 4
    ensures forall k :: 0 <= k < |r| ==> StartsWithHash(r[k])
  {
    var key := Lower(industry);
    if key in IndustryTable then IndustryTable[key] else FallbackTags
  }

  /** The list `networking_hashtags` just before it goes through `set`. */
  function Candidates(companies: seq<string>, industry: string): seq<string> {
    CompanyTags(companies) + IndustryTags(industry)
  }

  /** `set(networking_hashtags)`. */
  function CandidateSet(companies: seq<string>, industry: string): set<string> {
    set t | t in Candidates(companies, industry)
  }

  /** An element of a flat-map comes from the image of some element, and
      every element of every image is in the flat-map. */
  lemma {:induction false} FlatMapMembership<T, U>(f: T -> seq<U>, xs: seq<T>, y: U)
    ensures y in FlatMap(f, xs) <==> exists i :: 0 <= i < |xs| && y in f(xs[i])
  {
    if xs != [] {
      var n := |xs| - 1;
      var init := xs[..n];
      FlatMapMembership(f, init, y);
      if y in FlatMap(f, xs) {
        if y !in f(xs[n]) {
          var i :| 0 <= i < |init| && y in f(init[i]);
          assert xs[i] == init[i];
        }
      } else {
        forall i | 0 <= i < n ensures y !in f(xs[i]) {
          assert init[i] == xs[i];
        }
      }
    }
  }

  /** Three company tags per listed company. */
  lemma {:induction false} CompanyTagsLength(companies: seq<string>)
    ensures |CompanyTags(companies)| == 3 * |companies|
  {
    if companies != [] {
      CompanyTagsLength(companies[..|companies| - 1]);
    }
  }

  /** A tag is a company tag exactly when it is one of the three tags of some
      listed company. */
  lemma CompanyTagsMembership(companies: seq<string>, t: string)
    ensures t in CompanyTags(companies) <==>
              exists i :: 0 <= i < |companies| && t in CompanyTriple(companies[i])
  {
    FlatMapMembership(CompanyTriple, companies, t);
  }

  /** Every candidate tag comes from a listed company or from the industry's
      list, and starts with '#'. */
  lemma CandidateProvenance(companies: seq<string>, industry: string, t: string)
    requires t in Candidates(companies, industry)
    ensures (exists i :: 0 <= i < |companies| && t in CompanyTriple(companies[i])) || t in IndustryTags(industry)
    ensures StartsWithHash(t)
  {
    CompanyTagsMembership(companies, t);
    if t !in IndustryTags(industry) {
      var i :| 0 <= i < |companies| && t in CompanyTriple(companies[i]);
    }
  }

  /** The industry lookup ignores the case of the industry name. */
  lemma IndustryTagsIgnoreCase(a: string, b: string)
    requires SameIgnoringCase(a, b)
    ensures IndustryTags(a) == IndustryTags(b)
  {
    LowerIgnoresCase(a, b);
  }

  /** An industry named by a table key, in lower case, gets that key's tags. */
  lemma IndustryTagsOfKey(key: string)
    requires key in IndustryTable
    ensures IndustryTags(key) == IndustryTable[key]
  {
    assert key == "technology" || key == "ai" || key == "finance" || key == "healthcare";
    LowerOfLowercase(key);
  }

  /** The fallback pair is used exactly for the industries outside the table. */
  lemma IndustryTagsFallback(industry: string)
    ensures IndustryTags(industry) == FallbackTags <==>
              Lower(industry) !in {"technology", "ai", "finance", "healthcare"}
  {
  }

  /** `list(set(networking_hashtags))[:8]`, with the loop over the companies
      building `networking_hashtags` as the source does. The result is at most
      eight pairwise distinct tags, each a candidate; it is as long as it can
      be, so when there are at most eight distinct candidates, none is dropped. */
  method GenerateNetworkingHashtags(targetCompanies: seq<string>, industry: string) returns (tags: seq<string>)
    ensures |tags| == Min(MaxTags, |CandidateSet(targetCompanies, industry)|)
    ensures Distinct(tags)
    ensures forall t :: t in tags ==> t in Candidates(targetCompanies, industry)
    ensures forall t :: t in tags ==> StartsWithHash(t)
    ensures forall t :: t in tags ==>
              (exists i :: 0 <= i < |targetCompanies| && t in CompanyTriple(targetCompanies[i])) || t in IndustryTags(industry)
    ensures |CandidateSet(targetCompanies, industry)| <= MaxTags ==>
              forall t :: t in Candidates(targetCompanies, industry) ==> t in tags
  {
    var networkingHashtags: seq<string> := [];
    for i := 0 to |targetCompanies|
      invariant networkingHashtags == CompanyTags(targetCompanies[..i])
    {
      var companyClean := CleanCompany(targetCompanies[i]);
      networkingHashtags := networkingHashtags + ["#" + companyClean, "#" + companyClean + "Careers", "#" + companyClean + "Tech"];
      assert targetCompanies[..i + 1][..i] == targetCompanies[..i];
    }
    assert targetCompanies[..|targetCompanies|] == targetCompanies;
    networkingHashtags := networkingHashtags + IndustryTags(industry);
    assert networkingHashtags == Candidates(targetCompanies, industry);

    // list(set(networking_hashtags)), in an order the model leaves open
    var pool := set t | t in networkingHashtags;
    var unique: seq<string> := [];
    var rest := pool;
    while rest != {}
      invariant rest <= pool
      invariant forall t :: t in unique ==> t in pool && t !in rest
      invariant forall t :: t in pool ==> t in unique || t in rest
      invariant Distinct(unique)
      invariant |unique| + |rest| == |pool|
      decreases |rest|
    {
      var t :| t in rest;
      unique := unique + [t];
      rest := rest - {t};
    }

    tags := if |unique| <= MaxTags then unique else unique[..MaxTags];
    forall t | t in tags
      ensures t in Candidates(targetCompanies, industry)
      ensures StartsWithHash(t)
      ensures (exists i :: 0 <= i < |targetCompanies| && t in CompanyTriple(targetCompanies[i])) || t in IndustryTags(industry)
    {
      assert t in unique;
      CandidateProvenance(targetCompanies, industry, t);
    }
  }
}
