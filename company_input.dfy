/** The target-company list that `LinkedInContentCreator.get_user_input`
    builds from the line the user types: the line split at every comma, each
    piece stripped of surrounding whitespace. The console prompt itself is
    outside the model; the typed line is the parameter. */
module CompanyInput {
  import opened Text

  /** `[company.strip() for company in target_input.split(",")]`: one entry per
      comma-separated segment (one more than the number of commas), each
      without surrounding whitespace and without a comma. */
  function ParseTargetCompanies(targetInput: string): (companies: seq<string>)
    ensures |companies| == Count(targetInput, ',') + 1
    ensures forall k :: 0 <= k < |companies| ==> IsStripped(companies[k]) && ',' !in companies[k]
  {
    var pieces := Split(targetInput, ',');
    seq(|pieces|, k requires 0 <= k < |pieces| => Strip(pieces[k]))
  }

  /** Writing a non-empty list of stripped, comma-free names with "," between
      them and parsing the line gives the list back. */
  lemma ParseJoinRoundTrip(companies: seq<string>)
    requires |companies| > 0
    requires forall k :: 0 <= k < |companies| ==> IsStripped(companies[k]) && ',' !in companies[k]
    ensures ParseTargetCompanies(Join(companies, ",")) == companies
  {
    SplitJoin(companies, ',');
  }

  /** Parsing is a normal form: writing a parsed list back out with "," and
      parsing again changes nothing. */
  lemma ParseNormalizes(targetInput: string)
    ensures var companies := ParseTargetCompanies(targetInput);
            ParseTargetCompanies(Join(companies, ",")) == companies
  {
    ParseJoinRoundTrip(ParseTargetCompanies(targetInput));
  }

  /** Each parsed entry is its segment of the input with only whitespace cut
      from its ends. */
  lemma ParsedEntryTrimsSegment(targetInput: string, k: nat, segment: string)
    requires k < Count(targetInput, ',') + 1
    requires segment == Split(targetInput, ',')[k]
    ensures exists i, j :: TrimsTo(segment, i, j) && ParseTargetCompanies(targetInput)[k] == segment[i..j]
  {
    var entry := ParseTargetCompanies(targetInput)[k];
    assert entry == Strip(segment);
  }
}
