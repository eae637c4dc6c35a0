# LinkedIn networking content helpers, modelled in Dafny

`team.py` of the LinkedIn content creator sets up three LLM agents and a
coordinating team, and reads the user's profile from the console. Only three
pieces of its own logic compute something a contract can state. The rest is
mock data, prompt text and console I/O (see "## Left out"). This project models
those three and proves what they promise:

- `generate_networking_hashtags` (module `Hashtags`, file `hashtags.dfy`). For
  each target company it removes spaces and commas from the name and emits
  `#X`, `#XCareers` and `#XTech`. It then appends the tags of the user's
  industry. That list is looked up by the lower-cased industry name, and an
  unknown industry gets `#Professional`, `#Networking`. Last, it de-duplicates
  the tags through a Python `set` and keeps at most eight. The model is a method
  with the source's loop. Python's set iteration order for strings changes from
  run to run, so the method picks the order of the distinct tags
  nondeterministically. Its contract states only what holds for every order:
  - the bound and the exact length;
  - the tags are pairwise distinct;
  - every tag comes from a company or from the industry list;
  - every tag starts with `#`;
  - no tag is dropped when there are at most eight distinct candidates.
- `create_networking_cta` (module `CallToAction`, file `cta.dfy`). There are
  five templates, each naming the first two target companies joined with
  `", "`. The template is looked up by content type, with `"general"` as the
  fallback.
- The target-company parser in `LinkedInContentCreator.get_user_input` (module
  `CompanyInput`, file `company_input.dfy`). It splits the typed line at every
  comma and strips each piece. The line the user types is a parameter of the
  model.

Module `Text` (file `text.dfy`) models the Python string built-ins these use:
`str.replace(c, "")`, `str.strip()`, `str.split(",")`, `str.join` and
`str.lower()`.

## Model

| member | source | states |
|---|---|---|
| Text.RemoveAll | team.py:80 | `s.replace(c, "")` leaves no `c`, adds no character, and is the identity when `c` does not occur |
| Text.RemoveAllSingle | team.py:80 | `replace(c, "")` on one character drops it exactly when it is `c` |
| Text.RemoveAllAppend | team.py:80 | `replace(c, "")` of a concatenation is the concatenation of the pieces' results, so the kept characters stay in order; with `RemoveAllSingle` this fixes the result completely |
| Text.RemoveAllCounts | team.py:80 | `s.replace(c, "")` deletes every `c` and keeps every other character as often as it occurs |
| Text.Strip | team.py:291 | `strip()` returns a stripped infix of its input, cut only at whitespace (Python's `isspace` set); empty exactly when the input is all whitespace; the identity on stripped strings |
| Text.Split | team.py:291 | `split(",")` gives one more piece than there are commas, and no piece holds a comma |
| Text.Join | team.py:104-108 | definition of `sep.join(xs)`; its properties are stated by the `Text.JoinSplit`, `Text.SplitJoin` and `CallToAction.MentionCases` rows |
| Text.JoinSplit | team.py:291 | joining the pieces of a split with the separator gives the input back |
| Text.SplitJoin | team.py:291 | splitting a join of separator-free pieces gives the pieces back |
| Text.Lower | team.py:95 | the modelled `lower()` keeps the length and lowers each character on its own |
| Text.LowerOfLowercase | team.py:88-95 | a string without upper-case letters is its own lower case, so the lower-case table keys look up as themselves |
| Text.LowerIgnoresCase | team.py:95 | strings equal up to case have the same lower case |
| Hashtags.CleanCompany | team.py:80 | the cleaned company name holds no space and no comma, and every character in it comes from the name |
| Hashtags.CleanCompanyCounts | team.py:80 | cleaning keeps every character of the name other than space and comma, as often as it occurs |
| Hashtags.CleanCompanySingle | team.py:80 | cleaning one character drops it exactly when it is a space or a comma |
| Hashtags.CleanCompanyAppend | team.py:80 | cleaning a concatenation cleans each piece and keeps them in order, so the cleaned name keeps its characters in their original order |
| Hashtags.CompanyTriple | team.py:81-85 | definition of the three f-string tags of one company; its properties are stated by the `Hashtags.CompanyTagsMembership` and `Hashtags.CandidateProvenance` rows |
| Hashtags.Candidates | team.py:79-95 | definition of `networking_hashtags` just before `set`; its properties are stated by the `Hashtags.CompanyTagsLength`, `Hashtags.CandidateProvenance` and `Hashtags.GenerateNetworkingHashtags` rows |
| Hashtags.IndustryTags | team.py:87-95 | the industry contributes two or four tags, each starting with `#` |
| Hashtags.FlatMapMembership | team.py:79-85 | an element of what the `extend` loop builds comes from some company, and every company's tags are in it |
| Hashtags.CompanyTagsLength | team.py:79-85 | the company loop contributes exactly three tags per company |
| Hashtags.CompanyTagsMembership | team.py:79-85 | a tag is a company tag if and only if it is `#c`, `#cCareers` or `#cTech` for the cleaned name `c` of some listed company |
| Hashtags.CandidateProvenance | team.py:79-95 | every candidate tag comes from a listed company or from the industry's list, and starts with `#` |
| Hashtags.IndustryTagsIgnoreCase | team.py:95 | the industry lookup gives the same tags for names that differ only in letter case |
| Hashtags.IndustryTagsOfKey | team.py:88-95 | `technology`, `ai`, `finance` and `healthcare` select their own four tags |
| Hashtags.IndustryTagsFallback | team.py:95 | the fallback `#Professional`, `#Networking` is used if and only if the lower-cased industry is none of the four keys |
| Hashtags.GenerateNetworkingHashtags | team.py:72-97 | at most 8 tags, exactly min(8, number of distinct candidates); pairwise distinct; each a candidate from a company or the industry and starting with `#`; with at most 8 distinct candidates every candidate is kept |
| CallToAction.FirstTwo | team.py:104-108 | `target_companies[:2]` is a prefix of the list, of length two or the whole list when shorter |
| CallToAction.Mention | team.py:104-108 | definition of `", ".join(target_companies[:2])`; its properties are stated by the `CallToAction.MentionCases` and `CallToAction.CtaIgnoresLaterCompanies` rows |
| CallToAction.Templates | team.py:103-109 | definition of the `cta_templates` dictionary with the names filled in; its properties are stated by the `CallToAction.CreateNetworkingCta`, `CallToAction.CtaFallback` and `CallToAction.CtaKeysDiffer` rows |
| CallToAction.CreateNetworkingCta | team.py:99-111 | the dictionary lookup with its `"general"` default returns the template the content type selects (exact match on learning, achievement, insight, question, else general), filled with the mention of the first two companies between that template's opening and closing |
| CallToAction.CtaFallback | team.py:111 | any content type other than learning, achievement, insight or question gets the `"general"` template |
| CallToAction.CtaStartsWithMark | team.py:104-108 | every call to action starts with the emoji of the template it uses |
| CallToAction.MarkInjective | team.py:104-108 | the five templates start with five different emoji |
| CallToAction.CtaTemplatesDiffer | team.py:103-108 | content types that select different templates give different calls to action, whatever the companies |
| CallToAction.CtaKeysDiffer | team.py:103-111 | two different keys of `cta_templates` give two different calls to action, whatever the companies |
| CallToAction.MentionCases | team.py:104-108 | the mention is empty, the only company, or the first two companies separated by `", "` |
| CallToAction.CtaIgnoresLaterCompanies | team.py:104-108 | companies after the second do not change the call to action |
| CompanyInput.ParseTargetCompanies | team.py:290-291 | the parser yields one entry per comma-separated segment (commas + 1), each without surrounding whitespace and without a comma |
| CompanyInput.ParsedEntryTrimsSegment | team.py:291 | each entry is its segment of the input with only whitespace cut from its ends |
| CompanyInput.ParseJoinRoundTrip | team.py:291 | parsing a comma-joined non-empty list of stripped, comma-free names gives the list back |
| CompanyInput.ParseNormalizes | team.py:291 | writing a parsed list back out with `,` and parsing it again changes nothing |

## Left out

- The agent, team and model configuration (`Agent`, `Team`, `Gemini`, `GeminiTools`, `DuckDuckGoTools`) and `self.team.run(prompt)`, team.py:113-264 and 339: calls into a third-party LLM framework whose behaviour cannot be seen.
- The `@tool` decorator: framework plumbing. Only the bodies of the decorated functions are modelled.
- `analyze_linkedin_profile` and `identify_target_companies`, team.py:18-70: they return fixed mock data and take no decisions.
- Console input and output (`input`, `print`) in `get_user_input`, `run_examples` and the `__main__` block, and the environment loading through `load_dotenv`/`os.getenv`. The typed target-company line is a parameter of `CompanyInput.ParseTargetCompanies`. The other profile fields are only stored in a dictionary, and that dictionary is not modelled.
- The prompt text built in `create_networking_content`, team.py:312-337: free text handed to the LLM.
- Hashtags.GenerateNetworkingHashtags: does not model the order of the returned tags. Python's set iteration order depends on string hashing, which is randomised per process. The method picks the order nondeterministically, and its contract holds for every order.
- Text.Lower: lowers only ASCII letters, while Python's `str.lower()` also maps non-ASCII letters. This cannot change an industry lookup. Every table key is lower-case ASCII. The only non-ASCII characters whose Python lower case contains an ASCII letter are U+0130, which lowers to `i` followed by the non-ASCII U+0307, and U+212A, which lowers to `k`. No key contains a `k`.
- The emoji at the start of each call-to-action template are written as Unicode escapes. No other Unicode behaviour of the templates is modelled.
- Strings are modelled as sequences of Unicode scalar values. A Python `str` can also hold lone surrogates (U+D800 to U+DFFF), which a Dafny `char` cannot. None of the modelled operations treats them specially.
