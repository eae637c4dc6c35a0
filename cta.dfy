/** `create_networking_cta` of team.py: five call-to-action templates, each
    naming the first two target companies joined with ", ", looked up by
    content type with the "general" template as the fallback. */
module CallToAction {
  import opened Text

  /** The five templates, by the content type that selects them. */
  datatype ContentType = Learning | Achievement | Insight | Question | General

  /** The template a content-type string selects: an exact, case-sensitive
      match on the four named types, "general" for anything else. */
  function ContentTypeOf(contentType: string): ContentType {
    if contentType == "learning" then Learning
    else if contentType == "achievement" then Achievement
    else if contentType == "insight" then Insight
    else if contentType == "question" then Question
    else General
  }

  /** The emoji each template starts with. */
  function Mark(kind: ContentType): char {
    match kind
    case Learning => '\U{1F91D}'
    case Achievement => '\U{1F389}'
    case Insight => '\U{1F4AD}'
    case Question => '\U{2753}'
    case General => '\U{1F31F}'
  }

  /** Text of a template before the company names. */
  function Opening(kind: ContentType): (r: string)
    ensures |r| > 0 && r[0] == Mark(kind)
  {
    [Mark(kind)] +
      match kind
      case Learning => " Fellow engineers at "
      case Achievement => " Excited to connect with amazing professionals at "
      case Insight => " What do you think, "
      case Question => " Calling all experts at "
      case General => " Always excited to connect with talented professionals at "
  }

  /** Text of a template after the company names. */
  function Closing(kind: ContentType): string {
    match kind
    case Learning => ", what's your experience with this? Would love to connect and learn from your insights!"
    case Achievement => " and similar companies. Let's build something great together!"
    case Insight => " team? Would love to hear your perspectives and connect with like-minded professionals!"
    case Question => " - your insights would be invaluable! Let's connect and discuss."
    case General => " and beyond. Let's grow our network together!"
  }

  /** `target_companies[:2]`: the first two companies, or all of them when
      there are fewer. */
  function FirstTwo(companies: seq<string>): (r: seq<string>)
    ensures |r| == if |companies| < 2 then |companies| else 2
    ensures r <= companies
  {
    if |companies| <= 2 then companies else companies[..2]
  }

  /** `", ".join(target_companies[:2])`. */
  function Mention(companies: seq<string>): string {
    Join(FirstTwo(companies), ", ")
  }

  /** One template with the company names filled in: its opening, then the
      names, then its closing. */
  function Template(kind: ContentType, names: string): string {
    Opening(kind) + (names + Closing(kind))
  }

  /** The keys of `cta_templates`. */
  const TemplateKeys: set<string> := {"learning", "achievement", "insight", "question", "general"}

  /** `cta_templates`, with the company names filled in: each key maps to the
      template it names. */
  function Templates(companies: seq<string>): map<string, string> {
    var names := Mention(companies);
    map key | key in TemplateKeys :: Template(ContentTypeOf(key), names)
  }

  /** `cta_templates.get(content_type, cta_templates["general"])`: the
      template the content type selects, with the first two companies named
      between its opening and its closing. */
  function CreateNetworkingCta(targetCompanies: seq<string>, contentType: string): (r: string)
    ensures r == Template(ContentTypeOf(contentType), Mention(targetCompanies))
  {
    var templates := Templates(targetCompanies);
    if contentType in templates then templates[contentType]
    else
      assert templates["general"] == Template(ContentTypeOf(contentType), Mention(targetCompanies)) by {
        assert "general" in TemplateKeys && contentType !in TemplateKeys;
        assert ContentTypeOf(contentType) == ContentTypeOf("general") == General;
      }
      templates["general"]
  }

  /** Any content type other than the four named ones gets the "general" template. */
  lemma CtaFallback(targetCompanies: seq<string>, contentType: string)
    requires contentType !in {"learning", "achievement", "insight", "question"}
    ensures CreateNetworkingCta(targetCompanies, contentType) == Templates(targetCompanies)["general"]
  {
  }

  /** Every call to action starts with the emoji of the template it uses. */
  lemma CtaStartsWithMark(targetCompanies: seq<string>, contentType: string)
    ensures var r := CreateNetworkingCta(targetCompanies, contentType);
            |r| > 0 && r[0] == Mark(ContentTypeOf(contentType))
  {
    var kind := ContentTypeOf(contentType);
    var rest := Mention(targetCompanies) + Closing(kind);
    assert (Opening(kind) + rest)[0] == Mark(kind);
  }

  /** The five templates start with five different emoji. */
  lemma MarkInjective(ka: ContentType, kb: ContentType)
    requires ka != kb
    ensures Mark(ka) != Mark(kb)
  {
    match ka
    case Learning =>
    case Achievement =>
    case Insight =>
    case Question =>
    case General =>
  }

  /** Different templates give different calls to action, whatever the
      companies: the first character already tells them apart. */
  lemma CtaTemplatesDiffer(targetCompanies: seq<string>, a: string, b: string)
    requires ContentTypeOf(a) != ContentTypeOf(b)
    ensures CreateNetworkingCta(targetCompanies, a) != CreateNetworkingCta(targetCompanies, b)
  {
    CtaStartsWithMark(targetCompanies, a);
    CtaStartsWithMark(targetCompanies, b);
    MarkInjective(ContentTypeOf(a), ContentTypeOf(b));
    assert CreateNetworkingCta(targetCompanies, a)[0] != CreateNetworkingCta(targetCompanies, b)[0];
  }

  /** The names in a call to action: none, the only company, or the first two
      separated by ", ". */
  lemma MentionCases(companies: seq<string>)
    ensures |companies| == 0 ==> Mention(companies) == ""
    ensures |companies| == 1 ==> Mention(companies) == companies[0]
    ensures |companies| >= 2 ==> Mention(companies) == companies[0] + ", " + companies[1]
  {
    if |companies| >= 2 {
      var two := FirstTwo(companies);
      assert two[1..] == [companies[1]];
      assert Mention(companies) == two[0] + ", " + Join(two[1..], ", ");
    }
  }

  /** Companies after the second never reach the call to action. */
  lemma CtaIgnoresLaterCompanies(targetCompanies: seq<string>, more: seq<string>, contentType: string)
    requires |targetCompanies| >= 2
    ensures CreateNetworkingCta(targetCompanies + more, contentType) == CreateNetworkingCta(targetCompanies, contentType)
  {
    assert FirstTwo(targetCompanies + more) == FirstTwo(targetCompanies);
  }

  /** Each key of `cta_templates` names a template of its own. */
  lemma KeysSelectDistinctTemplates(k1: string, k2: string)
    requires k1 in TemplateKeys && k2 in TemplateKeys && k1 != k2
    ensures ContentTypeOf(k1) != ContentTypeOf(k2)
  {
  }

  /** Two different keys of `cta_templates` give two different calls to
      action, whatever the companies. */
  lemma CtaKeysDiffer(targetCompanies: seq<string>, k1: string, k2: string)
    requires k1 in TemplateKeys && k2 in TemplateKeys && k1 != k2
    ensures CreateNetworkingCta(targetCompanies, k1) != CreateNetworkingCta(targetCompanies, k2)
  {
    KeysSelectDistinctTemplates(k1, k2);
    CtaTemplatesDiffer(targetCompanies, k1, k2);
  }
}
