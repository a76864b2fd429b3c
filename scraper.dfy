/** Scrape ingestion (ivy_intelligence/apps/opportunities/scraper.py): the
    opportunity-type rules, the filtering each site scraper applies to what
    it extracted from a page, the registry of scrapers, and `run_scraper`,
    which stores the new candidates and keeps a ScrapingLog.

    Fetching and HTML parsing are outside the model: a `Web` maps a URL to
    the page fetched from it (None when the fetch failed), and a page is
    already reduced to the event blocks and the links the parser found. */
module Scraper {
  import opened Text
  import opened Wrappers
  import opened KeywordRules
  import opened OpportunityModels
  import opened Classifier

  // ---------------------------------------------------------------- classify_type

  /** The keyword groups of `classify_type`, in the order they are tried. */
  const TYPE_RULES: seq<Rule> := [
    Rule(["internship", "intern"], "INTERNSHIP"),
    Rule(["hackathon", "hack"], "HACKATHON"),
    Rule(["workshop", "bootcamp", "training"], "WORKSHOP"),
    Rule(["conference", "symposium", "summit"], "CONFERENCE"),
    Rule(["scholarship", "grant", "funding"], "SCHOLARSHIP"),
    Rule(["fellowship"], "FELLOWSHIP"),
    Rule(["competition", "contest", "challenge"], "COMPETITION")
  ]

  /** `classify_type`: the type of the first group with a keyword in the
      lower-cased title, OTHER when none; always an opportunity type. */
  function ClassifyType(title: string): (t: string)
    ensures t in OPPORTUNITY_TYPES
  {
    FirstMatch(Lower(title), TYPE_RULES, "OTHER")
  }

  /** The earliest group that hits decides. */
  lemma ClassifyTypeOrder(title: string, g: int)
    requires 0 <= g < |TYPE_RULES|
    requires Hits(Lower(title), TYPE_RULES, g)
    requires forall h :: 0 <= h < g ==> !Hits(Lower(title), TYPE_RULES, h)
    ensures ClassifyType(title) == TYPE_RULES[g].code
  {
    FirstMatchIsEarliest(Lower(title), TYPE_RULES, "OTHER", g);
  }

  lemma ClassifyTypeOther(title: string)
    requires forall h :: 0 <= h < |TYPE_RULES| ==> !Hits(Lower(title), TYPE_RULES, h)
    ensures ClassifyType(title) == "OTHER"
  {
    FirstMatchNoHit(Lower(title), TYPE_RULES, "OTHER");
  }

  /** A title is an INTERNSHIP exactly when its lower-cased form contains
      "intern" ("internship" itself contains it), whatever else it says. */
  lemma InternshipIffIntern(title: string)
    ensures ClassifyType(title) == "INTERNSHIP" <==> Contains(Lower(title), "intern")
  {
    var t := Lower(title);
    if Contains(t, "intern") {
      KeywordOccurs(t, TYPE_RULES[0].keywords, 1);
      ClassifyTypeOrder(title, 0);
    } else {
      if Contains(t, "internship") {
        ContainsPrefixOf(t, "internship", "intern");
      }
      NoKeywordOccurs(t, TYPE_RULES[0].keywords);
      if Hits(t, TYPE_RULES, 0) {
      } else if exists g :: 0 <= g < |TYPE_RULES| && Hits(t, TYPE_RULES, g) {
        var g := Earliest(t, TYPE_RULES, |TYPE_RULES|);
        ClassifyTypeOrder(title, g);
      } else {
        ClassifyTypeOther(title);
      }
    }
  }

  /** The earliest group below `n` that hits the text. */
  lemma Earliest(t: string, rules: seq<Rule>, n: int) returns (g: int)
    requires 0 <= n <= |rules|
    requires exists h :: 0 <= h < n && Hits(t, rules, h)
    ensures 0 <= g < n && Hits(t, rules, g)
    ensures forall h :: 0 <= h < g ==> !Hits(t, rules, h)
    decreases n
  {
    if exists h :: 0 <= h < n - 1 && Hits(t, rules, h) {
      g := Earliest(t, rules, n - 1);
    } else {
      g := n - 1;
    }
  }

  /** "Global Hackathon 2025" is a HACKATHON. */
  lemma GlobalHackathonIsHackathon()
    ensures ClassifyType("Global Hackathon 2025") == "HACKATHON"
  {
    LowerGlobalHackathon();
    GlobalHackathonHits();
    ClassifyTypeOrder("Global Hackathon 2025", 1);
  }

  lemma LowerGlobalHackathon()
    ensures Lower("Global Hackathon 2025") == "global hackathon 2025"
  {
    var t := "global hackathon 2025";
    forall i | 0 <= i < |t| ensures Lower("Global Hackathon 2025")[i] == t[i] {
    }
  }

  /** The text hits the HACKATHON group and not the INTERNSHIP group. */
  lemma GlobalHackathonHits()
    ensures !Hits("global hackathon 2025", TYPE_RULES, 0)
    ensures Hits("global hackathon 2025", TYPE_RULES, 1)
  {
    var t := "global hackathon 2025";
    MissingChar(t, "internship", 0);
    MissingChar(t, "intern", 0);
    NoKeywordOccurs(t, TYPE_RULES[0].keywords);
    OccursContains(t, "hackathon", 7);
    KeywordOccurs(t, TYPE_RULES[1].keywords, 0);
  }

  /** "International Law Fellowship" is an INTERNSHIP, not a FELLOWSHIP:
      "international" starts with "intern" and that group is tried first. */
  lemma InternationalFellowshipIsInternship()
    ensures ClassifyType("International Law Fellowship") == "INTERNSHIP"
  {
    var t := "international law fellowship";
    assert Lower("International Law Fellowship")[..6] == t[..6] by {
      forall i | 0 <= i < 6 ensures Lower("International Law Fellowship")[i] == t[i] {
      }
    }
    OccursContains(Lower("International Law Fellowship"), "intern", 0);
    InternshipIffIntern("International Law Fellowship");
  }

  // ---------------------------------------------------------------- pages

  /** One event block a site's parser selected: the text of its title tag,
      the href of its first link and the text of its description tag, each
      None when the tag is missing. Texts are already stripped. */
  datatype EventBlock = EventBlock(title: Option<string>, href: Option<string>, description: Option<string>)

  /** One `<a href>`: its stripped text and its href. */
  datatype Anchor = Anchor(text: string, href: string)

  /** What the parser found on a fetched page: the event blocks of the
      site's event selector, and every link with an href. */
  datatype Page = Page(events: seq<EventBlock>, links: seq<Anchor>)

  /** `safe_get` followed by parsing: the page at a URL, None when the fetch failed. */
  type Web = string -> Option<Page>

  /** One scraped opportunity, the dict a site scraper returns. The keys read
      with `.get` and a default in `run_scraper` are optional here. */
  datatype Candidate = Candidate(
    title: string,
    university: string,
    description: Option<string>,
    sourceUrl: string,
    location: Option<string>,
    opportunityType: Option<string>)

  /** An href that does not start with "http" gets the site origin in front. */
  function Absolute(origin: string, href: string): (url: string)
  {
    if StartsWith(href, "http") then href else origin + href
  }

  /** With an http origin every emitted URL is absolute, and an absolute href is kept. */
  lemma AbsoluteStartsWithHttp(origin: string, href: string)
    requires StartsWith(origin, "http")
    ensures StartsWith(Absolute(origin, href), "http")
    ensures StartsWith(href, "http") ==> Absolute(origin, href) == href
    ensures !StartsWith(href, "http") ==> Absolute(origin, href) == origin + href
  {
    if !StartsWith(href, "http") {
      assert (origin + href)[..4] == origin[..4];
    }
  }

  /** The candidates an item function keeps, in order. */
  function Harvest<T>(xs: seq<T>, item: T -> Option<Candidate>): (r: seq<Candidate>)
    ensures |r| <= |xs|
  {
    if xs == [] then []
    else
      var init := Harvest(xs[..|xs| - 1], item);
      match item(xs[|xs| - 1])
        case None => init
        case Some(c) => init + [c]
  }

  /** One more element: its item, if any, follows. */
  lemma HarvestStep<T>(xs: seq<T>, i: nat, item: T -> Option<Candidate>)
    requires i < |xs|
    ensures Harvest(xs[..i + 1], item) ==
            Harvest(xs[..i], item) + (if item(xs[i]).Some? then [item(xs[i]).value] else [])
  {
    assert xs[..i + 1][..i] == xs[..i];
  }

  /** Every kept candidate is the item of a listed element. */
  lemma {:induction false} HarvestFrom<T>(xs: seq<T>, item: T -> Option<Candidate>)
    ensures forall c :: c in Harvest(xs, item) ==> exists x :: x in xs && item(x) == Some(c)
  {
    if xs != [] {
      HarvestFrom(xs[..|xs| - 1], item);
      assert forall x :: x in xs[..|xs| - 1] ==> x in xs;
    }
  }

  // ---------------------------------------------------------------- Harvard

  const HARVARD_URLS: seq<string> := ["https://www.harvard.edu/events/", "https://seas.harvard.edu/news-events/events"]
  const HARVARD_ORIGIN: string := "https://www.harvard.edu"

  /** One Harvard event: it needs a title of at least 5 characters and a
      link; the description falls back to the title when missing or empty. */
  function HarvardItem(e: EventBlock): (r: Option<Candidate>)
    ensures r.Some? <==> e.title.Some? && |e.title.value| >= 5 && e.href.Some?
    ensures r.Some? ==> r.value.title == e.title.value && r.value.university == "HARVARD"
    ensures r.Some? ==> r.value.sourceUrl == Absolute(HARVARD_ORIGIN, e.href.value)
    ensures r.Some? ==> r.value.description.Some? && r.value.description.value != ""
    ensures r.Some? ==> r.value.opportunityType == Some(ClassifyType(r.value.title))
  {
    if e.title.None? || |e.title.value| < 5 || e.href.None? then None
    else
      var title := e.title.value;
      var description := e.description.GetOr(title);
      Some(Candidate(title, "HARVARD", Some(if description == "" then title else description),
                     Absolute(HARVARD_ORIGIN, e.href.value), Some("Cambridge, MA / Remote"), Some(ClassifyType(title))))
  }

  /** The candidates of one Harvard page: the first 20 events only. */
  function HarvardPage(page: Option<Page>): (r: seq<Candidate>)
    ensures |r| <= 20
  {
    match page
      case None => []
      case Some(p) => Harvest(Prefix(p.events, 20), HarvardItem)
  }

  /** `scrape_harvard`: both pages in order; a page that failed adds nothing. */
  function HarvardSpec(web: Web): seq<Candidate>
  {
    HarvardPage(web(HARVARD_URLS[0])) + HarvardPage(web(HARVARD_URLS[1]))
  }

  /** Each candidate of a page comes from a listed event with a long enough
      title, an absolute http URL and a non-empty description. */
  lemma HarvardPageShape(page: Option<Page>)
    ensures forall c :: c in HarvardPage(page) ==>
              |c.title| >= 5 && StartsWith(c.sourceUrl, "http") && c.description.Some? && c.description.value != ""
  {
    if page.Some? {
      HarvestFrom(Prefix(page.value.events, 20), HarvardItem);
      forall c | c in HarvardPage(page)
        ensures |c.title| >= 5 && StartsWith(c.sourceUrl, "http") && c.description.Some? && c.description.value != ""
      {
        var e: EventBlock :| HarvardItem(e) == Some(c);
        assert HarvardItem(e).Some?;
        AbsoluteStartsWithHttp(HARVARD_ORIGIN, e.href.value);
      }
    }
  }

  /** At most 20 per page, each from a listed event with a long enough
      title, an absolute http URL and a non-empty description. */
  lemma HarvardShape(web: Web)
    ensures |HarvardSpec(web)| <= 40
    ensures forall c :: c in HarvardSpec(web) ==>
              |c.title| >= 5 && StartsWith(c.sourceUrl, "http") && c.description.Some? && c.description.value != ""
  {
    HarvardPageShape(web(HARVARD_URLS[0]));
    HarvardPageShape(web(HARVARD_URLS[1]));
  }

  /** The loop of `scrape_harvard` over the pages. */
  method ScrapeHarvard(web: Web) returns (opps: seq<Candidate>)
    ensures opps == HarvardSpec(web)
  {
    opps := [];
    for u := 0 to |HARVARD_URLS|
      invariant opps == if u == 0 then [] else if u == 1 then HarvardPage(web(HARVARD_URLS[0])) else HarvardSpec(web)
    {
      var page := ScrapeHarvardPage(web(HARVARD_URLS[u]));
      opps := opps + page;
    }
  }

  /** The inner loop of `scrape_harvard` over the first 20 events of a page. */
  method ScrapeHarvardPage(resp: Option<Page>) returns (found: seq<Candidate>)
    ensures found == HarvardPage(resp)
  {
    found := [];
    if resp.None? {
      return;
    }
    var events := Prefix(resp.value.events, 20);
    for i := 0 to |events|
      invariant found == Harvest(events[..i], HarvardItem)
    {
      HarvestStep(events, i, HarvardItem);
      var item := HarvardItem(events[i]);
      if item.Some? {
        found := found + [item.value];
      }
    }
    assert events[..|events|] == events;
  }

  // ---------------------------------------------------------------- MIT

  const MIT_URL: string := "https://events.mit.edu/"
  const MIT_ORIGIN: string := "https://events.mit.edu"

  /** MIT looks only at links to an event page. */
  predicate IsEventHref(href: string)
  {
    Contains(href, "/event/") || Contains(href, "/events/")
  }

  /** The state of `scrape_mit`'s loop after the given links: the hrefs
      marked seen and the links kept. An event href is marked seen before its
      title is checked. */
  function MitScan(links: seq<Anchor>): (st: (set<string>, seq<Anchor>))
  {
    if links == [] then ({}, [])
    else
      var prev := MitScan(links[..|links| - 1]);
      var a := links[|links| - 1];
      if !IsEventHref(a.href) || a.href in prev.0 then prev
      else if |a.text| < 5 || |a.text| > 300 then (prev.0 + {a.href}, prev.1)
      else (prev.0 + {a.href}, prev.1 + [a])
  }

  /** The kept links are event links with a title of 5 to 300 characters,
      each with an href marked seen and no two with the same href; every
      href marked seen is that of an event link. */
  lemma {:induction false} MitScanSpec(links: seq<Anchor>)
    ensures var st := MitScan(links);
            && (forall a :: a in st.1 ==> a in links && IsEventHref(a.href) && 5 <= |a.text| <= 300 && a.href in st.0)
            && (forall i, j :: 0 <= i < j < |st.1| ==> st.1[i].href != st.1[j].href)
            && (forall h :: h in st.0 ==> exists a :: a in links && a.href == h && IsEventHref(h))
  {
    if links != [] {
      MitScanSpec(links[..|links| - 1]);
      assert forall x :: x in links[..|links| - 1] ==> x in links;
    }
  }

  function MitItem(a: Anchor): Candidate
  {
    Candidate(a.text, "MIT", Some("MIT event: " + a.text), Absolute(MIT_ORIGIN, a.href),
              Some("Cambridge, MA / Remote"), Some(ClassifyType(a.text)))
  }

  function MitCandidates(kept: seq<Anchor>): (r: seq<Candidate>)
    ensures |r| == |kept|
    ensures forall i :: 0 <= i < |kept| ==> r[i] == MitItem(kept[i])
  {
    seq(|kept|, i requires 0 <= i < |kept| => MitItem(kept[i]))
  }

  /** `scrape_mit`: the kept links as candidates, at most the first 30. */
  function MitSpec(web: Web): seq<Candidate>
  {
    match web(MIT_URL)
      case None => []
      case Some(p) => Prefix(MitCandidates(MitScan(p.links).1), 30)
  }

  /** At most 30 candidates; they come from distinct event hrefs, and their
      titles are 5 to 300 characters long. */
  lemma MitShape(web: Web)
    ensures |MitSpec(web)| <= 30
    ensures web(MIT_URL).Some? ==>
              var kept := MitScan(web(MIT_URL).value.links).1;
              && (forall i :: 0 <= i < |MitSpec(web)| ==> MitSpec(web)[i] == MitItem(kept[i]))
              && (forall i, j :: 0 <= i < j < |MitSpec(web)| ==> kept[i].href != kept[j].href)
    ensures forall c :: c in MitSpec(web) ==> 5 <= |c.title| <= 300 && StartsWith(c.sourceUrl, "http")
  {
    if web(MIT_URL).Some? {
      MitScanSpec(web(MIT_URL).value.links);
      var kept := MitScan(web(MIT_URL).value.links).1;
      forall c | c in MitSpec(web) ensures 5 <= |c.title| <= 300 && StartsWith(c.sourceUrl, "http") {
        var i :| 0 <= i < |MitSpec(web)| && MitSpec(web)[i] == c;
        assert kept[i] in kept;
        AbsoluteStartsWithHttp(MIT_ORIGIN, kept[i].href);
      }
    }
  }

  /** The loop of `scrape_mit`. */
  method ScrapeMit(web: Web) returns (opps: seq<Candidate>)
    ensures opps == MitSpec(web)
  {
    var resp := web(MIT_URL);
    if resp.None? {
      return [];
    }
    var links := resp.value.links;
    var seen: set<string> := {};
    var all: seq<Candidate> := [];
    for i := 0 to |links|
      invariant seen == MitScan(links[..i]).0
      invariant all == MitCandidates(MitScan(links[..i]).1)
    {
      assert links[..i + 1][..i] == links[..i];
      var link := links[i];
      if !IsEventHref(link.href) {
        continue;
      }
      if link.href in seen {
        continue;
      }
      seen := seen + {link.href};
      if |link.text| < 5 || |link.text| > 300 {
        continue;
      }
      all := all + [MitItem(link)];
    }
    assert links[..|links|] == links;
    opps := Prefix(all, 30);
  }

  // ---------------------------------------------------------------- Stanford

  const STANFORD_URL: string := "https://events.stanford.edu/"
  const STANFORD_ORIGIN: string := "https://events.stanford.edu"

  /** One Stanford event: it needs a title of at least 5 characters; a
      missing link counts as "#", a missing description as the title. */
  function StanfordItem(e: EventBlock): (r: Option<Candidate>)
    ensures r.Some? <==> e.title.Some? && |e.title.value| >= 5
    ensures r.Some? ==> r.value.title == e.title.value && r.value.university == "STANFORD"
    ensures r.Some? ==> r.value.sourceUrl == Absolute(STANFORD_ORIGIN, e.href.GetOr("#"))
    ensures r.Some? ==> r.value.description == Some(e.description.GetOr(e.title.value))
  {
    if e.title.None? || |e.title.value| < 5 then None
    else
      var title := e.title.value;
      Some(Candidate(title, "STANFORD", Some(e.description.GetOr(title)), Absolute(STANFORD_ORIGIN, e.href.GetOr("#")),
                     Some("Stanford, CA / Remote"), Some(ClassifyType(title))))
  }

  /** `scrape_stanford`: the first 25 events. */
  function StanfordSpec(web: Web): (r: seq<Candidate>)
    ensures |r| <= 25
  {
    match web(STANFORD_URL)
      case None => []
      case Some(p) => Harvest(Prefix(p.events, 25), StanfordItem)
  }

  /** Events without a link all land on the same URL, the origin followed by "#". */
  lemma StanfordMissingLink(e: EventBlock)
    requires e.title.Some? && |e.title.value| >= 5 && e.href.None?
    ensures StanfordItem(e).value.sourceUrl == "https://events.stanford.edu#"
  {
  }

  /** The loop of `scrape_stanford`. */
  method ScrapeStanford(web: Web) returns (opps: seq<Candidate>)
    ensures opps == StanfordSpec(web)
  {
    var resp := web(STANFORD_URL);
    if resp.None? {
      return [];
    }
    var events := Prefix(resp.value.events, 25);
    opps := [];
    for i := 0 to |events|
      invariant opps == Harvest(events[..i], StanfordItem)
    {
      HarvestStep(events, i, StanfordItem);
      var item := StanfordItem(events[i]);
      if item.Some? {
        opps := opps + [item.value];
      }
    }
    assert events[..|events|] == events;
  }

  // ---------------------------------------------------------------- Yale

  const YALE_URL: string := "https://yale.edu/academics/resources"
  const YALE_ORIGIN: string := "https://yale.edu"
  const YALE_KEYWORDS: seq<string> := ["internship", "research", "fellowship", "scholarship", "workshop", "conference", "hackathon"]

  /** One Yale link: its text needs at least 10 characters and one of the
      seven keywords in lower case. */
  function YaleItem(a: Anchor): (r: Option<Candidate>)
    ensures r.Some? <==> |a.text| >= 10 && AnyKeyword(Lower(a.text), YALE_KEYWORDS)
    ensures r.Some? ==> r.value.title == a.text && r.value.sourceUrl == Absolute(YALE_ORIGIN, a.href)
  {
    if |a.text| < 10 then None
    else if !AnyKeyword(Lower(a.text), YALE_KEYWORDS) then None
    else Some(Candidate(a.text, "YALE", Some("Yale University opportunity: " + a.text), Absolute(YALE_ORIGIN, a.href),
                        Some("New Haven, CT / Remote"), Some(ClassifyType(a.text))))
  }

  /** `scrape_yale`: the first 50 links inspected, at most 20 kept. */
  function YaleSpec(web: Web): (r: seq<Candidate>)
  {
    match web(YALE_URL)
      case None => []
      case Some(p) => Prefix(Harvest(Prefix(p.links, 50), YaleItem), 20)
  }

  /** At most 20 candidates, each from one of the first 50 links, with a
      title of at least 10 characters containing a keyword. */
  lemma YaleShape(web: Web)
    ensures |YaleSpec(web)| <= 20
    ensures forall c :: c in YaleSpec(web) ==>
              web(YALE_URL).Some? && (exists a :: a in Prefix(web(YALE_URL).value.links, 50) && YaleItem(a) == Some(c))
    ensures forall c :: c in YaleSpec(web) ==>
              |c.title| >= 10 && (exists k :: k in YALE_KEYWORDS && Contains(Lower(c.title), k))
  {
    forall c | c in YaleSpec(web)
      ensures web(YALE_URL).Some? && (exists a :: a in Prefix(web(YALE_URL).value.links, 50) && YaleItem(a) == Some(c))
      ensures |c.title| >= 10 && (exists k :: k in YALE_KEYWORDS && Contains(Lower(c.title), k))
    {
      var all := Harvest(Prefix(web(YALE_URL).value.links, 50), YaleItem);
      assert c in all;
      HarvestFrom(Prefix(web(YALE_URL).value.links, 50), YaleItem);
      var a :| a in Prefix(web(YALE_URL).value.links, 50) && YaleItem(a) == Some(c);
      AnyKeywordSome(Lower(a.text), YALE_KEYWORDS);
    }
  }

  /** The loop of `scrape_yale`. */
  method ScrapeYale(web: Web) returns (opps: seq<Candidate>)
    ensures opps == YaleSpec(web)
  {
    var resp := web(YALE_URL);
    if resp.None? {
      return [];
    }
    var links := Prefix(resp.value.links, 50);
    var all: seq<Candidate> := [];
    for i := 0 to |links|
      invariant all == Harvest(links[..i], YaleItem)
    {
      HarvestStep(links, i, YaleItem);
      var item := YaleItem(links[i]);
      if item.Some? {
        all := all + [item.value];
      }
    }
    assert links[..|links|] == links;
    opps := Prefix(all, 20);
  }

  // ---------------------------------------------------------------- registry

  datatype Site = Harvard | Mit | Stanford | Yale

  /** `SCRAPERS`: university key to scraper. */
  const SCRAPERS: map<string, Site> := map["HARVARD" := Harvard, "MIT" := Mit, "STANFORD" := Stanford, "YALE" := Yale]

  /** Every registered key is a university code, and the other six universities have no scraper. */
  lemma RegistryKeys()
    ensures forall k :: k in SCRAPERS ==> k in UNIVERSITIES
    ensures SCRAPERS.Keys == {"HARVARD", "MIT", "STANFORD", "YALE"}
  {
  }

  /** What the registered scraper returns. */
  function SiteSpec(site: Site, web: Web): seq<Candidate>
  {
    match site
      case Harvard => HarvardSpec(web)
      case Mit => MitSpec(web)
      case Stanford => StanfordSpec(web)
      case Yale => YaleSpec(web)
  }

  method RunSite(site: Site, web: Web) returns (opps: seq<Candidate>)
    ensures opps == SiteSpec(site, web)
  {
    match site {
      case Harvard => opps := ScrapeHarvard(web);
      case Mit => opps := ScrapeMit(web);
      case Stanford => opps := ScrapeStanford(web);
      case Yale => opps := ScrapeYale(web);
    }
  }

  // ---------------------------------------------------------------- run_scraper

  /** The source URLs of a candidate list. */
  function CandidateUrls(cands: seq<Candidate>): (urls: set<string>)
  {
    set i | 0 <= i < |cands| :: cands[i].sourceUrl
  }

  /** The candidates `run_scraper` inserts, in order, into a store holding the
      URLs `known`: each one whose URL is neither stored nor carried by an
      earlier candidate. */
  function Fresh(known: set<string>, cands: seq<Candidate>): (r: seq<Candidate>)
    ensures |r| <= |cands|
  {
    if cands == [] then []
    else
      var init := cands[..|cands| - 1];
      var c := cands[|cands| - 1];
      if c.sourceUrl in known + CandidateUrls(init) then Fresh(known, init)
      else Fresh(known, init) + [c]
  }

  /** Every inserted candidate is one of the scraped ones, with a URL not stored. */
  lemma {:induction false} FreshFrom(known: set<string>, cands: seq<Candidate>)
    ensures forall c :: c in Fresh(known, cands) ==> c in cands && c.sourceUrl !in known
  {
    if cands != [] {
      FreshFrom(known, cands[..|cands| - 1]);
      assert forall x :: x in cands[..|cands| - 1] ==> x in cands;
    }
  }

  lemma CandidateUrlsSnoc(cs: seq<Candidate>, c: Candidate)
    ensures CandidateUrls(cs + [c]) == CandidateUrls(cs) + {c.sourceUrl}
  {
    var both := cs + [c];
    forall u | u in CandidateUrls(both) ensures u in CandidateUrls(cs) + {c.sourceUrl} {
      var i :| 0 <= i < |both| && both[i].sourceUrl == u;
      if i < |cs| {
        assert both[i] == cs[i];
      }
    }
    forall u | u in CandidateUrls(cs) ensures u in CandidateUrls(both) {
      var i :| 0 <= i < |cs| && cs[i].sourceUrl == u;
      assert both[i] == cs[i];
    }
    assert both[|cs|] == c;
  }

  /** `Fresh` on one more candidate. */
  lemma FreshSnoc(known: set<string>, init: seq<Candidate>, c: Candidate)
    ensures Fresh(known, init + [c]) ==
            if c.sourceUrl in known + CandidateUrls(init) then Fresh(known, init) else Fresh(known, init) + [c]
  {
    var s := init + [c];
    assert s[..|s| - 1] == init;
  }

  /** After the inserts the store holds every candidate URL. */
  lemma {:induction false} FreshCovers(known: set<string>, cands: seq<Candidate>)
    ensures known + CandidateUrls(Fresh(known, cands)) == known + CandidateUrls(cands)
  {
    if cands != [] {
      var init := cands[..|cands| - 1];
      var c := cands[|cands| - 1];
      FreshCovers(known, init);
      assert cands == init + [c];
      CandidateUrlsSnoc(init, c);
      var f := Fresh(known, init);
      CandidateUrlsSnoc(f, c);
    }
  }

  /** The inserted URLs are new to the store and pairwise distinct. */
  lemma {:induction false} FreshDistinct(known: set<string>, cands: seq<Candidate>)
    ensures forall i, j :: 0 <= i < j < |Fresh(known, cands)| ==> Fresh(known, cands)[i].sourceUrl != Fresh(known, cands)[j].sourceUrl
  {
    if cands != [] {
      var init := cands[..|cands| - 1];
      FreshDistinct(known, init);
      FreshCovers(known, init);
      var f := Fresh(known, init);
      var c := cands[|cands| - 1];
      if c.sourceUrl !in known + CandidateUrls(init) {
        assert forall i :: 0 <= i < |f| ==> f[i].sourceUrl in CandidateUrls(f);
      }
    }
  }

  /** When every candidate URL is stored already nothing is inserted: running
      the same scraper again on an unchanged page adds nothing. */
  lemma {:induction false} FreshOfKnown(known: set<string>, cands: seq<Candidate>)
    requires CandidateUrls(cands) <= known
    ensures Fresh(known, cands) == []
  {
    if cands != [] {
      var init := cands[..|cands| - 1];
      assert CandidateUrls(init) <= CandidateUrls(cands);
      FreshOfKnown(known, init);
    }
  }

  lemma RerunAddsNothing(known: set<string>, cands: seq<Candidate>)
    ensures Fresh(known + CandidateUrls(Fresh(known, cands)), cands) == []
  {
    FreshCovers(known, cands);
    FreshOfKnown(known + CandidateUrls(cands), cands);
  }

  /** The text `run_scraper` gives the domain classifier. */
  function DomainText(c: Candidate): string
  {
    c.description.GetOr("") + " " + c.title
  }

  /** The row `run_scraper` creates for a candidate: the title cut to 300
      characters, active, the type defaulting to OTHER, the description to
      the empty string and the location to 'Remote'. */
  ghost predicate Inserted(row: Opportunity, c: Candidate, lib: Library)
  {
    && row.title == Prefix(c.title, TITLE_MAX_LENGTH)
    && row.university == c.university
    && PossibleDomain(lib, DomainText(c), row.domain)
    && row.opportunityType == c.opportunityType.GetOr("OTHER")
    && row.description == c.description.GetOr("")
    && row.sourceUrl == c.sourceUrl
    && row.location == c.location.GetOr("Remote")
    && row.isActive
    && row.tags == "" && row.stipend == ""
  }

  /** `rows` extend `before` by one inserted row per candidate of `ins`. */
  ghost predicate InsertedAll(rows: seq<Opportunity>, before: seq<Opportunity>, ins: seq<Candidate>, lib: Library)
  {
    && |rows| == |before| + |ins|
    && rows[..|before|] == before
    && forall k :: 0 <= k < |ins| ==> Inserted(rows[|before| + k], ins[k], lib)
  }

  /** An exception `run_scraper` catches, other than an unknown key: the
      scraper raising, or a store operation raising while the candidate at
      `at` is handled (nothing of that candidate is stored). */
  datatype Fault = NoFault | ScraperRaises(message: string) | StoreRaises(at: nat, message: string)

  /** The `stats` dict; `added` is its 'new' entry. */
  datatype Stats = Stats(found: nat, added: nat, errors: nat)

  /** One iteration of the insert loop: a candidate whose URL is stored is
      skipped; otherwise it is classified and stored. */
  method StoreCandidate(c: Candidate, store: OpportunityTable, clf: DomainClassifier, lib: Library) returns (added: bool)
    requires store.Valid()
    modifies store, clf
    ensures store.Valid()
    ensures added <==> c.sourceUrl !in UrlsOf(old(store.rows))
    ensures UrlsOf(store.rows) == UrlsOf(old(store.rows)) + {c.sourceUrl}
    ensures !added ==> store.rows == old(store.rows)
    ensures added ==> |store.rows| == |old(store.rows)| + 1 && store.rows[..|old(store.rows)|] == old(store.rows)
                      && Inserted(store.rows[|old(store.rows)|], c, lib)
                      && store.rows[|old(store.rows)|].domain == Classified(clf.vectorizer, clf.classifier, lib, DomainText(c))
    ensures old(clf.Cached()) ==> unchanged(clf)
  {
    if store.HasUrl(c.sourceUrl) {
      return false;
    }
    var domain := clf.ClassifyDomain(DomainText(c), lib);
    var row := Opportunity(0, Prefix(c.title, TITLE_MAX_LENGTH), c.university, domain,
                           c.opportunityType.GetOr("OTHER"), c.description.GetOr(""), c.sourceUrl, true,
                           "", "", c.location.GetOr("Remote"));
    ghost var before := store.rows;
    var id := store.Create(row);
    assert store.rows == before + [row.(id := id)];
    assert store.rows[..|before|] == before;
    assert UrlsOf(store.rows) == UrlsOf(before) + {c.sourceUrl} by {
      forall u | u in UrlsOf(store.rows) ensures u in UrlsOf(before) + {c.sourceUrl} {
        var i :| 0 <= i < |store.rows| && store.rows[i].sourceUrl == u;
        if i < |before| {
          assert store.rows[i] == before[i];
        }
      }
      forall u | u in UrlsOf(before) ensures u in UrlsOf(store.rows) {
        var i :| 0 <= i < |before| && before[i].sourceUrl == u;
        assert store.rows[i] == before[i];
      }
      assert store.rows[|before|].sourceUrl == c.sourceUrl;
    }
    added := true;
  }

  /** One more inserted row extends `InsertedAll` by its candidate. */
  lemma InsertedAllExtend(rows0: seq<Opportunity>, rows1: seq<Opportunity>, before: seq<Opportunity>,
                          ins: seq<Candidate>, c: Candidate, lib: Library)
    requires InsertedAll(rows0, before, ins, lib)
    requires |rows1| == |rows0| + 1 && rows1[..|rows0|] == rows0 && Inserted(rows1[|rows0|], c, lib)
    ensures InsertedAll(rows1, before, ins + [c], lib)
  {
    assert rows1[..|before|] == rows0[..|before|];
    forall k | 0 <= k < |ins| + 1 ensures Inserted(rows1[|before| + k], (ins + [c])[k], lib) {
      if k < |ins| {
        assert rows1[|before| + k] == rows0[|before| + k];
      }
    }
  }

  /** The inserted rows after `before` carry the labels the classifier gives
      their candidates with the cache (`vec`, `cl`). */
  ghost predicate ClassifiedAll(rows: seq<Opportunity>, before: seq<Opportunity>, ins: seq<Candidate>, lib: Library,
                                vec: Option<Blob>, cl: Option<Blob>)
  {
    && |rows| == |before| + |ins|
    && forall j :: |before| <= j < |rows| ==> rows[j].domain == Classified(vec, cl, lib, DomainText(ins[j - |before|]))
  }

  /** One more row classified with the same cache extends `ClassifiedAll`. */
  lemma ClassifiedAllStep(rows0: seq<Opportunity>, rows1: seq<Opportunity>, before: seq<Opportunity>,
                          cands: seq<Candidate>, i: nat, lib: Library, vec: Option<Blob>, cl: Option<Blob>, isNew: bool)
    requires i < |cands|
    requires ClassifiedAll(rows0, before, Fresh(UrlsOf(before), cands[..i]), lib, vec, cl)
    requires isNew <==> cands[i].sourceUrl !in UrlsOf(before) + CandidateUrls(cands[..i])
    requires !isNew ==> rows1 == rows0
    requires isNew ==> |rows1| == |rows0| + 1 && rows1[..|rows0|] == rows0 &&
                       rows1[|rows0|].domain == Classified(vec, cl, lib, DomainText(cands[i]))
    ensures ClassifiedAll(rows1, before, Fresh(UrlsOf(before), cands[..i + 1]), lib, vec, cl)
  {
    assert cands[..i + 1] == cands[..i] + [cands[i]];
    var ins0 := Fresh(UrlsOf(before), cands[..i]);
    var ins1 := Fresh(UrlsOf(before), cands[..i + 1]);
    FreshSnoc(UrlsOf(before), cands[..i], cands[i]);
    if isNew {
      assert ins1 == ins0 + [cands[i]];
      forall j | |before| <= j < |rows1|
        ensures rows1[j].domain == Classified(vec, cl, lib, DomainText(ins1[j - |before|]))
      {
        if j < |rows0| {
          assert rows1[j] == rows1[..|rows0|][j];
          assert ins1[j - |before|] == ins0[j - |before|];
        } else {
          assert ins1[j - |before|] == cands[i];
        }
      }
    } else {
      assert ins1 == ins0;
    }
  }

  /** What the insert loop has done after handling `handled`: the store
      holds the URLs it held plus every handled URL, and one inserted row per
      fresh candidate follows the rows it held. */
  ghost predicate Progress(rows: seq<Opportunity>, before: seq<Opportunity>, handled: seq<Candidate>, lib: Library)
  {
    && UrlsOf(rows) == UrlsOf(before) + CandidateUrls(handled)
    && InsertedAll(rows, before, Fresh(UrlsOf(before), handled), lib)
  }

  /** One step of the insert loop keeps `Progress`. */
  lemma ProgressStep(rows0: seq<Opportunity>, rows1: seq<Opportunity>, before: seq<Opportunity>,
                     handled: seq<Candidate>, c: Candidate, lib: Library, isNew: bool)
    requires Progress(rows0, before, handled, lib)
    requires isNew <==> c.sourceUrl !in UrlsOf(rows0)
    requires UrlsOf(rows1) == UrlsOf(rows0) + {c.sourceUrl}
    requires !isNew ==> rows1 == rows0
    requires isNew ==> |rows1| == |rows0| + 1 && rows1[..|rows0|] == rows0 && Inserted(rows1[|rows0|], c, lib)
    ensures Progress(rows1, before, handled + [c], lib)
    ensures |Fresh(UrlsOf(before), handled + [c])| == |Fresh(UrlsOf(before), handled)| + (if isNew then 1 else 0)
  {
    var known := UrlsOf(before);
    FreshSnoc(known, handled, c);
    CandidateUrlsSnoc(handled, c);
    if isNew {
      InsertedAllExtend(rows0, rows1, before, Fresh(known, handled), c, lib);
    }
  }

  /** Before the loop nothing is handled. */
  lemma ProgressStart(before: seq<Opportunity>, cands: seq<Candidate>, lib: Library)
    ensures Progress(before, before, cands[..0], lib)
    ensures |Fresh(UrlsOf(before), cands[..0])| == 0
  {
    assert cands[..0] == [];
    assert before[..|before|] == before;
  }

  /** `ProgressStep` for the candidate at position `i`. */
  lemma ProgressStepAt(rows0: seq<Opportunity>, rows1: seq<Opportunity>, before: seq<Opportunity>,
                       cands: seq<Candidate>, i: nat, lib: Library, isNew: bool)
    requires i < |cands|
    requires Progress(rows0, before, cands[..i], lib)
    requires isNew <==> cands[i].sourceUrl !in UrlsOf(rows0)
    requires UrlsOf(rows1) == UrlsOf(rows0) + {cands[i].sourceUrl}
    requires !isNew ==> rows1 == rows0
    requires isNew ==> |rows1| == |rows0| + 1 && rows1[..|rows0|] == rows0 && Inserted(rows1[|rows0|], cands[i], lib)
    ensures Progress(rows1, before, cands[..i + 1], lib)
    ensures |Fresh(UrlsOf(before), cands[..i + 1])| == |Fresh(UrlsOf(before), cands[..i])| + (if isNew then 1 else 0)
  {
    assert cands[..i + 1] == cands[..i] + [cands[i]];
    ProgressStep(rows0, rows1, before, cands[..i], cands[i], lib, isNew);
  }

  /** The insert loop of `run_scraper` over the first `stop` candidates (all
      of them when `stop` is past the end). */
  method StoreCandidates(cands: seq<Candidate>, stop: nat, store: OpportunityTable, clf: DomainClassifier, lib: Library)
    returns (added: nat)
    requires store.Valid()
    modifies store, clf
    ensures store.Valid()
    ensures var handled := if stop < |cands| then cands[..stop] else cands;
            && added == |Fresh(UrlsOf(old(store.rows)), handled)|
            && Progress(store.rows, old(store.rows), handled, lib)
            && (old(clf.Cached()) ==>
                  unchanged(clf) &&
                  ClassifiedAll(store.rows, old(store.rows), Fresh(UrlsOf(old(store.rows)), handled), lib, clf.vectorizer, clf.classifier))
  {
    ghost var before := store.rows;
    var n := if stop < |cands| then stop else |cands|;
    added := 0;
    ProgressStart(before, cands, lib);
    for i := 0 to n
      invariant store.Valid()
      invariant Progress(store.rows, before, cands[..i], lib)
      invariant added == |Fresh(UrlsOf(before), cands[..i])|
      invariant old(clf.Cached()) ==>
                  unchanged(clf) && ClassifiedAll(store.rows, before, Fresh(UrlsOf(before), cands[..i]), lib, clf.vectorizer, clf.classifier)
    {
      ghost var rowsBefore := store.rows;
      var isNew := StoreCandidate(cands[i], store, clf, lib);
      ProgressStepAt(rowsBefore, store.rows, before, cands, i, lib, isNew);
      if old(clf.Cached()) {
        ClassifiedAllStep(rowsBefore, store.rows, before, cands, i, lib, clf.vectorizer, clf.classifier, isNew);
      }
      if isNew {
        added := added + 1;
      }
    }
    assert cands[..n] == (if stop < |cands| then cands[..stop] else cands);
  }

  /** The outcome of the try block once the scraper ran: the candidates are
      counted; a store operation raising at candidate `at` stops the loop
      there and counts one error; the candidates handled before that are
      stored as `Progress` says. */
  ghost predicate Ingested(cands: seq<Candidate>, fault: Fault, lib: Library, before: seq<Opportunity>, rows: seq<Opportunity>,
                           stats: Stats, failed: bool)
  {
    && (failed <==> fault.StoreRaises? && fault.at < |cands|)
    && var handled := if failed then cands[..fault.at] else cands;
       && stats == Stats(|cands|, |Fresh(UrlsOf(before), handled)|, if failed then 1 else 0)
       && Progress(rows, before, handled, lib)
  }

  /** The try block of `run_scraper`, without the log: the error it raises,
      if any, and the counts. An unknown key and a raising scraper store
      nothing; otherwise the outcome is `Ingested`. */
  method TryScrape(key: string, web: Web, store: OpportunityTable, clf: DomainClassifier, lib: Library, fault: Fault)
    returns (stats: Stats, error: Option<string>)
    requires store.Valid()
    modifies store, clf
    ensures store.Valid()
    ensures error.None? <==> stats.errors == 0
    ensures stats.errors <= 1 && stats.added <= stats.found
    ensures key !in SCRAPERS ==>
              error == Some("No scraper for university: " + key) && stats == Stats(0, 0, 1) && store.rows == old(store.rows)
    ensures key in SCRAPERS && fault.ScraperRaises? ==>
              error == Some(fault.message) && stats == Stats(0, 0, 1) && store.rows == old(store.rows)
    ensures key in SCRAPERS && !fault.ScraperRaises? ==>
              && Ingested(SiteSpec(SCRAPERS[key], web), fault, lib, old(store.rows), store.rows, stats, error.Some?)
              && (error.Some? ==> error.value == fault.message)
    ensures key in SCRAPERS && !fault.ScraperRaises? && old(clf.Cached()) ==>
              var cands := SiteSpec(SCRAPERS[key], web);
              var handled := if error.Some? then cands[..fault.at] else cands;
              && unchanged(clf)
              && ClassifiedAll(store.rows, old(store.rows), Fresh(UrlsOf(old(store.rows)), handled), lib, clf.vectorizer, clf.classifier)
  {
    if key !in SCRAPERS {
      return Stats(0, 0, 1), Some("No scraper for university: " + key);
    }
    if fault.ScraperRaises? {
      return Stats(0, 0, 1), Some(fault.message);
    }
    var cands := RunSite(SCRAPERS[key], web);
    var failed := fault.StoreRaises? && fault.at < |cands|;
    var added := StoreCandidates(cands, if failed then fault.at else |cands|, store, clf, lib);
    stats := Stats(|cands|, added, if failed then 1 else 0);
    error := if failed then Some(fault.message) else None;
  }

  /** `run_scraper`: opens a RUNNING log; runs the registered scraper; stores
      each candidate whose URL is not stored yet, with the domain the
      classifier gives its description and title; on success copies the
      counts into the log and marks it SUCCESS; on any exception counts one
      error and marks the log FAILED with the message; always sets the
      finish time. The start and finish times are two readings of the
      clock, the second no earlier than the first. Rows inserted before an
      exception stay. */
  method RunScraper(key: string, web: Web, store: OpportunityTable, clf: DomainClassifier, lib: Library,
                    fault: Fault, started: nat, finished: nat) returns (stats: Stats, log: ScrapingLog)
    requires store.Valid()
    requires started <= finished
    modifies store, clf
    ensures fresh(log) && store.Valid()
    ensures log.university == key && log.startedAt == started && log.finishedAt == Some(finished)
    ensures log.startedAt <= log.finishedAt.value
    ensures log.status != RUNNING
    ensures log.status == SUCCESS <==> stats.errors == 0
    ensures stats.errors <= 1 && stats.added <= stats.found
    ensures log.status == SUCCESS ==>
              log.opportunitiesFound == stats.found && log.newOpportunities == stats.added && log.errorMessage == ""
    ensures log.status == FAILED ==> log.opportunitiesFound == 0 && log.newOpportunities == 0
    ensures key !in SCRAPERS ==>
              && log.status == FAILED && stats == Stats(0, 0, 1)
              && log.errorMessage == "No scraper for university: " + key
              && store.rows == old(store.rows)
    ensures key in SCRAPERS && fault.ScraperRaises? ==>
              log.status == FAILED && log.errorMessage == fault.message && stats == Stats(0, 0, 1) && store.rows == old(store.rows)
    ensures key in SCRAPERS && !fault.ScraperRaises? ==>
              && Ingested(SiteSpec(SCRAPERS[key], web), fault, lib, old(store.rows), store.rows, stats, log.status == FAILED)
              && (log.status == FAILED ==> log.errorMessage == fault.message)
  {
    log := new ScrapingLog(key, started);
    var error;
    stats, error := TryScrape(key, web, store, clf, lib, fault);
    if error.None? {
      log.opportunitiesFound := stats.found;
      log.newOpportunities := stats.added;
      log.status := SUCCESS;
    } else {
      log.status := FAILED;
      log.errorMessage := error.value;
    }
    log.finishedAt := Some(finished);
  }
}
