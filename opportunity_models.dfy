/** The opportunity records (ivy_intelligence/apps/opportunities/models.py):
    the choice tables, the Opportunity row with its defaults and its tag list,
    the Opportunity table with its unique source URL, and the scraping log. */
module OpportunityModels {
  import opened Text
  import opened Wrappers

  /** DOMAIN_CHOICES codes and display names, in declaration order. */
  const DOMAIN_CODES: seq<string> := ["AI", "LAW", "BIO", "ECE", "CS", "BUSINESS", "ENV", "OTHER"]
  const DOMAIN_NAMES: seq<string> := [
    "Artificial Intelligence", "Law", "Biomedical", "Electronics & Communication",
    "Computer Science", "Business & Management", "Environmental Science", "Other"]

  /** OPPORTUNITY_TYPES codes. */
  const OPPORTUNITY_TYPES: seq<string> := [
    "INTERNSHIP", "HACKATHON", "WORKSHOP", "CONFERENCE", "SCHOLARSHIP", "FELLOWSHIP", "COMPETITION", "OTHER"]

  /** IVY_UNIVERSITIES codes. */
  const UNIVERSITIES: seq<string> := [
    "HARVARD", "MIT", "YALE", "PRINCETON", "COLUMBIA", "CORNELL", "STANFORD", "PENN", "DARTMOUTH", "BROWN"]

  /** `max_length` of the title column. */
  const TITLE_MAX_LENGTH: nat := 300

  datatype Opportunity = Opportunity(
    id: nat,
    title: string,
    university: string,
    domain: string,
    opportunityType: string,
    description: string,
    sourceUrl: string,
    isActive: bool,
    tags: string,
    stipend: string,
    location: string)

  /** A row created with only the required fields given takes the declared
      defaults: domain and type OTHER, active, no tags or stipend, and the
      default location. */
  function NewOpportunity(id: nat, title: string, university: string, description: string, sourceUrl: string): (o: Opportunity)
    ensures o.domain == "OTHER" && o.opportunityType == "OTHER" && o.isActive
    ensures o.tags == "" && o.stipend == "" && o.location == "Remote / On-campus"
    ensures o.id == id && o.title == title && o.university == university
    ensures o.description == description && o.sourceUrl == sourceUrl
  {
    Opportunity(id, title, university, "OTHER", "OTHER", description, sourceUrl, true, "", "", "Remote / On-campus")
  }

  /** `Opportunity.get_tags_list`: the comma-separated tags, stripped, empties dropped. */
  function GetTagsList(o: Opportunity): (tags: seq<string>)
    ensures |tags| <= Count(o.tags, ',') + 1
    ensures forall t :: t in tags ==> t != [] && Stripped(t) && ',' !in t
  {
    CommaList(o.tags)
  }

  /** A tag string of commas and whitespace only has no tags. */
  lemma BlankTagsAreNoTags(o: Opportunity)
    requires forall c :: c in o.tags ==> IsSpace(c) || c == ','
    ensures GetTagsList(o) == []
  {
    CommaListOfBlanks(o.tags);
  }

  /** The source URLs stored in `rows`. */
  function UrlsOf(rows: seq<Opportunity>): (urls: set<string>)
  {
    set i | 0 <= i < |rows| :: rows[i].sourceUrl
  }

  /** The column constraints of the table: `source_url` unique, titles within
      their maximum length, primary keys distinct and below the next key. */
  predicate TableInvariant(rows: seq<Opportunity>, nextId: nat)
  {
    && (forall i, j :: 0 <= i < j < |rows| ==> rows[i].sourceUrl != rows[j].sourceUrl)
    && (forall i :: 0 <= i < |rows| ==> |rows[i].title| <= TITLE_MAX_LENGTH)
    && (forall i :: 0 <= i < |rows| ==> rows[i].id < nextId)
    && (forall i, j :: 0 <= i < j < |rows| ==> rows[i].id != rows[j].id)
  }

  /** The Opportunity table, in insertion order. */
  class OpportunityTable {
    var rows: seq<Opportunity>
    var nextId: nat

    ghost predicate Valid()
      reads this
    {
      TableInvariant(rows, nextId)
    }

    constructor ()
      ensures Valid() && rows == [] && nextId == 1
    {
      rows := [];
      nextId := 1;
    }

    /** `Opportunity.objects.filter(source_url=url).exists()` */
    function HasUrl(url: string): (b: bool)
      reads this
      ensures b <==> url in UrlsOf(rows)
    {
      exists i :: 0 <= i < |rows| && rows[i].sourceUrl == url
    }

    /** `Opportunity.objects.create(...)`: the row gets the next primary key.
        The source URL must be unseen, as the unique constraint demands;
        callers check with `HasUrl` first. */
    method Create(o: Opportunity) returns (id: nat)
      requires Valid()
      requires |o.title| <= TITLE_MAX_LENGTH
      requires o.sourceUrl !in UrlsOf(rows)
      modifies this
      ensures Valid()
      ensures id == old(nextId) && rows == old(rows) + [o.(id := id)] && nextId == old(nextId) + 1
    {
      id := nextId;
      rows := rows + [o.(id := id)];
      nextId := nextId + 1;
    }
  }

  datatype ScrapeStatus = RUNNING | SUCCESS | FAILED

  /** One ScrapingLog row. Status is a three-valued type, so it is always
      one of RUNNING, SUCCESS and FAILED. */
  class ScrapingLog {
    var university: string
    var startedAt: nat
    var finishedAt: Option<nat>
    var opportunitiesFound: int
    var newOpportunities: int
    var status: ScrapeStatus
    var errorMessage: string

    /** `ScrapingLog.objects.create(university=..., status='RUNNING')` at time `now`:
        both counts 0, no finish time, no error. */
    constructor (university: string, now: nat)
      ensures this.university == university && startedAt == now
      ensures status == RUNNING && finishedAt == None
      ensures opportunitiesFound == 0 && newOpportunities == 0 && errorMessage == ""
    {
      this.university := university;
      startedAt := now;
      finishedAt := None;
      opportunitiesFound := 0;
      newOpportunities := 0;
      status := RUNNING;
      errorMessage := "";
    }
  }
}
