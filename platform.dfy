/** The records the Frappe site stores and the site itself (database tables,
    cache, the feed file). A document is a value: loading it makes a copy and
    saving it writes the copy back into the table. */
module Platform {
  import opened Common
  import opened Xml

  /** A moment with the renderings the source takes of it: strftime('%Y-%m-%d'),
      strftime('%a, %d %b %Y %H:%M:%S GMT') and str(). `instant` orders moments. */
  datatype DateTime = DateTime(instant: int, ymd: string, rfc: string, text: string)

  /** A Job Opening. Text fields hold "" when unset. `employmentType` and
      `currency` are None when the document lacks the key, which is when
      `doc.get(key, default)` falls back to its default. Amounts are whole
      currency units; 0 is unset. */
  datatype JobOpening = JobOpening(
    name: string,
    jobTitle: string,
    description: string,
    city: string,
    state: string,
    country: string,
    company: string,
    employmentType: Option<string>,
    experience: string,
    lowerRange: int,
    upperRange: int,
    currency: Option<string>,
    creation: Option<DateTime>,
    department: string,
    designation: string,
    status: string,
    customPostToIndeed: bool,
    customIndeedJobId: string,
    customAbTestCampaign: string,
    customAbTestVariant: string)

  /** The Indeed Integration Settings singleton. */
  datatype Settings = Settings(
    enableAutoPosting: bool,
    integrationMethod: string,
    apiKey: string,
    accessToken: string,
    webhookSecret: string,
    company: string,
    companyUrl: string,
    contactEmail: string,
    webhookUrl: string)

  /** An Indeed Job Integration record: one job's posting on Indeed. */
  datatype Integration = Integration(
    name: string,
    jobOpening: string,
    integrationMethod: string,
    status: string,
    indeedJobId: string,
    jobUrl: string,
    errorMessage: string,
    postedDate: Option<DateTime>,
    lastSyncDate: Option<DateTime>,
    xmlFeedIncluded: bool,
    location: string,
    salaryRange: string,
    applicationUrl: string)

  /** A Job Applicant. */
  datatype Applicant = Applicant(
    name: string,
    applicantName: string,
    emailId: string,
    phoneNumber: string,
    jobTitle: string,
    source: string,
    status: string,
    notes: string,
    indeedApplicationId: string,
    resumeAttachment: string,
    coverLetter: string)

  /** A cached value and the instant at which the cache drops it. */
  datatype CacheEntry = CacheEntry(value: Settings, expiresAt: int)

  /** The public feed file: absent, present but not parseable, or a parsed tree. */
  datatype FeedFile = Missing | Unparsable(reason: string) | Tree(root: Element)

  const Draft := "Draft"
  const Posted := "Posted"
  const Active := "Active"
  const ErrorStatus := "Error"
  const Removed := "Removed"

  const SettingsCacheKey := "indeed_integration_settings"

  /** The message of the exception raised when a document does not exist. */
  function NotFound(doctype: string, name: string): (m: string)
    ensures |m| > |doctype|
  {
    doctype + " " + name + " not found"
  }

  /** str() of the one-key filter dict get_doc was given, as its not-found
      message names it: {'field': 'value'}. */
  function FilterText(field: string, value: string): (r: string)
    ensures |r| > |field| + 4 && r[..2] == "{'" && r[2..|field| + 2] == field && r[|r| - 1] == '}'
  {
    "{'" + field + "': " + PyRepr(value) + "}"
  }

  /** Index of the first integration record for the job opening `job`. */
  function FindByJob(recs: seq<Integration>, job: string): (r: Option<nat>)
    ensures r.Some? ==> r.value < |recs| && recs[r.value].jobOpening == job
    ensures r.Some? ==> forall j :: 0 <= j < r.value ==> recs[j].jobOpening != job
    ensures r.None? <==> forall j :: 0 <= j < |recs| ==> recs[j].jobOpening != job
  {
    if recs == [] then None
    else if recs[0].jobOpening == job then Some(0)
    else
      match FindByJob(recs[1..], job)
      case None => None
      case Some(k) => Some(k + 1)
  }

  /** Index of the first integration record whose Indeed job id is `id`. */
  function FindByIndeedId(recs: seq<Integration>, id: string): (r: Option<nat>)
    ensures r.Some? ==> r.value < |recs| && recs[r.value].indeedJobId == id
    ensures r.None? <==> forall j :: 0 <= j < |recs| ==> recs[j].indeedJobId != id
  {
    if recs == [] then None
    else if recs[0].indeedJobId == id then Some(0)
    else
      match FindByIndeedId(recs[1..], id)
      case None => None
      case Some(k) => Some(k + 1)
  }

  /** No integration record is named `name` (the platform's autoname is fresh). */
  predicate FreshName(recs: seq<Integration>, name: string) {
    forall j :: 0 <= j < |recs| ==> recs[j].name != name
  }

  /** Record names are unique and each job opening has at most one record. */
  predicate WellFormed(recs: seq<Integration>) {
    forall i, j :: 0 <= i < j < |recs| ==>
      recs[i].name != recs[j].name && recs[i].jobOpening != recs[j].jobOpening
  }

  /** Replacing a record by one with the same name and Job Opening keeps the
      table well formed. */
  lemma WellFormedReplace(recs: seq<Integration>, k: nat, rec: Integration)
    requires WellFormed(recs) && k < |recs|
    requires rec.name == recs[k].name && rec.jobOpening == recs[k].jobOpening
    ensures WellFormed(recs[k := rec])
  {
  }

  /** The Frappe site: its tables, cache and the public feed file. */
  class Site {
    const siteUrl: string
    var jobOpenings: map<string, JobOpening>
    var integrations: seq<Integration>
    var applicants: seq<Applicant>
    var settingsDoc: Settings
    var cache: map<string, CacheEntry>
    var feedFile: FeedFile
    var currencySymbols: map<string, string>
    /** The e-mail of every user holding the HR Manager or HR User role ("" when unset). */
    var hrEmails: seq<string>

    /** Record names are unique, one record per Job Opening, and the Job
        Opening table is keyed by document name, which is never empty. The
        posting guard keeps one record per Job Opening; a record inserted by
        other means can break it, and such a site is outside this predicate. */
    ghost predicate Valid()
      reads this
    {
      && WellFormed(integrations)
      && (forall n :: n in jobOpenings ==> jobOpenings[n].name == n)
      && "" !in jobOpenings
    }

    constructor (url: string, settings: Settings)
      ensures Valid()
      ensures siteUrl == url && settingsDoc == settings
      ensures jobOpenings == map[] && integrations == [] && applicants == []
      ensures cache == map[] && feedFile == Missing
    {
      siteUrl := url;
      jobOpenings := map[];
      integrations := [];
      applicants := [];
      settingsDoc := settings;
      cache := map[];
      feedFile := Missing;
      currencySymbols := map[];
      hrEmails := [];
    }
  }
}
