/** The Indeed Job Integration record's controller: the derived location,
    salary range and application URL, the existence check on the Job Opening,
    and the propagation of the Indeed job id back to the Job Opening
    (indeed/indeed/doctype/indeed_job_integration/indeed_job_integration.py). */
module JobIntegration {
  import opened Common
  import opened Platform

  const InvalidJobOpening := "Invalid Job Opening selected"

  /** The location parts present, in the order city, state, country. */
  function LocationParts(city: string, state: string, country: string): (r: seq<string>)
    ensures |r| == (if city != "" then 1 else 0) + (if state != "" then 1 else 0) + (if country != "" then 1 else 0)
    ensures forall k :: 0 <= k < |r| ==> r[k] != ""
    ensures city != "" ==> r[0] == city
    ensures state != "" ==> r[if city != "" then 1 else 0] == state
    ensures country != "" ==> r[|r| - 1] == country
  {
    (if city != "" then [city] else []) + (if state != "" then [state] else []) + (if country != "" then [country] else [])
  }

  /** ", ".join(location_parts). */
  function Location(city: string, state: string, country: string): string {
    Join(LocationParts(city, state, country), ", ")
  }

  /** The location is empty exactly when no part is present. */
  lemma LocationEmptyIff(city: string, state: string, country: string)
    ensures Location(city, state, country) == "" <==> city == "" && state == "" && country == ""
  {
    var parts := LocationParts(city, state, country);
    if |parts| >= 2 {
      assert Join(parts, ", ") == Join(parts[..|parts| - 1], ", ") + ", " + parts[|parts| - 1];
    }
  }

  /** All three parts are joined with ", " in order. */
  lemma LocationOfAllParts(city: string, state: string, country: string)
    requires city != "" && state != "" && country != ""
    ensures Location(city, state, country) == city + ", " + state + ", " + country
  {
    var parts := LocationParts(city, state, country);
    assert parts == [city, state, country];
    assert parts[..2] == [city, state];
    assert Join(parts[..2], ", ") == Join([city], ", ") + ", " + state;
  }

  /** "{sym}{lower} - {sym}{upper}", the amounts rendered as Python floats. */
  function SalaryRange(lower: int, upper: int, symbol: string): (r: string)
    ensures LaidOut(r, symbol, FloatText(lower), " - ", symbol, FloatText(upper))
  {
    var lo, hi := FloatText(lower), FloatText(upper);
    FiveParts(symbol, lo, " - ", symbol, hi);
    symbol + lo + " - " + symbol + hi
  }

  /** `r` consists of the five texts, in order and nothing else. */
  predicate LaidOut(r: string, a: string, b: string, c: string, d: string, e: string) {
    && |r| == |a| + |b| + |c| + |d| + |e|
    && r[..|a|] == a
    && r[|a|..|a| + |b|] == b
    && r[|a| + |b|..|a| + |b| + |c|] == c
    && r[|a| + |b| + |c|..|a| + |b| + |c| + |d|] == d
    && r[|a| + |b| + |c| + |d|..] == e
  }

  lemma FiveParts(a: string, b: string, c: string, d: string, e: string)
    ensures LaidOut(a + b + c + d + e, a, b, c, d, e)
  {
    var r := a + b + c + d + e;
    assert r == (a + b + c) + (d + e);
    assert (a + b + c)[..|a|] == a && (a + b + c)[|a|..|a| + |b|] == b && (a + b + c)[|a| + |b|..] == c;
    assert (d + e)[..|d|] == d && (d + e)[|d|..] == e;
  }

  /** The currency symbol of the job's currency, "" when there is none. */
  function CurrencySymbol(currency: Option<string>, symbols: map<string, string>): string {
    if currency.Some? && currency.value in symbols then symbols[currency.value] else ""
  }

  function ApplicationUrl(siteUrl: string, jobName: string): (r: string)
    ensures |r| == |siteUrl| + 6 + |jobName|
    ensures r[..|siteUrl|] == siteUrl && r[|siteUrl|..|siteUrl| + 6] == "/jobs/" && r[|siteUrl| + 6..] == jobName
  {
    siteUrl + "/jobs/" + jobName
  }

  /** What before_insert does to `doc` given the Job Opening `j` it refers to. */
  predicate DerivedFrom(d: Integration, doc: Integration, j: JobOpening, symbols: map<string, string>, siteUrl: string) {
    && d.location == Location(j.city, j.state, j.country)
    && d.salaryRange == (if j.lowerRange != 0 && j.upperRange != 0
                         then SalaryRange(j.lowerRange, j.upperRange, CurrencySymbol(j.currency, symbols))
                         else doc.salaryRange)
    && d.applicationUrl == ApplicationUrl(siteUrl, j.name)
    && d.(location := doc.location, salaryRange := doc.salaryRange, applicationUrl := doc.applicationUrl) == doc
  }

  /** before_insert: nothing without a job opening; the job opening must load;
      then location, salary range and application URL are derived from it. */
  method BeforeInsert(doc: Integration, jobs: map<string, JobOpening>, symbols: map<string, string>, siteUrl: string)
    returns (r: Result<Integration>)
    ensures doc.jobOpening == "" ==> r == Ok(doc)
    ensures doc.jobOpening != "" && doc.jobOpening !in jobs ==> r == Err(NotFound("Job Opening", doc.jobOpening))
    ensures doc.jobOpening != "" && doc.jobOpening in jobs ==>
      r.Ok? && DerivedFrom(r.value, doc, jobs[doc.jobOpening], symbols, siteUrl)
  {
    if doc.jobOpening == "" {
      return Ok(doc);
    }
    if doc.jobOpening !in jobs {
      return Err(NotFound("Job Opening", doc.jobOpening));
    }
    var j := jobs[doc.jobOpening];
    var d := doc;
    var parts: seq<string> := [];
    if j.city != "" {
      parts := parts + [j.city];
    }
    if j.state != "" {
      parts := parts + [j.state];
    }
    if j.country != "" {
      parts := parts + [j.country];
    }
    assert parts == LocationParts(j.city, j.state, j.country);
    d := d.(location := Join(parts, ", "));
    if j.lowerRange != 0 && j.upperRange != 0 {
      var sym := CurrencySymbol(j.currency, symbols);
      d := d.(salaryRange := SalaryRange(j.lowerRange, j.upperRange, sym));
    }
    d := d.(applicationUrl := ApplicationUrl(siteUrl, j.name));
    r := Ok(d);
  }

  /** validate: the referenced Job Opening must exist. */
  function Validate(doc: Integration, jobs: map<string, JobOpening>): (r: Outcome)
    ensures r == Pass <==> doc.jobOpening != "" && doc.jobOpening in jobs
    ensures r.Fail? ==> r.msg == InvalidJobOpening
  {
    if doc.jobOpening != "" && doc.jobOpening in jobs then Pass else Fail(InvalidJobOpening)
  }

  /** on_update: the Job Opening gets the Indeed job id when both are set. */
  function OnUpdate(doc: Integration, jobs: map<string, JobOpening>): (r: map<string, JobOpening>)
    ensures r.Keys == jobs.Keys
    ensures forall n :: n in jobs && n != doc.jobOpening ==> r[n] == jobs[n]
    ensures doc.jobOpening in jobs && doc.jobOpening != "" && doc.indeedJobId != "" ==>
      r[doc.jobOpening] == jobs[doc.jobOpening].(customIndeedJobId := doc.indeedJobId)
    ensures doc.jobOpening == "" || doc.indeedJobId == "" ==> r == jobs
  {
    if doc.indeedJobId != "" && doc.jobOpening != "" && doc.jobOpening in jobs
    then jobs[doc.jobOpening := jobs[doc.jobOpening].(customIndeedJobId := doc.indeedJobId)]
    else jobs
  }

  /** on_update never changes a Job Opening's name, so the table stays keyed by name. */
  lemma OnUpdateKeepsNames(doc: Integration, jobs: map<string, JobOpening>)
    requires forall n :: n in jobs ==> jobs[n].name == n
    ensures var r := OnUpdate(doc, jobs); forall n :: n in r ==> r[n].name == n
  {
  }

  /** doc.insert(): before_insert, validate, the row is added, on_update. */
  method InsertIntegration(site: Site, doc: Integration) returns (r: Result<Integration>)
    modifies site`integrations, site`jobOpenings
    ensures r.Err? ==> site.integrations == old(site.integrations) && site.jobOpenings == old(site.jobOpenings)
    ensures r.Err? <==> Validate(doc, old(site.jobOpenings)).Fail?
    ensures r.Ok? ==> DerivedFrom(r.value, doc, old(site.jobOpenings)[doc.jobOpening], site.currencySymbols, site.siteUrl)
    ensures r.Ok? ==> site.integrations == old(site.integrations) + [r.value]
    ensures r.Ok? ==> site.jobOpenings == OnUpdate(r.value, old(site.jobOpenings))
  {
    var b := BeforeInsert(doc, site.jobOpenings, site.currencySymbols, site.siteUrl);
    if b.Err? {
      return Err(b.msg);
    }
    var v := Validate(b.value, site.jobOpenings);
    if v.Fail? {
      return Err(v.msg);
    }
    site.integrations := site.integrations + [b.value];
    site.jobOpenings := OnUpdate(b.value, site.jobOpenings);
    r := b;
  }

  /** doc.save() of the record at index i: validate, the row is written, on_update. */
  method SaveIntegration(site: Site, i: nat, doc: Integration) returns (o: Outcome)
    requires i < |site.integrations|
    modifies site`integrations, site`jobOpenings
    ensures o == Validate(doc, old(site.jobOpenings))
    ensures o.Fail? ==> site.integrations == old(site.integrations) && site.jobOpenings == old(site.jobOpenings)
    ensures o.Pass? ==> site.integrations == old(site.integrations)[i := doc]
    ensures o.Pass? ==> site.jobOpenings == OnUpdate(doc, old(site.jobOpenings))
  {
    o := Validate(doc, site.jobOpenings);
    if o.Pass? {
      site.integrations := site.integrations[i := doc];
      site.jobOpenings := OnUpdate(doc, site.jobOpenings);
    }
  }
}
