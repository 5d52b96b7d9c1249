/** The feed codec: the job-data record built from a Job Opening, the
    employment-type table, the job element of the XML feed and the incremental
    feed update used by the XML_FEED posting method
    (indeed/indeed/utils.py:102-139, 222-331). */
module Feed {
  import opened Common
  import opened Xml
  import opened Platform
  import opened JobIntegration

  /** The dict prepare_job_data returns. Amounts are 0 when unset. */
  datatype JobData = JobData(
    title: string,
    description: string,
    location: string,
    company: string,
    companyUrl: string,
    employmentType: string,
    experienceLevel: string,
    salaryMin: int,
    salaryMax: int,
    currency: string,
    applicationUrl: string,
    externalId: string,
    postingDate: string,
    department: string,
    jobCategory: string)

  /** The dict a posting strategy returns; `error` is None when the key is absent. */
  datatype PostResponse = PostResponse(success: bool, jobId: string, jobUrl: string, error: Option<string>)

  function Failure(msg: string): (r: PostResponse)
    ensures !r.success && r.error == Some(msg)
  {
    PostResponse(false, "", "", Some(msg))
  }

  /** The exception strftime raises on a Job Opening without a creation time. */
  const NoCreationError := "'NoneType' object has no attribute 'strftime'"

  const FeedPath := "/files/indeed_jobs.xml"

  /** prepare_job_data. */
  function PrepareJobData(job: JobOpening, s: Settings, siteUrl: string): (r: Result<JobData>)
    ensures r.Err? <==> job.creation.None?
    ensures r.Err? ==> r.msg == NoCreationError
    ensures r.Ok? ==> r.value.location == Location(job.city, job.state, job.country)
    ensures r.Ok? ==> r.value.companyUrl == (if s.companyUrl != "" then s.companyUrl else siteUrl)
    ensures r.Ok? ==> r.value.employmentType == (if job.employmentType.None? then "Full-time" else job.employmentType.value)
    ensures r.Ok? ==> r.value.currency == (if job.currency.None? then "USD" else job.currency.value)
    ensures r.Ok? ==> r.value.externalId == job.name && r.value.applicationUrl == ApplicationUrl(siteUrl, job.name)
    ensures r.Ok? ==> r.value.postingDate == job.creation.value.ymd
  {
    var parts := LocationParts(job.city, job.state, job.country);
    var location := if parts != [] then Join(parts, ", ") else "";
    var companyUrl := if s.companyUrl != "" then s.companyUrl else siteUrl;
    if job.creation.None? then Err(NoCreationError)
    else Ok(JobData(
      title := job.jobTitle,
      description := job.description,
      location := location,
      company := job.company,
      companyUrl := companyUrl,
      employmentType := job.employmentType.GetOr("Full-time"),
      experienceLevel := job.experience,
      salaryMin := job.lowerRange,
      salaryMax := job.upperRange,
      currency := job.currency.GetOr("USD"),
      applicationUrl := ApplicationUrl(siteUrl, job.name),
      externalId := job.name,
      postingDate := job.creation.value.ymd,
      department := job.department,
      jobCategory := job.designation))
  }

  const KnownEmploymentTypes := ["Full-time", "Part-time", "Contract", "Temporary", "Internship"]
  const IndeedEmploymentTypes := ["FULL_TIME", "PART_TIME", "CONTRACT", "TEMPORARY", "INTERNSHIP"]

  /** map_employment_type: the fixed table, FULL_TIME for anything else. */
  function MapEmploymentType(t: string): (r: string)
    ensures forall k :: 0 <= k < 5 && t == KnownEmploymentTypes[k] ==> r == IndeedEmploymentTypes[k]
    ensures t !in KnownEmploymentTypes ==> r == "FULL_TIME"
    ensures r in IndeedEmploymentTypes
    ensures r != "FULL_TIME" ==> t in KnownEmploymentTypes[1..]
  {
    if t == "Full-time" then "FULL_TIME"
    else if t == "Part-time" then "PART_TIME"
    else if t == "Contract" then "CONTRACT"
    else if t == "Temporary" then "TEMPORARY"
    else if t == "Internship" then "INTERNSHIP"
    else "FULL_TIME"
  }

  /** The eight fields every job element carries, in order. */
  const JobFieldTags := ["title", "date", "referencenumber", "url", "company", "city", "description", "jobtype"]

  /** The fields whose text is wrapped as character data. */
  predicate IsCDataField(tag: string) {
    tag == "title" || tag == "company" || tag == "city" || tag == "description"
  }

  function CData(v: string): (r: string)
    ensures |r| == |v| + 12
    ensures r[..9] == "<![CDATA[" && r[9..|r| - 3] == v && r[|r| - 3..] == "]]>"
  {
    "<![CDATA[" + v + "]]>"
  }

  /** The element one (field, value) pair of job_fields becomes. */
  function FieldElement(tag: string, value: string): (e: Element)
    ensures e.tag == tag && e.children == []
    ensures e.text == (if IsCDataField(tag) then CData(value) else value)
  {
    Leaf(tag, if IsCDataField(tag) then CData(value) else value)
  }

  /** The salary text "min-max", present only when both bounds are non-zero. */
  function SalaryField(data: JobData): (r: seq<(string, string)>)
    ensures |r| <= 1
    ensures r != [] <==> data.salaryMin != 0 && data.salaryMax != 0
    ensures r != [] ==> r[0] == ("salary", FloatText(data.salaryMin) + "-" + FloatText(data.salaryMax))
  {
    if data.salaryMin != 0 && data.salaryMax != 0
    then [("salary", FloatText(data.salaryMin) + "-" + FloatText(data.salaryMax))]
    else []
  }

  /** job_fields of regenerate_xml_feed: the eight fixed fields, then salary. */
  function BaseFields(data: JobData, date: string): (r: seq<(string, string)>)
    ensures |r| == 8 + |SalaryField(data)|
    ensures forall k :: 0 <= k < 8 ==> r[k].0 == JobFieldTags[k]
  {
    [("title", data.title), ("date", date), ("referencenumber", data.externalId),
     ("url", data.applicationUrl), ("company", data.company), ("city", data.location),
     ("description", data.description), ("jobtype", data.employmentType)]
    + SalaryField(data)
  }

  /** The fields add_to_xml_feed writes after the salary: category and experience when set. */
  function ExtraFields(data: JobData): seq<(string, string)> {
    (if data.jobCategory != "" then [("category", data.jobCategory)] else [])
    + (if data.experienceLevel != "" then [("experience", data.experienceLevel)] else [])
  }

  /** job_fields of add_to_xml_feed. */
  function AddFields(data: JobData, date: string): seq<(string, string)> {
    BaseFields(data, date) + ExtraFields(data)
  }

  function FieldElements(fields: seq<(string, string)>): (r: seq<Element>)
    ensures |r| == |fields|
  {
    seq(|fields|, k requires 0 <= k < |fields| => FieldElement(fields[k].0, fields[k].1))
  }

  /** The job element: one child per field, in field order. */
  function JobElement(fields: seq<(string, string)>): Element {
    Element("job", "", FieldElements(fields))
  }

  /** The loop of SubElement calls that fills a job element. */
  method BuildJobElement(fields: seq<(string, string)>) returns (job: Element)
    ensures job == JobElement(fields)
  {
    job := Element("job", "", []);
    var i := 0;
    while i < |fields|
      invariant 0 <= i <= |fields|
      invariant job == Element("job", "", FieldElements(fields[..i]))
    {
      job := AppendChild(job, FieldElement(fields[i].0, fields[i].1));
      i := i + 1;
    }
    assert fields[..i] == fields;
  }

  /** Every job element starts with the eight fixed fields, in order, and
      carries a salary child exactly when both bounds are set. */
  lemma JobElementLayout(data: JobData, date: string, extra: seq<(string, string)>)
    ensures var e := JobElement(BaseFields(data, date) + extra);
      && |e.children| == 8 + |SalaryField(data)| + |extra|
      && (forall k :: 0 <= k < 8 ==> e.children[k].tag == JobFieldTags[k])
      && (SalaryField(data) != [] ==> e.children[8].tag == "salary")
  {
    var fs := BaseFields(data, date) + extra;
    var e := JobElement(fs);
    forall k | 0 <= k < 8
      ensures e.children[k].tag == JobFieldTags[k]
    {
      assert e.children[k] == FieldElement(fs[k].0, fs[k].1);
    }
    if SalaryField(data) != [] {
      assert fs[8] == SalaryField(data)[0];
    }
  }

  /** The Indeed reference number of a job element (text of its first referencenumber child). */
  function RefOf(job: Element): Option<string> {
    match FindIndex(job.children, "referencenumber")
    case Some(i) => Some(job.children[i].text)
    case None => None
  }

  lemma {:induction false} RefOfJobElement(data: JobData, date: string, extra: seq<(string, string)>)
    ensures RefOf(JobElement(BaseFields(data, date) + extra)) == Some(data.externalId)
  {
    var fs := BaseFields(data, date) + extra;
    var cs := FieldElements(fs);
    assert cs[0].tag == "title" && cs[1].tag == "date" && cs[2].tag == "referencenumber";
    assert cs[1..][1..] == cs[2..];
    assert FindIndex(cs[2..], "referencenumber") == Some(0);
    assert FindIndex(cs[1..], "referencenumber") == Some(1);
  }

  /** Sets the text of the first lastBuildDate child, or appends one. */
  function SetLastBuildDate(root: Element, text: string): (r: Element)
    ensures r.tag == root.tag
    ensures FindAll(r.children, "job") == FindAll(root.children, "job")
    ensures HasChild(r, "lastBuildDate")
  {
    match FindIndex(root.children, "lastBuildDate")
    case Some(i) =>
      var r := root.(children := root.children[i := root.children[i].(text := text)]);
      FindAllReplace(root.children, i, root.children[i].(text := text), "job");
      assert FindIndex(r.children, "lastBuildDate").Some? by {
        assert r.children[i].tag == "lastBuildDate";
      }
      r
    case None =>
      var r := AppendChild(root, Leaf("lastBuildDate", text));
      FindAllAppend(root.children, [Leaf("lastBuildDate", text)], "job");
      assert r.children[|r.children| - 1].tag == "lastBuildDate";
      r
  }

  /** Replacing a child by one with the same tag, other than `tag`, leaves findall(tag) alone. */
  lemma {:induction false} FindAllReplace(s: seq<Element>, i: nat, x: Element, tag: string)
    requires i < |s| && x.tag == s[i].tag && x.tag != tag
    ensures FindAll(s[i := x], tag) == FindAll(s, tag)
  {
    var t := s[i := x];
    var n := |s| - 1;
    if i < n {
      assert t[..n] == s[..n][i := x];
      FindAllReplace(s[..n], i, x, tag);
      assert t[n] == s[n];
      assert FindAll(t, tag) == FindAll(t[..n], tag) + (if t[n].tag == tag then [t[n]] else []);
      assert FindAll(s, tag) == FindAll(s[..n], tag) + (if s[n].tag == tag then [s[n]] else []);
    } else {
      assert t[..n] == s[..n];
      assert FindAll(t, tag) == FindAll(t[..n], tag);
      assert FindAll(s, tag) == FindAll(s[..n], tag);
    }
  }

  /** The feed root written when no feed file exists yet. */
  function NewFeedRoot(data: JobData): Element {
    Element("source", "", [Leaf("publisher", data.company), Leaf("publisherurl", data.companyUrl)])
  }

  /** The new feed file and the response of add_to_xml_feed. A file that does
      not parse makes the method fail with the parser's message. */
  function XmlStrategy(file: FeedFile, data: JobData, now: DateTime, siteUrl: string): (FeedFile, PostResponse) {
    match file
    case Unparsable(reason) => (file, Failure(reason))
    case Missing => (Tree(AddJob(NewFeedRoot(data), data, now)), PostedResponse(data, siteUrl))
    case Tree(root) => (Tree(AddJob(root, data, now)), PostedResponse(data, siteUrl))
  }

  /** The root after the job is added: lastBuildDate stamped, job element appended. */
  function AddJob(root: Element, data: JobData, now: DateTime): (r: Element)
    ensures FindAll(r.children, "job") == FindAll(root.children, "job") + [JobElement(AddFields(data, now.rfc))]
  {
    var stamped := SetLastBuildDate(root, now.rfc);
    FindAllAppend(stamped.children, [JobElement(AddFields(data, now.rfc))], "job");
    AppendChild(stamped, JobElement(AddFields(data, now.rfc)))
  }

  /** The success response of the XML feed strategy. */
  function PostedResponse(data: JobData, siteUrl: string): (r: PostResponse)
    ensures r.success && r.jobId == data.externalId && r.error.None?
  {
    PostResponse(true, data.externalId, siteUrl + FeedPath, None)
  }

  /** add_to_xml_feed: read the feed, stamp lastBuildDate, append a job element, write it back. */
  method AddToXmlFeed(site: Site, data: JobData, now: DateTime) returns (resp: PostResponse)
    modifies site`feedFile
    ensures (site.feedFile, resp) == XmlStrategy(old(site.feedFile), data, now, site.siteUrl)
  {
    var root: Element;
    match site.feedFile {
      case Unparsable(reason) =>
        return Failure(reason);
      case Missing =>
        root := Element("source", "", []);
        root := AppendChild(root, Leaf("publisher", data.company));
        root := AppendChild(root, Leaf("publisherurl", data.companyUrl));
        assert root == NewFeedRoot(data);
      case Tree(r) =>
        root := r;
    }
    ghost var loaded := root;
    root := SetLastBuildDate(root, now.rfc);
    var job := BuildJobElement(AddFields(data, now.rfc));
    root := AppendChild(root, job);
    assert root == AddJob(loaded, data, now);
    site.feedFile := Tree(root);
    resp := PostedResponse(data, site.siteUrl);
  }

  /** The jobs of a feed file (none when it is absent or unreadable). */
  function FeedJobs(file: FeedFile): seq<Element> {
    if file.Tree? then FindAll(file.root.children, "job") else []
  }

  /** add_to_xml_feed keeps every job already in the feed and appends one. */
  lemma AddAppendsJob(file: FeedFile, data: JobData, now: DateTime, siteUrl: string)
    requires !file.Unparsable?
    ensures XmlStrategy(file, data, now, siteUrl).1.success
    ensures FeedJobs(XmlStrategy(file, data, now, siteUrl).0)
         == FeedJobs(file) + [JobElement(AddFields(data, now.rfc))]
  {
    if file.Missing? {
      FindAllNoneTagged(NewFeedRoot(data).children, "job");
    }
  }

  /** Adding the same job twice leaves two job elements with its reference
      number at the end of the feed: the incremental path does not deduplicate. */
  lemma AddingTwiceDuplicates(file: FeedFile, data: JobData, now: DateTime, later: DateTime, siteUrl: string)
    requires !file.Unparsable?
    ensures var once := XmlStrategy(file, data, now, siteUrl).0;
      var jobs := FeedJobs(XmlStrategy(once, data, later, siteUrl).0);
      && |jobs| == |FeedJobs(file)| + 2
      && RefOf(jobs[|jobs| - 2]) == Some(data.externalId)
      && RefOf(jobs[|jobs| - 1]) == Some(data.externalId)
  {
    var once := XmlStrategy(file, data, now, siteUrl).0;
    AddAppendsJob(file, data, now, siteUrl);
    AddAppendsJob(once, data, later, siteUrl);
    RefOfJobElement(data, now.rfc, ExtraFields(data));
    RefOfJobElement(data, later.rfc, ExtraFields(data));
  }

  /** The renderings of the two amounts of the worked example below. */
  lemma ExampleAmounts()
    ensures FloatText(90000) + "-" + FloatText(120000) == "90000.0-120000.0"
  {
    LowerAmount();
    UpperAmount();
  }

  /** The integration record's salary range for the same amounts, with the
      bounds rendered as floats. */
  lemma SalaryRangeExample()
    ensures SalaryRange(90000, 120000, "$") == "$90000.0 - $120000.0"
  {
    LowerAmount();
    UpperAmount();
  }

  lemma LowerAmount()
    ensures NatToString(90000) == "90000"
  {
    assert NatToString(9) == "9";
    assert NatToString(90) == "90";
    assert NatToString(900) == "900";
    assert NatToString(9000) == "9000";
  }

  lemma UpperAmount()
    ensures NatToString(120000) == "120000"
  {
    assert NatToString(12) == "12";
    assert NatToString(120) == "120";
    assert NatToString(1200) == "1200";
    assert NatToString(12000) == "12000";
  }

  lemma ExampleLocation()
    ensures Location("Austin", "TX", "USA") == "Austin, TX, USA"
  {
    LocationOfAllParts("Austin", "TX", "USA");
  }

  /** A worked example: Austin, TX, USA with 90000 to 120000 gives the
      location "Austin, TX, USA" and the salary text "90000.0-120000.0". */
  lemma WorkedExample(job: JobOpening, s: Settings, siteUrl: string)
    requires job.city == "Austin" && job.state == "TX" && job.country == "USA"
    requires job.lowerRange == 90000 && job.upperRange == 120000 && job.creation.Some?
    ensures var d := PrepareJobData(job, s, siteUrl).value;
      d.location == "Austin, TX, USA" && SalaryField(d) == [("salary", "90000.0-120000.0")]
  {
    var d := PrepareJobData(job, s, siteUrl).value;
    assert d.location == Location("Austin", "TX", "USA");
    ExampleLocation();
    assert d.salaryMin == 90000 && d.salaryMax == 120000;
    ExampleAmounts();
    assert SalaryField(d) == [("salary", FloatText(d.salaryMin) + "-" + FloatText(d.salaryMax))];
  }
}
