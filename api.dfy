/** The whitelisted endpoints around the core: the manual posting of one Job
    Opening, the status sync of its integration record, and the structural
    check of the published feed (indeed/indeed/api.py). */
module Api {
  import opened Common
  import opened Xml
  import opened Platform
  import opened JobIntegration
  import opened Feed
  import opened Dispatcher
  import SettingsCache
  import opened Regenerator
  import opened BulkOperations

  const InsufficientPermissions := "Insufficient permissions"
  const AlreadyPosted := "Job already posted to Indeed"
  const PostedSuccessfully := "Job posted to Indeed successfully"
  const PostingFailed := "Failed to post job to Indeed. Check error logs for details."
  const NoIndeedJobId := "No Indeed Job ID found for this posting"
  const SyncCompleted := "Status sync completed"
  const FeedNotAccessible := "XML feed not accessible"

  /** What manual_post_job_to_indeed returns, or the permission error it throws. */
  datatype ManualResult =
    | ManualAnswer(success: bool, message: string, integrationId: Option<string>,
                   status: Option<string>, indeedJobId: Option<string>)
    | ManualRefused(reason: string)

  /** The first record for a job appended after a table without one is found at the end. */
  lemma FindByJobAppend(recs: seq<Integration>, r: Integration, job: string)
    requires FindByJob(recs, job).None? && r.jobOpening == job
    ensures FindByJob(recs + [r], job) == Some(|recs|)
  {
    assert (recs + [r])[|recs|] == r;
  }

  /** manual_post_job_to_indeed for the Job Opening `name`, with `allowed` the
      caller's write permission on Job Opening, `now` the clock and `reply`
      what the Indeed API would answer. */
  method ManualPostJobToIndeed(site: Site, name: string, allowed: bool, now: DateTime, reply: ApiReply)
    returns (r: ManualResult)
    requires site.Valid()
    modifies site`cache, site`integrations, site`jobOpenings, site`feedFile
    ensures site.Valid()
    ensures !allowed || name !in old(site.jobOpenings) || FindByJob(old(site.integrations), name).Some? ==>
      && site.integrations == old(site.integrations) && site.jobOpenings == old(site.jobOpenings)
      && site.feedFile == old(site.feedFile) && site.cache == old(site.cache)
    ensures !allowed ==> r == ManualRefused(InsufficientPermissions)
    ensures allowed && name !in old(site.jobOpenings) ==>
      r == ManualAnswer(false, "Error: " + NotFound("Job Opening", name), None, None, None)
    ensures allowed && name in old(site.jobOpenings) && FindByJob(old(site.integrations), name).Some? ==>
      r == ManualAnswer(false, AlreadyPosted, Some(old(site.integrations)[FindByJob(old(site.integrations), name).value].name), None, None)
    ensures allowed && name in old(site.jobOpenings) && FindByJob(old(site.integrations), name).None? ==>
      && r.ManualAnswer?
      && (!r.success ==> r == ManualAnswer(false, PostingFailed, None, None, None))
      && (r.success ==>
            && r.message == PostedSuccessfully
            && |site.integrations| == old(|site.integrations|) + 1
            && site.integrations[..old(|site.integrations|)] == old(site.integrations)
            && var rec := site.integrations[old(|site.integrations|)];
               && rec.jobOpening == name && rec.status == Posted
               && r.integrationId == Some(rec.name) && r.status == Some(Posted)
               && r.indeedJobId == Some(rec.indeedJobId))
    ensures allowed && name in old(site.jobOpenings) && FindByJob(old(site.integrations), name).None? ==>
      PostOutcome(site, old(site.integrations), old(site.jobOpenings), old(site.feedFile), old(site.cache),
                  old(site.jobOpenings)[name], now, NextName(old(site.integrations)), reply, r.success)
  {
    if !allowed {
      return ManualRefused(InsufficientPermissions);
    }
    if name !in site.jobOpenings {
      return ManualAnswer(false, "Error: " + NotFound("Job Opening", name), None, None, None);
    }
    var job := site.jobOpenings[name];
    var existing := FindByJob(site.integrations, name);
    if existing.Some? {
      return ManualAnswer(false, AlreadyPosted, Some(site.integrations[existing.value].name), None, None);
    }
    r := PostAndLookUp(site, job, now, reply);
  }

  /** The part of manual_post_job_to_indeed after the guards: the job is
      posted, then its record is looked up for the answer. */
  method PostAndLookUp(site: Site, job: JobOpening, now: DateTime, reply: ApiReply) returns (r: ManualResult)
    requires site.Valid() && job.name in site.jobOpenings && site.jobOpenings[job.name] == job
    requires FindByJob(site.integrations, job.name).None?
    modifies site`cache, site`integrations, site`jobOpenings, site`feedFile
    ensures site.Valid()
    ensures r.ManualAnswer?
    ensures !r.success ==> r == ManualAnswer(false, PostingFailed, None, None, None)
    ensures r.success ==>
      && r.message == PostedSuccessfully
      && |site.integrations| == old(|site.integrations|) + 1
      && site.integrations[..old(|site.integrations|)] == old(site.integrations)
      && var rec := site.integrations[old(|site.integrations|)];
         && rec.jobOpening == job.name && rec.status == Posted
         && r.integrationId == Some(rec.name) && r.status == Some(Posted)
         && r.indeedJobId == Some(rec.indeedJobId)
    ensures PostOutcome(site, old(site.integrations), old(site.jobOpenings), old(site.feedFile), old(site.cache),
                        job, now, NextName(old(site.integrations)), reply, r.success)
  {
    ghost var recs0 := site.integrations;
    var ok := PostNewRecord(site, job, now, reply);
    if !ok {
      return ManualAnswer(false, PostingFailed, None, None, None);
    }
    assert site.integrations[..|recs0|] == recs0;
    r := LookUpPosted(site.integrations, job.name);
  }

  /** The answer after a successful post: get_value finds the job's first
      record, which is the one just appended, and reports its name, status
      and Indeed id. */
  method LookUpPosted(recs: seq<Integration>, job: string) returns (r: ManualResult)
    requires recs != [] && FindByJob(recs[..|recs| - 1], job).None? && recs[|recs| - 1].jobOpening == job
    ensures var rec := recs[|recs| - 1];
      r == ManualAnswer(true, PostedSuccessfully, Some(rec.name), Some(rec.status), Some(rec.indeedJobId))
  {
    var n := |recs| - 1;
    FindByJobAppend(recs[..n], recs[n], job);
    assert recs == recs[..n] + [recs[n]];
    var found := FindByJob(recs, job);
    if found.Some? {
      var rec := recs[found.value];
      r := ManualAnswer(true, PostedSuccessfully, Some(rec.name), Some(rec.status), Some(rec.indeedJobId));
    } else {
      r := ManualAnswer(true, PostedSuccessfully, None, None, None);
    }
  }

  /** post_job_to_indeed under the autoname's fresh record name: the site
      afterwards is as `PostOutcome` says, so a success added exactly one
      record, for the job and Posted. */
  method PostNewRecord(site: Site, job: JobOpening, now: DateTime, reply: ApiReply) returns (ok: bool)
    requires site.Valid() && job.name in site.jobOpenings && site.jobOpenings[job.name] == job
    requires FindByJob(site.integrations, job.name).None?
    modifies site`cache, site`integrations, site`jobOpenings, site`feedFile
    ensures site.Valid()
    ensures ok ==>
      && |site.integrations| == old(|site.integrations|) + 1
      && site.integrations[..old(|site.integrations|)] == old(site.integrations)
      && site.integrations[old(|site.integrations|)].jobOpening == job.name
      && site.integrations[old(|site.integrations|)].status == Posted
    ensures PostOutcome(site, old(site.integrations), old(site.jobOpenings), old(site.feedFile), old(site.cache),
                        job, now, NextName(old(site.integrations)), reply, ok)
  {
    ghost var recs0, jobs0, file0 := site.integrations, site.jobOpenings, site.feedFile;
    ghost var s := SettingsCache.ReadSettings(site.cache, site.settingsDoc, now.instant);
    var newName := NextName(site.integrations);
    ghost var draft;
    ok, draft := PostJobToIndeed(site, job, now, newName, reply);
    if ok {
      assert Attempted(s, recs0, jobs0, job.name);
      SuccessfulAttempt(site, recs0, jobs0, file0, s, job, now, newName, reply, draft);
    }
  }

  /** What sync_job_status_with_indeed returns, or the permission error it throws. */
  datatype SyncResult =
    | SyncAnswer(success: bool, message: string, lastSync: Option<string>)
    | SyncError(error: string)
    | SyncRefused(reason: string)

  /** The filter as the not-found message shows it, for a Job Opening name
      without quotes or backslashes. */
  lemma FilterTextExample()
    ensures FilterText("job_opening", "JOB-1") == "{'job_opening': 'JOB-1'}"
  {
    PlainRepr("JOB-1");
  }

  /** sync_job_status_with_indeed for the Job Opening `name`: the first
      integration record of the job gets last_sync_date and is saved, provided
      it carries an Indeed job id. */
  method SyncJobStatusWithIndeed(site: Site, name: string, allowed: bool, now: DateTime) returns (r: SyncResult)
    requires site.Valid()
    modifies site`integrations, site`jobOpenings
    ensures site.Valid()
    ensures !allowed ==> r == SyncRefused(InsufficientPermissions)
    ensures allowed && FindByJob(old(site.integrations), name).None? ==>
      r == SyncError(NotFound("Indeed Job Integration", FilterText("job_opening", name)))
    ensures allowed && FindByJob(old(site.integrations), name).Some? ==>
      var k := FindByJob(old(site.integrations), name).value;
      var rec := old(site.integrations)[k];
      var synced := rec.(lastSyncDate := Some(now));
      && (rec.indeedJobId == "" ==> r == SyncAnswer(false, NoIndeedJobId, None))
      && (rec.indeedJobId != "" && Validate(synced, old(site.jobOpenings)).Fail? ==> r == SyncError(InvalidJobOpening))
      && (rec.indeedJobId != "" && Validate(synced, old(site.jobOpenings)).Pass? ==>
            && r == SyncAnswer(true, SyncCompleted, Some(now.text))
            && site.integrations == old(site.integrations)[k := synced]
            && site.jobOpenings == OnUpdate(synced, old(site.jobOpenings)))
    ensures !r.SyncAnswer? || !r.success ==>
      site.integrations == old(site.integrations) && site.jobOpenings == old(site.jobOpenings)
  {
    if !allowed {
      return SyncRefused(InsufficientPermissions);
    }
    var found := FindByJob(site.integrations, name);
    if found.None? {
      return SyncError(NotFound("Indeed Job Integration", FilterText("job_opening", name)));
    }
    var rec := site.integrations[found.value];
    if rec.indeedJobId == "" {
      return SyncAnswer(false, NoIndeedJobId, None);
    }
    rec := rec.(lastSyncDate := Some(now));
    ghost var recs0, jobs0 := site.integrations, site.jobOpenings;
    var saved := SaveIntegration(site, found.value, rec);
    WellFormedReplace(recs0, found.value, rec);
    OnUpdateKeepsNames(rec, jobs0);
    if saved.Fail? {
      return SyncError(saved.msg);
    }
    r := SyncAnswer(true, SyncCompleted, Some(now.text));
  }

  /** The published feed as the validator fetches it: a non-200 answer, a
      request or parse failure with its message, or the parsed root. */
  datatype FeedFetch = NotOk | Broken(msg: string) | Fetched(root: Element)

  /** What validate_xml_feed_structure returns, or the permission error it throws. */
  datatype FeedReport =
    | Report(success: bool, message: string, checks: seq<(string, bool)>, jobsCount: nat, feedUrl: string)
    | ReportFailure(message: string)
    | ReportRefused(reason: string)

  const RequiredJobFields := ["title", "date", "referencenumber", "url", "company", "city", "description"]

  /** The document-level checks, in order. */
  function RequiredElements(root: Element): (r: seq<(string, bool)>)
    ensures |r| == 4
  {
    [("Root element 'source'", root.tag == "source"),
     ("Publisher element", HasChild(root, "publisher")),
     ("Publisher URL", HasChild(root, "publisherurl")),
     ("Last build date", HasChild(root, "lastBuildDate"))]
  }

  /** One check per required field of the first job. */
  function FieldChecks(job: Element, fields: seq<string>): (r: seq<(string, bool)>)
    ensures |r| == |fields|
    ensures forall k :: 0 <= k < |fields| ==> r[k] == ("Job has " + fields[k], HasChild(job, fields[k]))
  {
    seq(|fields|, k requires 0 <= k < |fields| => ("Job has " + fields[k], HasChild(job, fields[k])))
  }

  /** The job checks: jobs exist, then the required fields of the first job. */
  function JobChecks(jobs: seq<Element>): seq<(string, bool)> {
    [("Jobs exist", |jobs| > 0)] + (if jobs != [] then FieldChecks(jobs[0], RequiredJobFields) else [])
  }

  function AllChecks(root: Element): seq<(string, bool)> {
    RequiredElements(root) + JobChecks(FindAll(root.children, "job"))
  }

  /** How many checks passed. */
  function Passed(checks: seq<(string, bool)>): (n: nat)
    ensures n <= |checks|
    ensures n == |checks| <==> forall k :: 0 <= k < |checks| ==> checks[k].1
  {
    if checks == [] then 0
    else
      var rest := Passed(checks[..|checks| - 1]);
      assert forall k :: 0 <= k < |checks| - 1 ==> checks[..|checks| - 1][k] == checks[k];
      rest + (if checks[|checks| - 1].1 then 1 else 0)
  }

  predicate AllPass(checks: seq<(string, bool)>) {
    forall k :: 0 <= k < |checks| ==> checks[k].1
  }

  function ReportFor(root: Element, siteUrl: string): FeedReport {
    var checks := AllChecks(root);
    Report(AllPass(checks),
           "Validation complete. " + NatToString(Passed(checks)) + "/" + NatToString(|checks|) + " checks passed",
           checks, |FindAll(root.children, "job")|, siteUrl + FeedPath)
  }

  /** The job_validation loop over the required fields of the first job. */
  method JobValidation(jobs: seq<Element>) returns (checks: seq<(string, bool)>)
    ensures checks == JobChecks(jobs)
  {
    checks := [("Jobs exist", |jobs| > 0)];
    if jobs == [] {
      return;
    }
    var first := jobs[0];
    var i := 0;
    while i < |RequiredJobFields|
      invariant 0 <= i <= |RequiredJobFields|
      invariant checks == [("Jobs exist", true)] + FieldChecks(first, RequiredJobFields[..i])
    {
      checks := checks + [("Job has " + RequiredJobFields[i], HasChild(first, RequiredJobFields[i]))];
      i := i + 1;
    }
    assert RequiredJobFields[..i] == RequiredJobFields;
  }

  /** validate_xml_feed_structure, with `allowed` the caller's read
      permission on the settings and `fetch` what fetching the feed gives. */
  method ValidateXmlFeedStructure(allowed: bool, fetch: FeedFetch, siteUrl: string) returns (r: FeedReport)
    ensures !allowed ==> r == ReportRefused(InsufficientPermissions)
    ensures allowed && fetch.NotOk? ==> r == ReportFailure(FeedNotAccessible)
    ensures allowed && fetch.Broken? ==> r == ReportFailure("Validation failed: " + fetch.msg)
    ensures allowed && fetch.Fetched? ==> r == ReportFor(fetch.root, siteUrl)
  {
    if !allowed {
      return ReportRefused(InsufficientPermissions);
    }
    match fetch {
      case NotOk => return ReportFailure(FeedNotAccessible);
      case Broken(msg) => return ReportFailure("Validation failed: " + msg);
      case Fetched(root) =>
        var required := RequiredElements(root);
        var jobs := FindAll(root.children, "job");
        var jobChecks := JobValidation(jobs);
        var checks := required + jobChecks;
        r := Report(AllPass(checks),
                    "Validation complete. " + NatToString(Passed(checks)) + "/" + NatToString(|checks|) + " checks passed",
                    checks, |jobs|, siteUrl + FeedPath);
    }
  }

  /** A feed passes exactly when its root is `source` with publisher,
      publisherurl and lastBuildDate children, it has a job, and its first
      job has every required field. */
  lemma ReportSuccessIff(root: Element, siteUrl: string)
    ensures var jobs := FindAll(root.children, "job");
      ReportFor(root, siteUrl).success <==>
        && root.tag == "source" && HasChild(root, "publisher") && HasChild(root, "publisherurl")
        && HasChild(root, "lastBuildDate")
        && |jobs| > 0
        && forall f :: f in RequiredJobFields ==> HasChild(jobs[0], f)
  {
    var jobs := FindAll(root.children, "job");
    var req := RequiredElements(root);
    AllPassAppend(req, JobChecks(jobs));
    JobChecksPass(jobs);
    assert AllPass(req) <==> req[0].1 && req[1].1 && req[2].1 && req[3].1;
  }

  lemma AllPassAppend(a: seq<(string, bool)>, b: seq<(string, bool)>)
    ensures AllPass(a + b) <==> AllPass(a) && AllPass(b)
  {
    assert forall k :: 0 <= k < |a| ==> (a + b)[k] == a[k];
    assert forall k :: 0 <= k < |b| ==> (a + b)[|a| + k] == b[k];
    if AllPass(a) && AllPass(b) {
      forall k | 0 <= k < |a + b|
        ensures (a + b)[k].1
      {
        if k >= |a| {
          assert (a + b)[k] == b[k - |a|];
        }
      }
    }
  }

  /** The job checks pass exactly when there is a job whose first one has every required field. */
  lemma JobChecksPass(jobs: seq<Element>)
    ensures AllPass(JobChecks(jobs)) <==> |jobs| > 0 && forall f :: f in RequiredJobFields ==> HasChild(jobs[0], f)
  {
    var head := [("Jobs exist", |jobs| > 0)];
    var tail := if jobs != [] then FieldChecks(jobs[0], RequiredJobFields) else [];
    AllPassAppend(head, tail);
    assert |head| == 1 && head[0].1 == (|jobs| > 0);
    assert AllPass(head) <==> head[0].1;
    if jobs != [] {
      assert AllPass(tail) <==> forall k :: 0 <= k < |RequiredJobFields| ==> HasChild(jobs[0], RequiredJobFields[k]);
    }
  }

  /** Five checks without jobs, twelve with; without jobs the feed fails. */
  lemma CheckCount(root: Element, siteUrl: string)
    ensures var r := ReportFor(root, siteUrl);
      && |r.checks| == (if FindAll(root.children, "job") == [] then 5 else 12)
      && (FindAll(root.children, "job") == [] ==> !r.success && r.checks[4] == ("Jobs exist", false))
  {
  }

  /** A job element built from job data has every required field. */
  lemma JobElementHasRequiredFields(data: JobData, date: string)
    ensures forall f :: f in RequiredJobFields ==> HasChild(JobElement(BaseFields(data, date) + []), f)
  {
    var e := JobElement(BaseFields(data, date) + []);
    JobElementLayout(data, date, []);
    forall f | f in RequiredJobFields
      ensures HasChild(e, f)
    {
      var k :| 0 <= k < 7 && RequiredJobFields[k] == f;
      assert e.children[k].tag == f;
    }
  }

  /** Every element of a successful rebuild is a job element with every
      required field. */
  lemma BuiltJobsComplete(picked: seq<Integration>, jobs: map<string, JobOpening>, s: Settings, siteUrl: string)
    requires JobsFor(picked, jobs, s, siteUrl).Built?
    ensures var es := JobsFor(picked, jobs, s, siteUrl).elements;
      forall k :: 0 <= k < |es| ==> es[k].tag == "job" && forall f :: f in RequiredJobFields ==> HasChild(es[k], f)
  {
    var es := JobsFor(picked, jobs, s, siteUrl).elements;
    CollectSpec(Entries(picked, jobs, s, siteUrl));
    forall k | 0 <= k < |es|
      ensures es[k].tag == "job" && forall f :: f in RequiredJobFields ==> HasChild(es[k], f)
    {
      var jk := jobs[picked[k].jobOpening];
      var d := PrepareJobData(jk, s, siteUrl).value;
      assert es[k] == JobElement(BaseFields(d, jk.creation.value.rfc));
      assert BaseFields(d, jk.creation.value.rfc) + [] == BaseFields(d, jk.creation.value.rfc);
      JobElementHasRequiredFields(d, jk.creation.value.rfc);
    }
  }

  /** A feed written by a full rebuild that found jobs passes every check. */
  lemma RebuiltFeedPasses(picked: seq<Integration>, jobs: map<string, JobOpening>, s: Settings,
                          siteUrl: string, now: DateTime)
    ensures var b := JobsFor(picked, jobs, s, siteUrl);
      b.Built? && b.elements != [] ==> ReportFor(FeedRoot(s, siteUrl, now, b.elements), siteUrl).success
  {
    var b := JobsFor(picked, jobs, s, siteUrl);
    if b.Built? && b.elements != [] {
      var es := b.elements;
      var root := FeedRoot(s, siteUrl, now, es);
      BuiltJobsComplete(picked, jobs, s, siteUrl);
      var header := Header(s, siteUrl, now);
      FindAllAppend(header, es, "job");
      FindAllNoneTagged(header, "job");
      FindAllAllTagged(es, "job");
      assert root.children[0].tag == "publisher";
      assert root.children[1].tag == "publisherurl";
      assert root.children[2].tag == "lastBuildDate";
      ReportSuccessIff(root, siteUrl);
    }
  }
}
