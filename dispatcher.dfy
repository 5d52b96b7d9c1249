/** The posting dispatcher: the per-job state machine Draft -> Posted | Error
    of post_job_to_indeed and the three posting strategies it chooses between
    (indeed/indeed/utils.py:43-99, 142-219, 311-317). */
module Dispatcher {
  import opened Common
  import opened Platform
  import opened SettingsCache
  import opened JobIntegration
  import opened Feed
  import IntegrationSettings

  const AccessTokenMissing := "Access token not configured"
  const ThirdPartyMissing := "Third-party integration not implemented"
  const InvalidMethod := "Invalid integration method"
  const UnknownError := "Unknown error"

  /** What the GraphQL call to Indeed gives back: an HTTP reply (status code,
      body text, the `message` of each entry of createJob.errors, and the
      sourcedPostingId and jobUrl of createJob.job, "" when absent), or the
      message of an exception raised while sending or decoding it. */
  datatype ApiReply =
    | HttpReply(statusCode: int, body: string, errors: seq<Option<string>>, postingId: string, jobUrl: string)
    | Raised(msg: string)

  /** err.get("message", "") of each error entry. */
  function ErrorMessages(errors: seq<Option<string>>): (r: seq<string>)
    ensures |r| == |errors|
    ensures forall k :: 0 <= k < |errors| ==> r[k] == errors[k].GetOr("")
  {
    seq(|errors|, k requires 0 <= k < |errors| => errors[k].GetOr(""))
  }

  /** The result mapping of post_via_indeed_api. */
  function ApiStrategy(s: Settings, reply: ApiReply): (r: PostResponse)
    ensures r.success <==> s.accessToken != "" && reply.HttpReply? && reply.statusCode == 200 && reply.errors == []
    ensures r.success ==> r.jobId == reply.postingId && r.jobUrl == reply.jobUrl && r.error.None?
    ensures !r.success ==> r.error.Some?
    ensures s.accessToken == "" ==> r.error == Some(AccessTokenMissing)
    ensures s.accessToken != "" && reply.Raised? ==> r.error == Some(reply.msg)
    ensures s.accessToken != "" && reply.HttpReply? && reply.statusCode != 200 ==>
      r.error == Some("HTTP " + IntToString(reply.statusCode) + ": " + reply.body)
    ensures s.accessToken != "" && reply.HttpReply? && reply.statusCode == 200 && reply.errors != [] ==>
      r.error == Some(Join(ErrorMessages(reply.errors), "; "))
  {
    if s.accessToken == "" then Failure(AccessTokenMissing)
    else match reply
      case Raised(msg) => Failure(msg)
      case HttpReply(code, body, errors, postingId, jobUrl) =>
        if code != 200 then Failure("HTTP " + IntToString(code) + ": " + body)
        else if errors == [] then PostResponse(true, postingId, jobUrl, None)
        else Failure(Join(ErrorMessages(errors), "; "))
  }

  /** post_via_third_party: a placeholder that always fails. */
  function ThirdPartyStrategy(): (r: PostResponse)
    ensures !r.success && r.error == Some(ThirdPartyMissing)
  {
    Failure(ThirdPartyMissing)
  }

  /** The strategy the configured method selects, with the feed file it leaves. */
  function Dispatch(s: Settings, data: JobData, file: FeedFile, now: DateTime, siteUrl: string, reply: ApiReply)
    : (FeedFile, PostResponse)
  {
    if s.integrationMethod == "API" then (file, ApiStrategy(s, reply))
    else if s.integrationMethod == "XML_FEED" then XmlStrategy(file, data, now, siteUrl)
    else if s.integrationMethod == "THIRD_PARTY" then (file, ThirdPartyStrategy())
    else (file, Failure(InvalidMethod))
  }

  /** Only the API and XML feed strategies can succeed, only the XML feed
      strategy touches the feed file, and an unknown method is reported. */
  lemma DispatchOutcomes(s: Settings, data: JobData, file: FeedFile, now: DateTime, siteUrl: string, reply: ApiReply)
    ensures var (file', resp) := Dispatch(s, data, file, now, siteUrl, reply);
      && (resp.success ==> s.integrationMethod == "API" || s.integrationMethod == "XML_FEED")
      && (!resp.success ==> resp.error.Some?)
      && (s.integrationMethod != "XML_FEED" ==> file' == file)
      && (s.integrationMethod == "XML_FEED" ==> (resp.success <==> !file.Unparsable?))
      && (s.integrationMethod !in ["API", "XML_FEED", "THIRD_PARTY"] ==> resp.error == Some(InvalidMethod))
  {
  }

  /** The record frappe.new_doc creates before insert. */
  function NewRecord(name: string, job: string, integrationMethod: string): (r: Integration)
    ensures r.status == Draft && r.indeedJobId == "" && r.jobOpening == job && r.name == name
  {
    Integration(name, job, integrationMethod, Draft, "", "", "", None, None, false, "", "", "")
  }

  /** The record after the strategy's response is recorded. */
  function Finalize(rec: Integration, resp: PostResponse, integrationMethod: string, now: DateTime): (r: Integration)
    ensures r.name == rec.name && r.jobOpening == rec.jobOpening && r.lastSyncDate == Some(now)
    ensures resp.success ==> && r.status == Posted && r.postedDate == Some(now)
                             && r.indeedJobId == resp.jobId && r.jobUrl == resp.jobUrl
                             && r.errorMessage == rec.errorMessage
                             && r.xmlFeedIncluded == (rec.xmlFeedIncluded || integrationMethod == "XML_FEED")
    ensures !resp.success ==> && r.status == ErrorStatus && r.errorMessage == resp.error.GetOr(UnknownError)
                              && r.indeedJobId == rec.indeedJobId && r.postedDate == rec.postedDate
  {
    var r := if resp.success
      then rec.(status := Posted, postedDate := Some(now), indeedJobId := resp.jobId, jobUrl := resp.jobUrl,
                xmlFeedIncluded := rec.xmlFeedIncluded || integrationMethod == "XML_FEED")
      else rec.(status := ErrorStatus, errorMessage := resp.error.GetOr(UnknownError));
    r.(lastSyncDate := Some(now))
  }

  /** A record is created: auto-posting is on, no record of any status exists
      for the job, and the Job Opening exists so the insert succeeds. */
  predicate Attempted(s: Settings, recs: seq<Integration>, jobs: map<string, JobOpening>, job: string) {
    s.enableAutoPosting && FindByJob(recs, job).None? && job != "" && job in jobs
  }

  /** The status, dates, id, URL and error assignments on the record once the
      strategy has answered. */
  method RecordResponse(rec: Integration, resp: PostResponse, integrationMethod: string, now: DateTime)
    returns (r: Integration)
    ensures r == Finalize(rec, resp, integrationMethod, now)
  {
    r := rec;
    if resp.success {
      r := r.(status := Posted);
      r := r.(postedDate := Some(now));
      r := r.(indeedJobId := resp.jobId);
      r := r.(jobUrl := resp.jobUrl);
      if integrationMethod == "XML_FEED" {
        r := r.(xmlFeedIncluded := true);
      }
    } else {
      r := r.(status := ErrorStatus);
      r := r.(errorMessage := resp.error.GetOr(UnknownError));
    }
    r := r.(lastSyncDate := Some(now));
  }

  /** post_job_to_indeed, with `job` the Job Opening document passed in, `now`
      the clock, `newName` the name the platform gives the new record and
      `reply` what the Indeed API would answer. `draft` is the record as
      inserted. */
  method PostJobToIndeed(site: Site, job: JobOpening, now: DateTime, newName: string, reply: ApiReply)
    returns (ok: bool, ghost draft: Integration)
    requires site.Valid() && FreshName(site.integrations, newName)
    modifies site`cache, site`integrations, site`jobOpenings, site`feedFile
    ensures site.Valid()
    ensures site.cache == CacheAfterRead(old(site.cache), site.settingsDoc, now.instant)
    ensures var s := ReadSettings(old(site.cache), site.settingsDoc, now.instant);
      !Attempted(s, old(site.integrations), old(site.jobOpenings), job.name) ==>
        && !ok && site.integrations == old(site.integrations)
        && site.jobOpenings == old(site.jobOpenings) && site.feedFile == old(site.feedFile)
    ensures var s := ReadSettings(old(site.cache), site.settingsDoc, now.instant);
      Attempted(s, old(site.integrations), old(site.jobOpenings), job.name) ==>
        AttemptEffect(site, old(site.integrations), old(site.jobOpenings), old(site.feedFile),
                      s, job, now, newName, reply, ok, draft)
    ensures PostOutcome(site, old(site.integrations), old(site.jobOpenings), old(site.feedFile), old(site.cache),
                        job, now, newName, reply, ok)
  {
    draft := NewRecord(newName, job.name, "");
    var s := GetIntegrationSettings(site, now.instant);
    if !s.enableAutoPosting {
      return false, draft;
    }
    if FindByJob(site.integrations, job.name).Some? {
      return false, draft;
    }
    ok, draft := Attempt(site, job, s, now, newName, reply);
  }

  /** The attempt itself: the Draft record is inserted and, once inserted,
      posted through the configured strategy. */
  method Attempt(site: Site, job: JobOpening, s: Settings, now: DateTime, newName: string, reply: ApiReply)
    returns (ok: bool, ghost draft: Integration)
    requires site.Valid() && FreshName(site.integrations, newName)
    requires s.enableAutoPosting && FindByJob(site.integrations, job.name).None?
    modifies site`integrations, site`jobOpenings, site`feedFile
    ensures site.Valid()
    ensures !Attempted(s, old(site.integrations), old(site.jobOpenings), job.name) ==>
      && !ok && site.integrations == old(site.integrations)
      && site.jobOpenings == old(site.jobOpenings) && site.feedFile == old(site.feedFile)
    ensures Attempted(s, old(site.integrations), old(site.jobOpenings), job.name) ==>
      AttemptEffect(site, old(site.integrations), old(site.jobOpenings), old(site.feedFile),
                    s, job, now, newName, reply, ok, draft)
  {
    draft := NewRecord(newName, job.name, "");
    ghost var recs0, jobs0, file0 := site.integrations, site.jobOpenings, site.feedFile;
    var inserted := InsertIntegration(site, NewRecord(newName, job.name, s.integrationMethod));
    if inserted.Err? {
      return false, draft;
    }
    draft := inserted.value;
    assert site.jobOpenings == jobs0;
    WellFormedAppend(recs0, draft);
    ghost var recs1 := site.integrations;
    ok, draft := PostInserted(site, job, s, now, reply, inserted.value);
    assert |site.integrations| - 1 == |recs0|;
    AttemptEffectOf(site, recs0, jobs0, file0, recs1, s, job, now, newName, reply, ok, draft);
  }

  /** The facts insert and PostInserted leave behind make up AttemptEffect. */
  lemma AttemptEffectOf(site: Site, recs0: seq<Integration>, jobs0: map<string, JobOpening>, file0: FeedFile,
                        recs1: seq<Integration>, s: Settings, job: JobOpening, now: DateTime, newName: string,
                        reply: ApiReply, ok: bool, draft: Integration)
    requires job.name in jobs0
    requires DerivedFrom(draft, NewRecord(newName, job.name, s.integrationMethod), jobs0[job.name], site.currencySymbols, site.siteUrl)
    requires recs1 == recs0 + [draft]
    requires |site.integrations| == |recs1| && site.integrations[..|recs0|] == recs1[..|recs0|]
    requires job.creation.None? ==>
      !ok && site.integrations == recs1 && site.jobOpenings == jobs0 && site.feedFile == file0
    requires job.creation.Some? ==>
      var (file', resp) := Dispatch(s, PrepareJobData(job, s, site.siteUrl).value, file0, now, site.siteUrl, reply);
      && ok == resp.success && site.feedFile == file'
      && site.integrations[|recs0|] == Finalize(draft, resp, s.integrationMethod, now)
      && site.jobOpenings == OnUpdate(site.integrations[|recs0|], jobs0)
    ensures AttemptEffect(site, recs0, jobs0, file0, s, job, now, newName, reply, ok, draft)
  {
    assert recs1[..|recs0|] == recs0;
  }

  /** Appending a record with a fresh name for a job without a record keeps
      names unique and one record per job. */
  lemma WellFormedAppend(recs: seq<Integration>, r: Integration)
    requires WellFormed(recs) && FreshName(recs, r.name) && FindByJob(recs, r.jobOpening).None?
    ensures WellFormed(recs + [r])
  {
  }

  /** What a posting attempt leaves: one new record, derived from the Job
      Opening, still Draft when the job data cannot be built, otherwise
      finalized with the strategy's response, which the Job Opening also
      receives through on_update. */
  ghost predicate AttemptEffect(site: Site, recs: seq<Integration>, jobs: map<string, JobOpening>, file: FeedFile,
                                s: Settings, job: JobOpening, now: DateTime, newName: string, reply: ApiReply,
                                ok: bool, draft: Integration)
    requires job.name in jobs
    reads site
  {
    && |site.integrations| == |recs| + 1
    && site.integrations[..|recs|] == recs
    && DerivedFrom(draft, NewRecord(newName, job.name, s.integrationMethod), jobs[job.name], site.currencySymbols, site.siteUrl)
    && (job.creation.None? ==>
          && !ok && site.integrations[|recs|] == draft && draft.status == Draft
          && site.jobOpenings == jobs && site.feedFile == file)
    && (job.creation.Some? ==>
          var (file', resp) := Dispatch(s, PrepareJobData(job, s, site.siteUrl).value, file, now, site.siteUrl, reply);
          && ok == resp.success && site.feedFile == file'
          && site.integrations[|recs|] == Finalize(draft, resp, s.integrationMethod, now)
          && site.jobOpenings == OnUpdate(site.integrations[|recs|], jobs))
  }

  /** A successful attempt leaves one new record, for the job and Posted,
      after the records that were there. */
  lemma SuccessfulAttempt(site: Site, recs: seq<Integration>, jobs: map<string, JobOpening>, file: FeedFile,
                          s: Settings, job: JobOpening, now: DateTime, newName: string, reply: ApiReply,
                          draft: Integration)
    requires job.name in jobs
    requires AttemptEffect(site, recs, jobs, file, s, job, now, newName, reply, true, draft)
    ensures |site.integrations| == |recs| + 1 && site.integrations[..|recs|] == recs
    ensures site.integrations[|recs|].jobOpening == job.name && site.integrations[|recs|].status == Posted
  {
  }

  /** The site after post_job_to_indeed for `job` under the record name
      `newName`, from the records, Job Openings, feed file and cache before:
      the settings are read through the cache, then the post is either
      refused, changing nothing more, or attempted as `AttemptEffect` says,
      with `ok` its answer. */
  ghost predicate PostOutcome(site: Site, recs0: seq<Integration>, jobs0: map<string, JobOpening>, feed0: FeedFile,
                              cache0: map<string, CacheEntry>, job: JobOpening, now: DateTime, newName: string,
                              reply: ApiReply, ok: bool)
    reads site
  {
    var s := ReadSettings(cache0, site.settingsDoc, now.instant);
    && site.cache == CacheAfterRead(cache0, site.settingsDoc, now.instant)
    && (!Attempted(s, recs0, jobs0, job.name) ==>
          !ok && site.integrations == recs0 && site.jobOpenings == jobs0 && site.feedFile == feed0)
    && (Attempted(s, recs0, jobs0, job.name) ==>
          exists draft :: AttemptEffect(site, recs0, jobs0, feed0, s, job, now, newName, reply, ok, draft))
  }

  /** After post_job_to_indeed one record was appended exactly when the post
      was attempted, and it is for the job; the answer is a success exactly
      when that record is Posted; the Job Openings change only through that
      record's on_update. */
  lemma {:induction false} PostOutcomeRecords(site: Site, recs0: seq<Integration>, jobs0: map<string, JobOpening>,
                                              feed0: FeedFile, cache0: map<string, CacheEntry>, job: JobOpening,
                                              now: DateTime, newName: string, reply: ApiReply, ok: bool)
    requires PostOutcome(site, recs0, jobs0, feed0, cache0, job, now, newName, reply, ok)
    ensures |recs0| <= |site.integrations| <= |recs0| + 1 && site.integrations[..|recs0|] == recs0
    ensures |site.integrations| == |recs0| + 1 <==>
      Attempted(ReadSettings(cache0, site.settingsDoc, now.instant), recs0, jobs0, job.name)
    ensures |site.integrations| == |recs0| + 1 ==> site.integrations[|recs0|].jobOpening == job.name
    ensures ok <==> |site.integrations| == |recs0| + 1 && site.integrations[|recs0|].status == Posted
    ensures site.jobOpenings == jobs0
         || (|site.integrations| == |recs0| + 1 && site.jobOpenings == OnUpdate(site.integrations[|recs0|], jobs0))
  {
    var s := ReadSettings(cache0, site.settingsDoc, now.instant);
    if Attempted(s, recs0, jobs0, job.name) {
      var draft :| AttemptEffect(site, recs0, jobs0, feed0, s, job, now, newName, reply, ok, draft);
      assert draft.jobOpening == job.name;
      if job.creation.Some? {
        var resp := Dispatch(s, PrepareJobData(job, s, site.siteUrl).value, feed0, now, site.siteUrl, reply).1;
        assert site.integrations[|recs0|] == Finalize(draft, resp, s.integrationMethod, now);
      }
    } else {
      assert site.integrations[..|recs0|] == recs0;
    }
  }

  /** The part of post_job_to_indeed after the Draft record `draft` was inserted. */
  method PostInserted(site: Site, job: JobOpening, s: Settings, now: DateTime, reply: ApiReply, draft: Integration)
    returns (ok: bool, ghost draft': Integration)
    requires |site.integrations| >= 1 && site.integrations[|site.integrations| - 1] == draft
    requires draft.jobOpening in site.jobOpenings && draft.jobOpening != "" && draft.indeedJobId == ""
    requires site.Valid()
    modifies site`integrations, site`jobOpenings, site`feedFile
    ensures draft' == draft && site.Valid()
    ensures |site.integrations| == old(|site.integrations|)
    ensures site.integrations[..|site.integrations| - 1] == old(site.integrations)[..|site.integrations| - 1]
    ensures job.creation.None? ==> !ok && unchanged(site)
    ensures job.creation.Some? ==>
      var (file', resp) := Dispatch(s, PrepareJobData(job, s, site.siteUrl).value, old(site.feedFile), now, site.siteUrl, reply);
      && ok == resp.success && site.feedFile == file'
      && site.integrations[|site.integrations| - 1] == Finalize(draft, resp, s.integrationMethod, now)
      && site.jobOpenings == OnUpdate(site.integrations[|site.integrations| - 1], old(site.jobOpenings))
  {
    draft' := draft;
    var prepared := PrepareJobData(job, s, site.siteUrl);
    if prepared.Err? {
      return false, draft';
    }
    var resp := DispatchStrategy(site, s, prepared.value, now, reply);
    var rec := RecordResponse(draft, resp, s.integrationMethod, now);
    ghost var recs0, jobs0 := site.integrations, site.jobOpenings;
    WellFormedReplace(recs0, |recs0| - 1, rec);
    var saved := SaveIntegration(site, |site.integrations| - 1, rec);
    assert saved.Pass?;
    OnUpdateKeepsNames(rec, jobs0);
    ok := resp.success;
  }

  /** The strategy branch of post_job_to_indeed: the configured strategy is
      called, and only the XML feed strategy writes the feed file. */
  method DispatchStrategy(site: Site, s: Settings, data: JobData, now: DateTime, reply: ApiReply)
    returns (resp: PostResponse)
    modifies site`feedFile
    ensures (site.feedFile, resp) == Dispatch(s, data, old(site.feedFile), now, site.siteUrl, reply)
  {
    if s.integrationMethod == "API" {
      resp := ApiStrategy(s, reply);
    } else if s.integrationMethod == "XML_FEED" {
      resp := AddToXmlFeed(site, data, now);
    } else if s.integrationMethod == "THIRD_PARTY" {
      resp := ThirdPartyStrategy();
    } else {
      resp := Failure(InvalidMethod);
    }
  }

  /** The settings check demands an API key but the API strategy reads the
      access token: settings that pass validation with the API method can
      still fail every posting. */
  lemma ValidatedApiSettingsWithoutToken(s: Settings, reply: ApiReply)
    requires s.enableAutoPosting && s.integrationMethod == "API"
    requires s.apiKey != "" && s.company != "" && s.accessToken == ""
    ensures IntegrationSettings.Validate(s) == Pass
    ensures ApiStrategy(s, reply) == Failure(AccessTokenMissing)
  {
  }
}
