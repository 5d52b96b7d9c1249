/** Bulk operations over selected Job Openings: the per-job dispatch, the
    removal of a job's integration record from the feed, and the aggregation
    of the per-job results (indeed/indeed/bulk_operations.py:7-134). */
module BulkOperations {
  import opened Common
  import opened Platform
  import opened JobIntegration
  import opened Feed
  import opened Dispatcher
  import opened Regenerator
  import opened SettingsCache

  const UpdateJobStatus := "Update Job Status"
  const PostToIndeed := "Post to Indeed"
  const RemoveFromIndeed := "Remove from Indeed"
  const ExportSelected := "Export Selected"
  const EnablePosting := "Enable Indeed Posting"
  const DisablePosting := "Disable Indeed Posting"
  const ForceRefresh := "Force Refresh"

  const RemovedMessage := "Removed from Indeed feed"

  /** The first part of the message of the TimestampMismatchError raised by
      saving a copy of a document that was written after it was loaded. */
  const DocumentModified := "Error: Document has been modified after you have opened it"

  /** The message of the TypeError raised when None is subscripted. */
  const NoneNotSubscriptable := "'NoneType' object is not subscriptable"

  /** The dict process_single_job returns for one job. */
  datatype JobResult = JobResult(job: string, success: bool, message: string)

  /** What one call of process_single_job does: return a result, return None
      (a "Post to Indeed" request with an unrecognised action), or raise. */
  datatype Processed = Returned(result: JobResult) | ReturnedNone | Threw(msg: string)

  /** The dict execute_bulk_operation returns, or the exception it raises. */
  datatype BulkResponse =
    | BulkDone(success: bool, summary: string, resultsText: string, details: seq<JobResult>)
    | BulkRaised(error: string)

  /** The platform's autoname for a new integration record: a name longer
      than every existing one, hence used by none. */
  function NextName(recs: seq<Integration>): (n: string)
    ensures FreshName(recs, n)
  {
    var longest := LongestName(recs);
    seq(longest + 1, _ => 'x')
  }

  function LongestName(recs: seq<Integration>): (m: nat)
    ensures forall k :: 0 <= k < |recs| ==> |recs[k].name| <= m
  {
    if recs == [] then 0
    else
      var rest := LongestName(recs[1..]);
      assert forall k :: 1 <= k < |recs| ==> recs[k] == recs[1..][k - 1];
      if |recs[0].name| > rest then |recs[0].name| else rest
  }

  /** The result, as process_single_job reports it, once the Job Opening has
      loaded, for the operations that change nothing or only the job's status;
      None for the operations whose result depends on what they do. */
  function PlainResult(name: string, j: JobOpening, operation: string, newStatus: string, action: string): Option<JobResult> {
    if operation == UpdateJobStatus then
      if newStatus == "" then Some(JobResult(name, false, "New status required"))
      else Some(JobResult(name, true, "Status updated from " + j.status + " to " + newStatus))
    else if operation == PostToIndeed then
      if action == DisablePosting then Some(JobResult(name, true, "Disabled Indeed posting"))
      else if action == ForceRefresh then Some(JobResult(name, true, "XML feed refreshed"))
      else None
    else if operation == RemoveFromIndeed then None
    else if operation == ExportSelected then Some(JobResult(name, true, "Included in export"))
    else Some(JobResult(name, false, "Unknown operation: " + operation))
  }

  /** The form process_single_job's outcome takes for the job `name`, given
      only the request and the Job Opening table. */
  predicate ResultShape(p: Processed, name: string, jobs: map<string, JobOpening>,
                        operation: string, newStatus: string, action: string)
  {
    if name !in jobs then p == Threw(NotFound("Job Opening", name))
    else if operation == PostToIndeed && action == EnablePosting then
      && p.Returned? && p.result.job == name
      && p.result.message == (if p.result.success then "Enabled and posted to Indeed" else "Enabled but posting failed")
    else if operation == PostToIndeed && action != DisablePosting && action != ForceRefresh then
      p == ReturnedNone
    else if operation == RemoveFromIndeed then
      p == Returned(JobResult(name, true, RemovedMessage)) || p == Threw(DocumentModified)
    else
      PlainResult(name, jobs[name], operation, newStatus, action).Some?
      && p == Returned(PlainResult(name, jobs[name], operation, newStatus, action).value)
  }

  /** remove_from_indeed_feed: the job's first integration record, if any, is
      set to Removed and saved; `o` is Fail when that save's validation raises. */
  method RemoveFromIndeedFeed(site: Site, name: string) returns (o: Outcome)
    requires site.Valid()
    modifies site`integrations, site`jobOpenings
    ensures site.Valid()
    ensures FindByJob(old(site.integrations), name).None? ==>
      o == Pass && site.integrations == old(site.integrations) && site.jobOpenings == old(site.jobOpenings)
    ensures FindByJob(old(site.integrations), name).Some? ==>
      var k := FindByJob(old(site.integrations), name).value;
      var rec := old(site.integrations)[k].(status := Removed);
      && o == Validate(rec, old(site.jobOpenings))
      && (o.Pass? ==> site.integrations == old(site.integrations)[k := rec]
                      && site.jobOpenings == OnUpdate(rec, old(site.jobOpenings)))
      && (o.Fail? ==> site.integrations == old(site.integrations) && site.jobOpenings == old(site.jobOpenings))
  {
    var found := FindByJob(site.integrations, name);
    if found.None? {
      return Pass;
    }
    var rec := site.integrations[found.value].(status := Removed);
    ghost var recs0, jobs0 := site.integrations, site.jobOpenings;
    o := SaveIntegration(site, found.value, rec);
    WellFormedReplace(recs0, found.value, rec);
    OnUpdateKeepsNames(rec, jobs0);
  }

  /** Setting xml_feed_included keeps names and Job Openings, so the table
      stays well formed. */
  lemma MarkIncludedWellFormed(recs: seq<Integration>, idx: seq<nat>)
    requires WellFormed(recs)
    ensures WellFormed(MarkIncluded(recs, idx))
  {
    var m := MarkIncluded(recs, idx);
    assert forall k :: 0 <= k < |recs| ==> m[k].name == recs[k].name && m[k].jobOpening == recs[k].jobOpening;
  }

  /** The Job Opening saved with a changed field keeps its name. */
  lemma SaveJobKeepsValid(site: Site, j: JobOpening)
    requires site.Valid() && j.name in site.jobOpenings
    ensures var jobs := site.jobOpenings[j.name := j]; forall n :: n in jobs ==> jobs[n].name == n
  {
  }

  /** "Post to Indeed" with "Enable Indeed Posting": the flag is set and
      saved, then the job is posted through post_job_to_indeed. */
  method EnableAndPost(site: Site, j: JobOpening, now: DateTime, reply: ApiReply) returns (r: JobResult)
    requires site.Valid() && j.name in site.jobOpenings && site.jobOpenings[j.name] == j
    modifies site`cache, site`integrations, site`jobOpenings, site`feedFile
    ensures site.Valid()
    ensures r.job == j.name
    ensures r.message == (if r.success then "Enabled and posted to Indeed" else "Enabled but posting failed")
    ensures r.success ==>
      && |site.integrations| == old(|site.integrations|) + 1
      && site.integrations[..old(|site.integrations|)] == old(site.integrations)
      && site.integrations[old(|site.integrations|)].jobOpening == j.name
      && site.integrations[old(|site.integrations|)].status == Posted
    ensures EnableEffect(site, old(site.integrations), old(site.jobOpenings), old(site.feedFile), old(site.cache),
                         j, now, reply, r.success)
  {
    var job := j.(customPostToIndeed := true);
    SaveJobKeepsValid(site, job);
    site.jobOpenings := site.jobOpenings[job.name := job];
    ghost var recs0 := site.integrations;
    var ok, draft := PostJobToIndeed(site, job, now, NextName(site.integrations), reply);
    if ok {
      return JobResult(j.name, true, "Enabled and posted to Indeed");
    }
    r := JobResult(j.name, false, "Enabled but posting failed");
  }

  /** The site after "Enable Indeed Posting" on `j`, from the records, Job
      Openings, feed file and cache before: the job is saved with the flag
      set, then post_job_to_indeed reads the settings through the cache and
      either refuses, changing nothing more, or attempts the post with a new
      record named by the autoname. */
  ghost predicate EnableEffect(site: Site, recs0: seq<Integration>, jobs0: map<string, JobOpening>, feed0: FeedFile,
                               cache0: map<string, CacheEntry>, j: JobOpening, now: DateTime, reply: ApiReply,
                               success: bool)
    reads site
  {
    var job := j.(customPostToIndeed := true);
    PostOutcome(site, recs0, jobs0[j.name := job], feed0, cache0, job, now, NextName(recs0), reply, success)
  }

  /** After "Enable Indeed Posting" the job is flagged for Indeed and no other
      Job Opening changed; a success appended one Posted record for the job,
      and a failure left at most one new record, which is not Posted. */
  lemma {:induction false} EnableSetsFlag(site: Site, recs0: seq<Integration>, jobs0: map<string, JobOpening>, feed0: FeedFile,
                                          cache0: map<string, CacheEntry>, j: JobOpening, now: DateTime, reply: ApiReply,
                                          success: bool)
    requires j.name in jobs0 && jobs0[j.name] == j
    requires EnableEffect(site, recs0, jobs0, feed0, cache0, j, now, reply, success)
    ensures site.jobOpenings.Keys == jobs0.Keys
    ensures site.jobOpenings[j.name].customPostToIndeed
    ensures forall n :: n in jobs0 && n != j.name ==> site.jobOpenings[n] == jobs0[n]
    ensures |recs0| <= |site.integrations| <= |recs0| + 1 && site.integrations[..|recs0|] == recs0
    ensures |site.integrations| == |recs0| + 1 ==> site.integrations[|recs0|].jobOpening == j.name
    ensures success ==> |site.integrations| == |recs0| + 1 && site.integrations[|recs0|].status == Posted
    ensures !success && |site.integrations| == |recs0| + 1 ==> site.integrations[|recs0|].status != Posted
  {
    var job := j.(customPostToIndeed := true);
    var jobs1 := jobs0[j.name := job];
    PostOutcomeRecords(site, recs0, jobs1, feed0, cache0, job, now, NextName(recs0), reply, success);
    if site.jobOpenings != jobs1 {
      assert site.integrations[|recs0|].jobOpening == j.name;
    }
  }

  /** The Job Opening table after "Disable Indeed Posting" on `j`: the job is
      saved with the flag cleared, then saving its first record as Removed
      runs on_update, which copies the record's Indeed id into the job. */
  function AfterDisable(jobs: map<string, JobOpening>, recs: seq<Integration>, j: JobOpening): (r: map<string, JobOpening>)
    requires j.name in jobs
    ensures r.Keys == jobs.Keys
    ensures !r[j.name].customPostToIndeed
    ensures forall n :: n in jobs && n != j.name ==> r[n] == jobs[n]
    ensures Stamped(recs, j.name) && j.name != "" ==>
      r[j.name] == j.(customPostToIndeed := false, customIndeedJobId := recs[FindByJob(recs, j.name).value].indeedJobId)
    ensures !Stamped(recs, j.name) ==> r[j.name] == j.(customPostToIndeed := false)
  {
    var cleared := jobs[j.name := j.(customPostToIndeed := false)];
    match FindByJob(recs, j.name)
    case None => cleared
    case Some(k) => OnUpdate(recs[k].(status := Removed), cleared)
  }

  /** "Post to Indeed" with "Disable Indeed Posting": the flag is cleared and
      saved, then the job's record is removed from the feed. */
  method DisableAndRemove(site: Site, j: JobOpening) returns (r: JobResult)
    requires site.Valid() && j.name in site.jobOpenings && site.jobOpenings[j.name] == j
    modifies site`integrations, site`jobOpenings
    ensures site.Valid()
    ensures r == JobResult(j.name, true, "Disabled Indeed posting")
    ensures FindByJob(old(site.integrations), j.name).None? ==>
      && site.integrations == old(site.integrations)
      && site.jobOpenings == old(site.jobOpenings)[j.name := j.(customPostToIndeed := false)]
    ensures FindByJob(old(site.integrations), j.name).Some? ==>
      var k := FindByJob(old(site.integrations), j.name).value;
      var rec := old(site.integrations)[k].(status := Removed);
      && site.integrations == old(site.integrations)[k := rec]
      && site.jobOpenings == OnUpdate(rec, old(site.jobOpenings)[j.name := j.(customPostToIndeed := false)])
    ensures site.integrations == RemoveRecord(old(site.integrations), j.name)
    ensures site.jobOpenings == AfterDisable(old(site.jobOpenings), old(site.integrations), j)
  {
    var job := j.(customPostToIndeed := false);
    SaveJobKeepsValid(site, job);
    site.jobOpenings := site.jobOpenings[job.name := job];
    var o := RemoveFromIndeedFeed(site, j.name);
    r := JobResult(j.name, true, "Disabled Indeed posting");
  }

  /** The job's first record, if any, is Removed; the rest of the table
      stays as it was. */
  function RemoveRecord(recs: seq<Integration>, name: string): (r: seq<Integration>)
    ensures |r| == |recs|
    ensures FindByJob(recs, name).None? ==> r == recs
    ensures FindByJob(recs, name).Some? ==>
      var k := FindByJob(recs, name).value;
      r[k] == recs[k].(status := Removed) && forall i :: 0 <= i < |recs| && i != k ==> r[i] == recs[i]
  {
    match FindByJob(recs, name)
    case None => recs
    case Some(k) => recs[k := recs[k].(status := Removed)]
  }

  /** Whether saving the job's record runs on_update's set_value on the Job
      Opening, which writes it and stamps a new modified time: the job has a
      record and the record carries an Indeed id. */
  predicate Stamped(recs: seq<Integration>, name: string) {
    FindByJob(recs, name).Some? && recs[FindByJob(recs, name).value].indeedJobId != ""
  }

  /** The Job Opening `j` after "Remove from Indeed", given the records before:
      a stamped job keeps its flag and takes the record's Indeed id; any other
      job has its flag cleared. */
  function AfterRemoval(j: JobOpening, recs: seq<Integration>): (r: JobOpening)
    ensures r.name == j.name
    ensures Stamped(recs, j.name) ==>
      r == j.(customIndeedJobId := recs[FindByJob(recs, j.name).value].indeedJobId) && r.customPostToIndeed == j.customPostToIndeed
    ensures !Stamped(recs, j.name) ==> r == j.(customPostToIndeed := false) && !r.customPostToIndeed
  {
    if Stamped(recs, j.name) then j.(customIndeedJobId := recs[FindByJob(recs, j.name).value].indeedJobId)
    else j.(customPostToIndeed := false)
  }

  /** "Remove from Indeed": the job's record is removed from the feed, then
      the Job Opening as loaded before is saved with the flag cleared. When
      the record carries an Indeed id, on_update's set_value has written the
      Job Opening in between, so saving the stale copy raises and the flag
      stays set; the record stays Removed and the id copied. */
  method RemoveAndClear(site: Site, j: JobOpening) returns (p: Processed)
    requires site.Valid() && j.name in site.jobOpenings && site.jobOpenings[j.name] == j
    modifies site`integrations, site`jobOpenings
    ensures site.Valid()
    ensures p == if Stamped(old(site.integrations), j.name) then Threw(DocumentModified)
                 else Returned(JobResult(j.name, true, RemovedMessage))
    ensures site.integrations == RemoveRecord(old(site.integrations), j.name)
    ensures site.jobOpenings == old(site.jobOpenings)[j.name := AfterRemoval(j, old(site.integrations))]
  {
    var stamped := Stamped(site.integrations, j.name);
    var o := RemoveFromIndeedFeed(site, j.name);
    if stamped {
      return Threw(DocumentModified);
    }
    var job := j.(customPostToIndeed := false);
    SaveJobKeepsValid(site, job);
    site.jobOpenings := site.jobOpenings[job.name := job];
    p := Returned(JobResult(j.name, true, RemovedMessage));
  }

  /** process_single_job for the job `name`, with `now` the clock and `reply`
      what the Indeed API would answer if the job is posted. */
  method ProcessSingleJob(site: Site, name: string, operation: string, newStatus: string, action: string,
                          now: DateTime, reply: ApiReply)
    returns (p: Processed)
    requires site.Valid()
    modifies site`cache, site`integrations, site`jobOpenings, site`feedFile
    ensures site.Valid()
    ensures ResultShape(p, name, old(site.jobOpenings), operation, newStatus, action)
    ensures (|| name !in old(site.jobOpenings) || p.ReturnedNone? || Inert(operation, newStatus)) ==>
      && site.integrations == old(site.integrations) && site.jobOpenings == old(site.jobOpenings)
      && site.feedFile == old(site.feedFile) && site.cache == old(site.cache)
    ensures name in old(site.jobOpenings) && operation == UpdateJobStatus && newStatus != "" ==>
      && site.jobOpenings == old(site.jobOpenings)[name := old(site.jobOpenings)[name].(status := newStatus)]
      && site.integrations == old(site.integrations) && site.feedFile == old(site.feedFile) && site.cache == old(site.cache)
    ensures name in old(site.jobOpenings) && operation == RemoveFromIndeed ==>
      && p == (if Stamped(old(site.integrations), name) then Threw(DocumentModified)
               else Returned(JobResult(name, true, RemovedMessage)))
      && site.integrations == RemoveRecord(old(site.integrations), name)
      && site.jobOpenings == old(site.jobOpenings)[name := AfterRemoval(old(site.jobOpenings)[name], old(site.integrations))]
      && site.feedFile == old(site.feedFile) && site.cache == old(site.cache)
    ensures name in old(site.jobOpenings) && operation == PostToIndeed ==>
      PostEffect(site, old(site.integrations), old(site.jobOpenings), old(site.feedFile), old(site.cache),
                 old(site.jobOpenings)[name], action, now, reply, p)
  {
    if name !in site.jobOpenings {
      return Threw(NotFound("Job Opening", name));
    }
    var job := site.jobOpenings[name];
    if operation == UpdateJobStatus {
      if newStatus == "" {
        return Returned(JobResult(name, false, "New status required"));
      }
      var oldStatus := job.status;
      job := job.(status := newStatus);
      SaveJobKeepsValid(site, job);
      site.jobOpenings := site.jobOpenings[name := job];
      return Returned(JobResult(name, true, "Status updated from " + oldStatus + " to " + newStatus));
    } else if operation == PostToIndeed {
      p := PostAction(site, job, newStatus, action, now, reply);
      return;
    } else if operation == RemoveFromIndeed {
      p := RemoveAndClear(site, job);
      return;
    } else if operation == ExportSelected {
      return Returned(JobResult(name, true, "Included in export"));
    }
    p := Returned(JobResult(name, false, "Unknown operation: " + operation));
  }

  /** The site after the "Post to Indeed" operation on the existing job `j`,
      by action: Enable sets the flag and posts, Disable clears the flag and
      removes the record, Force Refresh rebuilds the feed, and any other
      action changes nothing. */
  ghost predicate PostEffect(site: Site, recs0: seq<Integration>, jobs0: map<string, JobOpening>, feed0: FeedFile,
                             cache0: map<string, CacheEntry>, j: JobOpening, action: string, now: DateTime,
                             reply: ApiReply, p: Processed)
    requires j.name in jobs0
    reads site
  {
    if action == EnablePosting then
      p.Returned? && EnableEffect(site, recs0, jobs0, feed0, cache0, j, now, reply, p.result.success)
    else if action == DisablePosting then
      && site.integrations == RemoveRecord(recs0, j.name) && site.jobOpenings == AfterDisable(jobs0, recs0, j)
      && site.feedFile == feed0 && site.cache == cache0
    else if action == ForceRefresh then
      site.jobOpenings == jobs0 && Refreshed(site, recs0, feed0, cache0, now)
    else
      site.integrations == recs0 && site.jobOpenings == jobs0 && site.feedFile == feed0 && site.cache == cache0
  }

  /** The "Post to Indeed" operation on one existing job, by action; an
      unrecognised action returns None and changes nothing. */
  method PostAction(site: Site, job: JobOpening, newStatus: string, action: string, now: DateTime, reply: ApiReply)
    returns (p: Processed)
    requires site.Valid() && job.name in site.jobOpenings && site.jobOpenings[job.name] == job
    modifies site`cache, site`integrations, site`jobOpenings, site`feedFile
    ensures site.Valid()
    ensures ResultShape(p, job.name, old(site.jobOpenings), PostToIndeed, newStatus, action)
    ensures p.ReturnedNone? ==>
      && site.integrations == old(site.integrations) && site.jobOpenings == old(site.jobOpenings)
      && site.feedFile == old(site.feedFile) && site.cache == old(site.cache)
    ensures PostEffect(site, old(site.integrations), old(site.jobOpenings), old(site.feedFile), old(site.cache),
                       job, action, now, reply, p)
  {
    if action == EnablePosting {
      var r := EnableAndPost(site, job, now, reply);
      return Returned(r);
    } else if action == DisablePosting {
      var r := DisableAndRemove(site, job);
      return Returned(r);
    } else if action == ForceRefresh {
      var r := RefreshFeed(site, job, now);
      return Returned(r);
    }
    return ReturnedNone;
  }

  /** "Post to Indeed" with "Force Refresh": the feed is regenerated, and the
      job's result reports the refresh whatever the regeneration answered. */
  method RefreshFeed(site: Site, j: JobOpening, now: DateTime) returns (r: JobResult)
    requires site.Valid()
    modifies site`cache, site`integrations, site`feedFile
    ensures site.Valid()
    ensures r == JobResult(j.name, true, "XML feed refreshed")
    ensures Refreshed(site, old(site.integrations), old(site.feedFile), old(site.cache), now)
  {
    ghost var recs0 := site.integrations;
    var _ := RegenerateXmlFeed(site, now);
    MarkIncludedWellFormed(recs0, LiveIndices(recs0));
    MarkIncludedPrefixWellFormed(recs0, LiveIndices(recs0));
    r := JobResult(j.name, true, "XML feed refreshed");
  }

  /** Every prefix of the selection marks a well-formed table too. */
  lemma MarkIncludedPrefixWellFormed(recs: seq<Integration>, sel: seq<nat>)
    requires WellFormed(recs)
    ensures forall d :: 0 <= d <= |sel| ==> WellFormed(MarkIncluded(recs, sel[..d]))
  {
    forall d | 0 <= d <= |sel|
      ensures WellFormed(MarkIncluded(recs, sel[..d]))
    {
      MarkIncludedWellFormed(recs, sel[..d]);
    }
  }

  /** The running totals of the loop of execute_bulk_operation: the results
      list (None where process_single_job returned None) and the two counters. */
  datatype Totals = Totals(details: seq<Option<JobResult>>, successes: nat, errors: nat)

  /** The error result recorded for a job whose processing raised `msg`. */
  function ErrorResult(name: string, msg: string): JobResult {
    JobResult(name, false, "Error: " + msg)
  }

  /** The totals after the jobs `names`, whose processing gave `trace`. */
  function Tally(trace: seq<Processed>, names: seq<string>): Totals
    requires |trace| == |names|
  {
    if trace == [] then Totals([], 0, 0)
    else
      var n := |trace| - 1;
      var t := Tally(trace[..n], names[..n]);
      match trace[n]
      case Returned(r) =>
        if r.success then Totals(t.details + [Some(r)], t.successes + 1, t.errors)
        else Totals(t.details + [Some(r)], t.successes, t.errors + 1)
      case ReturnedNone =>
        // None is appended, then subscripting it raises and the handler appends the error result
        Totals(t.details + [None, Some(ErrorResult(names[n], NoneNotSubscriptable))], t.successes, t.errors + 1)
      case Threw(m) => Totals(t.details + [Some(ErrorResult(names[n], m))], t.successes, t.errors + 1)
  }

  /** The result a job contributes when its processing did not return None. */
  function ResultOf(p: Processed, name: string): JobResult
    requires !p.ReturnedNone?
  {
    if p.Returned? then p.result else ErrorResult(name, p.msg)
  }

  function Summary(successes: nat, errors: nat): string {
    "Operation completed: " + NatToString(successes) + " successful, " + NatToString(errors) + " errors"
  }

  /** One line of the results text. */
  function ResultLine(r: JobResult): string {
    "• " + r.job + ": " + r.message
  }

  function Unwrap(details: seq<Option<JobResult>>): (r: seq<JobResult>)
    requires forall k :: 0 <= k < |details| ==> details[k].Some?
    ensures |r| == |details| && forall k :: 0 <= k < |details| ==> details[k] == Some(r[k])
  {
    seq(|details|, k requires 0 <= k < |details| => details[k].value)
  }

  function ResultsText(details: seq<JobResult>): string {
    Join(seq(|details|, k requires 0 <= k < |details| => ResultLine(details[k])), "\n")
  }

  /** The response built from the totals: rendering the results text
      subscripts every entry, so a None entry raises there. */
  function Respond(t: Totals): BulkResponse {
    if exists k :: 0 <= k < |t.details| && t.details[k].None? then BulkRaised(NoneNotSubscriptable)
    else
      var details := Unwrap(t.details);
      BulkDone(t.errors == 0, Summary(t.successes, t.errors), ResultsText(details), details)
  }

  predicate NoNone(trace: seq<Processed>) {
    forall k :: 0 <= k < |trace| ==> !trace[k].ReturnedNone?
  }

  /** Every job is counted once, as a success or an error; a job counts as a
      success exactly when it returned a successful result; and when no call
      returned None there is one result per job, in input order. */
  lemma {:induction false} TallySpec(trace: seq<Processed>, names: seq<string>)
    requires |trace| == |names|
    ensures var t := Tally(trace, names);
      && t.successes + t.errors == |trace|
      && (t.errors == 0 <==> forall k :: 0 <= k < |trace| ==> trace[k].Returned? && trace[k].result.success)
      && |t.details| >= |trace|
      && (NoNone(trace) ==>
            && |t.details| == |trace|
            && forall k :: 0 <= k < |trace| ==> t.details[k] == Some(ResultOf(trace[k], names[k])))
      && (!NoNone(trace) ==> exists k :: 0 <= k < |t.details| && t.details[k].None?)
  {
    TallyCounts(trace, names);
    TallyDetails(trace, names);
    TallyNoneEntry(trace, names);
  }

  /** Every job adds to exactly one counter, and only successes leave the
      error count at zero. */
  lemma {:induction false} TallyCounts(trace: seq<Processed>, names: seq<string>)
    requires |trace| == |names|
    ensures var t := Tally(trace, names);
      && t.successes + t.errors == |trace|
      && (t.errors == 0 <==> forall k :: 0 <= k < |trace| ==> trace[k].Returned? && trace[k].result.success)
  {
    if trace != [] {
      var n := |trace| - 1;
      TallyCounts(trace[..n], names[..n]);
      assert forall k :: 0 <= k < n ==> trace[..n][k] == trace[k];
    }
  }

  /** Each job leaves at least one entry; without None results, exactly its
      own result, in order. */
  lemma {:induction false} TallyDetails(trace: seq<Processed>, names: seq<string>)
    requires |trace| == |names|
    ensures var t := Tally(trace, names);
      && |t.details| >= |trace|
      && (NoNone(trace) ==>
            && |t.details| == |trace|
            && forall k :: 0 <= k < |trace| ==> t.details[k] == Some(ResultOf(trace[k], names[k])))
  {
    if trace != [] {
      var n := |trace| - 1;
      TallyDetails(trace[..n], names[..n]);
      assert forall k :: 0 <= k < n ==> trace[..n][k] == trace[k] && names[..n][k] == names[k];
    }
  }

  /** A None result leaves a None entry in the details. */
  lemma {:induction false} TallyNoneEntry(trace: seq<Processed>, names: seq<string>)
    requires |trace| == |names|
    ensures !NoNone(trace) ==> exists k :: 0 <= k < |Tally(trace, names).details| && Tally(trace, names).details[k].None?
  {
    if trace != [] {
      var n := |trace| - 1;
      var t := Tally(trace[..n], names[..n]);
      if !NoNone(trace[..n]) {
        TallyNoneEntry(trace[..n], names[..n]);
        var k :| 0 <= k < |t.details| && t.details[k].None?;
        var d := Tally(trace, names).details;
        match trace[n] {
          case Returned(r) => assert d == t.details + [Some(r)];
          case ReturnedNone => assert d == t.details + [None, Some(ErrorResult(names[n], NoneNotSubscriptable))];
          case Threw(m) => assert d == t.details + [Some(ErrorResult(names[n], m))];
        }
        assert d[k] == t.details[k];
        assert exists j :: 0 <= j < |d| && d[j].None?;
      } else if trace[n].ReturnedNone? {
        var d := Tally(trace, names).details;
        assert d == t.details + [None, Some(ErrorResult(names[n], NoneNotSubscriptable))];
        assert d[|t.details|].None?;
      } else {
        forall k | 0 <= k < |trace|
          ensures !trace[k].ReturnedNone?
        {
          if k < n {
            assert trace[..n][k] == trace[k];
          }
        }
      }
    }
  }

  /** The overall success flag holds exactly when every job returned a
      successful result, and the summary counts the jobs. */
  lemma BulkSuccessIff(trace: seq<Processed>, names: seq<string>)
    requires |trace| == |names| && NoNone(trace)
    ensures var r := Respond(Tally(trace, names));
      && r.BulkDone?
      && |r.details| == |names|
      && (forall k :: 0 <= k < |names| ==> r.details[k] == ResultOf(trace[k], names[k]))
      && (r.success <==> forall k :: 0 <= k < |trace| ==> trace[k].Returned? && trace[k].result.success)
  {
    TallySpec(trace, names);
  }

  /** A job whose processing raised still leaves the jobs after it processed:
      its entry is the error result and later entries follow in order. */
  lemma RaisedJobIsReported(trace: seq<Processed>, names: seq<string>, k: nat)
    requires |trace| == |names| && NoNone(trace) && k < |trace| && trace[k].Threw?
    ensures var r := Respond(Tally(trace, names));
      && r.BulkDone? && !r.success && |r.details| == |names|
      && r.details[k] == JobResult(names[k], false, "Error: " + trace[k].msg)
  {
    TallySpec(trace, names);
  }

  /** One call returning None makes the whole request raise. */
  lemma NoneRaises(trace: seq<Processed>, names: seq<string>)
    requires |trace| == |names| && !NoNone(trace)
    ensures Respond(Tally(trace, names)) == BulkRaised(NoneNotSubscriptable)
  {
    TallySpec(trace, names);
  }

  /** A "Post to Indeed" request with an unrecognised action raises as soon as
      one of the jobs exists. */
  lemma UnknownActionRaises(trace: seq<Processed>, names: seq<string>, jobs: map<string, JobOpening>,
                            action: string, k: nat)
    requires |trace| == |names| && k < |names| && names[k] in jobs
    requires action != EnablePosting && action != DisablePosting && action != ForceRefresh
    requires forall i :: 0 <= i < |trace| ==> ResultShape(trace[i], names[i], jobs, PostToIndeed, "", action)
    ensures Respond(Tally(trace, names)) == BulkRaised(NoneNotSubscriptable)
  {
    assert trace[k].ReturnedNone?;
    NoneRaises(trace, names);
  }

  /** "Update Job Status" without a new status fails for every job. */
  lemma MissingStatusFailsAll(trace: seq<Processed>, names: seq<string>, jobs: map<string, JobOpening>, action: string)
    requires |trace| == |names| && |names| > 0
    requires forall i :: 0 <= i < |trace| ==> ResultShape(trace[i], names[i], jobs, UpdateJobStatus, "", action)
    ensures var r := Respond(Tally(trace, names));
      && r.BulkDone? && !r.success && |r.details| == |names|
      && forall i :: 0 <= i < |names| ==> !r.details[i].success
  {
    TallySpec(trace, names);
    assert !(trace[0].Returned? && trace[0].result.success);
  }

  /** execute_bulk_operation over the job names `names` (already decoded from
      JSON), with `now` the clock and `replyFor` what the Indeed API would
      answer for each job. `trace` is what each job's processing did. */
  method ExecuteBulkOperation(site: Site, names: seq<string>, operation: string, newStatus: string, action: string,
                              now: DateTime, replyFor: string -> ApiReply)
    returns (r: BulkResponse, ghost trace: seq<Processed>, ghost jobsBefore: seq<map<string, JobOpening>>)
    requires site.Valid()
    modifies site`cache, site`integrations, site`jobOpenings, site`feedFile
    ensures site.Valid()
    ensures |trace| == |names| == |jobsBefore|
    ensures r == Respond(Tally(trace, names))
    ensures forall k :: 0 <= k < |names| ==> ResultShape(trace[k], names[k], jobsBefore[k], operation, newStatus, action)
    ensures Inert(operation, newStatus) ==>
      && site.integrations == old(site.integrations) && site.jobOpenings == old(site.jobOpenings)
      && site.feedFile == old(site.feedFile) && site.cache == old(site.cache)
    ensures operation == UpdateJobStatus && newStatus != "" ==>
      && StatusRun(old(site.jobOpenings), names, newStatus, site.jobOpenings)
      && site.integrations == old(site.integrations) && site.feedFile == old(site.feedFile) && site.cache == old(site.cache)
    ensures operation == RemoveFromIndeed ==>
      && RemovalRun(old(site.integrations), old(site.jobOpenings), names, site.integrations, site.jobOpenings)
      && site.feedFile == old(site.feedFile) && site.cache == old(site.cache)
      && RemovalOutcomes(old(site.integrations), old(site.jobOpenings), names, trace)
  {
    var results: seq<Option<JobResult>> := [];
    var successCount, errorCount := 0, 0;
    trace, jobsBefore := [], [];
    ghost var recs0, jobs0, feed0, cache0 := site.integrations, site.jobOpenings, site.feedFile, site.cache;
    var i := 0;
    while i < |names|
      invariant site.Valid() && WellFormed(recs0) && forall n :: n in jobs0 ==> jobs0[n].name == n
      invariant Loop(trace, jobsBefore, names, i, operation, newStatus, action, results, successCount, errorCount)
      invariant RunState(operation, newStatus, recs0, jobs0, feed0, cache0, names[..i],
                         site.integrations, site.jobOpenings, site.feedFile, site.cache)
      invariant operation == RemoveFromIndeed ==> RemovalOutcomes(recs0, jobs0, names[..i], trace)
    {
      ghost var jobsI := site.jobOpenings;
      var p := RunOne(site, names, i, operation, newStatus, action, now, replyFor(names[i]),
                      recs0, jobs0, feed0, cache0, trace);
      var results', successCount', errorCount' := Account(p, names[i], results, successCount, errorCount);
      LoopStep(trace, jobsBefore, names, i, operation, newStatus, action, results, successCount, errorCount, p, jobsI,
               results', successCount', errorCount');
      results, successCount, errorCount := results', successCount', errorCount';
      trace, jobsBefore := trace + [p], jobsBefore + [jobsI];
      i := i + 1;
    }
    assert names[..i] == names;
    assert RunState(operation, newStatus, recs0, jobs0, feed0, cache0, names,
                    site.integrations, site.jobOpenings, site.feedFile, site.cache);
    r := Finish(results, successCount, errorCount);
  }

  /** One pass of the loop: process_single_job on the i-th name, which keeps
      the run's account of the site and of the removal outcomes. */
  method RunOne(site: Site, names: seq<string>, i: nat, operation: string, newStatus: string, action: string,
                now: DateTime, reply: ApiReply,
                ghost recs0: seq<Integration>, ghost jobs0: map<string, JobOpening>, ghost feed0: FeedFile,
                ghost cache0: map<string, CacheEntry>, ghost trace: seq<Processed>)
    returns (p: Processed)
    requires site.Valid() && WellFormed(recs0) && forall n :: n in jobs0 ==> jobs0[n].name == n
    requires i < |names|
    requires RunState(operation, newStatus, recs0, jobs0, feed0, cache0, names[..i],
                      site.integrations, site.jobOpenings, site.feedFile, site.cache)
    requires operation == RemoveFromIndeed ==> RemovalOutcomes(recs0, jobs0, names[..i], trace)
    modifies site`cache, site`integrations, site`jobOpenings, site`feedFile
    ensures site.Valid()
    ensures ResultShape(p, names[i], old(site.jobOpenings), operation, newStatus, action)
    ensures RunState(operation, newStatus, recs0, jobs0, feed0, cache0, names[..i + 1],
                     site.integrations, site.jobOpenings, site.feedFile, site.cache)
    ensures operation == RemoveFromIndeed ==> RemovalOutcomes(recs0, jobs0, names[..i + 1], trace + [p])
  {
    ghost var recsI, jobsI, feedI, cacheI := site.integrations, site.jobOpenings, site.feedFile, site.cache;
    p := ProcessSingleJob(site, names[i], operation, newStatus, action, now, reply);
    RunStep(operation, newStatus, recs0, jobs0, feed0, cache0, names, i, recsI, jobsI, feedI, cacheI,
            site.integrations, site.jobOpenings, site.feedFile, site.cache);
    if operation == RemoveFromIndeed {
      OutcomeStep(recs0, jobs0, names, i, recsI, jobsI, trace, p);
    }
  }

  /** What "Remove from Indeed" reports for each listed Job Opening that
      exists: the raise of the stale save when its record carries an Indeed
      id, otherwise success. */
  ghost predicate RemovalOutcomes(recs0: seq<Integration>, jobs0: map<string, JobOpening>, names: seq<string>,
                                  trace: seq<Processed>)
  {
    && |trace| == |names|
    && forall k :: 0 <= k < |names| && names[k] in jobs0 ==>
         trace[k] == if Stamped(recs0, names[k]) then Threw(DocumentModified)
                     else Returned(JobResult(names[k], true, RemovedMessage))
  }

  lemma OutcomeStep(recs0: seq<Integration>, jobs0: map<string, JobOpening>, names: seq<string>, i: nat,
                    recs: seq<Integration>, jobs: map<string, JobOpening>, trace: seq<Processed>, p: Processed)
    requires i < |names| && RemovalOutcomes(recs0, jobs0, names[..i], trace)
    requires RemovalRun(recs0, jobs0, names[..i], recs, jobs)
    requires names[i] in jobs ==>
      p == if Stamped(recs, names[i]) then Threw(DocumentModified) else Returned(JobResult(names[i], true, RemovedMessage))
    ensures RemovalOutcomes(recs0, jobs0, names[..i + 1], trace + [p])
  {
    assert names[..i + 1] == names[..i] + [names[i]];
    if names[i] in jobs {
      SameJobsFindAlike(recs0, recs, names[i]);
    }
  }

  /** The site after the jobs `done` of a request that changes nothing, a
      status update or a removal. */
  ghost predicate RunState(operation: string, newStatus: string,
                           recs0: seq<Integration>, jobs0: map<string, JobOpening>, feed0: FeedFile, cache0: map<string, CacheEntry>,
                           done: seq<string>,
                           recs: seq<Integration>, jobs: map<string, JobOpening>, feed: FeedFile, cache: map<string, CacheEntry>)
  {
    && (Inert(operation, newStatus) ==> recs == recs0 && jobs == jobs0 && feed == feed0 && cache == cache0)
    && (operation == UpdateJobStatus && newStatus != "" ==>
          StatusRun(jobs0, done, newStatus, jobs) && recs == recs0 && feed == feed0 && cache == cache0)
    && (operation == RemoveFromIndeed ==> RemovalRun(recs0, jobs0, done, recs, jobs) && feed == feed0 && cache == cache0)
  }

  /** One more job, processed as process_single_job's contract says, keeps
      the run's account of the site. */
  lemma RunStep(operation: string, newStatus: string,
                recs0: seq<Integration>, jobs0: map<string, JobOpening>, feed0: FeedFile, cache0: map<string, CacheEntry>,
                names: seq<string>, i: nat,
                recs: seq<Integration>, jobs: map<string, JobOpening>, feed: FeedFile, cache: map<string, CacheEntry>,
                recs': seq<Integration>, jobs': map<string, JobOpening>, feed': FeedFile, cache': map<string, CacheEntry>)
    requires WellFormed(recs0) && forall n :: n in jobs0 ==> jobs0[n].name == n
    requires i < |names|
    requires RunState(operation, newStatus, recs0, jobs0, feed0, cache0, names[..i], recs, jobs, feed, cache)
    requires names[i] !in jobs || Inert(operation, newStatus) ==>
      recs' == recs && jobs' == jobs && feed' == feed && cache' == cache
    requires names[i] in jobs && operation == UpdateJobStatus && newStatus != "" ==>
      && jobs' == jobs[names[i] := jobs[names[i]].(status := newStatus)]
      && recs' == recs && feed' == feed && cache' == cache
    requires names[i] in jobs && operation == RemoveFromIndeed ==>
      && recs' == RemoveRecord(recs, names[i])
      && jobs' == jobs[names[i] := AfterRemoval(jobs[names[i]], recs)]
      && feed' == feed && cache' == cache
    ensures RunState(operation, newStatus, recs0, jobs0, feed0, cache0, names[..i + 1], recs', jobs', feed', cache')
  {
    var n := names[i];
    assert names[..i + 1] == names[..i] + [n];
    if operation == UpdateJobStatus && newStatus != "" {
      StatusStep(jobs0, names[..i], n, newStatus, jobs, jobs');
    } else if operation == RemoveFromIndeed {
      RemovalStep(recs0, jobs0, names[..i], n, recs, jobs, recs', jobs');
    }
  }

  lemma RemovalStep(recs0: seq<Integration>, jobs0: map<string, JobOpening>, done: seq<string>, n: string,
                    recs: seq<Integration>, jobs: map<string, JobOpening>,
                    recs': seq<Integration>, jobs': map<string, JobOpening>)
    requires WellFormed(recs0) && forall m :: m in jobs0 ==> jobs0[m].name == m
    requires RemovalRun(recs0, jobs0, done, recs, jobs)
    requires n in jobs ==> recs' == RemoveRecord(recs, n) && jobs' == jobs[n := AfterRemoval(jobs[n], recs)]
    requires n !in jobs ==> recs' == recs && jobs' == jobs
    ensures RemovalRun(recs0, jobs0, done + [n], recs', jobs')
  {
    if n in jobs {
      RecordsStep(recs0, jobs0, done, n, recs);
      SameJobsFindAlike(recs0, recs, n);
      JobsStep(recs0, jobs0, done, n, recs, jobs);
    } else {
      RemovalUnlisted(recs0, jobs0, done, n, recs, jobs);
    }
  }

  /** The requests that change nothing on any job: an operation other than
      the three that act, or a status update without a status. */
  predicate Inert(operation: string, newStatus: string) {
    !(operation in {UpdateJobStatus, PostToIndeed, RemoveFromIndeed}) || (operation == UpdateJobStatus && newStatus == "")
  }

  /** After "Update Job Status" over `names`: every listed Job Opening that
      exists has the new status, and every other one is as it was. */
  ghost predicate StatusRun(jobs0: map<string, JobOpening>, names: seq<string>, status: string,
                            jobs: map<string, JobOpening>)
  {
    && jobs.Keys == jobs0.Keys
    && forall n :: n in jobs0 ==> jobs[n] == if n in names then jobs0[n].(status := status) else jobs0[n]
  }

  lemma StatusStep(jobs0: map<string, JobOpening>, done: seq<string>, n: string, status: string,
                   jobs: map<string, JobOpening>, jobs': map<string, JobOpening>)
    requires StatusRun(jobs0, done, status, jobs)
    requires n in jobs ==> jobs' == jobs[n := jobs[n].(status := status)]
    requires n !in jobs ==> jobs' == jobs
    ensures StatusRun(jobs0, done + [n], status, jobs')
  {
  }

  /** After "Remove from Indeed" over `names`: the record of every listed Job
      Opening that exists is Removed and every other record is as it was;
      every listed Job Opening is as the removal leaves it, and every other
      one is as it was. */
  ghost predicate RemovalRun(recs0: seq<Integration>, jobs0: map<string, JobOpening>, names: seq<string>,
                             recs: seq<Integration>, jobs: map<string, JobOpening>)
  {
    && |recs| == |recs0|
    && (forall k :: 0 <= k < |recs0| ==>
          recs[k] == if recs0[k].jobOpening in names && recs0[k].jobOpening in jobs0 then recs0[k].(status := Removed) else recs0[k])
    && jobs.Keys == jobs0.Keys
    && forall n :: n in jobs0 ==> jobs[n] == if n in names then AfterRemoval(jobs0[n], recs0) else jobs0[n]
  }

  /** Records that differ at most in their status are found at the same place
      and are stamped alike. */
  lemma SameJobsFindAlike(recs0: seq<Integration>, recs: seq<Integration>, name: string)
    requires |recs| == |recs0|
    requires forall k :: 0 <= k < |recs0| ==> recs[k] == recs0[k] || recs[k] == recs0[k].(status := Removed)
    ensures FindByJob(recs, name) == FindByJob(recs0, name)
    ensures Stamped(recs, name) == Stamped(recs0, name)
  {
    assert forall k :: 0 <= k < |recs0| ==> recs[k].jobOpening == recs0[k].jobOpening && recs[k].indeedJobId == recs0[k].indeedJobId;
    var f0, f := FindByJob(recs0, name), FindByJob(recs, name);
    if f0.Some? {
      assert recs[f0.value].jobOpening == name;
      assert f.Some?;
      assert recs0[f.value].jobOpening == name;
      assert f.value == f0.value;
    } else {
      assert f.None?;
    }
  }

  /** A name that is not a Job Opening changes nothing. */
  lemma RemovalUnlisted(recs0: seq<Integration>, jobs0: map<string, JobOpening>, done: seq<string>, n: string,
                        recs: seq<Integration>, jobs: map<string, JobOpening>)
    requires RemovalRun(recs0, jobs0, done, recs, jobs) && n !in jobs
    ensures RemovalRun(recs0, jobs0, done + [n], recs, jobs)
  {
  }

  /** The Job Openings after the removal for one more existing name. */
  lemma JobsStep(recs0: seq<Integration>, jobs0: map<string, JobOpening>, done: seq<string>, n: string,
                 recs: seq<Integration>, jobs: map<string, JobOpening>)
    requires forall m :: m in jobs0 ==> jobs0[m].name == m
    requires RemovalRun(recs0, jobs0, done, recs, jobs) && n in jobs
    requires Stamped(recs, n) == Stamped(recs0, n) && FindByJob(recs, n) == FindByJob(recs0, n)
    ensures var jobs' := jobs[n := AfterRemoval(jobs[n], recs)];
      && jobs'.Keys == jobs0.Keys
      && forall m :: m in jobs0 ==> jobs'[m] == if m in done + [n] then AfterRemoval(jobs0[m], recs0) else jobs0[m]
  {
    assert AfterRemoval(jobs[n], recs) == AfterRemoval(jobs0[n], recs0);
  }

  /** Removing the record of one more existing Job Opening. */
  lemma RecordsStep(recs0: seq<Integration>, jobs0: map<string, JobOpening>, done: seq<string>, n: string,
                    recs: seq<Integration>)
    requires WellFormed(recs0) && n in jobs0
    requires |recs| == |recs0|
    requires forall k :: 0 <= k < |recs0| ==>
      recs[k] == if recs0[k].jobOpening in done && recs0[k].jobOpening in jobs0 then recs0[k].(status := Removed) else recs0[k]
    ensures var r := RemoveRecord(recs, n);
      forall k :: 0 <= k < |recs0| ==>
        r[k] == if recs0[k].jobOpening in done + [n] && recs0[k].jobOpening in jobs0 then recs0[k].(status := Removed) else recs0[k]
  {
    SameJobsFindAlike(recs0, recs, n);
  }

  /** The loop state after i jobs. */
  ghost predicate Loop(trace: seq<Processed>, jobsBefore: seq<map<string, JobOpening>>, names: seq<string>, i: int,
                       operation: string, newStatus: string, action: string,
                       results: seq<Option<JobResult>>, successCount: nat, errorCount: nat)
  {
    && 0 <= i <= |names| && |trace| == i == |jobsBefore|
    && Tally(trace, names[..i]) == Totals(results, successCount, errorCount)
    && forall k :: 0 <= k < i ==> ResultShape(trace[k], names[k], jobsBefore[k], operation, newStatus, action)
  }

  lemma LoopStep(trace: seq<Processed>, jobsBefore: seq<map<string, JobOpening>>, names: seq<string>, i: int,
                 operation: string, newStatus: string, action: string,
                 results: seq<Option<JobResult>>, successCount: nat, errorCount: nat,
                 p: Processed, jobs: map<string, JobOpening>,
                 results': seq<Option<JobResult>>, successCount': nat, errorCount': nat)
    requires i < |names|
    requires Loop(trace, jobsBefore, names, i, operation, newStatus, action, results, successCount, errorCount)
    requires ResultShape(p, names[i], jobs, operation, newStatus, action)
    requires var t := Tally([p], [names[i]]);
      results' == results + t.details && successCount' == successCount + t.successes && errorCount' == errorCount + t.errors
    ensures Loop(trace + [p], jobsBefore + [jobs], names, i + 1, operation, newStatus, action, results', successCount', errorCount')
  {
    assert (trace + [p])[..i] == trace;
    assert names[..i + 1][..i] == names[..i];
  }

  /** The body of the loop after the call: the result (or the error result)
      appended and one counter raised. */
  method Account(p: Processed, name: string, results: seq<Option<JobResult>>, successCount: nat, errorCount: nat)
    returns (results': seq<Option<JobResult>>, successCount': nat, errorCount': nat)
    ensures var t := Tally([p], [name]);
      results' == results + t.details && successCount' == successCount + t.successes && errorCount' == errorCount + t.errors
  {
    results', successCount', errorCount' := results, successCount, errorCount;
    match p {
      case Returned(res) =>
        results' := results' + [Some(res)];
        if res.success {
          successCount' := successCount' + 1;
        } else {
          errorCount' := errorCount' + 1;
        }
      case ReturnedNone =>
        results' := results' + [None];
        results' := results' + [Some(ErrorResult(name, NoneNotSubscriptable))];
        errorCount' := errorCount' + 1;
      case Threw(m) =>
        results' := results' + [Some(ErrorResult(name, m))];
        errorCount' := errorCount' + 1;
    }
  }

  /** The summary and results text built after the loop. */
  method Finish(results: seq<Option<JobResult>>, successCount: nat, errorCount: nat) returns (r: BulkResponse)
    ensures r == Respond(Totals(results, successCount, errorCount))
  {
    var summary := Summary(successCount, errorCount);
    var k := 0;
    while k < |results|
      invariant 0 <= k <= |results|
      invariant forall j :: 0 <= j < k ==> results[j].Some?
    {
      if results[k].None? {
        return BulkRaised(NoneNotSubscriptable);
      }
      k := k + 1;
    }
    var details := Unwrap(results);
    r := BulkDone(errorCount == 0, summary, ResultsText(details), details);
  }
}
