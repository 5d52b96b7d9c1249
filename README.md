# Indeed job-feed and applicant-ingestion core, modelled in Dafny

This project models the Frappe app that connects an HR system's Job Openings
with the Indeed job board:

- the **feed codec**: the job-data record built from a Job Opening, the
  employment-type table, and the job element of the XML feed;
- the **posting dispatcher**: the per-job integration record that goes
  Draft → Posted | Error, and the three posting strategies (API, XML feed,
  third party);
- the **feed regenerator**: the full rebuild of the XML feed from the
  records that are Posted or Active;
- the **webhook ingestor**: the signature rule, job resolution, the duplicate
  check, the Job Applicant it creates (resume file name, screening answers),
  and the recipients of the notification;
- the controllers and tools around them: the settings document and its
  cached read path, the Indeed Job Integration record, bulk operations, the
  whitelisted API endpoints, the A/B test campaign, the Bulk Job Manager
  filter, and the installer's app-list handling.

The Frappe site is one class, `Platform.Site`. It holds the database tables
(Job Openings keyed by name, integration records and applicants as
sequences whose order stands for the order Frappe's queries return them), the cache, the public feed file as an abstract
element tree, and the currency-symbol and HR-user lookups. Documents are
datatype values. Loading a document copies it, and saving writes the copy
back. The clock, the generated document names, HMAC-SHA256, the Indeed API's
reply and the resume download are parameters of the operations that use them.

Text fields hold `""` when unset, because Python treats `None` and `""`
alike. A field is an `Option` only where `doc.get(key, default)` falls back to
a non-empty default for a missing key.

Modules follow the source files: `Feed`, `Dispatcher`, `Regenerator`,
`Webhook` and `SettingsCache` cover `indeed/indeed/utils.py`;
`JobIntegration`, `IntegrationSettings`, `BulkOperations`, `Api`, `AbTest`,
`BulkJobManager` and `Install` cover one file each. `Common`, `Xml` and
`Platform` hold shared helpers, the element tree and the site.

Some consequences of the code that the model keeps:

- The posting guard refuses a job that has *any* integration record, even a
  Removed one, so a removed job cannot be posted again.
- The salary text of a feed job is `"90000.0-120000.0"`, because the bounds
  are floats.
- The webhook's duplicate check keys on the payload's `job_title`, not on
  the resolved Job Opening.
- The incremental feed update appends a job element unconditionally, so it
  can create duplicate entries. The full rebuild cannot, as long as each Job
  Opening has at most one integration record.
- "Remove from Indeed" saves the Job Opening it loaded before the record's
  `on_update` wrote the Indeed id into it, so for a record with an Indeed id
  that save raises and the job is reported as an error.

## Model

| member | source | states |
|---|---|---|
| `SettingsCache.GetIntegrationSettings` | indeed/indeed/utils.py:13-19 | A read returns the cached copy while it lives, otherwise the stored document, which is then cached for 300 s |
| `SettingsCache.CacheAfterRead` | indeed/indeed/utils.py:15-18 | After any read, the key is live and holds exactly the settings that read returned |
| `SettingsCache.CachedForTtl` | indeed/indeed/utils.py:15-18 | After a miss at t, reads before t+300 return that copy whatever the document became, and reads from t+300 on reload |
| `IntegrationSettings.Onload` | indeed/indeed/doctype/indeed_integration_settings/indeed_integration_settings.py:9-12 | webhook_url becomes site URL + "/api/method/indeed.indeed.api.webhook_job_application", and no other field changes |
| `IntegrationSettings.Validate` | indeed/indeed/doctype/indeed_integration_settings/indeed_integration_settings.py:14-19 | Passes iff auto-posting is off, or it is not (API without api_key) and a company is set; API without a key fails first |
| `IntegrationSettings.OnUpdate` | indeed/indeed/doctype/indeed_integration_settings/indeed_integration_settings.py:21-23 | Exactly the settings cache key is removed |
| `IntegrationSettings.ReadAfterUpdateReloads` | indeed/indeed/doctype/indeed_integration_settings/indeed_integration_settings.py:21-23 | The first read after on_update returns the stored document |
| `Feed.PrepareJobData` | indeed/indeed/utils.py:102-139 | Location join, company URL fallback to the site URL, Full-time and USD defaults, application URL, posting date; no creation time is the strftime exception |
| `Feed.MapEmploymentType` | indeed/indeed/utils.py:320-331 | The five known types map to their Indeed constants, everything else to FULL_TIME, and every result is one of the five constants |
| `Feed.CData` | indeed/indeed/utils.py:284-285 | The text is "<![CDATA[" + value + "]]>" |
| `Feed.FieldElement` | indeed/indeed/utils.py:282-287 | Title, company, city and description are wrapped as character data; every other field is plain text |
| `Feed.SalaryField` | indeed/indeed/utils.py:270-272 | A salary field "min-max" exists iff both bounds are non-zero |
| `Feed.BaseFields` | indeed/indeed/utils.py:259-268 | The first eight fields are title, date, referencenumber, url, company, city, description and jobtype, in that order |
| `Feed.BuildJobElement` | indeed/indeed/utils.py:282-287 | The SubElement loop gives one child per field, in field order |
| `Feed.JobElementLayout` | indeed/indeed/utils.py:255-287 | Every job element starts with the eight fixed tags in order and has a salary child ninth when both bounds are set |
| `Feed.RefOfJobElement` | indeed/indeed/utils.py:262 | A job element's referencenumber is the job's external id |
| `Feed.SetLastBuildDate` | indeed/indeed/utils.py:249-253 | lastBuildDate is updated or appended, and the jobs already in the feed are untouched |
| `Feed.AddJob` | indeed/indeed/utils.py:249-287 | The feed's jobs are the old jobs followed by the new job element |
| `Feed.AddToXmlFeed` | indeed/indeed/utils.py:222-308 | An absent file starts from a publisher header; an unparsable one fails with its message; otherwise the job is appended and the response carries the external id and feed URL |
| `Feed.AddAppendsJob` | indeed/indeed/utils.py:233-287 | A readable or absent feed gains exactly one job element at its end, and the response succeeds |
| `Feed.AddingTwiceDuplicates` | indeed/indeed/utils.py:256 | Adding the same job twice leaves two trailing job elements with the same reference number |
| `Feed.SalaryRangeExample` | indeed/indeed/doctype/indeed_job_integration/indeed_job_integration.py:26-28 | 90000 to 120000 in dollars gives "$90000.0 - $120000.0" |
| `Feed.WorkedExample` | indeed/indeed/utils.py:105-114 | Austin/TX/USA with 90000 to 120000 gives location "Austin, TX, USA" and salary "90000.0-120000.0" |
| `Dispatcher.ErrorMessages` | indeed/indeed/utils.py:212-213 | Each remote error contributes its message, or "" when it has none |
| `Dispatcher.ApiStrategy` | indeed/indeed/utils.py:145-219 | Succeeds iff there is an access token, the reply is HTTP 200 and there are no errors; otherwise the error is the token message, "HTTP code: body", the "; "-joined errors, or the exception |
| `Dispatcher.ThirdPartyStrategy` | indeed/indeed/utils.py:311-317 | Always fails with "Third-party integration not implemented" |
| `Dispatcher.DispatchOutcomes` | indeed/indeed/utils.py:69-77 | Only API and XML_FEED can succeed; only XML_FEED changes the feed file; an unknown method fails with "Invalid integration method" |
| `Dispatcher.DispatchStrategy` | indeed/indeed/utils.py:69-77 | The branch calls the strategy the settings name and gives exactly what Dispatch gives, so only XML_FEED writes the feed file |
| `Dispatcher.NewRecord` | indeed/indeed/utils.py:60-63 | The new record is Draft, for this job, with no Indeed id |
| `Dispatcher.Finalize` | indeed/indeed/utils.py:79-91 | Success gives Posted, the posted date, id, URL and xml_feed_included under XML_FEED; failure gives Error with the strategy's error or "Unknown error"; both stamp last_sync_date |
| `Dispatcher.RecordResponse` | indeed/indeed/utils.py:79-91 | The step-by-step field assignments produce exactly Finalize |
| `Dispatcher.PostJobToIndeed` | indeed/indeed/utils.py:43-99 | Auto-posting off or any existing record: returns false and changes nothing; otherwise exactly one new record, Draft when job data cannot be built, else finalized with the strategy's response |
| `Dispatcher.PostOutcomeRecords` | indeed/indeed/utils.py:43-99 | A record is appended exactly when the post is attempted, and it is for the job; the answer is true exactly when that record is Posted; Job Openings change only through that record's on_update |
| `Dispatcher.Attempt` | indeed/indeed/utils.py:59-99 | A failed insert leaves nothing behind; otherwise the new record is the derived Draft record, then finalized |
| `Dispatcher.PostInserted` | indeed/indeed/utils.py:66-99 | After the insert, the record stays Draft when prepare_job_data raises, else it is set from the dispatched strategy and saved, with on_update applied |
| `Dispatcher.WellFormedAppend` | indeed/indeed/utils.py:53-64 | The duplicate guard keeps at most one record per Job Opening |
| `Dispatcher.ValidatedApiSettingsWithoutToken` | indeed/indeed/utils.py:145-146 | Settings that pass validation with an api_key but no access_token still fail every API posting |
| `JobIntegration.LocationParts` | indeed/indeed/doctype/indeed_job_integration/indeed_job_integration.py:15-21 | The parts present, in the order city, state, country, none empty: city first when set, then state, country last when set |
| `JobIntegration.LocationEmptyIff` | indeed/indeed/doctype/indeed_job_integration/indeed_job_integration.py:15-23 | The location is "" iff city, state and country are all unset |
| `JobIntegration.LocationOfAllParts` | indeed/indeed/doctype/indeed_job_integration/indeed_job_integration.py:23 | With all three parts present, the location is "city, state, country" |
| `JobIntegration.SalaryRange` | indeed/indeed/doctype/indeed_job_integration/indeed_job_integration.py:26-28 | The text is the symbol, the lower amount as a float, " - ", the symbol again and the upper amount as a float |
| `JobIntegration.ApplicationUrl` | indeed/indeed/doctype/indeed_job_integration/indeed_job_integration.py:31 | The URL is the site URL, then "/jobs/", then the job name |
| `JobIntegration.BeforeInsert` | indeed/indeed/doctype/indeed_job_integration/indeed_job_integration.py:9-31 | Without a job opening nothing changes; a missing one raises not-found; otherwise location, salary range (only with both bounds) and URL are derived and nothing else changes |
| `JobIntegration.Validate` | indeed/indeed/doctype/indeed_job_integration/indeed_job_integration.py:33-36 | Passes iff the referenced Job Opening exists, else fails with "Invalid Job Opening selected" |
| `JobIntegration.OnUpdate` | indeed/indeed/doctype/indeed_job_integration/indeed_job_integration.py:38-41 | custom_indeed_job_id is copied only when both the Indeed id and the job opening are set; no other Job Opening changes |
| `JobIntegration.OnUpdateKeepsNames` | indeed/indeed/doctype/indeed_job_integration/indeed_job_integration.py:40-41 | on_update keeps the Job Opening table keyed by name |
| `JobIntegration.InsertIntegration` | indeed/indeed/doctype/indeed_job_integration/indeed_job_integration.py:9-41 | An insert runs before_insert, validate and on_update: it fails iff validation fails, otherwise it appends the derived record |
| `JobIntegration.SaveIntegration` | indeed/indeed/doctype/indeed_job_integration/indeed_job_integration.py:33-41 | A save writes the record only if validation passes, then applies on_update |
| `Regenerator.LiveIndices` | indeed/indeed/utils.py:584-588 | Exactly the records with status Posted or Active are selected, in the order the query returns them, which the table sequence stands for |
| `Regenerator.JobEntryCases` | indeed/indeed/utils.py:615-617 | A record fails iff its Job Opening is missing (not-found) or has no creation time |
| `Regenerator.Header` | indeed/indeed/utils.py:603-612 | The header is publisher, publisherurl, lastBuildDate; publisher is the company or "Company" |
| `Regenerator.CollectSpec` | indeed/indeed/utils.py:615-646 | Either every entry becomes an element, in order, or the loop stops at the first failing record |
| `Regenerator.RegenerateXmlFeed` | indeed/indeed/utils.py:578-669 | No live record: success, nothing written. Otherwise a fresh root with header and one job per record, each record marked xml_feed_included; a failing record stops with its error, keeping the earlier marks and the old file |
| `Regenerator.Rebuild` | indeed/indeed/utils.py:603-669 | If every record succeeds, the file holds the header then one job per record and all records are marked; otherwise the file is unchanged and only the records before the failure are marked |
| `Regenerator.NewRoot` | indeed/indeed/utils.py:603-612 | The new root is a source element with exactly the three header elements |
| `Regenerator.AddJobs` | indeed/indeed/utils.py:615-646 | The loop appends one job element per selected record and marks it, until a record fails |
| `Regenerator.LoadJobEntry` | indeed/indeed/utils.py:616-643 | One iteration's element is the job element of the record's job data, dated by the Job Opening's creation |
| `Regenerator.MarkIncludedSelected` | indeed/indeed/utils.py:646 | Exactly the selected records get xml_feed_included, and every other record is unchanged |
| `Regenerator.RebuildHasNoDuplicates` | indeed/indeed/utils.py:584-646 | On a well-formed site the rebuilt feed has one job per selected record, each job's reference number is its Job Opening, and no two jobs share one |
| `Webhook.ValidateWebhook` | indeed/indeed/utils.py:362-384 | No secret accepts everything; with a secret, a missing header rejects, and otherwise it accepts iff the header is "sha256=" + hexdigest |
| `Webhook.ResolveJob` | indeed/indeed/utils.py:391-409 | None exactly when neither the Indeed job id's record names a job opening nor the external id names an existing Job Opening; when the Indeed job id resolves nothing, the result is the external id |
| `Webhook.IndeedIdFirst` | indeed/indeed/utils.py:395-405 | The external id is consulted only when the Indeed job id resolves nothing |
| `Webhook.Decline` | indeed/indeed/utils.py:411-421 | Unresolved gives "Could not find corresponding job opening"; an existing applicant with the same email and payload job_title gives "Duplicate application"; otherwise it inserts |
| `Webhook.KeepSafe` | indeed/indeed/utils.py:485 | Only safe characters survive, and a name of safe characters is kept whole |
| `Webhook.KeepSafeAppend` | indeed/indeed/utils.py:485 | The filter keeps a single character iff it is a letter, digit, space, '-' or '_', and filters a concatenation piece by piece, so every safe character survives in order |
| `Webhook.SafeName` | indeed/indeed/utils.py:485 | The sanitised name is the filtered name up to its last non-space character: it has only safe characters, and what is cut off is spaces |
| `Webhook.KeepSafeExample` | indeed/indeed/utils.py:485 | "Zoë! " filters to "Zoë ": the accented letter stays and the '!' goes |
| `Webhook.SafeNameExample` | indeed/indeed/utils.py:485 | "Zoë! " is sanitised to "Zoë" |
| `Webhook.SafeNameIdempotent` | indeed/indeed/utils.py:485 | Sanitising an already sanitised name changes nothing |
| `Webhook.ResumeExtension` | indeed/indeed/utils.py:476-482 | The extension is "doc" iff the content type mentions doc and not pdf, otherwise "pdf" |
| `Webhook.ResumeFileNameShape` | indeed/indeed/utils.py:484-486 | The file name is SafeName of the candidate followed by "_resume.pdf" or "_resume.doc" |
| `Webhook.BlocksNumberedFromOne` | indeed/indeed/utils.py:513-518 | The blocks are numbered 1, 2, … in list order |
| `Webhook.AppendBlock` | indeed/indeed/utils.py:514-518 | One iteration appends "Qi: q\n" and "Ai: a\n\n", with "Question i" and "No answer provided" as defaults |
| `Webhook.FormatEntries` | indeed/indeed/utils.py:511-520 | The loop yields the header followed by every entry's block |
| `Webhook.FormatScreeningAnswers` | indeed/indeed/utils.py:505-520 | Gives "" for an empty or non-list value, else the header and one block per entry numbered from 1 |
| `Webhook.NewApplicant` | indeed/indeed/utils.py:424-453 | Source "Indeed", status "Open", name "Unknown" by default, payload email and job title, notes with the date, resume only after a successful download, screening text as cover letter |
| `Webhook.SecondApplicationIsDuplicate` | indeed/indeed/utils.py:415-421 | A second application with the same email and payload job title is declined as a duplicate, whichever job it resolves to |
| `Webhook.AddUniqueSpec` | indeed/indeed/utils.py:540-543 | The loop keeps the existing recipients first, adds no duplicate and no empty address, and adds every non-empty HR email |
| `Webhook.RecipientsSpec` | indeed/indeed/utils.py:529-543 | Recipients are distinct and non-empty, the contact comes first, and they are exactly the contact and the HR users' emails |
| `Webhook.NotificationRecipients` | indeed/indeed/utils.py:529-543 | The recipient loop builds exactly that list |
| `Webhook.CreateJobApplicant` | indeed/indeed/utils.py:387-465 | A decline or a failing insert stores nothing; otherwise one applicant is appended and the notification goes to the de-duplicated recipients |
| `Webhook.IndeedApplicationWebhook` | indeed/indeed/utils.py:334-359 | Rejected signature: 401 and nothing stored. Otherwise 200 iff an applicant was stored; any other outcome is 400 with the decline message |
| `BulkOperations.NextName` | indeed/indeed/utils.py:60-64 | The generated record name is used by no existing record |
| `BulkOperations.RemoveFromIndeedFeed` | indeed/indeed/bulk_operations.py:121-134 | Without a record nothing changes; otherwise the job's first record becomes Removed and is saved |
| `BulkOperations.EnableAndPost` | indeed/indeed/bulk_operations.py:76-87 | The message is "Enabled and posted to Indeed" iff posting succeeded; the job is saved with the flag set, then post_job_to_indeed either refuses and changes nothing more, or inserts one record and finalizes it with the strategy's response |
| `BulkOperations.EnableSetsFlag` | indeed/indeed/bulk_operations.py:76-87 | After Enable the job is flagged and no other Job Opening changes; a success appended one Posted record for the job, a failure at most one record that is not Posted |
| `BulkOperations.AfterDisable` | indeed/indeed/bulk_operations.py:89-96 | Disable clears the job's flag, copies the record's Indeed id into it when there is one, and changes no other Job Opening |
| `BulkOperations.DisableAndRemove` | indeed/indeed/bulk_operations.py:89-96 | The flag is cleared, the job's record becomes Removed with on_update applied, and the result is a success |
| `BulkOperations.RefreshFeed` | indeed/indeed/bulk_operations.py:98-103 | The feed is regenerated as regenerate_xml_feed does, and the result reports the refresh whatever the regeneration answered |
| `BulkOperations.RemoveRecord` | indeed/indeed/bulk_operations.py:125-134 | The job's first record, if any, becomes Removed and no other record changes |
| `BulkOperations.AfterRemoval` | indeed/indeed/bulk_operations.py:105-111 | A job whose record has an Indeed id keeps its flag and takes the id; any other job has its flag cleared |
| `BulkOperations.RemoveAndClear` | indeed/indeed/bulk_operations.py:105-111 | The record becomes Removed; a record with an Indeed id makes the stale job.save() raise "Document has been modified…", otherwise the job is saved with the flag cleared and the result is a success |
| `BulkOperations.ProcessSingleJob` | indeed/indeed/bulk_operations.py:56-118 | A missing job raises; a missing new_status fails and changes nothing; a status update changes only that job's status; "Post to Indeed" has the effect of its action; removal raises exactly for a record with an Indeed id; an unknown action returns None; an unknown operation gives "Unknown operation: op" |
| `BulkOperations.PostAction` | indeed/indeed/bulk_operations.py:75-103 | Enable sets the flag and posts the job, Disable clears the flag and marks the record Removed, Force Refresh regenerates the feed, each leaving the site valid; any other action returns None and changes nothing |
| `BulkOperations.TallySpec` | indeed/indeed/bulk_operations.py:18-35 | successes + errors = number of jobs; errors = 0 iff every job succeeded; without None results, one result per job in input order |
| `BulkOperations.TallyCounts` | indeed/indeed/bulk_operations.py:18-35 | Each job adds to exactly one counter, and the error count is zero iff every job returned a success |
| `BulkOperations.TallyDetails` | indeed/indeed/bulk_operations.py:18-35 | Each job leaves at least one entry; without None results, exactly its own result, in input order |
| `BulkOperations.TallyNoneEntry` | indeed/indeed/bulk_operations.py:20-23 | A job that returned None leaves a None entry in the results |
| `BulkOperations.BulkSuccessIff` | indeed/indeed/bulk_operations.py:44-53 | Overall success holds iff every job returned a successful result, with one detail per job in order |
| `BulkOperations.RaisedJobIsReported` | indeed/indeed/bulk_operations.py:28-35 | A job that raised gets "Error: msg" in its own place, and the remaining jobs are still processed |
| `BulkOperations.NoneRaises` | indeed/indeed/bulk_operations.py:20-46 | A None result makes the results text raise "'NoneType' object is not subscriptable" |
| `BulkOperations.UnknownActionRaises` | indeed/indeed/bulk_operations.py:75-103 | "Post to Indeed" with an unrecognised action raises as soon as one of the jobs exists |
| `BulkOperations.MissingStatusFailsAll` | indeed/indeed/bulk_operations.py:61-63 | "Update Job Status" without new_status fails for every job |
| `BulkOperations.Account` | indeed/indeed/bulk_operations.py:19-35 | One loop body appends the result, or the error result, and raises one counter |
| `BulkOperations.Finish` | indeed/indeed/bulk_operations.py:40-53 | The summary reads "Operation completed: s successful, e errors", and a None entry raises |
| `BulkOperations.ExecuteBulkOperation` | indeed/indeed/bulk_operations.py:7-118 | The response is the tally of the per-job outcomes. Export and unknown operations change nothing. A status update gives every listed existing job the status and changes nothing else. A removal marks every listed job's record Removed and leaves the others, reports an error exactly for records with an Indeed id, and leaves the feed alone |
| `BulkOperations.RunOne` | indeed/indeed/bulk_operations.py:18-20 | One call of process_single_job in the loop gives a result of the expected shape and keeps the run's account of the site and of the removal outcomes |
| `BulkOperations.RunStep` | indeed/indeed/bulk_operations.py:18-20 | One more processed job keeps the run's account of the site |
| `BulkOperations.SameJobsFindAlike` | indeed/indeed/bulk_operations.py:125-129 | Records that differ only in status are found at the same place and carry the same Indeed id |
| `Api.ManualPostJobToIndeed` | indeed/indeed/api.py:6-53 | Refuses without permission; reports a missing job; with an existing record, answers failure with its id and changes nothing; otherwise the site is as post_job_to_indeed leaves it (`PostOutcome`), the answer succeeds exactly when that post did, and a success reports the new record |
| `Api.PostAndLookUp` | indeed/indeed/api.py:25-46 | The site is as post_job_to_indeed leaves it with the answer's success as the post's; after a success the answer carries the new record's name, status Posted and Indeed id |
| `Api.LookUpPosted` | indeed/indeed/api.py:29-41 | get_value finds the record just appended, and the answer reports its name, status and Indeed id |
| `Api.PostNewRecord` | indeed/indeed/api.py:26 | The cache after the settings read, and nothing else changed when the post is refused; otherwise the attempt's records, feed and Job Openings, with the answer the strategy's; a success added exactly one Posted record for this job |
| `Api.FindByJobAppend` | indeed/indeed/api.py:29-33 | The record just inserted is the one the lookup finds |
| `Api.SyncJobStatusWithIndeed` | indeed/indeed/api.py:213-245 | Without a record the error is "Indeed Job Integration {'job_opening': 'X'} not found"; without an Indeed id, fails and saves nothing; otherwise stamps last_sync_date and saves |
| `Api.FilterTextExample` | indeed/indeed/api.py:221 | The filter dict of get_doc is shown as {'job_opening': 'JOB-1'} |
| `Common.PlainRepr` | indeed/indeed/api.py:221 | repr() shows a text without quotes or backslashes in single quotes |
| `Common.DoubleQuotedRepr` | indeed/indeed/api.py:221 | repr() switches to double quotes for a text with a single quote and no double quote |
| `Api.RequiredElements` | indeed/indeed/api.py:371-376 | There are four document checks |
| `Api.FieldChecks` | indeed/indeed/api.py:391-392 | Each field check is "Job has f" = the first job has f |
| `Api.Passed` | indeed/indeed/api.py:398 | The passed count equals the number of checks iff every check passed |
| `Api.JobValidation` | indeed/indeed/api.py:378-392 | The loop gives "Jobs exist", then the seven field checks of the first job only |
| `Api.ValidateXmlFeedStructure` | indeed/indeed/api.py:347-408 | Permission, fetch and parse failures give their messages; otherwise the report is computed from the parsed root |
| `Api.ReportSuccessIff` | indeed/indeed/api.py:371-397 | Success iff the root is source with publisher, publisherurl and lastBuildDate, there is a job, and the first job has every required field |
| `Api.JobChecksPass` | indeed/indeed/api.py:379-392 | The job checks pass iff there is a job and the first has every required field |
| `Api.CheckCount` | indeed/indeed/api.py:371-398 | There are 5 checks without jobs and 12 with jobs; without jobs "Jobs exist" is false and the feed fails |
| `Api.JobElementHasRequiredFields` | indeed/indeed/api.py:386-392 | A job element built by the codec has all seven required fields |
| `Api.BuiltJobsComplete` | indeed/indeed/api.py:386-392 | Every element of a successful rebuild is a job element that has all seven required fields |
| `Api.RebuiltFeedPasses` | indeed/indeed/api.py:371-397 | A full rebuild that found jobs produces a feed that passes every check |
| `AbTest.Campaign.Validate` | indeed/indeed/doctype/ab_test_campaign/ab_test_campaign.py:12-29 | Passes iff start < end (when both are set), 10 <= split <= 90, and the variants differ in the variable under test; each message is reported exactly when its rule is the first broken one, in the order dates, split, titles, descriptions |
| `AbTest.Campaign.BeforeSave` | indeed/indeed/doctype/ab_test_campaign/ab_test_campaign.py:31-43 | With a base job and an empty variant A title, A takes the base title and description and an empty B title becomes base + " (Variant B)"; otherwise nothing changes |
| `AbTest.Campaign.Save` | indeed/indeed/doctype/ab_test_campaign/ab_test_campaign.py:12-43 | validate runs on the fields before before_save; a failure changes nothing |
| `AbTest.Campaign.SaveRevalidated` | indeed/indeed/doctype/ab_test_campaign/ab_test_campaign.py:12-43 | A save that re-validates after auto-population: whatever it accepts satisfies the rules before and after |
| `AbTest.Campaign.OnUpdate` | indeed/indeed/doctype/ab_test_campaign/ab_test_campaign.py:45-52 | The test starts only when status changed to Active, results are computed only when it changed to Completed, and otherwise nothing changes |
| `AbTest.Campaign.StartTest` | indeed/indeed/doctype/ab_test_campaign/ab_test_campaign.py:54-93 | Requires an existing base job; creates both variant jobs and links them |
| `AbTest.CountApplications` | indeed/indeed/doctype/ab_test_campaign/ab_test_campaign.py:122-128 | The count is zero iff no applicant for the job falls in the period |
| `AbTest.VariantMetrics` | indeed/indeed/doctype/ab_test_campaign/ab_test_campaign.py:114-140 | A variant without a job has no applications and no views; with a job it has the 100 placeholder views and the count of its applicants in the period |
| `AbTest.ConversionRate` | indeed/indeed/doctype/ab_test_campaign/ab_test_campaign.py:134 | The rate is never negative, and with 100 views it equals the application count |
| `AbTest.VariantConversionRate` | indeed/indeed/doctype/ab_test_campaign/ab_test_campaign.py:114-134 | A variant with a job converts at its application count per hundred views; one without converts at 0 |
| `AbTest.WinnerFor` | indeed/indeed/doctype/ab_test_campaign/ab_test_campaign.py:142-186 | Zero applications or views, or no views on one variant, gives "No Significant Difference" with 0 and false. With views on both and some applications, the result is significant iff chi-square > 3.84; a significant result has confidence 95 and the winner is the higher conversion rate; otherwise confidence is chi-square / 3.84 * 95 |
| `AbTest.Campaign.CalculateResults` | indeed/indeed/doctype/ab_test_campaign/ab_test_campaign.py:95-109 | The result fields hold each variant's applications and the verdict; a winner needs both variant jobs |
| `AbTest.Campaign.DetermineWinner` | indeed/indeed/doctype/ab_test_campaign/ab_test_campaign.py:142-186 | The winner, confidence and significance fields hold the verdict |
| `AbTest.Campaign.CloneWinningVariant` | indeed/indeed/doctype/ab_test_campaign/ab_test_campaign.py:249-273 | Throws without a clear winner; uses variant_a_job iff A won; adds the job titled " (Optimized)" and unlinked from the campaign |
| `AbTest.EqualTitlesSaved` | indeed/indeed/doctype/ab_test_campaign/ab_test_campaign.py:23-43 | A campaign that passes validation is saved with equal variant titles |
| `BulkJobManager.Manager.BuildFilters` | indeed/indeed/doctype/bulk_job_manager/bulk_job_manager.py:18-35 | Each text filter appears iff its field is set; creation is between, >= or <= by which dates are set; the filter matches exactly the wanted jobs, where the to-date admits its whole day only together with a from-date |
| `BulkJobManager.LastDayNeedsFromDate` | indeed/indeed/doctype/bulk_job_manager/bulk_job_manager.py:30-35 | A job created during the to-date's day passes "between" but not "<=" |
| `BulkJobManager.MatchingJobs` | indeed/indeed/doctype/bulk_job_manager/bulk_job_manager.py:38-46 | Exactly the matching jobs of the table |
| `BulkJobManager.MatchingJobsAppend` | indeed/indeed/doctype/bulk_job_manager/bulk_job_manager.py:38-46 | A job is kept iff it matches, and the jobs are kept in table order |
| `BulkJobManager.Query` | indeed/indeed/doctype/bulk_job_manager/bulk_job_manager.py:38-46 | The first matching jobs in table order: all of them, or the first 100 |
| `BulkJobManager.RowFor` | indeed/indeed/doctype/bulk_job_manager/bulk_job_manager.py:102-104 | The Indeed label is "Enabled" iff custom_post_to_indeed is set, else "Disabled" |
| `BulkJobManager.SelectionOf` | indeed/indeed/doctype/bulk_job_manager/bulk_job_manager.py:51-55 | No jobs gives exactly "<p>No jobs found matching the criteria.</p>"; otherwise the count and one row per job |
| `BulkJobManager.GenerateSelection` | indeed/indeed/doctype/bulk_job_manager/bulk_job_manager.py:51-110 | The row loop builds exactly that listing |
| `BulkJobManager.Manager.LoadMatchingJobs` | indeed/indeed/doctype/bulk_job_manager/bulk_job_manager.py:15-49 | The listing shows the capped query of the wanted jobs |
| `Install.Missing` | indeed/indeed/install.py:74-99 | The missing names are the required ones not present, in required order; the list is empty iff all are present |
| `Install.CollectMissing` | indeed/indeed/install.py:77-80 | The append loop yields exactly that list |
| `Install.ValidateDependencies` | indeed/indeed/install.py:70-101 | Missing apps (erpnext, hrms in order) are reported first and doctypes only after; passes iff nothing is missing |
| `Install.InstallHrms` | indeed/indeed/install.py:104-133 | Fails iff the install did not succeed; a non-zero exit carries the prefix twice followed by the stderr, and a run that could not start carries the prefix once followed by its error |
| `Install.BeforeInstall` | indeed/indeed/install.py:9-21 | Installation of hrms is attempted iff it is not installed |
| `Install.GetBenchPath` | indeed/indeed/install.py:136-148 | Inside a bench, a prefix of the working directory ending in "frappe-bench"; otherwise ../frappe-bench when it exists, else ./, else "/home/frappe/frappe-bench" |
| `Install.BenchPathIsFirstBenchPrefix` | indeed/indeed/install.py:136-142 | Inside a bench the path is the cwd prefix ending at the first "frappe-bench", which occurs nowhere else in it |
| `Install.BenchPathIdempotent` | indeed/indeed/install.py:136-142 | Asking again from the bench path returns the bench path |
| `Install.Universal` | indeed/indeed/install.py:258-260 | Text mode turns every "\r\n" and lone "\r" into "\n": the text read has no carriage return and is no longer than the file |
| `Install.UniversalKeeps` | indeed/indeed/install.py:258-260 | A text without carriage returns reads back unchanged |
| `Install.MacLines` | indeed/indeed/install.py:258-260 | Two lines ended by lone "\r" read as two lines ended by "\n" |
| `Install.MacAppsRead` | indeed/indeed/install.py:258-260 | Two apps each ended by a lone "\r" are read as those two apps |
| `Install.MacAppsTxtNeedsReorder` | indeed/indeed/install.py:258-267 | "indeed\rhrms\r" reads as [indeed, hrms], which needs reordering |
| `Install.Readlines` | indeed/indeed/install.py:259-260 | On the text as read, every line is non-empty and has no line break before its end |
| `Install.ReadlinesRestore` | indeed/indeed/install.py:259-260 | The lines put back together are the text |
| `Install.ReadlinesBreaks` | indeed/indeed/install.py:259-260 | Every line but the last ends with its line break |
| `Install.ParseApps` | indeed/indeed/install.py:260 | No more apps than lines, and every app is non-empty with no surrounding whitespace |
| `Install.ParseAppsAppend` | indeed/indeed/install.py:260 | The lines are taken in order: the apps of two line lists are those of the first followed by those of the second |
| `Install.ParseAppsLine` | indeed/indeed/install.py:260 | A line gives its stripped form, or nothing when that is blank |
| `Install.ParsedAppsAreClean` | indeed/indeed/install.py:260 | Every app read from lines without carriage returns is a trimmed single line without one |
| `Install.ReadAppsClean` | indeed/indeed/install.py:258-260 | Every app read from apps.txt in text mode is clean |
| `Install.WriteApps` | indeed/indeed/install.py:275-277 | The write loop produces each app followed by a newline |
| `Install.WrittenAppsReadBack` | indeed/indeed/install.py:260-277 | Splitting and stripping what the hook writes gives the same list |
| `Install.WrittenAppsRead` | indeed/indeed/install.py:258-277 | Reading back in text mode what the hook writes gives the same list |
| `Install.ReorderApps` | indeed/indeed/install.py:262-273 | The list is unchanged unless both apps are present and hrms comes after indeed; then indeed moves to right after hrms |
| `Install.MoveAfter` | indeed/indeed/install.py:270-272 | Remove-then-insert is a permutation that keeps the other apps in order and puts indeed right after hrms |
| `Install.ReorderSettles` | indeed/indeed/install.py:263-267 | With a single indeed, a reordered list needs no further reordering |
| `Install.EnsureProperAppOrder` | indeed/indeed/install.py:251-282 | apps.txt, read in text mode, is rewritten iff it needs reordering, and the rewritten file reads back as the reordered list |
| `Install.AfterInstall` | indeed/indeed/install.py:24-58 | A failed validation is re-raised with its message, missing apps before missing DocTypes; the app order is fixed only after the dependencies validate, and then apps.txt is rewritten iff it needs reordering |

## Left out

- Network calls: the GraphQL POST, the resume GET and the feed fetch. Each is an input (`ApiReply`, `ResumeFetch`, `FeedFetch`).
- HMAC-SHA256 and `compare_digest`: the hex digest is a function parameter, and only string equality is modelled.
- Serialisation of the feed to bytes: `ET.parse`, `ET.tostring`, minidom pretty-printing, blank-line stripping and the file write. The feed is an element tree, and an unreadable file is the `Unparsable` case.
- The CSV export of bulk_operations.py, the HTML and script of bulk_job_manager.py, and the notification e-mail body.
- Enqueue, sendmail, log_error, msgprint, `db.commit` and `on_job_opening_save`, which is only a guarded enqueue.
- Concurrency: the asynchronous dispatch, and the read-modify-write race on the feed file between the incremental and the full path.
- Permission checks other than the endpoints' explicit ones.
- `BulkOperations.RemoveAndClear`: the `modified` timestamp is not a field. The stale save is decided by whether on_update ran set_value on the Job Opening, and the raised message is given without its two timestamps and closing sentence.
- `BulkOperations.ProcessSingleJob`: "Update Job Status" accepts any non-empty status. Frappe's check of a Select field against its options is not modelled, because the Job Opening doctype and its status options are not part of this model. The model reports success where Frappe raises for a status outside the options.
- `BulkOperations.ExecuteBulkOperation`: for "Post to Indeed" the site after the run is stated only job by job, through `PostAction` and `ProcessSingleJob`, not for the whole run.
- `BulkOperations.RemoveFromIndeedFeed`, `BulkOperations.ExecuteBulkOperation`, `Regenerator.RegenerateXmlFeed` and `Regenerator.RebuildHasNoDuplicates` assume at most one integration record per Job Opening, which `Platform.Site.Valid` states. post_job_to_indeed's guard keeps it, but the record's own validation does not check it, and HR Managers may create records by hand. On a site with two records for one job, removal marks only the first, so the job stays in a rebuilt feed through the second, and the rebuild emits both. That case is not modelled.
- `BulkJobManager.Manager.BuildFilters`: the tool's from and to dates are taken to be Date fields, and a Job Opening's creation a Datetime counted in whole seconds. Its doctype definition is not part of this model.
- The order of the integration records is a fixed sequence. Frappe's default query order is by `modified`, which saves change; that reordering is not modelled.
- `Feed.PrepareJobData` and `JobIntegration.SalaryRange`: salary bounds are whole numbers. Fractional amounts such as 90000.5, and amounts of 1e16 or more, which Python renders as "1e+16", are not represented.
- `Webhook.SafeName`: Python's isalnum() is decided for ASCII and Latin-1 only. Letters and digits of other scripts, such as "李明", are dropped where the code keeps them.
- `Common.PyRepr`: the escapes repr() uses for control and non-printable characters are not modelled.
- `Common.IsSpace`: strip() and rstrip() remove only the ASCII whitespace (space, \t, \n, \v, \f, \r and \x1c to \x1f), not the other Unicode whitespace Python also removes.
- `AbTest.WinnerFor`: the floating-point chi-square statistic is an input, not computed. The zero-data branch, the threshold test, the confidence and the winner choice are computed from it.
- `AbTest.Campaign.CalculateResults`: the conversion-rate fields and the generated test conclusion text are not modelled.
- `Webhook.IndeedApplicationWebhook`: the 500 answer for an exception outside the applicant creation is not modelled, because nothing in the model raises there.
- `Webhook.NewApplicant`: the File record the resume becomes is a parameter `storeFile`, so the download's failure modes are one `FetchFailed` case.
- Dates and times are abstract (`DateTime` with its renderings), so `strftime` and `str` are not computed.
- application_analytics.py, indeed_dashboard.py, monitoring.py, hooks.py, boot.py, setup/custom_fields.py and the api.py test and statistics endpoints are not part of this model.
- indeed/indeed/install/after_install.py and before_install.py repeat install.py's list and path logic and are not modelled separately. Default settings, permissions and sample data are plain record creation.

## Findings

| source | as written | input that shows it | evidently intended | confidence | as-written member | corrected member |
|---|---|---|---|---|---|---|
| indeed/indeed/doctype/ab_test_campaign/ab_test_campaign.py:23-43 | `validate` runs before `before_save`, so the variant titles it compares are the ones before auto-population | a "Job Title" test whose base job is titled "Engineer", with an empty variant A title and a variant B title of "Engineer": validation passes, then both titles are "Engineer" | a saved campaign always satisfies the rule that the variants differ | medium, not executed | `AbTest.EqualTitlesSaved` | `AbTest.Campaign.SaveRevalidated` |
