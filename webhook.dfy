/** The applicant-ingestion webhook: the signature rule, the resolution of the
    Job Opening, the duplicate check, the Job Applicant it creates (resume file
    name, screening answers) and the recipients of the notification
    (indeed/indeed/utils.py:334-576). */
module Webhook {
  import opened Common
  import opened Platform
  import opened SettingsCache

  const InvalidSignature := "Invalid webhook signature"
  const NoJobOpening := "Could not find corresponding job opening"
  const DuplicateApplication := "Duplicate application"
  const ScreeningHeader := "Screening Questions & Answers:\n\n"

  /** One screening question/answer entry; None is an absent key. */
  datatype QA = QA(question: Option<string>, answer: Option<string>)

  /** The screening_answers value: a list, or any other JSON value. */
  datatype Answers = NotAList | AnswerList(items: seq<QA>)

  /** The form fields of an application; None is an absent key. */
  datatype Payload = Payload(
    jobId: Option<string>,
    externalId: Option<string>,
    candidateName: Option<string>,
    candidateEmail: Option<string>,
    candidatePhone: Option<string>,
    jobTitle: Option<string>,
    applicationDate: Option<string>,
    applicationId: Option<string>,
    resumeUrl: Option<string>,
    screeningAnswers: Option<Answers>)

  /** The resume download: the request failed, or it answered with this content type. */
  datatype ResumeFetch = FetchFailed | Fetched(contentType: string)

  /** validate_indeed_webhook with the settings `s` already read, the
      X-Indeed-Signature header ("" when absent), the raw body and the
      hex digest of HMAC-SHA256 as the function `hmac(secret, body)`. */
  function ValidateWebhook(s: Settings, signature: string, body: string, hmac: (string, string) -> string): (ok: bool)
    ensures s.webhookSecret == "" ==> ok
    ensures s.webhookSecret != "" && signature == "" ==> !ok
    ensures s.webhookSecret != "" ==> (ok <==> signature == "sha256=" + hmac(s.webhookSecret, body))
  {
    if s.webhookSecret == "" then true
    else if signature == "" then false
    else "sha256=" + hmac(s.webhookSecret, body) == signature
  }

  /** The Job Opening an application is for: the job opening of the first
      integration record carrying the Indeed job id, else the external id when
      a Job Opening of that name exists. */
  function ResolveJob(p: Payload, recs: seq<Integration>, jobs: map<string, JobOpening>): (r: Option<string>)
    ensures r.Some? ==> r.value != ""
    ensures r.None? <==>
      (!Truthy(p.jobId) || FindByIndeedId(recs, p.jobId.value).None? || recs[FindByIndeedId(recs, p.jobId.value).value].jobOpening == "")
      && !(Truthy(p.externalId) && p.externalId.value in jobs)
    ensures
      && (!Truthy(p.jobId) || FindByIndeedId(recs, p.jobId.value).None? || recs[FindByIndeedId(recs, p.jobId.value).value].jobOpening == "")
      && Truthy(p.externalId) && p.externalId.value in jobs
      ==> r == Some(p.externalId.value)
  {
    var byIndeedId :=
      if Truthy(p.jobId) then
        match FindByIndeedId(recs, p.jobId.value)
        case Some(k) => recs[k].jobOpening
        case None => ""
      else "";
    if byIndeedId != "" then Some(byIndeedId)
    else if Truthy(p.externalId) && p.externalId.value in jobs then Some(p.externalId.value)
    else None
  }

  /** The external id is consulted only when the Indeed job id resolves nothing. */
  lemma IndeedIdFirst(p: Payload, recs: seq<Integration>, jobs: map<string, JobOpening>, k: nat)
    requires Truthy(p.jobId) && FindByIndeedId(recs, p.jobId.value) == Some(k) && recs[k].jobOpening != ""
    ensures ResolveJob(p, recs, jobs) == Some(recs[k].jobOpening)
  {
  }

  /** Some Job Applicant has this email and job title. */
  predicate ApplicantExists(apps: seq<Applicant>, email: string, title: string) {
    exists k :: 0 <= k < |apps| && apps[k].emailId == email && apps[k].jobTitle == title
  }

  /** The reason create_job_applicant_from_indeed declines before inserting,
      None when it goes on to insert. The duplicate check keys on the
      payload's job title, not on the Job Opening resolved above. */
  function Decline(p: Payload, recs: seq<Integration>, jobs: map<string, JobOpening>, apps: seq<Applicant>): (r: Option<string>)
    ensures ResolveJob(p, recs, jobs).None? ==> r == Some(NoJobOpening)
    ensures ResolveJob(p, recs, jobs).Some? ==>
      (r == Some(DuplicateApplication) <==> ApplicantExists(apps, p.candidateEmail.GetOr(""), p.jobTitle.GetOr("")))
    ensures r.None? <==> ResolveJob(p, recs, jobs).Some? && !ApplicantExists(apps, p.candidateEmail.GetOr(""), p.jobTitle.GetOr(""))
  {
    if ResolveJob(p, recs, jobs).None? then Some(NoJobOpening)
    else if ApplicantExists(apps, p.candidateEmail.GetOr(""), p.jobTitle.GetOr("")) then Some(DuplicateApplication)
    else None
  }

  /** Python's str.isalnum() for the characters it is decided on here: the
      ASCII letters and digits and the Latin-1 ones (ª ² ³ µ ¹ º ¼ ½ ¾, À to Ö,
      Ø to ö, ø to ÿ). Letters and digits of other scripts are not covered. */
  predicate IsAlnum(c: char) {
    || ('a' <= c <= 'z') || ('A' <= c <= 'Z') || ('0' <= c <= '9')
    || c == '\U{AA}' || c == '\U{B2}' || c == '\U{B3}' || c == '\U{B5}' || c == '\U{B9}' || c == '\U{BA}'
    || ('\U{BC}' <= c <= '\U{BE}') || ('\U{C0}' <= c <= '\U{D6}') || ('\U{D8}' <= c <= '\U{F6}')
    || ('\U{F8}' <= c <= '\U{FF}')
  }

  /** The characters the resume file name keeps: letters and digits, space,
      '-' and '_'. */
  predicate SafeChar(c: char) {
    IsAlnum(c) || c == ' ' || c == '-' || c == '_'
  }

  /** The generator expression's filter: the safe characters, in order. */
  function KeepSafe(name: string): (r: string)
    ensures |r| <= |name|
    ensures forall i :: 0 <= i < |r| ==> SafeChar(r[i])
    ensures (forall i :: 0 <= i < |name| ==> SafeChar(name[i])) ==> r == name
  {
    if name == [] then []
    else KeepSafe(name[..|name| - 1]) + (if SafeChar(name[|name| - 1]) then [name[|name| - 1]] else [])
  }

  /** The filter works character by character: a single character is kept
      iff it is safe, and the result for a concatenation is the concatenation
      of the results, so every safe character survives, in its place. */
  lemma {:induction false} KeepSafeAppend(a: string, b: string)
    ensures KeepSafe(a + b) == KeepSafe(a) + KeepSafe(b)
    ensures |b| == 1 ==> KeepSafe(b) == if SafeChar(b[0]) then b else []
    decreases |b|
  {
    if b == [] {
      assert a + b == a;
    } else {
      var n := |b| - 1;
      assert (a + b)[..|a + b| - 1] == a + b[..n];
      assert (a + b)[|a + b| - 1] == b[n];
      KeepSafeAppend(a, b[..n]);
      if |b| == 1 {
        assert b[..n] == [];
      }
    }
  }

  /** The sanitised candidate name: unsafe characters dropped, trailing
      whitespace stripped. It is the filtered name up to its last non-space
      character. */
  function SafeName(name: string): (r: string)
    ensures forall i :: 0 <= i < |r| ==> SafeChar(r[i])
    ensures r == [] || r[|r| - 1] != ' '
    ensures |r| <= |KeepSafe(name)| && r == KeepSafe(name)[..|r|]
    ensures forall i :: |r| <= i < |KeepSafe(name)| ==> KeepSafe(name)[i] == ' '
  {
    var kept := KeepSafe(name);
    var r := RStrip(kept);
    assert forall i :: 0 <= i < |r| ==> r[i] == kept[i];
    r
  }

  /** Sanitising twice changes nothing more. */
  lemma SafeNameIdempotent(name: string)
    ensures SafeName(SafeName(name)) == SafeName(name)
  {
    var once := SafeName(name);
    assert KeepSafe(once) == once;
    RStripStripped(once);
  }

  /** Punctuation is dropped, an accented letter is kept, and the trailing
      space is stripped. */
  lemma SafeNameExample()
    ensures SafeName("Zo\U{EB}! ") == "Zo\U{EB}"
  {
    KeepSafeExample();
  }

  /** The filter drops the '!' and keeps the accented letter and the space. */
  lemma KeepSafeExample()
    ensures KeepSafe("Zo\U{EB}! ") == "Zo\U{EB} "
  {
    assert KeepSafe("! ") == " " by { assert "! " == "!" + " "; KeepSafeAppend("!", " "); }
    assert "Zo\U{EB}! " == "Zo\U{EB}" + "! ";
    KeepSafeAppend("Zo\U{EB}", "! ");
  }

  lemma {:induction false} RStripStripped(s: string)
    requires s == [] || !IsSpace(s[|s| - 1])
    ensures RStrip(s) == s
  {
  }

  /** "pdf" when the content type mentions pdf, else "doc" when it mentions doc, else "pdf". */
  function ResumeExtension(contentType: string): (r: string)
    ensures r == "pdf" || r == "doc"
    ensures r == "doc" <==> !Contains(contentType, "pdf") && Contains(contentType, "doc")
  {
    if Contains(contentType, "pdf") then "pdf"
    else if Contains(contentType, "doc") then "doc"
    else "pdf"
  }

  /** The file name the resume is stored under. */
  function ResumeFileName(candidate: string, contentType: string): string {
    SafeName(candidate) + "_resume." + ResumeExtension(contentType)
  }

  /** The file name is the sanitised name followed by "_resume.pdf" or
      "_resume.doc"; every character before that suffix is a safe one. */
  lemma ResumeFileNameShape(candidate: string, contentType: string)
    ensures var r := ResumeFileName(candidate, contentType);
      && |r| >= 11
      && (r[|r| - 11..] == "_resume.pdf" || r[|r| - 11..] == "_resume.doc")
      && r[|r| - 11..] == "_resume." + ResumeExtension(contentType)
      && r[..|r| - 11] == SafeName(candidate)
      && (forall i :: 0 <= i < |r| - 11 ==> SafeChar(r[i]))
  {
    var safe := SafeName(candidate);
    var ext := ResumeExtension(contentType);
    var suffix := "_resume." + ext;
    assert |suffix| == 11 && (suffix == "_resume.pdf" || suffix == "_resume.doc");
    ConcatParts(safe, suffix);
  }

  /** The parts of a concatenation are its prefix and its suffix. */
  lemma ConcatParts(a: string, b: string)
    ensures (a + b)[|a|..] == b
    ensures (a + b)[..|a|] == a
    ensures forall i :: 0 <= i < |a| ==> (a + b)[i] == a[i]
  {
  }

  /** The block of one screening entry, numbered from 1. */
  function Block(i: nat, qa: QA): string {
    "Q" + NatToString(i) + ": " + qa.question.GetOr("Question " + NatToString(i)) + "\n"
    + "A" + NatToString(i) + ": " + qa.answer.GetOr("No answer provided") + "\n\n"
  }

  /** The blocks of the entries, the k-th numbered k + 1 (built as the loop does, last block last). */
  function Blocks(items: seq<QA>): string {
    if items == [] then "" else Blocks(items[..|items| - 1]) + Block(|items|, items[|items| - 1])
  }

  /** The same blocks read from the front: entry number `start` first. */
  function BlocksFrom(items: seq<QA>, start: nat): string {
    if items == [] then "" else Block(start, items[0]) + BlocksFrom(items[1..], start + 1)
  }

  lemma {:induction false} BlocksFromSnoc(items: seq<QA>, start: nat, qa: QA)
    ensures BlocksFrom(items + [qa], start) == BlocksFrom(items, start) + Block(start + |items|, qa)
    decreases |items|
  {
    var xs := items + [qa];
    if items != [] {
      assert xs[0] == items[0];
      assert xs[1..] == items[1..] + [qa];
      BlocksFromSnoc(items[1..], start + 1, qa);
      var head := Block(start, items[0]);
      var tail := BlocksFrom(items[1..], start + 1);
      var last := Block(start + |items|, qa);
      calc {
        BlocksFrom(xs, start);
        head + BlocksFrom(xs[1..], start + 1);
        head + (tail + last);
        { assert head + (tail + last) == (head + tail) + last; }
        (head + tail) + last;
        BlocksFrom(items, start) + last;
      }
    } else {
      assert xs[1..] == [];
    }
  }

  /** Numbering the entries from 1 in order, whichever end one reads from. */
  lemma {:induction false} BlocksNumberedFromOne(items: seq<QA>)
    ensures Blocks(items) == BlocksFrom(items, 1)
  {
    if items != [] {
      var n := |items| - 1;
      BlocksNumberedFromOne(items[..n]);
      BlocksFromSnoc(items[..n], 1, items[n]);
      assert items[..n] + [items[n]] == items;
    }
  }

  lemma BlocksSnoc(items: seq<QA>, i: nat)
    requires i < |items|
    ensures Blocks(items[..i + 1]) == Blocks(items[..i]) + Block(i + 1, items[i])
  {
    assert items[..i + 1][..i] == items[..i];
  }

  /** One iteration of the loop: the question line, then the answer line. */
  method AppendBlock(formatted: string, i: nat, qa: QA) returns (r: string)
    ensures r == formatted + Block(i, qa)
  {
    var question := qa.question.GetOr("Question " + NatToString(i));
    var answer := qa.answer.GetOr("No answer provided");
    r := formatted + "Q" + NatToString(i) + ": " + question + "\n";
    r := r + "A" + NatToString(i) + ": " + answer + "\n\n";
  }

  /** The text format_screening_answers returns. */
  function ScreeningText(answers: Answers): string {
    if answers.NotAList? || answers.items == [] then "" else ScreeningHeader + Blocks(answers.items)
  }

  /** format_screening_answers: "" for an empty or non-list value, otherwise
      the header and one block per entry, numbered from 1 in order. */
  method FormatScreeningAnswers(answers: Answers) returns (formatted: string)
    ensures formatted == ScreeningText(answers)
    ensures answers.AnswerList? && answers.items != [] ==>
      formatted == ScreeningHeader + BlocksFrom(answers.items, 1)
  {
    if answers.NotAList? || answers.items == [] {
      return "";
    }
    formatted := FormatEntries(answers.items);
    BlocksNumberedFromOne(answers.items);
  }

  /** The loop of format_screening_answers: the header, then each entry's
      block appended in turn. */
  method FormatEntries(items: seq<QA>) returns (formatted: string)
    ensures formatted == ScreeningHeader + Blocks(items)
  {
    formatted := ScreeningHeader;
    var i := 0;
    assert items[..0] == [];
    while i < |items|
      invariant FormattedUpTo(formatted, items, i)
    {
      var next := AppendBlock(formatted, i + 1, items[i]);
      FormatStep(formatted, items, i);
      formatted := next;
      i := i + 1;
    }
    assert items[..i] == items;
  }

  /** The loop state after i entries. */
  ghost predicate FormattedUpTo(formatted: string, items: seq<QA>, i: int) {
    0 <= i <= |items| && formatted == ScreeningHeader + Blocks(items[..i])
  }

  lemma FormatStep(formatted: string, items: seq<QA>, i: nat)
    requires FormattedUpTo(formatted, items, i) && i < |items|
    ensures FormattedUpTo(formatted + Block(i + 1, items[i]), items, i + 1)
  {
    BlocksSnoc(items, i);
  }

  /** The fields of the new Job Applicant named `name`, with `now` the clock,
      `fetch` what the resume download gives and `storeFile` the URL the File
      record gets for a file name. */
  function NewApplicant(p: Payload, name: string, now: DateTime, fetch: ResumeFetch,
                        storeFile: string -> string): (a: Applicant)
    ensures a.source == "Indeed" && a.status == "Open" && a.name == name
    ensures a.emailId == p.candidateEmail.GetOr("") && a.jobTitle == p.jobTitle.GetOr("")
    ensures a.applicantName == p.candidateName.GetOr("Unknown")
    ensures a.notes == "Applied via Indeed on " + p.applicationDate.GetOr(now.text)
    ensures a.resumeAttachment != "" ==> Truthy(p.resumeUrl) && fetch.Fetched?
    ensures Truthy(p.resumeUrl) && fetch.Fetched? ==>
      a.resumeAttachment == storeFile(ResumeFileName(p.candidateName.GetOr("candidate"), fetch.contentType))
    ensures a.coverLetter == (if p.screeningAnswers.Some? then ScreeningText(p.screeningAnswers.value) else "")
  {
    Applicant(
      name := name,
      applicantName := p.candidateName.GetOr("Unknown"),
      emailId := p.candidateEmail.GetOr(""),
      phoneNumber := p.candidatePhone.GetOr(""),
      jobTitle := p.jobTitle.GetOr(""),
      source := "Indeed",
      status := "Open",
      notes := "Applied via Indeed on " + p.applicationDate.GetOr(now.text),
      indeedApplicationId := p.applicationId.GetOr(""),
      resumeAttachment :=
        if Truthy(p.resumeUrl) && fetch.Fetched? && storeFile(ResumeFileName(p.candidateName.GetOr("candidate"), fetch.contentType)) != ""
        then storeFile(ResumeFileName(p.candidateName.GetOr("candidate"), fetch.contentType))
        else "",
      coverLetter := if p.screeningAnswers.Some? then ScreeningText(p.screeningAnswers.value) else "")
  }

  /** Once an application is stored, the same candidate applying again with
      the same payload job title is declined as a duplicate, whichever job it
      resolves to. */
  lemma SecondApplicationIsDuplicate(p: Payload, p': Payload, recs: seq<Integration>, jobs: map<string, JobOpening>,
                                     apps: seq<Applicant>, a: Applicant)
    requires a.emailId == p.candidateEmail.GetOr("") && a.jobTitle == p.jobTitle.GetOr("")
    requires p'.candidateEmail == p.candidateEmail && p'.jobTitle == p.jobTitle
    requires ResolveJob(p', recs, jobs).Some?
    ensures Decline(p', recs, jobs, apps + [a]) == Some(DuplicateApplication)
  {
    assert (apps + [a])[|apps|] == a;
  }

  /** The distinct non-empty addresses of `emails`, appended after `acc` in
      order of first occurrence. */
  function AddUnique(acc: seq<string>, emails: seq<string>): seq<string> {
    if emails == [] then acc
    else
      var r := AddUnique(acc, emails[..|emails| - 1]);
      var e := emails[|emails| - 1];
      if e != "" && e !in r then r + [e] else r
  }

  /** The recipient list: the contact email when set, then each HR user's email. */
  function Recipients(contact: string, emails: seq<string>): seq<string> {
    AddUnique(if contact != "" then [contact] else [], emails)
  }

  lemma {:induction false} AddUniqueSpec(acc: seq<string>, emails: seq<string>)
    requires NoDuplicates(acc) && "" !in acc
    ensures var r := AddUnique(acc, emails);
      && NoDuplicates(r) && "" !in r
      && |r| >= |acc| && r[..|acc|] == acc
      && (forall e :: e in r <==> e in acc || (e != "" && e in emails))
  {
    if emails != [] {
      var n := |emails| - 1;
      AddUniqueSpec(acc, emails[..n]);
      var r := AddUnique(acc, emails[..n]);
      assert forall e :: e in emails <==> e in emails[..n] || e == emails[n] by {
        assert emails == emails[..n] + [emails[n]];
      }
      if emails[n] != "" && emails[n] !in r {
        assert (r + [emails[n]])[..|acc|] == r[..|acc|];
      }
    }
  }

  /** Every recipient is set and listed once; the contact comes first; the
      list holds exactly the contact and the HR users' non-empty emails. */
  lemma RecipientsSpec(contact: string, emails: seq<string>)
    ensures var r := Recipients(contact, emails);
      && NoDuplicates(r) && "" !in r
      && (contact != "" ==> |r| > 0 && r[0] == contact)
      && (forall e :: e in r <==> (e != "" && (e == contact || e in emails)))
  {
    var acc := if contact != "" then [contact] else [];
    AddUniqueSpec(acc, emails);
    if contact != "" {
      assert Recipients(contact, emails)[..1] == [contact];
    }
  }

  /** The recipient loop of send_new_applicant_notification. */
  method NotificationRecipients(contact: string, emails: seq<string>) returns (recipients: seq<string>)
    ensures recipients == Recipients(contact, emails)
  {
    recipients := [];
    if contact != "" {
      recipients := recipients + [contact];
    }
    var i := 0;
    while i < |emails|
      invariant 0 <= i <= |emails|
      invariant recipients == AddUnique(if contact != "" then [contact] else [], emails[..i])
    {
      assert emails[..i + 1][..i] == emails[..i];
      if emails[i] != "" && emails[i] !in recipients {
        recipients := recipients + [emails[i]];
      }
      i := i + 1;
    }
    assert emails[..i] == emails;
  }

  /** What create_job_applicant_from_indeed returns. */
  datatype CreateResult = Created(applicantId: string) | NotCreated(error: string)

  /** create_job_applicant_from_indeed with the settings `s` already read.
      `insertError` is the message of the exception the Job Applicant insert
      raises, if any. Returns the result and the notification's recipients
      (empty when nothing is sent). */
  method CreateJobApplicant(site: Site, s: Settings, p: Payload, now: DateTime, newName: string, fetch: ResumeFetch,
                            storeFile: string -> string, insertError: Option<string>)
    returns (r: CreateResult, recipients: seq<string>)
    modifies site`applicants
    ensures Decline(p, site.integrations, site.jobOpenings, old(site.applicants)).Some? ==>
      && r == NotCreated(Decline(p, site.integrations, site.jobOpenings, old(site.applicants)).value)
      && site.applicants == old(site.applicants) && recipients == []
    ensures Decline(p, site.integrations, site.jobOpenings, old(site.applicants)).None? && insertError.Some? ==>
      r == NotCreated(insertError.value) && site.applicants == old(site.applicants) && recipients == []
    ensures Decline(p, site.integrations, site.jobOpenings, old(site.applicants)).None? && insertError.None? ==>
      && r == Created(newName)
      && site.applicants == old(site.applicants) + [NewApplicant(p, newName, now, fetch, storeFile)]
      && recipients == Recipients(s.contactEmail, site.hrEmails)
  {
    recipients := [];
    var decline := Decline(p, site.integrations, site.jobOpenings, site.applicants);
    if decline.Some? {
      return NotCreated(decline.value), recipients;
    }
    var applicant := NewApplicant(p, newName, now, fetch, storeFile);
    if insertError.Some? {
      return NotCreated(insertError.value), recipients;
    }
    site.applicants := site.applicants + [applicant];
    recipients := NotificationRecipients(s.contactEmail, site.hrEmails);
    r := Created(newName);
  }

  /** The endpoint's answer: HTTP status, status word, message and applicant id. */
  datatype WebhookResponse = WebhookResponse(httpStatus: int, status: string, message: string, applicantId: Option<string>)

  /** indeed_application_webhook. */
  method IndeedApplicationWebhook(site: Site, signature: string, body: string, p: Payload, now: DateTime,
                                  hmac: (string, string) -> string, newName: string, fetch: ResumeFetch,
                                  storeFile: string -> string, insertError: Option<string>)
    returns (resp: WebhookResponse)
    modifies site`cache, site`applicants
    ensures var s := ReadSettings(old(site.cache), site.settingsDoc, now.instant);
      !ValidateWebhook(s, signature, body, hmac) ==>
        resp == WebhookResponse(401, "error", InvalidSignature, None) && site.applicants == old(site.applicants)
    ensures var s := ReadSettings(old(site.cache), site.settingsDoc, now.instant);
      ValidateWebhook(s, signature, body, hmac) ==>
        && (resp.httpStatus == 200 <==> site.applicants != old(site.applicants))
        && (resp.httpStatus == 200 ==> resp == WebhookResponse(200, "success", "Application processed", Some(newName)))
        && (resp.httpStatus != 200 ==> resp.httpStatus == 400 && resp.status == "error")
        && (Decline(p, site.integrations, site.jobOpenings, old(site.applicants)).Some? ==>
              resp.message == Decline(p, site.integrations, site.jobOpenings, old(site.applicants)).value)
  {
    var s := GetIntegrationSettings(site, now.instant);
    if !ValidateWebhook(s, signature, body, hmac) {
      return WebhookResponse(401, "error", InvalidSignature, None);
    }
    var r, _ := CreateJobApplicant(site, s, p, now, newName, fetch, storeFile, insertError);
    if r.Created? {
      resp := WebhookResponse(200, "success", "Application processed", Some(r.applicantId));
    } else {
      resp := WebhookResponse(400, "error", r.error, None);
    }
  }
}
