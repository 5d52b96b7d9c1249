/** The A/B Test Campaign controller
    (indeed/indeed/doctype/ab_test_campaign/ab_test_campaign.py): validation of
    the test configuration, auto-population of the variants from the base job,
    the status-triggered start of a test and computation of its results, and
    the cloning of the winning variant. The campaign document is a class whose
    methods assign its fields, as the controller's methods assign `self`. */
module AbTest {
  import opened Common
  import opened Platform

  const JobTitleVariable := "Job Title"
  const JobDescriptionVariable := "Job Description"
  const CompletedStatus := "Completed"

  const VariantA := "Variant A"
  const VariantB := "Variant B"
  const NoSignificantDifference := "No Significant Difference"

  const EndBeforeStart := "End date must be after start date"
  const SplitOutOfRange := "Traffic split must be between 10% and 90%"
  const SameTitles := "Variant A and B titles must be different for testing"
  const SameDescriptions := "Variant A and B descriptions must be different for testing"
  const BaseJobRequired := "Base job opening is required to start test"
  const NoClearWinner := "Cannot clone - no clear winner determined"
  const WinningJobNotFound := "Winning variant job not found"

  const VariantBSuffix := " (Variant B)"
  const OptimizedSuffix := " (Optimized)"

  /** The views the controller assumes for a variant job that exists. */
  const PlaceholderViews := 100

  /** The chi-square value above which the difference counts as significant. */
  const ChiSquareThreshold := 3.84

  /** Applications and views of one variant. */
  datatype Metrics = Metrics(applications: nat, views: nat)

  /** The winner, the confidence level (percent) and the significance flag. */
  datatype Verdict = Verdict(winner: string, confidence: real, significant: bool)

  const NoVerdict := Verdict(NoSignificantDifference, 0.0, false)

  /** The applicants of job `job` that the test-period filter keeps. */
  function CountApplications(apps: seq<Applicant>, job: string, inPeriod: Applicant -> bool): (n: nat)
    ensures n <= |apps|
    ensures n == 0 <==> forall i :: 0 <= i < |apps| ==> !(apps[i].jobTitle == job && inPeriod(apps[i]))
  {
    if apps == [] then 0
    else
      var k := CountApplications(apps[1..], job, inPeriod);
      assert forall i :: 1 <= i < |apps| ==> apps[i] == apps[1..][i - 1];
      if apps[0].jobTitle == job && inPeriod(apps[0]) then k + 1 else k
  }

  /** get_variant_metrics: a variant without a job has neither applications
      nor views; one with a job has its counted applications and the fixed
      placeholder views. */
  function VariantMetrics(job: string, apps: seq<Applicant>, inPeriod: Applicant -> bool): (m: Metrics)
    ensures m.views > 0 <==> job != ""
    ensures job == "" ==> m.applications == 0
    ensures job != "" ==> m.views == PlaceholderViews && m.applications == CountApplications(apps, job, inPeriod)
    ensures m.applications <= |apps|
  {
    if job == "" then Metrics(0, 0)
    else Metrics(CountApplications(apps, job, inPeriod), PlaceholderViews)
  }

  /** Applications per hundred views; 0 without views. */
  function ConversionRate(m: Metrics): (r: real)
    ensures r >= 0.0
    ensures m.views == PlaceholderViews ==> r == m.applications as real
  {
    if m.views > 0 then m.applications as real / m.views as real * 100.0 else 0.0
  }

  /** A variant with a job converts at exactly its application count per
      hundred placeholder views; one without a job converts at 0. */
  lemma VariantConversionRate(job: string, apps: seq<Applicant>, inPeriod: Applicant -> bool)
    ensures job != "" ==> ConversionRate(VariantMetrics(job, apps, inPeriod)) == CountApplications(apps, job, inPeriod) as real
    ensures job == "" ==> ConversionRate(VariantMetrics(job, apps, inPeriod)) == 0.0
  {
  }

  /** determine_winner. `chiSquare` is the simplified chi-square statistic of
      the two variants, which the controller computes in floating point and
      which is taken here as given. Without applications or views there is no
      winner; a winner exists exactly when the result is significant, needs
      views on both variants and goes to the variant with the higher
      conversion rate (B on a tie). */
  function WinnerFor(a: Metrics, b: Metrics, chiSquare: real): (v: Verdict)
    ensures a.applications + b.applications == 0 || a.views + b.views == 0 ==> v == NoVerdict
    ensures v.winner == VariantA || v.winner == VariantB || v.winner == NoSignificantDifference
    ensures v.significant <==> v.winner != NoSignificantDifference
    ensures v.significant ==> a.views > 0 && b.views > 0 && v.confidence == 95.0 && chiSquare > ChiSquareThreshold
    ensures v.winner == VariantA ==> ConversionRate(a) > ConversionRate(b)
    ensures v.winner == VariantB ==> ConversionRate(a) <= ConversionRate(b)
    ensures a.views == 0 || b.views == 0 ==> v == NoVerdict
    ensures a.views > 0 && b.views > 0 && a.applications + b.applications > 0 ==>
      && (v.significant <==> chiSquare > ChiSquareThreshold)
      && (!v.significant ==> v.confidence == chiSquare / ChiSquareThreshold * 95.0)
  {
    var totalApps := a.applications + b.applications;
    var totalViews := a.views + b.views;
    if totalApps == 0 || totalViews == 0 then NoVerdict
    else
      var expectedA := a.views as real / totalViews as real * totalApps as real;
      var expectedB := b.views as real / totalViews as real * totalApps as real;
      assert a.views == 0 ==> expectedA == 0.0;
      assert b.views == 0 ==> expectedB == 0.0;
      assert a.views > 0 ==> expectedA > 0.0 by {
        if a.views > 0 { PositiveShare(a.views, totalViews, totalApps); }
      }
      assert b.views > 0 ==> expectedB > 0.0 by {
        if b.views > 0 { PositiveShare(b.views, totalViews, totalApps); }
      }
      if expectedA > 0.0 && expectedB > 0.0 then
        if chiSquare > ChiSquareThreshold then
          Verdict(if ConversionRate(a) > ConversionRate(b) then VariantA else VariantB, 95.0, true)
        else
          Verdict(NoSignificantDifference, chiSquare / ChiSquareThreshold * 95.0, false)
      else NoVerdict
  }

  /** A positive share of a positive total is positive. */
  lemma PositiveShare(part: nat, whole: nat, total: nat)
    requires 0 < part <= whole && 0 < total
    ensures part as real / whole as real * total as real > 0.0
  {
    assert part as real / whole as real > 0.0;
  }

  /** A copy of the base job carrying one variant's title and description,
      linked to the campaign, labelled with the variant and set to be posted. */
  function VariantJob(base: JobOpening, letter: string, title: string, description: string,
                      campaign: string, newName: string, now: DateTime): JobOpening
  {
    base.(name := newName, jobTitle := title, description := description,
          customAbTestCampaign := campaign, customAbTestVariant := "Variant " + letter,
          customPostToIndeed := true, creation := Some(now))
  }

  /** A copy of the winning job, titled as optimized and no longer linked to
      the campaign. */
  function OptimizedJob(winning: JobOpening, newName: string, now: DateTime): JobOpening
  {
    winning.(name := newName, jobTitle := winning.jobTitle + OptimizedSuffix,
             customAbTestCampaign := "", customAbTestVariant := "", creation := Some(now))
  }

  /** An AB Test Campaign document. Dates are day numbers, None when unset;
      text fields hold "" when unset. */
  class Campaign {
    const name: string
    var status: string
    var testVariable: string
    var startDate: Option<int>
    var endDate: Option<int>
    var trafficSplit: int
    var baseJobOpening: string
    var variantATitle: string
    var variantADescription: string
    var variantBTitle: string
    var variantBDescription: string
    var variantAJob: string
    var variantBJob: string
    var variantAApplications: nat
    var variantBApplications: nat
    var winner: string
    var confidenceLevel: real
    var statisticalSignificance: bool

    constructor (name: string)
      ensures this.name == name && status == "" && testVariable == ""
      ensures startDate == None && endDate == None && trafficSplit == 0
      ensures baseJobOpening == "" && variantATitle == "" && variantADescription == ""
      ensures variantBTitle == "" && variantBDescription == "" && variantAJob == "" && variantBJob == ""
      ensures variantAApplications == 0 && variantBApplications == 0
      ensures winner == "" && confidenceLevel == 0.0 && !statisticalSignificance
    {
      this.name := name;
      status := "";
      testVariable := "";
      startDate := None;
      endDate := None;
      trafficSplit := 0;
      baseJobOpening := "";
      variantATitle := "";
      variantADescription := "";
      variantBTitle := "";
      variantBDescription := "";
      variantAJob := "";
      variantBJob := "";
      variantAApplications := 0;
      variantBApplications := 0;
      winner := "";
      confidenceLevel := 0.0;
      statisticalSignificance := false;
    }

    /** The configuration a test may run with: the period, when both ends are
        set, is not empty; the split is 10..90 inclusive; the variants differ
        in the variable under test. */
    predicate Acceptable()
      reads this
    {
      && (startDate.Some? && endDate.Some? ==> startDate.value < endDate.value)
      && 10 <= trafficSplit <= 90
      && (testVariable == JobTitleVariable ==> variantATitle != variantBTitle)
      && (testVariable == JobDescriptionVariable ==> variantADescription != variantBDescription)
    }

    /** validate: passes exactly on an acceptable configuration, and reports
        the first violated rule in the order dates, split, titles,
        descriptions. */
    function Validate(): (o: Outcome)
      reads this
      ensures o.Pass? <==> Acceptable()
      ensures o == Fail(EndBeforeStart) <==> startDate.Some? && endDate.Some? && startDate.value >= endDate.value
      ensures o == Fail(SplitOutOfRange) <==>
        (startDate.Some? && endDate.Some? ==> startDate.value < endDate.value) && !(10 <= trafficSplit <= 90)
      ensures o == Fail(SameTitles) <==>
        && (startDate.Some? && endDate.Some? ==> startDate.value < endDate.value) && 10 <= trafficSplit <= 90
        && testVariable == JobTitleVariable && variantATitle == variantBTitle
      ensures o == Fail(SameDescriptions) <==>
        && (startDate.Some? && endDate.Some? ==> startDate.value < endDate.value) && 10 <= trafficSplit <= 90
        && testVariable == JobDescriptionVariable && variantADescription == variantBDescription
    {
      if startDate.Some? && endDate.Some? && startDate.value >= endDate.value then Fail(EndBeforeStart)
      else if trafficSplit < 10 || trafficSplit > 90 then Fail(SplitOutOfRange)
      else if testVariable == JobTitleVariable && variantATitle == variantBTitle then Fail(SameTitles)
      else if testVariable == JobDescriptionVariable && variantADescription == variantBDescription then Fail(SameDescriptions)
      else Pass
    }

    /** What before_save leaves. */
    twostate predicate Populated(jobs: map<string, JobOpening>, o: Outcome)
      reads this
    {
      && (!(baseJobOpening != "" && old(variantATitle) == "") ==>
            o == Pass && variantATitle == old(variantATitle) && variantADescription == old(variantADescription)
            && variantBTitle == old(variantBTitle))
      && (baseJobOpening != "" && old(variantATitle) == "" && baseJobOpening !in jobs ==>
            o == Fail(NotFound("Job Opening", baseJobOpening)) && variantATitle == old(variantATitle)
            && variantADescription == old(variantADescription) && variantBTitle == old(variantBTitle))
      && (baseJobOpening != "" && old(variantATitle) == "" && baseJobOpening in jobs ==>
            && o == Pass
            && variantATitle == jobs[baseJobOpening].jobTitle
            && variantADescription == jobs[baseJobOpening].description
            && variantBTitle == (if old(variantBTitle) == "" then jobs[baseJobOpening].jobTitle + VariantBSuffix
                                 else old(variantBTitle)))
    }

    /** before_save: with a base job and no title for variant A, variant A
        takes the base job's title and description, and variant B's title,
        when empty, becomes the base title marked as variant B. A base job
        that does not exist raises. */
    method BeforeSave(jobs: map<string, JobOpening>) returns (o: Outcome)
      modifies this`variantATitle, this`variantADescription, this`variantBTitle
      ensures Populated(jobs, o)
    {
      o := Pass;
      if baseJobOpening != "" && variantATitle == "" {
        if baseJobOpening !in jobs {
          return Fail(NotFound("Job Opening", baseJobOpening));
        }
        var job := jobs[baseJobOpening];
        variantATitle := job.jobTitle;
        variantADescription := job.description;
        if variantBTitle == "" {
          variantBTitle := job.jobTitle + VariantBSuffix;
        }
      }
    }

    /** A save as the platform runs the hooks: validate, then before_save.
        The validation sees the fields before auto-population, so it vouches
        only for the old values. */
    method Save(jobs: map<string, JobOpening>) returns (o: Outcome)
      modifies this`variantATitle, this`variantADescription, this`variantBTitle
      ensures o.Pass? ==> old(Acceptable())
      ensures old(Validate()).Pass? ==> Populated(jobs, o)
      ensures old(Validate()).Fail? ==>
        o == old(Validate()) && variantATitle == old(variantATitle)
        && variantADescription == old(variantADescription) && variantBTitle == old(variantBTitle)
    {
      o := Validate();
      if o.Pass? {
        o := BeforeSave(jobs);
      }
    }

    /** A save that checks the configuration again after auto-population, so
        that a saved campaign always satisfies the validation rules. */
    method SaveRevalidated(jobs: map<string, JobOpening>) returns (o: Outcome)
      modifies this`variantATitle, this`variantADescription, this`variantBTitle
      ensures o.Pass? ==> old(Acceptable()) && Acceptable()
      ensures old(Validate()).Fail? ==>
        o == old(Validate()) && variantATitle == old(variantATitle)
        && variantADescription == old(variantADescription) && variantBTitle == old(variantBTitle)
    {
      o := Validate();
      if o.Pass? {
        o := BeforeSave(jobs);
        if o.Pass? {
          o := Validate();
        }
      }
    }

    /** on_update: the test starts when the status has become Active, and the
        results are computed when it has become Completed. `previousStatus`
        is the status before this save, None for a new campaign (whose status
        counts as changed). `chiSquare` and `inPeriod` are as for
        CalculateResults. */
    method OnUpdate(site: Site, previousStatus: Option<string>, nameA: string, nameB: string, now: DateTime,
                    inPeriod: Applicant -> bool, chiSquare: real) returns (o: Outcome)
      requires site.Valid()
      requires nameA != "" && nameB != "" && nameA != nameB
      requires nameA !in site.jobOpenings && nameB !in site.jobOpenings
      modifies this`variantAJob, this`variantBJob, this`variantAApplications, this`variantBApplications
      modifies this`winner, this`confidenceLevel, this`statisticalSignificance, site`jobOpenings
      ensures site.Valid()
      ensures var changed := previousStatus.None? || previousStatus.value != status;
        !(changed && (status == Active || status == CompletedStatus)) ==>
          o == Pass && site.jobOpenings == old(site.jobOpenings) && Unchanged()
      ensures var changed := previousStatus.None? || previousStatus.value != status;
        changed && status == Active ==>
          Started(site, old(site.jobOpenings), nameA, nameB, now, o) && ResultsAsBefore()
      ensures var changed := previousStatus.None? || previousStatus.value != status;
        changed && status == CompletedStatus ==>
          o == Pass && site.jobOpenings == old(site.jobOpenings) && variantAJob == old(variantAJob)
          && variantBJob == old(variantBJob) && Computed(site.applicants, inPeriod, chiSquare)
    {
      o := Pass;
      var changed := previousStatus.None? || previousStatus.value != status;
      if status == Active && changed {
        o := StartTest(site, nameA, nameB, now);
      } else if status == CompletedStatus && changed {
        CalculateResults(site.applicants, inPeriod, chiSquare);
      }
    }

    /** Nothing on_update may write has changed. */
    twostate predicate Unchanged()
      reads this
    {
      && variantAJob == old(variantAJob) && variantBJob == old(variantBJob)
      && ResultsAsBefore()
    }

    /** The result fields have not changed. */
    twostate predicate ResultsAsBefore()
      reads this
    {
      && variantAApplications == old(variantAApplications) && variantBApplications == old(variantBApplications)
      && winner == old(winner) && confidenceLevel == old(confidenceLevel)
      && statisticalSignificance == old(statisticalSignificance)
    }

    /** What start_ab_test leaves: without a base job, or with one that does
        not exist, it raises and nothing changes; otherwise both variant jobs
        exist under the given names and the campaign links them. */
    twostate predicate Started(site: Site, jobsBefore: map<string, JobOpening>, nameA: string, nameB: string,
                               now: DateTime, o: Outcome)
      reads this, site
    {
      && (baseJobOpening == "" ==> o == Fail(BaseJobRequired))
      && (baseJobOpening != "" && baseJobOpening !in jobsBefore ==> o == Fail(NotFound("Job Opening", baseJobOpening)))
      && (o.Fail? ==> site.jobOpenings == jobsBefore && variantAJob == old(variantAJob) && variantBJob == old(variantBJob))
      && (o.Pass? <==> baseJobOpening != "" && baseJobOpening in jobsBefore)
      && (o.Pass? ==>
            && site.jobOpenings == jobsBefore
                 [nameA := VariantJob(jobsBefore[baseJobOpening], "A", variantATitle, variantADescription, name, nameA, now)]
                 [nameB := VariantJob(jobsBefore[baseJobOpening], "B", variantBTitle, variantBDescription, name, nameB, now)]
            && variantAJob == nameA && variantBJob == nameB)
    }

    /** start_ab_test: creates a job for each variant from the base job and
        links both to the campaign. */
    method StartTest(site: Site, nameA: string, nameB: string, now: DateTime) returns (o: Outcome)
      requires site.Valid()
      requires nameA != "" && nameB != "" && nameA != nameB
      requires nameA !in site.jobOpenings && nameB !in site.jobOpenings
      modifies this`variantAJob, this`variantBJob, site`jobOpenings
      ensures site.Valid()
      ensures Started(site, old(site.jobOpenings), nameA, nameB, now, o)
    {
      if baseJobOpening == "" {
        return Fail(BaseJobRequired);
      }
      if baseJobOpening !in site.jobOpenings {
        return Fail(NotFound("Job Opening", baseJobOpening));
      }
      var base := site.jobOpenings[baseJobOpening];
      var variantA := VariantJob(base, "A", variantATitle, variantADescription, name, nameA, now);
      site.jobOpenings := site.jobOpenings[nameA := variantA];
      var variantB := VariantJob(base, "B", variantBTitle, variantBDescription, name, nameB, now);
      site.jobOpenings := site.jobOpenings[nameB := variantB];
      variantAJob := nameA;
      variantBJob := nameB;
      o := Pass;
    }

    /** The result fields hold each variant's applications and the verdict
        on the two variants' metrics. */
    predicate Computed(apps: seq<Applicant>, inPeriod: Applicant -> bool, chiSquare: real)
      reads this
    {
      var a := VariantMetrics(variantAJob, apps, inPeriod);
      var b := VariantMetrics(variantBJob, apps, inPeriod);
      && variantAApplications == a.applications && variantBApplications == b.applications
      && Verdict(winner, confidenceLevel, statisticalSignificance) == WinnerFor(a, b, chiSquare)
    }

    /** calculate_results: the metrics of both variants and the verdict.
        `inPeriod` says whether an applicant's application date lies in the
        test period. A winner is only ever declared between two existing
        variant jobs. */
    method CalculateResults(apps: seq<Applicant>, inPeriod: Applicant -> bool, chiSquare: real)
      modifies this`variantAApplications, this`variantBApplications
      modifies this`winner, this`confidenceLevel, this`statisticalSignificance
      ensures Computed(apps, inPeriod, chiSquare)
      ensures winner != NoSignificantDifference ==> variantAJob != "" && variantBJob != ""
      ensures variantAApplications + variantBApplications == 0 ==>
        winner == NoSignificantDifference && confidenceLevel == 0.0 && !statisticalSignificance
    {
      var a := VariantMetrics(variantAJob, apps, inPeriod);
      var b := VariantMetrics(variantBJob, apps, inPeriod);
      variantAApplications := a.applications;
      variantBApplications := b.applications;
      DetermineWinner(a, b, chiSquare);
    }

    /** determine_winner: records the verdict on the fields. */
    method DetermineWinner(a: Metrics, b: Metrics, chiSquare: real)
      modifies this`winner, this`confidenceLevel, this`statisticalSignificance
      ensures Verdict(winner, confidenceLevel, statisticalSignificance) == WinnerFor(a, b, chiSquare)
    {
      var v := WinnerFor(a, b, chiSquare);
      winner := v.winner;
      confidenceLevel := v.confidence;
      statisticalSignificance := v.significant;
    }

    /** clone_winning_variant: refuses without a clear winner; takes variant
        A's job exactly when A won and B's otherwise; the job must be linked
        and exist; the copy is titled as optimized, unlinked from the
        campaign, and its name is returned. */
    method CloneWinningVariant(site: Site, newName: string, now: DateTime) returns (r: Result<string>)
      requires site.Valid()
      requires newName != "" && newName !in site.jobOpenings
      modifies site`jobOpenings
      ensures site.Valid()
      ensures winner == "" || winner == NoSignificantDifference ==> r == Err(NoClearWinner)
      ensures var job := if winner == VariantA then variantAJob else variantBJob;
        && (winner != "" && winner != NoSignificantDifference && job == "" ==> r == Err(WinningJobNotFound))
        && (winner != "" && winner != NoSignificantDifference && job != "" && job !in old(site.jobOpenings) ==>
              r == Err(NotFound("Job Opening", job)))
        && (r.Ok? <==> winner != "" && winner != NoSignificantDifference && job != "" && job in old(site.jobOpenings))
        && (r.Ok? ==>
              && r.value == newName
              && site.jobOpenings == old(site.jobOpenings)[newName := OptimizedJob(old(site.jobOpenings)[job], newName, now)])
      ensures r.Err? ==> site.jobOpenings == old(site.jobOpenings)
    {
      if winner == "" || winner == NoSignificantDifference {
        return Err(NoClearWinner);
      }
      var winningJobName := if winner == VariantA then variantAJob else variantBJob;
      if winningJobName == "" {
        return Err(WinningJobNotFound);
      }
      if winningJobName !in site.jobOpenings {
        return Err(NotFound("Job Opening", winningJobName));
      }
      var optimized := OptimizedJob(site.jobOpenings[winningJobName], newName, now);
      site.jobOpenings := site.jobOpenings[newName := optimized];
      r := Ok(newName);
    }
  }

  /** A "Job Title" campaign whose variant A title is empty and whose variant
      B title equals the base job's title passes validation, and auto-population
      then gives both variants the same title: the saved campaign breaks the
      rule validation enforces. */
  method EqualTitlesSaved() returns (c: Campaign, o: Outcome)
    ensures o == Pass && c.testVariable == JobTitleVariable
    ensures c.variantATitle == c.variantBTitle == "Engineer"
    ensures !c.Acceptable()
  {
    c := new Campaign("AB-0001");
    c.testVariable := JobTitleVariable;
    c.trafficSplit := 50;
    c.baseJobOpening := "HR-OPN-0001";
    c.variantBTitle := "Engineer";
    var base := JobOpening("HR-OPN-0001", "Engineer", "Builds things", "", "", "", "", None, "", 0, 0, None,
                           None, "", "", "Open", false, "", "", "");
    o := c.Save(map["HR-OPN-0001" := base]);
  }
}
