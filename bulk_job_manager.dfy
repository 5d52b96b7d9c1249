/** The Bulk Job Manager tool
    (indeed/indeed/doctype/bulk_job_manager/bulk_job_manager.py): the filter
    built from the tool's criteria, the capped query of Job Openings it runs,
    and the job-selection listing it shows. The listing's HTML, styles and
    script are rendered from the rows modelled here and are not part of this
    model. */
module BulkJobManager {
  import opened Common
  import opened Platform

  /** The most Job Openings the tool lists. */
  const QueryLimit := 100

  const NoJobsMessage := "<p>No jobs found matching the criteria.</p>"
  const EnabledLabel := "Enabled"
  const DisabledLabel := "Disabled"

  const CompanyKey := "company"
  const DepartmentKey := "department"
  const StatusKey := "status"
  const CreationKey := "creation"

  /** Seconds in a day. The tool's dates are Date values, each given by the
      instant of its midnight; a job's creation is a Datetime, in seconds. */
  const DaySeconds := 86400

  /** One filter condition: equality on a text field, or a bound on the
      creation instant by the instants of the tool's dates. */
  datatype Condition = Equals(value: string) | Between(from: int, to: int) | AtLeast(from: int) | AtMost(to: int)

  /** One line of the listing: the job's fields as shown, the Indeed label and
      the creation day ("" when the job has no creation time). */
  datatype Row = Row(name: string, jobTitle: string, company: string, department: string,
                     status: string, indeedStatus: string, created: string)

  /** The listing: a message when no job matched, otherwise the job count and
      one row per job. */
  datatype Selection = Message(text: string) | Table(count: nat, rows: seq<Row>)

  predicate TextHolds(c: Condition, v: string) {
    c.Equals? && c.value == v
  }

  predicate InstantHolds(c: Condition, t: Option<DateTime>) {
    t.Some? &&
    match c
    case Equals(_) => false
    case Between(f, u) => f <= t.value.instant < u + DaySeconds
    case AtLeast(f) => f <= t.value.instant
    case AtMost(u) => t.value.instant <= u
  }

  /** The platform widens "between" on a Datetime column to the end of the
      last day, while "<=" compares with that day's midnight: a job created
      during the to-date's day is selected when a from-date is also given and
      dropped when it is not. */
  lemma LastDayNeedsFromDate(f: int, u: int, t: DateTime)
    requires f <= t.instant && u < t.instant < u + DaySeconds
    ensures InstantHolds(Between(f, u), Some(t))
    ensures !InstantHolds(AtMost(u), Some(t))
  {
  }

  /** A job satisfies every condition of the filter map. */
  predicate Matches(job: JobOpening, filters: map<string, Condition>) {
    && (CompanyKey in filters ==> TextHolds(filters[CompanyKey], job.company))
    && (DepartmentKey in filters ==> TextHolds(filters[DepartmentKey], job.department))
    && (StatusKey in filters ==> TextHolds(filters[StatusKey], job.status))
    && (CreationKey in filters ==> InstantHolds(filters[CreationKey], job.creation))
  }

  /** The jobs of `table` that match, in table order. */
  function MatchingJobs(table: seq<JobOpening>, filters: map<string, Condition>): (r: seq<JobOpening>)
    ensures |r| <= |table|
    ensures forall i :: 0 <= i < |r| ==> Matches(r[i], filters) && r[i] in table
    ensures forall j :: j in table && Matches(j, filters) ==> j in r
  {
    if table == [] then []
    else
      var rest := MatchingJobs(table[1..], filters);
      if Matches(table[0], filters) then [table[0]] + rest else rest
  }

  /** The jobs are filtered one by one and kept in table order. */
  lemma {:induction false} MatchingJobsAppend(t: seq<JobOpening>, u: seq<JobOpening>, filters: map<string, Condition>)
    ensures MatchingJobs(t + u, filters) == MatchingJobs(t, filters) + MatchingJobs(u, filters)
    ensures |u| == 1 ==> MatchingJobs(u, filters) == if Matches(u[0], filters) then u else []
    decreases |t|
  {
    if |u| == 1 {
      assert u[1..] == [];
    }
    if t == [] {
      assert t + u == u;
    } else {
      assert (t + u)[1..] == t[1..] + u;
      MatchingJobsAppend(t[1..], u, filters);
    }
  }

  /** get_all with the tool's limit: the first matching jobs, at most
      QueryLimit of them. `table` holds the Job Openings in the order the
      platform returns them. */
  function Query(table: seq<JobOpening>, filters: map<string, Condition>): (r: seq<JobOpening>)
    ensures |r| <= QueryLimit
    ensures forall i :: 0 <= i < |r| ==> Matches(r[i], filters) && r[i] in table
    ensures |r| < QueryLimit ==> forall j :: j in table && Matches(j, filters) ==> j in r
    ensures r <= MatchingJobs(table, filters)
    ensures |r| == QueryLimit || r == MatchingJobs(table, filters)
  {
    var m := MatchingJobs(table, filters);
    if |m| <= QueryLimit then m else m[..QueryLimit]
  }

  /** The listing row of one job: its Indeed label is Enabled exactly when the
      job is set to be posted. */
  function RowFor(job: JobOpening): (r: Row)
    ensures r.indeedStatus == EnabledLabel <==> job.customPostToIndeed
    ensures r.indeedStatus == EnabledLabel || r.indeedStatus == DisabledLabel
    ensures r.created == "" <==> job.creation.None? || job.creation.value.ymd == ""
  {
    Row(job.name, job.jobTitle, job.company, job.department, job.status,
        if job.customPostToIndeed then EnabledLabel else DisabledLabel,
        if job.creation.Some? then job.creation.value.ymd else "")
  }

  function Rows(jobs: seq<JobOpening>): (r: seq<Row>)
    ensures |r| == |jobs|
    ensures forall i :: 0 <= i < |jobs| ==> r[i] == RowFor(jobs[i])
  {
    if jobs == [] then [] else Rows(jobs[..|jobs| - 1]) + [RowFor(jobs[|jobs| - 1])]
  }

  /** generate_job_selection_html, without the markup: the fixed message for
      no jobs, otherwise one row per job in order. */
  function SelectionOf(jobs: seq<JobOpening>): (s: Selection)
    ensures s.Message? <==> jobs == []
    ensures s.Message? ==> s.text == NoJobsMessage
    ensures s.Table? ==> s.count == |jobs| && |s.rows| == |jobs|
    ensures s.Table? ==> forall i :: 0 <= i < |jobs| ==>
      (s.rows[i].indeedStatus == EnabledLabel <==> jobs[i].customPostToIndeed) && s.rows[i].name == jobs[i].name
  {
    if jobs == [] then Message(NoJobsMessage) else Table(|jobs|, Rows(jobs))
  }

  /** Builds the listing row by row, as the HTML is accumulated over the jobs. */
  method GenerateSelection(jobs: seq<JobOpening>) returns (s: Selection)
    ensures s == SelectionOf(jobs)
  {
    if jobs == [] {
      return Message(NoJobsMessage);
    }
    var rows: seq<Row> := [];
    for k := 0 to |jobs|
      invariant rows == Rows(jobs[..k])
    {
      assert jobs[..k + 1][..k] == jobs[..k];
      rows := rows + [RowFor(jobs[k])];
    }
    assert jobs[..|jobs|] == jobs;
    s := Table(|jobs|, rows);
  }

  /** A Bulk Job Manager document: its selection criteria (text "" and dates
      None when unset; dates are instants comparable with a job's creation)
      and the listing it shows. */
  class Manager {
    var companyFilter: string
    var departmentFilter: string
    var jobStatusFilter: string
    var fromDate: Option<int>
    var toDate: Option<int>
    var selectedJobs: Selection

    constructor (company: string, department: string, status: string, from: Option<int>, to: Option<int>)
      ensures companyFilter == company && departmentFilter == department && jobStatusFilter == status
      ensures fromDate == from && toDate == to && selectedJobs == Message(NoJobsMessage)
    {
      companyFilter := company;
      departmentFilter := department;
      jobStatusFilter := status;
      fromDate := from;
      toDate := to;
      selectedJobs := Message(NoJobsMessage);
    }

    /** The jobs the criteria select: each criterion that is set constrains
        the job, and an unset one does not. The to-date admits its whole day
        only when a from-date is also set. */
    predicate Wanted(job: JobOpening)
      reads this
    {
      && (companyFilter != "" ==> job.company == companyFilter)
      && (departmentFilter != "" ==> job.department == departmentFilter)
      && (jobStatusFilter != "" ==> job.status == jobStatusFilter)
      && (fromDate.Some? ==> job.creation.Some? && fromDate.value <= job.creation.value.instant)
      && (toDate.Some? ==>
            && job.creation.Some?
            && (if fromDate.Some? then job.creation.value.instant < toDate.value + DaySeconds
                else job.creation.value.instant <= toDate.value))
    }

    /** The filter construction of load_matching_jobs: company, department
        and status are filtered only when set; the creation condition is
        "between" with both dates, ">=" with only the start and "<=" with only
        the end. The filter selects exactly the wanted jobs. */
    method BuildFilters() returns (filters: map<string, Condition>)
      ensures filters.Keys <= {CompanyKey, DepartmentKey, StatusKey, CreationKey}
      ensures CompanyKey in filters <==> companyFilter != ""
      ensures DepartmentKey in filters <==> departmentFilter != ""
      ensures StatusKey in filters <==> jobStatusFilter != ""
      ensures CreationKey in filters <==> fromDate.Some? || toDate.Some?
      ensures fromDate.Some? && toDate.Some? ==> filters[CreationKey] == Between(fromDate.value, toDate.value)
      ensures fromDate.Some? && toDate.None? ==> filters[CreationKey] == AtLeast(fromDate.value)
      ensures fromDate.None? && toDate.Some? ==> filters[CreationKey] == AtMost(toDate.value)
      ensures forall job :: Matches(job, filters) <==> Wanted(job)
    {
      filters := map[];
      if companyFilter != "" {
        filters := filters[CompanyKey := Equals(companyFilter)];
      }
      if departmentFilter != "" {
        filters := filters[DepartmentKey := Equals(departmentFilter)];
      }
      if jobStatusFilter != "" {
        filters := filters[StatusKey := Equals(jobStatusFilter)];
      }
      if fromDate.Some? && toDate.Some? {
        filters := filters[CreationKey := Between(fromDate.value, toDate.value)];
      } else if fromDate.Some? {
        filters := filters[CreationKey := AtLeast(fromDate.value)];
      } else if toDate.Some? {
        filters := filters[CreationKey := AtMost(toDate.value)];
      }
    }

    /** load_matching_jobs: the listing of the first QueryLimit jobs of
        `table` that the criteria select. */
    method LoadMatchingJobs(table: seq<JobOpening>) returns (filters: map<string, Condition>)
      modifies this`selectedJobs
      ensures forall job :: Matches(job, filters) <==> Wanted(job)
      ensures selectedJobs == SelectionOf(Query(table, filters))
    {
      filters := BuildFilters();
      var jobs := Query(table, filters);
      selectedJobs := GenerateSelection(jobs);
    }
  }
}
