/** The full rebuild of the XML feed from the integration records that are
    Posted or Active (indeed/indeed/utils.py:578-669). */
module Regenerator {
  import opened Common
  import opened Xml
  import opened Platform
  import opened SettingsCache
  import opened Feed

  const NoActiveJobs := "No active jobs to include in feed"

  /** The dict regenerate_xml_feed returns; `feedUrl` is None when the key is absent. */
  datatype RegenResult = RegenOk(message: string, feedUrl: Option<string>) | RegenErr(error: string)

  predicate IsLive(rec: Integration) {
    rec.status == Posted || rec.status == Active
  }

  /** The positions of the records the status filter selects, in the order
      the query returns them, which the order of the table sequence stands
      for. */
  function LiveIndices(recs: seq<Integration>): (r: seq<nat>)
    ensures forall k :: 0 <= k < |r| ==> r[k] < |recs| && IsLive(recs[r[k]])
    ensures forall k :: 0 <= k < |recs| && IsLive(recs[k]) ==> k in r
    ensures forall a, b :: 0 <= a < b < |r| ==> r[a] < r[b]
  {
    if recs == [] then []
    else
      var rest := LiveIndices(recs[..|recs| - 1]);
      if IsLive(recs[|recs| - 1]) then rest + [|recs| - 1] else rest
  }

  /** The records at the given positions. */
  function Pick(recs: seq<Integration>, idx: seq<nat>): (r: seq<Integration>)
    requires forall k :: 0 <= k < |idx| ==> idx[k] < |recs|
    ensures |r| == |idx| && forall k :: 0 <= k < |idx| ==> r[k] == recs[idx[k]]
  {
    seq(|idx|, k requires 0 <= k < |idx| => recs[idx[k]])
  }

  /** The records with xml_feed_included set at the given positions. */
  function MarkIncluded(recs: seq<Integration>, idx: seq<nat>): (r: seq<Integration>)
    ensures |r| == |recs|
  {
    seq(|recs|, k requires 0 <= k < |recs| => if k in idx then recs[k].(xmlFeedIncluded := true) else recs[k])
  }

  /** The job element for one selected record: its Job Opening is loaded,
      its job data built, and the date is the Job Opening's creation time. */
  function JobEntry(rec: Integration, jobs: map<string, JobOpening>, s: Settings, siteUrl: string): Result<Element> {
    if rec.jobOpening !in jobs then Err(NotFound("Job Opening", rec.jobOpening))
    else
      var j := jobs[rec.jobOpening];
      match PrepareJobData(j, s, siteUrl)
      case Err(m) => Err(m)
      case Ok(d) => Ok(JobElement(BaseFields(d, j.creation.value.rfc)))
  }

  /** The job elements of the rebuild, or the first failure and how many
      records were processed before it. */
  datatype Build = Built(elements: seq<Element>) | Failed(done: nat, msg: string)

  /** A record fails exactly when its Job Opening is missing or has no
      creation time; a missing Job Opening reports the not-found message. */
  lemma JobEntryCases(rec: Integration, jobs: map<string, JobOpening>, s: Settings, siteUrl: string)
    ensures var r := JobEntry(rec, jobs, s, siteUrl);
      && (r.Err? <==> rec.jobOpening !in jobs || jobs[rec.jobOpening].creation.None?)
      && (rec.jobOpening !in jobs ==> r == Err(NotFound("Job Opening", rec.jobOpening)))
      && (rec.jobOpening in jobs && r.Err? ==> r.msg == NoCreationError)
  {
  }

  /** The job entries of the selected records, in order. */
  function Entries(rs: seq<Integration>, jobs: map<string, JobOpening>, s: Settings, siteUrl: string): (r: seq<Result<Element>>)
    ensures |r| == |rs| && forall k :: 0 <= k < |rs| ==> r[k] == JobEntry(rs[k], jobs, s, siteUrl)
  {
    seq(|rs|, k requires 0 <= k < |rs| => JobEntry(rs[k], jobs, s, siteUrl))
  }

  lemma EntriesSnoc(rs: seq<Integration>, i: nat, jobs: map<string, JobOpening>, s: Settings, siteUrl: string)
    requires i < |rs|
    ensures Entries(rs[..i + 1], jobs, s, siteUrl) == Entries(rs[..i], jobs, s, siteUrl) + [JobEntry(rs[i], jobs, s, siteUrl)]
  {
    var a := Entries(rs[..i + 1], jobs, s, siteUrl);
    var b := Entries(rs[..i], jobs, s, siteUrl) + [JobEntry(rs[i], jobs, s, siteUrl)];
    assert |a| == |b|;
    forall k | 0 <= k < |a|
      ensures a[k] == b[k]
    {
      if k < i {
        assert rs[..i + 1][k] == rs[..i][k];
      }
    }
  }

  /** The loop over the entries: stop at the first failure. */
  function Collect(entries: seq<Result<Element>>): Build {
    if entries == [] then Built([])
    else
      var n := |entries| - 1;
      match Collect(entries[..n])
      case Failed(done, msg) => Failed(done, msg)
      case Built(es) =>
        match entries[n]
        case Err(m) => Failed(n, m)
        case Ok(e) => Built(es + [e])
  }

  /** Collect keeps every entry when all succeed, and otherwise reports the
      first failure, every entry before it having succeeded. */
  lemma {:induction false} CollectSpec(entries: seq<Result<Element>>)
    ensures var r := Collect(entries);
      && (r.Built? ==> |r.elements| == |entries|)
      && (r.Built? ==> forall k :: 0 <= k < |entries| ==> entries[k] == Ok(r.elements[k]))
      && (r.Failed? ==> r.done < |entries| && entries[r.done] == Err(r.msg))
      && (r.Failed? ==> forall k :: 0 <= k < r.done ==> entries[k].Ok?)
  {
    if entries != [] {
      var n := |entries| - 1;
      CollectSpec(entries[..n]);
    }
  }

  lemma CollectSnoc(entries: seq<Result<Element>>, x: Result<Element>)
    ensures Collect(entries + [x]) ==
      match Collect(entries)
      case Failed(done, msg) => Failed(done, msg)
      case Built(es) => (match x case Err(m) => Failed(|entries|, m) case Ok(e) => Built(es + [e]))
  {
    assert (entries + [x])[..|entries|] == entries;
  }

  /** A failure at position i after a successful prefix is the first failure. */
  lemma {:induction false} CollectFailsAt(entries: seq<Result<Element>>, i: nat)
    requires i < |entries| && Collect(entries[..i]).Built? && entries[i].Err?
    ensures Collect(entries) == Failed(i, entries[i].msg)
    decreases |entries|
  {
    var n := |entries| - 1;
    if i < n {
      assert entries[..n][..i] == entries[..i];
      CollectFailsAt(entries[..n], i);
    } else {
      assert entries[..n] == entries[..i];
    }
  }

  /** Marking one more selected position. */
  lemma MarkStep(recs: seq<Integration>, sel: seq<nat>, i: nat)
    requires i < |sel| && sel[i] < |recs|
    ensures var m := MarkIncluded(recs, sel[..i]);
      MarkIncluded(recs, sel[..i + 1]) == m[sel[i] := m[sel[i]].(xmlFeedIncluded := true)]
  {
    assert forall k :: k in sel[..i + 1] <==> k in sel[..i] || k == sel[i] by {
      assert sel[..i + 1] == sel[..i] + [sel[i]];
    }
  }

  function JobsFor(rs: seq<Integration>, jobs: map<string, JobOpening>, s: Settings, siteUrl: string): Build {
    Collect(Entries(rs, jobs, s, siteUrl))
  }

  /** The three header elements of a rebuilt feed. */
  function Header(s: Settings, siteUrl: string, now: DateTime): (r: seq<Element>)
    ensures |r| == 3 && r[0].tag == "publisher" && r[1].tag == "publisherurl" && r[2].tag == "lastBuildDate"
    ensures r[0].text == (if s.company != "" then s.company else "Company")
  {
    [Leaf("publisher", if s.company != "" then s.company else "Company"),
     Leaf("publisherurl", if s.companyUrl != "" then s.companyUrl else siteUrl),
     Leaf("lastBuildDate", now.rfc)]
  }

  /** The root of a rebuilt feed: the header, then the job elements. */
  function FeedRoot(s: Settings, siteUrl: string, now: DateTime, jobElems: seq<Element>): Element {
    Element("source", "", Header(s, siteUrl, now) + jobElems)
  }

  function RegenMessage(n: nat): string {
    "XML feed regenerated with " + NatToString(n) + " jobs"
  }

  /** What regenerate_xml_feed leaves on the site, its answer aside: with no
      live record nothing changes; otherwise the settings are read through
      the cache and either every record is built, the feed file rewritten and
      every live record marked, or the file is kept and only the records
      before the failing one are marked. */
  ghost predicate Refreshed(site: Site, recs0: seq<Integration>, feed0: FeedFile, cache0: map<string, CacheEntry>, now: DateTime)
    reads site
  {
    var sel := LiveIndices(recs0);
    var s := ReadSettings(cache0, site.settingsDoc, now.instant);
    if sel == [] then site.cache == cache0 && site.integrations == recs0 && site.feedFile == feed0
    else
      && site.cache == CacheAfterRead(cache0, site.settingsDoc, now.instant)
      && match JobsFor(Pick(recs0, sel), site.jobOpenings, s, site.siteUrl)
         case Built(es) =>
           site.feedFile == Tree(FeedRoot(s, site.siteUrl, now, es)) && site.integrations == MarkIncluded(recs0, sel)
         case Failed(done, _) =>
           && site.feedFile == feed0 && done < |sel|
           && site.integrations == MarkIncluded(recs0, sel[..done])
  }

  /** regenerate_xml_feed, with `now` the clock. */
  method RegenerateXmlFeed(site: Site, now: DateTime) returns (r: RegenResult)
    modifies site`cache, site`integrations, site`feedFile
    ensures LiveIndices(old(site.integrations)) == [] ==>
      && r == RegenOk(NoActiveJobs, None)
      && site.cache == old(site.cache) && site.integrations == old(site.integrations)
      && site.feedFile == old(site.feedFile)
    ensures var sel := LiveIndices(old(site.integrations));
      var s := ReadSettings(old(site.cache), site.settingsDoc, now.instant);
      sel != [] ==>
        && site.cache == CacheAfterRead(old(site.cache), site.settingsDoc, now.instant)
        && match JobsFor(Pick(old(site.integrations), sel), site.jobOpenings, s, site.siteUrl)
           case Built(es) =>
             && r == RegenOk(RegenMessage(|sel|), Some(site.siteUrl + FeedPath))
             && site.feedFile == Tree(FeedRoot(s, site.siteUrl, now, es))
             && site.integrations == MarkIncluded(old(site.integrations), sel)
           case Failed(done, msg) =>
             && r == RegenErr(msg) && site.feedFile == old(site.feedFile) && done < |sel|
             && site.integrations == MarkIncluded(old(site.integrations), sel[..done])
    ensures Refreshed(site, old(site.integrations), old(site.feedFile), old(site.cache), now)
  {
    var sel := LiveIndices(site.integrations);
    if sel == [] {
      return RegenOk(NoActiveJobs, None);
    }
    var picked := Pick(site.integrations, sel);
    var s := GetIntegrationSettings(site, now.instant);
    r := Rebuild(site, picked, sel, s, now);
  }

  /** The rebuild once the records are selected and the settings read: a new
      root with the header, the loop over the records, and the file written
      only when every record succeeded. */
  method Rebuild(site: Site, picked: seq<Integration>, sel: seq<nat>, s: Settings, now: DateTime)
    returns (r: RegenResult)
    requires |picked| == |sel| && forall k :: 0 <= k < |sel| ==> sel[k] < |site.integrations|
    modifies site`integrations, site`feedFile
    ensures match JobsFor(picked, site.jobOpenings, s, site.siteUrl)
      case Built(es) =>
        && r == RegenOk(RegenMessage(|sel|), Some(site.siteUrl + FeedPath))
        && site.feedFile == Tree(FeedRoot(s, site.siteUrl, now, es))
        && site.integrations == MarkIncluded(old(site.integrations), sel)
      case Failed(done, msg) =>
        && r == RegenErr(msg) && site.feedFile == old(site.feedFile) && done < |sel|
        && site.integrations == MarkIncluded(old(site.integrations), sel[..done])
  {
    var root := NewRoot(s, site.siteUrl, now);
    var outcome, recs;
    root, outcome, recs := AddJobs(root, picked, sel, site.integrations, site.jobOpenings, s, site.siteUrl);
    site.integrations := recs;
    if outcome.Failed? {
      return RegenErr(outcome.msg);
    }
    assert root == FeedRoot(s, site.siteUrl, now, outcome.elements);
    site.feedFile := Tree(root);
    r := RegenOk(RegenMessage(|sel|), Some(site.siteUrl + FeedPath));
  }

  /** The new root and its three header elements, appended in turn. */
  method NewRoot(s: Settings, siteUrl: string, now: DateTime) returns (root: Element)
    ensures root == Element("source", "", Header(s, siteUrl, now))
  {
    root := Element("source", "", []);
    root := AppendChild(root, Leaf("publisher", if s.company != "" then s.company else "Company"));
    root := AppendChild(root, Leaf("publisherurl", if s.companyUrl != "" then s.companyUrl else siteUrl));
    root := AppendChild(root, Leaf("lastBuildDate", now.rfc));
    assert root.children == Header(s, siteUrl, now);
  }

  /** The loop of regenerate_xml_feed over the selected records `picked`
      (found at positions `sel` of the table `recs`): one job element each,
      and the record's xml_feed_included flag set, until a record fails. */
  method AddJobs(root: Element, picked: seq<Integration>, sel: seq<nat>, recs: seq<Integration>,
                 jobs: map<string, JobOpening>, s: Settings, url: string)
    returns (root': Element, outcome: Build, recs': seq<Integration>)
    requires |picked| == |sel| && forall k :: 0 <= k < |sel| ==> sel[k] < |recs|
    ensures outcome == JobsFor(picked, jobs, s, url)
    ensures outcome.Built? ==> root' == root.(children := root.children + outcome.elements)
    ensures outcome.Built? ==> recs' == MarkIncluded(recs, sel)
    ensures outcome.Failed? ==> outcome.done < |sel| && recs' == MarkIncluded(recs, sel[..outcome.done])
  {
    root' := root;
    recs' := recs;
    var built: seq<Element> := [];
    var i := 0;
    while i < |picked|
      invariant 0 <= i <= |picked|
      invariant Progress(root, picked, sel, recs, jobs, s, url, i, root', built, recs')
    {
      var e := LoadJobEntry(picked[i], jobs, s, url);
      if e.Err? {
        FailAt(picked, i, jobs, s, url);
        return root', Failed(i, e.msg), recs';
      }
      ProgressStep(root, picked, sel, recs, jobs, s, url, i, root', built, recs', e.value);
      root' := AppendChild(root', e.value);
      built := built + [e.value];
      recs' := recs'[sel[i] := recs'[sel[i]].(xmlFeedIncluded := true)];
      i := i + 1;
    }
    assert picked[..i] == picked;
    assert sel[..i] == sel;
    outcome := Built(built);
  }

  /** The state of the loop after i records: their elements are built and
      appended after the root's children, and their records are marked. */
  ghost predicate Progress(root: Element, picked: seq<Integration>, sel: seq<nat>, recs: seq<Integration>,
                           jobs: map<string, JobOpening>, s: Settings, url: string,
                           i: nat, root': Element, built: seq<Element>, recs': seq<Integration>)
  {
    && i <= |picked| && i <= |sel|
    && Collect(Entries(picked[..i], jobs, s, url)) == Built(built)
    && root' == root.(children := root.children + built)
    && recs' == MarkIncluded(recs, sel[..i])
  }

  lemma ProgressStep(root: Element, picked: seq<Integration>, sel: seq<nat>, recs: seq<Integration>,
                     jobs: map<string, JobOpening>, s: Settings, url: string,
                     i: nat, root': Element, built: seq<Element>, recs': seq<Integration>, job: Element)
    requires Progress(root, picked, sel, recs, jobs, s, url, i, root', built, recs')
    requires i < |picked| && i < |sel| && sel[i] < |recs|
    requires JobEntry(picked[i], jobs, s, url) == Ok(job)
    ensures |recs'| == |recs|
    ensures Progress(root, picked, sel, recs, jobs, s, url, i + 1, AppendChild(root', job), built + [job],
                     recs'[sel[i] := recs'[sel[i]].(xmlFeedIncluded := true)])
  {
    CollectStep(picked, i, jobs, s, url, built, job);
    MarkStep(recs, sel, i);
    RootStep(root, built, root', job);
  }

  /** Appending one more element to the root extends the appended list. */
  lemma RootStep(root: Element, built: seq<Element>, root': Element, job: Element)
    requires root' == root.(children := root.children + built)
    ensures AppendChild(root', job) == root.(children := root.children + (built + [job]))
  {
    assert root.children + built + [job] == root.children + (built + [job]);
  }

  /** One more successful entry extends the built job list by its element. */
  lemma CollectStep(picked: seq<Integration>, i: nat, jobs: map<string, JobOpening>, s: Settings, url: string,
                    built: seq<Element>, job: Element)
    requires i < |picked| && Collect(Entries(picked[..i], jobs, s, url)) == Built(built)
    requires JobEntry(picked[i], jobs, s, url) == Ok(job)
    ensures Collect(Entries(picked[..i + 1], jobs, s, url)) == Built(built + [job])
  {
    EntriesSnoc(picked, i, jobs, s, url);
    CollectSnoc(Entries(picked[..i], jobs, s, url), JobEntry(picked[i], jobs, s, url));
  }

  /** One iteration's work before the element is attached: the Job Opening
      is loaded, the job data prepared and the job element filled. */
  method LoadJobEntry(rec: Integration, jobs: map<string, JobOpening>, s: Settings, siteUrl: string)
    returns (r: Result<Element>)
    ensures r == JobEntry(rec, jobs, s, siteUrl)
  {
    if rec.jobOpening !in jobs {
      return Err(NotFound("Job Opening", rec.jobOpening));
    }
    var j := jobs[rec.jobOpening];
    var prepared := PrepareJobData(j, s, siteUrl);
    if prepared.Err? {
      return Err(prepared.msg);
    }
    var job := BuildJobElement(BaseFields(prepared.value, j.creation.value.rfc));
    r := Ok(job);
  }

  /** The rebuild of the selected records fails at position i when the
      records before it succeed and that one fails. */
  lemma FailAt(picked: seq<Integration>, i: nat, jobs: map<string, JobOpening>, s: Settings, siteUrl: string)
    requires i < |picked| && Collect(Entries(picked[..i], jobs, s, siteUrl)).Built?
    requires JobEntry(picked[i], jobs, s, siteUrl).Err?
    ensures JobsFor(picked, jobs, s, siteUrl) == Failed(i, JobEntry(picked[i], jobs, s, siteUrl).msg)
  {
    var es := Entries(picked, jobs, s, siteUrl);
    assert es[..i] == Entries(picked[..i], jobs, s, siteUrl);
    CollectFailsAt(es, i);
  }

  /** The positions a rebuild marks are exactly the selected ones: those
      records get the flag, every other record is left as it was. */
  lemma MarkIncludedSelected(recs: seq<Integration>)
    ensures var r := MarkIncluded(recs, LiveIndices(recs));
      && |r| == |recs|
      && (forall k :: 0 <= k < |recs| && IsLive(recs[k]) ==> r[k] == recs[k].(xmlFeedIncluded := true))
      && (forall k :: 0 <= k < |recs| && !IsLive(recs[k]) ==> r[k] == recs[k])
  {
    var sel := LiveIndices(recs);
    forall k | 0 <= k < |recs| && !IsLive(recs[k])
      ensures k !in sel
    {
      assert forall j :: 0 <= j < |sel| ==> sel[j] != k;
    }
  }

  /** On a well-formed site the rebuilt feed holds one job per selected
      record, each job's reference number is its record's Job Opening, and
      no reference number occurs twice. */
  lemma {:induction false} RebuildHasNoDuplicates(recs: seq<Integration>, jobs: map<string, JobOpening>, s: Settings, siteUrl: string)
    requires WellFormed(recs)
    requires forall n :: n in jobs ==> jobs[n].name == n
    ensures var picked := Pick(recs, LiveIndices(recs));
      var b := JobsFor(picked, jobs, s, siteUrl);
      b.Built? ==>
        && |b.elements| == |picked|
        && (forall k :: 0 <= k < |picked| ==> RefOf(b.elements[k]) == Some(picked[k].jobOpening))
        && (forall a, c :: 0 <= a < c < |picked| ==> RefOf(b.elements[a]) != RefOf(b.elements[c]))
  {
    var sel := LiveIndices(recs);
    var picked := Pick(recs, sel);
    var b := JobsFor(picked, jobs, s, siteUrl);
    CollectSpec(Entries(picked, jobs, s, siteUrl));
    if b.Built? {
      forall k | 0 <= k < |picked|
        ensures RefOf(b.elements[k]) == Some(picked[k].jobOpening)
      {
        var j := jobs[picked[k].jobOpening];
        var d := PrepareJobData(j, s, siteUrl).value;
        RefOfJobElement(d, j.creation.value.rfc, []);
        assert BaseFields(d, j.creation.value.rfc) + [] == BaseFields(d, j.creation.value.rfc);
      }
      forall a, c | 0 <= a < c < |picked|
        ensures RefOf(b.elements[a]) != RefOf(b.elements[c])
      {
        assert sel[a] < sel[c];
      }
    }
  }
}
