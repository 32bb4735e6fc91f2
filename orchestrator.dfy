/** The detail phase of `scrape_leaders` and `scrape_leaders_threaded`: each
    candidate from the list pages is fetched, parsed, tagged with the
    subcategory and saved; a candidate whose processing raises is dropped.
    The fetch and the file write are inputs: the page the fetch yielded
    (None when its HTML is falsy: every attempt failed, or the response body
    was empty) and whether the write succeeded. */
module Orchestrator {
  import opened Text
  import opened Collect
  import opened Records
  import opened Detail
  import opened DetailParse

  /** What the outside world does for one candidate. `page` is None when
      `get_page` gave a falsy result: None after the last failed attempt, or
      the empty text of a successful response. */
  datatype Job = Job(candidate: Leader, page: Option<DetailPage>, saveOk: bool)

  /** `process_politician(politician)`: the saved record, or None when the
      save raised. */
  function ProcessPolitician(job: Job, subcategory: Option<string>): Option<Leader> {
    var detailed := DetailRecord(job.candidate, job.page);
    var tagged := if Truthy(subcategory) then detailed.(subcategory := subcategory) else detailed;
    if job.saveOk then Some(tagged) else None
  }

  /** The outcome of every candidate, in candidate order. */
  function Outcomes(jobs: seq<Job>, subcategory: Option<string>): (r: seq<Option<Leader>>)
    ensures |r| == |jobs|
    decreases |jobs|
  {
    if |jobs| == 0 then []
    else Outcomes(jobs[..|jobs| - 1], subcategory) + [ProcessPolitician(jobs[|jobs| - 1], subcategory)]
  }

  /** The body of both loops, as a method. */
  method ProcessPoliticianStep(job: Job, subcategory: Option<string>) returns (r: Option<Leader>)
    ensures r == ProcessPolitician(job, subcategory)
  {
    var detailedData := ParseDetailPage(job.candidate, job.page);
    if subcategory.Some? && subcategory.value != "" {
      detailedData := detailedData.(subcategory := subcategory);
    }
    if !job.saveOk {
      return None;
    }
    r := Some(detailedData);
  }

  /** `scrape_leaders`: one candidate after the other, appending each saved
      record and skipping a candidate whose processing raised. */
  method ScrapeSequential(jobs: seq<Job>, subcategory: Option<string>) returns (detailed: seq<Leader>)
    ensures detailed == KeepSome(Outcomes(jobs, subcategory))
  {
    detailed := [];
    var i := 0;
    while i < |jobs|
      invariant 0 <= i <= |jobs|
      invariant detailed == KeepSome(Outcomes(jobs[..i], subcategory))
    {
      assert jobs[..i + 1][..i] == jobs[..i];
      var outcome := ProcessPoliticianStep(jobs[i], subcategory);
      if outcome.Some? {
        detailed := detailed + [outcome.value];
      }
      i := i + 1;
    }
    assert jobs[..i] == jobs;
  }

  /** `scrape_leaders_threaded`: `executor.map` yields the outcomes in
      candidate order, whatever order the workers finish in, and the
      failures are filtered out afterwards. */
  method ScrapeThreaded(jobs: seq<Job>, subcategory: Option<string>) returns (detailed: seq<Leader>)
    ensures detailed == KeepSome(Outcomes(jobs, subcategory))
  {
    var results: seq<Option<Leader>> := [];
    var i := 0;
    while i < |jobs|
      invariant 0 <= i <= |jobs|
      invariant results == Outcomes(jobs[..i], subcategory)
    {
      assert jobs[..i + 1][..i] == jobs[..i];
      var outcome := ProcessPoliticianStep(jobs[i], subcategory);
      results := results + [outcome];
      i := i + 1;
    }
    assert jobs[..i] == jobs;
    detailed := [];
    var k := 0;
    while k < |results|
      invariant 0 <= k <= |results|
      invariant detailed == KeepSome(results[..k])
    {
      assert results[..k + 1][..k] == results[..k];
      if results[k].Some? {
        detailed := detailed + [results[k].value];
      }
      k := k + 1;
    }
    assert results[..k] == results;
  }

  /** The two modes return the same list. */
  method BothModes(jobs: seq<Job>, subcategory: Option<string>) returns (sequential: seq<Leader>, threaded: seq<Leader>)
    ensures sequential == threaded
    ensures |sequential| <= |jobs|
  {
    sequential := ScrapeSequential(jobs, subcategory);
    threaded := ScrapeThreaded(jobs, subcategory);
    KeepSomeLength(Outcomes(jobs, subcategory));
  }

  /** The number of candidates whose save raised. */
  function SaveFailures(jobs: seq<Job>): nat
    decreases |jobs|
  {
    if |jobs| == 0 then 0 else SaveFailures(jobs[..|jobs| - 1]) + (if jobs[|jobs| - 1].saveOk then 0 else 1)
  }

  lemma {:induction false} OutcomeFailures(jobs: seq<Job>, subcategory: Option<string>)
    ensures NoneCount(Outcomes(jobs, subcategory)) == SaveFailures(jobs)
    decreases |jobs|
  {
    if |jobs| > 0 {
      OutcomeFailures(jobs[..|jobs| - 1], subcategory);
      assert Outcomes(jobs, subcategory)[..|jobs| - 1] == Outcomes(jobs[..|jobs| - 1], subcategory);
    }
  }

  /** Every candidate is either in the result or counted as a failed save;
      a fetch failure is not a failure: the candidate is kept as it is. */
  lemma ResultCount(jobs: seq<Job>, subcategory: Option<string>)
    ensures |KeepSome(Outcomes(jobs, subcategory))| + SaveFailures(jobs) == |jobs|
  {
    KeepSomeLength(Outcomes(jobs, subcategory));
    OutcomeFailures(jobs, subcategory);
  }

  /** Splitting the candidates splits the result: the kept records of a
      prefix come first, in order. */
  lemma {:induction false} OutcomesAppend(a: seq<Job>, b: seq<Job>, subcategory: Option<string>)
    ensures Outcomes(a + b, subcategory) == Outcomes(a, subcategory) + Outcomes(b, subcategory)
    decreases |b|
  {
    if |b| > 0 {
      var b' := b[..|b| - 1];
      assert (a + b)[..|a + b| - 1] == a + b';
      OutcomesAppend(a, b', subcategory);
    } else {
      assert a + b == a;
    }
  }

  lemma ResultsInCandidateOrder(a: seq<Job>, b: seq<Job>, subcategory: Option<string>)
    ensures KeepSome(Outcomes(a + b, subcategory)) ==
            KeepSome(Outcomes(a, subcategory)) + KeepSome(Outcomes(b, subcategory))
  {
    OutcomesAppend(a, b, subcategory);
    KeepSomeAppend(Outcomes(a, subcategory), Outcomes(b, subcategory));
  }

  /** A saved record keeps the candidate's list-page keys, carries the
      subcategory when one is given, and is the candidate itself (tagged)
      when the fetch failed. */
  lemma ProcessPoliticianSpec(job: Job, subcategory: Option<string>)
    ensures ProcessPolitician(job, subcategory).Some? <==> job.saveOk
    ensures var r := ProcessPolitician(job, subcategory);
      r.Some? ==>
        r.value.name == job.candidate.name && r.value.profileUrl == job.candidate.profileUrl &&
        r.value.category == job.candidate.category &&
        r.value.subcategory == (if Truthy(subcategory) then subcategory else job.candidate.subcategory) &&
        (job.page.None? ==> r.value == job.candidate.(subcategory := r.value.subcategory))
  {
    DetailKeepsListFields(job.candidate, job.page);
  }
}
