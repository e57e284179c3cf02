/** `GitHubCiBatcher` of src/dispatch.rs: the CI job events of one workflow run are folded into one
    summary event, sent when the run completes or when its window ends.

    Summaries.  `Summarizes` says, without reference to how the batcher folds, what a batch must hold
    given the events observed since it opened; `Report` says what a flushed event must say about a batch.

    Timers.  As in the routine batcher an entry counts iff its version is current, but here a batch may
    leave early, on completion, and then its entries stay in the wheel while the next batch of the key
    counts its versions from 0 again.  So a batch is never late, and may be flushed before its own time by
    an entry that an earlier batch of the same key left behind; `tainted` follows the keys this can
    happen to. */
module CiBatching {
  import opened Text
  import opened Sorting

  function OrElse<T>(a: Option<T>, b: Option<T>): Option<T> { if a.Some? then a else b }
  function OrDefault<T>(a: Option<T>, d: T): T { if a.Some? then a.value else d }

  /** The parts of an incoming CI event the batcher reads; a field of another JSON type reads as absent.
      `key` is its batch key. */
  datatype CiEvent = CiEvent(
    key: string,
    repo: Option<string>, number: Option<nat>, branch: Option<string>, sha: Option<string>, url: Option<string>,
    workflow: Option<string>, status: Option<string>, conclusion: Option<string>,
    runJobCount: Option<nat>, runAllTerminal: Option<bool>,
    channel: Option<string>, mention: Option<string>, format: Option<string>)
  {
    function Workflow(): string { OrDefault(workflow, "unknown") }
    function Status(): string { OrDefault(status, "unknown") }
    function JobCount(): nat { OrDefault(runJobCount, 1) }
    function AsJob(): Job { Job(Workflow(), Status(), conclusion, OrDefault(url, "")) }
  }

  datatype Job = Job(workflow: string, status: string, conclusion: Option<string>, url: string)
  {
    predicate Terminal() { status == "completed" }
    predicate Passed() { conclusion == Some("success") || conclusion == Some("neutral") }
    predicate Skipped() { conclusion == Some("skipped") }
    predicate Cancelled() { conclusion == Some("cancelled") }
    predicate Failed() {
      conclusion == Some("failure") || conclusion == Some("timed_out")
      || conclusion == Some("startup_failure") || conclusion == Some("action_required")
    }
  }

  datatype PendingCiBatch = PendingCiBatch(
    repo: string, number: Option<nat>, branch: Option<string>, sha: string, url: string,
    channel: Option<string>, mention: Option<string>, format: Option<string>,
    jobs: map<string, Job>, expectedJobs: nat, runAllTerminal: bool, sawInProgress: bool,
    deliverAtMs: nat, version: nat)
  {
    /** The guard of the completion flush. */
    predicate Complete() {
      sawInProgress && runAllTerminal && |jobs| >= expectedJobs && forall w :: w in jobs ==> jobs[w].Terminal()
    }
  }

  datatype CiReport = CiReport(
    kind: string, channel: Option<string>, mention: Option<string>, format: Option<string>,
    repo: string, number: Option<nat>, branch: Option<string>, sha: string, url: string,
    totalCount: nat, passedCount: nat, skippedCount: nat, failedCount: nat, cancelledCount: nat, jobs: seq<Job>)

  // ---- What a batch must hold ----

  /** `v` is the last present value of a field, if it is present at all. */
  ghost predicate IsLast<T(!new)>(es: seq<CiEvent>, field: CiEvent -> Option<T>, v: Option<T>) {
    || (v == None && forall i :: 0 <= i < |es| ==> field(es[i]) == None)
    || (v != None && exists i :: 0 <= i < |es| && field(es[i]) == v && forall j :: i < j < |es| ==> field(es[j]) == None)
  }

  ghost predicate IsLastOr<T(!new)>(es: seq<CiEvent>, field: CiEvent -> Option<T>, default: T, v: T) {
    exists last :: IsLast(es, field, last) && v == OrDefault(last, default)
  }

  /** The jobs are the last write of each workflow. */
  ghost predicate AreLastJobs(es: seq<CiEvent>, jobs: map<string, Job>) {
    && (forall i :: 0 <= i < |es| ==> es[i].Workflow() in jobs)
    && (forall w :: w in jobs ==> exists i :: 0 <= i < |es| && es[i].AsJob() == jobs[w] && es[i].Workflow() == w
                                       && forall j :: i < j < |es| ==> es[j].Workflow() != w)
  }

  ghost predicate IsMaxJobCount(es: seq<CiEvent>, n: nat) {
    (exists i :: 0 <= i < |es| && es[i].JobCount() == n) && forall i :: 0 <= i < |es| ==> es[i].JobCount() <= n
  }

  /** The batch is the summary of the events observed since it opened. */
  ghost predicate Summarizes(b: PendingCiBatch, es: seq<CiEvent>) {
    && IsLastOr(es, (e: CiEvent) => e.repo, "unknown", b.repo)
    && IsLast(es, (e: CiEvent) => e.number, b.number)
    && IsLast(es, (e: CiEvent) => e.branch, b.branch)
    && IsLastOr(es, (e: CiEvent) => e.sha, "", b.sha)
    && IsLastOr(es, (e: CiEvent) => e.url, "", b.url)
    && IsLast(es, (e: CiEvent) => e.channel, b.channel)
    && IsLast(es, (e: CiEvent) => e.mention, b.mention)
    && IsLast(es, (e: CiEvent) => e.format, b.format)
    && IsLastOr(es, (e: CiEvent) => e.runAllTerminal, false, b.runAllTerminal)
    && AreLastJobs(es, b.jobs)
    && IsMaxJobCount(es, b.expectedJobs)
    && (b.sawInProgress <==> exists i :: 0 <= i < |es| && es[i].Status() != "completed")
    && b.version == |es|
  }

  /** One more event, as `observe` folds it in. */
  function Opened(e: CiEvent, deliverAtMs: nat): PendingCiBatch {
    PendingCiBatch(OrDefault(e.repo, "unknown"), e.number, e.branch, OrDefault(e.sha, ""), OrDefault(e.url, ""),
                   e.channel, e.mention, e.format, map[], e.JobCount(), OrDefault(e.runAllTerminal, false), false, deliverAtMs, 0)
  }

  function Folded(b: PendingCiBatch, e: CiEvent): PendingCiBatch {
    PendingCiBatch(OrDefault(e.repo, b.repo), OrElse(e.number, b.number), OrElse(e.branch, b.branch),
                   OrDefault(e.sha, b.sha), OrDefault(e.url, b.url), OrElse(e.channel, b.channel),
                   OrElse(e.mention, b.mention), OrElse(e.format, b.format),
                   b.jobs[e.Workflow() := e.AsJob()],
                   if e.JobCount() > b.expectedJobs then e.JobCount() else b.expectedJobs,
                   OrDefault(e.runAllTerminal, b.runAllTerminal), b.sawInProgress || e.Status() != "completed",
                   b.deliverAtMs, b.version + 1)
  }

  lemma IsLastStep<T(!new)>(es: seq<CiEvent>, field: CiEvent -> Option<T>, v: Option<T>, e: CiEvent)
    requires IsLast(es, field, v)
    ensures IsLast(es + [e], field, OrElse(field(e), v))
  {
    var es' := es + [e];
    if field(e) != None {
      assert field(es'[|es|]) == field(e);
    } else if v != None {
      var i :| 0 <= i < |es| && field(es[i]) == v && forall j :: i < j < |es| ==> field(es[j]) == None;
      assert field(es'[i]) == v;
    }
  }

  lemma IsLastOrStep<T(!new)>(es: seq<CiEvent>, field: CiEvent -> Option<T>, default: T, v: T, e: CiEvent)
    requires IsLastOr(es, field, default, v)
    ensures IsLastOr(es + [e], field, default, OrDefault(field(e), v))
  {
    var last :| IsLast(es, field, last) && v == OrDefault(last, default);
    IsLastStep(es, field, last, e);
    assert OrDefault(OrElse(field(e), last), default) == OrDefault(field(e), v);
  }

  lemma IsLastFirst<T(!new)>(e: CiEvent, field: CiEvent -> Option<T>, default: T)
    ensures IsLast([e], field, field(e)) && IsLastOr([e], field, default, OrDefault(field(e), default))
  {
    assert [e][0] == e;
  }

  lemma LastJobsStep(es: seq<CiEvent>, jobs: map<string, Job>, e: CiEvent)
    requires AreLastJobs(es, jobs)
    ensures AreLastJobs(es + [e], jobs[e.Workflow() := e.AsJob()])
  {
    var es', jobs' := es + [e], jobs[e.Workflow() := e.AsJob()];
    forall w | w in jobs'
      ensures exists i :: 0 <= i < |es'| && es'[i].AsJob() == jobs'[w] && es'[i].Workflow() == w
                          && forall j :: i < j < |es'| ==> es'[j].Workflow() != w
    {
      if w == e.Workflow() {
        assert es'[|es|] == e;
      } else {
        var i :| 0 <= i < |es| && es[i].AsJob() == jobs[w] && es[i].Workflow() == w && forall j :: i < j < |es| ==> es[j].Workflow() != w;
        assert es'[i] == es[i];
      }
    }
  }

  lemma LastJobsFirst(e: CiEvent)
    ensures AreLastJobs([e], map[e.Workflow() := e.AsJob()])
  {
    LastJobsStep([], map[], e);
    assert [] + [e] == [e];
  }

  lemma FoldSummarizesFirst(e: CiEvent, deliverAtMs: nat)
    ensures Summarizes(Folded(Opened(e, deliverAtMs), e), [e])
  {
    hide IsLast, IsLastOr, AreLastJobs;
    IsLastFirst(e, (e: CiEvent) => e.repo, "unknown");
    IsLastFirst(e, (e: CiEvent) => e.number, 0);
    IsLastFirst(e, (e: CiEvent) => e.branch, "");
    IsLastFirst(e, (e: CiEvent) => e.sha, "");
    IsLastFirst(e, (e: CiEvent) => e.url, "");
    IsLastFirst(e, (e: CiEvent) => e.channel, "");
    IsLastFirst(e, (e: CiEvent) => e.mention, "");
    IsLastFirst(e, (e: CiEvent) => e.format, "");
    IsLastFirst(e, (e: CiEvent) => e.runAllTerminal, false);
    LastJobsFirst(e);
    assert map[][e.Workflow() := e.AsJob()] == map[e.Workflow() := e.AsJob()] && [e][0] == e;
  }

  lemma FoldSummarizesNext(b: PendingCiBatch, es: seq<CiEvent>, e: CiEvent)
    requires Summarizes(b, es)
    ensures Summarizes(Folded(b, e), es + [e])
  {
    hide IsLast, IsLastOr, AreLastJobs;
    IsLastOrStep(es, (e: CiEvent) => e.repo, "unknown", b.repo, e);
    IsLastStep(es, (e: CiEvent) => e.number, b.number, e);
    IsLastStep(es, (e: CiEvent) => e.branch, b.branch, e);
    IsLastOrStep(es, (e: CiEvent) => e.sha, "", b.sha, e);
    IsLastOrStep(es, (e: CiEvent) => e.url, "", b.url, e);
    IsLastStep(es, (e: CiEvent) => e.channel, b.channel, e);
    IsLastStep(es, (e: CiEvent) => e.mention, b.mention, e);
    IsLastStep(es, (e: CiEvent) => e.format, b.format, e);
    IsLastOrStep(es, (e: CiEvent) => e.runAllTerminal, false, b.runAllTerminal, e);
    LastJobsStep(es, b.jobs, e);
    var es' := es + [e];
    assert es'[|es|] == e && forall i :: 0 <= i < |es| ==> es'[i] == es[i];
  }

  // ---- What a flushed event must say ----

  function Count(jobs: seq<Job>, p: Job -> bool): nat {
    if jobs == [] then 0 else (if p(jobs[0]) then 1 else 0) + Count(jobs[1..], p)
  }

  const PASSED: Job -> bool := (j: Job) => j.Passed()
  const SKIPPED: Job -> bool := (j: Job) => j.Skipped()
  const FAILED: Job -> bool := (j: Job) => j.Failed()
  const CANCELLED: Job -> bool := (j: Job) => j.Cancelled()
  const UNFINISHED: Job -> bool := (j: Job) => !j.Terminal()

  function WorkflowLeq(): (Job, Job) -> bool { (a: Job, b: Job) => StringLeq(a.workflow, b.workflow) }

  ghost predicate Ascending(list: seq<Job>) {
    forall i, j :: 0 <= i < j < |list| ==> StringLeq(list[i].workflow, list[j].workflow) && list[i].workflow != list[j].workflow
  }

  /** The jobs of a batch, in strictly increasing order of workflow. */
  ghost predicate ListsJobs(list: seq<Job>, jobs: map<string, Job>) {
    && (forall i :: 0 <= i < |list| ==> list[i].workflow in jobs && jobs[list[i].workflow] == list[i])
    && (forall w :: w in jobs ==> jobs[w] in list)
    && Ascending(list) && |list| == |jobs|
  }

  function VerdictOf(jobs: seq<Job>): string {
    if Count(jobs, FAILED) > 0 then "github.ci-failed"
    else if forall i :: 0 <= i < |jobs| ==> jobs[i].Terminal() then
      if Count(jobs, CANCELLED) > 0 && Count(jobs, PASSED) == 0
         && Count(jobs, SKIPPED) == 0
      then "github.ci-cancelled" else "github.ci-passed"
    else "github.ci-started"
  }

  ghost predicate Reports(r: CiReport, b: PendingCiBatch) {
    && ListsJobs(r.jobs, b.jobs)
    && r.kind == VerdictOf(r.jobs)
    && r.repo == b.repo && r.number == b.number && r.branch == b.branch && r.sha == b.sha && r.url == b.url
    && r.channel == b.channel && r.mention == b.mention && r.format == b.format
    && r.totalCount == (if b.expectedJobs > |r.jobs| then b.expectedJobs else |r.jobs|)
    && r.passedCount == Count(r.jobs, PASSED) && r.skippedCount == Count(r.jobs, SKIPPED)
    && r.failedCount == Count(r.jobs, FAILED) && r.cancelledCount == Count(r.jobs, CANCELLED)
  }

  lemma {:induction false} CountPositive(jobs: seq<Job>, p: Job -> bool)
    ensures Count(jobs, p) > 0 <==> exists i :: 0 <= i < |jobs| && p(jobs[i])
  {
    if jobs != [] {
      CountPositive(jobs[1..], p);
      if i :| 0 <= i < |jobs| && p(jobs[i]) {
        if i > 0 { assert p(jobs[1..][i - 1]); }
      }
      if i :| 0 <= i < |jobs[1..]| && p(jobs[1..][i]) { assert p(jobs[i + 1]); }
    }
  }

  /** No job is counted under two outcomes. */
  lemma {:induction false} OutcomesAreDisjoint(jobs: seq<Job>)
    ensures Count(jobs, PASSED) + Count(jobs, SKIPPED)
          + Count(jobs, FAILED) + Count(jobs, CANCELLED) <= |jobs|
  {
    if jobs != [] { OutcomesAreDisjoint(jobs[1..]); }
  }

  ghost predicate AnyJob(jobs: map<string, Job>, p: Job -> bool) {
    exists w :: w in jobs && p(jobs[w])
  }

  /** A flushed event counts each job once, under at most one outcome, and names its verdict by the worst of
      them.  The event of a completion flush counts exactly the jobs it lists, and is never "started". */
  lemma ReportIsConsistent(r: CiReport, b: PendingCiBatch)
    requires Reports(r, b)
    ensures r.passedCount + r.skippedCount + r.failedCount + r.cancelledCount <= |r.jobs| == |b.jobs| <= r.totalCount
    ensures r.kind == "github.ci-failed" <==> AnyJob(b.jobs, FAILED)
    ensures r.kind == "github.ci-started" <==> !AnyJob(b.jobs, FAILED) && AnyJob(b.jobs, UNFINISHED)
    ensures r.kind == "github.ci-cancelled" <==>
              AnyJob(b.jobs, CANCELLED) && !AnyJob(b.jobs, FAILED) && !AnyJob(b.jobs, UNFINISHED)
              && !AnyJob(b.jobs, PASSED) && !AnyJob(b.jobs, SKIPPED)
    ensures b.Complete() ==> r.totalCount == |r.jobs| && r.kind != "github.ci-started"
  {
    hide Count, ListsJobs, AnyJob, PendingCiBatch.Complete;
    OutcomesAreDisjoint(r.jobs);
    CountedIffPresent(r.jobs, b.jobs, FAILED);
    CountedIffPresent(r.jobs, b.jobs, CANCELLED);
    CountedIffPresent(r.jobs, b.jobs, PASSED);
    CountedIffPresent(r.jobs, b.jobs, SKIPPED);
    AllTerminalIff(r.jobs, b.jobs);
    CompleteIsTerminal(b);
    ListedOnce(r.jobs, b.jobs);
  }

  lemma ListedOnce(list: seq<Job>, jobs: map<string, Job>)
    requires ListsJobs(list, jobs)
    ensures |list| == |jobs|
  {
  }

  /** Every listed job has ended iff the batch has no unfinished one. */
  lemma AllTerminalIff(list: seq<Job>, jobs: map<string, Job>)
    requires ListsJobs(list, jobs)
    ensures (forall i :: 0 <= i < |list| ==> list[i].Terminal()) <==> !AnyJob(jobs, UNFINISHED)
  {
    hide Count, Ascending;
    CountedIffPresent(list, jobs, UNFINISHED);
    CountPositive(list, UNFINISHED);
    assert forall i :: 0 <= i < |list| ==> (UNFINISHED(list[i]) <==> !list[i].Terminal());
  }

  lemma CompleteIsTerminal(b: PendingCiBatch)
    ensures b.Complete() ==> !AnyJob(b.jobs, UNFINISHED) && b.expectedJobs <= |b.jobs|
  {
  }

  lemma CountedIffPresent(list: seq<Job>, jobs: map<string, Job>, p: Job -> bool)
    requires ListsJobs(list, jobs)
    ensures Count(list, p) > 0 <==> AnyJob(jobs, p)
  {
    CountPositive(list, p);
    if i :| 0 <= i < |list| && p(list[i]) { assert p(jobs[list[i].workflow]); }
    if w :| w in jobs && p(jobs[w]) {
      var i :| 0 <= i < |list| && list[i] == jobs[w];
      assert p(list[i]);
    }
  }

  lemma {:induction false} InsertAscending(x: Job, list: seq<Job>)
    requires Ascending(list) && forall i :: 0 <= i < |list| ==> list[i].workflow != x.workflow
    ensures var list' := Insert(WorkflowLeq(), x, list);
            Ascending(list') && |list'| == |list| + 1 && forall j :: j in list' <==> j == x || j in list
  {
    if list != [] && !WorkflowLeq()(x, list[0]) {
      StringLeqTotal(x.workflow, list[0].workflow);
      InsertAscending(x, list[1..]);
      var rest := Insert(WorkflowLeq(), x, list[1..]);
      forall i | 0 <= i < |rest| ensures StringLeq(list[0].workflow, rest[i].workflow) && list[0].workflow != rest[i].workflow {
        assert rest[i] in rest;
      }
    } else if list != [] {
      forall i | 0 <= i < |list| ensures StringLeq(x.workflow, list[i].workflow) {
        if i > 0 { StringLeqTransitive(x.workflow, list[0].workflow, list[i].workflow); }
      }
    }
  }

  /** Collecting the values of the job map, sorted by workflow. */
  method SortedJobs(jobs: map<string, Job>) returns (list: seq<Job>)
    requires forall w :: w in jobs ==> jobs[w].workflow == w
    ensures ListsJobs(list, jobs)
  {
    list := [];
    var rest := jobs.Keys;
    while rest != {}
      invariant rest <= jobs.Keys && |list| + |rest| == |jobs|
      invariant forall j :: j in list ==> j.workflow in jobs.Keys - rest && jobs[j.workflow] == j
      invariant forall w :: w in jobs.Keys - rest ==> jobs[w] in list
      invariant Ascending(list)
    {
      var w :| w in rest;
      InsertAscending(jobs[w], list);
      list := Insert(WorkflowLeq(), jobs[w], list);
      rest := rest - {w};
    }
    assert forall i :: 0 <= i < |list| ==> list[i] in list;
  }
}
