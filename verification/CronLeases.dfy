/** When the scheduler withholds a nudge: soundness of every suppression, and the exact emission times under an
    unchanging receipt. */
module CronLeases {
  import opened Text
  import opened CronSchedules
  import opened CronScheduling

  /** The state in which pair `i` of the work list is decided. */
  function Before(m: Memory, work: seq<Pair>, w: World, i: nat): Memory
    requires i <= |work|
  {
    Processed(m, work[..i], w).memory
  }

  predicate EmitsAt(m: Memory, work: seq<Pair>, w: World, i: nat)
    requires i < |work|
  {
    Matches(work[i].job, work[i].minute, w) && !Withholds(work[i].job, Before(m, work, w, i), work[i].minute, w)
  }

  predicate WithheldAt(m: Memory, work: seq<Pair>, w: World, i: nat)
    requires i < |work|
  {
    Matches(work[i].job, work[i].minute, w) && Withholds(work[i].job, Before(m, work, w, i), work[i].minute, w)
  }

  /** Pair `k` is the latest emission of job `id` among the first `n` pairs. */
  ghost predicate LatestEmission(m: Memory, work: seq<Pair>, w: World, id: string, k: nat, n: nat)
    requires n <= |work|
  {
    && k < n && work[k].job.id == id && EmitsAt(m, work, w, k)
    && forall j :: k < j < n && work[j].job.id == id ==> !EmitsAt(m, work, w, j)
  }

  /** The job's lease and fingerprint are those that emission `k` wrote. */
  ghost predicate WrittenBy(m: Memory, work: seq<Pair>, w: World, id: string, k: nat)
    requires k < |work|
  {
    var e := w.evaluate(id, work[k].minute);
    && e.Some? && e.value.zeroBacklog && work[k].job.ttlSecs > 0
    && id in m.fingerprints && m.fingerprints[id] == e.value.fingerprint
    && id in m.leases && m.leases[id] == Lease(e.value.suppressionKey, Expiry(work[k].minute, work[k].job.ttlSecs))
  }

  lemma StepLease(o: Outcome, p: Pair, w: World, id: string)
    requires id in ProcessedPair(o, p, w).memory.leases
    ensures var m := ProcessedPair(o, p, w).memory;
      if p.job.id == id && Matches(p.job, p.minute, w) && !Withholds(p.job, o.memory, p.minute, w)
      then WrittenBy(m, [p], w, id, 0)
      else id in o.memory.leases && m.leases[id] == o.memory.leases[id]
           && (id in m.fingerprints <==> id in o.memory.fingerprints) && (id in m.fingerprints ==> m.fingerprints[id] == o.memory.fingerprints[id])
  {
  }

  /** A lease is always the one its job's latest emission wrote, together with the fingerprint. */
  lemma {:induction false} LeasesAreGrounded(m: Memory, work: seq<Pair>, w: World, id: string, n: nat) returns (k: nat)
    requires n <= |work| && m.leases == map[] && id in Before(m, work, w, n).leases
    ensures LatestEmission(m, work, w, id, k, n) && WrittenBy(Before(m, work, w, n), work, w, id, k)
  {
    hide ProcessedPair, Matches, Withholds;
    assert work[..0] == [];
    var i := n - 1;
    assert work[..n][..i] == work[..i];
    StepLease(Processed(m, work[..i], w), work[i], w, id);
    if work[i].job.id == id && EmitsAt(m, work, w, i) {
      k := i;
    } else {
      k := LeasesAreGrounded(m, work, w, id, i);
    }
  }

  /** Every withheld nudge repeats one that was sent: there is a latest earlier emission of the job, it showed the
      same fingerprint and key under a validated zero backlog, less than the lease ago, and every matching minute
      of the job in between was withheld too.  (The lease arithmetic is that of a wrapping i64.) */
  lemma SuppressionIsSound(m: Memory, work: seq<Pair>, w: World, i: nat) returns (k: nat)
    requires m.leases == map[] && i < |work| && WithheldAt(m, work, w, i)
    requires forall p :: p in work ==> p.job.ttlSecs < TWO_64 && -I64_MAX <= p.minute * 60 <= I64_MAX
    ensures LatestEmission(m, work, w, work[i].job.id, k, i)
    ensures var id := work[i].job.id;
            && w.evaluate(id, work[k].minute).Some? && w.evaluate(id, work[i].minute).Some?
            && var then', now := w.evaluate(id, work[k].minute).value, w.evaluate(id, work[i].minute).value;
               then'.fingerprint == now.fingerprint && then'.suppressionKey == now.suppressionKey && then'.zeroBacklog && now.zeroBacklog
    ensures (work[i].minute - work[k].minute) * 60 < work[k].job.ttlSecs
    ensures forall j :: k < j < i && work[j].job.id == work[i].job.id && Matches(work[j].job, work[j].minute, w) ==>
              WithheldAt(m, work, w, j)
  {
    hide Processed, Matches, Expiry;
    k := LeasesAreGrounded(m, work, w, work[i].job.id, i);
    assert work[k] in work;
    ExpiryIsAtMostExact(work[k].minute, work[k].job.ttlSecs);
  }

  // ---- An unchanging zero backlog ----

  /** The matching minutes of a job in a work list. */
  function MatchingMinutes(work: seq<Pair>, job: Job, w: World): seq<int> {
    if work == [] then []
    else
      var p := work[|work| - 1];
      MatchingMinutes(work[..|work| - 1], job, w) + (if p.job == job && Matches(job, p.minute, w) then [p.minute] else [])
  }

  function EmittedMinutes(ds: seq<Decision>, id: string): seq<int> {
    if ds == [] then []
    else
      var d := ds[|ds| - 1];
      EmittedMinutes(ds[..|ds| - 1], id) + (if d.job == id && d.verdict == Emitted then [d.minute] else [])
  }

  /** The greedy subsequence: the first minute, and then each that is at least the TTL after the last one taken. */
  function Spaced(ms: seq<int>, ttlSecs: nat): seq<int> {
    if ms == [] then []
    else
      var taken, m := Spaced(ms[..|ms| - 1], ttlSecs), ms[|ms| - 1];
      if taken == [] || (m - taken[|taken| - 1]) * 60 >= ttlSecs then taken + [m] else taken
  }

  /** The taken minutes are a TTL apart, and what is not taken is within the TTL of an earlier one that is. */
  lemma {:induction false} SpacedIsGreedy(ms: seq<int>, ttlSecs: nat)
    ensures var taken := Spaced(ms, ttlSecs);
            && (forall t :: t in taken ==> t in ms)
            && (forall i :: 0 < i < |taken| ==> (taken[i] - taken[i - 1]) * 60 >= ttlSecs)
            && (forall m :: m in ms && m !in taken ==> exists t :: t in taken && (m - t) * 60 < ttlSecs)
  {
    if ms != [] {
      var n := |ms| - 1;
      SpacedIsGreedy(ms[..n], ttlSecs);
      var before, taken := Spaced(ms[..n], ttlSecs), Spaced(ms, ttlSecs);
      assert taken == if before == [] || (ms[n] - before[|before| - 1]) * 60 >= ttlSecs then before + [ms[n]] else before;
      assert forall m :: m in ms <==> m in ms[..n] || m == ms[n];
      forall i | 0 < i < |taken| ensures (taken[i] - taken[i - 1]) * 60 >= ttlSecs {
        if i < |before| { assert taken[i] == before[i] && taken[i - 1] == before[i - 1]; }
      }
      forall m | m in ms && m !in taken ensures exists t :: t in taken && (m - t) * 60 < ttlSecs {
        if m in ms[..n] {
          var t :| t in before && (m - t) * 60 < ttlSecs;
          assert t in taken;
        } else {
          assert before[|before| - 1] in taken;
        }
      }
    }
  }

  /** The lease of a job is that of the last emitted minute. */
  ghost predicate LeasedAt(m: Memory, job: Job, e: Evaluation, taken: seq<int>) {
    if taken == [] then job.id !in m.leases
    else
      && job.id in m.fingerprints && m.fingerprints[job.id] == e.fingerprint
      && job.id in m.leases
      && m.leases[job.id] == Lease(e.suppressionKey, taken[|taken| - 1] * 60 + job.ttlSecs)
  }

  /** One pair of an unchanging receipt: emitted and leased anew, or withheld under the old lease. */
  lemma SteadyStep(o: Outcome, p: Pair, w: World, job: Job, e: Evaluation, taken: seq<int>)
    requires 0 < job.ttlSecs <= I64_MAX && e.zeroBacklog && w.evaluate(job.id, p.minute) == Some(e)
    requires p.job.id == job.id ==> p.job == job && -I64_MAX <= p.minute * 60 && p.minute * 60 + job.ttlSecs <= I64_MAX
    requires LeasedAt(o.memory, job, e, taken) && EmittedMinutes(o.decisions, job.id) == taken
    ensures var o' := ProcessedPair(o, p, w);
            var taken' := if p.job == job && Matches(job, p.minute, w) && (taken == [] || (p.minute - taken[|taken| - 1]) * 60 >= job.ttlSecs)
                          then taken + [p.minute] else taken;
            LeasedAt(o'.memory, job, e, taken') && EmittedMinutes(o'.decisions, job.id) == taken'
  {
    hide ProcessedPair, LeasedAt, EmittedMinutes, Matches;
    if p.job.id != job.id {
      SteadyOther(o, p, w, job, e, taken);
    } else {
      SteadyOwn(o, p, w, e, taken);
    }
  }

  /** A pair of another job changes nothing of this one's. */
  lemma SteadyOther(o: Outcome, p: Pair, w: World, job: Job, e: Evaluation, taken: seq<int>)
    requires p.job.id != job.id && LeasedAt(o.memory, job, e, taken) && EmittedMinutes(o.decisions, job.id) == taken
    ensures LeasedAt(ProcessedPair(o, p, w).memory, job, e, taken) && EmittedMinutes(ProcessedPair(o, p, w).decisions, job.id) == taken
  {
    hide Matches, Expiry, Withholds, EmittedMinutes;
    assert taken + [] == taken;
    EmittedMore(o.decisions, Decision(p.minute, p.job.id, Withheld), job.id);
    EmittedMore(o.decisions, Decision(p.minute, p.job.id, Emitted), job.id);
  }

  lemma EmittedMore(ds: seq<Decision>, d: Decision, id: string)
    ensures EmittedMinutes(ds + [d], id) == EmittedMinutes(ds, id) + (if d.verdict == Emitted && d.job == id then [d.minute] else [])
  {
    assert (ds + [d])[..|ds|] == ds;
  }

  lemma SteadyOwn(o: Outcome, p: Pair, w: World, e: Evaluation, taken: seq<int>)
    requires 0 < p.job.ttlSecs <= I64_MAX && e.zeroBacklog && w.evaluate(p.job.id, p.minute) == Some(e)
    requires -I64_MAX <= p.minute * 60 && p.minute * 60 + p.job.ttlSecs <= I64_MAX
    requires LeasedAt(o.memory, p.job, e, taken) && EmittedMinutes(o.decisions, p.job.id) == taken
    ensures var o' := ProcessedPair(o, p, w);
            var taken' := if Matches(p.job, p.minute, w) && (taken == [] || (p.minute - taken[|taken| - 1]) * 60 >= p.job.ttlSecs)
                          then taken + [p.minute] else taken;
            LeasedAt(o'.memory, p.job, e, taken') && EmittedMinutes(o'.decisions, p.job.id) == taken'
  {
    hide Matches, Expiry, EmittedMinutes;
    EmittedMore(o.decisions, Decision(p.minute, p.job.id, Withheld), p.job.id);
    EmittedMore(o.decisions, Decision(p.minute, p.job.id, Emitted), p.job.id);
    assert taken + [] == taken;
    ExpiryIsAtMostExact(p.minute, p.job.ttlSecs);
  }

  /** Under one unchanging validated zero-backlog receipt a job is emitted at exactly the greedy TTL-spaced
      subsequence of its matching minutes: a withheld minute never renews the lease, and the first matching minute
      at or after its end is emitted. */
  lemma {:induction false} SteadyReceiptIsSpaced(m: Memory, work: seq<Pair>, w: World, job: Job, e: Evaluation)
    requires job.id !in m.leases && 0 < job.ttlSecs <= I64_MAX && e.zeroBacklog
    requires forall minute :: w.evaluate(job.id, minute) == Some(e)
    requires forall p :: p in work && p.job.id == job.id ==>
               p.job == job && -I64_MAX <= p.minute * 60 && p.minute * 60 + job.ttlSecs <= I64_MAX
    ensures var o := Processed(m, work, w);
            && EmittedMinutes(o.decisions, job.id) == Spaced(MatchingMinutes(work, job, w), job.ttlSecs)
            && LeasedAt(o.memory, job, e, EmittedMinutes(o.decisions, job.id))
  {
    hide ProcessedPair, LeasedAt, Matches, Spaced, EmittedMinutes;
    if work == [] {
      NotLeased(m, job, e);
    } else {
      var n := |work| - 1;
      SteadyReceiptIsSpaced(m, work[..n], w, job, e);
      var before := Processed(m, work[..n], w);
      SteadyStep(before, work[n], w, job, e, EmittedMinutes(before.decisions, job.id));
      SpacedStep(MatchingMinutes(work[..n], job, w), work[n].minute, job.ttlSecs);
    }
  }

  lemma SpacedStep(ms: seq<int>, m: int, ttlSecs: nat)
    ensures var taken := Spaced(ms, ttlSecs);
            Spaced(ms + [m], ttlSecs) == (if taken == [] || (m - taken[|taken| - 1]) * 60 >= ttlSecs then taken + [m] else taken)
    ensures ms + [] == ms
  {
    var all := ms + [m];
    assert all[..|all| - 1] == ms && all[|all| - 1] == m;
    assert Spaced(all, ttlSecs) == var taken := Spaced(all[..|all| - 1], ttlSecs);
      if taken == [] || (m - taken[|taken| - 1]) * 60 >= ttlSecs then taken + [m] else taken;
  }

  lemma NotLeased(m: Memory, job: Job, e: Evaluation)
    requires job.id !in m.leases
    ensures LeasedAt(m, job, e, []) && EmittedMinutes([], job.id) == Spaced([], job.ttlSecs) == []
  {
  }
}
