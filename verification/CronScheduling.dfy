/** `CronScheduler` of src/cron.rs: a minute cursor with catch-up, persisted state, and for each job a lease
    that withholds a repeated zero-backlog nudge.

    A call processes a work list, the pairs of minute and job from the cursor up to now.  `Processed` says what
    processing a work list does to the state and which matching pairs were emitted or withheld; `EmitDue` is
    proved to do that, and the lemmas in CronRuns.dfy are about `Processed` over whole histories. */
module CronScheduling {
  import opened Text
  import opened CronSchedules

  /** A state file as evaluated: opaque fingerprint and key, and whether the receipt is a validated zero backlog. */
  datatype Evaluation = Evaluation(fingerprint: string, suppressionKey: string, zeroBacklog: bool)

  datatype Job = Job(id: string, schedule: CronSchedule, ttlSecs: nat)
  datatype Lease = Lease(key: string, expiresAt: int)

  /** The persisted part of the scheduler. */
  datatype Memory = Memory(cursor: Option<int>, fingerprints: map<string, string>, leases: map<string, Lease>)

  /** The calendar, and what evaluating a job's state file gives while a minute is processed (`None` without a
      readable state file). */
  datatype World = World(calendar: int -> Civil, evaluate: (string, int) -> Option<Evaluation>)

  datatype Verdict = Emitted | Withheld
  datatype Decision = Decision(minute: int, job: string, verdict: Verdict)

  // ---- 64-bit arithmetic ----

  const TWO_64 := 0x1_0000_0000_0000_0000
  const I64_MAX := 0x7fff_ffff_ffff_ffff

  /** A wrapping `i64`. */
  function I64(x: int): int {
    var r := x % TWO_64;
    if r > I64_MAX then r - TWO_64 else r
  }

  /** `scheduled_for.unix_timestamp() + ttl as i64` */
  function Expiry(minute: int, ttlSecs: nat): int { I64(minute * 60 + I64(ttlSecs)) }

  /** A wrapped expiry is never later than the exact one, and is exact when that fits. */
  lemma ExpiryIsAtMostExact(minute: int, ttlSecs: nat)
    requires ttlSecs < TWO_64 && -I64_MAX <= minute * 60 <= I64_MAX
    ensures Expiry(minute, ttlSecs) <= minute * 60 + ttlSecs
    ensures minute * 60 + ttlSecs <= I64_MAX && ttlSecs <= I64_MAX ==> Expiry(minute, ttlSecs) == minute * 60 + ttlSecs
  {
  }

  // ---- One pair ----

  predicate ShouldSuppress(job: Job, e: Evaluation, m: Memory, minute: int) {
    && job.ttlSecs != 0 && e.zeroBacklog
    && job.id in m.fingerprints && m.fingerprints[job.id] == e.fingerprint
    && job.id in m.leases && m.leases[job.id].key == e.suppressionKey && m.leases[job.id].expiresAt > minute * 60
  }

  predicate Matches(job: Job, minute: int, w: World) { job.schedule.Matches(w.calendar(minute)) }

  predicate Withholds(job: Job, m: Memory, minute: int, w: World) {
    var e := w.evaluate(job.id, minute);
    e.Some? && ShouldSuppress(job, e.value, m, minute)
  }

  /** The bookkeeping after a successful emission. */
  function Noted(job: Job, m: Memory, minute: int, w: World): Memory {
    match w.evaluate(job.id, minute)
    case None => m.(leases := m.leases - {job.id})
    case Some(e) =>
      m.(fingerprints := m.fingerprints[job.id := e.fingerprint],
         leases := if e.zeroBacklog && job.ttlSecs > 0
                   then m.leases[job.id := Lease(e.suppressionKey, Expiry(minute, job.ttlSecs))]
                   else m.leases - {job.id})
  }

  // ---- Work lists ----

  datatype Pair = Pair(minute: int, job: Job)

  function PairsOf(minute: int, jobs: seq<Job>): seq<Pair> {
    seq(|jobs|, i requires 0 <= i < |jobs| => Pair(minute, jobs[i]))
  }

  /** Every minute from `from` to `last`, in order, each with every job in order. */
  function Work(jobs: seq<Job>, from: int, last: int): seq<Pair>
    decreases last - from + 1
  {
    if last < from then [] else Work(jobs, from, last - 1) + PairsOf(last, jobs)
  }

  datatype Outcome = Outcome(memory: Memory, decisions: seq<Decision>)

  function ProcessedPair(o: Outcome, p: Pair, w: World): Outcome {
    if !Matches(p.job, p.minute, w) then o
    else if Withholds(p.job, o.memory, p.minute, w) then Outcome(o.memory, o.decisions + [Decision(p.minute, p.job.id, Withheld)])
    else Outcome(Noted(p.job, o.memory, p.minute, w), o.decisions + [Decision(p.minute, p.job.id, Emitted)])
  }

  function Processed(m: Memory, work: seq<Pair>, w: World): Outcome {
    if work == [] then Outcome(m, []) else ProcessedPair(Processed(m, work[..|work| - 1], w), work[|work| - 1], w)
  }

  function EmittedJobs(ds: seq<Decision>): seq<string> {
    if ds == [] then []
    else EmittedJobs(ds[..|ds| - 1]) + (if ds[|ds| - 1].verdict == Emitted then [ds[|ds| - 1].job] else [])
  }

  /** `div_euclid(60)` of the current time. */
  function MinuteOf(nowSecs: int): int { nowSecs / 60 }

  /** Where a call at minute `now` starts: after the cursor, or at `now` on the first tick. */
  function FirstMinute(cursor: Option<int>, now: int): int { if cursor.Some? then cursor.value + 1 else now }

  function Due(m: Memory, jobs: seq<Job>, now: int): seq<Pair> { Work(jobs, FirstMinute(m.cursor, now), now) }

  /** A successful call at minute `now`. */
  function Ticked(m: Memory, jobs: seq<Job>, w: World, now: int): Outcome {
    var o := Processed(m, Due(m, jobs, now), w);
    Outcome(o.memory.(cursor := Some(now)), o.decisions)
  }

  /** What one pair comes to on its own. */
  lemma OnePair(m: Memory, p: Pair, w: World)
    ensures var o := ProcessedPair(Outcome(m, []), p, w);
      if Matches(p.job, p.minute, w) && !Withholds(p.job, m, p.minute, w)
      then o.memory == Noted(p.job, m, p.minute, w) && EmittedJobs(o.decisions) == [p.job.id]
      else o.memory == m && EmittedJobs(o.decisions) == []
  {
    hide Matches, Withholds, Noted, EmittedJobs;
    EmittedOne(Decision(p.minute, p.job.id, Emitted));
    EmittedOne(Decision(p.minute, p.job.id, Withheld));
    assert forall d: Decision :: [] + [d] == [d];
  }

  lemma EmittedOne(d: Decision)
    ensures EmittedJobs([]) == [] && EmittedJobs([d]) == if d.verdict == Emitted then [d.job] else []
  {
    assert [d][..0] == [];
    assert [] + [d.job] == [d.job];
  }

  // ---- The scheduler ----

  datatype Write = Written | Untouched | Garbled

  /** What the state file gives when it is next loaded; one that does not parse is ignored. */
  function AfterWrite(file: Memory, state: Memory, write: Write): Memory {
    match write
    case Written => state
    case Untouched => file
    case Garbled => Memory(None, map[], map[])
  }

  class CronScheduler {
    const jobs: seq<Job>
    var lastProcessedMinute: Option<int>
    var jobFingerprints: map<string, string>
    var zeroBacklogSuppressions: map<string, Lease>
    /** The state file. */
    var stateFile: Memory

    function State(): Memory
      reads this
    {
      Memory(lastProcessedMinute, jobFingerprints, zeroBacklogSuppressions)
    }

    /** A start, and a restart, take the state from the file. */
    constructor (jobs: seq<Job>, stateFile: Memory)
      ensures State() == stateFile && this.stateFile == stateFile && this.jobs == jobs
    {
      this.jobs := jobs;
      lastProcessedMinute := stateFile.cursor;
      jobFingerprints, zeroBacklogSuppressions := stateFile.fingerprints, stateFile.leases;
      this.stateFile := stateFile;
    }

    /** `persist_state`: a write that fails may have left the old file, or one that no longer parses. */
    method PersistState(write: Write) returns (ok: bool)
      modifies this`stateFile
      ensures ok <==> write == Written
      ensures stateFile == AfterWrite(old(stateFile), State(), write)
    {
      stateFile := AfterWrite(stateFile, State(), write);
      ok := write == Written;
    }

    /** The bookkeeping after a successful emission. */
    method NoteEmission(minute: int, job: Job, w: World)
      modifies this`jobFingerprints, this`zeroBacklogSuppressions
      ensures State() == Noted(job, old(State()), minute, w)
    {
      hide Expiry;
      match w.evaluate(job.id, minute) {
        case Some(e) =>
          jobFingerprints := jobFingerprints[job.id := e.fingerprint];
          if e.zeroBacklog && job.ttlSecs > 0 {
            zeroBacklogSuppressions := zeroBacklogSuppressions[job.id := Lease(e.suppressionKey, Expiry(minute, job.ttlSecs))];
          } else {
            zeroBacklogSuppressions := zeroBacklogSuppressions - {job.id};
          }
        case None =>
          zeroBacklogSuppressions := zeroBacklogSuppressions - {job.id};
      }
    }

    /** Decision, emission and bookkeeping of one pair; `room` is how many more events the channel takes. */
    method RunPair(minute: int, job: Job, w: World, room: nat) returns (ok: bool, executed: seq<string>, ghost o: Outcome)
      modifies this`jobFingerprints, this`zeroBacklogSuppressions
      ensures o == ProcessedPair(Outcome(old(State()), []), Pair(minute, job), w)
      ensures ok <==> |EmittedJobs(o.decisions)| <= room
      ensures if ok then State() == o.memory && executed == EmittedJobs(o.decisions)
              else State() == old(State()) && executed == [] && |EmittedJobs(o.decisions)| == 1
    {
      hide ProcessedPair, EmittedJobs, Matches, Withholds, Noted;
      o := ProcessedPair(Outcome(State(), []), Pair(minute, job), w);
      OnePair(State(), Pair(minute, job), w);
      if !Matches(job, minute, w) || Withholds(job, State(), minute, w) {
        return true, [], o;
      }
      if room == 0 {
        return false, [], o;
      }
      NoteEmission(minute, job, w);
      return true, [job.id], o;
    }

    /** The state and the emitted jobs are those of having processed `done`. */
    ghost predicate Reached(m: Memory, done: seq<Pair>, w: World, executed: seq<string>)
      reads this
    {
      State() == Processed(m, done, w).memory && executed == EmittedJobs(Processed(m, done, w).decisions)
    }

    /** A pair of the work list, with the account of all pairs before it. */
    method RunNext(p: Pair, w: World, room: nat, executed: seq<string>, ghost m: Memory, ghost done: seq<Pair>)
      returns (ok: bool, executed': seq<string>)
      requires Reached(m, done, w, executed) && |executed| <= room
      modifies this`jobFingerprints, this`zeroBacklogSuppressions
      ensures |executed'| <= room && this.lastProcessedMinute == old(lastProcessedMinute)
      ensures if ok then Reached(m, done + [p], w, executed')
              else executed' == executed && Reached(m, done, w, executed) && |executed| == room
                   && |EmittedJobs(Processed(m, done + [p], w).decisions)| == room + 1
    {
      hide ProcessedPair, EmittedJobs;
      ghost var o;
      var more;
      ok, more, o := RunPair(p.minute, p.job, w, room - |executed|);
      PairAddsItsDecisions(Processed(m, done, w), p, w);
      assert (done + [p])[..|done|] == done;
      executed' := executed + more;
    }

    /** A call processes the due work and moves the cursor to now, in memory and on file.  If the channel takes only
        `room` events and more are due, the call fails in the first pair it cannot emit: what came before it stays
        done in memory, and neither the cursor nor the file has moved.  If only the file cannot be written, the call
        fails with everything done in memory. */
    method EmitDue(nowSecs: int, w: World, room: nat, write: Write)
      returns (ok: bool, emitted: bool, executed: seq<string>, ghost done: seq<Pair>)
      modifies this
      ensures ok <==> emitted && write == Written
      ensures |executed| <= room && executed == EmittedJobs(Processed(old(State()), done, w).decisions)
      ensures emitted ==> done == Due(old(State()), jobs, MinuteOf(nowSecs)) && stateFile == AfterWrite(old(stateFile), State(), write)
                          && State() == Processed(old(State()), done, w).memory.(cursor := Some(MinuteOf(nowSecs)))
      ensures !emitted ==> State() == Processed(old(State()), done, w).memory && State().cursor == old(State()).cursor
                           && stateFile == old(stateFile) && |executed| == room
      ensures !emitted ==> exists p :: done + [p] <= Due(old(State()), jobs, MinuteOf(nowSecs))
                                       && |EmittedJobs(Processed(old(State()), done + [p], w).decisions)| == room + 1
    {
      hide Processed, EmittedJobs, PairsOf;
      ghost var m := State();
      var current := MinuteOf(nowSecs);
      executed, done := [], [];
      assert Reached(m, [], w, []) by { NothingReached(m, w); }
      var minute := FirstMinute(lastProcessedMinute, current);
      ghost var first := minute;
      while minute <= current
        invariant first <= minute && (minute <= current + 1 || minute == first)
        invariant done == Work(jobs, first, minute - 1)
        invariant Reached(m, done, w, executed) && |executed| <= room
        invariant stateFile == old(stateFile) && lastProcessedMinute == old(lastProcessedMinute)
        decreases current + 1 - minute
      {
        var j := 0;
        WorkStart(minute, jobs, done);
        while j < |jobs|
          invariant 0 <= j <= |jobs| && |PairsOf(minute, jobs)| == |jobs|
          invariant done == Work(jobs, first, minute - 1) + PairsOf(minute, jobs)[..j]
          invariant Reached(m, done, w, executed) && |executed| <= room
          invariant stateFile == old(stateFile) && lastProcessedMinute == old(lastProcessedMinute)
        {
          ghost var p := Pair(minute, jobs[j]);
          WorkPrefix(jobs, first, minute, current, j);
          emitted, executed := RunNext(Pair(minute, jobs[j]), w, room, executed, m, done);
          if !emitted {
            assert done + [p] <= Due(m, jobs, current);
            return false, false, executed, done;
          }
          done := done + [p];
          j := j + 1;
        }
        WorkDone(jobs, first, minute);
        minute := minute + 1;
      }
      WorkEmpty(jobs, first, minute - 1, current);
      ProcessedKeepsCursor(m, done, w);
      lastProcessedMinute := Some(current);
      ok := PersistState(write);
      emitted := true;
    }
  }

  lemma NothingReached(m: Memory, w: World)
    ensures Processed(m, [], w) == Outcome(m, []) && EmittedJobs([]) == []
  {
  }

  lemma WorkStart(minute: int, jobs: seq<Job>, done: seq<Pair>)
    ensures |PairsOf(minute, jobs)| == |jobs| && done == done + PairsOf(minute, jobs)[..0]
  {
  }

  lemma WorkDone(jobs: seq<Job>, from: int, minute: int)
    requires from <= minute
    ensures |PairsOf(minute, jobs)| == |jobs|
    ensures Work(jobs, from, minute) == Work(jobs, from, minute - 1) + PairsOf(minute, jobs)[..|jobs|]
  {
    assert PairsOf(minute, jobs)[..|jobs|] == PairsOf(minute, jobs);
  }

  /** Only the end of a call moves the cursor. */
  lemma {:induction false} ProcessedKeepsCursor(m: Memory, work: seq<Pair>, w: World)
    ensures Processed(m, work, w).memory.cursor == m.cursor
  {
    if work != [] { ProcessedKeepsCursor(m, work[..|work| - 1], w); }
  }

  lemma {:induction false} WorkPrefix(jobs: seq<Job>, from: int, minute: int, last: int, j: nat)
    requires from <= minute <= last && j < |jobs|
    ensures |PairsOf(minute, jobs)| == |jobs| && PairsOf(minute, jobs)[..j + 1] == PairsOf(minute, jobs)[..j] + [Pair(minute, jobs[j])]
    ensures Work(jobs, from, minute - 1) + PairsOf(minute, jobs)[..j] + [Pair(minute, jobs[j])] <= Work(jobs, from, last)
    decreases last - minute
  {
    if minute < last { WorkPrefix(jobs, from, minute, last - 1, j); }
  }

  lemma WorkEmpty(jobs: seq<Job>, from: int, done: int, last: int)
    requires done == last || (done == from - 1 && last < from)
    ensures Work(jobs, from, done) == Work(jobs, from, last)
  {
  }

  /** A pair's own decision does not depend on those before it. */
  lemma PairAddsItsDecisions(o: Outcome, p: Pair, w: World)
    ensures var alone := ProcessedPair(Outcome(o.memory, []), p, w);
            && ProcessedPair(o, p, w) == Outcome(alone.memory, o.decisions + alone.decisions)
            && |alone.decisions| <= 1
            && EmittedJobs(o.decisions + alone.decisions) == EmittedJobs(o.decisions) + EmittedJobs(alone.decisions)
  {
    var alone := ProcessedPair(Outcome(o.memory, []), p, w);
    if alone.decisions == [] {
      assert o.decisions + [] == o.decisions;
    } else {
      assert (o.decisions + alone.decisions)[..|o.decisions|] == o.decisions;
      assert alone.decisions[..0] == [] && EmittedJobs([]) == [];
    }
  }
}
