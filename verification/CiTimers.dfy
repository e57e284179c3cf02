/** The timers of `GitHubCiBatcher` (src/dispatch.rs).

    As in the routine batcher a timer entry counts iff its version is its batch's current one.  But a CI
    batch may leave early, on completion: its entries stay in the wheel, and the next batch of the same key
    counts its versions from 0 again.  So a batch is never late, and it may be flushed before its own time,
    by an entry that an earlier batch of its key left behind.  `tainted` follows the keys that have such
    entries: a key enters it at a completion flush and leaves it when its last entry has left the wheel. */
module CiTimers {
  import opened Text
  import opened TimerWheel
  import opened BatchTimers
  import opened CiBatching

  type CiPending = map<string, PendingCiBatch>

  ghost function Timer(k: string, b: PendingCiBatch): TimerEntry {
    DelayedEntry(b.deliverAtMs, ScheduledBatchKey(k, b.version))
  }

  ghost predicate OnSchedule(e: TimerEntry, q: CiPending) {
    e.record.key in q && e.deliverAtMs == q[e.record.key].deliverAtMs
  }

  /** Each of the keys still has an entry in the wheel. */
  ghost predicate Undrained(keys: set<string>, timers: multiset<TimerEntry>) {
    forall k :: k in keys ==> exists e :: e in timers && e.record.key == k
  }

  ghost predicate Armed(q: CiPending, timers: multiset<TimerEntry>, clock: nat, tainted: set<string>) {
    && (forall k {:trigger Timer(k, q[k])} :: k in q ==> Timer(k, q[k]) in timers)
    && (forall e :: e in timers ==> clock <= e.deliverAtMs && (OnSchedule(e, q) || e.record.key in tainted))
    && Undrained(tainted, timers)
  }

  /** Some entry due at `now` names the batch's current version. */
  ghost predicate Hit(k: string, b: PendingCiBatch, timers: multiset<TimerEntry>, now: nat) {
    exists e :: e in timers && e.record == ScheduledBatchKey(k, b.version) && e.deliverAtMs <= now
  }

  ghost function Missed(q: CiPending, timers: multiset<TimerEntry>, now: nat): CiPending {
    map k | k in q && !Hit(k, q[k], timers, now) :: q[k]
  }

  ghost function StillTainted(tainted: set<string>, timers: multiset<TimerEntry>): set<string> {
    set k | k in tainted && exists e :: e in timers && e.record.key == k
  }

  lemma ArmedAfterFold(q: CiPending, timers: multiset<TimerEntry>, clock: nat, tainted: set<string>, k: string,
                       b: PendingCiBatch, now: nat)
    requires Armed(q, timers, clock, tainted) && clock <= now
    requires if k in q then b.deliverAtMs == q[k].deliverAtMs else now <= b.deliverAtMs
    ensures Armed(q[k := b], timers + multiset{Timer(k, b)}, clock, tainted)
  {
    hide Undrained;
    var timers' := timers + multiset{Timer(k, b)};
    assert k in q ==> Timer(k, q[k]) in timers;
    forall j | j in q ensures Timer(j, q[j]) in timers' { assert Timer(j, q[j]) in timers; }
    UndrainedGrows(timers, Timer(k, b), tainted);
  }

  /** A batch that leaves early taints its key. */
  lemma ArmedAfterCompletion(q: CiPending, timers: multiset<TimerEntry>, clock: nat, tainted: set<string>, k: string)
    requires Armed(q, timers, clock, tainted) && k in q
    ensures Armed(q - {k}, timers, clock, tainted + {k})
  {
    assert Timer(k, q[k]) in timers;
    forall e | e in timers ensures OnSchedule(e, q - {k}) || e.record.key in tainted + {k} {
    }
    forall j | j in q - {k} ensures Timer(j, q[j]) in timers {
    }
  }

  lemma UndrainedGrows(timers: multiset<TimerEntry>, e: TimerEntry, keys: set<string>)
    requires Undrained(keys, timers)
    ensures Undrained(keys, timers + multiset{e})
  {
    var timers' := timers + multiset{e};
    forall k | k in keys ensures exists d :: d in timers' && d.record.key == k {
      var d :| d in timers && d.record.key == k;
      assert d in timers';
    }
  }

  /** A due batch is hit by its own timer; a batch hit before its own time belongs to a tainted key. */
  lemma ArmedAfterTick(q: CiPending, timers: multiset<TimerEntry>, entries: seq<TimerEntry>, timers': multiset<TimerEntry>,
                       clock: nat, now: nat, tainted: set<string>)
    requires Armed(q, timers, clock, tainted) && multiset(entries) + timers' == timers
    requires forall e :: e in entries ==> e.deliverAtMs <= now
    requires forall e :: e in timers' ==> now < e.deliverAtMs || e.deliverAtMs < clock
    ensures Armed(Missed(q, timers, now), timers', now, StillTainted(tainted, timers'))
    ensures var q' := Missed(q, timers, now); forall k :: k in q' ==> now < q'[k].deliverAtMs
    ensures forall k :: k in q && k !in Missed(q, timers, now) ==> q[k].deliverAtMs <= now || k in tainted
    ensures Missed(q, multiset(entries), now) == Missed(q, timers, now)
  {
    hide Hit, OnSchedule, StillTainted, Armed, Undrained;
    HitsAfterTick(q, timers, entries, timers', clock, now, tainted);
    HitIsAmongEntries(q, timers, entries, timers', clock, now, tainted);
    StaysOnSchedule(q, timers, entries, timers', clock, now, tainted);
    StillUndrained(tainted, timers');
    MissedIsArmed(Missed(q, timers, now), timers', now, StillTainted(tainted, timers'));
  }

  lemma MissedIsArmed(q: CiPending, timers: multiset<TimerEntry>, now: nat, tainted: set<string>)
    requires forall k {:trigger Timer(k, q[k])} :: k in q ==> Timer(k, q[k]) in timers
    requires forall e :: e in timers ==> now <= e.deliverAtMs && (OnSchedule(e, q) || e.record.key in tainted)
    requires Undrained(tainted, timers)
    ensures Armed(q, timers, now, tainted)
  {
  }

  lemma StillUndrained(tainted: set<string>, timers: multiset<TimerEntry>)
    ensures Undrained(StillTainted(tainted, timers), timers)
  {
  }

  /** What a tick hits: every due batch, and none before its time but under a tainted key; the others keep their timers. */
  lemma HitsAfterTick(q: CiPending, timers: multiset<TimerEntry>, entries: seq<TimerEntry>, timers': multiset<TimerEntry>,
                      clock: nat, now: nat, tainted: set<string>)
    requires Armed(q, timers, clock, tainted) && multiset(entries) + timers' == timers
    requires forall e :: e in entries ==> e.deliverAtMs <= now
    ensures forall k :: k in q && q[k].deliverAtMs <= now ==> Hit(k, q[k], timers, now)
    ensures forall k :: k in q && Hit(k, q[k], timers, now) ==> q[k].deliverAtMs <= now || k in tainted
    ensures forall k {:trigger Timer(k, q[k])} :: k in q && !Hit(k, q[k], timers, now) ==> Timer(k, q[k]) in timers'
  {
    hide Undrained;
    assert forall e :: e in timers <==> e in entries || e in timers';
    forall k | k in q
      ensures q[k].deliverAtMs <= now ==> Hit(k, q[k], timers, now)
      ensures !Hit(k, q[k], timers, now) ==> Timer(k, q[k]) in timers'
    {
      assert Timer(k, q[k]) in timers && Timer(k, q[k]).record == ScheduledBatchKey(k, q[k].version);
    }
  }

  /** What a tick leaves in the wheel is on the schedule of what is left, or under a key still tainted. */
  lemma StaysOnSchedule(q: CiPending, timers: multiset<TimerEntry>, entries: seq<TimerEntry>, timers': multiset<TimerEntry>,
                        clock: nat, now: nat, tainted: set<string>)
    requires Armed(q, timers, clock, tainted) && multiset(entries) + timers' == timers
    requires forall e :: e in timers' ==> now < e.deliverAtMs || e.deliverAtMs < clock
    requires forall k :: k in q && Hit(k, q[k], timers, now) ==> q[k].deliverAtMs <= now || k in tainted
    ensures forall e :: e in timers' ==>
              now <= e.deliverAtMs && (OnSchedule(e, Missed(q, timers, now)) || e.record.key in StillTainted(tainted, timers'))
  {
    hide Hit, Undrained;
    forall e | e in timers'
      ensures now <= e.deliverAtMs && (OnSchedule(e, Missed(q, timers, now)) || e.record.key in StillTainted(tainted, timers'))
    {
      assert e in timers;
    }
  }

  lemma HitBy(k: string, b: PendingCiBatch, entries: seq<TimerEntry>, n: nat, now: nat)
    requires n < |entries| && entries[n].record == ScheduledBatchKey(k, b.version) && entries[n].deliverAtMs <= now
    ensures Hit(k, b, multiset(entries), now)
  {
    assert entries[n] in multiset(entries);
  }

  lemma LeftIsMissed(was: CiPending, left: CiPending, entries: seq<TimerEntry>, now: nat)
    requires forall k :: k in left ==> k in was && left[k] == was[k]
    requires forall k, i :: k in left && 0 <= i < |entries| ==> entries[i].record != ScheduledBatchKey(k, left[k].version)
    requires forall k :: k in was && k !in left ==> Hit(k, was[k], multiset(entries), now)
    ensures left == Missed(was, multiset(entries), now)
  {
    assert forall e :: e in multiset(entries) <==> e in entries;
    forall k | k in left ensures !Hit(k, was[k], multiset(entries), now) {
    }
  }

  lemma HitIsAmongEntries(q: CiPending, timers: multiset<TimerEntry>, entries: seq<TimerEntry>, timers': multiset<TimerEntry>,
                          clock: nat, now: nat, tainted: set<string>)
    requires Armed(q, timers, clock, tainted) && multiset(entries) + timers' == timers
    requires forall e :: e in entries ==> e.deliverAtMs <= now
    requires forall e :: e in timers' ==> now < e.deliverAtMs || e.deliverAtMs < clock
    ensures forall k :: k in q ==> (Hit(k, q[k], timers, now) <==> Hit(k, q[k], multiset(entries), now))
  {
    assert forall e :: e in timers <==> e in entries || e in timers';
    forall k | k in q ensures Hit(k, q[k], timers, now) <==> Hit(k, q[k], multiset(entries), now) {
    }
  }

  class GitHubCiBatcher {
    var pending: CiPending
    const timerWheel: Wheel<ScheduledBatchKey>
    const window: nat
    /** The events of each pending batch since it opened. */
    ghost var observed: map<string, seq<CiEvent>>
    ghost var tainted: set<string>

    ghost predicate Valid()
      reads this, timerWheel
    {
      && timerWheel.Valid()
      && Armed(pending, timerWheel.Contents(), timerWheel.currentMs, tainted)
      && Remembered()
    }

    ghost predicate Remembered()
      reads this
    {
      observed.Keys == pending.Keys && forall k :: k in pending ==> Summarizes(pending[k], observed[k])
    }

    constructor (window: nat, now: nat)
      ensures Valid() && pending == map[] && observed == map[] && tainted == {} && this.window == window
      ensures fresh(timerWheel) && timerWheel.currentMs == now
    {
      pending, observed, tainted := map[], map[], {};
      timerWheel := new Wheel(now);
      this.window := window;
    }

    ghost function Since(k: string): seq<CiEvent>
      reads this
    {
      if k in observed then observed[k] else []
    }

    /** The event joins its key's batch.  A batch that is complete leaves at once, as the report of exactly the
        events since it opened; another batch keeps the time it opened with. */
    method Observe(event: CiEvent, now: nat) returns (reports: seq<CiReport>, ghost batch: PendingCiBatch)
      requires Valid() && timerWheel.currentMs <= now
      modifies this, timerWheel
      ensures Valid() && timerWheel.currentMs == old(timerWheel.currentMs)
      ensures timerWheel.Contents() == old(timerWheel.Contents()) + multiset{Timer(event.key, batch)}
      ensures batch == Folded(if event.key in old(pending) then old(pending)[event.key] else Opened(event, now + window), event)
      ensures Summarizes(batch, old(Since(event.key)) + [event])
      ensures batch.deliverAtMs == if event.key in old(pending) then old(pending)[event.key].deliverAtMs else now + window
      ensures if batch.Complete() then
                && |reports| == 1 && Reports(reports[0], batch)
                && pending == old(pending) - {event.key} && observed == old(observed) - {event.key}
                && tainted == old(tainted) + {event.key}
              else
                && reports == [] && pending == old(pending)[event.key := batch]
                && observed == old(observed)[event.key := old(Since(event.key)) + [event]] && tainted == old(tainted)
    {
      hide Wheel.Valid, Wheel.Contents, Armed, Summarizes, Reports, PendingCiBatch.Complete;
      batch := FoldIn(event, now);
      var key := event.key;
      reports := [];
      if pending[key].Complete() {
        ArmedAfterCompletion(pending, timerWheel.Contents(), timerWheel.currentMs, tainted, key);
        assert pending - {key} == old(pending) - {key} && observed - {key} == old(observed) - {key};
        var report := FlushBatch(key);
        reports := [report];
        tainted := tainted + {key};
      }
    }

    /** The folding half of `observe`: the event is in its batch, and the batch has a timer for it. */
    method FoldIn(event: CiEvent, now: nat) returns (ghost batch: PendingCiBatch)
      requires Valid() && timerWheel.currentMs <= now
      modifies this`pending, this`observed, timerWheel
      ensures Valid() && timerWheel.currentMs == old(timerWheel.currentMs)
      ensures timerWheel.Contents() == old(timerWheel.Contents()) + multiset{Timer(event.key, batch)}
      ensures batch == Folded(if event.key in old(pending) then old(pending)[event.key] else Opened(event, now + window), event)
      ensures Summarizes(batch, old(Since(event.key)) + [event])
      ensures batch.deliverAtMs == if event.key in old(pending) then old(pending)[event.key].deliverAtMs else now + window
      ensures pending == old(pending)[event.key := batch]
      ensures observed == old(observed)[event.key := old(Since(event.key)) + [event]]
    {
      hide Wheel.Valid, Wheel.Contents, Armed, Summarizes, Folded, Opened;
      var key := event.key;
      var b := if key in pending then pending[key] else Opened(event, now + window);
      Summarized(key, b, event, now + window);
      b := Folded(b, event);
      batch := b;
      ArmedAfterFold(pending, timerWheel.Contents(), timerWheel.currentMs, tainted, key, b, now);
      pending, observed := pending[key := b], observed[key := Since(key) + [event]];
      timerWheel.Schedule(DelayedEntry(b.deliverAtMs, ScheduledBatchKey(key, b.version)));
    }

    lemma Summarized(k: string, b: PendingCiBatch, e: CiEvent, deliverAtMs: nat)
      requires Remembered() && b == if k in pending then pending[k] else Opened(e, deliverAtMs)
      ensures Summarizes(Folded(b, e), Since(k) + [e]) && Folded(b, e).deliverAtMs == b.deliverAtMs
      ensures k !in pending ==> b.deliverAtMs == deliverAtMs
    {
      if k in pending {
        FoldSummarizesNext(b, observed[k], e);
      } else {
        FoldSummarizesFirst(e, deliverAtMs);
        assert [] + [e] == [e];
      }
    }

    static lemma JobsKnowTheirNames(b: PendingCiBatch, es: seq<CiEvent>)
      requires Summarizes(b, es)
      ensures forall w :: w in b.jobs ==> b.jobs[w].workflow == w
    {
      hide IsLast, IsLastOr, IsMaxJobCount;
    }

    /** Removes a pending batch and writes its event. */
    method FlushBatch(key: string) returns (r: CiReport)
      requires key in pending && Remembered()
      modifies this`pending, this`observed
      ensures pending == old(pending) - {key} && observed == old(observed) - {key} && Remembered()
      ensures Reports(r, old(pending)[key])
    {
      hide Summarizes, Count, VerdictOf, ListsJobs;
      var b := pending[key];
      JobsKnowTheirNames(b, observed[key]);
      pending, observed := pending - {key}, observed - {key};
      var jobs := SortedJobs(b.jobs);
      r := CiReport(VerdictOf(jobs), b.channel, b.mention, b.format, b.repo, b.number, b.branch, b.sha, b.url,
                    if b.expectedJobs > |jobs| then b.expectedJobs else |jobs|,
                    Count(jobs, PASSED), Count(jobs, SKIPPED), Count(jobs, FAILED), Count(jobs, CANCELLED), jobs);
    }

    /** The reports of the batches under `keys`, one each. */
    static ghost predicate ReportsAll(reports: seq<CiReport>, keys: seq<string>, q: CiPending) {
      && |reports| == |keys|
      && (forall i :: 0 <= i < |keys| ==> keys[i] in q && Reports(reports[i], q[keys[i]]))
      && (forall i, j :: 0 <= i < j < |keys| ==> keys[i] != keys[j])
    }

    static lemma ReportsNone(q: CiPending)
      ensures ReportsAll([], [], q)
    {
    }

    static lemma ReportsOneMore(reports: seq<CiReport>, keys: seq<string>, q: CiPending, r: CiReport, k: string)
      requires ReportsAll(reports, keys, q) && k in q && k !in keys && Reports(r, q[k])
      ensures ReportsAll(reports + [r], keys + [k], q)
    {
      hide Reports;
    }

    method FlushCurrent(entries: seq<TimerEntry>, ghost now: nat) returns (reports: seq<CiReport>, ghost keys: seq<string>)
      requires Remembered() && forall e :: e in entries ==> e.deliverAtMs <= now
      modifies this`pending, this`observed
      ensures Remembered() && pending == Missed(old(pending), multiset(entries), now)
      ensures ReportsAll(reports, keys, old(pending))
      ensures forall k :: k in keys <==> k in old(pending) && k !in pending
      ensures observed == map k | k in old(observed) && k in pending :: old(observed)[k]
    {
      hide Reports, Summarizes, ReportsAll, Hit, Missed;
      ReportsNone(old(pending));
      reports, keys := [], [];
      var n := 0;
      while n < |entries|
        invariant 0 <= n <= |entries|
        invariant Remembered()
        invariant forall k :: k in pending ==> k in old(pending) && pending[k] == old(pending)[k] && observed[k] == old(observed)[k]
        invariant forall k, i :: k in pending && 0 <= i < n ==> entries[i].record != ScheduledBatchKey(k, pending[k].version)
        invariant forall k :: k in old(pending) && k !in pending ==> Hit(k, old(pending)[k], multiset(entries), now)
        invariant ReportsAll(reports, keys, old(pending))
        invariant forall k :: k in keys <==> k in old(pending) && k !in pending
      {
        var scheduled := entries[n].record;
        assert entries[n] in entries;
        if scheduled.key in pending && pending[scheduled.key].version == scheduled.version {
          HitBy(scheduled.key, pending[scheduled.key], entries, n, now);
          var report := FlushBatch(scheduled.key);
          ReportsOneMore(reports, keys, old(pending), report, scheduled.key);
          reports, keys := reports + [report], keys + [scheduled.key];
        }
        n := n + 1;
      }
      LeftIsMissed(old(pending), pending, entries, now);
    }

    /** A batch leaves iff a due entry names its current version.  So no batch is late; and a batch leaves before
        its own time only under a tainted key: an earlier batch of the key completed early, and since then the wheel
        has not been without an entry of the key. */
    method FlushDue(now: nat) returns (reports: seq<CiReport>, ghost keys: seq<string>)
      requires Valid()
      modifies this, timerWheel
      ensures Valid() && timerWheel.currentMs == now
      ensures pending == Missed(old(pending), old(timerWheel.Contents()), now)
      ensures ReportsAll(reports, keys, old(pending)) && forall k :: k in keys <==> k in old(pending) && k !in pending
      ensures observed == map k | k in old(observed) && k in pending :: old(observed)[k]
      ensures tainted == StillTainted(old(tainted), timerWheel.Contents())
      ensures forall k :: k in pending ==> now < pending[k].deliverAtMs
      ensures forall k :: k in keys ==> old(pending)[k].deliverAtMs <= now || k in old(tainted)
    {
      hide Wheel.Valid, Wheel.Contents, Armed, Summarizes, Reports, ReportsAll, StillTainted, Missed;
      ghost var q, timers, clock := pending, timerWheel.Contents(), timerWheel.currentMs;
      var entries := timerWheel.Tick(now);
      ArmedAfterTick(q, timers, entries, timerWheel.Contents(), clock, now, tainted);
      reports, keys := FlushCurrent(entries, now);
      tainted := StillTainted(tainted, timerWheel.Contents());
    }
  }

  lemma FirstEventHoldsSecondCompletes(started: CiEvent, done: CiEvent, at: nat)
    requires started.status == Some("in_progress") && started.runAllTerminal == Some(true) && started.runJobCount == None
    requires done == started.(status := Some("completed"))
    ensures var first := Folded(Opened(started, at), started);
            && !first.Complete() && first.version == 1 && first.deliverAtMs == at
            && Folded(first, done).Complete()
  {
    var first := Folded(Opened(started, at), started);
    assert !first.jobs[started.Workflow()].Terminal();
    assert Folded(first, done).jobs == map[done.Workflow() := done.AsJob()];
  }

  /** The early flush does happen.  With a window of 1000 ms, a run that starts at 0 ms and completes leaves two
      entries for 1000 ms; the next batch opens at 500 ms for 1500 ms, and counts its first version again.  So the
      older of the two entries names it, and a flush at 1000 ms takes it. */
  lemma StaleEntryNamesNextBatch(started: CiEvent)
    requires started.status == Some("in_progress") && started.runAllTerminal == Some(true) && started.runJobCount == None
    ensures var done, k := started.(status := Some("completed")), started.key;
      var first, next := Folded(Opened(started, 1_000), started), Folded(Opened(started, 1_500), started);
      var second := Folded(first, done);
      var timers := multiset{Timer(k, first), Timer(k, second), Timer(k, next)};
      && !first.Complete() && second.Complete() && !next.Complete() && next.deliverAtMs == 1_500
      && Hit(k, next, timers, 1_000) && Missed(map[k := next], timers, 1_000) == map[]
  {
    hide Folded, Opened, PendingCiBatch.Complete;
    var done, k := started.(status := Some("completed")), started.key;
    FirstEventHoldsSecondCompletes(started, done, 1_000);
    FirstEventHoldsSecondCompletes(started, done, 1_500);
    var first, next := Folded(Opened(started, 1_000), started), Folded(Opened(started, 1_500), started);
    var timers := multiset{Timer(k, first), Timer(k, Folded(first, done)), Timer(k, next)};
    assert Timer(k, first) in timers && Timer(k, first).record == ScheduledBatchKey(k, next.version);
  }

  /** The first run of the demonstration completes and leaves its two entries. */
  method CompleteOneRun(batcher: GitHubCiBatcher, started: CiEvent) returns (completed: seq<CiReport>)
    requires started.status == Some("in_progress") && started.runAllTerminal == Some(true) && started.runJobCount == None
    requires batcher.Valid() && batcher.window == 1_000 && batcher.timerWheel.currentMs == 0
    requires batcher.pending == map[] && batcher.timerWheel.Contents() == multiset{}
    modifies batcher, batcher.timerWheel
    ensures batcher.Valid() && batcher.timerWheel.currentMs == 0 && batcher.pending == map[]
    ensures var first := Folded(Opened(started, 1_000), started);
      var second := Folded(first, started.(status := Some("completed")));
      && |completed| == 1 && Reports(completed[0], second)
      && batcher.timerWheel.Contents() == multiset{Timer(started.key, first), Timer(started.key, second)}
  {
    hide Wheel.Valid, Wheel.Contents, Armed, Summarizes, Reports, Folded, Opened, PendingCiBatch.Complete;
    var done := started.(status := Some("completed"));
    StaleEntryNamesNextBatch(started);
    ghost var batch;
    var none;
    none, batch := batcher.Observe(started, 0);
    completed, batch := batcher.Observe(done, 1);
  }

  /** The run up to 500 ms: one report of the completed run, and the next batch waiting beside three entries. */
  method ReopenAfterCompletion(batcher: GitHubCiBatcher, started: CiEvent) returns (completed: seq<CiReport>)
    requires started.status == Some("in_progress") && started.runAllTerminal == Some(true) && started.runJobCount == None
    requires batcher.Valid() && batcher.window == 1_000 && batcher.timerWheel.currentMs == 0
    requires batcher.pending == map[] && batcher.timerWheel.Contents() == multiset{}
    modifies batcher, batcher.timerWheel
    ensures batcher.Valid() && batcher.timerWheel.currentMs == 0
    ensures var done, k := started.(status := Some("completed")), started.key;
      var first, next := Folded(Opened(started, 1_000), started), Folded(Opened(started, 1_500), started);
      var second := Folded(first, done);
      && |completed| == 1 && Reports(completed[0], second)
      && batcher.pending == map[k := next]
      && batcher.timerWheel.Contents() == multiset{Timer(k, first), Timer(k, second), Timer(k, next)}
  {
    hide Wheel.Valid, Wheel.Contents, Armed, Summarizes, Reports, Folded, Opened, PendingCiBatch.Complete;
    StaleEntryNamesNextBatch(started);
    ghost var batch;
    var none;
    completed := CompleteOneRun(batcher, started);
    none, batch := batcher.Observe(started, 500);
  }

  /** At 1000 ms the next batch is reported, 500 ms before its own time. */
  method CompletionFlushesNextBatchEarly(batcher: GitHubCiBatcher, started: CiEvent) returns (early: seq<CiReport>)
    requires started.status == Some("in_progress") && started.runAllTerminal == Some(true) && started.runJobCount == None
    requires batcher.Valid() && batcher.window == 1_000 && batcher.timerWheel.currentMs == 0
    requires batcher.pending == map[] && batcher.timerWheel.Contents() == multiset{}
    modifies batcher, batcher.timerWheel
    ensures batcher.Valid() && batcher.timerWheel.currentMs == 1_000 && batcher.pending == map[]
    ensures var next := Folded(Opened(started, 1_500), started);
      next.deliverAtMs == 1_500 && |early| == 1 && Reports(early[0], next)
  {
    hide Wheel.Valid, Wheel.Contents, Armed, Summarizes, Reports, Folded, Opened, Missed, PendingCiBatch.Complete;
    StaleEntryNamesNextBatch(started);
    var completed := ReopenAfterCompletion(batcher, started);
    ghost var keys;
    early, keys := batcher.FlushDue(1_000);
    OnlyReport(early, keys, started.key, Folded(Opened(started, 1_500), started));
  }

  lemma FirstTwoAgree(keys: seq<string>, k: string)
    requires forall j :: j in keys ==> j == k
    ensures |keys| > 1 ==> keys[0] == keys[1]
  {
    if |keys| > 1 { assert keys[0] in keys && keys[1] in keys; }
  }

  lemma OnlyReport(reports: seq<CiReport>, keys: seq<string>, k: string, b: PendingCiBatch)
    requires GitHubCiBatcher.ReportsAll(reports, keys, map[k := b]) && forall j :: j in keys <==> j == k
    ensures |reports| == 1 && Reports(reports[0], b)
  {
    assert k in keys;
    FirstTwoAgree(keys, k);
  }
}
