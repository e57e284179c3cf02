/** Histories of the cron scheduler: calls, refused emissions, failed writes of the state file and restarts, in any
    order.  What a history handles, when it handles every minute once and in order, and what its suppressions mean. */
module CronHistories {
  import opened Text
  import opened CronSchedules
  import opened CronScheduling
  import opened CronRuns
  import opened CronLeases

  // ---- Histories ----

  datatype Turn = Call(nowSecs: int, room: nat, write: Write) | Restart

  /** Pairs of minute and job as consecutive numbers: with `n` jobs, key `k` is job `k % n` at minute `k / n`. */
  function PairAt(jobs: seq<Job>, key: int): Pair
    requires jobs != []
  {
    Pair(key / |jobs|, jobs[key % |jobs|])
  }

  function PairsAt(jobs: seq<Job>, keys: seq<int>): seq<Pair>
    requires jobs != []
  {
    seq(|keys|, i requires 0 <= i < |keys| => PairAt(jobs, keys[i]))
  }

  function Range(from: int, n: nat): seq<int> { seq(n, i => from + i) }

  /** How many events the work emits. */
  function Load(m: Memory, work: seq<Pair>, w: World): nat { |EmittedJobs(Processed(m, work, w).decisions)| }

  /** How far a call gets before the channel refuses an event. */
  function Reach(m: Memory, due: seq<Pair>, w: World, room: nat): (k: nat)
    ensures k <= |due|
  {
    if due == [] || Load(m, due, w) <= room then |due| else Reach(m, due[..|due| - 1], w, room)
  }

  /** The scheduler's state, its state file, and what was handled and decided so far. */
  datatype History = History(memory: Memory, file: Memory, keys: seq<int>, decisions: seq<Decision>)

  function CallReach(h: History, jobs: seq<Job>, w: World, call: Turn): nat
    requires call.Call?
  {
    Reach(h.memory, Due(h.memory, jobs, MinuteOf(call.nowSecs)), w, call.room)
  }

  predicate Completes(h: History, jobs: seq<Job>, w: World, call: Turn)
    requires call.Call?
  {
    CallReach(h, jobs, w, call) == |Due(h.memory, jobs, MinuteOf(call.nowSecs))|
  }

  /** The key at which a call starts. */
  function FirstKey(h: History, jobs: seq<Job>, call: Turn): int
    requires call.Call?
  {
    FirstMinute(h.memory.cursor, MinuteOf(call.nowSecs)) * |jobs|
  }

  function Next(h: History, jobs: seq<Job>, w: World, turn: Turn): History {
    match turn
    case Restart => h.(memory := h.file)
    case Call(nowSecs, room, write) =>
      var now, k := MinuteOf(nowSecs), CallReach(h, jobs, w, turn);
      var o := Processed(h.memory, Due(h.memory, jobs, now)[..k], w);
      var m := if Completes(h, jobs, w, turn) then o.memory.(cursor := Some(now)) else o.memory;
      History(m, if Completes(h, jobs, w, turn) then AfterWrite(h.file, m, write) else h.file,
              h.keys + Range(FirstKey(h, jobs, turn), k), h.decisions + o.decisions)
  }

  function Started(file: Memory): History { History(file, file, [], []) }

  function After(file: Memory, jobs: seq<Job>, w: World, turns: seq<Turn>): History {
    if turns == [] then Started(file) else Next(After(file, jobs, w, turns[..|turns| - 1]), jobs, w, turns[|turns| - 1])
  }

  // ---- The scheduler lives through histories ----

  lemma {:induction false} LoadGrows(m: Memory, work: seq<Pair>, w: World, n: nat)
    requires n <= |work|
    ensures Load(m, work[..n], w) <= Load(m, work, w)
    decreases |work|
  {
    hide EmittedJobs, ProcessedPair;
    if n == |work| {
      assert work[..n] == work;
    } else {
      var last := |work| - 1;
      assert work[..last][..n] == work[..n];
      LoadGrows(m, work[..last], w, n);
      PairAddsItsDecisions(Processed(m, work[..last], w), work[last], w);
    }
  }

  /** Where a call got to is as far as the channel let it. */
  lemma {:induction false} ReachIs(m: Memory, due: seq<Pair>, w: World, room: nat, k: nat)
    requires k <= |due| && Load(m, due[..k], w) <= room && (k < |due| ==> Load(m, due[..k + 1], w) > room)
    ensures Reach(m, due, w, room) == k
    decreases |due|
  {
    hide Load;
    if k == |due| {
      assert due[..k] == due;
    } else {
      LoadGrows(m, due, w, k + 1);
      var front := due[..|due| - 1];
      assert front[..k] == due[..k] && (k < |front| ==> front[..k + 1] == due[..k + 1]);
      ReachIs(m, front, w, room, k);
    }
  }

  lemma {:induction false} EmittedAppends(a: seq<Decision>, b: seq<Decision>)
    ensures EmittedJobs(a + b) == EmittedJobs(a) + EmittedJobs(b)
  {
    if b == [] {
      assert a + b == a && EmittedJobs(a) + [] == EmittedJobs(a);
    } else {
      var n := |b| - 1;
      assert (a + b)[..|a| + n] == a + b[..n];
      EmittedAppends(a, b[..n]);
    }
  }

  /** What `EmitDue` promises of a call fixes how far it got. */
  lemma CallGoesSoFar(h: History, jobs: seq<Job>, w: World, call: Turn, emitted: bool, done: seq<Pair>)
    requires call.Call? && Load(h.memory, done, w) <= call.room
    requires var due := Due(h.memory, jobs, MinuteOf(call.nowSecs));
      if emitted then done == due else exists p :: done + [p] <= due && Load(h.memory, done + [p], w) == call.room + 1
    ensures var due := Due(h.memory, jobs, MinuteOf(call.nowSecs));
      done <= due && due[..|done|] == done && CallReach(h, jobs, w, call) == |done| && (emitted <==> Completes(h, jobs, w, call))
  {
    hide Load, Reach, Due;
    var due := Due(h.memory, jobs, MinuteOf(call.nowSecs));
    if emitted {
      assert due[..|due|] == due;
      ReachIs(h.memory, due, w, call.room, |due|);
    } else {
      var p :| done + [p] <= due && Load(h.memory, done + [p], w) == call.room + 1;
      assert due[..|done|] == done && due[..|done| + 1] == done + [p];
      ReachIs(h.memory, due, w, call.room, |done|);
    }
  }

  /** The scheduler over a whole history.  A restart makes a new scheduler from what the state file gives. */
  method Drive(jobs: seq<Job>, file: Memory, w: World, turns: seq<Turn>) returns (scheduler: CronScheduler, executed: seq<string>)
    ensures var h := After(file, jobs, w, turns);
      scheduler.State() == h.memory && scheduler.stateFile == h.file && executed == EmittedJobs(h.decisions)
    ensures fresh(scheduler) && scheduler.jobs == jobs
  {
    hide Processed, EmittedJobs, Due, Reach;
    scheduler := new CronScheduler(jobs, file);
    executed := [];
    EmittedOne(Decision(0, "", Emitted));
    for i := 0 to |turns|
      invariant fresh(scheduler) && scheduler.jobs == jobs
      invariant var h := After(file, jobs, w, turns[..i]);
        scheduler.State() == h.memory && scheduler.stateFile == h.file && executed == EmittedJobs(h.decisions)
    {
      assert turns[..i + 1][..i] == turns[..i];
      ghost var h := After(file, jobs, w, turns[..i]);
      match turns[i] {
        case Restart =>
          scheduler := new CronScheduler(jobs, scheduler.stateFile);
        case Call(nowSecs, room, write) =>
          var ok, emitted, more;
          ghost var done;
          ok, emitted, more, done := scheduler.EmitDue(nowSecs, w, room, write);
          CallGoesSoFar(h, jobs, w, turns[i], emitted, done);
          EmittedAppends(h.decisions, Processed(h.memory, done, w).decisions);
          executed := executed + more;
      }
    }
    assert turns[..|turns|] == turns;
  }

  // ---- Keys ----

  lemma AtLeastOnce(a: int, n: nat)
    ensures a >= 1 ==> a * n >= n
    ensures a <= -1 ==> a * n <= 0 - n
  {
    if a >= 1 { Distribute(a - 1, 1, n); MulNat(a - 1, n); }
    if a <= -1 { Distribute(a + 1, -1, n); MulNat(-a - 1, n); Negate(a + 1, n); }
  }

  lemma Distribute(a: int, b: int, n: int)
    ensures (a + b) * n == a * n + b * n
  {
  }

  lemma MulNat(a: nat, n: nat)
    ensures a * n >= 0
  {
  }

  lemma Negate(a: int, n: int)
    ensures (-a) * n == -(a * n)
  {
  }

  lemma KeyParts(q: int, j: nat, n: nat)
    requires j < n
    ensures (q * n + j) / n == q && (q * n + j) % n == j
  {
    var x := q * n + j;
    var d, r := x / n, x % n;
    assert x == n * d + r && 0 <= r < n;
    Distribute(d - q, q, n);
    AtLeastOnce(d - q, n);
  }

  /** Work lists are consecutive keys. */
  lemma {:induction false} WorkIsRange(jobs: seq<Job>, from: int, last: int)
    requires jobs != []
    ensures |Work(jobs, from, last)| == if last < from then 0 else (last - from + 1) * |jobs|
    ensures Work(jobs, from, last) == PairsAt(jobs, Range(from * |jobs|, |Work(jobs, from, last)|))
    decreases last - from + 1
  {
    if from <= last {
      WorkIsRange(jobs, from, last - 1);
      var n, before, work := |jobs|, Work(jobs, from, last - 1), Work(jobs, from, last);
      assert (last - from + 1) * n == (last - from) * n + n;
      forall i | 0 <= i < |work| ensures work[i] == PairAt(jobs, from * n + i) {
        if i >= |before| {
          assert from * n + i == last * n + (i - |before|);
          KeyParts(last, i - |before|, n);
        } else {
          assert work[i] == before[i] == PairsAt(jobs, Range(from * n, |before|))[i];
        }
      }
    }
  }

  lemma DueIsRange(m: Memory, jobs: seq<Job>, now: int)
    requires jobs != []
    ensures var due, from := Due(m, jobs, now), FirstMinute(m.cursor, now);
      && |due| == (if now < from then 0 else (now - from + 1) * |jobs|)
      && due == PairsAt(jobs, Range(from * |jobs|, |due|))
  {
    WorkIsRange(jobs, FirstMinute(m.cursor, now), now);
  }

  /** The first key that is due: after what the state file has, or, if it has no cursor, at the first call. */
  function StartKey(file: Memory, n: nat, turns: seq<Turn>): Option<int> {
    if file.cursor.Some? then Some((file.cursor.value + 1) * n)
    else if turns == [] then None
    else
      var before := StartKey(file, n, turns[..|turns| - 1]);
      if before == None && turns[|turns| - 1].Call? then Some(MinuteOf(turns[|turns| - 1].nowSecs) * n) else before
  }

  /** Every key once, in order, none left out from the start on. */
  ghost predicate Seamless(start: Option<int>, keys: seq<int>) {
    keys == [] || keys == Range(if start.Some? then start.value else keys[0], |keys|)
  }

  lemma SeamlessAppends(start: Option<int>, keys: seq<int>, from: int, n: nat)
    requires n > 0
    ensures Seamless(start, keys + Range(from, n)) <==>
              Seamless(start, keys) && if keys != [] then from == keys[|keys| - 1] + 1 else start.Some? ==> from == start.value
  {
    var all := keys + Range(from, n);
    if keys == [] {
      assert all == Range(from, n) && all[0] == from;
      if Seamless(start, all) && start.Some? { assert all[0] == start.value; }
    } else {
      assert all[0] == keys[0];
      var first := if start.Some? then start.value else keys[0];
      if Seamless(start, all) {
        assert forall i :: 0 <= i < |keys| ==> keys[i] == all[i] == first + i;
        assert all[|keys|] == from;
      }
      if Seamless(start, keys) && from == keys[|keys| - 1] + 1 {
        assert forall i :: 0 <= i < |all| ==> all[i] == first + i;
      }
    }
  }

  // ---- Every pair once and in order ----

  /** Where the handling stopped, or starts; whether the call that did so was cut short with a cursor before it; and the
      cursor that the next call starts from, if it is not that call's: one that a restart read back, or none where the
      call was cut short. */
  datatype Track = Idle | Worked(next: int, cut: bool, back: Option<Option<int>>)

  function StartTrack(file: Memory, n: nat): Track {
    if file.cursor.Some? then Worked((file.cursor.value + 1) * n, false, None) else Idle
  }

  function Tracked(file: Memory, jobs: seq<Job>, w: World, turns: seq<Turn>): Track {
    if turns == [] then StartTrack(file, |jobs|)
    else
      var n := |turns| - 1;
      TrackNext(Tracked(file, jobs, w, turns[..n]), After(file, jobs, w, turns[..n]), jobs, w, turns[n])
  }

  function TrackNext(tr: Track, h: History, jobs: seq<Job>, w: World, turn: Turn): Track {
    match turn
    case Restart => if tr.Worked? && h.file.cursor != h.memory.cursor then tr.(back := Some(h.file.cursor)) else tr
    case Call(_, _, _) =>
      var k := CallReach(h, jobs, w, turn);
      if k == 0 && tr.Worked? then tr
      else
        var cut := !Completes(h, jobs, w, turn);
        Worked(FirstKey(h, jobs, turn) + k, cut && h.memory.cursor.Some?, if cut && h.memory.cursor == None then Some(None) else None)
  }

  /** What makes a call that handles something at minute `now` repeat pairs or leave some out: the call before it was
      cut short, or a restart since then read back another cursor than the one in memory; unless there is no cursor now
      and this is the very minute at which the handling stopped. */
  predicate BreaksAt(tr: Track, jobs: seq<Job>, now: int) {
    tr.Worked? &&
    match tr.back
    case None => tr.cut
    case Some(Some(_)) => true
    case Some(None) => now * |jobs| != tr.next
  }

  predicate Broken(file: Memory, jobs: seq<Job>, w: World, turns: seq<Turn>) {
    turns != [] &&
    var n := |turns| - 1;
    || Broken(file, jobs, w, turns[..n])
    || (turns[n].Call? && CallReach(After(file, jobs, w, turns[..n]), jobs, w, turns[n]) > 0
        && BreaksAt(Tracked(file, jobs, w, turns[..n]), jobs, MinuteOf(turns[n].nowSecs)))
  }

  /** The latest minute the scheduler knows of: that of the last call, or the cursor it started from. */
  function Latest(file: Memory, turns: seq<Turn>): Option<int> {
    if turns == [] then file.cursor
    else if turns[|turns| - 1].Call? then Some(MinuteOf(turns[|turns| - 1].nowSecs))
    else Latest(file, turns[..|turns| - 1])
  }

  predicate AtMost(a: Option<int>, b: Option<int>) { a.Some? ==> b.Some? && a.value <= b.value }

  /** The clock does not step back. */
  predicate Steady(file: Memory, turns: seq<Turn>) {
    turns == [] || var n := |turns| - 1;
      Steady(file, turns[..n]) && (turns[n].Call? ==> AtMost(Latest(file, turns[..n]), Some(MinuteOf(turns[n].nowSecs))))
  }

  /** Where the cursor stands against the point at which the handling stopped. */
  ghost predicate CursorStands(cursor: Option<int>, tr: Track, n: nat)
    requires n > 0
  {
    if tr.Idle? then cursor == None else
      if cursor.Some? then
        && (tr.back.Some? ==> tr.back == Some(cursor))
        && if tr.back.None? && !tr.cut then (cursor.value + 1) * n == tr.next else (cursor.value + 1) * n < tr.next
      else tr.back == Some(None)
  }

  ghost predicate Stands(h: History, tr: Track, n: nat, latest: Option<int>, start: Option<int>)
    requires n > 0
  {
    && AtMost(h.memory.cursor, latest) && AtMost(h.file.cursor, h.memory.cursor)
    && (tr.Idle? <==> start == None)
    && (if h.keys == [] then tr.Worked? ==> start == Some(tr.next) else tr.Worked? && h.keys[|h.keys| - 1] + 1 == tr.next)
    && CursorStands(h.memory.cursor, tr, n)
  }

  lemma MulLess(a: int, b: int, n: nat)
    requires n > 0
    ensures a < b ==> a * n < b * n
    ensures a * n % n == 0
  {
    Distribute(a, b - a, n);
    AtLeastOnce(b - a, n);
    KeyParts(a, 0, n);
  }

  lemma RestartStands(h: History, tr: Track, jobs: seq<Job>, w: World, latest: Option<int>, start: Option<int>)
    requires jobs != [] && Stands(h, tr, |jobs|, latest, start)
    ensures Stands(Next(h, jobs, w, Restart), TrackNext(tr, h, jobs, w, Restart), |jobs|, latest, start)
  {
    if h.file.cursor.Some? && h.file.cursor != h.memory.cursor {
      MulLess(h.file.cursor.value + 1, h.memory.cursor.value + 1, |jobs|);
    }
  }

  /** A call that handles nothing leaves the cursors where they stand. */
  lemma IdleCallStands(h: History, tr: Track, jobs: seq<Job>, w: World, latest: Option<int>, start: Option<int>, call: Turn)
    requires jobs != [] && Stands(h, tr, |jobs|, latest, start) && call.Call? && CallReach(h, jobs, w, call) == 0 && tr.Worked?
    requires AtMost(latest, Some(MinuteOf(call.nowSecs)))
    ensures Next(h, jobs, w, call).keys == h.keys && TrackNext(tr, h, jobs, w, call) == tr
    ensures Stands(Next(h, jobs, w, call), tr, |jobs|, Some(MinuteOf(call.nowSecs)), start)
  {
    hide Processed, Due, Reach, CursorStands;
    var now := MinuteOf(call.nowSecs);
    DueIsRange(h.memory, jobs, now);
    ProcessedKeepsCursor(h.memory, Due(h.memory, jobs, now)[..0], w);
    assert h.keys + [] == h.keys;
    var from := FirstMinute(h.memory.cursor, now);
    if Completes(h, jobs, w, call) && from <= now {
      MulLess(0, now - from + 1, |jobs|);
    }
  }

  /** The first key that is due after one more call. */
  function StartNext(start: Option<int>, jobs: seq<Job>, call: Turn): Option<int>
    requires call.Call?
  {
    if start == None then Some(MinuteOf(call.nowSecs) * |jobs|) else start
  }

  lemma CallStands(h: History, tr: Track, jobs: seq<Job>, w: World, latest: Option<int>, start: Option<int>, call: Turn)
    requires jobs != [] && Stands(h, tr, |jobs|, latest, start) && call.Call? && (CallReach(h, jobs, w, call) > 0 || tr.Idle?)
    requires AtMost(latest, Some(MinuteOf(call.nowSecs)))
    ensures Stands(Next(h, jobs, w, call), TrackNext(tr, h, jobs, w, call), |jobs|, Some(MinuteOf(call.nowSecs)), StartNext(start, jobs, call))
  {
    hide Processed, Due, Reach;
    var now, n, k := MinuteOf(call.nowSecs), |jobs|, CallReach(h, jobs, w, call);
    var due, from := Due(h.memory, jobs, now), FirstMinute(h.memory.cursor, now);
    DueIsRange(h.memory, jobs, now);
    ProcessedKeepsCursor(h.memory, due[..k], w);
    assert from <= now && |due| == (now - from + 1) * n;
    assert (now + 1) * n == from * n + (now - from + 1) * n;
  }

  /** Where the cursor stands, a call continues exactly where the handling stopped iff nothing breaks it. */
  lemma ContinuesIff(h: History, tr: Track, jobs: seq<Job>, latest: Option<int>, start: Option<int>, now: int)
    requires jobs != [] && Stands(h, tr, |jobs|, latest, start) && tr.Worked?
    ensures FirstMinute(h.memory.cursor, now) * |jobs| == tr.next <==> !BreaksAt(tr, jobs, now)
  {
    MulLess(now, now, |jobs|);
  }

  lemma {:induction false} HistoryStands(file: Memory, jobs: seq<Job>, w: World, turns: seq<Turn>)
    requires jobs != [] && Steady(file, turns)
    ensures Stands(After(file, jobs, w, turns), Tracked(file, jobs, w, turns), |jobs|, Latest(file, turns), StartKey(file, |jobs|, turns))
    ensures Seamless(StartKey(file, |jobs|, turns), After(file, jobs, w, turns).keys) <==> !Broken(file, jobs, w, turns)
  {
    hide Stands, Seamless, Next, TrackNext, CallReach, BreaksAt;
    if turns == [] {
      StartStands(file, |jobs|);
    } else {
      var n := |turns| - 1;
      HistoryStands(file, jobs, w, turns[..n]);
      var h, tr := After(file, jobs, w, turns[..n]), Tracked(file, jobs, w, turns[..n]);
      var latest, start := Latest(file, turns[..n]), StartKey(file, |jobs|, turns[..n]);
      match turns[n] {
        case Restart =>
          RestartStands(h, tr, jobs, w, latest, start);
          RestartHandlesNothing(h, tr, jobs, w);
        case Call(_, _, _) =>
          if CallReach(h, jobs, w, turns[n]) > 0 || tr.Idle? {
            CallStands(h, tr, jobs, w, latest, start, turns[n]);
            SeamlessIff(h, tr, jobs, w, latest, start, turns[n]);
          } else {
            StartIsKnown(h, tr, |jobs|, latest, start);
            IdleCallStands(h, tr, jobs, w, latest, start, turns[n]);
          }
      }
    }
  }

  lemma StartStands(file: Memory, n: nat)
    requires n > 0
    ensures Stands(Started(file), StartTrack(file, n), n, file.cursor, StartKey(file, n, [])) && Seamless(StartKey(file, n, []), Started(file).keys)
  {
  }

  lemma RestartHandlesNothing(h: History, tr: Track, jobs: seq<Job>, w: World)
    ensures Next(h, jobs, w, Restart).keys == h.keys
  {
  }

  lemma StartIsKnown(h: History, tr: Track, n: nat, latest: Option<int>, start: Option<int>)
    requires n > 0 && Stands(h, tr, n, latest, start)
    ensures tr.Worked? ==> start.Some?
  {
  }

  lemma NothingIsSeamless(start: Option<int>)
    ensures Seamless(start, [])
  {
  }

  lemma SeamlessIff(h: History, tr: Track, jobs: seq<Job>, w: World, latest: Option<int>, start: Option<int>, call: Turn)
    requires jobs != [] && Stands(h, tr, |jobs|, latest, start) && call.Call? && (CallReach(h, jobs, w, call) > 0 || tr.Idle?)
    ensures Seamless(StartNext(start, jobs, call), Next(h, jobs, w, call).keys) <==>
              Seamless(start, h.keys) && !(CallReach(h, jobs, w, call) > 0 && BreaksAt(tr, jobs, MinuteOf(call.nowSecs)))
  {
    hide Processed, Due, Reach, Seamless;
    if CallReach(h, jobs, w, call) > 0 {
      SeamlessAppends(StartNext(start, jobs, call), h.keys, FirstKey(h, jobs, call), CallReach(h, jobs, w, call));
    } else {
      assert Next(h, jobs, w, call).keys == h.keys == [];
    }
    NothingIsSeamless(start);
    NothingIsSeamless(StartNext(start, jobs, call));
    if tr.Worked? { ContinuesIff(h, tr, jobs, latest, start, MinuteOf(call.nowSecs)); }
  }

  /** Under a clock that does not step back, whatever is refused, lost or restarted: every pair of minute and job is
      handled once and in order, none left out from the cursor of the state file on, or from the first call on if it has
      none, iff no call that handles something comes after a call that was cut short, or after a restart that read back
      another cursor than the one in memory; except where there is no cursor and the call comes at the very minute at
      which the handling stopped. */
  lemma HandledOnceInOrderIff(file: Memory, jobs: seq<Job>, w: World, turns: seq<Turn>)
    requires jobs != [] && Steady(file, turns)
    ensures Seamless(StartKey(file, |jobs|, turns), After(file, jobs, w, turns).keys) <==> !Broken(file, jobs, w, turns)
  {
    HistoryStands(file, jobs, w, turns);
  }

  /** After a call that moved the cursor, a restart reads it back iff the state file was written. */
  lemma ReadsBackIffWritten(h: History, tr: Track, jobs: seq<Job>, w: World, latest: Option<int>, start: Option<int>, call: Turn)
    requires jobs != [] && Stands(h, tr, |jobs|, latest, start) && call.Call? && CallReach(h, jobs, w, call) > 0 && Completes(h, jobs, w, call)
    ensures var after := Next(h, jobs, w, call);
      after.memory.cursor == Some(MinuteOf(call.nowSecs)) && (after.file.cursor == after.memory.cursor <==> call.write == Written)
  {
    hide Processed, Due, Reach, CursorStands;
    DueIsRange(h.memory, jobs, MinuteOf(call.nowSecs));
  }

  // ---- Histories in which nothing is refused or lost ----

  /** Every call completes and is written; restarts come anywhere. */
  predicate Faithful(file: Memory, jobs: seq<Job>, w: World, turns: seq<Turn>) {
    turns == [] || var n := |turns| - 1;
      Faithful(file, jobs, w, turns[..n])
      && (turns[n].Call? ==> Completes(After(file, jobs, w, turns[..n]), jobs, w, turns[n]) && turns[n].write == Written)
  }

  function Ticks(turns: seq<Turn>): seq<int> {
    if turns == [] then []
    else Ticks(turns[..|turns| - 1]) + (if turns[|turns| - 1].Call? then [MinuteOf(turns[|turns| - 1].nowSecs)] else [])
  }

  /** Restarts make no difference: such a history does what its calls do one after the other. */
  lemma {:induction false} RestartsAreInvisible(file: Memory, jobs: seq<Job>, w: World, turns: seq<Turn>)
    requires Faithful(file, jobs, w, turns)
    ensures var h, o := After(file, jobs, w, turns), TickedAll(file, jobs, w, Ticks(turns));
      h.memory == h.file == o.memory && h.decisions == o.decisions
  {
    hide Processed, Due, Reach;
    if turns != [] {
      var n := |turns| - 1;
      RestartsAreInvisible(file, jobs, w, turns[..n]);
      var before, ticks := Ticks(turns[..n]), Ticks(turns);
      if turns[n].Call? {
        var h := After(file, jobs, w, turns[..n]);
        var due := Due(h.memory, jobs, MinuteOf(turns[n].nowSecs));
        assert due[..|due|] == due && ticks[..|before|] == before;
      } else {
        assert before + [] == before;
      }
    }
  }

  /** However a catch-up is split into calls, with restarts from the state file anywhere in between, its decisions,
      cursor, fingerprints and leases are those of one call at the last of the times. */
  lemma HistoryCatchesUp(file: Memory, jobs: seq<Job>, w: World, turns: seq<Turn>)
    requires Faithful(file, jobs, w, turns) && file.cursor.Some? && Ticks(turns) != [] && NonDecreasingFrom(file.cursor.value, Ticks(turns))
    ensures var h, ticks := After(file, jobs, w, turns), Ticks(turns);
      h.memory == h.file && Outcome(h.memory, h.decisions) == Ticked(file, jobs, w, ticks[|ticks| - 1])
  {
    RestartsAreInvisible(file, jobs, w, turns);
    CatchUpComposes(file, jobs, w, Ticks(turns));
  }

  function KeysOf(minutes: seq<int>, n: nat): seq<int> {
    if minutes == [] then [] else KeysOf(minutes[..|minutes| - 1], n) + Range(minutes[|minutes| - 1] * n, n)
  }

  lemma {:induction false} KeysOfAppend(a: seq<int>, b: seq<int>, n: nat)
    ensures KeysOf(a + b, n) == KeysOf(a, n) + KeysOf(b, n)
  {
    if b == [] {
      assert a + b == a && KeysOf(a, n) + [] == KeysOf(a, n);
    } else {
      var k := |b| - 1;
      assert (a + b)[..|a| + k] == a + b[..k];
      KeysOfAppend(a, b[..k], n);
    }
  }

  lemma {:induction false} KeysOfMinutes(from: int, last: int, n: nat)
    ensures KeysOf(Minutes(from, last), n) == if last < from then [] else Range(from * n, (last - from + 1) * n)
    decreases last - from + 1
  {
    if from <= last {
      KeysOfMinutes(from, last - 1, n);
      assert KeysOf(Minutes(from, last), n) == KeysOf(Minutes(from, last - 1), n) + Range(last * n, n) by {
        assert Minutes(from, last)[..|Minutes(from, last - 1)|] == Minutes(from, last - 1);
      }
      hide KeysOf, Minutes, Range;
      Distribute(last - from, 1, n);
      Distribute(from, last - from, n);
      MulNat(last - from, n);
      RangeJoins(from * n, (last - from) * n, n);
      assert from == last ==> Range(from * n, (last - from) * n) == [];
    }
  }

  lemma RangeJoins(from: int, a: nat, b: nat)
    ensures Range(from, a) + Range(from + a, b) == Range(from, a + b)
  {
  }

  /** The minutes of `Handled` are those that the scheduler handles, each with every job in order. */
  lemma {:induction false} HandlesTheMinutes(file: Memory, jobs: seq<Job>, w: World, turns: seq<Turn>)
    requires jobs != [] && Faithful(file, jobs, w, turns) && file.cursor == None
    ensures var h, ticks := After(file, jobs, w, turns), Ticks(turns);
      && h.keys == KeysOf(Handled(ticks), |jobs|)
      && h.memory.cursor == (if ticks == [] then None else Some(ticks[|ticks| - 1]))
  {
    hide Processed, Due, Reach, Minutes, KeysOf;
    RestartsAreInvisible(file, jobs, w, turns);
    if turns == [] {
      assert KeysOf([], |jobs|) == [] by { NoKeys(|jobs|); }
    } else {
      var n := |turns| - 1;
      HandlesTheMinutes(file, jobs, w, turns[..n]);
      RestartsAreInvisible(file, jobs, w, turns[..n]);
      var h, before, ticks := After(file, jobs, w, turns[..n]), Ticks(turns[..n]), Ticks(turns);
      if turns[n].Call? {
        var now := MinuteOf(turns[n].nowSecs);
        assert ticks[..|before|] == before;
        DueIsRange(h.memory, jobs, now);
        KeysOfMinutes(FirstMinute(h.memory.cursor, now), now, |jobs|);
        KeysOfAppend(Handled(before), Minutes(FirstMinute(h.memory.cursor, now), now), |jobs|);
      } else {
        assert before + [] == before;
      }
    }
  }

  lemma NoKeys(n: nat)
    ensures KeysOf([], n) == []
  {
  }

  lemma IncreasingAppends(a: seq<int>, b: seq<int>)
    requires a != [] && b != [] && StrictlyIncreasing(b)
    ensures StrictlyIncreasing(a + b) <==> StrictlyIncreasing(a) && a[|a| - 1] < b[0]
  {
    var all := a + b;
    if StrictlyIncreasing(all) {
      assert forall i :: 0 <= i < |a| ==> a[i] == all[i];
      assert all[|a| - 1] < all[|a|];
    }
    if StrictlyIncreasing(a) && a[|a| - 1] < b[0] {
      forall i, j | 0 <= i < j < |all| ensures all[i] < all[j] {
        if i < |a| <= j {
          assert i < |a| - 1 ==> a[i] < a[|a| - 1];
          assert j > |a| ==> b[0] < b[j - |a|];
        }
      }
    }
  }

  lemma {:induction false} KeysIncreaseIff(minutes: seq<int>, n: nat)
    requires n > 0
    ensures StrictlyIncreasing(KeysOf(minutes, n)) <==> StrictlyIncreasing(minutes)
    ensures minutes != [] ==> KeysOf(minutes, n) != [] && KeysOf(minutes, n)[|KeysOf(minutes, n)| - 1] == minutes[|minutes| - 1] * n + n - 1
  {
    if minutes != [] {
      var k := |minutes| - 1;
      var front, last := minutes[..k], minutes[k];
      KeysIncreaseIff(front, n);
      if k > 0 {
        var a, b := KeysOf(front, n), Range(last * n, n);
        assert KeysOf(minutes, n) == a + b;
        hide KeysOf;
        IncreasingAppends(a, b);
        IncreasingAppends(front, [last]);
        assert front + [last] == minutes;
        LastKeyBefore(front[k - 1], last, n);
      } else {
        assert front == [] && KeysOf(minutes, n) == [] + Range(last * n, n) == Range(last * n, n);
      }
    }
  }

  lemma LastKeyBefore(a: int, b: int, n: nat)
    requires n > 0
    ensures a * n + n - 1 < b * n <==> a < b
  {
    Distribute(b - a, a, n);
    AtLeastOnce(b - a, n);
    AtLeastOnce(b - a - 1, n);
    Distribute(b - a - 1, 1, n);
  }

  /** When nothing is refused or lost, from a first start and under any clock: the scheduler handles every pair at most
      once and in order iff the clock never moves on after stepping back. */
  lemma InOrderIffClockDoesNotTurn(file: Memory, jobs: seq<Job>, w: World, turns: seq<Turn>)
    requires jobs != [] && Faithful(file, jobs, w, turns) && file.cursor == None
    ensures StrictlyIncreasing(After(file, jobs, w, turns).keys) <==> !FallsThenRises(Ticks(turns))
  {
    HandlesTheMinutes(file, jobs, w, turns);
    KeysIncreaseIff(Handled(Ticks(turns)), |jobs|);
    InOrderIffNoStepBackThenOn(Ticks(turns));
  }

  // ---- Suppressions over histories ----

  /** Every restart reads back the state that was in memory. */
  predicate Loyal(file: Memory, jobs: seq<Job>, w: World, turns: seq<Turn>) {
    turns == [] || var n := |turns| - 1;
      Loyal(file, jobs, w, turns[..n])
      && (turns[n].Restart? ==> After(file, jobs, w, turns[..n]).file == After(file, jobs, w, turns[..n]).memory)
  }

  /** Such a history decides what processing its pairs one after the other decides, refused calls or not. */
  lemma {:induction false} LoyalHistoryIsProcessed(file: Memory, jobs: seq<Job>, w: World, turns: seq<Turn>)
    requires jobs != [] && Loyal(file, jobs, w, turns)
    ensures var h := After(file, jobs, w, turns);
      OnCursor(Processed(file, PairsAt(jobs, h.keys), w), h.memory.cursor) == Outcome(h.memory, h.decisions)
  {
    hide Processed, Reach;
    if turns == [] {
      NothingReached(file, w);
      assert PairsAt(jobs, []) == [];
    } else {
      var n := |turns| - 1;
      LoyalHistoryIsProcessed(file, jobs, w, turns[..n]);
      if turns[n].Call? { CallIsProcessed(file, After(file, jobs, w, turns[..n]), jobs, w, turns[n]); }
    }
  }

  lemma CallIsProcessed(file: Memory, h: History, jobs: seq<Job>, w: World, call: Turn)
    requires jobs != [] && call.Call?
    requires OnCursor(Processed(file, PairsAt(jobs, h.keys), w), h.memory.cursor) == Outcome(h.memory, h.decisions)
    ensures var after := Next(h, jobs, w, call);
      OnCursor(Processed(file, PairsAt(jobs, after.keys), w), after.memory.cursor) == Outcome(after.memory, after.decisions)
  {
    hide Processed, Reach, Due;
    var now, k := MinuteOf(call.nowSecs), CallReach(h, jobs, w, call);
    var due, done := Due(h.memory, jobs, now), PairsAt(jobs, h.keys);
    DueIsRange(h.memory, jobs, now);
    var more := PairsAt(jobs, Range(FirstKey(h, jobs, call), k));
    assert due[..k] == more;
    assert PairsAt(jobs, h.keys + Range(FirstKey(h, jobs, call), k)) == done + more;
    ProcessedAppends(file, done, more, w);
    CursorIsIrrelevant(Processed(file, done, w).memory, h.memory.cursor, more, w);
  }

  /** Over every history whose restarts read back what was in memory, with refused calls in it or not: each withheld
      pair repeats an earlier emission of the same job, with the same fingerprint and key under a validated zero
      backlog, less than the TTL before, and every matching pair of the job in between was withheld too. */
  lemma HistorySuppressionIsSound(file: Memory, jobs: seq<Job>, w: World, turns: seq<Turn>, i: nat) returns (k: nat)
    requires jobs != [] && Loyal(file, jobs, w, turns) && file.leases == map[]
    requires var work := PairsAt(jobs, After(file, jobs, w, turns).keys);
      && i < |work| && WithheldAt(file, work, w, i)
      && forall p :: p in work ==> p.job.ttlSecs < TWO_64 && -I64_MAX <= p.minute * 60 <= I64_MAX
    ensures var h := After(file, jobs, w, turns); var work := PairsAt(jobs, h.keys);
      && h.decisions == Processed(file, work, w).decisions
      && LatestEmission(file, work, w, work[i].job.id, k, i)
      && (work[i].minute - work[k].minute) * 60 < work[k].job.ttlSecs
      && var id := work[i].job.id;
         w.evaluate(id, work[k].minute).Some? && w.evaluate(id, work[i].minute).Some?
         && (var then_, now := w.evaluate(id, work[k].minute).value, w.evaluate(id, work[i].minute).value;
             then_.fingerprint == now.fingerprint && then_.suppressionKey == now.suppressionKey && then_.zeroBacklog && now.zeroBacklog)
         && forall j :: k < j < i && work[j].job.id == id && Matches(work[j].job, work[j].minute, w) ==> WithheldAt(file, work, w, j)
  {
    hide Processed, Matches, After, PairsAt, LatestEmission, WithheldAt;
    LoyalHistoryIsProcessed(file, jobs, w, turns);
    k := SuppressionIsSound(file, PairsAt(jobs, After(file, jobs, w, turns).keys), w, i);
  }
}
