/** What the cron scheduler does over whole histories. */
module CronRuns {
  import opened Text
  import opened CronSchedules
  import opened CronScheduling

  // ---- Catch-up composes ----

  function OnCursor(o: Outcome, cursor: Option<int>): Outcome { Outcome(o.memory.(cursor := cursor), o.decisions) }

  /** Nothing that is decided depends on the cursor. */
  lemma {:induction false} CursorIsIrrelevant(m: Memory, cursor: Option<int>, work: seq<Pair>, w: World)
    ensures Processed(m.(cursor := cursor), work, w) == OnCursor(Processed(m, work, w), cursor)
  {
    if work != [] { CursorIsIrrelevant(m, cursor, work[..|work| - 1], w); }
  }

  lemma {:induction false} ProcessedAppends(m: Memory, a: seq<Pair>, b: seq<Pair>, w: World)
    ensures var first := Processed(m, a, w);
            var second := Processed(first.memory, b, w);
            Processed(m, a + b, w) == Outcome(second.memory, first.decisions + second.decisions)
  {
    hide ProcessedPair, EmittedJobs;
    var first := Processed(m, a, w);
    if b == [] {
      assert a + b == a && first.decisions + [] == first.decisions;
    } else {
      var n := |b| - 1;
      ProcessedAppends(m, a, b[..n], w);
      assert (a + b)[..|a| + n] == a + b[..n] && (a + b)[|a| + n] == b[n];
      var before := Processed(first.memory, b[..n], w);
      PairAddsItsDecisions(before, b[n], w);
      PairAddsItsDecisions(Processed(m, a + b[..n], w), b[n], w);
      var alone := ProcessedPair(Outcome(before.memory, []), b[n], w);
      assert (first.decisions + before.decisions) + alone.decisions == first.decisions + (before.decisions + alone.decisions);
    }
  }

  lemma {:induction false} WorkSplits(jobs: seq<Job>, from: int, mid: int, last: int)
    requires from - 1 <= mid <= last
    ensures Work(jobs, from, last) == Work(jobs, from, mid) + Work(jobs, mid + 1, last)
    decreases last - mid
  {
    if mid < last { WorkSplits(jobs, from, mid, last - 1); }
  }

  /** Two calls do what one call at the later time does, whatever state file is read where. */
  lemma TwoTicksAreOne(m: Memory, jobs: seq<Job>, w: World, t1: int, t2: int)
    requires m.cursor.Some? && m.cursor.value <= t1 <= t2
    ensures var first := Ticked(m, jobs, w, t1);
            var second := Ticked(first.memory, jobs, w, t2);
            Ticked(m, jobs, w, t2) == Outcome(second.memory, first.decisions + second.decisions)
  {
    WorkSplits(jobs, m.cursor.value + 1, t1, t2);
    var a, b := Work(jobs, m.cursor.value + 1, t1), Work(jobs, t1 + 1, t2);
    ProcessedAppends(m, a, b, w);
    CursorIsIrrelevant(Processed(m, a, w).memory, Some(t1), b, w);
  }

  /** Successful calls one after the other.  CronHistories.dfy has the restarts, and what may go wrong. */
  function TickedAll(m: Memory, jobs: seq<Job>, w: World, ticks: seq<int>): Outcome {
    if ticks == [] then Outcome(m, [])
    else
      var before := TickedAll(m, jobs, w, ticks[..|ticks| - 1]);
      var o := Ticked(before.memory, jobs, w, ticks[|ticks| - 1]);
      Outcome(o.memory, before.decisions + o.decisions)
  }

  ghost predicate NonDecreasingFrom(c: int, ticks: seq<int>) {
    forall i, j :: 0 <= i <= j < |ticks| ==> c <= ticks[i] <= ticks[j]
  }

  /** However a catch-up is split into calls, its decisions, cursor, fingerprints and leases are those of one call at
      the last of the times. */
  lemma {:induction false} CatchUpComposes(m: Memory, jobs: seq<Job>, w: World, ticks: seq<int>)
    requires m.cursor.Some? && ticks != [] && NonDecreasingFrom(m.cursor.value, ticks)
    ensures m.cursor.value <= ticks[|ticks| - 1]
    ensures TickedAll(m, jobs, w, ticks) == Ticked(m, jobs, w, ticks[|ticks| - 1])
    decreases |ticks|
  {
    hide Ticked;
    var n := |ticks| - 1;
    if n > 0 {
      CatchUpComposes(m, jobs, w, ticks[..n]);
      TwoTicksAreOne(m, jobs, w, ticks[n - 1], ticks[n]);
    } else {
      assert ticks[..0] == [];
      assert [] + Ticked(m, jobs, w, ticks[0]).decisions == Ticked(m, jobs, w, ticks[0]).decisions;
    }
  }

  // ---- Every minute once, in order ----

  function Minutes(from: int, last: int): seq<int>
    decreases last - from + 1
  {
    if last < from then [] else Minutes(from, last - 1) + [last]
  }

  /** The minutes that the calls process, from a first start. */
  function Handled(ticks: seq<int>): seq<int> {
    if ticks == [] then []
    else
      var n := |ticks| - 1;
      Handled(ticks[..n]) + Minutes(FirstMinute(if n == 0 then None else Some(ticks[n - 1]), ticks[n]), ticks[n])
  }

  ghost predicate StrictlyIncreasing(ms: seq<int>) { forall i, j :: 0 <= i < j < |ms| ==> ms[i] < ms[j] }

  ghost predicate Falls(ticks: seq<int>, i: nat) { 0 < i < |ticks| && ticks[i] < ticks[i - 1] }
  ghost predicate Rises(ticks: seq<int>, i: nat) { 0 < i < |ticks| && ticks[i - 1] < ticks[i] }

  ghost predicate HasFallen(ticks: seq<int>) { exists i :: Falls(ticks, i) }

  /** The clock steps back and later moves on. */
  ghost predicate FallsThenRises(ticks: seq<int>) { exists i, j :: i < j && Falls(ticks, i) && Rises(ticks, j) }

  lemma TurnsAtLast(ticks: seq<int>)
    requires |ticks| > 1
    ensures var n := |ticks| - 1;
            && (HasFallen(ticks) <==> HasFallen(ticks[..n]) || ticks[n] < ticks[n - 1])
            && (FallsThenRises(ticks) <==> FallsThenRises(ticks[..n]) || (HasFallen(ticks[..n]) && ticks[n - 1] < ticks[n]))
  {
    var n := |ticks| - 1;
    var before := ticks[..n];
    forall i: nat ensures (Falls(before, i) <==> i < n && Falls(ticks, i)) && (Rises(before, i) <==> i < n && Rises(ticks, i)) {}
    if ticks[n] < ticks[n - 1] { assert Falls(ticks, n); }
    if i :| Falls(before, i) && ticks[n - 1] < ticks[n] { assert Falls(ticks, i) && Rises(ticks, n); }
    if i, j :| i < j && Falls(before, i) && Rises(before, j) { assert Falls(ticks, i) && Rises(ticks, j); }
  }

  lemma {:induction false} MinutesAre(from: int, last: int)
    requires from <= last + 1
    ensures |Minutes(from, last)| == last - from + 1
    ensures forall i :: 0 <= i < |Minutes(from, last)| ==> Minutes(from, last)[i] == from + i
    decreases last - from + 1
  {
    if from <= last { MinutesAre(from, last - 1); }
  }

  lemma {:induction false} MinutesSplit(from: int, mid: int, last: int)
    requires from - 1 <= mid <= last
    ensures Minutes(from, last) == Minutes(from, mid) + Minutes(mid + 1, last)
    decreases last - mid
  {
    if mid < last {
      MinutesSplit(from, mid, last - 1);
      assert Minutes(from, last) == Minutes(from, last - 1) + [last] && Minutes(mid + 1, last) == Minutes(mid + 1, last - 1) + [last];
      hide Minutes;
      assert (Minutes(from, mid) + Minutes(mid + 1, last - 1)) + [last] == Minutes(from, mid) + (Minutes(mid + 1, last - 1) + [last]);
    }
  }

  function Peak(ticks: seq<int>): int
    requires ticks != []
  {
    var n := |ticks| - 1;
    if n == 0 then ticks[0] else if Peak(ticks[..n]) > ticks[n] then Peak(ticks[..n]) else ticks[n]
  }

  /** As long as the clock has not risen after falling, the minutes are all those from the first time to the
      highest seen, which is the latest unless the clock has fallen. */
  lemma {:induction false} HandledUpToPeak(ticks: seq<int>)
    requires ticks != [] && !FallsThenRises(ticks)
    ensures Handled(ticks) == Minutes(ticks[0], Peak(ticks)) && ticks[0] <= Peak(ticks)
    ensures ticks[|ticks| - 1] <= Peak(ticks) && (ticks[|ticks| - 1] < Peak(ticks) <==> HasFallen(ticks))
    decreases |ticks|
  {
    hide HasFallen, FallsThenRises;
    var n := |ticks| - 1;
    assert ticks[..0] == [];
    if n == 0 {
      OneTickIsFlat(ticks);
    } else {
      TurnsAtLast(ticks);
      HandledUpToPeak(ticks[..n]);
      if ticks[n - 1] < ticks[n] { MinutesSplit(ticks[0], ticks[n - 1], ticks[n]); }
    }
  }

  lemma OneTickIsFlat(ticks: seq<int>)
    requires |ticks| == 1
    ensures !HasFallen(ticks)
  {
  }

  lemma {:induction false} HandledGrows(ticks: seq<int>, n: nat)
    requires n <= |ticks|
    ensures Handled(ticks[..n]) <= Handled(ticks)
    decreases |ticks|
  {
    if n < |ticks| {
      assert ticks[..|ticks| - 1][..n] == ticks[..n];
      HandledGrows(ticks[..|ticks| - 1], n);
    } else {
      assert ticks[..n] == ticks;
    }
  }

  /** The minutes are processed once each and in order iff the clock never moves on after stepping back: a call
      always moves the cursor to its own time, even back, so the next step forward repeats or revisits minutes. */
  lemma InOrderIffNoStepBackThenOn(ticks: seq<int>)
    ensures StrictlyIncreasing(Handled(ticks)) <==> !FallsThenRises(ticks)
  {
    if ticks != [] && !FallsThenRises(ticks) {
      HandledUpToPeak(ticks);
      MinutesAre(ticks[0], Peak(ticks));
    } else if ticks != [] {
      FirstRiseRepeats(ticks);
    }
  }

  lemma {:induction false} FirstRiseRepeats(ticks: seq<int>)
    requires FallsThenRises(ticks)
    ensures !StrictlyIncreasing(Handled(ticks))
    decreases |ticks|
  {
    hide HasFallen, FallsThenRises;
    var n := |ticks| - 1;
    SomeTicksTurn(ticks);
    var before := ticks[..n];
    TurnsAtLast(ticks);
    HandledGrows(ticks, n);
    if FallsThenRises(before) {
      FirstRiseRepeats(before);
      StrictPrefix(Handled(before), Handled(ticks));
    } else {
      HandledUpToPeak(before);
      var h := Handled(before);
      MinutesAre(ticks[0], Peak(before));
      MinutesAre(ticks[n - 1] + 1, ticks[n]);
      assert Handled(ticks)[|h| - 1] == Peak(before) >= Handled(ticks)[|h|];
    }
  }

  lemma SomeTicksTurn(ticks: seq<int>)
    requires FallsThenRises(ticks)
    ensures |ticks| > 1
  {
  }

  lemma StrictPrefix(a: seq<int>, b: seq<int>)
    requires a <= b && !StrictlyIncreasing(a)
    ensures !StrictlyIncreasing(b)
  {
    var i, j :| 0 <= i < j < |a| && a[i] >= a[j];
    assert b[i] >= b[j];
  }
}
