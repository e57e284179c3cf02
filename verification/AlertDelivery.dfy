/** Delivery of a native pending alert: `send_delivery` and `resolve_and_dispatch` of src/dispatch.rs with the
    journal of src/gjc_lane.rs behind them.

    A destination is claimed durably before its sink is called and settled afterwards.  The state machine below
    takes every fault at once: a journal that is unavailable, a save that fails before or after its rename, and
    a crash between any two of claim, sink call and record.  The results are what the protocol promises over
    every run (at most one accepted call per destination), what its `true` means, and two limits: an
    interrupted attempt can settle a destination that was never reached, and a dispatch whose journal has
    been cleared is outside the promise altogether. */
module AlertDelivery {
  import opened Text

  datatype State = Claimed | Delivered | Failed
  type Deliveries = map<string, State>

  /** How one update of the journal goes.  `Refused` leaves it untouched (lane gone, lock poisoned, map full,
      key not acceptable); a failed save has already changed the copy in memory. */
  datatype Saved = Persisted | LostBeforeRename | FailedAfterRename | Refused

  datatype Crash = NoCrash | AfterClaim | BeforeRecord

  /** Everything the environment decides about one attempt. */
  datatype Attempt = Attempt(available: bool, claim: Saved, sinkPresent: bool, renders: bool, accepts: bool, record: Saved, crash: Crash)

  datatype SinkCall = SinkCall(destination: string, accepted: bool)
  datatype System = System(memory: Deliveries, disk: Deliveries, calls: seq<SinkCall>)

  const EMPTY := System(map[], map[], [])

  predicate Settled(m: Deliveries, d: string) { d in m && m[d] != Failed }

  // ---- The journal ----

  /** `update_pending_alert_delivery`: a settled destination is not reopened by a second claim, and a delivered
      one not at all. */
  function Update(s: System, d: string, next: State, saved: Saved): (r: (System, bool)) {
    if saved == Refused then (s, false)
    else if d in s.memory && (s.memory[d] == Delivered || (s.memory[d] == Claimed && next == Claimed)) then (s, true)
    else
      var memory := s.memory[d := next];
      match saved
      case Persisted => (s.(memory := memory, disk := memory), true)
      case FailedAfterRename => (s.(memory := memory, disk := memory), false)
      case _ => (s.(memory := memory), false)
  }

  function Restarted(s: System): System { s.(memory := s.disk) }

  /** Any later save of the lane store writes all of it, whatever it is for. */
  function Flushed(s: System): System { s.(disk := s.memory) }

  // ---- One delivery ----

  function Called(a: Attempt): bool { a.sinkPresent && a.renders }

  /** The sink call, and the record after it; `None` is a crash. */
  function CallAndRecord(s: System, d: string, a: Attempt): (System, Option<bool>) {
    var delivered := Called(a) && a.accepts;
    var s' := if Called(a) then s.(calls := s.calls + [SinkCall(d, a.accepts)]) else s;
    if a.crash == BeforeRecord then (Restarted(s'), None)
    else
      var (s'', persisted) := Update(s', d, if delivered then Delivered else Failed, a.record);
      (s'', Some(delivered && persisted))
  }

  function SendDelivery(s: System, d: string, a: Attempt): (System, Option<bool>) {
    if a.available && Settled(s.memory, d) then (s, Some(true))
    else
      var (s', claimed) := if a.available then Update(s, d, Claimed, a.claim) else (s, false);
      if a.crash == AfterClaim then (Restarted(s'), None)
      else if !claimed then (s', Some(false))
      else CallAndRecord(s', d, a)
  }

  /** `resolve_and_dispatch` of a resolved alert: one attempt per destination, and the conjunction of the results. */
  function Dispatch(s: System, ds: seq<string>, attempts: seq<Attempt>): (System, Option<bool>)
    requires |ds| == |attempts|
  {
    if ds == [] then (s, Some(false)) else DispatchAll(s, ds, attempts)
  }

  function DispatchAll(s: System, ds: seq<string>, attempts: seq<Attempt>): (System, Option<bool>)
    requires |ds| == |attempts|
    decreases |ds|
  {
    if ds == [] then (s, Some(true))
    else
      var (s', first) := SendDelivery(s, ds[0], attempts[0]);
      if first == None then (s', None)
      else
        var (s'', rest) := DispatchAll(s', ds[1..], attempts[1..]);
        (s'', if rest == None then None else Some(first.value && rest.value))
  }

  /** A run: dispatches of the alert, in any number and with any faults, and restarts and other saves in between. */
  datatype Step = Redispatch(ds: seq<string>, attempts: seq<Attempt>) | Restart | Save

  ghost predicate WellFormedStep(step: Step) { step.Redispatch? ==> |step.ds| == |step.attempts| }

  ghost function Next(s: System, step: Step): System
    requires WellFormedStep(step)
  {
    match step
    case Redispatch(ds, attempts) => Dispatch(s, ds, attempts).0
    case Restart => Restarted(s)
    case Save => Flushed(s)
  }

  ghost predicate WellFormedRun(steps: seq<Step>) { forall i :: 0 <= i < |steps| ==> WellFormedStep(steps[i]) }

  ghost function Run(s: System, steps: seq<Step>): System
    requires WellFormedRun(steps)
  {
    if steps == [] then s else Next(Run(s, steps[..|steps| - 1]), steps[|steps| - 1])
  }

  // ---- At most once ----

  /** After an accepted call there is no further call for that destination. */
  ghost predicate AcceptedIsLast(calls: seq<SinkCall>) {
    forall i, j :: 0 <= i < j < |calls| && calls[i].accepted ==> calls[j].destination != calls[i].destination
  }

  /** An accepted destination is settled in memory and on disk, so it survives a restart. */
  ghost predicate Safe(s: System) {
    && AcceptedIsLast(s.calls)
    && forall i :: 0 <= i < |s.calls| && s.calls[i].accepted ==>
         Settled(s.memory, s.calls[i].destination) && Settled(s.disk, s.calls[i].destination)
  }

  /** A sink is called only for a destination that is absent or failed, and only once its claim is on disk. */
  lemma CallsNeedDurableClaim(s: System, d: string, a: Attempt)
    ensures var s' := SendDelivery(s, d, a).0;
            s'.calls == s.calls
            || (s'.calls == s.calls + [SinkCall(d, a.accepts)] && !Settled(s.memory, d)
                && Update(s, d, Claimed, a.claim).1 && Update(s, d, Claimed, a.claim).0.disk == s.memory[d := Claimed])
  {
  }

  lemma SendKeepsSafe(s: System, d: string, a: Attempt)
    requires Safe(s)
    ensures Safe(SendDelivery(s, d, a).0)
  {
    CallsNeedDurableClaim(s, d, a);
    var s' := SendDelivery(s, d, a).0;
    forall k | (exists i :: 0 <= i < |s.calls| && s.calls[i] == SinkCall(k, true)) ensures Settled(s'.memory, k) && Settled(s'.disk, k) {
      var i :| 0 <= i < |s.calls| && s.calls[i] == SinkCall(k, true);
      assert Settled(s.memory, s.calls[i].destination);
      SendKeepsSettled(s, d, a, k);
    }
    if s'.calls != s.calls && a.accepts { AcceptedIsSettled(s, d, a); }
    forall i | 0 <= i < |s'.calls| && s'.calls[i].accepted
      ensures Settled(s'.memory, s'.calls[i].destination) && Settled(s'.disk, s'.calls[i].destination)
    {
      assert i < |s.calls| ==> s.calls[i] == SinkCall(s'.calls[i].destination, true);
    }
  }

  lemma SendKeepsSettled(s: System, d: string, a: Attempt, k: string)
    requires Settled(s.memory, k) && Settled(s.disk, k)
    ensures var s' := SendDelivery(s, d, a).0; Settled(s'.memory, k) && Settled(s'.disk, k)
  {
  }

  lemma AcceptedIsSettled(s: System, d: string, a: Attempt)
    requires a.accepts && SendDelivery(s, d, a).0.calls != s.calls
    ensures var s' := SendDelivery(s, d, a).0; Settled(s'.memory, d) && Settled(s'.disk, d)
  {
  }

  lemma {:induction false} DispatchKeepsSafe(s: System, ds: seq<string>, attempts: seq<Attempt>)
    requires |ds| == |attempts| && Safe(s)
    ensures Safe(DispatchAll(s, ds, attempts).0)
    decreases |ds|
  {
    hide Safe, SendDelivery;
    if ds != [] {
      SendKeepsSafe(s, ds[0], attempts[0]);
      var (s', first) := SendDelivery(s, ds[0], attempts[0]);
      if first != None { DispatchKeepsSafe(s', ds[1..], attempts[1..]); }
    }
  }

  /** Over every run, with retries, failed saves and crashes at any point: no destination has two accepted sink
      calls, and an accepted call is the last one its destination gets. */
  lemma {:induction false} AtMostOnceOverEveryRun(steps: seq<Step>)
    requires WellFormedRun(steps)
    ensures Safe(Run(EMPTY, steps))
    ensures AcceptedIsLast(Run(EMPTY, steps).calls)
  {
    if steps != [] {
      var n := |steps| - 1;
      AtMostOnceOverEveryRun(steps[..n]);
      if steps[n].Redispatch? { DispatchKeepsSafe(Run(EMPTY, steps[..n]), steps[n].ds, steps[n].attempts); }
    }
  }

  // ---- What `true` means ----

  lemma SendKeepsOthersSettled(s: System, d: string, a: Attempt, k: string)
    requires k != d && Settled(s.memory, k) && SendDelivery(s, d, a).1 != None
    ensures Settled(SendDelivery(s, d, a).0.memory, k)
  {
  }

  lemma TrueIsSettled(s: System, d: string, a: Attempt)
    requires SendDelivery(s, d, a).1 == Some(true)
    ensures Settled(SendDelivery(s, d, a).0.memory, d)
  {
  }

  lemma {:induction false} DispatchKeepsSettled(s: System, ds: seq<string>, attempts: seq<Attempt>, k: string)
    requires |ds| == |attempts| && Settled(s.memory, k) && DispatchAll(s, ds, attempts).1 == Some(true)
    ensures Settled(DispatchAll(s, ds, attempts).0.memory, k)
    decreases |ds|
  {
    hide SendDelivery;
    if ds != [] {
      var (s', first) := SendDelivery(s, ds[0], attempts[0]);
      if k == ds[0] { TrueIsSettled(s, k, attempts[0]); } else { SendKeepsOthersSettled(s, ds[0], attempts[0], k); }
      DispatchKeepsSettled(s', ds[1..], attempts[1..], k);
    }
  }

  lemma {:induction false} AllSettled(s: System, ds: seq<string>, attempts: seq<Attempt>)
    requires |ds| == |attempts| && DispatchAll(s, ds, attempts).1 == Some(true)
    ensures forall k :: k in ds ==> Settled(DispatchAll(s, ds, attempts).0.memory, k)
    decreases |ds|
  {
    hide SendDelivery;
    if ds != [] {
      var (s', first) := SendDelivery(s, ds[0], attempts[0]);
      TrueIsSettled(s, ds[0], attempts[0]);
      DispatchKeepsSettled(s', ds[1..], attempts[1..], ds[0]);
      AllSettled(s', ds[1..], attempts[1..]);
    }
  }

  /** A dispatch that reports success had at least one destination and has settled every one. */
  lemma SuccessSettlesEveryDestination(s: System, ds: seq<string>, attempts: seq<Attempt>)
    requires |ds| == |attempts| && Dispatch(s, ds, attempts).1 == Some(true)
    ensures ds != [] && forall k :: k in ds ==> Settled(Dispatch(s, ds, attempts).0.memory, k)
  {
    hide DispatchAll;
    AllSettled(s, ds, attempts);
  }

  // ---- Settled and never reached ----

  /** The sink accepts in this attempt, at an open destination. */
  predicate Delivers(a: Attempt) { a.available && a.claim == Persisted && a.crash != AfterClaim && Called(a) && a.accepts }

  /** The attempt leaves a claim on disk that no delivery stands for; `onDisk` says that there was one before. */
  predicate StaysOnDisk(a: Attempt, onDisk: bool) {
    && !Delivers(a)
    && if !a.available then onDisk
       else match a.claim
            case Refused => onDisk
            case LostBeforeRename => onDisk
            case FailedAfterRename => true
            case Persisted => a.crash != NoCrash || a.record == Refused || a.record == LostBeforeRename
  }

  /** The attempt leaves such a claim in memory; a crash reads back what is on disk. */
  predicate StaysInMemory(a: Attempt, onDisk: bool) {
    if a.crash == AfterClaim then StaysOnDisk(a, onDisk)
    else
      && a.available && !Delivers(a)
      && match a.claim
         case Refused => false
         case LostBeforeRename => true
         case FailedAfterRename => true
         case Persisted => a.crash == BeforeRecord || a.record == Refused
  }

  lemma DeliversIff(s: System, d: string, a: Attempt)
    requires !Settled(s.memory, d)
    ensures SendDelivery(s, d, a).0.calls != s.calls && a.accepts <==> Delivers(a)
  {
  }

  lemma StaysInMemoryIff(s: System, d: string, a: Attempt)
    requires !Settled(s.memory, d)
    ensures Settled(SendDelivery(s, d, a).0.memory, d) && !Delivers(a) <==> StaysInMemory(a, Settled(s.disk, d))
  {
  }

  lemma StaysOnDiskIff(s: System, d: string, a: Attempt)
    requires !Settled(s.memory, d)
    ensures Settled(SendDelivery(s, d, a).0.disk, d) && !Delivers(a) <==> StaysOnDisk(a, Settled(s.disk, d))
  {
  }

  /** From any state in which the destination is open, exactly these attempts leave it settled in memory, and exactly
      these leave it settled on disk, that is after a restart, without an accepted call. */
  lemma SettledWithoutDelivery(s: System, d: string, a: Attempt)
    requires !Settled(s.memory, d)
    ensures var s' := SendDelivery(s, d, a).0;
      && (s'.calls != s.calls && a.accepts <==> Delivers(a))
      && (Settled(s'.memory, d) && !Delivers(a) <==> StaysInMemory(a, Settled(s.disk, d)))
      && (Settled(s'.disk, d) && !Delivers(a) <==> StaysOnDisk(a, Settled(s.disk, d)))
  {
    hide SendDelivery, Delivers, StaysInMemory, StaysOnDisk, Settled;
    DeliversIff(s, d, a);
    StaysInMemoryIff(s, d, a);
    StaysOnDiskIff(s, d, a);
  }

  /** The calls for one destination. */
  function CallsTo(calls: seq<SinkCall>, d: string): seq<SinkCall> {
    if calls == [] then []
    else CallsTo(calls[..|calls| - 1], d) + (if calls[|calls| - 1].destination == d then [calls[|calls| - 1]] else [])
  }

  lemma SettledIsSkipped(s: System, d: string, k: string, a: Attempt)
    requires Settled(s.memory, d) && Settled(s.disk, d)
    ensures var s' := SendDelivery(s, k, a).0;
      Settled(s'.memory, d) && Settled(s'.disk, d) && CallsTo(s'.calls, d) == CallsTo(s.calls, d)
  {
    SendKeepsSettled(s, k, a, d);
    CallsNeedDurableClaim(s, k, a);
    hide SendDelivery;
    var s' := SendDelivery(s, k, a).0;
    if s'.calls != s.calls { assert s'.calls[..|s.calls|] == s.calls && CallsTo(s.calls, d) + [] == CallsTo(s.calls, d); }
  }

  lemma {:induction false} DispatchSkipsSettled(s: System, ds: seq<string>, attempts: seq<Attempt>, d: string)
    requires |ds| == |attempts| && Settled(s.memory, d) && Settled(s.disk, d)
    ensures var s' := DispatchAll(s, ds, attempts).0;
      Settled(s'.memory, d) && Settled(s'.disk, d) && CallsTo(s'.calls, d) == CallsTo(s.calls, d)
    decreases |ds|
  {
    hide SendDelivery, CallsTo;
    if ds != [] {
      SettledIsSkipped(s, d, ds[0], attempts[0]);
      var (s', first) := SendDelivery(s, ds[0], attempts[0]);
      if first != None { DispatchSkipsSettled(s', ds[1..], attempts[1..], d); }
    }
  }

  /** A destination that is settled in memory and on disk is never called again, whatever happens. */
  lemma {:induction false} SettledForGood(s: System, steps: seq<Step>, d: string)
    requires WellFormedRun(steps) && Settled(s.memory, d) && Settled(s.disk, d)
    ensures var s' := Run(s, steps);
      Settled(s'.memory, d) && Settled(s'.disk, d) && CallsTo(s'.calls, d) == CallsTo(s.calls, d)
  {
    hide CallsTo;
    if steps != [] {
      var n := |steps| - 1;
      SettledForGood(s, steps[..n], d);
      if steps[n].Redispatch? { DispatchSkipsSettled(Run(s, steps[..n]), steps[n].ds, steps[n].attempts, d); }
    }
  }

  /** Some run from here has a call for the destination accepted. */
  ghost predicate CanBeReached(s: System, d: string) {
    exists steps :: WellFormedRun(steps) && |CallsTo(Run(s, steps).calls, d)| > |CallsTo(s.calls, d)|
                    && SinkCall(d, true) in CallsTo(Run(s, steps).calls, d)[|CallsTo(s.calls, d)|..]
  }

  lemma OneDispatchReaches(s: System, d: string)
    requires !Settled(s.memory, d)
    ensures SendDelivery(s, d, ACCEPTED).0.calls == s.calls + [SinkCall(d, true)]
    ensures DispatchAll(s, [d], [ACCEPTED]).0 == SendDelivery(s, d, ACCEPTED).0
  {
    assert [d][1..] == [] && [ACCEPTED][1..] == [];
  }

  lemma ReachedBy(s: System, steps: seq<Step>, d: string)
    requires WellFormedRun(steps) && Run(s, steps).calls == s.calls + [SinkCall(d, true)]
    ensures CanBeReached(s, d)
  {
    var calls := Run(s, steps).calls;
    assert calls[..|s.calls|] == s.calls && calls[|calls| - 1] == SinkCall(d, true);
    var before := CallsTo(s.calls, d);
    assert CallsTo(calls, d) == before + [SinkCall(d, true)];
    assert CallsTo(calls, d)[|before|..] == [SinkCall(d, true)];
  }

  /** A destination can still be reached iff it is open in memory, or open on disk and so after a restart. */
  lemma CanBeReachedIff(s: System, d: string)
    ensures CanBeReached(s, d) <==> !Settled(s.memory, d) || !Settled(s.disk, d)
  {
    hide SendDelivery, DispatchAll, CallsTo;
    var dispatch := Redispatch([d], [ACCEPTED]);
    if !Settled(s.memory, d) {
      OneDispatchReaches(s, d);
      assert [dispatch][..0] == [] && Run(s, []) == s && Run(s, [dispatch]) == Next(s, dispatch);
      ReachedBy(s, [dispatch], d);
    } else if !Settled(s.disk, d) {
      var t := Restarted(s);
      OneDispatchReaches(t, d);
      var steps := [Restart, dispatch];
      assert steps[..1] == [Restart] && [Restart][..0] == [] && Run(s, []) == s && Run(s, [Restart]) == t;
      ReachedBy(s, steps, d);
    } else if steps :| WellFormedRun(steps) && |CallsTo(Run(s, steps).calls, d)| > |CallsTo(s.calls, d)| {
      SettledForGood(s, steps, d);
    }
  }

  /** So an attempt at an open destination puts it out of reach for good, without an accepted call, iff it leaves a
      claim both in memory and on disk. */
  lemma LostForGoodIff(s: System, d: string, a: Attempt)
    requires !Settled(s.memory, d)
    ensures !Delivers(a) && !CanBeReached(SendDelivery(s, d, a).0, d)
            <==> StaysInMemory(a, Settled(s.disk, d)) && StaysOnDisk(a, Settled(s.disk, d))
  {
    hide SendDelivery, CanBeReached, StaysInMemory, StaysOnDisk;
    SettledWithoutDelivery(s, d, a);
    CanBeReachedIff(SendDelivery(s, d, a).0, d);
  }

  /** Once the lane store is saved for any other reason, what is in memory decides alone; after a restart, what is on
      disk. */
  lemma LostAfterSaveIff(s: System, d: string, a: Attempt)
    requires !Settled(s.memory, d)
    ensures !Delivers(a) && !CanBeReached(Flushed(SendDelivery(s, d, a).0), d) <==> StaysInMemory(a, Settled(s.disk, d))
    ensures !Delivers(a) && !CanBeReached(Restarted(SendDelivery(s, d, a).0), d) <==> StaysOnDisk(a, Settled(s.disk, d))
  {
    hide SendDelivery, CanBeReached, StaysInMemory, StaysOnDisk;
    SettledWithoutDelivery(s, d, a);
    CanBeReachedIff(Flushed(SendDelivery(s, d, a).0), d);
    CanBeReachedIff(Restarted(SendDelivery(s, d, a).0), d);
  }

  // ---- Without the journal ----

  /** When the acceptance timeout has cleared the journal, a queued alert is dispatched without it. */
  function SendUnjournaled(s: System, d: string, a: Attempt): System {
    if Called(a) then s.(calls := s.calls + [SinkCall(d, a.accepts)]) else s
  }

  /** What the event ledger says of an event; `Unavailable` is no ledger. */
  datatype Acceptance = Appended | Duplicate | Rejected | Unavailable

  /** A dispatch looks the journal up twice: when the ledger has the event already, to decide whether to go on, and
      again when it is the destination's turn.  In between other tasks clear and register journals. */
  datatype Lookup = Lookup(atGate: bool, atSend: bool)

  /** What happens to the lane store between two dispatches. */
  datatype Pause = Stays | Restarts | Saves

  function Paused(s: System, p: Pause): System {
    match p case Stays => s case Restarts => Restarted(s) case Saves => Flushed(s)
  }

  /** Whether a dispatch takes place: one of an event that is not in the ledger yet, or that has a journal there. */
  predicate Proceeds(verdict: Acceptance, l: Lookup) {
    match verdict
    case Appended => true
    case Unavailable => true
    case Duplicate => l.atGate
    case Rejected => false
  }

  datatype Round = Round(pause: Pause, attempt: Attempt)

  /** The first `n` dispatches of one destination, which a dispatch has once. */
  function RunMixed(d: string, verdicts: seq<Acceptance>, lookups: seq<Lookup>, rounds: seq<Round>, n: nat): System
    requires n <= |verdicts| == |lookups| == |rounds|
  {
    if n == 0 then EMPTY
    else
      var s := Paused(RunMixed(d, verdicts, lookups, rounds, n - 1), rounds[n - 1].pause);
      if !Proceeds(verdicts[n - 1], lookups[n - 1]) then s
      else if lookups[n - 1].atSend then SendDelivery(s, d, rounds[n - 1].attempt).0
      else SendUnjournaled(s, d, rounds[n - 1].attempt)
  }

  function Accepted(calls: seq<SinkCall>): nat {
    if calls == [] then 0 else Accepted(calls[..|calls| - 1]) + (if calls[|calls| - 1].accepted then 1 else 0)
  }

  /** The destination is delivered to at most once, whatever fails. */
  ghost predicate AtMostOnce(d: string, verdicts: seq<Acceptance>, lookups: seq<Lookup>)
    requires |verdicts| == |lookups|
  {
    forall rounds: seq<Round> :: |rounds| == |lookups| ==> Accepted(RunMixed(d, verdicts, lookups, rounds, |lookups|).calls) <= 1
  }

  /** Of any two dispatches that take place, both have the journal when they send. */
  predicate PairsJournaled(verdicts: seq<Acceptance>, lookups: seq<Lookup>)
    requires |verdicts| == |lookups|
  {
    forall i, j :: 0 <= i < j < |lookups| && Proceeds(verdicts[i], lookups[i]) && Proceeds(verdicts[j], lookups[j]) ==>
      lookups[i].atSend && lookups[j].atSend
  }

  /** A call log of one destination in which an accepted call is the last holds at most one. */
  lemma {:induction false} LastAcceptedIsOnly(calls: seq<SinkCall>, d: string)
    requires AcceptedIsLast(calls) && forall i :: 0 <= i < |calls| ==> calls[i].destination == d
    ensures Accepted(calls) <= 1
    ensures Accepted(calls) == 1 ==> calls[|calls| - 1].accepted
  {
    if calls != [] { LastAcceptedIsOnly(calls[..|calls| - 1], d); }
  }

  lemma PauseKeepsSafe(s: System, p: Pause)
    requires Safe(s)
    ensures Safe(Paused(s, p)) && Paused(s, p).calls == s.calls
  {
  }

  /** As long as every dispatch that takes place has the journal when it sends, the invariant of the journaled protocol
      holds. */
  lemma {:induction false} JournaledRunIsSafe(d: string, verdicts: seq<Acceptance>, lookups: seq<Lookup>, rounds: seq<Round>, n: nat)
    requires n <= |verdicts| == |lookups| == |rounds|
    requires forall i :: 0 <= i < n && Proceeds(verdicts[i], lookups[i]) ==> lookups[i].atSend
    ensures var s := RunMixed(d, verdicts, lookups, rounds, n);
      Safe(s) && forall i :: 0 <= i < |s.calls| ==> s.calls[i].destination == d
  {
    hide SendDelivery, Safe, Proceeds, Paused;
    if n == 0 {
      EmptyIsSafe();
    } else {
      JournaledRunIsSafe(d, verdicts, lookups, rounds, n - 1);
      PauseKeepsSafe(RunMixed(d, verdicts, lookups, rounds, n - 1), rounds[n - 1].pause);
      var s := Paused(RunMixed(d, verdicts, lookups, rounds, n - 1), rounds[n - 1].pause);
      SendKeepsSafe(s, d, rounds[n - 1].attempt);
      CallsNeedDurableClaim(s, d, rounds[n - 1].attempt);
    }
  }

  lemma EmptyIsSafe()
    ensures Safe(EMPTY)
  {
  }

  /** If no dispatch but one takes place, there is at most one call. */
  lemma {:induction false} OneDispatchCallsOnce(d: string, verdicts: seq<Acceptance>, lookups: seq<Lookup>, rounds: seq<Round>, k: nat, n: nat)
    requires n <= |verdicts| == |lookups| == |rounds|
    requires forall i :: 0 <= i < n && Proceeds(verdicts[i], lookups[i]) ==> i == k
    ensures |RunMixed(d, verdicts, lookups, rounds, n).calls| <= if k < n then 1 else 0
  {
    hide SendDelivery, Proceeds;
    if n > 0 {
      OneDispatchCallsOnce(d, verdicts, lookups, rounds, k, n - 1);
      CallsNeedDurableClaim(Paused(RunMixed(d, verdicts, lookups, rounds, n - 1), rounds[n - 1].pause), d, rounds[n - 1].attempt);
    }
  }

  lemma FewCalls(calls: seq<SinkCall>)
    requires |calls| <= 1
    ensures Accepted(calls) <= 1
  {
    if calls != [] { assert calls[..0] == []; }
  }

  const ACCEPTED := Attempt(true, Persisted, true, true, true, Persisted, NoCrash)
  const QUIET := Attempt(false, Refused, false, false, false, Refused, NoCrash)

  /** Dispatch `i` and dispatch `j` go through, and the others reach nothing. */
  function Twice(n: nat, i: nat, j: nat): seq<Round> { seq(n, k => Round(Stays, if k == i || k == j then ACCEPTED else QUIET)) }

  /** Two dispatches that take place, one of them without the journal when it sends, can both be accepted. */
  lemma {:induction false} TwiceAccepts(d: string, verdicts: seq<Acceptance>, lookups: seq<Lookup>, i: nat, j: nat, n: nat)
    requires |verdicts| == |lookups| && i < j < |lookups| && n <= |lookups|
    requires Proceeds(verdicts[i], lookups[i]) && Proceeds(verdicts[j], lookups[j]) && !(lookups[i].atSend && lookups[j].atSend)
    ensures var s := RunMixed(d, verdicts, lookups, Twice(|lookups|, i, j), n);
            && Accepted(s.calls) == (if i < n then 1 else 0) + (if j < n then 1 else 0)
            && (Settled(s.memory, d) ==> (i < n && lookups[i].atSend) || (j < n && lookups[j].atSend))
  {
    hide SendDelivery, SendUnjournaled, Proceeds;
    if n > 0 {
      TwiceAccepts(d, verdicts, lookups, i, j, n - 1);
      TwiceStep(RunMixed(d, verdicts, lookups, Twice(|lookups|, i, j), n - 1), d);
    }
  }

  lemma TwiceStep(s: System, d: string)
    ensures Accepted([]) == 0
    ensures SendDelivery(s, d, QUIET).0 == s && SendUnjournaled(s, d, QUIET) == s
    ensures var t := SendUnjournaled(s, d, ACCEPTED); t.memory == s.memory && Accepted(t.calls) == Accepted(s.calls) + 1
    ensures !Settled(s.memory, d) ==> Accepted(SendDelivery(s, d, ACCEPTED).0.calls) == Accepted(s.calls) + 1
  {
    AcceptedMore(s.calls, d);
    QuietDoesNothing(s, d);
    if !Settled(s.memory, d) { OneDispatchReaches(s, d); }
  }

  lemma QuietDoesNothing(s: System, d: string)
    ensures SendDelivery(s, d, QUIET).0 == s && SendUnjournaled(s, d, QUIET) == s
    ensures SendUnjournaled(s, d, ACCEPTED) == s.(calls := s.calls + [SinkCall(d, true)])
  {
  }

  lemma AcceptedMore(calls: seq<SinkCall>, d: string)
    ensures Accepted(calls + [SinkCall(d, true)]) == Accepted(calls) + 1
  {
    assert (calls + [SinkCall(d, true)])[..|calls|] == calls;
  }

  lemma PairsAreSafe(d: string, verdicts: seq<Acceptance>, lookups: seq<Lookup>, rounds: seq<Round>)
    requires |verdicts| == |lookups| == |rounds| && PairsJournaled(verdicts, lookups)
    ensures Accepted(RunMixed(d, verdicts, lookups, rounds, |lookups|).calls) <= 1
  {
    hide RunMixed, Proceeds, Safe;
    var s := RunMixed(d, verdicts, lookups, rounds, |lookups|);
    if k: nat :| k < |lookups| && Proceeds(verdicts[k], lookups[k]) && !lookups[k].atSend {
      OneDispatchCallsOnce(d, verdicts, lookups, rounds, k, |lookups|);
      FewCalls(s.calls);
    } else {
      JournaledRunIsSafe(d, verdicts, lookups, rounds, |lookups|);
      SafeIsOnce(s, d);
    }
  }

  lemma SafeIsOnce(s: System, d: string)
    requires Safe(s) && forall i :: 0 <= i < |s.calls| ==> s.calls[i].destination == d
    ensures Accepted(s.calls) <= 1
  {
    LastAcceptedIsOnly(s.calls, d);
  }

  /** Whatever the ledger has said: a destination is delivered to at most once, with any faults and restarts, iff of any
      two dispatches that take place both have the journal when they send. */
  lemma AtMostOnceIff(d: string, verdicts: seq<Acceptance>, lookups: seq<Lookup>)
    requires |verdicts| == |lookups|
    ensures AtMostOnce(d, verdicts, lookups) <==> PairsJournaled(verdicts, lookups)
  {
    hide RunMixed, Proceeds;
    var n := |lookups|;
    if PairsJournaled(verdicts, lookups) {
      forall rounds: seq<Round> | |rounds| == n ensures Accepted(RunMixed(d, verdicts, lookups, rounds, n).calls) <= 1 {
        PairsAreSafe(d, verdicts, lookups, rounds);
      }
    } else {
      var i, j :| 0 <= i < j < n && Proceeds(verdicts[i], lookups[i]) && Proceeds(verdicts[j], lookups[j])
                  && !(lookups[i].atSend && lookups[j].atSend);
      TwiceAccepts(d, verdicts, lookups, i, j, n);
    }
  }

  // ---- What the ledger guards against ----

  /** A ledger never appends an event that it has; without one every event is let through. */
  predicate Consistent(ledger: bool, verdicts: seq<Acceptance>) {
    if !ledger then forall i :: 0 <= i < |verdicts| ==> verdicts[i] == Unavailable
    else
      && (forall i :: 0 <= i < |verdicts| ==> verdicts[i] != Unavailable)
      && forall i, j :: 0 <= i < j < |verdicts| && (verdicts[i] == Appended || verdicts[i] == Duplicate) ==> verdicts[j] != Appended
  }

  ghost predicate AtMostOnceWhatever(d: string, ledger: bool, lookups: seq<Lookup>) {
    forall verdicts: seq<Acceptance> :: |verdicts| == |lookups| && Consistent(ledger, verdicts) ==> AtMostOnce(d, verdicts, lookups)
  }

  /** With a ledger, a dispatch takes place after another only if the journal is there at its gate. */
  lemma LedgerGuards(verdicts: seq<Acceptance>, lookups: seq<Lookup>, i: nat, j: nat)
    requires |verdicts| == |lookups| && Consistent(true, verdicts) && i < j < |lookups|
    requires Proceeds(verdicts[i], lookups[i]) && Proceeds(verdicts[j], lookups[j])
    ensures verdicts[j] == Duplicate && lookups[j].atGate
  {
  }

  /** The ledger has the event from dispatch `i` on, and refuses all but `i` and `j`. */
  function Both(ledger: bool, n: nat, i: nat, j: nat): seq<Acceptance> {
    seq(n, k => if !ledger then Unavailable else if k == i then Appended else if k == j then Duplicate else Rejected)
  }

  /** Of any two dispatches, both have the journal when they send; with a ledger, if the second has it at its gate. */
  predicate Guarded(ledger: bool, lookups: seq<Lookup>) {
    forall i, j :: 0 <= i < j < |lookups| && (ledger ==> lookups[j].atGate) ==> lookups[i].atSend && lookups[j].atSend
  }

  lemma GuardedPairs(ledger: bool, verdicts: seq<Acceptance>, lookups: seq<Lookup>)
    requires |verdicts| == |lookups| && Consistent(ledger, verdicts) && Guarded(ledger, lookups)
    ensures PairsJournaled(verdicts, lookups)
  {
    forall i, j | 0 <= i < j < |lookups| && Proceeds(verdicts[i], lookups[i]) && Proceeds(verdicts[j], lookups[j])
      ensures lookups[i].atSend && lookups[j].atSend
    {
      if ledger { LedgerGuards(verdicts, lookups, i, j); }
    }
  }

  lemma UnguardedPair(ledger: bool, lookups: seq<Lookup>) returns (verdicts: seq<Acceptance>)
    requires !Guarded(ledger, lookups)
    ensures |verdicts| == |lookups| && Consistent(ledger, verdicts) && !PairsJournaled(verdicts, lookups)
  {
    var i, j :| 0 <= i < j < |lookups| && (ledger ==> lookups[j].atGate) && !(lookups[i].atSend && lookups[j].atSend);
    verdicts := Both(ledger, |lookups|, i, j);
    assert Proceeds(verdicts[i], lookups[i]) && Proceeds(verdicts[j], lookups[j]);
  }

  /** Losing the journal breaks the promise exactly when a second dispatch can break it.  A destination's dispatches are at
      most once, whatever the environment and the ledger do, iff of any two both have the journal when they send; with a
      ledger, of any two of which the second has it at its gate. */
  lemma AtMostOnceIffJournaled(d: string, ledger: bool, lookups: seq<Lookup>)
    ensures AtMostOnceWhatever(d, ledger, lookups) <==> Guarded(ledger, lookups)
  {
    hide AtMostOnce, Guarded, Consistent, PairsJournaled;
    if Guarded(ledger, lookups) {
      forall verdicts: seq<Acceptance> | |verdicts| == |lookups| && Consistent(ledger, verdicts) ensures AtMostOnce(d, verdicts, lookups) {
        GuardedPairs(ledger, verdicts, lookups);
        AtMostOnceIff(d, verdicts, lookups);
      }
    } else {
      var verdicts := UnguardedPair(ledger, lookups);
      AtMostOnceIff(d, verdicts, lookups);
    }
  }

  /** So the journal may be there at every gate and the promise still be broken: in the second dispatch it is cleared
      while an earlier destination is served. */
  lemma ClearedBetweenLookups(d: string)
    ensures !AtMostOnceWhatever(d, true, [Lookup(true, true), Lookup(true, false)])
  {
    hide AtMostOnceWhatever;
    var lookups := [Lookup(true, true), Lookup(true, false)];
    assert lookups[1].atGate && lookups[0].atSend && !lookups[1].atSend;
    AtMostOnceIffJournaled(d, true, lookups);
  }
}
