/** Runs of the Discord watcher with crashes and failed writes, src/discord_watch.rs: which recorded nudges a crash can
    take from the log, and how many intents a span of time can see logged. */
module IntentRuns {
  import opened Text
  import opened DiscordWatch
  import opened WatchRuns
  import opened IntentLog

  // ---- Crashes ----

  /** `durable` are the lines of the log that have been synced; what comes after them may be lost in a crash.  `made` is
      whether the log has been made, and `entered` whether its directory has been synced since. */
  datatype Disk = Disk(files: Files, durable: seq<Line>, made: bool, entered: bool)

  /** The state is saved after this event. */
  predicate Saves(files: Files, c: Config, m: Message, now: int, f: Faults) {
    f.loadable && Logs(files, c, m, now, f) && f.replaced
  }

  /** The log's directory is synced by the append that makes the log, and, if `shared`, by every save of the state. */
  function Handling(disk: Disk, shared: bool, c: Config, m: Message, now: int, f: Faults): Disk {
    var next, appends := Handled(disk.files, c, m, now, f), Appends(disk.files, c, m, now, f);
    var made, synced := disk.made || (appends && f.write != NotOpened), appends && f.write == WholeLine && f.synced;
    Disk(next, if synced then next.log.lines else disk.durable, made,
         disk.entered || (synced && !disk.made) || (shared && made && Saves(disk.files, c, m, now, f) && f.durable))
  }

  /** What a crash leaves of a log. */
  datatype Left = Gone | Kept(log: Log)

  function LeftLog(left: Left): Log { if left.Gone? then Log([], Empty) else left.log }

  /** A crash can take the whole log while its directory is not synced.  Otherwise it leaves the durable lines, and a first
      part of the bytes after them. */
  predicate CanLeave(disk: Disk, left: Left) {
    var log := disk.files.log;
    match left
    case Gone => !disk.entered
    case Kept(kept) =>
      && disk.made && disk.durable <= kept.lines <= log.lines
      && (kept.tail.Whole? ==>
            if kept.lines == log.lines then kept.tail == log.tail else log.lines[|kept.lines|] == Intent(kept.tail.id))
  }

  function Crashed(disk: Disk, left: Left): Disk {
    Disk(disk.files.(log := LeftLog(left)), LeftLog(left).lines, left.Kept?, left.Kept?)
  }

  /** Every nudge that the saved state records is on a durable line of a log whose directory is synced. */
  predicate Safe(disk: Disk) { forall id :: id in disk.files.recorded ==> disk.entered && id in LineIds(disk.durable) }

  predicate Sound(disk: Disk) {
    && disk.durable <= disk.files.log.lines && Distinct(Ids(disk.files.log))
    && (!disk.made ==> disk.files.log == Log([], Empty)) && (disk.entered ==> disk.made)
  }

  lemma {:induction false} LineIdsGrow(a: seq<Line>, b: seq<Line>)
    requires a <= b
    ensures LineIds(a) <= LineIds(b)
  {
    if |a| < |b| { LineIdsGrow(a, b[..|b| - 1]); } else { assert a == b; }
  }

  /** Safety means that no crash takes a recorded nudge from the log. */
  lemma SafeIff(disk: Disk)
    requires Sound(disk)
    ensures Safe(disk) <==> forall left :: CanLeave(disk, left) ==> Grounded(Crashed(disk, left).files)
  {
    hide LineIds, Ids;
    if Safe(disk) {
      forall left | CanLeave(disk, left) ensures Grounded(Crashed(disk, left).files) {
        if left.Kept? {
          LineIdsGrow(disk.durable, left.log.lines);
          IdsOfLines(left.log);
        }
      }
    }
    var least := if disk.entered then Kept(Log(disk.durable, Empty)) else Gone;
    IdsOfLines(LeftLog(least));
    NoLines();
    assert CanLeave(disk, least) && (Grounded(Crashed(disk, least).files) ==> Safe(disk));
  }

  lemma NoLines()
    ensures LineIds([]) == []
  {
  }

  lemma CrashKeepsDistinct(disk: Disk, left: Left)
    requires Sound(disk) && CanLeave(disk, left)
    ensures Distinct(Ids(LeftLog(left)))
  {
    hide LineIds, Ids, Distinct;
    var log, kept := disk.files.log, LeftLog(left);
    IdsOfLines(log);
    IdsOfLines(kept);
    NoLines();
    LineIdsGrow(kept.lines, log.lines);
    if kept.tail.Whole? && kept.lines != log.lines {
      var k := |kept.lines|;
      LineIdsGrow(log.lines[..k + 1], log.lines);
      LineIdsMore(log.lines[..k], log.lines[k]);
      assert log.lines[..k + 1] == log.lines[..k] + [log.lines[k]] && log.lines[..k] == kept.lines;
    }
    PrefixIsDistinct(Ids(kept), Ids(log));
  }

  lemma LineIdsMore(lines: seq<Line>, line: Line)
    ensures LineIds(lines + [line]) == LineIds(lines) + (if line.Intent? then [line.id] else [])
  {
    assert (lines + [line])[..|lines|] == lines;
  }

  lemma PrefixIsDistinct(a: seq<string>, b: seq<string>)
    requires a <= b && Distinct(b)
    ensures Distinct(a)
  {
  }

  /** The event saves a state that records a nudge of its own, but not on a durable line: it was appended after an
      unfinished line, or found on one that was not synced; or the log's directory is not synced then, neither before nor
      by making the log or by the save. */
  predicate Risks(disk: Disk, shared: bool, c: Config, m: Message, now: int, f: Faults) {
    var nudge, appends := Step(c, disk.files.saved, m, now).1, Appends(disk.files, c, m, now, f);
    nudge.Some? && Saves(disk.files, c, m, now, f)
    && ((if appends then !disk.files.log.tail.Empty? else IdOf(nudge.value) !in LineIds(disk.durable))
        || !(disk.entered || (appends && !disk.made) || (shared && f.durable)))
  }

  lemma HandlingIsSound(disk: Disk, shared: bool, c: Config, m: Message, now: int, f: Faults)
    requires Sound(disk)
    ensures Sound(Handling(disk, shared, c, m, now, f))
  {
    hide Step, IdOf, Ids, Distinct;
    IdsStayDistinct(disk.files, c, m, now, f);
  }

  /** An event keeps the recorded nudges safe from crashes exactly if it does not risk its own. */
  lemma SafeAfterIff(disk: Disk, shared: bool, c: Config, m: Message, now: int, f: Faults)
    requires Sound(disk) && Safe(disk)
    ensures Safe(Handling(disk, shared, c, m, now, f)) <==> !Risks(disk, shared, c, m, now, f)
  {
    hide Step, IdOf, Ids, LineIds, Distinct;
    var log, nudge, next := disk.files.log, Step(c, disk.files.saved, m, now).1, Handling(disk, shared, c, m, now, f);
    IdsOfLines(log);
    NoLines();
    LineIdsGrow(disk.durable, log.lines);
    if Appends(disk.files, c, m, now, f) {
      LineIdsMore(log.lines, if log.tail.Empty? then Intent(IdOf(nudge.value)) else Junk);
      assert forall x :: x in LineIds(log.lines) + [IdOf(nudge.value)] <==> x in LineIds(log.lines) || x == IdOf(nudge.value);
    }
  }

  /** A log whose directory could not be synced when it was made is not synced by a later append: with the state saved
      elsewhere, the next nudge is recorded although a crash may take the whole log. */
  lemma LaterAppendDoesNotEnter(disk: Disk, c: Config, m: Message, now: int, f: Faults)
    requires Sound(disk) && disk.made && !disk.entered
    requires Appends(disk.files, c, m, now, f) && Saves(disk.files, c, m, now, f)
    ensures var next := Handling(disk, false, c, m, now, f);
      IdOf(Step(c, disk.files.saved, m, now).1.value) in next.files.recorded && CanLeave(next, Gone) && !Grounded(Crashed(next, Gone).files)
  {
    hide Step, IdOf, LineIds;
    NoLines();
    IdsOfLines(Log([], Empty));
  }

  datatype Turn = Event(call: Call) | Crash(left: Left)

  function AfterTurns(c: Config, shared: bool, turns: seq<Turn>): Disk {
    if turns == [] then Disk(START, [], false, false)
    else
      var before := AfterTurns(c, shared, turns[..|turns| - 1]);
      match turns[|turns| - 1]
      case Event(call) => Handling(before, shared, c, call.m, call.now, call.f)
      case Crash(left) => Crashed(before, left)
  }

  /** Each crash leaves something that a crash can leave. */
  predicate Possible(c: Config, shared: bool, turns: seq<Turn>) {
    turns == [] || var n := |turns| - 1;
      Possible(c, shared, turns[..n]) && (turns[n].Crash? ==> CanLeave(AfterTurns(c, shared, turns[..n]), turns[n].left))
  }

  predicate SafeThroughout(c: Config, shared: bool, turns: seq<Turn>) {
    Safe(AfterTurns(c, shared, turns)) && (turns == [] || SafeThroughout(c, shared, turns[..|turns| - 1]))
  }

  predicate NeverRisks(c: Config, shared: bool, turns: seq<Turn>) {
    turns == [] || var n := |turns| - 1;
      NeverRisks(c, shared, turns[..n])
      && (turns[n].Event? ==> !Risks(AfterTurns(c, shared, turns[..n]), shared, c, turns[n].call.m, turns[n].call.now, turns[n].call.f))
  }

  lemma {:induction false} TurnsAreSound(c: Config, shared: bool, turns: seq<Turn>)
    requires Possible(c, shared, turns)
    ensures Sound(AfterTurns(c, shared, turns))
    ensures NeverRisks(c, shared, turns) ==> Safe(AfterTurns(c, shared, turns))
  {
    hide Handling, Risks, Safe, CanLeave, Ids, LineIds, Sound, Crashed;
    if turns == [] {
      StartIsSound();
    } else {
      var n := |turns| - 1;
      TurnsAreSound(c, shared, turns[..n]);
      var before := AfterTurns(c, shared, turns[..n]);
      match turns[n]
      case Event(call) =>
        HandlingIsSound(before, shared, c, call.m, call.now, call.f);
        if Safe(before) { SafeAfterIff(before, shared, c, call.m, call.now, call.f); }
      case Crash(left) => CrashIsSound(before, left);
    }
  }

  lemma StartIsSound()
    ensures Sound(Disk(START, [], false, false)) && Safe(Disk(START, [], false, false))
  {
  }

  lemma CrashIsSound(disk: Disk, left: Left)
    requires Sound(disk) && CanLeave(disk, left)
    ensures Sound(Crashed(disk, left)) && (Safe(disk) ==> Safe(Crashed(disk, left)))
  {
    hide Ids, LineIds, Distinct;
    CrashKeepsDistinct(disk, left);
    LineIdsGrow(disk.durable, if left.Kept? then left.log.lines else disk.durable);
  }

  /** Over every run with crashes, the recorded nudges are safe throughout exactly if no event risks one. */
  lemma {:induction false} SafeThroughoutIff(c: Config, shared: bool, turns: seq<Turn>)
    requires Possible(c, shared, turns)
    ensures SafeThroughout(c, shared, turns) <==> NeverRisks(c, shared, turns)
  {
    hide Handling, Risks, Safe, CanLeave, Sound, Crashed;
    if turns == [] {
      StartIsSound();
    } else {
      var n := |turns| - 1;
      SafeThroughoutIff(c, shared, turns[..n]);
      TurnsAreSound(c, shared, turns[..n]);
      TurnsAreSound(c, shared, turns);
      if NeverRisks(c, shared, turns[..n]) && turns[n].Event? {
        SafeAfterIff(AfterTurns(c, shared, turns[..n]), shared, c, turns[n].call.m, turns[n].call.now, turns[n].call.f);
      }
    }
  }

  // ---- The rate of logged intents ----

  /** The events after which the state was saved. */
  function KeptEvents(c: Config, calls: seq<Call>): seq<Entry> {
    if calls == [] then []
    else
      var n := |calls| - 1; var files, call := AfterCalls(c, calls[..n]), calls[n];
      if Saves(files, c, call.m, call.now, call.f) then KeptEvents(c, calls[..n]) + [Entry(call.m, call.now, Step(c, files.saved, call.m, call.now).1)]
      else KeptEvents(c, calls[..n])
  }

  /** The saved state is that of a run without failures over those events. */
  lemma {:induction false} SavedIsRunOfKept(c: Config, calls: seq<Call>)
    ensures IsRun(c, KeptEvents(c, calls)) && After(c, KeptEvents(c, calls)) == AfterCalls(c, calls).saved
  {
    hide Step, Appends, Logs;
    if calls != [] {
      var n := |calls| - 1;
      SavedIsRunOfKept(c, calls[..n]);
      var front := KeptEvents(c, calls[..n]);
      if KeptEvents(c, calls) != front { assert KeptEvents(c, calls)[..|front|] == front; }
    }
  }

  /** How many events in the span appended an intent, and how many of those whose state was not saved. */
  function LoggedIn(c: Config, calls: seq<Call>, from: int, width: nat, unsavedOnly: bool): nat {
    if calls == [] then 0
    else
      var n := |calls| - 1; var files, call := AfterCalls(c, calls[..n]), calls[n];
      LoggedIn(c, calls[..n], from, width, unsavedOnly) +
      if Appends(files, c, call.m, call.now, call.f) && from <= call.now <= from + width
         && !(unsavedOnly && Saves(files, c, call.m, call.now, call.f)) then 1 else 0
  }

  lemma {:induction false} LoggedAreKeptOrUnsaved(c: Config, calls: seq<Call>, from: int, width: nat)
    ensures LoggedIn(c, calls, from, width, false) <= CountIn(Times(KeptEvents(c, calls)), from, width) + LoggedIn(c, calls, from, width, true)
  {
    hide Step, Logs, AfterCalls;
    if calls != [] {
      var n := |calls| - 1;
      LoggedAreKeptOrUnsaved(c, calls[..n], from, width);
      var files, call, front := AfterCalls(c, calls[..n]), calls[n], KeptEvents(c, calls[..n]);
      var e := Entry(call.m, call.now, Step(c, files.saved, call.m, call.now).1);
      TimesStep(front, e, "");
      CountInMore(Times(front), call.now, from, width);
    }
  }

  lemma CountInMore(times: seq<int>, x: int, from: int, width: nat)
    ensures CountIn(times + [x], from, width) == CountIn(times, from, width) + (if from <= x <= from + width then 1 else 0)
  {
    assert (times + [x])[..|times|] == times;
  }

  /** Whatever fails and however the clock moves, a span of length `width` sees at most `width / G + 1` intents logged,
      `G` being the global cooldown, and one more for each event in it whose intent was logged but whose state was not
      saved. */
  lemma LogRateIsBounded(c: Config, calls: seq<Call>, from: int, width: nat)
    requires c.Valid() && c.globalCooldown > 0
    ensures LoggedIn(c, calls, from, width, false) <= width / c.globalCooldown + 1 + LoggedIn(c, calls, from, width, true)
  {
    hide IsRun, KeptEvents, Times, LoggedIn;
    SavedIsRunOfKept(c, calls);
    NudgeRateIsBounded(c, KeptEvents(c, calls), "", from, width);
    LoggedAreKeptOrUnsaved(c, calls, from, width);
  }
}
