/** The intent log and the saved state of the Discord watcher, src/discord_watch.rs: a nudge is logged before the state
    that records it is saved, and any write may stop part-way. */
module IntentLog {
  import opened Text
  import opened DiscordWatch

  // ---- The log ----

  /** A line that parses as an intent, or one that does not. */
  datatype Line = Intent(id: string) | Junk

  /** What follows the last newline: nothing, a whole intent, or something that does not parse. */
  datatype Tail = Empty | Whole(id: string) | Torn

  datatype Log = Log(lines: seq<Line>, tail: Tail)

  function LineIds(lines: seq<Line>): seq<string> {
    if lines == [] then []
    else LineIds(lines[..|lines| - 1]) + (if lines[|lines| - 1].Intent? then [lines[|lines| - 1].id] else [])
  }

  /** The ids that a reader of the log finds; the last line needs no newline. */
  function Ids(log: Log): seq<string> { LineIds(log.lines) + (if log.tail.Whole? then [log.tail.id] else []) }

  /** How much of an intent and its newline, which are written apart, reaches the file, if it can be opened at all. */
  datatype Write = NotOpened | NoBytes | SomeBytes | AllButNewline | WholeLine

  predicate Writes(w: Write) { w != NotOpened && w != NoBytes }

  /** Appending to a tail that is not empty continues its line, and two intents on one line do not parse, nor does an
      intent after a part of one. */
  function Written(log: Log, id: string, w: Write): Log {
    match w
    case NotOpened => log
    case NoBytes => log
    case SomeBytes => log.(tail := Torn)
    case AllButNewline => log.(tail := if log.tail.Empty? then Whole(id) else Torn)
    case WholeLine => Log(log.lines + [if log.tail.Empty? then Intent(id) else Junk], Empty)
  }

  function ReasonName(r: Reason): string {
    match r
    case DirectMention => "direct-gaebal-mention"
    case Keyword => "keyword-signal"
    case OwnerDirect => "owner-direct-message"
    case OwnerWatched => "owner-watched-message"
    case PendingMentions => "t1-pending-mentions"
    case Unanswered => "t2-unanswered-direct-mention"
    case Backlog => "t3-channel-backlog"
  }

  function Named(order: seq<Reason>, reasons: set<Reason>): seq<string> {
    if order == [] then [] else (if order[0] in reasons then [ReasonName(order[0])] else []) + Named(order[1..], reasons)
  }

  function JoinAll(parts: seq<string>): string { if parts == [] then "" else Join(parts, '+') }

  function IdOf(n: Nudge): string {
    "discord-watch-" + n.channel + "-" + n.message + "-" +
    JoinAll(Named([DirectMention, Keyword, OwnerDirect, OwnerWatched, PendingMentions, Unanswered, Backlog], n.reasons))
  }

  // ---- One event ----

  /** Which steps work: loading the state, reading the log, the write to the log, making it durable (the file, and if
      it is new its directory), replacing the state file, making that durable (its directory). */
  datatype Faults = Faults(loadable: bool, readable: bool, write: Write, synced: bool, replaced: bool, durable: bool)

  /** `recorded` keeps the ids of the nudges that went into the saved state. */
  datatype Files = Files(log: Log, saved: State, recorded: set<string>)

  /** The event gets as far as appending this id. */
  predicate Appends(files: Files, c: Config, m: Message, now: int, f: Faults) {
    var nudge := Step(c, files.saved, m, now).1;
    f.loadable && nudge.Some? && f.readable && IdOf(nudge.value) !in Ids(files.log)
  }

  predicate Logs(files: Files, c: Config, m: Message, now: int, f: Faults) {
    var nudge := Step(c, files.saved, m, now).1;
    nudge == None || (f.readable && (IdOf(nudge.value) in Ids(files.log) || (f.write == WholeLine && f.synced)))
  }

  function Handled(files: Files, c: Config, m: Message, now: int, f: Faults): Files {
    var (state, nudge) := Step(c, files.saved, m, now);
    var log := if Appends(files, c, m, now, f) then Written(files.log, IdOf(nudge.value), f.write) else files.log;
    if f.loadable && Logs(files, c, m, now, f) && f.replaced
    then Files(log, state, files.recorded + (if nudge.Some? then {IdOf(nudge.value)} else {}))
    else files.(log := log)
  }

  class WatchFiles {
    var log: Log
    var saved: State
    ghost var recorded: set<string>

    ghost function Value(): Files
      reads this
    {
      Files(log, saved, recorded)
    }

    constructor (files: Files)
      ensures Value() == files
    {
      log, saved, recorded := files.log, files.saved, files.recorded;
    }

    /** `append_intent`: nothing is written for an id that is already in the log. */
    method Append(id: string, f: Faults) returns (ok: bool)
      modifies this`log
      ensures log == if f.readable && id !in old(Ids(log)) then Written(old(log), id, f.write) else old(log)
      ensures ok == (f.readable && (id in old(Ids(log)) || (f.write == WholeLine && f.synced)))
    {
      if !f.readable {
        return false;
      }
      if id in Ids(log) {
        return true;
      }
      log := Written(log, id, f.write);
      ok := f.write == WholeLine && f.synced;
    }

    /** `handle_local_intent_event` on a message event. */
    method Handle(c: Config, m: Message, now: int, f: Faults) returns (ok: bool, nudge: Option<Nudge>)
      modifies this
      ensures Value() == Handled(old(Value()), c, m, now, f)
      ensures ok ==> nudge == Step(c, old(saved), m, now).1 && saved == Step(c, old(saved), m, now).0
      ensures ok && nudge.Some? ==> IdOf(nudge.value) in recorded
    {
      hide Step, Ids, IdOf, Written;
      if !f.loadable {
        return false, None;
      }
      var state := new DiscordWatchState(saved);
      nudge := state.ProcessMessage(c, m, now);
      if nudge.Some? {
        var logged := Append(IdOf(nudge.value), f);
        if !logged {
          return false, None;
        }
      }
      if !f.replaced {
        return false, None;
      }
      saved := state.Value();
      recorded := recorded + (if nudge.Some? then {IdOf(nudge.value)} else {});
      if !f.durable {
        return false, None;
      }
      ok := true;
    }
  }

  // ---- What a write does to the ids ----

  /** On a clean end of the log a whole intent adds its id; anywhere else it adds nothing, and takes with it the id of
      an intent without a newline. */
  lemma IdsAfterWrite(log: Log, id: string, w: Write)
    ensures log.tail.Empty? ==> Ids(Written(log, id, w)) == if w.AllButNewline? || w.WholeLine? then Ids(log) + [id] else Ids(log)
    ensures !log.tail.Empty? ==> Ids(Written(log, id, w)) == if Writes(w) then LineIds(log.lines) else Ids(log)
  {
    var line := if log.tail.Empty? then Intent(id) else Junk;
    assert (log.lines + [line])[..|log.lines|] == log.lines;
    assert LineIds(log.lines) + [] == LineIds(log.lines);
  }

  // ---- Properties of one event ----

  /** No id comes to be in the log twice, whatever fails. */
  lemma IdsStayDistinct(files: Files, c: Config, m: Message, now: int, f: Faults)
    requires Distinct(Ids(files.log))
    ensures Distinct(Ids(Handled(files, c, m, now, f).log))
  {
    hide Step, IdOf, Ids, Written;
    var nudge := Step(c, files.saved, m, now).1;
    if nudge.Some? { IdsAfterWrite(files.log, IdOf(nudge.value), f.write); }
    IdsOfLines(files.log);
  }

  lemma IdsOfLines(log: Log)
    ensures LineIds(log.lines) <= Ids(log)
    ensures log.tail.Whole? ==> Ids(log) == LineIds(log.lines) + [log.tail.id]
    ensures !log.tail.Whole? ==> Ids(log) == LineIds(log.lines)
  {
  }

  /** Every nudge that the saved state records is in the log. */
  predicate Grounded(files: Files) { forall id :: id in files.recorded ==> id in Ids(files.log) }

  /** The event writes to a log whose last line has no newline, and so loses a recorded nudge: the one on that line,
      or its own, if its state is then saved. */
  predicate Loses(files: Files, c: Config, m: Message, now: int, f: Faults) {
    && Appends(files, c, m, now, f) && !files.log.tail.Empty? && Writes(f.write)
    && ((files.log.tail.Whole? && files.log.tail.id in files.recorded) || (f.write == WholeLine && f.synced && f.replaced))
  }

  /** An event keeps the saved state grounded in the log iff it does not write after a last line without a newline in
      one of these two ways. */
  lemma GroundedIff(files: Files, c: Config, m: Message, now: int, f: Faults)
    requires Grounded(files) && Distinct(Ids(files.log))
    ensures Grounded(Handled(files, c, m, now, f)) <==> !Loses(files, c, m, now, f)
  {
    hide Step, IdOf, Ids, Written;
    var nudge := Step(c, files.saved, m, now).1;
    IdsOfLines(files.log);
    var after := Handled(files, c, m, now, f);
    if Appends(files, c, m, now, f) {
      var id := IdOf(nudge.value);
      IdsAfterWrite(files.log, id, f.write);
      assert Ids(files.log) + [id] == Ids(after.log) ==> forall x :: x in Ids(after.log) <==> x in Ids(files.log) || x == id;
      WholeIsNotInLines(files.log);
    }
  }

  lemma WholeIsNotInLines(log: Log)
    requires Distinct(Ids(log))
    ensures log.tail.Whole? ==> log.tail.id !in LineIds(log.lines) && forall x :: x in Ids(log) <==> x in LineIds(log.lines) || x == log.tail.id
  {
    IdsOfLines(log);
    if log.tail.Whole? {
      var n := |LineIds(log.lines)|;
      assert Ids(log)[n] == log.tail.id;
      forall k | 0 <= k < n ensures LineIds(log.lines)[k] != log.tail.id { assert Ids(log)[k] == LineIds(log.lines)[k]; }
    }
  }

  // ---- Replays ----

  /** The same event at the same time, from the same saved state, adds nothing to a log that has its id; and it has
      it, if the intent was written to a clean end up to its newline. */
  lemma ReplayAddsNothing(files: Files, c: Config, m: Message, now: int, f: Faults, g: Faults)
    requires Appends(files, c, m, now, f) && Handled(files, c, m, now, f).saved == files.saved
    ensures var once, id := Handled(files, c, m, now, f), IdOf(Step(c, files.saved, m, now).1.value);
      && (id in Ids(once.log) <==> files.log.tail.Empty? && (f.write.AllButNewline? || f.write.WholeLine?))
      && (id in Ids(once.log) ==> Handled(once, c, m, now, g).log == once.log)
  {
    hide Step, IdOf, Ids, Written;
    var id := IdOf(Step(c, files.saved, m, now).1.value);
    IdsAfterWrite(files.log, id, f.write);
    IdsOfLines(files.log);
  }

  // ---- Whole runs ----

  datatype Call = Call(m: Message, now: int, f: Faults)

  const START := Files(Log([], Empty), EMPTY, {})

  function AfterCalls(c: Config, calls: seq<Call>): Files {
    if calls == [] then START
    else var call := calls[|calls| - 1]; Handled(AfterCalls(c, calls[..|calls| - 1]), c, call.m, call.now, call.f)
  }

  /** Over every run, whatever fails, the ids in the log are pairwise distinct. */
  lemma {:induction false} IdsAreDistinct(c: Config, calls: seq<Call>)
    ensures Distinct(Ids(AfterCalls(c, calls).log))
  {
    hide Handled;
    if calls != [] {
      var n := |calls| - 1;
      IdsAreDistinct(c, calls[..n]);
      IdsStayDistinct(AfterCalls(c, calls[..n]), c, calls[n].m, calls[n].now, calls[n].f);
    }
  }

  /** Grounded after every event of the run. */
  predicate GroundedThroughout(c: Config, calls: seq<Call>) {
    Grounded(AfterCalls(c, calls)) && (calls == [] || GroundedThroughout(c, calls[..|calls| - 1]))
  }

  /** No event of the run writes after a last line without a newline in a way that loses a nudge. */
  predicate NeverLoses(c: Config, calls: seq<Call>) {
    calls == [] || var n := |calls| - 1;
      NeverLoses(c, calls[..n]) && !Loses(AfterCalls(c, calls[..n]), c, calls[n].m, calls[n].now, calls[n].f)
  }

  /** The saved state is grounded in the log throughout a run iff the run never loses a nudge in that way. */
  lemma {:induction false} GroundedThroughoutIff(c: Config, calls: seq<Call>)
    ensures GroundedThroughout(c, calls) <==> NeverLoses(c, calls)
  {
    if calls != [] {
      hide Loses, Handled, Grounded;
      var n := |calls| - 1;
      GroundedThroughoutIff(c, calls[..n]);
      if Grounded(AfterCalls(c, calls[..n])) {
        IdsAreDistinct(c, calls[..n]);
        GroundedIff(AfterCalls(c, calls[..n]), c, calls[n].m, calls[n].now, calls[n].f);
      }
    }
  }

  // ---- A run that loses nudges ----

  function OwnerMessage(id: string): Message { Message(id, id, None, "a", "", [], true, true, None) }

  lemma OwnerMessageNudges(c: Config, s: State, id: string, now: int)
    requires c == Config([], [], [], "b", [], 1, 0, 1, 0, 0)
    requires s.lastNudge.None? || now >= s.lastNudge.value
    requires id !in s.channels
    ensures var (state, nudge) := Step(c, s, OwnerMessage(id), now);
      nudge.Some? && nudge.value.channel == id && state.lastNudge == Some(now) && state.channels.Keys == s.channels.Keys + {id}
  {
    var m := OwnerMessage(id);
    hide Contains, Mentions;
    var recorded := Recorded(c, s, m, now);
    assert Applies(c, recorded, m, now, OwnerDirect);
    assert OwnerDirect in ReasonsFor(c, recorded, m, now);
  }

  /** The write of the first intent stops before its newline, and the event is replayed; the second event then writes
      on the same line.  Every later step works, both nudges are recorded, and the log has neither. */
  lemma BothNudgesLost(c: Config)
    requires c == Config([], [], [], "b", [], 1, 0, 1, 0, 0)
    ensures var good := Faults(true, true, WholeLine, true, true, true);
      var calls := [Call(OwnerMessage("1"), 0, good.(write := AllButNewline)), Call(OwnerMessage("1"), 0, good), Call(OwnerMessage("2"), 1, good)];
      var files := AfterCalls(c, calls);
      |files.recorded| == 2 && Ids(files.log) == []
  {
    hide Step, IdOf;
    var good := Faults(true, true, WholeLine, true, true, true);
    var one, two := OwnerMessage("1"), OwnerMessage("2");
    var a, b, d := Call(one, 0, good.(write := AllButNewline)), Call(one, 0, good), Call(two, 1, good);
    var (s1, n1) := Step(c, EMPTY, one, 0);
    OwnerMessageNudges(c, EMPTY, "1", 0);
    var (s2, n2) := Step(c, s1, two, 1);
    OwnerMessageNudges(c, s1, "2", 1);
    IdsDiffer(n1.value, n2.value);
    var id1, id2 := IdOf(n1.value), IdOf(n2.value);
    var start, torn, replayed := START, Files(Log([], Whole(id1)), EMPTY, {}), Files(Log([], Whole(id1)), s1, {id1});
    assert Ids(torn.log) == [id1] && Ids(replayed.log) == [id1];
    assert Handled(start, c, one, 0, a.f) == torn;
    assert Handled(torn, c, one, 0, good) == replayed;
    assert Handled(replayed, c, two, 1, good) == Files(Log([Junk], Empty), s2, {id1, id2});
    hide Handled, AfterCalls;
    ThreeCalls(c, a, b, d);
    LostIds(Files(Log([Junk], Empty), s2, {id1, id2}));
  }

  lemma ThreeCalls(c: Config, a: Call, b: Call, d: Call)
    ensures AfterCalls(c, [a, b, d]) == Handled(Handled(Handled(START, c, a.m, a.now, a.f), c, b.m, b.now, b.f), c, d.m, d.now, d.f)
  {
    hide Handled;
    assert [a, b, d][..2] == [a, b] && [a, b][..1] == [a] && [a][..0] == [];
    assert AfterCalls(c, [a]) == Handled(START, c, a.m, a.now, a.f);
    assert AfterCalls(c, [a, b]) == Handled(AfterCalls(c, [a]), c, b.m, b.now, b.f);
  }

  lemma LostIds(files: Files)
    requires files.log == Log([Junk], Empty)
    ensures Ids(files.log) == []
  {
    assert [Junk][..0] == [];
  }

  lemma IdsDiffer(a: Nudge, b: Nudge)
    requires a.channel == "1" && b.channel == "2"
    ensures IdOf(a) != IdOf(b)
  {
    assert IdOf(a)[14] == '1' && IdOf(b)[14] == '2';
  }
}
