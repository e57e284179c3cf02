/** Whole runs of the Discord watcher from the empty state: its counters, lists and cooldowns against the history of
    messages and nudges, and the rate of nudges under any clock. */
module WatchRuns {
  import opened Text
  import opened DiscordWatch

  // ---- Runs ----

  datatype Entry = Entry(m: Message, now: int, nudge: Option<Nudge>)

  function After(c: Config, t: seq<Entry>): State {
    if t == [] then EMPTY else var e := t[|t| - 1]; Step(c, After(c, t[..|t| - 1]), e.m, e.now).0
  }

  /** The nudges are those the watcher gives, message by message. */
  ghost predicate IsRun(c: Config, t: seq<Entry>) {
    t == [] || var e := t[|t| - 1]; IsRun(c, t[..|t| - 1]) && e.nudge == Step(c, After(c, t[..|t| - 1]), e.m, e.now).1
  }

  // ---- What the history says ----

  function LastNudge(t: seq<Entry>): Option<int> {
    if t == [] then None else if t[|t| - 1].nudge.Some? then Some(t[|t| - 1].now) else LastNudge(t[..|t| - 1])
  }

  function LastNudgeIn(t: seq<Entry>, channel: string): Option<int> {
    if t == [] then None
    else if t[|t| - 1].nudge.Some? && t[|t| - 1].m.channel == channel then Some(t[|t| - 1].now)
    else LastNudgeIn(t[..|t| - 1], channel)
  }

  predicate Within(last: Option<int>, now: int, cooldown: int) { last.Some? && now - last.value < cooldown }

  /** Less than a cooldown has passed since the last nudge, or since the last one in the channel. */
  predicate Cooling(c: Config, t: seq<Entry>, channel: string, now: int) {
    Within(LastNudge(t), now, c.globalCooldown) || Within(LastNudgeIn(t, channel), now, c.channelCooldown)
  }

  predicate Heard(c: Config, m: Message) { !IsBot(c, m) && !IsIgnored(c, m) && IsWatched(c, m) }

  function LastIds(ids: seq<string>): seq<string> { if |ids| > MAX_RECENT then ids[|ids| - MAX_RECENT..] else ids }

  /** The ids that were new to the channel when they were heard: not among the last 256 that had been new. */
  function NewIds(c: Config, t: seq<Entry>, channel: string): seq<string> {
    if t == [] then []
    else
      var m, before := t[|t| - 1].m, NewIds(c, t[..|t| - 1], channel);
      if m.channel == channel && Heard(c, m) && m.id !in LastIds(before) then before + [m.id] else before
  }

  predicate IsCounted(c: Config, t: seq<Entry>, m: Message, now: int) {
    Heard(c, m) && m.id !in LastIds(NewIds(c, t, m.channel)) && !Cooling(c, t, m.channel, now)
  }

  predicate IsBacklogNudge(e: Entry) { e.nudge.Some? && Backlog in e.nudge.value.reasons }

  /** The messages counted in the channel since the bot last spoke there or its backlog was last nudged about. */
  function Counted(c: Config, t: seq<Entry>, channel: string): nat {
    if t == [] then 0
    else
      var front, e := t[..|t| - 1], t[|t| - 1];
      if e.m.channel != channel then Counted(c, front, channel)
      else if IsBot(c, e.m) || IsBacklogNudge(e) then 0
      else Counted(c, front, channel) + (if IsCounted(c, front, e.m, e.now) then 1 else 0)
  }

  // ---- One step ----

  lemma RecordingKeepsCooldown(c: Config, s: State, m: Message, now: int)
    ensures InCooldown(c, Recorded(c, s, m, now), m.channel, now) == InCooldown(c, s, m.channel, now)
    ensures Recorded(c, s, m, now).lastNudge == s.lastNudge
    ensures Recorded(c, s, m, now).At(m.channel).lastNudge == s.At(m.channel).lastNudge
  {
    hide Mentions, WatchedName, Remember;
  }

  lemma RecordedEntry(c: Config, s: State, m: Message, now: int)
    ensures var was, entry := s.At(m.channel), Recorded(c, s, m, now).At(m.channel);
      var isNew := IsWatched(c, m) && m.id !in was.recent;
      && entry.count == (if isNew && !InCooldown(c, s, m.channel, now) then SaturatingInc(was.count) else was.count)
      && entry.recent == (if isNew then Remember(was.recent, m.id) else was.recent)
    ensures forall ch :: ch != m.channel ==> Recorded(c, s, m, now).At(ch) == s.At(ch)
  {
    hide Mentions, WatchedName, Remember, InCooldown;
  }

  lemma OtherChannels(c: Config, s: State, m: Message, now: int, channel: string)
    requires channel != m.channel
    ensures Step(c, s, m, now).0.At(channel) == s.At(channel)
  {
    RecordedEntry(c, s, m, now);
    hide Recorded, InCooldown, ReasonsFor, IsIgnored, NameFor;
  }

  /** What one message does to its own channel and to the nudge times, from a state whose counter is below the
      threshold. */
  lemma OwnChannel(c: Config, s: State, m: Message, now: int)
    requires c.Valid() && s.At(m.channel).count < c.threshold
    ensures var (s', nudge) := Step(c, s, m, now);
      var was, is_ := s.At(m.channel), s'.At(m.channel);
      var isNew := Heard(c, m) && m.id !in was.recent;
      var counts := isNew && !InCooldown(c, s, m.channel, now);
      var backlog := nudge.Some? && Backlog in nudge.value.reasons;
      && (backlog <==> counts && was.count + 1 == c.threshold)
      && is_.count == (if IsBot(c, m) || backlog then 0 else was.count + (if counts then 1 else 0))
      && is_.recent == (if isNew then Remember(was.recent, m.id) else was.recent)
      && is_.lastNudge == (if nudge.Some? then Some(now) else was.lastNudge)
      && s'.lastNudge == (if nudge.Some? then Some(now) else s.lastNudge)
      && (nudge.Some? ==> !InCooldown(c, s, m.channel, now))
  {
    RecordingKeepsCooldown(c, s, m, now);
    RecordedEntry(c, s, m, now);
    var recorded := Recorded(c, s, m, now);
    hide Recorded, InCooldown, IsIgnored, NameFor, WatchedName, Remember, Mentions, IsOwner, HasUnanswered, SignalsKeyword, WatchedPending;
    assert Backlog in ReasonsFor(c, recorded, m, now) <==> recorded.At(m.channel).count >= c.threshold;
  }

  // ---- The state is the history ----

  lemma RememberIsLast(ids: seq<string>, id: string)
    ensures Remember(LastIds(ids), id) == LastIds(ids + [id])
    ensures Distinct(LastIds(ids)) && id !in LastIds(ids) ==> Distinct(LastIds(ids + [id]))
  {
    var last, longer := LastIds(ids), LastIds(ids) + [id];
    assert Distinct(last) && id !in last ==> Distinct(longer);
    assert LastIds(ids + [id]) == if |longer| > MAX_RECENT then longer[|longer| - MAX_RECENT..] else longer;
  }

  lemma SameCooldown(c: Config, s: State, t: seq<Entry>, channel: string, now: int)
    requires c.Valid() && s.lastNudge == LastNudge(t) && s.At(channel).lastNudge == LastNudgeIn(t, channel)
    ensures InCooldown(c, s, channel, now) <==> Cooling(c, t, channel, now)
  {
    if s.lastNudge.Some? { SaturationIsHarmless(now, s.lastNudge.value, c.globalCooldown); }
    if s.At(channel).lastNudge.Some? { SaturationIsHarmless(now, s.At(channel).lastNudge.value, c.channelCooldown); }
  }

  /** The state agrees with the history about a channel. */
  ghost predicate Agrees(c: Config, s: State, t: seq<Entry>, channel: string) {
    && s.At(channel).count == Counted(c, t, channel) < c.threshold
    && s.At(channel).recent == LastIds(NewIds(c, t, channel))
    && Distinct(s.At(channel).recent) && |s.At(channel).recent| <= MAX_RECENT
    && s.At(channel).lastNudge == LastNudgeIn(t, channel)
    && s.lastNudge == LastNudge(t)
  }

  /** From the empty state, whatever the messages and the clock: every channel's counter is the number of messages
      counted since the last reset and below the threshold, its id list the last 256 new ids without repetition, and
      the nudge times those of the last nudges. */
  lemma {:induction false} StateIsHistory(c: Config, t: seq<Entry>, channel: string)
    requires c.Valid() && IsRun(c, t)
    ensures Agrees(c, After(c, t), t, channel)
  {
    if t != [] {
      hide Agrees, Step, Counted, NewIds, LastNudge, LastNudgeIn;
      var front, e := t[..|t| - 1], t[|t| - 1];
      StateIsHistory(c, front, channel);
      StateIsHistory(c, front, e.m.channel);
      assert t == front + [e];
      if channel == e.m.channel {
        OwnHistory(c, After(c, front), front, e);
      } else {
        OtherHistory(c, After(c, front), front, e, channel);
      }
    }
  }

  lemma HistoryStep(c: Config, front: seq<Entry>, e: Entry)
    ensures var t, channel := front + [e], e.m.channel;
      && Counted(c, t, channel) == (if IsBot(c, e.m) || IsBacklogNudge(e) then 0
                                    else Counted(c, front, channel) + (if IsCounted(c, front, e.m, e.now) then 1 else 0))
      && NewIds(c, t, channel) == (if Heard(c, e.m) && e.m.id !in LastIds(NewIds(c, front, channel))
                                   then NewIds(c, front, channel) + [e.m.id] else NewIds(c, front, channel))
      && LastNudgeIn(t, channel) == (if e.nudge.Some? then Some(e.now) else LastNudgeIn(front, channel))
      && LastNudge(t) == (if e.nudge.Some? then Some(e.now) else LastNudge(front))
    ensures forall channel :: channel != e.m.channel ==>
      && Counted(c, front + [e], channel) == Counted(c, front, channel)
      && NewIds(c, front + [e], channel) == NewIds(c, front, channel)
      && LastNudgeIn(front + [e], channel) == LastNudgeIn(front, channel)
  {
    assert (front + [e])[..|front|] == front;
    hide IsCounted, Heard, LastIds;
  }

  lemma OwnHistory(c: Config, s: State, front: seq<Entry>, e: Entry)
    requires c.Valid() && Agrees(c, s, front, e.m.channel) && e.nudge == Step(c, s, e.m, e.now).1
    ensures Agrees(c, Step(c, s, e.m, e.now).0, front + [e], e.m.channel)
    ensures IsBacklogNudge(e) <==> IsCounted(c, front, e.m, e.now) && Counted(c, front, e.m.channel) + 1 == c.threshold
    ensures e.nudge.Some? ==> !Cooling(c, front, e.m.channel, e.now)
  {
    hide Step, InCooldown, Cooling, Heard, Remember, LastIds, Distinct, IsBot, Counted, NewIds, LastNudge, LastNudgeIn;
    OwnChannel(c, s, e.m, e.now);
    SameCooldown(c, s, front, e.m.channel, e.now);
    RememberIsLast(NewIds(c, front, e.m.channel), e.m.id);
    HistoryStep(c, front, e);
  }

  lemma OtherHistory(c: Config, s: State, front: seq<Entry>, e: Entry, channel: string)
    requires c.Valid() && channel != e.m.channel && e.nudge == Step(c, s, e.m, e.now).1
    requires Agrees(c, s, front, channel) && Agrees(c, s, front, e.m.channel)
    ensures Agrees(c, Step(c, s, e.m, e.now).0, front + [e], channel)
  {
    hide Step, InCooldown, Cooling, Heard, Remember, LastIds, Distinct, IsBot, Counted, NewIds, LastNudge, LastNudgeIn;
    OwnChannel(c, s, e.m, e.now);
    OtherChannels(c, s, e.m, e.now, channel);
    HistoryStep(c, front, e);
  }

  /** A backlog nudge comes exactly with the message that makes the count reach the threshold. */
  lemma BacklogNudgeAtThreshold(c: Config, front: seq<Entry>, e: Entry)
    requires c.Valid() && IsRun(c, front + [e])
    ensures IsBacklogNudge(e) <==> IsCounted(c, front, e.m, e.now) && Counted(c, front, e.m.channel) + 1 == c.threshold
    ensures e.nudge.Some? ==> !Cooling(c, front, e.m.channel, e.now)
  {
    assert (front + [e])[..|front|] == front;
    StateIsHistory(c, front, e.m.channel);
    OwnHistory(c, After(c, front), front, e);
  }

  // ---- The rate of nudges ----

  /** The times of the nudges, or of those in one channel. */
  function Times(t: seq<Entry>): seq<int> {
    if t == [] then [] else Times(t[..|t| - 1]) + (if t[|t| - 1].nudge.Some? then [t[|t| - 1].now] else [])
  }

  function TimesIn(t: seq<Entry>, channel: string): seq<int> {
    if t == [] then []
    else TimesIn(t[..|t| - 1], channel) + (if t[|t| - 1].nudge.Some? && t[|t| - 1].m.channel == channel then [t[|t| - 1].now] else [])
  }

  /** Each is at least `gap` after the one before. */
  ghost predicate Apart(times: seq<int>, gap: nat) { forall i, j :: 0 <= i && j == i + 1 < |times| ==> times[j] - times[i] >= gap }

  lemma ApartMore(times: seq<int>, x: int, gap: nat)
    requires Apart(times, gap) && (times != [] ==> x - times[|times| - 1] >= gap)
    ensures Apart(times + [x], gap)
  {
  }

  lemma {:induction false} LastIsLast(t: seq<Entry>, channel: string)
    ensures LastNudge(t) == if Times(t) == [] then None else Some(Times(t)[|Times(t)| - 1])
    ensures LastNudgeIn(t, channel) == if TimesIn(t, channel) == [] then None else Some(TimesIn(t, channel)[|TimesIn(t, channel)| - 1])
  {
    if t != [] { LastIsLast(t[..|t| - 1], channel); }
  }

  lemma TimesStep(front: seq<Entry>, e: Entry, channel: string)
    ensures Times(front + [e]) == if e.nudge.Some? then Times(front) + [e.now] else Times(front)
    ensures TimesIn(front + [e], channel) ==
            if e.nudge.Some? && e.m.channel == channel then TimesIn(front, channel) + [e.now] else TimesIn(front, channel)
  {
    assert (front + [e])[..|front|] == front;
    assert Times(front) + [] == Times(front) && TimesIn(front, channel) + [] == TimesIn(front, channel);
  }

  function Max(a: int, b: int): int { if a < b then b else a }

  lemma RunFront(c: Config, front: seq<Entry>, e: Entry)
    requires IsRun(c, front + [e])
    ensures IsRun(c, front)
  {
    hide Step;
    assert (front + [e])[..|front|] == front;
  }

  /** A nudge waits out both cooldowns. */
  lemma NudgeWaits(c: Config, front: seq<Entry>, e: Entry)
    requires c.Valid() && IsRun(c, front + [e]) && e.nudge.Some?
    ensures var times, own := Times(front), TimesIn(front, e.m.channel);
      && (times != [] ==> e.now - times[|times| - 1] >= c.globalCooldown)
      && (own != [] ==> e.now - own[|own| - 1] >= c.channelCooldown)
  {
    hide IsRun, Times, TimesIn, Counted, IsCounted;
    BacklogNudgeAtThreshold(c, front, e);
    LastIsLast(front, e.m.channel);
  }

  /** All nudges are `gap` apart, those of one channel also `own`, and the channel's last is not after the last of all. */
  ghost predicate Spaced(times: seq<int>, inChannel: seq<int>, gap: nat, own: nat) {
    && Apart(times, gap) && Apart(inChannel, Max(gap, own))
    && (inChannel != [] ==> times != [] && inChannel[|inChannel| - 1] <= times[|times| - 1])
  }

  lemma SpacedMore(times: seq<int>, inChannel: seq<int>, gap: nat, own: nat, x: int)
    requires Spaced(times, inChannel, gap, own) && (times != [] ==> x - times[|times| - 1] >= gap)
    ensures Spaced(times + [x], inChannel, gap, own)
    ensures (inChannel != [] ==> x - inChannel[|inChannel| - 1] >= own) ==> Spaced(times + [x], inChannel + [x], gap, own)
  {
    hide Apart;
    ApartMore(times, x, gap);
    if inChannel != [] ==> x - inChannel[|inChannel| - 1] >= own { ApartMore(inChannel, x, Max(gap, own)); }
  }

  lemma {:induction false} NudgesAreSpaced(c: Config, t: seq<Entry>, channel: string)
    requires c.Valid() && IsRun(c, t)
    ensures Spaced(Times(t), TimesIn(t, channel), c.globalCooldown, c.channelCooldown)
  {
    if t == [] {
    } else {
      hide Spaced, Times, TimesIn, IsRun;
      var front, e := t[..|t| - 1], t[|t| - 1];
      assert t == front + [e];
      RunFront(c, front, e);
      NudgesAreSpaced(c, front, channel);
      TimesStep(front, e, channel);
      if e.nudge.Some? {
        NudgeWaits(c, front, e);
        SpacedMore(Times(front), TimesIn(front, channel), c.globalCooldown, c.channelCooldown, e.now);
      }
    }
  }

  /** Under any clock, even one that steps back, nudges are at least the global cooldown apart, and those in one
      channel at least the longer of both cooldowns. */
  lemma NudgesAreApart(c: Config, t: seq<Entry>, channel: string)
    requires c.Valid() && IsRun(c, t)
    ensures Apart(Times(t), c.globalCooldown)
    ensures Apart(TimesIn(t, channel), Max(c.globalCooldown, c.channelCooldown))
  {
    hide Apart, Times, TimesIn, IsRun;
    NudgesAreSpaced(c, t, channel);
  }

  function CountIn(times: seq<int>, from: int, width: nat): nat {
    if times == [] then 0
    else CountIn(times[..|times| - 1], from, width) + (if from <= times[|times| - 1] <= from + width then 1 else 0)
  }

  lemma {:induction false} SpanBefore(times: seq<int>, gap: nat, from: int, width: nat, x: int)
    requires gap > 0 && Apart(times, gap) && from <= x && (times != [] ==> x - times[|times| - 1] >= gap)
    ensures CountIn(times, from, width) * gap <= x - from
  {
    if times != [] {
      var front, last := times[..|times| - 1], times[|times| - 1];
      assert forall i :: 0 <= i < |front| ==> front[i] == times[i];
      assert front != [] ==> last - front[|front| - 1] >= gap;
      if from <= last <= from + width {
        SpanBefore(front, gap, from, width, last);
        assert (CountIn(front, from, width) + 1) * gap == CountIn(front, from, width) * gap + gap;
      } else {
        SpanBefore(front, gap, from, width, x);
      }
    }
  }

  /** A span of length `width` holds at most `width / gap + 1` times that are `gap` apart. */
  lemma {:induction false} SpanHolds(times: seq<int>, gap: nat, from: int, width: nat)
    requires gap > 0 && Apart(times, gap)
    ensures CountIn(times, from, width) <= width / gap + 1
  {
    if times != [] {
      var front, last := times[..|times| - 1], times[|times| - 1];
      assert forall i :: 0 <= i < |front| ==> front[i] == times[i];
      if from <= last <= from + width {
        assert front != [] ==> last - front[|front| - 1] >= gap;
        SpanBefore(front, gap, from, width, last);
        AtMostQuotient(CountIn(front, from, width), gap, width);
      } else {
        SpanHolds(front, gap, from, width);
      }
    }
  }

  lemma AtMostQuotient(n: nat, gap: nat, width: nat)
    requires gap > 0 && n * gap <= width
    ensures n <= width / gap
  {
    MulMonotone(n, width / gap + 1, gap);
    assert width < (width / gap + 1) * gap;
  }

  lemma MulMonotone(a: nat, b: nat, g: nat)
    ensures a >= b ==> a * g >= b * g
  {
    if a >= b { assert a * g == b * g + (a - b) * g; }
  }

  /** However the clock moves, a span of length `width` holds at most `width / G + 1` nudges, `G` being the global
      cooldown, and in one channel the same for the longer of both cooldowns. */
  lemma NudgeRateIsBounded(c: Config, t: seq<Entry>, channel: string, from: int, width: nat)
    requires c.Valid() && IsRun(c, t)
    ensures c.globalCooldown > 0 ==> CountIn(Times(t), from, width) <= width / c.globalCooldown + 1
    ensures Max(c.globalCooldown, c.channelCooldown) > 0 ==>
              CountIn(TimesIn(t, channel), from, width) <= width / Max(c.globalCooldown, c.channelCooldown) + 1
  {
    NudgesAreApart(c, t, channel);
    if c.globalCooldown > 0 { SpanHolds(Times(t), c.globalCooldown, from, width); }
    if Max(c.globalCooldown, c.channelCooldown) > 0 {
      SpanHolds(TimesIn(t, channel), Max(c.globalCooldown, c.channelCooldown), from, width);
    }
  }
}
