/** The Discord watcher's state machine, src/discord_watch.rs: which messages count towards a channel's backlog, and
    when a nudge is due. */
module DiscordWatch {
  import opened Text

  // ---- Configuration, messages and state ----

  const I64_MAX := 0x7FFF_FFFF_FFFF_FFFF
  const I64_MIN := -0x8000_0000_0000_0000
  const U64_MAX := 0xFFFF_FFFF_FFFF_FFFF
  const MAX_RECENT := 256

  datatype Channel = Channel(id: string, name: string)

  datatype Config = Config(watched: seq<Channel>, bannedIds: seq<string>, bannedNames: seq<string>, bot: string, owners: seq<string>,
                           pendingThreshold: nat, persist: int, threshold: nat, globalCooldown: int, channelCooldown: int)
  {
    /** What the config validation demands, and the ranges of the integer types. */
    predicate Valid() {
      1 <= pendingThreshold && 1 <= threshold <= U64_MAX && 0 <= persist <= I64_MAX
      && 0 <= globalCooldown <= I64_MAX && 0 <= channelCooldown <= I64_MAX
    }
  }

  datatype Message = Message(id: string, channel: string, channelName: Option<string>, author: string, content: string,
                             mentions: seq<string>, direct: bool, authorIsOwner: bool, timestamp: Option<int>)

  datatype ChannelState = ChannelState(name: Option<string>, count: nat, botActivity: Option<int>, lastNudge: Option<int>, recent: seq<string>)
  datatype Pending = Pending(message: string, channel: string, author: string, firstSeen: int, direct: bool)
  datatype State = State(channels: map<string, ChannelState>, pending: map<string, Pending>, lastNudge: Option<int>)
  {
    /** A channel's state; one without an entry is as a fresh one. */
    function At(channel: string): ChannelState { if channel in channels then channels[channel] else FRESH }
  }

  const FRESH := ChannelState(None, 0, None, None, [])
  const EMPTY := State(map[], map[], None)

  /** In the order of their names, which is the order in which a nudge lists them. */
  datatype Reason = DirectMention | Keyword | OwnerDirect | OwnerWatched | PendingMentions | Unanswered | Backlog

  datatype Nudge = Nudge(channel: string, message: string, channelName: string, reasons: set<Reason>, at: int)

  // ---- Predicates on messages ----

  predicate ContainsAt(s: string, part: string, i: nat) { i + |part| <= |s| && s[i..i + |part|] == part }
  predicate Contains(s: string, part: string) { exists i :: 0 <= i <= |s| && ContainsAt(s, part, i) }

  function LowerChar(c: char): char { if 'A' <= c <= 'Z' then c - 'A' + 'a' else c }
  function Lower(s: string): string { seq(|s|, i requires 0 <= i < |s| => LowerChar(s[i])) }

  function DropHashes(s: string): string { if s != "" && s[0] == '#' then DropHashes(s[1..]) else s }

  predicate SignalsKeyword(content: string) {
    exists k :: k in ["?", "question", "error", "failed", "failure", "setup", "install", "help"] && Contains(Lower(content), k)
  }

  function WatchedName(c: Config, channel: string): Option<string> { NameIn(c.watched, channel) }
  function NameIn(watched: seq<Channel>, channel: string): Option<string> {
    if watched == [] then None else if watched[0].id == channel then Some(watched[0].name) else NameIn(watched[1..], channel)
  }

  predicate IsOwner(c: Config, m: Message) { m.authorIsOwner || m.author in c.owners }

  predicate BannedName(c: Config, name: string) {
    exists b :: b in c.bannedNames && Lower(DropHashes(Trim(b))) == Lower(DropHashes(Trim(name)))
  }

  predicate IsBanned(c: Config, m: Message) {
    || m.channel in c.bannedIds
    || (m.channelName.Some? && BannedName(c, m.channelName.value))
    || (WatchedName(c, m.channel).Some? && BannedName(c, WatchedName(c, m.channel).value))
  }

  predicate Mentions(c: Config, m: Message) { c.bot in m.mentions || Contains(m.content, "<@" + c.bot + ">") }

  predicate IsBot(c: Config, m: Message) { m.author == c.bot }
  predicate IsWatched(c: Config, m: Message) { WatchedName(c, m.channel).Some? }

  /** The message is dropped before anything is recorded. */
  predicate IsIgnored(c: Config, m: Message) {
    IsBanned(c, m) || (!IsWatched(c, m) && !(m.direct && IsOwner(c, m)) && !(m.direct && Mentions(c, m)))
  }

  predicate Distinct(ids: seq<string>) { forall i, j :: 0 <= i < j < |ids| ==> ids[i] != ids[j] }

  // ---- Time ----

  /** `i64::saturating_sub` */
  function SaturatingSub(a: int, b: int): int {
    if a - b > I64_MAX then I64_MAX else if a - b < I64_MIN then I64_MIN else a - b
  }

  /** Saturation changes no comparison with a non-negative limit. */
  lemma SaturationIsHarmless(a: int, b: int, limit: int)
    requires 0 <= limit <= I64_MAX
    ensures SaturatingSub(a, b) < limit <==> a - b < limit
  {
  }

  predicate Recent(last: Option<int>, now: int, cooldown: int) { last.Some? && SaturatingSub(now, last.value) < cooldown }

  /** `in_cooldown` */
  predicate InCooldown(c: Config, s: State, channel: string, now: int) {
    Recent(s.lastNudge, now, c.globalCooldown) || Recent(s.At(channel).lastNudge, now, c.channelCooldown)
  }

  // ---- One message ----

  /** `record_recent_message_id` on an id that is not there yet. */
  function Remember(recent: seq<string>, id: string): (r: seq<string>)
    ensures |r| <= MAX_RECENT || |r| == |recent|
  {
    var longer := recent + [id];
    if |longer| > MAX_RECENT then longer[|longer| - MAX_RECENT..] else longer
  }

  function SaturatingInc(n: nat): nat { if n < U64_MAX then n + 1 else U64_MAX }

  /** A message in a watched channel is remembered, and counted if it is new and the channel is not cooling down. */
  function Tally(c: Config, s: State, m: Message, now: int): State
    requires IsWatched(c, m)
  {
    var was := s.At(m.channel);
    var isNew := m.id !in was.recent;
    s.(channels := s.channels[m.channel := was.(
      name := WatchedName(c, m.channel),
      recent := if isNew then Remember(was.recent, m.id) else was.recent,
      count := if isNew && !InCooldown(c, s, m.channel, now) then SaturatingInc(was.count) else was.count)])
  }

  function Noted(c: Config, s: State, m: Message, now: int): State {
    if Mentions(c, m) && m.id !in s.pending then
      s.(pending := s.pending[m.id := Pending(m.id, m.channel, m.author, if m.timestamp.Some? then m.timestamp.value else now, m.direct)])
    else s
  }

  function WatchedPending(c: Config, s: State): set<string> { set id | id in s.pending && WatchedName(c, s.pending[id].channel).Some? }

  predicate HasUnanswered(c: Config, s: State, now: int) {
    exists id :: id in s.pending && s.pending[id].direct && SaturatingSub(now, s.pending[id].firstSeen) >= c.persist
  }

  predicate Applies(c: Config, s: State, m: Message, now: int, r: Reason) {
    match r
    case DirectMention => m.direct && Mentions(c, m)
    case Keyword => IsWatched(c, m) && SignalsKeyword(m.content)
    case OwnerDirect => m.direct && IsOwner(c, m)
    case OwnerWatched => !m.direct && IsOwner(c, m) && IsWatched(c, m)
    case PendingMentions => |WatchedPending(c, s)| >= c.pendingThreshold
    case Unanswered => HasUnanswered(c, s, now)
    case Backlog => s.At(m.channel).count >= c.threshold
  }

  function ReasonsFor(c: Config, s: State, m: Message, now: int): (reasons: set<Reason>)
    ensures forall r :: r in reasons <==> Applies(c, s, m, now, r)
  {
    set r | r in {DirectMention, Keyword, OwnerDirect, OwnerWatched, PendingMentions, Unanswered, Backlog} && Applies(c, s, m, now, r)
  }

  function NameFor(c: Config, m: Message): string {
    if IsWatched(c, m) then WatchedName(c, m.channel).value
    else if m.channelName.Some? then m.channelName.value else "direct-message"
  }

  function Nudged(c: Config, s: State, m: Message, now: int, reasons: set<Reason>): State {
    var was := s.At(m.channel);
    s.(lastNudge := Some(now),
       channels := s.channels[m.channel := was.(name := Some(NameFor(c, m)), lastNudge := Some(now),
                                                count := if Backlog in reasons then 0 else was.count)])
  }

  /** `reset_channel_for_gaebal_activity` */
  function BotSpoke(s: State, channel: string, now: int): State {
    s.(channels := s.channels[channel := s.At(channel).(count := 0, botActivity := Some(now))],
       pending := map id | id in s.pending && s.pending[id].channel != channel :: s.pending[id])
  }

  /** What is recorded of a message that is not ignored, before it is decided whether a nudge is due. */
  function Recorded(c: Config, s: State, m: Message, now: int): State {
    Noted(c, if IsWatched(c, m) then Tally(c, s, m, now) else s, m, now)
  }

  function Step(c: Config, s: State, m: Message, now: int): (State, Option<Nudge>) {
    if IsBot(c, m) then (BotSpoke(s, m.channel, now), None)
    else if IsIgnored(c, m) then (s, None)
    else
      var recorded := Recorded(c, s, m, now);
      var reasons := ReasonsFor(c, recorded, m, now);
      if reasons == {} || InCooldown(c, recorded, m.channel, now) then (recorded, None)
      else (Nudged(c, recorded, m, now, reasons), Some(Nudge(m.channel, m.id, NameFor(c, m), reasons, now)))
  }

  // ---- The state machine ----

  class DiscordWatchState {
    var channels: map<string, ChannelState>
    var pending: map<string, Pending>
    var lastNudge: Option<int>

    constructor (s: State)
      ensures Value() == s
    {
      channels, pending, lastNudge := s.channels, s.pending, s.lastNudge;
    }

    function Value(): State
      reads this
    {
      State(channels, pending, lastNudge)
    }

    method ResetForBot(channel: string, now: int)
      modifies this
      ensures Value() == BotSpoke(old(Value()), channel, now)
    {
      channels := channels[channel := Value().At(channel).(count := 0, botActivity := Some(now))];
      pending := map id | id in pending && pending[id].channel != channel :: pending[id];
    }

    /** `record_recent_message_id` on the entry of a channel. */
    method RecordId(channel: string, id: string) returns (isNew: bool)
      requires channel in channels
      modifies this`channels
      ensures isNew == (id !in old(channels[channel].recent))
      ensures channels == old(channels)[channel := old(channels[channel]).(
                recent := if isNew then Remember(old(channels[channel].recent), id) else old(channels[channel].recent))]
    {
      var entry := channels[channel];
      if id in entry.recent {
        assert entry.(recent := entry.recent) == entry;
        return false;
      }
      var ids := entry.recent + [id];
      var excess := if |ids| > MAX_RECENT then |ids| - MAX_RECENT else 0;
      if excess > 0 {
        ids := ids[excess..];
      }
      channels := channels[channel := entry.(recent := ids)];
      isNew := true;
    }

    /** The entry of a watched channel is brought up to date. */
    method TallyMessage(c: Config, m: Message, now: int)
      requires IsWatched(c, m)
      modifies this`channels
      ensures Value() == Tally(c, old(Value()), m, now)
    {
      hide InCooldown, WatchedName, Remember;
      var counts := !InCooldown(c, Value(), m.channel, now);
      if m.channel !in channels {
        channels := channels[m.channel := FRESH];
      }
      channels := channels[m.channel := channels[m.channel].(name := WatchedName(c, m.channel))];
      var isNew := RecordId(m.channel, m.id);
      if counts && isNew {
        channels := channels[m.channel := channels[m.channel].(count := SaturatingInc(channels[m.channel].count))];
      }
      assert channels == Tally(c, old(Value()), m, now).channels;
    }

    /** `process_message` */
    method ProcessMessage(c: Config, m: Message, now: int) returns (nudge: Option<Nudge>)
      modifies this
      ensures (Value(), nudge) == Step(c, old(Value()), m, now)
    {
      hide InCooldown, IsIgnored, Mentions, Tally, ReasonsFor, NameFor, WatchedName, Applies;
      if IsBot(c, m) {
        ResetForBot(m.channel, now);
        return None;
      }
      if IsIgnored(c, m) {
        return None;
      }
      if IsWatched(c, m) {
        TallyMessage(c, m, now);
      }
      if Mentions(c, m) && m.id !in pending {
        pending := pending[m.id := Pending(m.id, m.channel, m.author, if m.timestamp.Some? then m.timestamp.value else now, m.direct)];
      }
      ghost var recorded := Value();
      var reasons := ReasonsFor(c, Value(), m, now);
      if reasons == {} || InCooldown(c, Value(), m.channel, now) {
        return None;
      }
      lastNudge := Some(now);
      var entry := Value().At(m.channel).(name := Some(NameFor(c, m)), lastNudge := Some(now));
      channels := channels[m.channel := entry];
      if Backlog in reasons {
        channels := channels[m.channel := entry.(count := 0)];
      }
      assert Value() == Nudged(c, recorded, m, now, reasons) by { assert channels == Nudged(c, recorded, m, now, reasons).channels; }
      nudge := Some(Nudge(m.channel, m.id, NameFor(c, m), reasons, now));
    }
  }
}
