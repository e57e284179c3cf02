/** `DiscordClient::send` of src/discord.rs with the circuit breaker and dead-letter queue of src/core: the
    retry loop behind every Discord delivery. */
module DiscordSend {

  const MAX_ATTEMPTS := 3
  const CIRCUIT_FAILURE_THRESHOLD := 3
  const CIRCUIT_COOLDOWN_MS := 5_000

  // ---- Circuit breaker ----

  datatype CircuitState = Closed | Open(openedAt: nat) | HalfOpen
  datatype Circuit = Circuit(state: CircuitState, failures: nat)

  const FRESH := Circuit(Closed, 0)

  /** `allow_request`: an open circuit refuses until its cooldown is over, and then lets a probe through. */
  function Allow(c: Circuit, now: nat): (Circuit, bool) {
    match c.state
    case Open(at) => if now >= at + CIRCUIT_COOLDOWN_MS then (c.(state := HalfOpen), true) else (c, false)
    case _ => (c, true)
  }

  function OnSuccess(c: Circuit): Circuit { Circuit(Closed, 0) }

  function OnFailure(c: Circuit, now: nat): Circuit {
    match c.state
    case Closed =>
      if c.failures + 1 >= CIRCUIT_FAILURE_THRESHOLD then Circuit(Open(now), c.failures + 1) else Circuit(Closed, c.failures + 1)
    case HalfOpen => c.(state := Open(now))
    case Open(_) => c
  }

  // ---- Sending ----

  datatype Target = DiscordChannel(id: string) | DiscordThread(id: string) | DiscordWebhook(id: string)
                  | SlackWebhook(id: string) | HttpEndpoint(id: string) | LocalFile(id: string)
  {
    predicate IsDiscord() { DiscordChannel? || DiscordThread? || DiscordWebhook? }
  }

  datatype Message = Message(eventKind: string, content: string)

  /** What one POST comes to, and when.  Only a rate limit names a delay to retry after. */
  datatype Reply = Accepted | RetryAfter(error: string) | Rejected(error: string)
  datatype Try = Try(reply: Reply, at: nat)

  datatype DlqEntry = DlqEntry(target: string, message: Message, retryCount: nat, lastError: string)

  function CircuitOpen(name: string): string { "Discord circuit open for " + name }

  /** The attempt a send ends with: the first whose reply is not a retry, or the last one allowed. */
  ghost predicate EndsAt(tries: seq<Try>, n: nat) {
    && 1 <= n <= MAX_ATTEMPTS == |tries|
    && (forall i :: 0 <= i < n - 1 ==> tries[i].reply.RetryAfter?)
    && (n == MAX_ATTEMPTS || !tries[n - 1].reply.RetryAfter?)
  }

  /** The circuit after the first `n` replies. */
  ghost function Through(c: Circuit, tries: seq<Try>, n: nat): Circuit
    requires n <= |tries|
  {
    if n == 0 then c
    else
      var before := Through(c, tries, n - 1);
      if tries[n - 1].reply.Accepted? then OnSuccess(before) else OnFailure(before, tries[n - 1].at)
  }

  class DiscordClient {
    var circuits: map<Target, Circuit>
    var dlq: seq<DlqEntry>
    ghost var posts: nat

    /** `safe_target_id`: how a target is named in a dead letter. */
    const nameOf: Target -> string

    constructor (nameOf: Target -> string)
      ensures circuits == map[] && dlq == [] && posts == 0 && this.nameOf == nameOf
    {
      circuits, dlq, posts := map[], [], 0;
      this.nameOf := nameOf;
    }

    function CircuitOf(t: Target): Circuit
      reads this
    {
      if t in circuits then circuits[t] else FRESH
    }

    method RecordDlq(target: Target, message: Message, attempts: nat, error: string)
      modifies this`dlq
      ensures dlq == old(dlq) + [DlqEntry(nameOf(target), message, attempts, error)]
    {
      dlq := dlq + [DlqEntry(nameOf(target), message, attempts, error)];
    }

    /** At most three POSTs; accepted without a dead letter, or failed with exactly one, which carries the whole
        message.  A send the circuit refuses posts nothing and is dead-lettered under the full attempt count.
        The two exceptions of the code are kept: a target that is not a Discord one fails without a dead letter,
        and the statement after the loop is never reached. */
    method Send(target: Target, message: Message, allowAt: nat, tries: seq<Try>) returns (ok: bool, ghost n: nat)
      requires |tries| == MAX_ATTEMPTS
      modifies this
      ensures var (c, allowed) := Allow(old(CircuitOf(target)), allowAt);
        if !allowed then
          && !ok && n == 0 && CircuitOf(target) == c
          && dlq == old(dlq) + [DlqEntry(nameOf(target), message, MAX_ATTEMPTS, CircuitOpen(nameOf(target)))]
        else if !target.IsDiscord() then
          !ok && n == 0 && CircuitOf(target) == c && dlq == old(dlq)
        else
          && EndsAt(tries, n) && CircuitOf(target) == Through(c, tries, n)
          && (ok <==> tries[n - 1].reply.Accepted?)
          && dlq == old(dlq) + if ok then [] else [DlqEntry(nameOf(target), message, n, tries[n - 1].reply.error)]
      ensures posts == old(posts) + n && n <= MAX_ATTEMPTS
      ensures forall t :: t != target ==> CircuitOf(t) == old(CircuitOf(t))
    {
      var (c, allowed) := Allow(CircuitOf(target), allowAt);
      circuits := circuits[target := c];
      n := 0;
      if !allowed {
        RecordDlq(target, message, MAX_ATTEMPTS, CircuitOpen(nameOf(target)));
        return false, 0;
      }
      var attempt := 1;
      while attempt <= MAX_ATTEMPTS
        invariant 1 <= attempt <= MAX_ATTEMPTS
        invariant forall i :: 0 <= i < attempt - 1 ==> tries[i].reply.RetryAfter?
        invariant n == attempt - 1 && posts == old(posts) + n && dlq == old(dlq)
        invariant attempt > 1 ==> target.IsDiscord()
        decreases MAX_ATTEMPTS - attempt
        invariant CircuitOf(target) == Through(c, tries, n) && forall t :: t != target ==> CircuitOf(t) == old(CircuitOf(t))
      {
        if !target.IsDiscord() {
          return false, 0;
        }
        var try := tries[attempt - 1];
        posts, n := posts + 1, n + 1;
        match try.reply {
          case Accepted =>
            circuits := circuits[target := OnSuccess(CircuitOf(target))];
            return true, n;
          case RetryAfter(error) =>
            circuits := circuits[target := OnFailure(CircuitOf(target), try.at)];
            if attempt == MAX_ATTEMPTS {
              RecordDlq(target, message, attempt, error);
              return false, n;
            }
          case Rejected(error) =>
            circuits := circuits[target := OnFailure(CircuitOf(target), try.at)];
            RecordDlq(target, message, attempt, error);
            return false, n;
        }
        attempt := attempt + 1;
      }
      assert false;
    }
  }

  /** From a closed circuit without failures three rate-limited replies open the circuit, and until five seconds
      after the third every send to that target is refused. */
  lemma ThreeFailuresOpen(c: Circuit, tries: seq<Try>, now: nat)
    requires c == FRESH && |tries| == MAX_ATTEMPTS && forall i :: 0 <= i < MAX_ATTEMPTS ==> !tries[i].reply.Accepted?
    ensures Through(c, tries, 3).state == Open(tries[2].at)
    ensures Allow(Through(c, tries, 3), now).1 <==> now >= tries[2].at + CIRCUIT_COOLDOWN_MS
  {
    assert Through(c, tries, 1) == Circuit(Closed, 1);
    assert Through(c, tries, 2) == Circuit(Closed, 2);
  }

  /** Without an accepted POST an open circuit stays open, and one on probation does not close. */
  lemma {:induction false} OpenStaysOpen(c: Circuit, tries: seq<Try>, n: nat)
    requires n <= |tries| && c.state != Closed && forall i :: 0 <= i < n ==> !tries[i].reply.Accepted?
    ensures Through(c, tries, n).state != Closed
    ensures c.state.Open? ==> Through(c, tries, n).state == c.state
  {
    if n > 0 { OpenStaysOpen(c, tries, n - 1); }
  }
}
