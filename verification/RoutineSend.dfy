/** `send_routine_batch` of src/dispatch.rs for a Discord batch of two or more items: rendering, chunking and
    sending, with an account of where every item went. */
module RoutineSend {
  import opened Text
  import opened DiscordChunks
  import DiscordSend

  /** An item and what rendering it gives; `None` is a render failure. */
  datatype Item = Item(kind: string, body: Option<string>)

  const BATCHED := "dispatch.routine-batched"

  /** `rendered` and `failures` divide the first `n` items: each is in exactly one of them, in order. */
  ghost predicate Divided(items: seq<Item>, n: nat, rendered: seq<Rendered>, failures: seq<nat>) {
    && n <= |items| && |rendered| + |failures| == n
    && (forall j :: 0 <= j < |rendered| ==>
          && rendered[j].index < n && items[rendered[j].index].body == Some(rendered[j].content)
          && rendered[j].kind == items[rendered[j].index].kind)
    && (forall i, j :: 0 <= i < j < |rendered| ==> rendered[i].index < rendered[j].index)
    && (forall j :: 0 <= j < |failures| ==> failures[j] < n && items[failures[j]].body == None)
    && (forall i, j :: 0 <= i < j < |failures| ==> failures[i] < failures[j])
    && (forall i :: 0 <= i < n ==> if items[i].body == None then i in failures else exists j :: 0 <= j < |rendered| && rendered[j].index == i)
  }

  method RenderAll(items: seq<Item>) returns (rendered: seq<Rendered>, failures: seq<nat>)
    ensures Divided(items, |items|, rendered, failures) && |rendered| + |failures| == |items|
  {
    rendered, failures := [], [];
    var i := 0;
    while i < |items|
      invariant 0 <= i <= |items| && Divided(items, i, rendered, failures)
    {
      match items[i].body {
        case Some(content) =>
          ghost var before := rendered;
          rendered := rendered + [Rendered(i, content, items[i].kind)];
          assert rendered[|before|].index == i && forall j :: 0 <= j < |before| ==> rendered[j] == before[j];
        case None =>
          failures := failures + [i];
      }
      i := i + 1;
    }
  }

  /** The account of one batch: what became of each chunk, and the events in accepted and in buried ones. */
  datatype Account = Account(sent: seq<bool>, acceptedEvents: nat, buriedEvents: nat)

  ghost function Texts(entries: seq<DiscordSend.DlqEntry>): seq<DiscordSend.Message> {
    seq(|entries|, i requires 0 <= i < |entries| => entries[i].message)
  }

  function MessageOf(c: Chunk): DiscordSend.Message { DiscordSend.Message(BATCHED, c.content) }

  /** The messages of the first `m` chunks that were not accepted. */
  ghost function Lost(chunks: seq<Chunk>, sent: seq<bool>, m: nat): seq<DiscordSend.Message>
    requires m <= |sent| && m <= |chunks|
  {
    if m == 0 then [] else Lost(chunks, sent, m - 1) + (if sent[m - 1] then [] else [MessageOf(chunks[m - 1])])
  }

  /** The events in those of the first `m` chunks whose sending came out as `outcome`. */
  ghost function Events(chunks: seq<Chunk>, sent: seq<bool>, m: nat, outcome: bool): nat
    requires m <= |sent| && m <= |chunks|
  {
    if m == 0 then 0 else Events(chunks, sent, m - 1, outcome) + (if sent[m - 1] == outcome then chunks[m - 1].eventCount else 0)
  }

  lemma {:induction false} LostOfPrefix(chunks: seq<Chunk>, sent: seq<bool>, ok: bool, m: nat)
    requires m <= |sent| && m <= |chunks|
    ensures Lost(chunks, sent + [ok], m) == Lost(chunks, sent, m)
    ensures Events(chunks, sent + [ok], m, true) == Events(chunks, sent, m, true)
    ensures Events(chunks, sent + [ok], m, false) == Events(chunks, sent, m, false)
  {
    if m > 0 { LostOfPrefix(chunks, sent, ok, m - 1); }
  }

  lemma LostOneMore(chunks: seq<Chunk>, sent: seq<bool>, ok: bool, before: seq<DiscordSend.Message>, dlq: seq<DiscordSend.Message>)
    requires |sent| < |chunks| && dlq == before + Lost(chunks, sent, |sent|)
    ensures dlq + (if ok then [] else [MessageOf(chunks[|sent|])]) == before + Lost(chunks, sent + [ok], |sent| + 1)
  {
    LostOfPrefix(chunks, sent, ok, |sent|);
    var lost, more := Lost(chunks, sent, |sent|), if ok then [] else [MessageOf(chunks[|sent|])];
    assert (before + lost) + more == before + (lost + more);
  }

  lemma EventsOneMore(chunks: seq<Chunk>, sent: seq<bool>, ok: bool)
    requires |sent| < |chunks|
    ensures forall o :: Events(chunks, sent + [ok], |sent| + 1, o) ==
              Events(chunks, sent, |sent|, o) + (if ok == o then chunks[|sent|].eventCount else 0)
    ensures Total(chunks[..|sent| + 1]) == Total(chunks[..|sent|]) + chunks[|sent|].eventCount
  {
    LostOfPrefix(chunks, sent, ok, |sent|);
    assert chunks[..|sent| + 1][..|sent|] == chunks[..|sent|];
  }

  lemma NothingYet(chunks: seq<Chunk>)
    ensures Lost(chunks, [], 0) == [] && Total([]) == 0 && forall o :: Events(chunks, [], 0, o) == 0
  {
  }

  /** One chunk: accepted, or one dead letter with its text. */
  method SendChunk(client: DiscordSend.DiscordClient, target: DiscordSend.Target, chunk: Chunk,
                   tries: seq<DiscordSend.Try>, at: nat) returns (ok: bool)
    requires target.IsDiscord() && |tries| == DiscordSend.MAX_ATTEMPTS
    modifies client
    ensures Texts(client.dlq) == Texts(old(client.dlq)) + (if ok then [] else [MessageOf(chunk)])
    ensures client.posts <= old(client.posts) + DiscordSend.MAX_ATTEMPTS
  {
    hide DiscordSend.EndsAt, DiscordSend.Through;
    ghost var n;
    ok, n := client.Send(target, MessageOf(chunk), at, tries);
  }

  /** With the sink present every item of the batch is accounted for: it is in exactly one chunk or is one render
      failure, every chunk is sent once, and the new dead letters are exactly the chunks that were not accepted. */
  method SendBatch(client: DiscordSend.DiscordClient, target: DiscordSend.Target, items: seq<Item>,
                   replies: nat -> seq<DiscordSend.Try>, clock: nat -> nat)
    returns (account: Account, rendered: seq<Rendered>, failures: seq<nat>, chunks: seq<Chunk>, ghost ends: seq<nat>)
    requires target.IsDiscord() && forall i :: |replies(i)| == DiscordSend.MAX_ATTEMPTS
    modifies client
    ensures Divided(items, |items|, rendered, failures) && Sends(chunks, rendered, ends)
    ensures |account.sent| == |chunks|
    ensures account.acceptedEvents == Events(chunks, account.sent, |chunks|, true)
    ensures account.buriedEvents == Events(chunks, account.sent, |chunks|, false)
    ensures account.acceptedEvents + account.buriedEvents + |failures| == |items|
    ensures Texts(client.dlq) == Texts(old(client.dlq)) + Lost(chunks, account.sent, |chunks|)
    ensures client.posts <= old(client.posts) + DiscordSend.MAX_ATTEMPTS * |chunks|
  {
    hide Sends, ValidSplit, Divided, Texts, MessageOf, Lost, Total, Events, AllKinds, Kinds;
    rendered, failures := RenderAll(items);
    chunks, ends := SplitIntoChunks(rendered);
    NothingYet(chunks);
    var sent: seq<bool>, accepted: nat, buried: nat := [], 0, 0;
    while |sent| < |chunks|
      invariant |sent| <= |chunks|
      invariant accepted + buried == Total(chunks[..|sent|])
      invariant accepted == Events(chunks, sent, |sent|, true) && buried == Events(chunks, sent, |sent|, false)
      invariant Texts(client.dlq) == Texts(old(client.dlq)) + Lost(chunks, sent, |sent|)
      invariant client.posts <= old(client.posts) + DiscordSend.MAX_ATTEMPTS * |sent|
    {
      var m := |sent|;
      ghost var dlq := Texts(client.dlq);
      var ok := SendChunk(client, target, chunks[m], replies(m), clock(m));
      LostOneMore(chunks, sent, ok, Texts(old(client.dlq)), dlq);
      EventsOneMore(chunks, sent, ok);
      if ok {
        accepted := accepted + chunks[m].eventCount;
      } else {
        buried := buried + chunks[m].eventCount;
      }
      sent := sent + [ok];
    }
    assert chunks[..|chunks|] == chunks;
    account := Account(sent, accepted, buried);
  }
}
