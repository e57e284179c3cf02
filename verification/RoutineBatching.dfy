/** `RoutineDeliveryBatcher` of src/dispatch.rs: deliveries with one batch key wait together in a
    window that opens with the first of them.

    The batcher keeps a map of pending batches beside a timer wheel, and never cancels a timer: each
    delivery bumps its batch's version and schedules a new entry, and an entry whose version is not the
    current one is ignored.  Read without timers, the map is a plain window queue: `Joined` queues a
    delivery, `Due` and `NotDue` split the queue by time alone.  The class is proved to behave as that
    queue call by call, and `Drive` over whole runs; the lemmas in RoutineRuns.dfy say what a run of the
    queue delivers, and when. */
module RoutineBatching {
  import opened TimerWheel
  import opened BatchTimers

  /** A delivery with its batch key; deliveries are batched together iff their keys are equal. */
  datatype Queued<D> = Queued(key: string, body: D)

  datatype PendingBatch<D> = PendingBatch(items: seq<Queued<D>>, deliverAtMs: nat, version: nat)
  datatype FlushedBatch<D> = FlushedBatch(items: seq<Queued<D>>)

  // ---- The plain window queue ----

  type WindowQueue<D> = map<string, PendingBatch<D>>

  ghost predicate KeyedItems<D>(k: string, items: seq<Queued<D>>) {
    items != [] && forall i :: 0 <= i < |items| ==> items[i].key == k
  }

  ghost predicate WellFormed<D>(q: WindowQueue<D>) {
    forall k :: k in q ==> KeyedItems(k, q[k].items)
  }

  /** `d` joins the window of its key, or opens one. */
  function Joined<D>(q: WindowQueue<D>, window: nat, d: Queued<D>, now: nat): WindowQueue<D> {
    var b := if d.key in q then q[d.key] else PendingBatch([], now + window, 0);
    q[d.key := PendingBatch(b.items + [d], b.deliverAtMs, b.version + 1)]
  }

  ghost function JoinedAll<D>(q: WindowQueue<D>, window: nat, ds: seq<Queued<D>>, now: nat): WindowQueue<D> {
    if ds == [] then q else Joined(JoinedAll(q, window, ds[..|ds| - 1], now), window, ds[|ds| - 1], now)
  }

  ghost function Due<D>(q: WindowQueue<D>, now: nat): WindowQueue<D> {
    map k | k in q && q[k].deliverAtMs <= now :: q[k]
  }

  ghost function NotDue<D>(q: WindowQueue<D>, now: nat): WindowQueue<D> {
    map k | k in q && now < q[k].deliverAtMs :: q[k]
  }

  /** The flushed batches are the windows of `due`, each once, with all its items in order. */
  ghost predicate Delivers<D>(batches: seq<FlushedBatch<D>>, due: WindowQueue<D>) {
    if batches == [] then due == map[]
    else
      var items := batches[|batches| - 1].items;
      items != [] && items[0].key in due && items == due[items[0].key].items
      && Delivers(batches[..|batches| - 1], due - {items[0].key})
  }

  /** One pass of the dispatcher's loop: flush what is due, then queue the arrivals (none on a tick). */
  datatype Turn<D> = Turn(nowMs: nat, arrivals: seq<Queued<D>>)

  ghost function AfterTurn<D>(q: WindowQueue<D>, window: nat, turn: Turn<D>): WindowQueue<D> {
    JoinedAll(NotDue(q, turn.nowMs), window, turn.arrivals, turn.nowMs)
  }

  ghost function After<D>(q: WindowQueue<D>, window: nat, turns: seq<Turn<D>>): WindowQueue<D> {
    if turns == [] then q else AfterTurn(After(q, window, turns[..|turns| - 1]), window, turns[|turns| - 1])
  }

  /** What turn `i` flushes. */
  ghost function FlushedAt<D>(q: WindowQueue<D>, window: nat, turns: seq<Turn<D>>, i: nat): WindowQueue<D>
    requires i < |turns|
  {
    Due(After(q, window, turns[..i]), turns[i].nowMs)
  }

  // ---- Timers against the queue ----

  /** The timer entry of a batch's latest delivery. */
  ghost function Timer<D>(k: string, b: PendingBatch<D>): TimerEntry {
    DelayedEntry(b.deliverAtMs, ScheduledBatchKey(k, b.version))
  }

  ghost predicate Belongs<D>(e: TimerEntry, q: WindowQueue<D>) {
    e.record.key in q && e.deliverAtMs == q[e.record.key].deliverAtMs
  }

  /** Every batch has its latest timer in the wheel; every timer in the wheel belongs to a pending batch,
      carries that batch's time, and is not behind the clock. */
  ghost predicate Armed<D>(q: WindowQueue<D>, timers: multiset<TimerEntry>, clock: nat) {
    && WellFormed(q)
    && (forall k {:trigger Timer(k, q[k])} :: k in q ==> Timer(k, q[k]) in timers)
    && (forall e :: e in timers ==> Belongs(e, q) && clock <= e.deliverAtMs)
  }

  lemma ArmedAfterObserve<D>(q: WindowQueue<D>, timers: multiset<TimerEntry>, clock: nat, window: nat, d: Queued<D>, now: nat)
    requires Armed(q, timers, clock) && clock <= now
    ensures var q' := Joined(q, window, d, now); Armed(q', timers + multiset{Timer(d.key, q'[d.key])}, clock)
  {
    var q' := Joined(q, window, d, now);
    if d.key in q { assert Timer(d.key, q[d.key]) in timers; }
    forall k | k in q' ensures KeyedItems(k, q'[k].items) {
      assert k in q ==> KeyedItems(k, q[k].items);
    }
    forall k | k in q' ensures Timer(k, q'[k]) in timers + multiset{Timer(d.key, q'[d.key])} {
      assert k in q ==> Timer(k, q[k]) in timers;
    }
  }

  /** What a tick took: timers of pending batches, among them the latest timer of every due one. */
  ghost predicate Fires<D>(entries: seq<TimerEntry>, q: WindowQueue<D>, now: nat) {
    && (forall e :: e in entries ==> Belongs(e, q) && e.deliverAtMs <= now)
    && (forall k {:trigger Timer(k, q[k])} :: k in q && q[k].deliverAtMs <= now ==> Timer(k, q[k]) in entries)
  }

  lemma ArmedAfterTick<D>(q: WindowQueue<D>, timers: multiset<TimerEntry>, entries: seq<TimerEntry>, timers': multiset<TimerEntry>,
                          clock: nat, now: nat)
    requires Armed(q, timers, clock) && multiset(entries) + timers' == timers
    requires forall e :: e in entries ==> e.deliverAtMs <= now
    requires forall e :: e in timers' ==> now < e.deliverAtMs || e.deliverAtMs < clock
    ensures Fires(entries, q, now) && Armed(NotDue(q, now), timers', now)
  {
    forall e | e in entries ensures Belongs(e, q) { assert e in timers; }
    forall e | e in timers' ensures Belongs(e, NotDue(q, now)) && now <= e.deliverAtMs { assert e in timers; }
    forall k | k in q ensures Timer(k, q[k]) in entries || (Timer(k, q[k]) in timers' && now < q[k].deliverAtMs) {
      assert Timer(k, q[k]) in timers;
    }
  }

  // ---- The batcher ----

  /** Once every timer that fired was looked at, what was flushed is what was due. */
  lemma SplitByTime<D>(q: WindowQueue<D>, left: WindowQueue<D>, flushed: WindowQueue<D>, entries: seq<TimerEntry>, now: nat)
    requires Fires(entries, q, now) && left.Keys !! flushed.Keys && left + flushed == q
    requires forall k :: k in flushed ==> flushed[k].deliverAtMs <= now
    requires forall k {:trigger Timer(k, q[k])} :: k in left ==> Timer(k, q[k]) !in entries
    ensures left == NotDue(q, now) && flushed == Due(q, now)
  {
    forall k | k in q ensures k in left <==> now < q[k].deliverAtMs {
      assert k in flushed || k in left;
      if q[k].deliverAtMs <= now { assert Timer(k, q[k]) in entries; }
    }
  }

  class RoutineDeliveryBatcher<D> {
    var pending: WindowQueue<D>
    const timerWheel: Wheel<ScheduledBatchKey>
    const window: nat

    ghost predicate Valid()
      reads this, timerWheel
    {
      timerWheel.Valid() && Armed(pending, timerWheel.Contents(), timerWheel.currentMs)
    }

    constructor (window: nat, now: nat)
      ensures Valid() && pending == map[] && this.window == window
      ensures fresh(timerWheel) && timerWheel.currentMs == now
    {
      pending := map[];
      timerWheel := new Wheel(now);
      this.window := window;
    }

    /** The dispatcher flushes at `now` before it queues anything, so the wheel's clock is not ahead. */
    method Observe(delivery: Queued<D>, now: nat)
      requires Valid() && timerWheel.currentMs <= now
      modifies this, timerWheel
      ensures Valid() && timerWheel.currentMs == old(timerWheel.currentMs)
      ensures pending == Joined(old(pending), window, delivery, now)
    {
      hide Wheel.Valid, Wheel.Contents, Armed;
      ArmedAfterObserve(pending, timerWheel.Contents(), timerWheel.currentMs, window, delivery, now);
      var key := delivery.key;
      var batch := if key in pending then pending[key] else PendingBatch([], now + window, 0);
      batch := batch.(items := batch.items + [delivery], version := batch.version + 1);
      pending := pending[key := batch];
      timerWheel.Schedule(DelayedEntry(batch.deliverAtMs, ScheduledBatchKey(key, batch.version)));
    }

    /** Flushes the batches whose current version is among the entries; stale entries are passed over. */
    method FlushCurrent(entries: seq<TimerEntry>, ghost now: nat) returns (batches: seq<FlushedBatch<D>>)
      requires WellFormed(pending) && Fires(entries, pending, now)
      modifies this
      ensures pending == NotDue(old(pending), now)
      ensures Delivers(batches, Due(old(pending), now))
    {
      batches := [];
      var n := 0;
      ghost var flushed: WindowQueue<D> := map[];
      while n < |entries|
        invariant 0 <= n <= |entries|
        invariant pending.Keys !! flushed.Keys && pending + flushed == old(pending)
        invariant forall k :: k in flushed ==> flushed[k].deliverAtMs <= now
        invariant forall k {:trigger Timer(k, old(pending)[k])} :: k in pending ==> Timer(k, old(pending)[k]) !in entries[..n]
        invariant Delivers(batches, flushed)
      {
        var scheduled := entries[n].record;
        assert Belongs(entries[n], old(pending)) && entries[..n + 1] == entries[..n] + [entries[n]];
        if scheduled.key in pending && pending[scheduled.key].version == scheduled.version {
          var batch := pending[scheduled.key];
          assert KeyedItems(scheduled.key, old(pending)[scheduled.key].items);
          batches := batches + [FlushedBatch(batch.items)];
          assert flushed[scheduled.key := batch] - {scheduled.key} == flushed;
          pending := pending - {scheduled.key};
          flushed := flushed[scheduled.key := batch];
        }
        n := n + 1;
      }
      assert entries[..n] == entries;
      SplitByTime(old(pending), pending, flushed, entries, now);
    }

    method FlushDue(now: nat) returns (batches: seq<FlushedBatch<D>>)
      requires Valid()
      modifies this, timerWheel
      ensures Valid() && timerWheel.currentMs == now
      ensures pending == NotDue(old(pending), now)
      ensures Delivers(batches, Due(old(pending), now))
    {
      ghost var q, timers, clock := pending, timerWheel.Contents(), timerWheel.currentMs;
      var entries := timerWheel.Tick(now);
      hide Wheel.Valid, Wheel.Contents, NotDue, Due, Delivers, Fires;
      ArmedAfterTick(q, timers, entries, timerWheel.Contents(), clock, now);
      batches := FlushCurrent(entries, now);
    }

    method ObserveAll(ds: seq<Queued<D>>, now: nat)
      requires Valid() && timerWheel.currentMs <= now
      modifies this, timerWheel
      ensures Valid() && timerWheel.currentMs == old(timerWheel.currentMs)
      ensures pending == JoinedAll(old(pending), window, ds, now)
    {
      hide Valid, Joined;
      var m := 0;
      while m < |ds|
        invariant 0 <= m <= |ds|
        invariant Valid() && timerWheel.currentMs == old(timerWheel.currentMs)
        invariant pending == JoinedAll(old(pending), window, ds[..m], now)
      {
        Observe(ds[m], now);
        assert ds[..m + 1][..m] == ds[..m];
        m := m + 1;
      }
      assert ds[..m] == ds;
    }

    /** The dispatcher's loop over a whole history; the clock may jump either way. */
    method Drive(turns: seq<Turn<D>>) returns (flushed: seq<seq<FlushedBatch<D>>>)
      requires Valid()
      modifies this, timerWheel
      ensures Valid()
      ensures pending == After(old(pending), window, turns)
      ensures |flushed| == |turns|
      ensures forall i :: 0 <= i < |turns| ==> Delivers(flushed[i], FlushedAt(old(pending), window, turns, i))
    {
      hide Valid, NotDue, Due, Delivers, JoinedAll;
      flushed := [];
      var n := 0;
      while n < |turns|
        invariant 0 <= n <= |turns|
        invariant Valid() && |flushed| == n
        invariant pending == After(old(pending), window, turns[..n])
        invariant forall i :: 0 <= i < n ==> Delivers(flushed[i], FlushedAt(old(pending), window, turns, i))
      {
        var batches := FlushDue(turns[n].nowMs);
        flushed := flushed + [batches];
        ObserveAll(turns[n].arrivals, turns[n].nowMs);
        assert turns[..n + 1][..n] == turns[..n];
        n := n + 1;
      }
      assert turns[..n] == turns;
    }
  }
}
