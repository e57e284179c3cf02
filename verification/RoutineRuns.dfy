/** What a whole run of the routine batcher delivers, and when: every turn sequence, from any queue. */
module RoutineRuns {
  import opened RoutineBatching

  ghost function OfKey<D>(ds: seq<Queued<D>>, k: string): seq<Queued<D>> {
    if ds == [] then []
    else OfKey(ds[..|ds| - 1], k) + (if ds[|ds| - 1].key == k then [ds[|ds| - 1]] else [])
  }

  /** The deliveries of one key that arrive over the turns, in order. */
  ghost function Arrived<D>(turns: seq<Turn<D>>, k: string): seq<Queued<D>> {
    if turns == [] then [] else Arrived(turns[..|turns| - 1], k) + OfKey(turns[|turns| - 1].arrivals, k)
  }

  ghost function Waiting<D>(q: WindowQueue<D>, k: string): seq<Queued<D>> {
    if k in q then q[k].items else []
  }

  /** The deliveries of one key that the turns flush, in order. */
  ghost function Flushed<D>(q: WindowQueue<D>, window: nat, turns: seq<Turn<D>>, k: string): seq<Queued<D>> {
    if turns == [] then []
    else
      var n := |turns| - 1;
      Flushed(q, window, turns[..n], k) + Waiting(FlushedAt(q, window, turns, n), k)
  }

  /** Joining appends to the window of its own key, which keeps its time or opens at `now`. */
  lemma {:induction false} JoinedAllKey<D>(q: WindowQueue<D>, window: nat, ds: seq<Queued<D>>, now: nat, k: string)
    ensures var q' := JoinedAll(q, window, ds, now);
      && Waiting(q', k) == Waiting(q, k) + OfKey(ds, k)
      && (k in q' <==> k in q || OfKey(ds, k) != [])
      && (k in q' ==> q'[k].deliverAtMs == if k in q then q[k].deliverAtMs else now + window)
  {
    if ds != [] {
      var n := |ds| - 1;
      JoinedAllKey(q, window, ds[..n], now, k);
      assert Waiting(q, k) + OfKey(ds, k) == (Waiting(q, k) + OfKey(ds[..n], k)) + (if ds[n].key == k then [ds[n]] else []);
    }
  }

  /** One turn, seen by one key: a due window leaves whole, another stays; arrivals join at the end. */
  lemma TurnKey<D>(q: WindowQueue<D>, window: nat, turn: Turn<D>, k: string)
    ensures var q', now := AfterTurn(q, window, turn), turn.nowMs;
      var kept := k in q && now < q[k].deliverAtMs;
      && Waiting(Due(q, now), k) + Waiting(q', k) == Waiting(q, k) + OfKey(turn.arrivals, k)
      && Waiting(Due(q, now), k) == (if kept then [] else Waiting(q, k))
      && Waiting(q', k) == (if kept then Waiting(q, k) else []) + OfKey(turn.arrivals, k)
      && (k in q' <==> kept || OfKey(turn.arrivals, k) != [])
      && (k in q' ==> q'[k].deliverAtMs == if kept then q[k].deliverAtMs else now + window)
  {
    hide JoinedAll, OfKey;
    var now := turn.nowMs;
    DueKey(q, now, k);
    JoinedAllKey(NotDue(q, now), window, turn.arrivals, now, k);
    hide Due, NotDue;
    assert Waiting(q, k) + [] == Waiting(q, k);
  }

  lemma DueKey<D>(q: WindowQueue<D>, now: nat, k: string)
    ensures var kept := k in q && now < q[k].deliverAtMs;
      && Waiting(Due(q, now), k) == (if kept then [] else Waiting(q, k))
      && Waiting(NotDue(q, now), k) == (if kept then Waiting(q, k) else [])
      && (k in NotDue(q, now) <==> kept) && (kept ==> NotDue(q, now)[k] == q[k])
  {
  }

  lemma Splice<T>(flushed: seq<T>, due: seq<T>, after: seq<T>, before: seq<T>, start: seq<T>, earlier: seq<T>, arrived: seq<T>)
    requires flushed + before == start + earlier && due + after == before + arrived
    ensures (flushed + due) + after == start + (earlier + arrived)
  {
    calc {
      (flushed + due) + after;
      flushed + (due + after);
      (flushed + before) + arrived;
      start + (earlier + arrived);
    }
  }

  /** Nothing is lost, duplicated or reordered within a key: what was flushed, followed by what still
      waits, is what waited at the start followed by what arrived. */
  lemma {:induction false} EachDeliveryFlushedOnceInOrder<D>(q: WindowQueue<D>, window: nat, turns: seq<Turn<D>>, k: string)
    ensures Flushed(q, window, turns, k) + Waiting(After(q, window, turns), k) == Waiting(q, k) + Arrived(turns, k)
  {
    hide AfterTurn, Waiting, Due, OfKey;
    if turns == [] {
      assert [] + Waiting(q, k) == Waiting(q, k) + [];
    } else {
      var n := |turns| - 1;
      var before, turn := After(q, window, turns[..n]), turns[n];
      EachDeliveryFlushedOnceInOrder(q, window, turns[..n], k);
      TurnKey(before, window, turn, k);
      Splice(Flushed(q, window, turns[..n], k), Waiting(FlushedAt(q, window, turns, n), k), Waiting(After(q, window, turns), k),
             Waiting(before, k), Waiting(q, k), Arrived(turns[..n], k), OfKey(turn.arrivals, k));
    }
  }

  /** Deliveries of a key that arrive at turn `i`, when none is waiting, are held together with all that
      follow until the first turn at or after `turns[i].nowMs + window`, and are all flushed in that turn:
      exactly the arrivals since turn `i`, never earlier and never later. */
  lemma {:induction false} FlushedAtFirstTurnAfterWindow<D>(q: WindowQueue<D>, window: nat, turns: seq<Turn<D>>, k: string, i: nat, m: nat)
    requires i < m <= |turns|
    requires k !in NotDue(After(q, window, turns[..i]), turns[i].nowMs) && OfKey(turns[i].arrivals, k) != []
    requires forall j :: i < j < m ==> turns[j].nowMs < turns[i].nowMs + window
    ensures forall j :: i < j < m ==> k !in FlushedAt(q, window, turns, j)
    ensures var held := After(q, window, turns[..m]);
            k in held && held[k].deliverAtMs == turns[i].nowMs + window && held[k].items == Arrived(turns[i..m], k)
    ensures m < |turns| && turns[i].nowMs + window <= turns[m].nowMs ==>
              k in FlushedAt(q, window, turns, m) && FlushedAt(q, window, turns, m)[k].items == Arrived(turns[i..m], k)
    decreases m
  {
    hide AfterTurn, OfKey, After;
    var last := turns[m - 1];
    var before := After(q, window, turns[..m - 1]);
    LastTurn(q, window, turns, m);
    TurnKey(before, window, last, k);
    ArrivedLast(turns, i, m, k);
    hide Arrived;
    if m > i + 1 {
      FlushedAtFirstTurnAfterWindow(q, window, turns, k, i, m - 1);
    }
  }

  lemma LastTurn<D>(q: WindowQueue<D>, window: nat, turns: seq<Turn<D>>, m: nat)
    requires 0 < m <= |turns|
    ensures After(q, window, turns[..m]) == AfterTurn(After(q, window, turns[..m - 1]), window, turns[m - 1])
  {
    hide AfterTurn;
    assert turns[..m][..m - 1] == turns[..m - 1];
  }

  lemma ArrivedLast<D>(turns: seq<Turn<D>>, i: nat, m: nat, k: string)
    requires i < m <= |turns|
    ensures Arrived(turns[i..m], k) == Arrived(turns[i..m - 1], k) + OfKey(turns[m - 1].arrivals, k)
    ensures i == m - 1 ==> Arrived(turns[i..m], k) == OfKey(turns[m - 1].arrivals, k)
  {
    hide OfKey;
    assert turns[i..m][..m - 1 - i] == turns[i..m - 1];
    assert i == m - 1 ==> [] + OfKey(turns[m - 1].arrivals, k) == OfKey(turns[m - 1].arrivals, k);
  }
}
