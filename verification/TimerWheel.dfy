/** The four-level timer wheel of src/core/timer_wheel.rs.

    A wheel is four rows of slots (seconds, minutes, hours, days).  An entry is filed in the row its
    delay falls in, and `Tick` sweeps, row by row, the slots between the wheel's clock and the new
    time.  The claim proved here is that this is a faithful timer queue: nothing is lost or made up,
    nothing leaves before its time, and an entry that was not already in the past when the clock last
    moved leaves in the first tick at or after its time. */
module TimerWheel {

  datatype DelayedEntry<R> = DelayedEntry(deliverAtMs: nat, record: R)

  type Slot<R> = seq<DelayedEntry<R>>
  type Row<R> = seq<Slot<R>>

  const SECONDS := 0
  const LEVELS := 4

  function SlotCount(level: nat): nat {
    if level == 0 then 60 else if level == 1 then 60 else if level == 2 then 24 else 365
  }

  /** The number of whole seconds, minutes, hours or days in `ms`. */
  function Units(level: nat, ms: nat): nat {
    if level == 0 then ms / 1_000
    else if level == 1 then ms / 60_000
    else if level == 2 then ms / 3_600_000
    else ms / 86_400_000
  }

  /** The row that `schedule` picks for a delay. */
  function LevelFor(delta: nat): (level: nat)
    ensures level < LEVELS
  {
    if delta < 60_000 then 0 else if delta < 3_600_000 then 1 else if delta < 86_400_000 then 2 else 3
  }

  function UnitSlot(level: nat, unit: nat): (slot: nat)
    ensures slot < SlotCount(level)
  {
    if level == 0 then unit % 60 else if level == 1 then unit % 60 else if level == 2 then unit % 24 else unit % 365
  }

  function SlotFor(level: nat, ms: nat): (slot: nat)
    ensures slot < SlotCount(level)
  {
    UnitSlot(level, Units(level, ms))
  }

  /** Slot `i` of a row is visited when the clock moves from `clock` to `now`. */
  ghost predicate Swept(level: nat, i: nat, clock: nat, now: nat) {
    exists u :: Units(level, clock) <= u <= Units(level, now) && UnitSlot(level, u) == i
  }

  /** What the clock passes over is visited. */
  lemma SweepReaches(level: nat, clock: nat, at: nat, now: nat)
    requires clock <= at <= now
    ensures Swept(level, SlotFor(level, at), clock, now)
  {
    assert Units(level, clock) <= Units(level, at) <= Units(level, now);
  }

  // ---- Bags of entries ----

  ghost function RowBag<R>(row: Row<R>): multiset<DelayedEntry<R>> {
    if row == [] then multiset{} else multiset(row[0]) + RowBag(row[1..])
  }

  ghost function WheelBag<R>(rows: seq<Row<R>>): multiset<DelayedEntry<R>> {
    if rows == [] then multiset{} else RowBag(rows[0]) + WheelBag(rows[1..])
  }

  lemma {:induction false} RowBagUpdate<R>(row: Row<R>, i: nat, slot: Slot<R>)
    requires i < |row|
    ensures RowBag(row[i := slot]) + multiset(row[i]) == RowBag(row) + multiset(slot)
  {
    var row' := row[i := slot];
    if i == 0 {
      assert row'[1..] == row[1..];
    } else {
      RowBagUpdate(row[1..], i - 1, slot);
      assert row'[1..] == row[1..][i - 1 := slot];
      var rest, rest' := RowBag(row[1..]), RowBag(row'[1..]);
      assert RowBag(row') + multiset(row[i]) == multiset(row[0]) + (rest' + multiset(row[i]));
      assert RowBag(row) + multiset(slot) == multiset(row[0]) + (rest + multiset(slot));
    }
  }

  /** Replacing one slot trades its old entries for the new ones in the whole wheel. */
  lemma {:induction false} WheelBagUpdate<R>(rows: seq<Row<R>>, l: nat, i: nat, slot: Slot<R>)
    requires l < |rows| && i < |rows[l]|
    ensures WheelBag(rows[l := rows[l][i := slot]]) + multiset(rows[l][i]) == WheelBag(rows) + multiset(slot)
  {
    var rows' := rows[l := rows[l][i := slot]];
    if l == 0 {
      RowBagUpdate(rows[0], i, slot);
      assert rows'[1..] == rows[1..];
      assert WheelBag(rows') + multiset(rows[0][i]) == (RowBag(rows'[0]) + multiset(rows[0][i])) + WheelBag(rows[1..]);
    } else {
      WheelBagUpdate(rows[1..], l - 1, i, slot);
      assert rows'[1..] == rows[1..][l - 1 := rows[1..][l - 1][i := slot]];
      assert WheelBag(rows') + multiset(rows[l][i]) == RowBag(rows[0]) + (WheelBag(rows'[1..]) + multiset(rows[l][i]));
      assert WheelBag(rows) + multiset(slot) == RowBag(rows[0]) + (WheelBag(rows[1..]) + multiset(slot));
    }
  }

  lemma {:induction false} WheelBagMember<R>(rows: seq<Row<R>>, e: DelayedEntry<R>) returns (l: nat, i: nat)
    requires e in WheelBag(rows)
    ensures l < |rows| && i < |rows[l]| && e in rows[l][i]
  {
    if e in RowBag(rows[0]) {
      RowBagMember(rows[0], e);
      l, i :| l == 0 && 0 <= i < |rows[0]| && e in rows[0][i];
    } else {
      l, i := WheelBagMember(rows[1..], e);
      l := l + 1;
    }
  }

  lemma {:induction false} RowBagMember<R>(row: Row<R>, e: DelayedEntry<R>)
    requires e in RowBag(row)
    ensures exists i :: 0 <= i < |row| && e in row[i]
  {
    if e in row[0] {
    } else {
      RowBagMember(row[1..], e);
      var i :| 0 <= i < |row[1..]| && e in row[1..][i];
      assert e in row[i + 1];
    }
  }

  lemma {:induction false} RowBagHolds<R>(row: Row<R>, i: nat, e: DelayedEntry<R>)
    requires i < |row| && e in row[i]
    ensures e in RowBag(row)
  {
    if i > 0 { RowBagHolds(row[1..], i - 1, e); }
  }

  lemma {:induction false} WheelBagHolds<R>(rows: seq<Row<R>>, l: nat, i: nat, e: DelayedEntry<R>)
    requires l < |rows| && i < |rows[l]| && e in rows[l][i]
    ensures e in WheelBag(rows)
  {
    if l > 0 { WheelBagHolds(rows[1..], l - 1, i, e); } else { RowBagHolds(rows[0], i, e); }
  }

  lemma {:induction false} EmptyRowBag<R>(row: Row<R>)
    requires forall i :: 0 <= i < |row| ==> row[i] == []
    ensures RowBag(row) == multiset{}
  {
    if row != [] { EmptyRowBag(row[1..]); }
  }

  lemma {:induction false} EmptyWheelBag<R>(rows: seq<Row<R>>)
    requires forall l, i :: 0 <= l < |rows| && 0 <= i < |rows[l]| ==> rows[l][i] == []
    ensures WheelBag(rows) == multiset{}
  {
    if rows != [] { EmptyRowBag(rows[0]); EmptyWheelBag(rows[1..]); }
  }

  /** What has left, what is held and what is still in hand. */
  ghost function Total<R>(due: Slot<R>, held: multiset<DelayedEntry<R>>, rest: Slot<R>): multiset<DelayedEntry<R>> {
    multiset(due) + held + multiset(rest)
  }

  lemma SettleTotal<R>(entries: Slot<R>, k: nat, due: Slot<R>, due': Slot<R>, held: multiset<DelayedEntry<R>>,
                       held': multiset<DelayedEntry<R>>)
    requires k < |entries|
    requires (due' == due + [entries[k]] && held' == held) || (due' == due && held' == held + multiset{entries[k]})
    ensures Total(due', held', entries[k + 1..]) == Total(due, held, entries[k..])
  {
    assert entries[k..] == [entries[k]] + entries[k + 1..];
  }

  // ---- The wheel ----

  ghost predicate Filed<R>(level: nat, i: nat, slot: Slot<R>) {
    forall e :: e in slot ==> SlotFor(level, e.deliverAtMs) == i
  }

  /** A slot without an entry that is due at `now`. */
  ghost predicate Clean<R>(slot: Slot<R>, now: nat) {
    forall e :: e in slot ==> now < e.deliverAtMs
  }

  ghost predicate Keeps<R>(before: Slot<R>, after: Slot<R>) {
    forall e :: e in before ==> e in after
  }

  /** What is in `after` was in `before` or is not due. */
  ghost predicate NoNewDue<R>(before: Slot<R>, after: Slot<R>, now: nat) {
    forall e :: e in after ==> e in before || now < e.deliverAtMs
  }

  /** Entries were only added, and none of them is due. */
  ghost predicate Grown<R>(a: seq<Row<R>>, b: seq<Row<R>>, now: nat) {
    |a| == |b| && forall l :: 0 <= l < |a| ==>
      |a[l]| == |b[l]| && forall i :: 0 <= i < |a[l]| ==>
        Keeps(a[l][i], b[l][i]) && NoNewDue(a[l][i], b[l][i], now)
  }

  lemma GrownTransitive<R>(a: seq<Row<R>>, b: seq<Row<R>>, c: seq<Row<R>>, now: nat)
    requires Grown(a, b, now) && Grown(b, c, now)
    ensures Grown(a, c, now)
  {
  }

  lemma GrownByOne<R>(a: seq<Row<R>>, l: nat, i: nat, e: DelayedEntry<R>, now: nat)
    requires l < |a| && i < |a[l]| && now < e.deliverAtMs
    ensures Grown(a, a[l := a[l][i := a[l][i] + [e]]], now)
  {
  }

  ghost predicate Shaped<R>(rows: seq<Row<R>>) {
    |rows| == LEVELS && forall l :: 0 <= l < LEVELS ==> |rows[l]| == SlotCount(l)
  }

  /** The entry lies in a slot that the sweep does not visit. */
  ghost predicate Passed<R>(rows: seq<Row<R>>, e: DelayedEntry<R>, clock: nat, now: nat)
    requires Shaped(rows)
  {
    exists l, i :: 0 <= l < LEVELS && 0 <= i < SlotCount(l) && !Swept(l, i, clock, now) && e in rows[l][i]
  }

  /** A sweep leaves a due entry exactly in the slots that it does not visit. */
  lemma StaysIffPassed<R>(a: seq<Row<R>>, b: seq<Row<R>>, e: DelayedEntry<R>, clock: nat, now: nat)
    requires Shaped(a) && Shaped(b) && e.deliverAtMs <= now
    requires forall l, i :: 0 <= l < LEVELS && 0 <= i < SlotCount(l) ==>
               NoNewDue(a[l][i], b[l][i], now) && if Swept(l, i, clock, now) then Clean(b[l][i], now) else Keeps(a[l][i], b[l][i])
    ensures e in WheelBag(b) <==> Passed(a, e, clock, now)
  {
    hide Swept;
    if e in WheelBag(b) {
      var l, i := WheelBagMember(b, e);
      assert NoNewDue(a[l][i], b[l][i], now) && !Clean(b[l][i], now) && e in a[l][i];
    }
    if l, i :| 0 <= l < LEVELS && 0 <= i < SlotCount(l) && !Swept(l, i, clock, now) && e in a[l][i] {
      WheelBagHolds(b, l, i, e);
    }
  }

  class Wheel<R(==)> {
    var rows: seq<Row<R>>
    var currentMs: nat

    /** Every entry sits in the slot its own time selects, whichever row it is in. */
    ghost predicate Valid()
      reads this
    {
      && |rows| == LEVELS
      && (forall l :: 0 <= l < LEVELS ==> |rows[l]| == SlotCount(l))
      && (forall l, i :: 0 <= l < LEVELS && 0 <= i < SlotCount(l) ==> Filed(l, i, rows[l][i]))
    }

    ghost function Contents(): multiset<DelayedEntry<R>>
      reads this
      requires Valid()
    {
      WheelBag(rows)
    }

    /** No entry lies before the wheel's clock. */
    ghost predicate OnTime()
      reads this
      requires Valid()
    {
      forall e :: e in Contents() ==> currentMs <= e.deliverAtMs
    }

    constructor (now: nat)
      ensures Valid() && Contents() == multiset{} && currentMs == now
      ensures forall l, i :: 0 <= l < LEVELS && 0 <= i < SlotCount(l) ==> rows[l][i] == []
    {
      rows := [seq(60, _ => []), seq(60, _ => []), seq(24, _ => []), seq(365, _ => [])];
      currentMs := now;
      new;
      EmptyWheelBag(rows);
    }

    /** Replaces one slot; what the wheel holds changes by exactly that slot. */
    method SetSlot(level: nat, i: nat, slot: Slot<R>)
      requires Valid() && level < LEVELS && i < SlotCount(level) && Filed(level, i, slot)
      modifies this`rows
      ensures Valid()
      ensures rows == old(rows)[level := old(rows)[level][i := slot]]
      ensures Contents() + multiset(old(rows)[level][i]) == old(Contents()) + multiset(slot)
    {
      WheelBagUpdate(rows, level, i, slot);
      rows := rows[level := rows[level][i := slot]];
    }

    method Push(level: nat, e: DelayedEntry<R>)
      requires Valid() && level < LEVELS
      modifies this`rows
      ensures Valid()
      ensures Contents() == old(Contents()) + multiset{e}
      ensures var i := SlotFor(level, e.deliverAtMs);
              rows == old(rows)[level := old(rows)[level][i := old(rows)[level][i] + [e]]]
    {
      var i := SlotFor(level, e.deliverAtMs);
      ghost var slot, held := rows[level][i], Contents();
      SetSlot(level, i, rows[level][i] + [e]);
      assert Contents() + multiset(slot) == (held + multiset{e}) + multiset(slot);
      assert Contents() == (Contents() + multiset(slot)) - multiset(slot);
    }

    method Schedule(e: DelayedEntry<R>)
      requires Valid()
      modifies this`rows
      ensures Valid()
      ensures Contents() == old(Contents()) + multiset{e}
      ensures var l := LevelFor(if e.deliverAtMs < currentMs then 0 else e.deliverAtMs - currentMs);
              var i := SlotFor(l, e.deliverAtMs);
              rows == old(rows)[l := old(rows)[l][i := old(rows)[l][i] + [e]]]
    {
      var delta := if e.deliverAtMs < currentMs then 0 else e.deliverAtMs - currentMs;
      Push(LevelFor(delta), e);
    }

    /** Puts an entry that is not due back: in place in the seconds row, else through `Schedule`. */
    method Refile(level: nat, e: DelayedEntry<R>, now: nat)
      requires Valid() && level < LEVELS && now < e.deliverAtMs
      modifies this`rows
      ensures Valid()
      ensures Contents() == old(Contents()) + multiset{e}
      ensures Grown(old(rows), rows, now)
    {
      var l := if level == SECONDS then level else LevelFor(if e.deliverAtMs < currentMs then 0 else e.deliverAtMs - currentMs);
      GrownByOne(rows, l, SlotFor(l, e.deliverAtMs), e, now);
      if level == SECONDS {
        Push(level, e);
      } else {
        Schedule(e);
      }
    }

    /** One entry of a slot just taken either leaves or is put back. */
    method Settle(level: nat, entries: Slot<R>, k: nat, due: Slot<R>, now: nat) returns (due': Slot<R>)
      requires Valid() && level < LEVELS && k < |entries|
      requires forall e :: e in due ==> e.deliverAtMs <= now
      modifies this`rows
      ensures Valid()
      ensures Total(due', Contents(), entries[k + 1..]) == old(Total(due, Contents(), entries[k..]))
      ensures Grown(old(rows), rows, now) && forall e :: e in due' ==> e.deliverAtMs <= now
    {
      var e := entries[k];
      ghost var held := Contents();
      due' := due;
      if e.deliverAtMs <= now {
        due' := due + [e];
      } else {
        Refile(level, e, now);
      }
      SettleTotal(entries, k, due, due', held, Contents());
    }

    /** Splits a slot just taken into what is due and what is put back. */
    method Split(level: nat, entries: Slot<R>, now: nat) returns (due: Slot<R>)
      requires Valid() && level < LEVELS
      modifies this`rows
      ensures Valid()
      ensures multiset(due) + Contents() == old(Contents()) + multiset(entries)
      ensures Grown(old(rows), rows, now) && forall e :: e in due ==> e.deliverAtMs <= now
    {
      due := [];
      var k := 0;
      assert entries[0..] == entries;
      while k < |entries|
        invariant 0 <= k <= |entries|
        invariant Valid()
        invariant Total(due, Contents(), entries[k..]) == Total([], old(Contents()), entries)
        invariant Grown(old(rows), rows, now) && forall e :: e in due ==> e.deliverAtMs <= now
      {
        ghost var before := rows;
        due := Settle(level, entries, k, due, now);
        GrownTransitive(old(rows), before, rows, now);
        k := k + 1;
      }
      assert Total(due, Contents(), []) == multiset(due) + Contents();
      assert Total([], old(Contents()), entries) == old(Contents()) + multiset(entries);
    }

    /** Takes one slot and puts back what is not due. */
    method DrainSlot(level: nat, slot: nat, now: nat) returns (due: Slot<R>)
      requires Valid() && level < LEVELS && slot < SlotCount(level)
      modifies this`rows
      ensures Valid()
      ensures multiset(due) + Contents() == old(Contents())
      ensures Clean(rows[level][slot], now) && forall e :: e in due ==> e.deliverAtMs <= now
      ensures forall l, i :: 0 <= l < LEVELS && 0 <= i < SlotCount(l) ==> NoNewDue(old(rows)[l][i], rows[l][i], now)
      ensures forall l, i :: 0 <= l < LEVELS && 0 <= i < SlotCount(l) && (l, i) != (level, slot) ==> Keeps(old(rows)[l][i], rows[l][i])
    {
      var entries := rows[level][slot];
      SetSlot(level, slot, []);
      due := Split(level, entries, now);
    }

    /** One of `drain_seconds`, `drain_minutes`, `drain_hours`, `drain_days`. */
    method DrainRow(level: nat, now: nat) returns (due: Slot<R>)
      requires Valid() && level < LEVELS
      modifies this`rows
      ensures Valid()
      ensures multiset(due) + Contents() == old(Contents())
      ensures forall e :: e in due ==> e.deliverAtMs <= now
      ensures forall i :: 0 <= i < SlotCount(level) && Swept(level, i, currentMs, now) ==> Clean(rows[level][i], now)
      ensures forall l, i :: 0 <= l < LEVELS && 0 <= i < SlotCount(l) ==> NoNewDue(old(rows)[l][i], rows[l][i], now)
      ensures forall l, i :: 0 <= l < LEVELS && 0 <= i < SlotCount(l) && (l != level || !Swept(l, i, currentMs, now)) ==>
                Keeps(old(rows)[l][i], rows[l][i])
    {
      due := [];
      var u := Units(level, currentMs);
      while u <= Units(level, now)
        invariant Units(level, currentMs) <= u
        invariant Valid()
        invariant multiset(due) + Contents() == old(Contents())
        invariant forall e :: e in due ==> e.deliverAtMs <= now
        invariant forall w :: Units(level, currentMs) <= w < u ==> Clean(rows[level][UnitSlot(level, w)], now)
        invariant forall l, i :: 0 <= l < LEVELS && 0 <= i < SlotCount(l) ==> NoNewDue(old(rows)[l][i], rows[l][i], now)
        invariant forall l, i :: 0 <= l < LEVELS && 0 <= i < SlotCount(l) && (l != level || !Swept(l, i, currentMs, now)) ==>
                    Keeps(old(rows)[l][i], rows[l][i])
        decreases Units(level, now) + 1 - u
      {
        var slot := UnitSlot(level, u);
        assert Swept(level, slot, currentMs, now);
        ghost var mid := rows;
        var more := DrainSlot(level, slot, now);
        due := due + more;
        forall w | Units(level, currentMs) <= w <= u
          ensures Clean(rows[level][UnitSlot(level, w)], now)
        {
          assert w == u || (Clean(mid[level][UnitSlot(level, w)], now)
                            && NoNewDue(mid[level][UnitSlot(level, w)], rows[level][UnitSlot(level, w)], now));
        }
        u := u + 1;
      }
    }

    /** `tick`.  Nothing is lost; what leaves is due; an entry leaves exactly when it is due and its slot
        is swept, so whatever is due but stays was already in the past when the clock last moved. */
    method Tick(now: nat) returns (due: Slot<R>)
      requires Valid()
      modifies this
      ensures Valid() && currentMs == now
      ensures multiset(due) + Contents() == old(Contents())
      ensures forall e :: e in due ==> e.deliverAtMs <= now
      ensures forall l, i :: 0 <= l < LEVELS && 0 <= i < SlotCount(l) ==>
                NoNewDue(old(rows)[l][i], rows[l][i], now)
                && if Swept(l, i, old(currentMs), now) then Clean(rows[l][i], now) else Keeps(old(rows)[l][i], rows[l][i])
      ensures forall e :: e in old(Contents()) && e.deliverAtMs <= now ==>
                (e in Contents() <==> Passed(old(rows), e, old(currentMs), now))
      ensures forall e :: e in Contents() ==> now < e.deliverAtMs || e.deliverAtMs < old(currentMs)
      ensures old(OnTime()) ==> OnTime() && forall e :: e in Contents() ==> now < e.deliverAtMs
    {
      due := [];
      var level := 0;
      while level < LEVELS
        invariant 0 <= level <= LEVELS
        invariant Valid() && currentMs == old(currentMs)
        invariant multiset(due) + Contents() == old(Contents())
        invariant forall e :: e in due ==> e.deliverAtMs <= now
        invariant forall l, i :: 0 <= l < level && 0 <= i < SlotCount(l) && Swept(l, i, currentMs, now) ==> Clean(rows[l][i], now)
        invariant forall l, i :: 0 <= l < LEVELS && 0 <= i < SlotCount(l) ==> NoNewDue(old(rows)[l][i], rows[l][i], now)
        invariant forall l, i :: 0 <= l < LEVELS && 0 <= i < SlotCount(l) && !Swept(l, i, currentMs, now) ==>
                    Keeps(old(rows)[l][i], rows[l][i])
      {
        var more := DrainRow(level, now);
        due := due + more;
        level := level + 1;
      }
      forall e | e in Contents()
        ensures now < e.deliverAtMs || e.deliverAtMs < currentMs
      {
        var l, i := WheelBagMember(rows, e);
        assert Filed(l, i, rows[l][i]);
        if currentMs <= e.deliverAtMs <= now { SweepReaches(l, currentMs, e.deliverAtMs, now); }
      }
      assert forall e :: e in Contents() ==> e in old(Contents());
      forall e | e in old(Contents()) && e.deliverAtMs <= now
        ensures e in Contents() <==> Passed(old(rows), e, currentMs, now)
      {
        StaysIffPassed(old(rows), rows, e, currentMs, now);
      }
      currentMs := now;
    }
  }

  // ---- Entries in the past ----

  /** An entry scheduled behind the clock is filed among the seconds, by its own second; the sweep from `clock` to
      `now` reaches it iff it is long enough to come round to that second of the minute. */
  lemma PastEntryLeavesIff(at: nat, clock: nat, now: nat)
    requires at < clock
    ensures LevelFor(0) == SECONDS
    ensures Swept(SECONDS, SlotFor(SECONDS, at), clock, now) <==>
              (at / 1_000 - clock / 1_000) % 60 <= now / 1_000 - clock / 1_000
  {
    var first, last, a := clock / 1_000, now / 1_000, at / 1_000;
    if (a - first) % 60 <= last - first {
      var u := first + (a - first) % 60;
      NextSecond(first, a, u);
      assert Units(SECONDS, clock) <= u <= Units(SECONDS, now) && UnitSlot(SECONDS, u) == SlotFor(SECONDS, at);
    }
    if u :| Units(SECONDS, clock) <= u <= Units(SECONDS, now) && UnitSlot(SECONDS, u) == SlotFor(SECONDS, at) {
      NextSecond(first, a, u);
    }
  }

  /** From `first` on, the seconds that share `a`'s place in the minute come no sooner than in `(a - first) % 60`. */
  lemma NextSecond(first: nat, a: nat, u: nat)
    requires first <= u
    ensures (first + (a - first) % 60) % 60 == a % 60
    ensures u % 60 == a % 60 ==> (a - first) % 60 <= u - first
  {
    var q := (a - first) / 60;
    assert first + (a - first) % 60 == a - 60 * q;
    SamePlace(a, -q);
    if u % 60 == a % 60 {
      assert a - first == (u - first) + 60 * (a / 60 - u / 60);
      SamePlace(u - first, a / 60 - u / 60);
    }
  }

  lemma SamePlace(x: int, k: int)
    ensures (x + 60 * k) % 60 == x % 60
  {
  }

  /** So a due entry may stay: one for time 0, scheduled at 100 seconds, is still there after the tick at 101. */
  method PastEntryIsLate<R>(w: Wheel<R>, record: R) returns (due: Slot<R>)
    requires w.Valid() && w.Contents() == multiset{} && w.currentMs == 100_000
    modifies w
    ensures w.Valid() && w.currentMs == 101_000
    ensures due == [] && w.Contents() == multiset{DelayedEntry(0, record)}
  {
    var e := DelayedEntry(0, record);
    w.Schedule(e);
    assert e in w.rows[0][0] && e in w.Contents();
    PastEntryLeavesIff(0, 100_000, 101_000);
    due := w.Tick(101_000);
    OnlyHeld(due, w.Contents(), e);
  }

  lemma OnlyHeld<R>(due: Slot<R>, held: multiset<DelayedEntry<R>>, e: DelayedEntry<R>)
    requires multiset(due) + held == multiset{e} && e in held
    ensures due == [] && held == multiset{e}
  {
    assert |multiset(due) + held| == 1 && |held| >= 1 by { assert held[e] >= 1; }
    assert held == multiset{e} + (held - multiset{e});
  }
}

/** What both batchers of src/dispatch.rs keep in their wheels. */
module BatchTimers {
  import opened TimerWheel

  datatype ScheduledBatchKey = ScheduledBatchKey(key: string, version: nat)

  type TimerEntry = DelayedEntry<ScheduledBatchKey>
}
