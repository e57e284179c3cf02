/** `split_discord_routine_chunks` of src/dispatch.rs: rendered events packed into messages of at most
    2000 Unicode scalars, at event boundaries.

    A split is the list of its chunks, each a range of consecutive events.  `ValidSplit` says which splits
    are acceptable at all; `SplitIntoChunks` is proved to return one, and `GreedyIsOptimal` that no
    acceptable split has fewer chunks. */
module DiscordChunks {

  const MAX_SCALARS := 2_000
  const SEPARATOR: string := "\n"

  datatype Rendered = Rendered(index: nat, content: string, kind: string)
  datatype Chunk = Chunk(content: string, eventCount: nat, chunkIndex: nat, totalChunks: nat, eventKinds: seq<string>)

  /** `cap_to_discord_limit` (src/router.rs): a long text keeps its first 1999 scalars and an ellipsis. */
  function Cap(content: string): (r: string)
    ensures |r| <= MAX_SCALARS
    ensures |content| <= MAX_SCALARS ==> r == content
    ensures |content| > MAX_SCALARS ==> |r| == MAX_SCALARS && r[..MAX_SCALARS - 1] == content[..MAX_SCALARS - 1]
  {
    if |content| <= MAX_SCALARS then content else content[..MAX_SCALARS - 1] + ['\U{2026}']
  }

  // ---- Splits ----

  /** The events of a range, joined by newlines. */
  function Joined(items: seq<Rendered>): string {
    if items == [] then ""
    else if |items| == 1 then items[0].content
    else Joined(items[..|items| - 1]) + SEPARATOR + items[|items| - 1].content
  }

  function Kinds(items: seq<Rendered>): seq<string> {
    seq(|items|, i requires 0 <= i < |items| => items[i].kind)
  }

  ghost predicate Fits(items: seq<Rendered>) { |Joined(items)| <= MAX_SCALARS }

  /** `ends[i]` is where chunk `i` ends: the chunks are non-empty, consecutive, and cover all events. */
  ghost predicate Partitions(ends: seq<nat>, n: nat) {
    && (forall i {:trigger Start(ends, i)} :: 0 <= i < |ends| ==> Start(ends, i) < ends[i] <= n)
    && (if n == 0 then ends == [] else ends != [] && ends[|ends| - 1] == n)
  }

  ghost function Start(ends: seq<nat>, i: nat): nat
    requires i <= |ends|
  {
    if i == 0 then 0 else ends[i - 1]
  }

  ghost function Range(items: seq<Rendered>, ends: seq<nat>, i: nat): seq<Rendered>
    requires i < |ends| && Partitions(ends, |items|)
  {
    items[Start(ends, i)..ends[i]]
  }

  /** Every chunk is one event, or fits. */
  ghost predicate ValidSplit(items: seq<Rendered>, ends: seq<nat>) {
    Partitions(ends, |items|)
    && forall i :: 0 <= i < |ends| ==> |Range(items, ends, i)| == 1 || Fits(Range(items, ends, i))
  }

  /** No chunk could have taken the event after it. */
  ghost predicate Greedy(items: seq<Rendered>, ends: seq<nat>)
    requires Partitions(ends, |items|)
  {
    forall i {:trigger Start(ends, i)} :: 0 <= i < |ends| && ends[i] < |items| ==> !Fits(items[Start(ends, i)..ends[i] + 1])
  }

  lemma {:induction false} SubrangeFits(items: seq<Rendered>, a: nat, b: nat)
    requires a <= b <= |items|
    ensures |Joined(items[a..b])| <= |Joined(items)|
    decreases |items|
  {
    var n := |items|;
    if a == b || (a == 0 && b == n) {
      assert a == b ==> items[a..b] == [];
      assert a == 0 && b == n ==> items[a..b] == items;
    } else if b < n {
      assert items[..n - 1][a..b] == items[a..b];
      SubrangeFits(items[..n - 1], a, b);
    } else if b == a + 1 {
      assert items[a..b] == [items[n - 1]];
    } else {
      assert items[a..b][..b - a - 1] == items[..n - 1][a..b - 1];
      SubrangeFits(items[..n - 1], a, b - 1);
    }
  }

  lemma FitsWithin(items: seq<Rendered>, a: nat, b: nat)
    requires a <= b <= |items| && Fits(items)
    ensures Fits(items[a..b])
  {
    SubrangeFits(items, a, b);
  }

  /** Greedy stays ahead: its chunk `i` ends no earlier than chunk `i` of any acceptable split. */
  lemma {:induction false} GreedyStaysAhead(items: seq<Rendered>, greedy: seq<nat>, other: seq<nat>, i: nat)
    requires Partitions(greedy, |items|) && Greedy(items, greedy) && ValidSplit(items, other)
    requires i < |greedy| && i < |other|
    ensures other[i] <= greedy[i]
  {
    if i > 0 { GreedyStaysAhead(items, greedy, other, i - 1); }
    if greedy[i] < other[i] {
      hide Joined, Fits;
      var a, b, lo := Start(greedy, i), greedy[i] + 1, Start(other, i);
      assert lo <= a < b <= other[i];
      SliceOfSlice(items, lo, other[i], a, b);
      FitsWithin(Range(items, other, i), a - lo, b - lo);
    }
  }

  lemma SliceOfSlice<T>(s: seq<T>, lo: nat, hi: nat, a: nat, b: nat)
    requires lo <= a <= b <= hi <= |s|
    ensures s[lo..hi][a - lo..b - lo] == s[a..b]
  {
    assert |s[lo..hi][a - lo..b - lo]| == |s[a..b]|;
    assert forall k :: 0 <= k < b - a ==> s[lo..hi][a - lo..b - lo][k] == s[a..b][k];
  }

  lemma OnlyLastChunkReachesEnd(ends: seq<nat>, n: nat, i: nat)
    requires Partitions(ends, n) && i + 1 < |ends|
    ensures ends[i] < n
  {
    assert Start(ends, i + 1) == ends[i];
  }

  /** No acceptable split uses fewer messages. */
  lemma GreedyIsOptimal(items: seq<Rendered>, greedy: seq<nat>, other: seq<nat>)
    requires Partitions(greedy, |items|) && Greedy(items, greedy) && ValidSplit(items, other)
    ensures |greedy| <= |other|
  {
    var m := |other|;
    if 0 < m <= |greedy| {
      GreedyStaysAhead(items, greedy, other, m - 1);
      if m < |greedy| { OnlyLastChunkReachesEnd(greedy, |items|, m - 1); }
    }
  }

  // ---- The split that is sent ----

  /** The messages are the ranges of a split: a range's exact join, or the cap of an event that is too long. */
  ghost predicate Sends(chunks: seq<Chunk>, items: seq<Rendered>, ends: seq<nat>) {
    && ValidSplit(items, ends) && |chunks| == |ends|
    && forall i :: 0 <= i < |chunks| ==>
         var range := Range(items, ends, i);
         && chunks[i] == Chunk(if Fits(range) then Joined(range) else Cap(range[0].content),
                               |range|, i, |chunks|, Kinds(range))
         && |chunks[i].content| <= MAX_SCALARS
  }

  function AllKinds(chunks: seq<Chunk>): seq<string> {
    if chunks == [] then [] else AllKinds(chunks[..|chunks| - 1]) + chunks[|chunks| - 1].eventKinds
  }

  function Total(chunks: seq<Chunk>): nat {
    if chunks == [] then 0 else Total(chunks[..|chunks| - 1]) + chunks[|chunks| - 1].eventCount
  }

  lemma KindsSplit(items: seq<Rendered>, a: nat, b: nat)
    requires a <= b <= |items|
    ensures Kinds(items[..b]) == Kinds(items[..a]) + Kinds(items[a..b])
  {
  }

  /** Every event is announced once, in order: the counts add up and the kinds concatenate. */
  lemma {:induction false} SendsEveryEvent(chunks: seq<Chunk>, items: seq<Rendered>, ends: seq<nat>, m: nat)
    requires Sends(chunks, items, ends) && m <= |chunks|
    ensures Start(ends, m) <= |items| && Total(chunks[..m]) == Start(ends, m) && AllKinds(chunks[..m]) == Kinds(items[..Start(ends, m)])
    ensures m == |chunks| ==> Total(chunks) == |items| && AllKinds(chunks) == Kinds(items)
  {
    hide Fits, Joined, Cap;
    if m > 0 {
      SendsEveryEvent(chunks, items, ends, m - 1);
      assert chunks[..m][..m - 1] == chunks[..m - 1];
      var a, b := Start(ends, m - 1), Start(ends, m);
      assert Start(ends, m - 1) < ends[m - 1] <= |items| && b == ends[m - 1];
      KindsSplit(items, a, b);
    } else {
      assert items[..0] == [] && Kinds([]) == [];
    }
    if m == |chunks| {
      assert chunks[..m] == chunks;
      assert items[..|items|] == items;
    }
  }

  // ---- The greedy pass ----

  /** A chunk as the pass collects it: its indices, content and kinds. */
  datatype Group = Group(items: seq<nat>, content: string, kinds: seq<string>)

  /** `items` are the indices from..to, in order. */
  ghost predicate Indices(items: seq<nat>, from: nat, to: nat) {
    from <= to && |items| == to - from && forall i :: 0 <= i < |items| ==> items[i] == from + i
  }

  function JoinIndices(rendered: seq<Rendered>, items: seq<nat>): string
    requires forall i :: 0 <= i < |items| ==> items[i] < |rendered|
  {
    Joined(seq(|items|, i requires 0 <= i < |items| => rendered[items[i]]))
  }

  /** `g` is the chunk from..to: one event or a fitting range, joined or capped, that could not have taken the
      event after it. */
  ghost predicate IsGroup(g: Group, items: seq<Rendered>, from: nat, to: nat)
    requires from < to <= |items|
  {
    var range := items[from..to];
    && (|range| == 1 || Fits(range))
    && g.content == (if Fits(range) then Joined(range) else Cap(range[0].content))
    && Indices(g.items, from, to) && g.kinds == Kinds(range)
    && (to < |items| ==> !Fits(items[from..to + 1]))
  }

  /** The groups collected so far are the chunks of `ends`, a greedy split of the first `n` events. */
  ghost predicate Collected(groups: seq<Group>, ends: seq<nat>, items: seq<Rendered>, n: nat)
    requires n <= |items|
  {
    && |groups| == |ends| && Partitions(ends, n)
    && forall i {:trigger Start(ends, i)} :: 0 <= i < |ends| ==> IsGroup(groups[i], items, Start(ends, i), ends[i])
  }

  lemma CollectedOneMore(groups: seq<Group>, ends: seq<nat>, items: seq<Rendered>, n: nat, g: Group, end: nat)
    requires n < end <= |items| && Collected(groups, ends, items, n) && IsGroup(g, items, n, end)
    ensures Collected(groups + [g], ends + [end], items, end)
  {
    hide IsGroup;
    var ends', groups' := ends + [end], groups + [g];
    forall i | 0 <= i < |ends'| ensures Start(ends', i) < ends'[i] <= end && IsGroup(groups'[i], items, Start(ends', i), ends'[i]) {
      if i < |ends| { assert Start(ends', i) == Start(ends, i); }
    }
  }

  /** A complete collection is a greedy, acceptable split. */
  lemma CollectedAll(groups: seq<Group>, ends: seq<nat>, items: seq<Rendered>)
    requires Collected(groups, ends, items, |items|)
    ensures ValidSplit(items, ends) && Greedy(items, ends)
  {
    hide Joined, Cap, Kinds, Indices;
  }

  /** The state of the pass before event `i`: the current chunk is a fitting range that ends there. */
  ghost predicate Current(items: seq<Rendered>, from: nat, i: nat, current: seq<nat>, len: nat, kinds: seq<string>) {
    && from <= i <= |items| && Indices(current, from, i)
    && len == |Joined(items[from..i])| && len <= MAX_SCALARS && kinds == Kinds(items[from..i])
  }

  lemma CurrentOneMore(items: seq<Rendered>, from: nat, i: nat, current: seq<nat>, len: nat, kinds: seq<string>)
    requires Current(items, from, i, current, len, kinds) && i < |items|
    ensures |Joined(items[from..i + 1])| == len + (if current == [] then 0 else 1) + |items[i].content|
    ensures Kinds(items[from..i + 1]) == kinds + [items[i].kind] && Indices(current + [i], from, i + 1)
  {
    assert items[from..i + 1][..i - from] == items[from..i];
  }

  lemma JoinOfIndices(items: seq<Rendered>, current: seq<nat>, from: nat, to: nat)
    requires to <= |items| && Indices(current, from, to)
    ensures JoinIndices(items, current) == Joined(items[from..to])
  {
    assert seq(|current|, i requires 0 <= i < |current| => items[current[i]]) == items[from..to];
  }

  /** An event that is too long is a chunk of its own. */
  lemma OversizedAlone(items: seq<Rendered>, i: nat)
    requires i < |items| && |items[i].content| > MAX_SCALARS
    ensures IsGroup(Group([i], Cap(items[i].content), [items[i].kind]), items, i, i + 1)
  {
    assert items[i..i + 1] == [items[i]];
    if i + 1 < |items| {
      SubrangeFits(items[i..i + 2], 0, 1);
      assert items[i..i + 2][0..1] == [items[i]];
    }
  }

  /** The forward pass: an event joins the current chunk if the two fit together, and starts a new one if not.
      (Where the current chunk is empty that means the event alone is too long, so there is one case only.) */
  method CollectGroups(rendered: seq<Rendered>) returns (groups: seq<Group>, ghost ends: seq<nat>)
    ensures Collected(groups, ends, rendered, |rendered|)
  {
    hide Joined, Kinds, Cap, IsGroup, Collected, JoinIndices;
    groups, ends := [], [];
    var current: seq<nat>, currentLen: nat, currentKinds: seq<string> := [], 0, [];
    ghost var from := 0;
    CurrentEmpty(rendered, 0);
    var i := 0;
    while i < |rendered|
      invariant 0 <= i <= |rendered|
      invariant Current(rendered, from, i, current, currentLen, currentKinds)
      invariant Collected(groups, ends, rendered, from)
    {
      var itemLen := |rendered[i].content|;
      var addedLen := if current == [] then itemLen else |SEPARATOR| + itemLen;
      CurrentOneMore(rendered, from, i, current, currentLen, currentKinds);
      if currentLen + addedLen <= MAX_SCALARS {
        current, currentLen, currentKinds := current + [i], currentLen + addedLen, currentKinds + [rendered[i].kind];
      } else {
        if current != [] {
          ClosesCurrent(rendered, from, i, current, currentLen, currentKinds);
          var g := Group(current, JoinIndices(rendered, current), currentKinds);
          CollectedOneMore(groups, ends, rendered, from, g, i);
          groups, ends, from := groups + [g], ends + [i], i;
        }
        CurrentEmpty(rendered, i);
        if itemLen <= MAX_SCALARS {
          CurrentOneMore(rendered, i, i, [], 0, []);
          current, currentLen, currentKinds := [i], itemLen, [rendered[i].kind];
        } else {
          OversizedAlone(rendered, i);
          var g := Group([i], Cap(rendered[i].content), [rendered[i].kind]);
          CollectedOneMore(groups, ends, rendered, i, g, i + 1);
          CurrentEmpty(rendered, i + 1);
          groups, ends, from := groups + [g], ends + [i + 1], i + 1;
          current, currentLen, currentKinds := [], 0, [];
        }
      }
      i := i + 1;
    }
    if current != [] {
      ClosesCurrent(rendered, from, i, current, currentLen, currentKinds);
      var g := Group(current, JoinIndices(rendered, current), currentKinds);
      CollectedOneMore(groups, ends, rendered, from, g, i);
      groups, ends := groups + [g], ends + [i];
    }
  }

  lemma CurrentEmpty(items: seq<Rendered>, i: nat)
    requires i <= |items|
    ensures Current(items, i, i, [], 0, []) && Collected([], [], items, 0)
  {
    assert items[i..i] == [];
  }

  /** The current chunk is closed when the next event does not fit, or there is none. */
  lemma ClosesCurrent(items: seq<Rendered>, from: nat, i: nat, current: seq<nat>, len: nat, kinds: seq<string>)
    requires Current(items, from, i, current, len, kinds) && current != []
    requires i < |items| ==> len + 1 + |items[i].content| > MAX_SCALARS
    requires forall j :: 0 <= j < |current| ==> current[j] < |items|
    ensures IsGroup(Group(current, JoinIndices(items, current), kinds), items, from, i)
  {
    JoinOfIndices(items, current, from, i);
    if i < |items| { CurrentOneMore(items, from, i, current, len, kinds); }
  }

  /** The whole function.  The messages send every event once, in order, none too long, and no acceptable split
      has fewer of them. */
  method SplitIntoChunks(rendered: seq<Rendered>) returns (chunks: seq<Chunk>, ghost ends: seq<nat>)
    ensures Sends(chunks, rendered, ends)
    ensures Total(chunks) == |rendered| && AllKinds(chunks) == Kinds(rendered)
    ensures forall other :: ValidSplit(rendered, other) ==> |chunks| <= |other|
  {
    var groups;
    groups, ends := CollectGroups(rendered);
    CollectedAll(groups, ends, rendered);
    chunks := seq(|groups|, i requires 0 <= i < |groups| =>
      Chunk(groups[i].content, |groups[i].kinds|, i, |groups|, groups[i].kinds));
    forall i | 0 <= i < |chunks| ensures IsGroup(groups[i], rendered, Start(ends, i), ends[i]) {}
    SendsEveryEvent(chunks, rendered, ends, |chunks|);
    forall other | ValidSplit(rendered, other) ensures |chunks| <= |other| {
      GreedyIsOptimal(rendered, ends, other);
    }
  }
}
