/** Backup names and retention of src/config.rs: which backups a cleanup may delete, and which it must keep. */
module BackupRetention {
  import opened Sorting
  import opened Text

  // ---- Names ----

  /** The timestamp formats and the hash, as opaque functions; times are in nanoseconds.  `parse` reads the format that
      `format` writes, down to the second; the others are older formats, read only. */
  datatype Codec = Codec(format: int -> string, parse: string -> Option<int>, parseMinutes: string -> Option<int>,
                         parseDate: string -> Option<int>, parseDashed: string -> Option<int>, hash: seq<nat> -> string)

  const SECOND := 1_000_000_000
  const DAY := 24 * 60 * 60 * SECOND
  const RETENTION := 30 * DAY
  const KEEP := 10

  /** What formatting a timestamp drops. */
  function FloorSecond(t: int): int { t - t % SECOND }

  predicate IsHexDigit(c: char) { '0' <= c <= '9' || 'a' <= c <= 'f' || 'A' <= c <= 'F' }
  predicate IsShortHash(s: string) { |s| == 8 && forall i :: 0 <= i < 8 ==> IsHexDigit(s[i]) }

  /** A formatted time begins with a digit, has no dot, and parses back to its second; hashes are eight hexadecimal
      digits. */
  ghost predicate Lawful(c: Codec) {
    && (forall t :: '.' !in c.format(t) && c.format(t) != "" && IsDigit(c.format(t)[0]) && c.parse(c.format(t)) == Some(FloorSecond(t)))
    && (forall b :: IsShortHash(c.hash(b)))
  }

  function SnapshotName(c: Codec, filename: string, now: int, bytes: seq<nat>): string {
    filename + "." + c.format(now) + "." + c.hash(bytes) + ".bak"
  }

  function StripPrefix(s: string, prefix: string): Option<string> {
    if prefix <= s then Some(s[|prefix|..]) else None
  }

  function StripSuffix(s: string, suffix: string): Option<string> {
    if |suffix| <= |s| && s[|s| - |suffix|..] == suffix then Some(s[..|s| - |suffix|]) else None
  }

  /** `parse_managed_backup_name` */
  function ParseManaged(c: Codec, name: string, filename: string): Option<int> {
    match StripPrefix(name, filename + ".")
    case None => None
    case Some(tail) =>
      match StripSuffix(tail, ".bak")
      case None => None
      case Some(rest) =>
        match SplitOnce(rest, '.')
        case None => None
        case Some((timestamp, hash)) => if IsShortHash(hash) then c.parse(timestamp) else None
  }

  /** What a name is read as: nothing, a backup of that time, or a text in the middle of whose characters the code cuts,
      which is a panic. */
  datatype Reading = Other | Backup(createdAt: int) | Panic

  /** Whether the last `n` bytes are looked at and cut a character apart. */
  predicate CutsApart(suffix: string, n: nat) { ByteLen(suffix) >= n && CutBefore(suffix, n) == None }

  /** An old root backup in one format, whose time takes `n` bytes.  `None` is for the next format to decide; a time with a
      label before it is no backup. */
  function Unlabelled(suffix: string, n: nat, parse: string -> Option<int>): Option<Reading> {
    if ByteLen(suffix) < n then None
    else
      match CutBefore(suffix, n)
      case None => Some(Panic)
      case Some(k) => match parse(suffix[k..]) case None => None case Some(time) => Some(if k == 0 then Backup(time) else Other)
  }

  /** `parse_root_legacy_backup_name`: the first of the three formats that fits decides. */
  function ParseSuffix(c: Codec, suffix: string): Reading {
    match Unlabelled(suffix, 16, c.parse)
    case Some(r) => r
    case None =>
      match Unlabelled(suffix, 14, c.parseMinutes)
      case Some(r) => r
      case None => match Unlabelled(suffix, 8, c.parseDate) case Some(r) => r case None => Other
  }

  function ParseRootLegacy(c: Codec, name: string, filename: string): Reading {
    match StripPrefix(name, filename + ".bak-") case None => Other case Some(suffix) => ParseSuffix(c, suffix)
  }

  /** `parse_duplicated_legacy_backup_name` */
  function ParseDuplicatedLegacy(c: Codec, name: string, filename: string): Reading {
    match StripPrefix(name, "config." + filename + ".bak-")
    case None => Other
    case Some(suffix) => match c.parseDashed(suffix) case Some(time) => Backup(time) case None => Other
  }

  function ParseLegacy(c: Codec, name: string, filename: string): Reading {
    match ParseRootLegacy(c, name, filename) case Other => ParseDuplicatedLegacy(c, name, filename) case r => r
  }

  /** A name panics exactly if it begins as a root backup, and the suffix reaches a format, none before having fitted, whose
      last bytes begin inside a character. */
  lemma PanicsIff(c: Codec, name: string, filename: string)
    ensures ParseLegacy(c, name, filename) == Panic <==>
              filename + ".bak-" <= name &&
              var suffix := name[|filename + ".bak-"|..];
              || CutsApart(suffix, 16)
              || (CutsApart(suffix, 14) && Unlabelled(suffix, 16, c.parse) == None)
              || (CutsApart(suffix, 8) && Unlabelled(suffix, 16, c.parse) == None && Unlabelled(suffix, 14, c.parseMinutes) == None)
  {
    hide CutBefore, ByteLen;
  }

  /** That is, no place in the suffix has exactly so many bytes after it. */
  lemma CutsApartIff(suffix: string, n: nat)
    ensures CutsApart(suffix, n) <==> ByteLen(suffix) >= n && forall k :: 0 <= k <= |suffix| ==> ByteLen(suffix[k..]) != n
  {
    forall k: nat | k <= |suffix| ensures CutBefore(suffix, n) == Some(k) <==> ByteLen(suffix[k..]) == n { CutBeforeIff(suffix, n, k); }
  }

  /** A name in ASCII does not panic. */
  lemma AsciiDoesNotPanic(c: Codec, name: string, filename: string)
    requires forall i :: 0 <= i < |name| ==> name[i] < '\U{80}'
    ensures ParseLegacy(c, name, filename) != Panic
  {
    hide CutBefore, ByteLen, Unlabelled;
    PanicsIff(c, name, filename);
    if filename + ".bak-" <= name {
      var suffix := name[|filename + ".bak-"|..];
      assert forall i :: 0 <= i < |suffix| ==> suffix[i] == name[|filename + ".bak-"| + i];
      AsciiIsCut(suffix, 16);
      AsciiIsCut(suffix, 14);
      AsciiIsCut(suffix, 8);
    }
  }

  lemma {:induction false} AsciiIsCut(s: string, n: nat)
    requires forall i :: 0 <= i < |s| ==> s[i] < '\U{80}'
    ensures !CutsApart(s, n)
  {
    if s != "" && n > 0 { AsciiIsCut(s[..|s| - 1], n - 1); }
  }

  lemma {:induction false} AsciiBytes(s: string)
    requires forall i :: 0 <= i < |s| ==> s[i] < '\U{80}'
    ensures ByteLen(s) == |s|
  {
    if s != "" { AsciiBytes(s[..|s| - 1]); }
  }

  /** A label that begins with an accented letter and goes on for fifteen more characters panics, whatever the formats
      accept: `config.toml.bak-` and then `à-garder-en-2025`, say. */
  lemma AccentedLabelPanics(c: Codec, filename: string, first: char, rest: string)
    requires CharBytes(first) > 1 && |rest| == 15 && forall i :: 0 <= i < |rest| ==> rest[i] < '\U{80}'
    ensures ParseLegacy(c, filename + ".bak-" + [first] + rest, filename) == Panic
  {
    hide CutBefore, ByteLen, Unlabelled;
    var name, suffix := filename + ".bak-" + [first] + rest, [first] + rest;
    assert name == (filename + ".bak-") + suffix && name[|filename + ".bak-"|..] == suffix;
    CutsApartIff(suffix, 16);
    BytesAppend([first], rest);
    AsciiBytes(rest);
    OneCharBytes(first);
    forall k | 0 <= k <= |suffix| ensures ByteLen(suffix[k..]) != 16 {
      if k > 0 {
        assert suffix[k..] == rest[k - 1..];
        AsciiBytes(rest[k - 1..]);
      } else {
        assert suffix[0..] == suffix;
      }
    }
    PanicsIff(c, name, filename);
  }

  lemma OneCharBytes(c: char)
    ensures ByteLen([c]) == CharBytes(c)
  {
    assert [c][..0] == "";
  }

  lemma {:induction false} BytesAppend(a: string, b: string)
    ensures ByteLen(a + b) == ByteLen(a) + ByteLen(b)
  {
    if b == "" {
      assert a + b == a;
    } else {
      assert (a + b)[..|a + b| - 1] == a + b[..|b| - 1];
      BytesAppend(a, b[..|b| - 1]);
    }
  }

  /** No backup has the name of its config, and that name does not panic. */
  lemma BackupsAreNotTheConfig(c: Codec, name: string, filename: string)
    ensures ParseManaged(c, name, filename).Some? || ParseLegacy(c, name, filename) != Other ==> name != filename
  {
    hide CutBefore, ByteLen, Unlabelled;
    if ParseManaged(c, name, filename).Some? { assert |name| >= |filename + "."|; }
    if ParseRootLegacy(c, name, filename) != Other { assert |name| >= |filename + ".bak-"|; }
    if ParseDuplicatedLegacy(c, name, filename) != Other { assert |name| >= |"config." + filename + ".bak-"|; }
  }

  /** If `"config." + f` begins with `f` as far as character `i`, then that character is one of `"config."`. */
  lemma {:induction false} Periodic(f: string, i: nat)
    requires i < |f| + 7 && forall k :: 0 <= k < |f| && k <= i ==> ("config." + f)[k] == f[k]
    ensures ("config." + f)[i] in "config."
  {
    if i < 7 {
      assert ("config." + f)[i] == "config."[i];
    } else {
      assert ("config." + f)[i] == f[i - 7] == ("config." + f)[i - 7];
      Periodic(f, i - 7);
    }
  }

  /** A snapshot is no legacy backup. */
  lemma SnapshotIsNotLegacy(c: Codec, filename: string, now: int, bytes: seq<nat>)
    requires Lawful(c)
    ensures ParseLegacy(c, SnapshotName(c, filename, now, bytes), filename) == Other
  {
    var name, n := SnapshotName(c, filename, now, bytes), |filename|;
    assert name[n + 1] == c.format(now)[0];
    assert name[..n] == filename;
    assert (filename + ".bak-")[n + 1] == 'b';
    if "config." + filename + ".bak-" <= name { DuplicatedPrefix(filename, name); }
  }

  /** A text that begins both with the config's name and with a duplicated legacy prefix goes on in `"config."`. */
  lemma DuplicatedPrefix(filename: string, name: string)
    requires "config." + filename + ".bak-" <= name && filename <= name
    ensures name[|filename| + 1] in "config."
  {
    var n, duplicated := |filename|, "config." + filename + ".bak-";
    assert forall k :: 0 <= k < n + 7 ==> ("config." + filename)[k] == duplicated[k] == name[k];
    assert forall k :: 0 <= k < n ==> name[k] == filename[k];
    Periodic(filename, n + 1);
  }

  lemma {:induction false} SplitOnceAt(a: string, sep: char, b: string)
    requires sep !in a
    ensures SplitOnce(a + [sep] + b, sep) == Some((a, b))
  {
    var s := a + [sep] + b;
    if a == "" {
      assert s[1..] == b;
    } else {
      SplitOnceAt(a[1..], sep, b);
      assert s[1..] == a[1..] + [sep] + b && [a[0]] + a[1..] == a;
    }
  }

  /** A snapshot is recognised as a managed backup of its file, dated to the second it was taken. */
  lemma SnapshotNameParses(c: Codec, filename: string, now: int, bytes: seq<nat>)
    requires Lawful(c)
    ensures ParseManaged(c, SnapshotName(c, filename, now, bytes), filename) == Some(FloorSecond(now))
  {
    var name, stamp, hash := SnapshotName(c, filename, now, bytes), c.format(now), c.hash(bytes);
    var tail := stamp + "." + hash + ".bak";
    assert name == (filename + ".") + tail;
    assert name[|filename + "."|..] == tail;
    assert tail[..|tail| - 4] == stamp + "." + hash && tail[|tail| - 4..] == ".bak";
    SplitOnceAt(stamp, '.', hash);
    assert stamp + "." + hash == stamp + ['.'] + hash;
  }

  // ---- Candidates ----

  datatype Origin = RootLegacy | Managed
  datatype Candidate = Candidate(origin: Origin, name: string, createdAt: int, inode: nat)

  function Rank(o: Origin): nat { if o.RootLegacy? then 0 else 1 }

  /** Oldest first; by origin and name within one time. */
  function OlderLeq(): (Candidate, Candidate) -> bool {
    (a: Candidate, b: Candidate) =>
      a.createdAt < b.createdAt
      || (a.createdAt == b.createdAt && (Rank(a.origin) < Rank(b.origin) || (a.origin == b.origin && StringLeq(a.name, b.name))))
  }

  lemma OlderOrder()
    ensures TotalPreorder(OlderLeq())
  {
    forall a: Candidate, b: Candidate ensures OlderLeq()(a, b) || OlderLeq()(b, a) { StringLeqTotal(a.name, b.name); }
    forall a: Candidate, b: Candidate, c: Candidate | OlderLeq()(a, b) && OlderLeq()(b, c) ensures OlderLeq()(a, c) {
      if StringLeq(a.name, b.name) && StringLeq(b.name, c.name) { StringLeqTransitive(a.name, b.name, c.name); }
    }
  }

  /** A directory has one entry of a name. */
  ghost predicate DistinctNames(cs: seq<Candidate>) {
    && (forall a, b :: a in cs && b in cs && a.origin == b.origin && a.name == b.name ==> a == b)
    && (forall c :: multiset(cs)[c] <= 1)
  }

  lemma NoTwoTie(cs: seq<Candidate>)
    requires DistinctNames(cs)
    ensures NoTies(OlderLeq(), cs)
  {
    forall a, b | a in cs && b in cs && OlderLeq()(a, b) && OlderLeq()(b, a) ensures a == b {
      StringLeqAntisymmetric(a.name, b.name);
    }
  }

  function Sorted(cs: seq<Candidate>): seq<Candidate> { Sort(OlderLeq(), cs) }

  function Limit(n: nat): nat { if n > KEEP then n - KEEP else 0 }

  /** How many of the sorted candidates the cleanup loop goes for: those of index below n - 10 that are not newer
      than the cutoff. */
  function DoomedOf(sorted: seq<Candidate>, limit: nat, cutoff: int): nat {
    if sorted == [] || limit == 0 || sorted[0].createdAt > cutoff then 0 else 1 + DoomedOf(sorted[1..], limit - 1, cutoff)
  }

  function Doomed(sorted: seq<Candidate>, cutoff: int): nat { DoomedOf(sorted, Limit(|sorted|), cutoff) }

  ghost predicate ByTime(cs: seq<Candidate>) { forall i, j :: 0 <= i < j < |cs| ==> cs[i].createdAt <= cs[j].createdAt }

  /** The loop's guard holds for a prefix of the sorted list, and for nothing else. */
  lemma {:induction false} DoomedIsGuard(sorted: seq<Candidate>, limit: nat, cutoff: int)
    requires ByTime(sorted) && limit <= |sorted|
    ensures DoomedOf(sorted, limit, cutoff) <= limit
    ensures forall i :: 0 <= i < |sorted| ==> (i < DoomedOf(sorted, limit, cutoff) <==> i < limit && sorted[i].createdAt <= cutoff)
  {
    if limit > 0 && sorted[0].createdAt <= cutoff {
      DoomedIsGuard(sorted[1..], limit - 1, cutoff);
      forall i | 0 <= i < |sorted|
        ensures i < DoomedOf(sorted, limit, cutoff) <==> i < limit && sorted[i].createdAt <= cutoff
      {
        if i > 0 { assert sorted[i] == sorted[1..][i - 1]; }
      }
    }
  }

  lemma SortedByTime(cs: seq<Candidate>)
    ensures ByTime(Sorted(cs)) && SortedBy(OlderLeq(), Sorted(cs)) && |Sorted(cs)| == |cs|
  {
    OlderOrder();
    SortSorts(OlderLeq(), cs);
    SameElements(Sorted(cs), cs);
  }

  /** The candidates a cleanup goes for, and those it leaves alone whatever happens. */
  function Attempted(cs: seq<Candidate>, cutoff: int): seq<Candidate>
    requires Doomed(Sorted(cs), cutoff) <= |Sorted(cs)|
  {
    Sorted(cs)[..Doomed(Sorted(cs), cutoff)]
  }

  /** Exactly the ten newest, and everything newer than the cutoff, are kept: a candidate at position `i` of the
      sorted list is left alone iff it is among the last ten or younger than thirty days. */
  lemma KeepsNewestAndYoung(cs: seq<Candidate>, cutoff: int)
    ensures var s := Sorted(cs);
            && multiset(s) == multiset(cs) && SortedBy(OlderLeq(), s)
            && Doomed(s, cutoff) <= |s|
            && forall i :: 0 <= i < |s| ==> (Doomed(s, cutoff) <= i <==> i + KEEP >= |s| || s[i].createdAt > cutoff)
    ensures var least := if |cs| < KEEP then |cs| else KEEP; |cs| - Doomed(Sorted(cs), cutoff) >= least
  {
    SortedByTime(cs);
    DoomedIsGuard(Sorted(cs), Limit(|cs|), cutoff);
  }

  /** The order in which directories list their entries does not matter. */
  lemma DirectoryOrderIsIrrelevant(a: seq<Candidate>, b: seq<Candidate>)
    requires multiset(a) == multiset(b) && DistinctNames(a)
    ensures Sorted(a) == Sorted(b)
  {
    SortedByTime(a);
    SortedByTime(b);
    SameElements(a, Sorted(a));
    NoTwoTie(Sorted(a));
    SortedIsUnique(OlderLeq(), Sorted(a), Sorted(b));
  }

  // ---- A second run ----

  function Filter(cs: seq<Candidate>, keep: Candidate -> bool): seq<Candidate> {
    if cs == [] then [] else (if keep(cs[0]) then [cs[0]] else []) + Filter(cs[1..], keep)
  }

  lemma {:induction false} FilterKeeps(cs: seq<Candidate>, keep: Candidate -> bool)
    ensures |Filter(cs, keep)| <= |cs|
    ensures forall c :: c in Filter(cs, keep) <==> c in cs && keep(c)
  {
    if cs != [] {
      FilterKeeps(cs[1..], keep);
      assert cs == [cs[0]] + cs[1..];
    }
  }

  lemma {:induction false} FilterSorted(cs: seq<Candidate>, keep: Candidate -> bool)
    requires SortedBy(OlderLeq(), cs)
    ensures SortedBy(OlderLeq(), Filter(cs, keep))
  {
    if cs != [] {
      var rest := Filter(cs[1..], keep);
      assert Filter(cs, keep) == if keep(cs[0]) then [cs[0]] + rest else rest;
      OlderOrder();
      hide Filter, OlderLeq, SortedBy, TotalPreorder;
      HeadIsLeast(OlderLeq(), cs);
      FilterSorted(cs[1..], keep);
      FilterKeeps(cs[1..], keep);
      assert forall y :: y in cs[1..] ==> y in cs;
      PutBefore(OlderLeq(), cs[0], rest);
    }
  }

  lemma {:induction false} FilterSplits(a: seq<Candidate>, b: seq<Candidate>, keep: Candidate -> bool)
    ensures Filter(a + b, keep) == Filter(a, keep) + Filter(b, keep)
  {
    if a == [] {
      assert a + b == b;
    } else {
      var head := if keep(a[0]) then [a[0]] else [];
      assert Filter(a + b, keep) == head + Filter(a[1..] + b, keep) by { assert (a + b)[0] == a[0] && (a + b)[1..] == a[1..] + b; }
      assert Filter(a, keep) == head + Filter(a[1..], keep);
      hide Filter;
      FilterSplits(a[1..], b, keep);
    }
  }

  lemma {:induction false} FilterAll(cs: seq<Candidate>, keep: Candidate -> bool)
    requires forall c :: c in cs ==> keep(c)
    ensures Filter(cs, keep) == cs
  {
    if cs != [] {
      FilterAll(cs[1..], keep);
      assert cs == [cs[0]] + cs[1..];
    }
  }

  lemma {:induction false} DoomedIs(sorted: seq<Candidate>, limit: nat, cutoff: int, k: nat)
    requires k <= limit <= |sorted| && forall i :: 0 <= i < k ==> sorted[i].createdAt <= cutoff
    requires k == limit || sorted[k].createdAt > cutoff
    ensures DoomedOf(sorted, limit, cutoff) == k
  {
    if k > 0 { DoomedIs(sorted[1..], limit - 1, cutoff, k - 1); }
  }

  /** Whatever part of the doomed is left in front of the others, exactly that part is doomed again. */
  lemma DoomedAgain(s: seq<Candidate>, cutoff: int, kept: seq<Candidate>)
    requires ByTime(s) && Doomed(s, cutoff) <= |s|
    requires |kept| <= Doomed(s, cutoff) && forall i :: 0 <= i < |kept| ==> kept[i].createdAt <= cutoff
    ensures Doomed(kept + s[Doomed(s, cutoff)..], cutoff) == |kept|
  {
    var d := Doomed(s, cutoff);
    var left := kept + s[d..];
    DoomedIsGuard(s, Limit(|s|), cutoff);
    if |kept| < Limit(|left|) { assert left[|kept|] == s[d]; }
    DoomedIs(left, Limit(|left|), cutoff, |kept|);
  }

  /** If only doomed candidates are gone, the doomed of the remainder are the doomed that are not. */
  lemma DoomedOfSurvivors(s: seq<Candidate>, cutoff: int, alive: Candidate -> bool)
    requires ByTime(s) && Doomed(s, cutoff) <= |s| && forall c :: c in s[Doomed(s, cutoff)..] ==> alive(c)
    ensures var left, kept := Filter(s, alive), Filter(s[..Doomed(s, cutoff)], alive);
            left == kept + s[Doomed(s, cutoff)..] && Doomed(left, cutoff) == |kept|
  {
    hide Filter;
    var d := Doomed(s, cutoff);
    var kept := Filter(s[..d], alive);
    assert s == s[..d] + s[d..];
    FilterSplits(s[..d], s[d..], alive);
    FilterAll(s[d..], alive);
    FilterKeeps(s[..d], alive);
    DoomedIsGuard(s, Limit(|s|), cutoff);
    forall i | 0 <= i < |kept| ensures kept[i].createdAt <= cutoff { assert kept[i] in s[..d]; }
    DoomedAgain(s, cutoff, kept);
  }

  function NotIn(gone: seq<Candidate>): Candidate -> bool { (c: Candidate) => c !in gone }

  /** A second run at the same time goes for exactly those doomed candidates that are still there. */
  lemma SecondRunRetriesFailures(cs: seq<Candidate>, cutoff: int, gone: seq<Candidate>, again: seq<Candidate>)
    requires DistinctNames(cs)
    requires Doomed(Sorted(cs), cutoff) <= |Sorted(cs)| && forall c :: c in gone ==> c in Attempted(cs, cutoff)
    requires multiset(again) == multiset(Filter(Sorted(cs), NotIn(gone)))
    ensures Doomed(Sorted(again), cutoff) <= |Sorted(again)|
    ensures Attempted(again, cutoff) == Filter(Attempted(cs, cutoff), NotIn(gone))
  {
    var alive := NotIn(gone);
    var s, d := Sorted(cs), Doomed(Sorted(cs), cutoff);
    SortedByTime(cs);
    SortedByTime(again);
    SameElements(cs, s);
    FilterKeeps(s, alive);
    FilterSorted(s, alive);
    SameElements(again, Filter(s, alive));
    SameElements(again, Sorted(again));
    NoTwoTie(s);
    SortedIsUnique(OlderLeq(), Filter(s, alive), Sorted(again));
    DoomedApart(cs, cutoff, gone);
    DoomedOfSurvivors(s, cutoff, alive);
  }

  lemma DoomedApart(cs: seq<Candidate>, cutoff: int, gone: seq<Candidate>)
    requires DistinctNames(cs)
    requires Doomed(Sorted(cs), cutoff) <= |Sorted(cs)| && forall c :: c in gone ==> c in Attempted(cs, cutoff)
    ensures forall c :: c in Sorted(cs)[Doomed(Sorted(cs), cutoff)..] ==> c !in gone
  {
    var s, d := Sorted(cs), Doomed(Sorted(cs), cutoff);
    assert s == s[..d] + s[d..];
    forall c | c in s[d..] ensures c !in s[..d] {
      assert multiset(s)[c] == multiset(s[..d])[c] + multiset(s[d..])[c];
    }
  }
}
