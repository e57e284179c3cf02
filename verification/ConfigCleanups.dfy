/** What cleanups of the config's backups, src/config.rs, leave on disk: after one, and after one that was interrupted
    and run again. */
module ConfigCleanups {
  import opened Text
  import opened Sorting
  import opened BackupRetention
  import opened ConfigFileSystem

  /** A complete cleanup leaves of the candidates, in order of age, exactly the ten newest and those younger than the
      retention period, and every other entry of every directory as it was. */
  lemma LeavesNewestAndYoung(before: Fs, after: Fs, codec: Codec, place: Place, filename: string, cs: seq<Candidate>, now: int)
    requires AreListed(before, codec, place, filename, cs) && place.Bound(before)
    requires Doomed(Sorted(cs), now - RETENTION) <= |Sorted(cs)| && Cleared(before, after, Attempted(cs, now - RETENTION), place)
    ensures var s := Sorted(cs);
      && multiset(s) == multiset(cs) && SortedBy(OlderLeq(), s)
      && forall i :: 0 <= i < |s| ==>
           before.Entry(place.Home(s[i]), s[i].name).Some? &&
           after.Entry(place.Home(s[i]), s[i].name) ==
             if i + KEEP >= |s| || s[i].createdAt > now - RETENTION then before.Entry(place.Home(s[i]), s[i].name) else None
    ensures forall d, n :: (forall c :: c in cs ==> place.Home(c) != d || c.name != n) ==> after.Entry(d, n) == before.Entry(d, n)
  {
    hide Sorted, Doomed, Dated, Deletable, DistinctNames, OlderLeq, SortedBy;
    var s, doomed := Sorted(cs), Attempted(cs, now - RETENTION);
    KeepsNewestAndYoung(cs, now - RETENTION);
    SameElements(cs, s);
    assert forall c :: c in doomed ==> c in s;
    forall i | 0 <= i < |s|
      ensures before.Entry(place.Home(s[i]), s[i].name).Some?
      ensures after.Entry(place.Home(s[i]), s[i].name) ==
                if i + KEEP >= |s| || s[i].createdAt > now - RETENTION then before.Entry(place.Home(s[i]), s[i].name) else None
    {
      assert s[i] in cs && Lists(before, codec, place, filename, s[i]);
      if i < |doomed| {
        assert doomed[i] == s[i];
      } else {
        NotDoomed(before, codec, place, filename, cs, s, |doomed|, i);
      }
    }
  }

  /** No two candidates share an entry. */
  lemma OwnEntry(fs: Fs, codec: Codec, place: Place, filename: string, cs: seq<Candidate>, a: Candidate, b: Candidate)
    requires AreListed(fs, codec, place, filename, cs) && place.Bound(fs) && a in cs && b in cs
    requires place.Home(a) == place.Home(b) && a.name == b.name
    ensures a == b
  {
    hide Classified;
    assert Lists(fs, codec, place, filename, a) && Lists(fs, codec, place, filename, b);
  }

  lemma NotDoomed(fs: Fs, codec: Codec, place: Place, filename: string, cs: seq<Candidate>, s: seq<Candidate>, d: nat, i: nat)
    requires AreListed(fs, codec, place, filename, cs) && place.Bound(fs) && multiset(s) == multiset(cs) && d <= i < |s|
    ensures !IsGone(s[..d], place, place.Home(s[i]), s[i].name)
  {
    hide Lists;
    SameElements(cs, s);
    NotBefore(cs, s, i);
    assert s[..d] == s[..i][..d] && forall c :: c in s[..d] ==> c in s[..i] && c in s;
    forall c | c in s[..d] ensures place.Home(c) != place.Home(s[i]) || c.name != s[i].name {
      if place.Home(c) == place.Home(s[i]) && c.name == s[i].name { OwnEntry(fs, codec, place, filename, cs, c, s[i]); }
    }
  }

  /** What is listed after some of the candidates were deleted are the others. */
  lemma ListsTheOthers(before: Fs, after: Fs, codec: Codec, place: Place, filename: string,
                       cs: seq<Candidate>, gone: seq<Candidate>, c: Candidate)
    requires AreListed(before, codec, place, filename, cs) && place.Bound(before) && Cleared(before, after, gone, place)
    requires forall g :: g in gone ==> g in cs
    ensures Lists(after, codec, place, filename, c) <==> c in cs && c !in gone
  {
    hide Classified;
    if Lists(after, codec, place, filename, c) {
      assert !IsGone(gone, place, place.Home(c), c.name) && Lists(before, codec, place, filename, c);
    }
    if c in cs && c !in gone {
      assert Lists(before, codec, place, filename, c);
      forall g | g in gone ensures place.Home(g) != place.Home(c) || g.name != c.name {
        if place.Home(g) == place.Home(c) && g.name == c.name { OwnEntry(before, codec, place, filename, cs, g, c); }
      }
      assert !IsGone(gone, place, place.Home(c), c.name);
    }
  }

  lemma {:induction false} FilterCounts(cs: seq<Candidate>, keep: Candidate -> bool, c: Candidate)
    ensures multiset(Filter(cs, keep))[c] <= multiset(cs)[c]
  {
    if cs != [] {
      FilterCounts(cs[1..], keep, c);
      assert cs == [cs[0]] + cs[1..];
    }
  }

  lemma SameMultiset(a: seq<Candidate>, b: seq<Candidate>)
    requires (forall c :: multiset(a)[c] <= 1) && (forall c :: multiset(b)[c] <= 1) && forall c :: c in a <==> c in b
    ensures multiset(a) == multiset(b)
  {
    forall c ensures multiset(a)[c] == multiset(b)[c] {
      assert c in a <==> c in multiset(a);
      assert c in b <==> c in multiset(b);
    }
  }

  /** The second of two cleanups goes for exactly what the first has left of the doomed. */
  lemma RetriesWhatIsLeft(before: Fs, after: Fs, codec: Codec, place: Place, filename: string, now: int,
                          first: seq<Candidate>, gone: seq<Candidate>, second: seq<Candidate>)
    requires AreListed(before, codec, place, filename, first) && AreListed(after, codec, place, filename, second)
    requires place.Bound(before) && Cleared(before, after, gone, place)
    requires Doomed(Sorted(first), now - RETENTION) <= |Sorted(first)| && forall g :: g in gone ==> g in Attempted(first, now - RETENTION)
    ensures Doomed(Sorted(second), now - RETENTION) <= |Sorted(second)|
    ensures Attempted(second, now - RETENTION) == Filter(Attempted(first, now - RETENTION), NotIn(gone))
  {
    hide Sorted, Doomed, Lists, Cleared, Filter, Place.Bound;
    var s, left := Sorted(first), Filter(Sorted(first), NotIn(gone));
    KeepsNewestAndYoung(first, now - RETENTION);
    SameElements(first, s);
    forall c ensures c in second <==> c in first && c !in gone {
      ListsTheOthers(before, after, codec, place, filename, first, gone, c);
    }
    FilterKeeps(s, NotIn(gone));
    forall c ensures multiset(left)[c] <= 1 {
      FilterCounts(s, NotIn(gone), c);
      assert multiset(first)[c] <= 1;
    }
    SameMultiset(second, left);
    SecondRunRetriesFailures(first, now - RETENTION, gone, second);
  }

  lemma AttemptedAreCandidates(cs: seq<Candidate>, cutoff: int)
    requires Doomed(Sorted(cs), cutoff) <= |Sorted(cs)|
    ensures forall c :: c in Attempted(cs, cutoff) ==> c in cs
  {
    hide Sorted, Doomed;
    KeepsNewestAndYoung(cs, cutoff);
    SameElements(cs, Sorted(cs));
  }

  lemma {:induction false} NoneLeft(cs: seq<Candidate>, gone: seq<Candidate>)
    requires forall c :: c in cs ==> c in gone
    ensures Filter(cs, NotIn(gone)) == []
  {
    if cs != [] { NoneLeft(cs[1..], gone); }
  }

  /** A cleanup leaves the directories where they are. */
  lemma StillBound(before: Fs, after: Fs, codec: Codec, place: Place, filename: string, cs: seq<Candidate>, gone: seq<Candidate>)
    requires place.Bound(before) && Cleared(before, after, gone, place)
    requires (cs == [] || AreListed(before, codec, place, filename, cs)) && forall g :: g in gone ==> g in cs
    ensures place.Bound(after)
  {
    hide Dated;
    forall g | g in gone ensures before.Entry(place.Home(g), g.name).Some? && before.Entry(place.Home(g), g.name).value.File? {
      assert Lists(before, codec, place, filename, g);
    }
    ClearedIsBound(before, after, gone, place);
  }

  /** Two cleanups at the same time, with nobody else there.  Whatever failed in the first, the second goes for what it
      has left of the doomed.  If nothing fails at all, that is nothing, unless there is a name that cannot be read: then
      both panic and delete nothing. */
  method CleanUpTwice(files: ConfigFiles, place: Place, filename: string, now: int)
    returns (end: Ending, again: Ending, ghost mid: Fs, ghost cs: seq<Candidate>, ghost deleted: seq<Candidate>, ghost retried: seq<Candidate>)
    requires files.Valid() && files.env.Quiet() && place.Bound(files.fs)
    modifies files
    ensures files.Valid() && Cleared(old(files.fs), mid, deleted, place)
    ensures Doomed(Sorted(cs), now - RETENTION) <= |Sorted(cs)| && forall c :: c in deleted ==> c in Attempted(cs, now - RETENTION)
    ensures end == Completed ==> AreListed(old(files.fs), files.codec, place, filename, cs)
    ensures again == Completed && AreListed(old(files.fs), files.codec, place, filename, cs) ==>
              retried == Filter(Attempted(cs, now - RETENTION), NotIn(deleted))
    ensures files.env.NothingFails() && !Unreadable(old(files.fs), files.codec, place.parent, filename) ==>
              && end == Completed && again == Completed && deleted == Attempted(cs, now - RETENTION) && retried == []
              && Cleared(mid, files.fs, [], place)
    ensures files.env.NothingFails() && Unreadable(old(files.fs), files.codec, place.parent, filename) ==>
              end == Panics && again == Panics && files.log == old(files.log)
  {
    hide Sorted, Doomed, Attempted, Cleared, Filter, AreListed, SweepsFrom, CallsOf, Deletions, Place.Bound, Unreadable, Replay;
    var summary;
    ghost var attempted, later, removed;
    ghost var before := files.fs;
    end, summary, cs, attempted, deleted := files.Cleanup(place, filename, now);
    mid := files.fs;
    AttemptedAreCandidates(cs, now - RETENTION);
    StillBound(before, mid, files.codec, place, filename, cs, deleted);
    StillReadable(before, mid, files.codec, place, filename, deleted);
    again, summary, later, retried, removed := files.Cleanup(place, filename, now);
    if again == Completed && AreListed(before, files.codec, place, filename, cs) {
      RetriesWhatIsLeft(before, mid, files.codec, place, filename, now, cs, deleted, later);
    }
    if files.env.NothingFails() && end == Completed { NoneLeft(Attempted(cs, now - RETENTION), deleted); }
  }

  /** A cleanup makes no name unreadable. */
  lemma StillReadable(before: Fs, after: Fs, codec: Codec, place: Place, filename: string, gone: seq<Candidate>)
    requires Cleared(before, after, gone, place)
    ensures Unreadable(after, codec, place.parent, filename) ==> Unreadable(before, codec, place.parent, filename)
  {
    hide ParseLegacy;
  }
}
