/** What a save of the config, src/config.rs, can have done to the file system: theorems about every course that
    `ConfigSave.Save` can take, whatever the environment does at its hooks and whatever fails. */
module ConfigSafety {
  import opened Text
  import opened Sorting
  import opened BackupRetention
  import opened ConfigFileSystem
  import opened ConfigSave

  // ---- One step of a run ----

  lemma StepAt(job: Job, log: seq<Event>, i: nat)
    requires i < |log|
    ensures job.At(log[..i + 1]) == Happened(job.env, job.At(log[..i]), log[i])
  {
    assert log[..i + 1] == log[..i] + [log[i]];
    ReplayOne(job.env, job.start, log[..i], log[i]);
  }

  lemma Prefixes(job: Job, from: seq<Event>, c: Course, report: Report)
    requires Follows(job, from, c, report)
    ensures from <= c.entered <= c.backed <= c.committed <= c.ended
  {
    hide Replay, AreListed, SweepsFrom, Scratch, Cleared, SameAsRead, Holds, Snapshotted;
  }

  /** These calls change one entry of a directory. */
  predicate Touches(call: Call, dir: nat, name: string) {
    match call
    case Create(d, n, _) => d == dir && n == name
    case Write(d, n, _, _) => d == dir && n == name
    case Remove(d, n) => d == dir && n == name
    case Delete(d, n) => d == dir && n == name
    case _ => false
  }

  lemma TouchesOne(fs: Fs, call: Call, dir: nat, name: string)
    requires Touches(call, dir, name)
    ensures var next := Performed(fs, call);
      next.parentDir == fs.parentDir && forall d, n :: d != dir || n != name ==> next.Entry(d, n) == fs.Entry(d, n)
  {
  }

  // ---- Names ----

  lemma TempIsAnother(job: Job)
    ensures job.Temp() != job.filename
  {
    assert |job.Temp()| > |job.filename|;
  }

  lemma BackupIsAnother(job: Job, bytes: Bytes)
    requires Lawful(job.codec)
    ensures job.Backup(bytes) != job.filename && job.Backup(bytes) != job.Temp()
  {
    hide Lawful;
    var n := |job.filename|;
    assert |job.Backup(bytes)| > n;
    BackupGoesOn(job, bytes);
    assert job.Temp()[n + 1] == '.';
  }

  /** After the config's name and a dot comes a digit. */
  lemma BackupGoesOn(job: Job, bytes: Bytes)
    requires Lawful(job.codec)
    ensures |job.Backup(bytes)| > |job.filename| + 1 && IsDigit(job.Backup(bytes)[|job.filename| + 1])
  {
    assert job.Backup(bytes)[|job.filename| + 1] == job.codec.format(job.now)[0];
  }

  /** What a cleanup goes for are old backups of this config. */
  lemma AttemptedAreOld(job: Job, committed: seq<Event>, c: Course, complete: bool, d: Candidate)
    requires Sweeps(job, committed, c, complete) && d in c.attempted
    ensures Dated(job.codec, d.origin, d.name, job.filename) == Some(d.createdAt) && d.createdAt <= job.now - RETENTION
    ensures d.origin.Managed? ==> c.place.managed.Some?
  {
    hide Sorted, Doomed, DistinctNames, Dated, Deletable, Replay, SweepsFrom, Cleared;
    KeepsNewestAndYoung(c.candidates, job.now - RETENTION);
    SameElements(c.candidates, Sorted(c.candidates));
    var k :| 0 <= k < |c.attempted| && c.attempted[k] == d;
    assert c.attempted[k] == Sorted(c.candidates)[k] && d in Sorted(c.candidates);
    assert Lists(job.At(committed), job.codec, c.place, job.filename, d);
  }

  /** No old backup has the name of the config, or of the backup this save makes. */
  lemma OldIsAnother(job: Job, d: Candidate, bytes: Bytes)
    requires Lawful(job.codec)
    requires Dated(job.codec, d.origin, d.name, job.filename) == Some(d.createdAt) && d.createdAt <= job.now - RETENTION
    ensures d.name != job.filename && d.name != job.Backup(bytes)
  {
    hide Lawful, ParseManaged, ParseLegacy;
    BackupsAreNotTheConfig(job.codec, d.name, job.filename);
    SnapshotNameParses(job.codec, job.filename, job.now, bytes);
    SnapshotIsNotLegacy(job.codec, job.filename, job.now, bytes);
  }

  // ---- The calls of a save ----

  /** Call `i` of a save belongs to the part that event `i` belongs to. */
  ghost predicate Belongs(job: Job, from: seq<Event>, c: Course, report: Report, i: nat)
    requires i < |c.ended| && c.ended[i].Did?
  {
    var call, fs := c.ended[i].call, job.At(c.ended[..i]);
    if i < |c.entered| then call.MakeParent? && fs.parentDir == None
    else if i < |c.backed| then
      c.active.Some? && c.active.value.Present?
      && Backing(job, fs, call, c.place.parent, c.active.value.inode, c.active.value.bytes, c.place.managed)
    else if i < |c.committed| then
      if Written(report) && i + 1 == |c.committed| then call == Rename(c.place.parent, job.Temp(), job.filename)
      else Touches(call, c.place.parent, job.Temp()) && !call.Delete?
    else DeletesOne(fs, call, c.place, c.attempted)
  }

  lemma CommitCall(job: Job, backed: seq<Event>, committed: seq<Event>, dir: nat, active: Active, written: bool, i: nat)
    requires Commits(job, backed, committed, dir, active, written) && |backed| <= i < |committed| && committed[i].Did?
    ensures if written && i + 1 == |committed| then committed[i].call == Rename(dir, job.Temp(), job.filename)
            else Touches(committed[i].call, dir, job.Temp()) && !committed[i].call.Delete?
  {
    hide Replay, SameAsRead, Holds, Job.Temp;
  }

  lemma EveryCallBelongs(job: Job, from: seq<Event>, c: Course, report: Report, i: nat)
    requires Follows(job, from, c, report) && |from| <= i < |c.ended| && c.ended[i].Did?
    ensures Belongs(job, from, c, report, i)
  {
    hide Replay, AreListed, Cleared, Snapshotted, Backing, DeletesOne, Commits, ActiveOf, Touches, Attempted, Doomed, Sorted;
    Prefixes(job, from, c, report);
    if i < |c.entered| {
      assert c.ended[..i] == from && c.ended[i] == c.entered[i];
    } else if i < |c.backed| {
      assert c.ended[..i] == c.backed[..i] && c.ended[i] == c.backed[i];
    } else if i < |c.committed| {
      assert c.ended[i] == c.committed[i];
      CommitCall(job, c.backed, c.committed, c.place.parent, c.active.value, Written(report), i);
    }
  }

  /** No step of a save but its rename changes what the config path shows. */
  lemma CallSparesConfig(job: Job, from: seq<Event>, c: Course, report: Report, i: nat)
    requires Lawful(job.codec) && Follows(job, from, c, report)
    requires |from| <= i < |c.ended| && c.ended[i].Did? && !c.ended[i].call.Rename?
    ensures job.At(c.ended[..i + 1]).AtPath(job.filename) == job.At(c.ended[..i]).AtPath(job.filename)
  {
    hide Lawful, Follows, Sweeps, Replay, Dated, Deletable, Job.Temp, Job.Backup;
    var call, fs := c.ended[i].call, job.At(c.ended[..i]);
    Prefixes(job, from, c, report);
    EveryCallBelongs(job, from, c, report, i);
    StepAt(job, c.ended, i);
    TempIsAnother(job);
    if |c.entered| <= i < |c.backed| {
      BackupIsAnother(job, c.active.value.bytes);
      if !call.MakeManaged? { TouchesOne(fs, call, c.place.managed.value, job.Backup(c.active.value.bytes)); }
    } else if |c.backed| <= i < |c.committed| {
      TouchesOne(fs, call, c.place.parent, job.Temp());
    } else if |c.committed| <= i {
      var d :| d in c.attempted && call == Delete(c.place.Home(d), d.name);
      SweptIsAnother(job, from, c, report, d, []);
      TouchesOne(fs, call, c.place.Home(d), d.name);
    }
  }

  lemma SweptIsAnother(job: Job, from: seq<Event>, c: Course, report: Report, d: Candidate, bytes: Bytes)
    requires Lawful(job.codec) && Follows(job, from, c, report) && d in c.attempted
    ensures d.name != job.filename && d.name != job.Backup(bytes)
  {
    hide Lawful, Sweeps, BacksUp, Commits, ActiveOf, Opens, Dated, Job.Backup, Replay;
    if c.active.Some? {
      AttemptedAreOld(job, c.committed, c, Complete(report), d);
      OldIsAnother(job, d, bytes);
    }
  }

  // ---- The rename ----

  lemma WrittenIsCommitted(job: Job, from: seq<Event>, c: Course, report: Report)
    requires Follows(job, from, c, report) && Written(report)
    ensures |c.committed| == |c.backed| + 4 && c.active.Some?
    ensures c.ended[|c.committed| - 1] == Did(Rename(c.place.parent, job.Temp(), job.filename))
  {
    hide Opens, BacksUp, ActiveOf, SameAsRead, Holds, AreListed, SweepsFrom, Cleared, Replay;
    Prefixes(job, from, c, report);
    assert c.ended[|c.committed| - 1] == c.committed[|c.committed| - 1];
  }

  /** The config is renamed over once if the report says that it was, or may have been, written, and never otherwise;
      and no other step of the save changes what its path shows. */
  lemma OnlyTheRenameChangesConfig(job: Job, from: seq<Event>, c: Course, report: Report, i: nat)
    requires Lawful(job.codec) && Follows(job, from, c, report) && |from| <= i < |c.ended| && c.ended[i].Did?
    ensures if Written(report) && i == |c.committed| - 1 then c.ended[i].call == Rename(c.place.parent, job.Temp(), job.filename)
            else job.At(c.ended[..i + 1]).AtPath(job.filename) == job.At(c.ended[..i]).AtPath(job.filename)
  {
    hide Lawful, Follows, Replay, Dated, Deletable, Job.Temp, Job.Backup, Fs.AtPath;
    Prefixes(job, from, c, report);
    EveryCallBelongs(job, from, c, report, i);
    if Written(report) && i == |c.committed| - 1 {
      WrittenIsCommitted(job, from, c, report);
    } else {
      CallSparesConfig(job, from, c, report, i);
    }
  }

  /** Alone, a save that is not reported as written leaves the config as it was. */
  lemma {:induction false} QuietUnsavedKeepsConfig(job: Job, from: seq<Event>, c: Course, report: Report, i: nat)
    requires Lawful(job.codec) && Follows(job, from, c, report) && job.env.Quiet() && !Written(report) && |from| <= i <= |c.ended|
    ensures job.At(c.ended[..i]).AtPath(job.filename) == job.At(from).AtPath(job.filename)
  {
    hide Lawful, Follows, Replay, Fs.AtPath;
    Prefixes(job, from, c, report);
    if i == |from| {
      assert c.ended[..i] == from;
    } else {
      QuietUnsavedKeepsConfig(job, from, c, report, i - 1);
      StepAt(job, c.ended, i - 1);
      if c.ended[i - 1].Did? { OnlyTheRenameChangesConfig(job, from, c, report, i - 1); }
    }
  }

  lemma EnteringKeepsConfig(job: Job, from: seq<Event>, c: Course, report: Report)
    requires Follows(job, from, c, report) && c.active.Some?
    ensures ActiveOf(job.At(from), job.filename) == c.active
  {
    hide BacksUp, Commits, Sweeps, Replay;
    if c.entered != from {
      StepAt(job, c.entered, |from|);
      assert c.entered[..|from|] == from && c.entered[..|from| + 1] == c.entered;
    }
  }

  /** The rename is made only while the path shows what was there when the save began: the same file, or still
      nothing. */
  lemma RenamesOverWhatWasRead(job: Job, from: seq<Event>, c: Course, report: Report)
    requires Follows(job, from, c, report) && Written(report)
    ensures ActiveOf(job.At(from), job.filename).Some?
    ensures SameAsRead(job.At(c.ended[..|c.committed| - 1]).AtPath(job.filename), ActiveOf(job.At(from), job.filename).value)
  {
    hide Opens, BacksUp, ActiveOf, SameAsRead, Holds, AreListed, SweepsFrom, Cleared, Replay, Fs.AtPath;
    WrittenIsCommitted(job, from, c, report);
    EnteringKeepsConfig(job, from, c, report);
    assert c.ended[..|c.committed| - 1] == c.committed[..|c.committed| - 1];
  }

  // ---- The backup ----

  /** Before an existing config is renamed over, exactly the bytes that were read have been written under a name that
      was free.  `k` is the event after that. */
  lemma BackedUpBeforeRename(job: Job, from: seq<Event>, c: Course, report: Report) returns (managed: nat, k: nat)
    requires Follows(job, from, c, report) && Written(report)
    requires ActiveOf(job.At(from), job.filename).Some? && ActiveOf(job.At(from), job.filename).value.Present?
    ensures var bytes := ActiveOf(job.At(from), job.filename).value.bytes;
      && |from| + 2 <= k == |c.backed| < |c.committed| - 1 && c.place.managed == Some(managed)
      && job.At(c.ended[..k - 2]).Entry(managed, job.Backup(bytes)) == None
      && exists inode :: job.At(c.ended[..k]).Entry(managed, job.Backup(bytes)) == Some(File(inode, bytes, 1))
  {
    hide Opens, ActiveOf, SameAsRead, Holds, Sweeps, Replay, Backing, Job.Backup;
    WrittenIsCommitted(job, from, c, report);
    EnteringKeepsConfig(job, from, c, report);
    managed, k := c.place.managed.value, |c.backed|;
    Prefixes(job, from, c, report);
    assert c.ended[..k - 2] == c.backed[..k - 2];
    assert c.ended[k - 1] == c.backed[k - 1];
    StepAt(job, c.ended, k - 1);
  }

  /** No step of the save after that touches the backup. */
  lemma CallSparesBackup(job: Job, from: seq<Event>, c: Course, report: Report, i: nat)
    requires Lawful(job.codec) && Follows(job, from, c, report) && c.active.Some? && c.active.value.Present? && c.place.managed.Some?
    requires |c.backed| <= i < |c.ended| && c.ended[i].Did?
    ensures var managed, name := c.place.managed.value, job.Backup(c.active.value.bytes);
      job.At(c.ended[..i + 1]).Entry(managed, name) == job.At(c.ended[..i]).Entry(managed, name)
  {
    hide Lawful, Follows, Sweeps, Replay, Dated, Deletable, Job.Temp, Job.Backup;
    var call, fs := c.ended[i].call, job.At(c.ended[..i]);
    var name := job.Backup(c.active.value.bytes);
    Prefixes(job, from, c, report);
    EveryCallBelongs(job, from, c, report, i);
    StepAt(job, c.ended, i);
    BackupIsAnother(job, c.active.value.bytes);
    if i < |c.committed| {
      if !call.Rename? { TouchesOne(fs, call, c.place.parent, job.Temp()); }
    } else {
      var d :| d in c.attempted && call == Delete(c.place.Home(d), d.name);
      SweptIsAnother(job, from, c, report, d, c.active.value.bytes);
      TouchesOne(fs, call, c.place.Home(d), d.name);
    }
  }

  /** Alone, the backup is there when the save ends. */
  lemma {:induction false} QuietKeepsBackup(job: Job, from: seq<Event>, c: Course, report: Report, i: nat)
    requires Lawful(job.codec) && Follows(job, from, c, report) && c.active.Some? && c.active.value.Present? && c.place.managed.Some?
    requires job.env.Quiet() && |c.backed| <= i <= |c.ended|
    ensures var managed, name := c.place.managed.value, job.Backup(c.active.value.bytes);
      job.At(c.ended[..i]).Entry(managed, name) == job.At(c.ended[..|c.backed|]).Entry(managed, name)
  {
    hide Lawful, Follows, Replay, Fs.Entry, Job.Backup;
    if i > |c.backed| {
      QuietKeepsBackup(job, from, c, report, i - 1);
      StepAt(job, c.ended, i - 1);
      if c.ended[i - 1].Did? { CallSparesBackup(job, from, c, report, i - 1); }
    }
  }

  // ---- The cleanup ----

  /** A save deletes nothing but old backups of this config: plain files with one link, dated before the retention
      period, and never the file that was the config when the save began. */
  lemma DeletesOnlyOldBackups(job: Job, from: seq<Event>, c: Course, report: Report, i: nat)
    requires Follows(job, from, c, report) && |from| <= i < |c.ended| && c.ended[i].Did? && c.ended[i].call.Delete?
    ensures exists d: Candidate ::
      && Dated(job.codec, d.origin, d.name, job.filename) == Some(d.createdAt) && d.createdAt <= job.now - RETENTION
      && c.ended[i].call == Delete(c.place.Home(d), d.name)
      && Deletable(job.At(c.ended[..i]).Entry(c.place.Home(d), d.name), d.inode, c.place.protected)
    ensures c.active.Some? && (c.active.value.Present? ==> c.active.value.inode in c.place.protected)
    ensures Written(report) || Current(report)
  {
    hide Replay, Dated, Deletable, Job.Temp, Job.Backup, BacksUp, Commits, Sweeps, ActiveOf, Opens;
    Prefixes(job, from, c, report);
    EveryCallBelongs(job, from, c, report, i);
    var d :| d in c.attempted && c.ended[i].call == Delete(c.place.Home(d), d.name)
             && Deletable(job.At(c.ended[..i]).Entry(c.place.Home(d), d.name), d.inode, c.place.protected);
    AttemptedAreOld(job, c.committed, c, Complete(report), d);
  }

  /** If the config is already as it should be, nothing is written: deletions are the only calls. */
  lemma CurrentOnlyDeletes(job: Job, from: seq<Event>, c: Course, report: Report, i: nat)
    requires Follows(job, from, c, report) && Current(report) && |from| <= i < |c.ended| && c.ended[i].Did?
    ensures c.ended[i].call.Delete?
  {
    hide Replay, Sweeps, BacksUp, Commits;
    Prefixes(job, from, c, report);
    EveryCallBelongs(job, from, c, report, i);
    EnteringKeepsConfig(job, from, c, report);
  }
}
