/** When a save of the config, src/config.rs, succeeds, what it leaves behind if it is alone, and what it loses if it
    is not. */
module ConfigOutcomes {
  import opened Text
  import opened BackupRetention
  import opened ConfigFileSystem
  import opened ConfigSave
  import opened ConfigSafety

  // ---- A save that is alone ----

  /** What a save asks of the file system: the parent is a directory and no link, the config is absent or a file, and
      differs from what is to be saved; there is no temporary file of this process; and an existing config can be
      backed up under a new name. */
  predicate Usable(job: Job, fs: Fs) {
    fs.parentDir == None ||
    (fs.parentPlain && fs.AtPath(job.Temp()) == None && (fs.AtPath(MANAGED_NAME) == None || fs.AtPath(MANAGED_NAME).value.Directory?)
     && match fs.AtPath(job.filename)
        case None => true
        case Some(File(_, bytes, _)) => bytes != job.newBytes && NameIsFree(job, fs, bytes)
        case _ => false)
  }

  predicate NameIsFree(job: Job, fs: Fs, bytes: Bytes) {
    match fs.AtPath(MANAGED_NAME) case Some(Directory(id)) => fs.Entry(id, job.Backup(bytes)) == None case _ => true
  }

  /** The managed directory is the one that is there, or a new and empty one; nothing else changes in the parent. */
  lemma MakesManaged(job: Job, fs: Fs, step: nat, dir: nat)
    requires job.env.FreshDirectories() && fs.parentDir == Some(dir)
    requires fs.AtPath(MANAGED_NAME) == None || fs.AtPath(MANAGED_NAME).value.Directory?
    ensures var made := Making(job, fs, step, dir);
      && made.parentPlain == fs.parentPlain && made.parentDir == fs.parentDir
      && made.AtPath(MANAGED_NAME).Some? && made.AtPath(MANAGED_NAME).value.Directory?
      && (forall n :: n != MANAGED_NAME ==> made.Entry(dir, n) == fs.Entry(dir, n))
      && if fs.AtPath(MANAGED_NAME).Some? then made == fs
         else made.AtPath(MANAGED_NAME).value.id != dir && forall n :: made.Entry(made.AtPath(MANAGED_NAME).value.id, n) == None
  {
    if fs.AtPath(MANAGED_NAME) == None {
      var id := job.env.inode(step + 2, fs);
      ReplayOne(job.env, fs, [], Did(MakeManaged(dir, id)));
      assert [] + [Did(MakeManaged(dir, id))] == [Did(MakeManaged(dir, id))];
    }
  }

  lemma TempIsNotManaged(job: Job)
    ensures job.Temp() != MANAGED_NAME
  {
    assert job.Temp()[|job.filename| + 1] == '.';
    assert forall i :: 1 <= i < |MANAGED_NAME| ==> MANAGED_NAME[i] != '.';
  }

  lemma BackupIsNotManaged(job: Job, bytes: Bytes)
    requires Lawful(job.codec)
    ensures job.Backup(bytes) != MANAGED_NAME
  {
    BackupGoesOn(job, bytes);
    assert forall i :: 0 <= i < |MANAGED_NAME| ==> !IsDigit(MANAGED_NAME[i]);
  }

  /** The managed directory, if there is one, is not the config's own. */
  predicate Separate(fs: Fs) { fs.parentDir.Some? ==> fs.AtPath(MANAGED_NAME) != Some(Directory(fs.parentDir.value)) }

  /** Alone, a backup succeeds exactly if the name is free, and changes nothing else that the save looks at. */
  lemma QuietBacksUp(job: Job, fs: Fs, step: nat, dir: nat, active: Active)
    requires Lawful(job.codec) && job.env.Quiet() && job.env.FreshDirectories() && fs.parentDir == Some(dir)
    requires ActiveOf(fs, job.filename) == Some(active)
    ensures CanBackUp(job, fs, step, dir, active) <==>
              (fs.AtPath(MANAGED_NAME) == None || fs.AtPath(MANAGED_NAME).value.Directory?)
              && (active.Present? ==> NameIsFree(job, fs, active.bytes))
    ensures CanBackUp(job, fs, step, dir, active) ==>
              var after := BackedUp(job, fs, step, dir, active);
              && after.parentPlain == fs.parentPlain && after.parentDir == fs.parentDir
              && after.AtPath(job.filename) == fs.AtPath(job.filename) && after.AtPath(job.Temp()) == fs.AtPath(job.Temp())
              && after.AtPath(MANAGED_NAME) ==
                   (if active.Absent? then fs.AtPath(MANAGED_NAME) else Making(job, fs, step, dir).AtPath(MANAGED_NAME))
              && (Separate(fs) ==> forall n :: n != MANAGED_NAME ==> after.Entry(dir, n) == fs.Entry(dir, n))
  {
    hide Lawful, Job.Temp, Job.Backup, Making, MakeEvents, SnapshotEvents, Replay;
    if active.Present? && (fs.AtPath(MANAGED_NAME) == None || fs.AtPath(MANAGED_NAME).value.Directory?) {
      MakesManaged(job, fs, step, dir);
      QuietSnapshot(job, fs, step, dir, active.bytes);
      TempIsNotManaged(job);
      BackupIsNotManaged(job, active.bytes);
      BackupIsAnother(job, active.bytes);
    }
    EmptyReplay(job.env, fs);
  }

  lemma EnteringMakes(job: Job, fs: Fs, step: nat)
    ensures Entering(job, fs, step) ==
      if fs.parentDir == None then Fs(true, Some(job.env.inode(step + 1, fs)), fs.dirs[job.env.inode(step + 1, fs) := map[]]) else fs
  {
    if fs.parentDir == None {
      var id := job.env.inode(step + 1, fs);
      assert [] + [Did(MakeParent(id))] == OpenEvents(job.env, fs, step);
      ReplayOne(job.env, fs, [], Did(MakeParent(id)));
    }
  }

  lemma EmptyReplay(env: Env, fs: Fs)
    ensures Replay(env, fs, []) == fs
  {
  }

  lemma QuietSnapshot(job: Job, fs: Fs, step: nat, dir: nat, bytes: Bytes)
    requires job.env.Quiet() && Making(job, fs, step, dir).AtPath(MANAGED_NAME).Some?
    requires Making(job, fs, step, dir).AtPath(MANAGED_NAME).value.Directory?
    ensures var made := Making(job, fs, step, dir);
      exists i :: forall inode ::
        BackedUp(job, fs, step, dir, Present(inode, bytes)) == made.With(made.AtPath(MANAGED_NAME).value.id, job.Backup(bytes), File(i, bytes, 1))
  {
    hide Job.Backup, MakeEvents, SnapshotEvents, Replay, Performed, Happened;
    var made := Making(job, fs, step, dir);
    var managed := made.AtPath(MANAGED_NAME).value.id;
    var at := step + MakeSteps(fs, true);
    SnapshotReplays(job.env, made, at, managed, job.Backup(bytes), bytes);
    ReplayAppends(job.env, fs, MakeEvents(job.env, fs, step, dir, true), SnapshotEvents(job.env, made, at, managed, job.Backup(bytes), bytes));
  }

  lemma QuietReady(job: Job, fs: Fs, step: nat, dir: nat, active: Active)
    requires job.env.Quiet() && fs.parentDir == Some(dir) && SameAsRead(fs.AtPath(job.filename), active)
    ensures Ready(job.env, fs, step, dir, job.filename, job.newBytes, active, job.Temp()) <==> fs.AtPath(job.Temp()) == None
  {
    hide Job.Temp, SameAsRead;
    TempIsAnother(job);
    assert AfterHook(job.env, fs, step, dir, job.newBytes, job.Temp()).AtPath(job.filename) == fs.AtPath(job.filename);
  }

  /** Alone and without failures, a config directory that is there is used exactly if it is usable. */
  lemma QuietReplacesIff(job: Job, fs: Fs, step: nat, dir: nat, active: Active)
    requires Lawful(job.codec) && job.env.Quiet() && job.env.FreshDirectories() && fs.parentPlain && fs.parentDir == Some(dir)
    requires ActiveOf(fs, job.filename) == Some(active)
    ensures CanReplace(job, fs, step, dir, active) <==>
              (fs.AtPath(MANAGED_NAME) == None || fs.AtPath(MANAGED_NAME).value.Directory?)
              && (active.Present? ==> NameIsFree(job, fs, active.bytes)) && fs.AtPath(job.Temp()) == None
  {
    hide Lawful, CanBackUp, BackedUp, Job.Temp, NameIsFree, Ready, Replay;
    QuietBacksUp(job, fs, step, dir, active);
    if CanBackUp(job, fs, step, dir, active) {
      QuietReady(job, BackedUp(job, fs, step, dir, active), step + BackupSteps(fs, active) + 1, dir, active);
    }
  }

  /** Alone and without failures, a save replaces the config exactly if the file system is usable. */
  lemma QuietCanSaveIff(job: Job, fs: Fs, step: nat)
    requires Lawful(job.codec) && job.env.Quiet() && job.env.FreshDirectories()
    ensures CanSave(job, fs, step) <==> Usable(job, fs)
  {
    hide Lawful, CanReplace, Job.Temp, NameIsFree, Entering;
    EnteringMakes(job, fs, step);
    var entry := Entering(job, fs, step);
    if fs.parentDir == None {
      QuietReplacesIff(job, entry, BackupStep(fs, step), entry.parentDir.value, Absent);
    } else if fs.parentPlain && ActiveOf(fs, job.filename).Some? {
      QuietReplacesIff(job, fs, BackupStep(fs, step), fs.parentDir.value, ActiveOf(fs, job.filename).value);
    }
  }

  // ---- What it leaves behind ----

  /** Alone, the config's path goes on leading to the directory that was opened. */
  lemma {:induction false} QuietKeepsParent(job: Job, from: seq<Event>, c: Course, report: Report, i: nat)
    requires Follows(job, from, c, report) && c.active.Some? && job.env.Quiet() && |c.entered| <= i <= |c.ended|
    ensures job.At(c.ended[..i]).parentDir == Some(c.place.parent)
  {
    hide Replay, Opens, BacksUp, Commits, Sweeps, ActiveOf;
    Prefixes(job, from, c, report);
    if i == |c.entered| {
      assert c.ended[..i] == c.entered;
    } else {
      QuietKeepsParent(job, from, c, report, i - 1);
      StepAt(job, c.ended, i - 1);
      if c.ended[i - 1].Did? { EveryCallBelongs(job, from, c, report, i - 1); }
    }
  }

  lemma {:induction false} QuietKeepsNewConfig(job: Job, from: seq<Event>, c: Course, report: Report, i: nat)
    requires Lawful(job.codec) && Follows(job, from, c, report) && job.env.Quiet() && |c.committed| <= i <= |c.ended|
    ensures job.At(c.ended[..i]).AtPath(job.filename) == job.At(c.committed).AtPath(job.filename)
  {
    hide Lawful, Follows, Replay, Fs.AtPath;
    Prefixes(job, from, c, report);
    if i == |c.committed| {
      assert c.ended[..i] == c.committed;
    } else {
      QuietKeepsNewConfig(job, from, c, report, i - 1);
      StepAt(job, c.ended, i - 1);
      if c.ended[i - 1].Did? { OnlyTheRenameChangesConfig(job, from, c, report, i - 1); }
    }
  }

  /** The calls of a commit, with nobody else there. */
  lemma QuietCommits(job: Job, backed: seq<Event>, committed: seq<Event>, dir: nat, active: Active)
    requires job.env.Quiet() && Commits(job, backed, committed, dir, active, true)
    ensures exists inode :: job.At(committed).Entry(dir, job.filename) == Some(File(inode, job.newBytes, 1))
  {
    hide Replay, Job.Temp, SameAsRead;
    var k := |backed|;
    TempIsAnother(job);
    assert committed[..k] == backed && committed[..k + 4] == committed;
    StepAt(job, committed, k);
    StepAt(job, committed, k + 1);
    StepAt(job, committed, k + 2);
    StepAt(job, committed, k + 3);
  }

  /** Alone, a save that is reported as written leaves exactly the new bytes at the config path, whatever failed on
      the way, and the bytes it replaced in their backup. */
  lemma QuietWrittenShowsNew(job: Job, from: seq<Event>, c: Course, report: Report)
    requires Lawful(job.codec) && job.env.Quiet() && Follows(job, from, c, report) && Written(report)
    ensures exists inode :: job.At(c.ended).AtPath(job.filename) == Some(File(inode, job.newBytes, 1))
    ensures match ActiveOf(job.At(from), job.filename)
            case Some(Present(_, bytes)) =>
              c.place.managed.Some?
              && exists inode :: job.At(c.ended).Entry(c.place.managed.value, job.Backup(bytes)) == Some(File(inode, bytes, 1))
            case read => read == Some(Absent)
  {
    hide Lawful, Opens, BacksUp, Commits, Sweeps, Replay, Job.Temp, Job.Backup;
    WrittenIsCommitted(job, from, c, report);
    Prefixes(job, from, c, report);
    assert c.ended[..|c.ended|] == c.ended && c.ended[..|c.committed|] == c.committed;
    QuietKeepsParent(job, from, c, report, |c.committed|);
    QuietCommits(job, c.backed, c.committed, c.place.parent, c.active.value);
    QuietKeepsNewConfig(job, from, c, report, |c.ended|);
    EnteringKeepsConfig(job, from, c, report);
    if c.active.value.Present? {
      var managed, k := BackedUpBeforeRename(job, from, c, report);
      QuietKeepsBackup(job, from, c, report, |c.ended|);
    }
  }

  // ---- That it succeeds ----

  /** Alone, a commit leaves the directories as the backup left them. */
  lemma QuietCommitKeepsDirectories(job: Job, fs: Fs, step: nat, dir: nat)
    requires job.env.Quiet() && fs.parentDir == Some(dir) && job.filename != MANAGED_NAME
    ensures var after := Replay(job.env, fs, CommitEvents(job.env, fs, step, dir, job.filename, job.newBytes, job.Temp()));
      && after.parentPlain == fs.parentPlain && after.parentDir == fs.parentDir && after.AtPath(MANAGED_NAME) == fs.AtPath(MANAGED_NAME)
      && (forall n :: n != job.filename && n != job.Temp() ==> after.Entry(dir, n) == fs.Entry(dir, n))
      && after.Entry(dir, job.Temp()) == None
  {
    hide Job.Temp, CommitEvents, Replay;
    TempIsAnother(job);
    TempIsNotManaged(job);
    CommitReplays(job.env, fs, step, dir, job.filename, job.newBytes, job.Temp());
  }

  /** Where the managed directory is after a backup. */
  lemma FindsManaged(job: Job, from: seq<Event>, backed: seq<Event>, step: nat, dir: nat, active: Active, managed: Option<nat>)
    requires Lawful(job.codec) && job.env.Quiet() && job.env.FreshDirectories() && job.At(from).parentDir == Some(dir)
    requires ActiveOf(job.At(from), job.filename) == Some(active) && CanBackUp(job, job.At(from), step, dir, active)
    requires BacksUp(job, from, backed, dir, active, managed, true) && backed == from + BackupEvents(job, job.At(from), step, dir, active)
    ensures Finds(job.At(backed), managed) && job.At(backed) == BackedUp(job, job.At(from), step, dir, active)
  {
    hide Lawful, Replay, Job.Backup, Making, MakeEvents, Backing;
    QuietBacksUp(job, job.At(from), step, dir, active);
    ReplayAppends(job.env, job.start, from, BackupEvents(job, job.At(from), step, dir, active));
  }

  lemma EnteredIs(job: Job, from: seq<Event>, step: nat, c: Course, report: Report)
    requires Follows(job, from, c, report) && Faultless(job, from, step, c, report) && Written(report)
    ensures c.entered == from + OpenEvents(job.env, job.At(from), step)
  {
    hide Replay, CanReplace, ReplaceEvents, Sweeps, BacksUp, Commits, ActiveOf;
    Prefixes(job, from, c, report);
    if c.entered != from {
      var make := OpenEvents(job.env, job.At(from), step);
      assert c.committed[..|from| + 1] == from + make && c.committed[..|from| + 1] == c.entered;
    }
  }

  /** The parts of a faultless save. */
  lemma FaultlessParts(job: Job, from: seq<Event>, step: nat, c: Course, report: Report)
    requires Follows(job, from, c, report) && Faultless(job, from, step, c, report) && Written(report)
    ensures var fs, entry := job.At(from), Entering(job, job.At(from), step);
      && c.entered == from + OpenEvents(job.env, fs, step) && job.At(c.entered) == entry
      && c.backed == c.entered + BackupEvents(job, entry, BackupStep(fs, step), c.place.parent, c.active.value)
      && c.committed == c.backed + CommitEvents(job.env, BackedUp(job, entry, BackupStep(fs, step), c.place.parent, c.active.value),
                                                BackupStep(fs, step) + BackupSteps(entry, c.active.value) + 1,
                                                c.place.parent, job.filename, job.newBytes, job.Temp())
  {
    hide Replay, CanReplace, BackupEvents, Job.Temp, Sweeps, BacksUp;
    var fs := job.At(from);
    var entry := Entering(job, fs, step);
    WrittenIsCommitted(job, from, c, report);
    EnteringKeepsConfig(job, from, c, report);
    Prefixes(job, from, c, report);
    EnteredIs(job, from, step, c, report);
    ReplayAppends(job.env, job.start, from, OpenEvents(job.env, fs, step));
    var backup := BackupEvents(job, entry, BackupStep(fs, step), c.place.parent, c.active.value);
    assert |c.committed| == |from + OpenEvents(job.env, fs, step) + backup| + 4;
    assert c.committed[..|c.backed|] == from + OpenEvents(job.env, fs, step) + backup;
  }

  /** The directories a save that is alone cleans up are where they were. */
  lemma QuietIsBound(job: Job, from: seq<Event>, step: nat, c: Course, report: Report)
    requires Lawful(job.codec) && job.env.Quiet() && job.env.FreshDirectories() && job.filename != MANAGED_NAME && Separate(job.At(from))
    requires Follows(job, from, c, report) && Faultless(job, from, step, c, report) && Written(report)
    ensures c.place.Bound(job.At(c.committed))
  {
    hide Lawful, Replay, BackupEvents, CommitEvents, CanBackUp, BackedUp, Ready, Job.Temp, Job.Backup, Sweeps, Commits, Making, ActiveOf;
    var fs, entry := job.At(from), Entering(job, job.At(from), step);
    var at, dir, active := BackupStep(fs, step), c.place.parent, c.active.value;
    FaultlessParts(job, from, step, c, report);
    EnteringSeparate(job, fs, step);
    FindsManaged(job, c.entered, c.backed, at, dir, active, c.place.managed);
    QuietBacksUp(job, entry, at, dir, active);
    if entry.AtPath(MANAGED_NAME) == None || entry.AtPath(MANAGED_NAME).value.Directory? { MakesManaged(job, entry, at, dir); }
    QuietCommitKeepsDirectories(job, job.At(c.backed), at + BackupSteps(entry, active) + 1, dir);
    ReplayAppends(job.env, job.start, c.backed,
      CommitEvents(job.env, job.At(c.backed), at + BackupSteps(entry, active) + 1, dir, job.filename, job.newBytes, job.Temp()));
  }

  /** Alone, until its cleanup a save changes no entry of the config's directory but its own three. */
  lemma QuietKeepsEntries(job: Job, from: seq<Event>, step: nat, c: Course, report: Report)
    requires Lawful(job.codec) && job.env.Quiet() && job.env.FreshDirectories() && job.filename != MANAGED_NAME && Separate(job.At(from))
    requires Follows(job, from, c, report) && Faultless(job, from, step, c, report) && Written(report)
    ensures var entry, dir := Entering(job, job.At(from), step), c.place.parent;
      && entry.Entry(dir, job.Temp()) == None == job.At(c.committed).Entry(dir, job.Temp())
      && forall n :: n != job.filename && n != MANAGED_NAME && n != job.Temp() ==> job.At(c.committed).Entry(dir, n) == entry.Entry(dir, n)
  {
    hide Lawful, Replay, BackupEvents, CommitEvents, CanBackUp, BackedUp, Ready, Job.Temp, Job.Backup, Sweeps, Commits, Making, ActiveOf;
    var fs, entry := job.At(from), Entering(job, job.At(from), step);
    var at, dir, active := BackupStep(fs, step), c.place.parent, c.active.value;
    FaultlessParts(job, from, step, c, report);
    EnteringSeparate(job, fs, step);
    FindsManaged(job, c.entered, c.backed, at, dir, active, c.place.managed);
    QuietBacksUp(job, entry, at, dir, active);
    QuietCommitKeepsDirectories(job, job.At(c.backed), at + BackupSteps(entry, active) + 1, dir);
    ReplayAppends(job.env, job.start, c.backed,
      CommitEvents(job.env, job.At(c.backed), at + BackupSteps(entry, active) + 1, dir, job.filename, job.newBytes, job.Temp()));
    QuietReplacesIff(job, entry, at, dir, active);
  }

  /** Alone, the names that a save's cleanup reads in the config's directory panic iff some did when the save began. */
  lemma QuietTripsIff(job: Job, from: seq<Event>, step: nat, c: Course, report: Report)
    requires Lawful(job.codec) && job.env.Quiet() && job.env.FreshDirectories() && job.filename != MANAGED_NAME && Separate(job.At(from))
    requires Follows(job, from, c, report) && Faultless(job, from, step, c, report) && Written(report)
    ensures Trips(job, c) <==> BeginsUnreadable(job, job.At(from))
  {
    hide Lawful, Replay, Entering, Job.Temp, Faultless, BacksUp, Commits, Sweeps, ActiveOf, ParseLegacy;
    var entry, dir := Entering(job, job.At(from), step), c.place.parent;
    EnteringIs(job, from, step, c, report);
    EnteringMakes(job, job.At(from), step);
    QuietKeepsEntries(job, from, step, c, report);
    AsciiDoesNotPanic(job.codec, MANAGED_NAME, job.filename);
    forall name ensures ParseLegacy(job.codec, name, job.filename) == Panic ==>
                          (job.At(c.committed).Entry(dir, name).Some? <==> entry.Entry(dir, name).Some?)
    {
      BackupsAreNotTheConfig(job.codec, name, job.filename);
    }
  }

  lemma EnteringIs(job: Job, from: seq<Event>, step: nat, c: Course, report: Report)
    requires Follows(job, from, c, report) && Faultless(job, from, step, c, report) && Written(report)
    ensures Entering(job, job.At(from), step).parentDir == Some(c.place.parent)
  {
    hide Replay, BacksUp, Commits, Sweeps, BackupEvents, CommitEvents;
    FaultlessParts(job, from, step, c, report);
  }

  /** The config's directory holds a name that cannot be read. */
  ghost predicate BeginsUnreadable(job: Job, fs: Fs) { fs.parentDir.Some? && Unreadable(fs, job.codec, fs.parentDir.value, job.filename) }

  lemma EnteringSeparate(job: Job, fs: Fs, step: nat)
    requires Separate(fs)
    ensures Separate(Entering(job, fs, step))
  {
    hide Entering;
    EnteringMakes(job, fs, step);
  }

  /** Alone and without failures, a save reports success exactly if the file system was usable and every name in the
      config's directory can be read, and then its cleanup is done too; if one cannot, it panics after its rename.  A config
      that is already as it should be only needs its directories in order, and names that can be read. */
  lemma QuietSaveSucceedsIff(job: Job, from: seq<Event>, step: nat, c: Course, report: Report)
    requires Lawful(job.codec) && job.env.Quiet() && job.env.FreshDirectories() && job.filename != MANAGED_NAME && Separate(job.At(from))
    requires Follows(job, from, c, report) && Faultless(job, from, step, c, report)
    ensures report == Saved <==> Usable(job, job.At(from)) && !BeginsUnreadable(job, job.At(from))
    ensures report == SavedThenPanic <==> Usable(job, job.At(from)) && BeginsUnreadable(job, job.At(from))
    ensures report == Saved ==> c.deleted == c.attempted
    ensures Current(report) && IsIntact(job.At(from), c.place.parent) ==>
              if BeginsUnreadable(job, job.At(from)) then report == CurrentThenPanic else report == AlreadyCurrent && c.deleted == c.attempted
  {
    hide Lawful, Usable, CanSave, SaveEvents, Replay, BacksUp, Commits, Sweeps, Unreadable;
    QuietCanSaveIff(job, job.At(from), step);
    if Written(report) {
      QuietIsBound(job, from, step, c, report);
      QuietTripsIff(job, from, step, c, report);
    } else if Current(report) {
      EnteringKeepsConfig(job, from, c, report);
    }
  }

  // ---- What is lost when others are there ----

  /** Where a save's rename happens, and the file system then. */
  function RenameStep(job: Job, fs: Fs, step: nat, active: Active): nat {
    BackupStep(fs, step) + BackupSteps(Entering(job, fs, step), active) + 1
  }

  function SeenByRename(job: Job, fs: Fs, step: nat): Fs
    requires CanSave(job, fs, step)
  {
    var entry := Entering(job, fs, step);
    var dir, active := entry.parentDir.value, ActiveOf(entry, job.filename).value;
    AfterHook(job.env, BackedUp(job, entry, BackupStep(fs, step), dir, active), RenameStep(job, fs, step, active), dir, job.newBytes, job.Temp())
  }

  /** The run up to its rename, and the rename. */
  lemma SaveReplays(job: Job, fs: Fs, step: nat)
    requires CanSave(job, fs, step)
    ensures var run, dir := SaveEvents(job, fs, step), Entering(job, fs, step).parentDir.value;
      && |run| >= 4 && run[|run| - 1] == Did(Rename(dir, job.Temp(), job.filename))
      && Replay(job.env, fs, run[..|run| - 1]) == SeenByRename(job, fs, step)
      && Replay(job.env, fs, run) == Performed(SeenByRename(job, fs, step), Rename(dir, job.Temp(), job.filename))
  {
    hide Replay, BackupEvents, Job.Temp, CommitEvents, AfterHook, Performed, Ready, CanBackUp, ActiveOf;
    var entry := Entering(job, fs, step);
    var dir, active := entry.parentDir.value, ActiveOf(entry, job.filename).value;
    var at := BackupStep(fs, step);
    var before := BackedUp(job, entry, at, dir, active);
    var opening, backup := OpenEvents(job.env, fs, step), BackupEvents(job, entry, at, dir, active);
    var commit := CommitEvents(job.env, before, RenameStep(job, fs, step, active), dir, job.filename, job.newBytes, job.Temp());
    CommitReplays(job.env, before, RenameStep(job, fs, step, active), dir, job.filename, job.newBytes, job.Temp());
    EndsInRename(job.env, before, RenameStep(job, fs, step, active), dir, job.filename, job.newBytes, job.Temp());
    ReplayAppends(job.env, fs, opening, backup);
    ReplayAppends(job.env, fs, opening + backup, commit);
    ReplayAppends(job.env, fs, opening + backup, commit[..3]);
    var run := SaveEvents(job, fs, step);
    assert run == (opening + backup) + commit && run[..|run| - 1] == (opening + backup) + commit[..3];
  }

  lemma EndsInRename(env: Env, fs: Fs, step: nat, dir: nat, filename: string, newBytes: Bytes, temp: string)
    ensures |CommitEvents(env, fs, step, dir, filename, newBytes, temp)| == 4
    ensures CommitEvents(env, fs, step, dir, filename, newBytes, temp)[3] == Did(Rename(dir, temp, filename))
  {
  }

  /** Of a file that a save replaces the backup holds the bytes that it had when the save began.  So the replaced bytes
      are the backed-up ones exactly if the environment has left them alone until the rename; the save itself looks
      at the identity only. */
  lemma ReplacedIsBackedUpIffUnedited(job: Job, fs: Fs, step: nat)
    requires CanSave(job, fs, step) && ActiveOf(fs, job.filename).Some? && ActiveOf(fs, job.filename).value.Present?
    ensures var run, k := SaveEvents(job, fs, step), |SaveEvents(job, fs, step)|;
      var replaced := Replay(job.env, fs, run[..k - 1]).Entry(fs.parentDir.value, job.filename);
      var seen := SeenByRename(job, fs, step).Entry(fs.parentDir.value, job.filename);
      && k >= 7 && run[k - 5].Did? && run[k - 5].call.Write? && run[k - 5].call.name == job.Backup(ActiveOf(fs, job.filename).value.bytes)
      && (replaced.Some? && replaced.value.File? && replaced.value.bytes == run[k - 5].call.bytes <==>
            seen.Some? && seen.value.File? && seen.value.bytes == fs.AtPath(job.filename).value.bytes)
  {
    hide Replay, AfterHook, Performed, Ready, Job.Backup, Job.Temp, Making;
    SaveReplays(job, fs, step);
    EmptyReplay(job.env, fs);
    var active, at := ActiveOf(fs, job.filename).value, BackupStep(fs, step);
    assert |BackupEvents(job, fs, at, fs.parentDir.value, active)| >= 3;
    assert OpenEvents(job.env, fs, step) == [];
  }

  /** The path shows the saved file exactly if the environment has left it leading to the directory that was opened;
      otherwise it goes on showing what it showed.  The temporary file is not the one that was read. */
  lemma RenameReachesPathIffBound(job: Job, fs: Fs, step: nat)
    requires CanSave(job, fs, step)
    requires var entry := Entering(job, fs, step);
      var dir, active := entry.parentDir.value, ActiveOf(entry, job.filename).value;
      active.Present? ==>
        job.env.inode(RenameStep(job, fs, step, active) + 2, BackedUp(job, entry, BackupStep(fs, step), dir, active)) != active.inode
    ensures var entry, after, seen := Entering(job, fs, step), Replay(job.env, fs, SaveEvents(job, fs, step)), SeenByRename(job, fs, step);
      && seen.Entry(entry.parentDir.value, job.Temp()).Some?
      && (after.AtPath(job.filename) == seen.Entry(entry.parentDir.value, job.Temp()) <==> seen.parentDir == entry.parentDir)
      && (seen.parentDir != entry.parentDir ==> after.AtPath(job.filename) == seen.AtPath(job.filename))
  {
    hide Replay, AfterHook, CanBackUp, BackedUp, Job.Temp, SaveEvents;
    SaveReplays(job, fs, step);
    TempIsAnother(job);
    var entry, seen := Entering(job, fs, step), SeenByRename(job, fs, step);
    var after := Performed(seen, Rename(entry.parentDir.value, job.Temp(), job.filename));
    assert forall d :: d != entry.parentDir.value ==> after.Entry(d, job.filename) == seen.Entry(d, job.filename);
  }

  // ---- Two saves that lose something ----

  const CONFIG := "config.toml"

  /** Nothing fails, and another process does `act` before the rename, which is at step 16. */
  function Interrupted(codec: Codec, act: Fs -> Fs, inode: (nat, Fs) -> nat, start: Fs, newBytes: Bytes, now: int, pid: string): Job {
    var env := Env((n: nat, fs: Fs) => if n == 16 then act(fs) else fs, (n: nat) => true, inode, (n: nat) => 0);
    Job(env, codec, start, CONFIG, newBytes, now, pid)
  }

  /** A config in directory 1, file 7, whose backups are in directory 2. */
  function Begun(read: Bytes, links: nat, others: map<nat, map<string, Node>>): Fs {
    Fs(true, Some(1), others[1 := map[CONFIG := File(7, read, links), MANAGED_NAME := Directory(2)]][2 := map[]])
  }

  /** The file system when the other process acts: the backup and the temporary file are there. */
  function Prepared(job: Job, read: Bytes): Fs {
    var backed := job.start.With(2, job.Backup(read), File(job.env.inode(9, job.start), read, 1));
    backed.With(1, job.Temp(), File(job.env.inode(14, backed), job.newBytes, 1))
  }

  lemma InterruptedBacksUp(job: Job, act: Fs -> Fs, read: Bytes, links: nat, others: map<nat, map<string, Node>>)
    requires Lawful(job.codec)
    requires job == Interrupted(job.codec, act, job.env.inode, Begun(read, links, others), job.newBytes, job.now, job.pid)
    ensures Entering(job, job.start, 0) == job.start && CanBackUp(job, job.start, 4, 1, Present(7, read))
    ensures BackedUp(job, job.start, 4, 1, Present(7, read)) ==
              job.start.With(2, job.Backup(read), File(job.env.inode(9, job.start), read, 1))
  {
    hide Lawful, Job.Backup, Replay, SnapshotEvents;
    var fs := job.start;
    EmptyReplay(job.env, fs);
    assert Making(job, fs, 4, 1) == fs;
    SnapshotReplays(job.env, fs, 5, 2, job.Backup(read), read);
    assert BackupEvents(job, fs, 4, 1, Present(7, read)) == SnapshotEvents(job.env, fs, 5, 2, job.Backup(read), read);
  }

  /** The save succeeds if the other process leaves both files in place. */
  lemma InterruptedSaves(job: Job, act: Fs -> Fs, read: Bytes, links: nat, others: map<nat, map<string, Node>>)
    requires Lawful(job.codec) && read != job.newBytes
    requires job == Interrupted(job.codec, act, job.env.inode, Begun(read, links, others), job.newBytes, job.now, job.pid)
    requires var seen := act(Prepared(job, read));
      SameAsRead(seen.AtPath(CONFIG), Present(7, read)) && Holds(seen, 1, job.Temp(), Prepared(job, read).Entry(1, job.Temp()).value.inode)
    ensures CanSave(job, job.start, 0) && SeenByRename(job, job.start, 0) == act(Prepared(job, read))
  {
    hide Lawful, SameAsRead, Holds, Job.Temp, Job.Backup, Entering, CanBackUp, BackedUp;
    TempIsAnother(job);
    TempIsNotManaged(job);
    InterruptedBacksUp(job, act, read, links, others);
  }

  /** The config is rewritten in place. */
  function Edit(edited: Bytes): Fs -> Fs { (fs: Fs) => fs.With(1, CONFIG, File(7, edited, 1)) }

  /** The config's path is made to lead to directory 3. */
  function Move(): Fs -> Fs { (fs: Fs) => fs.(parentDir := Some(3)) }

  /** No file has these bytes. */
  ghost predicate Nowhere(fs: Fs, bytes: Bytes) { forall d, n, i, links :: fs.Entry(d, n) != Some(File(i, bytes, links)) }

  /** A rename over the config, in directory 1, takes its edit away. */
  lemma EditIsReplaced(fs: Fs, temp: string, edited: Bytes)
    requires Nowhere(fs, edited) && fs.Entry(1, temp).Some? && temp != CONFIG && fs.parentDir == Some(1)
    ensures var after := Performed(Edit(edited)(fs), Rename(1, temp, CONFIG));
      Nowhere(after, edited) && after.AtPath(CONFIG) == fs.Entry(1, temp)
  {
    var seen := Edit(edited)(fs);
    assert seen.Entry(1, temp) == fs.Entry(1, temp);
    var after := Performed(seen, Rename(1, temp, CONFIG));
    forall d, n | d != 1 || (n != CONFIG && n != temp) ensures after.Entry(d, n) == fs.Entry(d, n) {
      assert seen.Entry(d, n) == fs.Entry(d, n);
    }
  }

  lemma PreparedIs(job: Job, read: Bytes, edited: Bytes)
    requires job.start == Begun(read, 1, map[]) && edited != read && edited != job.newBytes
    ensures var fs := Prepared(job, read);
      && fs.parentDir == Some(1) && Nowhere(fs, edited)
      && fs.Entry(1, job.Temp()).Some? && fs.Entry(1, job.Temp()).value.File? && fs.Entry(1, job.Temp()).value.bytes == job.newBytes
  {
    hide Job.Temp, Job.Backup;
  }

  /** The config is compared by identity only.  If a process rewrites it in place after it was read, the save goes
      through, and the edit is in no file any more. */
  lemma EditInPlaceIsLost(codec: Codec, inode: (nat, Fs) -> nat, read: Bytes, edited: Bytes, newBytes: Bytes, now: int, pid: string)
    requires Lawful(codec) && read != newBytes && edited != read && edited != newBytes
    ensures var job := Interrupted(codec, Edit(edited), inode, Begun(read, 1, map[]), newBytes, now, pid);
      && CanSave(job, job.start, 0)
      && SeenByRename(job, job.start, 0).AtPath(CONFIG) == Some(File(7, edited, 1))
      && var after := Replay(job.env, job.start, SaveEvents(job, job.start, 0));
         && after.AtPath(CONFIG).Some? && after.AtPath(CONFIG).value.File? && after.AtPath(CONFIG).value.bytes == newBytes
         && Nowhere(after, edited)
  {
    hide Lawful, CanSave, SaveEvents, SeenByRename, Job.Temp, Job.Backup, Replay, Performed, Nowhere, Prepared;
    var job := Interrupted(codec, Edit(edited), inode, Begun(read, 1, map[]), newBytes, now, pid);
    TempIsAnother(job);
    EmptyReplay(job.env, job.start);
    PreparedIs(job, read, edited);
    EditIsReplaced(Prepared(job, read), job.Temp(), edited);
    InterruptedSaves(job, Edit(edited), read, 1, map[]);
    SaveReplays(job, job.start, 0);
  }

  /** The commit looks at the parent directory again only through the descriptor.  If its path is made to lead to another
      directory, number 3, that links the same file, the save renames all the same, and its path goes on showing the
      old bytes.  The save then notices that the directory has moved, and reports that the config was saved and the
      cleanup is incomplete. */
  lemma MovedParentIsReportedSaved(codec: Codec, inode: (nat, Fs) -> nat, read: Bytes, newBytes: Bytes, now: int, pid: string,
                                   c: Course, report: Report)
    requires Lawful(codec) && read != newBytes
    requires var job := MovedParent(codec, inode, read, newBytes, now, pid); Follows(job, [], c, report) && Faultless(job, [], 0, c, report)
    ensures var job := MovedParent(codec, inode, read, newBytes, now, pid);
      report == SavedButIncomplete && job.At(c.committed).AtPath(CONFIG) == Some(File(7, read, 2)) && c.ended == c.committed
  {
    hide Lawful, CanSave, SaveEvents, SeenByRename, Job.Temp, Replay, BacksUp, Commits, Sweeps;
    var job := MovedParent(codec, inode, read, newBytes, now, pid);
    MovedParentIsMissed(codec, inode, read, newBytes, now, pid);
    EmptyReplay(job.env, job.start);
    assert [] + SaveEvents(job, job.start, 0) == SaveEvents(job, job.start, 0);
    EnteringKeepsConfig(job, [], c, report);
  }

  function MovedParent(codec: Codec, inode: (nat, Fs) -> nat, read: Bytes, newBytes: Bytes, now: int, pid: string): Job {
    Interrupted(codec, Move(), inode, Begun(read, 2, map[3 := map[CONFIG := File(7, read, 2)]]), newBytes, now, pid)
  }

  lemma MovedParentIsMissed(codec: Codec, inode: (nat, Fs) -> nat, read: Bytes, newBytes: Bytes, now: int, pid: string)
    requires Lawful(codec) && read != newBytes
    ensures var job := MovedParent(codec, inode, read, newBytes, now, pid);
      && CanSave(job, job.start, 0) && Entering(job, job.start, 0) == job.start
      && Replay(job.env, job.start, SaveEvents(job, job.start, 0)).parentDir == Some(3)
      && Replay(job.env, job.start, SaveEvents(job, job.start, 0)).AtPath(CONFIG) == Some(File(7, read, 2))
  {
    hide Lawful, CanSave, SaveEvents, SeenByRename, Job.Temp, Job.Backup, Replay;
    var others: map<nat, map<string, Node>> := map[3 := map[CONFIG := File(7, read, 2)]];
    var job := MovedParent(codec, inode, read, newBytes, now, pid);
    TempIsAnother(job);
    assert Prepared(job, read).Entry(3, CONFIG) == job.start.Entry(3, CONFIG) == Some(File(7, read, 2));
    EmptyReplay(job.env, job.start);
    InterruptedSaves(job, Move(), read, 2, others);
    SaveReplays(job, job.start, 0);
    var seen := Move()(Prepared(job, read));
    assert Performed(seen, Rename(1, job.Temp(), CONFIG)).Entry(3, CONFIG) == seen.Entry(3, CONFIG);
  }
}
