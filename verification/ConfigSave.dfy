/** `AppConfig::save_with_backup`, src/config.rs: what one save can and cannot have done to the file system, whatever
    other processes do at its hooks and whichever of its system calls fail. */
module ConfigSave {
  import opened Text
  import opened BackupRetention
  import opened ConfigFileSystem

  /** What is saved, where and when; `start` is the file system that the log begins with. */
  datatype Job = Job(env: Env, codec: Codec, start: Fs, filename: string, newBytes: Bytes, now: int, pid: string)
  {
    function At(log: seq<Event>): Fs { Replay(env, start, log) }

    function Temp(): string { "." + filename + ".tmp." + pid }

    function Backup(bytes: Bytes): string { SnapshotName(codec, filename, now, bytes) }
  }

  /** The four parts of a save, by the log at the end of each; what it read, and what its cleanup was about. */
  datatype Course = Course(entered: seq<Event>, backed: seq<Event>, committed: seq<Event>, ended: seq<Event>,
                           active: Option<Active>, place: Place,
                           candidates: seq<Candidate>, attempted: seq<Candidate>, deleted: seq<Candidate>)

  predicate Written(r: Report) { r.Saved? || r.SavedButIncomplete? || r.MayBeUnsafe? || r.SavedThenPanic? }
  predicate Current(r: Report) { r.AlreadyCurrent? || r.CurrentButIncomplete? || r.CurrentThenPanic? }
  predicate Complete(r: Report) { r.Saved? || r.AlreadyCurrent? }
  predicate Panicked(r: Report) { r.SavedThenPanic? || r.CurrentThenPanic? }

  // ---- The parts of a save ----

  /** The config's directory is made if there is none. */
  ghost predicate Opens(job: Job, from: seq<Event>, entered: seq<Event>) {
    entered == from
    || (from <= entered && |entered| == |from| + 1 && entered[|from|].Did? && entered[|from|].call.MakeParent? && job.At(from).parentDir == None)
  }

  /** A call that makes the managed directory, or works on the new backup. */
  ghost predicate Backing(job: Job, fs: Fs, call: Call, dir: nat, inode: nat, bytes: Bytes, managed: Option<nat>) {
    match call
    case MakeManaged(d, id) => d == dir && fs.parentDir == Some(dir) && ActiveOf(fs, job.filename) == Some(Present(inode, bytes))
                               && fs.AtPath(MANAGED_NAME) == None && id !in fs.dirs && id != dir
    case Create(d, name, _) => managed == Some(d) && name == job.Backup(bytes)
    case Write(d, name, _, _) => managed == Some(d) && name == job.Backup(bytes)
    case Remove(d, name) => managed == Some(d) && name == job.Backup(bytes)
    case _ => false
  }

  /** The backup is made last, under a name that is free after the hook, with the bytes that were read. */
  ghost predicate Snapshotted(job: Job, entered: seq<Event>, backed: seq<Event>, managed: nat, bytes: Bytes) {
    var k := |backed| - 3;
    && |entered| <= k && backed[k].Acted? && job.At(backed[..k + 1]).Entry(managed, job.Backup(bytes)) == None
    && backed[k + 1].Did? && backed[k + 1].call.Create?
    && backed[k + 1].call == Create(managed, job.Backup(bytes), backed[k + 1].call.inode)
    && backed[k + 2] == Did(Write(managed, job.Backup(bytes), backed[k + 1].call.inode, bytes))
  }

  predicate Finds(fs: Fs, managed: Option<nat>) {
    fs.AtPath(MANAGED_NAME) == match managed case None => None case Some(id) => Some(Directory(id))
  }

  ghost predicate BacksUp(job: Job, entered: seq<Event>, backed: seq<Event>, dir: nat, active: Active, managed: Option<nat>, done: bool) {
    entered <= backed && match active
    case Absent => backed == entered && (done ==> Finds(job.At(backed), managed))
    case Present(inode, bytes) =>
      && (forall i :: |entered| <= i < |backed| && backed[i].Did? ==>
            Backing(job, job.At(backed[..i]), backed[i].call, dir, inode, bytes, managed))
      && (done ==> managed.Some? && Snapshotted(job, entered, backed, managed.value, bytes))
  }

  /** Either the new bytes are renamed over the config, while the path shows what was read, or nothing but the
      temporary file is touched. */
  ghost predicate Commits(job: Job, backed: seq<Event>, committed: seq<Event>, dir: nat, active: Active, written: bool) {
    backed <= committed &&
    if !written then Scratch(committed, |backed|, dir, job.Temp()) else
      var k := |backed|;
      && |committed| == k + 4 && committed[k].Did? && committed[k].call.Create?
      && committed[k].call == Create(dir, job.Temp(), committed[k].call.inode)
      && committed[k + 1] == Did(Write(dir, job.Temp(), committed[k].call.inode, job.newBytes))
      && committed[k + 2].Acted? && committed[k + 3] == Did(Rename(dir, job.Temp(), job.filename))
      && SameAsRead(job.At(committed[..k + 3]).AtPath(job.filename), active)
      && Holds(job.At(committed[..k + 3]), dir, job.Temp(), committed[k].call.inode)
  }

  /** The cleanup makes no calls but deletions of doomed candidates.  A complete one has gone for all of them; one that
      is alone removes what it deletes and nothing else. */
  ghost predicate Sweeps(job: Job, committed: seq<Event>, c: Course, complete: bool) {
    var cs := c.candidates;
    && committed <= c.ended && SweepsFrom(job.env, job.start, c.ended, |committed|, c.place, c.attempted)
    && (cs == [] || AreListed(job.At(committed), job.codec, c.place, job.filename, cs))
    && Doomed(Sorted(cs), job.now - RETENTION) <= |Sorted(cs)| && c.attempted <= Attempted(cs, job.now - RETENTION)
    && (complete ==> AreListed(job.At(committed), job.codec, c.place, job.filename, cs) && c.attempted == Attempted(cs, job.now - RETENTION))
    && (forall d :: d in c.deleted ==> d in c.attempted)
    && CallsOf(c.ended[|committed|..]) == Deletions(c.deleted, c.place)
    && (job.env.Quiet() ==> Cleared(job.At(committed), job.At(c.ended), c.deleted, c.place))
  }

  /** The cleanup comes upon a name that the code cannot read. */
  ghost predicate Trips(job: Job, c: Course) { Unreadable(job.At(c.committed), job.codec, c.place.parent, job.filename) }

  /** A save whose config is already as it should be only cleans up; any other backs up, commits and cleans up; and one
      that fails stops where it is, with the report that says so. */
  ghost predicate Follows(job: Job, from: seq<Event>, c: Course, report: Report) {
    && Opens(job, from, c.entered)
    && (c.active == None ==> report == Refused && c.entered == c.backed == c.committed == c.ended && c.attempted == [])
    && (c.active.Some? ==>
          && c.active == ActiveOf(job.At(c.entered), job.filename) && job.At(c.entered).parentDir == Some(c.place.parent)
          && (Current(report) <==> c.active.value.Present? && c.active.value.bytes == job.newBytes)
          && BacksUp(job, c.entered, c.backed, c.place.parent, c.active.value, c.place.managed, Written(report))
          && Commits(job, c.backed, c.committed, c.place.parent, c.active.value, Written(report))
          && Sweeps(job, c.committed, c, Complete(report))
          && (c.active.value.Present? && c.ended != c.committed ==> c.active.value.inode in c.place.protected))
    && (Current(report) ==> c.committed == c.entered)
    && (Complete(report) ==> !Trips(job, c)) && (Panicked(report) ==> Trips(job, c) && c.ended == c.committed)
    && (Written(report) && job.At(c.committed).parentDir != Some(c.place.parent) ==>
          (report == SavedButIncomplete || report == MayBeUnsafe) && c.ended == c.committed)
    && (report == Refused || report == NotSaved || report == MayBeUnsafe ==> c.ended == c.committed)
  }

  // ---- What a save does when nothing fails ----

  function Making(job: Job, fs: Fs, step: nat, dir: nat): Fs { Replay(job.env, fs, MakeEvents(job.env, fs, step, dir, true)) }

  function MakeSteps(fs: Fs, create: bool): nat { if create && fs.AtPath(MANAGED_NAME) == None then 3 else 1 }

  /** The managed directory is made or found, and the name of the backup is free after the hook. */
  predicate CanBackUp(job: Job, fs: Fs, step: nat, dir: nat, active: Active) {
    && (fs.AtPath(MANAGED_NAME) == None || fs.AtPath(MANAGED_NAME).value.Directory?)
    && match active
       case Absent => true
       case Present(_, bytes) =>
         match Making(job, fs, step, dir).AtPath(MANAGED_NAME)
         case Some(Directory(id)) => job.env.act(step + MakeSteps(fs, true) + 1, Making(job, fs, step, dir)).Entry(id, job.Backup(bytes)) == None
         case _ => false
  }

  function BackupEvents(job: Job, fs: Fs, step: nat, dir: nat, active: Active): seq<Event> {
    match active
    case Absent => []
    case Present(_, bytes) =>
      MakeEvents(job.env, fs, step, dir, true) +
      match Making(job, fs, step, dir).AtPath(MANAGED_NAME)
      case Some(Directory(id)) => SnapshotEvents(job.env, Making(job, fs, step, dir), step + MakeSteps(fs, true), id, job.Backup(bytes), bytes)
      case _ => []
  }

  function BackupSteps(fs: Fs, active: Active): nat { MakeSteps(fs, active.Present?) + if active.Present? then 6 else 0 }

  function Entering(job: Job, fs: Fs, step: nat): Fs { Replay(job.env, fs, OpenEvents(job.env, fs, step)) }

  /** The step at which the managed directory is looked for: after opening, two revalidations and the read. */
  function BackupStep(fs: Fs, step: nat): nat { step + if fs.parentDir == None then 5 else 4 }

  function BackedUp(job: Job, fs: Fs, step: nat, dir: nat, active: Active): Fs {
    Replay(job.env, fs, BackupEvents(job, fs, step, dir, active))
  }

  predicate CanReplace(job: Job, fs: Fs, step: nat, dir: nat, active: Active) {
    var before := BackedUp(job, fs, step, dir, active);
    && CanBackUp(job, fs, step, dir, active) && before.parentPlain && before.parentDir == Some(dir)
    && Ready(job.env, before, step + BackupSteps(fs, active) + 1, dir, job.filename, job.newBytes, active, job.Temp())
  }

  function ReplaceEvents(job: Job, fs: Fs, step: nat, dir: nat, active: Active): seq<Event> {
    BackupEvents(job, fs, step, dir, active)
    + CommitEvents(job.env, BackedUp(job, fs, step, dir, active), step + BackupSteps(fs, active) + 1,
                   dir, job.filename, job.newBytes, job.Temp())
  }

  /** A save from this file system replaces the config. */
  predicate CanSave(job: Job, fs: Fs, step: nat) {
    var entry := Entering(job, fs, step);
    entry.parentPlain && entry.parentDir.Some?
    && match ActiveOf(entry, job.filename)
       case None => false
       case Some(active) =>
         (active.Present? ==> active.bytes != job.newBytes) && CanReplace(job, entry, BackupStep(fs, step), entry.parentDir.value, active)
  }

  function SaveEvents(job: Job, fs: Fs, step: nat): seq<Event>
    requires CanSave(job, fs, step)
  {
    var entry := Entering(job, fs, step);
    OpenEvents(job.env, fs, step) + ReplaceEvents(job, entry, BackupStep(fs, step), entry.parentDir.value, ActiveOf(entry, job.filename).value)
  }

  /** The directories are where they should be. */
  predicate IsIntact(fs: Fs, dir: nat) {
    fs.parentPlain && fs.parentDir == Some(dir) && match fs.AtPath(MANAGED_NAME)
    case None => true
    case Some(Directory(id)) => id != dir
    case _ => false
  }

  /** If nothing fails, the config is replaced exactly if it can be, by exactly these calls, and a commit that is given
      up leaves no temporary file; and if moreover nobody else is there, the cleanup is completed, or panics if there is a
      name that cannot be read. */
  ghost predicate Faultless(job: Job, from: seq<Event>, step: nat, c: Course, report: Report) {
    && (Written(report) <==> CanSave(job, job.At(from), step))
    && (CanSave(job, job.At(from), step) ==> c.committed == from + SaveEvents(job, job.At(from), step))
    && (c.active.Some? <==> Entering(job, job.At(from), step).parentPlain && ActiveOf(Entering(job, job.At(from), step), job.filename).Some?)
    && (Written(report) || c.committed == c.backed || job.At(c.committed).Entry(c.place.parent, job.Temp()) == None)
    && (job.env.Quiet() && (if Written(report) then c.place.Bound(job.At(c.committed))
                            else Current(report) && IsIntact(job.At(c.committed), c.place.parent)) ==>
          if Trips(job, c) then Panicked(report) else Complete(report) && c.deleted == c.attempted)
    && report != MayBeUnsafe
  }

  // ---- The save ----

  ghost predicate Works(files: ConfigFiles, job: Job) { job.env == files.env && job.codec == files.codec && job.start == files.start }

  /** The making of the managed directory is part of a backup. */
  lemma MakingIsBacking(job: Job, from: seq<Event>, log: seq<Event>, step: nat, dir: nat, inode: nat, bytes: Bytes, managed: Option<nat>)
    requires job.env.FreshDirectories() && job.At(from).parentDir == Some(dir)
    requires ActiveOf(job.At(from), job.filename) == Some(Present(inode, bytes))
    requires log == from || log == from + MakeEvents(job.env, job.At(from), step, dir, true)
    ensures forall i :: |from| <= i < |log| && log[i].Did? ==> Backing(job, job.At(log[..i]), log[i].call, dir, inode, bytes, managed)
  {
    hide Replay, ActiveOf;
    if log != from { assert log[..|from|] == from; }
  }

  /** So is whatever is done to the new backup. */
  lemma SnapshotIsBacking(job: Job, from: seq<Event>, mid: seq<Event>, log: seq<Event>, dir: nat, inode: nat, bytes: Bytes, managed: nat)
    requires from <= mid <= log && Scratch(log, |mid|, managed, job.Backup(bytes))
    requires forall i :: |from| <= i < |mid| && mid[i].Did? ==> Backing(job, job.At(mid[..i]), mid[i].call, dir, inode, bytes, Some(managed))
    ensures forall i :: |from| <= i < |log| && log[i].Did? ==> Backing(job, job.At(log[..i]), log[i].call, dir, inode, bytes, Some(managed))
  {
    hide Replay, ActiveOf, Job.Backup;
    forall i | |from| <= i < |log| && log[i].Did? ensures Backing(job, job.At(log[..i]), log[i].call, dir, inode, bytes, Some(managed)) {
      if i < |mid| { assert log[..i] == mid[..i] && log[i] == mid[i]; }
    }
  }

  lemma SnapshotSucceeds(job: Job, from: seq<Event>, mid: seq<Event>, step: nat, bytes: Bytes, managed: nat)
    requires from <= mid && job.env.act(step + 1, job.At(mid)).Entry(managed, job.Backup(bytes)) == None
    ensures Snapshotted(job, from, mid + SnapshotEvents(job.env, job.At(mid), step, managed, job.Backup(bytes), bytes), managed, bytes)
  {
    hide Job.Backup;
    var log := mid + SnapshotEvents(job.env, job.At(mid), step, managed, job.Backup(bytes), bytes);
    assert log[..|mid| + 1] == mid + [Acted(step + 1)];
    ReplayOne(job.env, job.start, mid, Acted(step + 1));
  }

  /** Before the rename: the managed directory and the snapshot. */
  method BackUp(files: ConfigFiles, job: Job, dir: nat, active: Active) returns (report: Report, managed: Option<nat>)
    requires Works(files, job) && files.Valid() && job.env.FreshDirectories()
    requires files.fs.parentDir == Some(dir) && ActiveOf(files.fs, job.filename) == Some(active)
    modifies files
    ensures files.Valid() && (report == Saved || report == NotSaved || report == Refused)
    ensures BacksUp(job, old(files.log), files.log, dir, active, managed, report == Saved)
    ensures job.env.NothingFails() ==>
              && (report == Saved <==> old(files.fs).parentPlain && CanBackUp(job, old(files.fs), old(files.step) + 1, dir, active))
              && (report == Saved ==>
                    && files.log == old(files.log) + BackupEvents(job, old(files.fs), old(files.step) + 1, dir, active)
                    && files.step == old(files.step) + 1 + BackupSteps(old(files.fs), active))
  {
    hide Replay, ActiveOf, Scratch, Snapshotted, Job.Backup, Backing, SnapshotEvents, Fs.Entry, Fs.Listing, Env.FreshDirectories;
    ghost var from := files.log;
    managed := None;
    var valid := files.RevalidateParent(dir);
    if !valid {
      return Refused, managed;
    }
    var found := files.ManagedDir(dir, active.Present?);
    managed := if found.Some? then found.value else None;
    ghost var mid, step := files.log, files.step;
    if active.Present? {
      MakingIsBacking(job, from, mid, old(files.step) + 1, dir, active.inode, active.bytes, managed);
      ReplayAppends(job.env, job.start, from, MakeEvents(job.env, job.At(from), old(files.step) + 1, dir, true));
    }
    if found == None {
      return Refused, managed;
    }
    report := Saved;
    if active.Present? {
      report := files.CreateSnapshot(managed.value, job.Backup(active.bytes), active.bytes);
      SnapshotIsBacking(job, from, mid, files.log, dir, active.inode, active.bytes, managed.value);
      if report == Saved { SnapshotSucceeds(job, from, mid, step, active.bytes, managed.value); }
    }
  }

  lemma CommitSucceeds(job: Job, backed: seq<Event>, step: nat, dir: nat, active: Active)
    requires Ready(job.env, job.At(backed), step, dir, job.filename, job.newBytes, active, job.Temp())
    ensures var events := CommitEvents(job.env, job.At(backed), step, dir, job.filename, job.newBytes, job.Temp());
      Commits(job, backed, backed + events, dir, active, true)
  {
    hide SameAsRead, Holds, Job.Temp, Replay;
    var events := CommitEvents(job.env, job.At(backed), step, dir, job.filename, job.newBytes, job.Temp());
    CommitReplays(job.env, job.At(backed), step, dir, job.filename, job.newBytes, job.Temp());
    ReplayAppends(job.env, job.start, backed, events[..3]);
    assert (backed + events)[..|backed| + 3] == backed + events[..3];
  }

  /** After a commit the path shows a file, if it still leads there. */
  lemma CommitShows(job: Job, fs: Fs, step: nat, dir: nat, active: Active)
    requires Ready(job.env, fs, step, dir, job.filename, job.newBytes, active, job.Temp())
    ensures var after := Performed(AfterHook(job.env, fs, step, dir, job.newBytes, job.Temp()), Rename(dir, job.Temp(), job.filename));
      after.parentDir == Some(dir) ==> after.AtPath(job.filename).Some? && after.AtPath(job.filename).value.File?
  {
    hide AfterHook, Job.Temp, SameAsRead;
  }

  lemma NothingCommitted(job: Job, backed: seq<Event>, committed: seq<Event>, dir: nat, active: Active)
    requires backed <= committed && Scratch(committed, |backed|, dir, job.Temp())
    ensures Commits(job, backed, committed, dir, active, false)
  {
  }

  lemma NothingYetCommitted(job: Job, backed: seq<Event>, dir: nat, active: Active)
    ensures Commits(job, backed, backed, dir, active, false)
  {
  }

  lemma NothingDone(job: Job, log: seq<Event>, dir: nat, active: Active)
    ensures forall managed :: BacksUp(job, log, log, dir, active, managed, false)
    ensures Commits(job, log, log, dir, active, false)
  {
  }

  lemma LessDone(job: Job, entered: seq<Event>, backed: seq<Event>, dir: nat, active: Active, managed: Option<nat>, done: bool)
    requires BacksUp(job, entered, backed, dir, active, managed, done)
    ensures BacksUp(job, entered, backed, dir, active, managed, false)
  {
  }

  ghost function Unswept(c: Course): Course { c.(ended := c.committed, candidates := [], attempted := [], deleted := []) }

  lemma NothingSwept(job: Job, c: Course)
    ensures Sweeps(job, c.committed, Unswept(c), false)
  {
    KeepsNewestAndYoung([], job.now - RETENTION);
    ClearedNone(job.At(c.committed), c.place);
    SweepStarts(job.env, job.start, c.committed, c.place);
  }

  method CleanUp(files: ConfigFiles, job: Job, place: Place, ghost before: Course) returns (end: Ending, ghost c: Course)
    requires Works(files, job) && files.Valid() && before.committed == files.log
    modifies files
    ensures files.Valid() && c.ended == files.log
    ensures (end == Completed ==> !Trips(job, c)) && (end == Panics ==> Trips(job, c) && c.ended == c.committed)
    ensures c == before.(place := place, ended := c.ended, candidates := c.candidates, attempted := c.attempted, deleted := c.deleted)
    ensures Sweeps(job, c.committed, c, end == Completed)
    ensures job.env.Quiet() && job.env.NothingFails() && place.Bound(old(files.fs)) ==>
              if Trips(job, c) then end == Panics else end == Completed && c.deleted == c.attempted
  {
    hide Replay, Doomed, Sorted, Attempted, Cleared, SweepsFrom, CallsOf, Deletions, AreListed, Env.NothingFails, Env.Quiet, Place.Bound, Unreadable;
    var summary;
    ghost var cs, attempted, deleted;
    end, summary, cs, attempted, deleted := files.Cleanup(place, job.filename, job.now);
    c := before.(place := place, ended := files.log, candidates := cs, attempted := attempted, deleted := deleted);
  }

  /** The config is already as it should be: only the cleanup is left. */
  method LeaveAsIs(files: ConfigFiles, job: Job, dir: nat, active: Active, ghost before: Course) returns (report: Report, ghost c: Course)
    requires Works(files, job) && files.Valid() && job.env.FreshDirectories()
    requires active.Present? && files.fs.parentDir == Some(dir) && before.committed == files.log && before.place.parent == dir
    modifies files
    ensures files.Valid() && c.ended == files.log && Current(report)
    ensures c == before.(place := c.place, ended := c.ended, candidates := c.candidates, attempted := c.attempted, deleted := c.deleted)
    ensures Sweeps(job, c.committed, c, report == AlreadyCurrent)
    ensures c.place.parent == dir && (c.ended != c.committed ==> active.inode in c.place.protected)
    ensures (report == AlreadyCurrent ==> !Trips(job, c)) && (report == CurrentThenPanic ==> Trips(job, c) && c.ended == c.committed)
    ensures job.env.Quiet() && job.env.NothingFails() && IsIntact(old(files.fs), dir) ==>
              if Trips(job, c) then report == CurrentThenPanic else report == AlreadyCurrent && c.deleted == c.attempted
  {
    hide Sweeps, Replay, Trips;
    c := Unswept(before.(place := Place(dir, None, [active.inode])));
    NothingSwept(job, c);
    var valid := files.RevalidateParent(dir);
    if !valid {
      return CurrentButIncomplete, c;
    }
    var found := files.ManagedDir(dir, false);
    if found == None {
      return CurrentButIncomplete, c;
    }
    var end;
    end, c := CleanUp(files, job, Place(dir, found.value, [active.inode]), c);
    report := match end case Completed => AlreadyCurrent case Broken => CurrentButIncomplete case Panics => CurrentThenPanic;
  }

  /** After the rename: the cleanup, which spares the file that was read and the one now in place. */
  method FinishSaved(files: ConfigFiles, job: Job, dir: nat, managed: Option<nat>, active: Active, ghost before: Course)
    returns (report: Report, ghost c: Course)
    requires Works(files, job) && files.Valid() && before.committed == files.log
    requires before.place.parent == dir && before.place.managed == managed
    modifies files
    ensures files.Valid() && c.ended == files.log && (report == Saved || report == SavedButIncomplete || report == SavedThenPanic)
    ensures c == before.(place := c.place, ended := c.ended, candidates := c.candidates, attempted := c.attempted, deleted := c.deleted)
    ensures Sweeps(job, c.committed, c, report == Saved)
    ensures c.place.parent == dir && c.place.managed == managed
    ensures c.ended != c.committed && active.Present? ==> active.inode in c.place.protected
    ensures job.env.Quiet() && job.env.NothingFails() && c.place.Bound(old(files.fs))
            && old(files.fs.AtPath(job.filename)).Some? && old(files.fs.AtPath(job.filename)).value.File? ==>
              if Trips(job, c) then report == SavedThenPanic else report == Saved && c.deleted == c.attempted
    ensures (report == Saved ==> !Trips(job, c)) && (report == SavedThenPanic ==> Trips(job, c) && c.ended == c.committed)
    ensures old(files.fs).parentDir != Some(dir) ==> report == SavedButIncomplete && c.ended == c.committed
  {
    hide Sweeps, Replay, Trips;
    c := Unswept(before);
    NothingSwept(job, c);
    var valid := files.RevalidateParent(dir);
    if !valid {
      return SavedButIncomplete, c;
    }
    var current := files.ReadActive(job.filename);
    if current == None || current.value.Absent? {
      return SavedButIncomplete, c;
    }
    var spare := if active.Present? && active.inode != current.value.inode then [active.inode, current.value.inode] else [current.value.inode];
    var end;
    end, c := CleanUp(files, job, Place(dir, managed, spare), c);
    report := match end case Completed => Saved case Broken => SavedButIncomplete case Panics => SavedThenPanic;
  }

  /** After the backup: the commit and the cleanup. */
  method Overwrite(files: ConfigFiles, job: Job, dir: nat, managed: Option<nat>, active: Active, ghost before: Course)
    returns (report: Report, ghost c: Course)
    requires Works(files, job) && files.Valid()
    requires before.backed == files.log && before.place.parent == dir && before.place.managed == managed
    modifies files
    ensures files.Valid() && c.ended == files.log && !Current(report)
    ensures c == before.(committed := c.committed, place := c.place, ended := c.ended,
                         candidates := c.candidates, attempted := c.attempted, deleted := c.deleted)
    ensures c.place.parent == dir && c.place.managed == managed
    ensures Commits(job, c.backed, c.committed, dir, active, Written(report))
    ensures Sweeps(job, c.committed, c, Complete(report))
    ensures c.ended != c.committed && active.Present? ==> active.inode in c.place.protected
    ensures report == Refused || report == NotSaved || report == MayBeUnsafe ==> c.ended == c.committed
    ensures (Complete(report) ==> !Trips(job, c)) && (Panicked(report) ==> Trips(job, c) && c.ended == c.committed)
    ensures Written(report) && job.At(c.committed).parentDir != Some(dir) ==>
              (report == SavedButIncomplete || report == MayBeUnsafe) && c.ended == c.committed
    ensures job.env.NothingFails() ==>
              && (Written(report) <==> Ready(job.env, old(files.fs), old(files.step), dir, job.filename, job.newBytes, active, job.Temp()))
              && (Written(report) ==>
                    c.committed == old(files.log) + CommitEvents(job.env, old(files.fs), old(files.step), dir, job.filename, job.newBytes, job.Temp()))
              && (Written(report) || c.committed == c.backed || job.At(c.committed).Entry(dir, job.Temp()) == None)
              && (Written(report) && job.env.Quiet() && c.place.Bound(job.At(c.committed)) ==>
                    if Trips(job, c) then Panicked(report) else Complete(report) && c.deleted == c.attempted)
              && report != MayBeUnsafe
  {
    hide Commits, Sweeps, Replay, Trips, Job.Temp, Scratch, Performed, Ready, AfterHook, CommitEvents;
    ghost var backed, step := files.log, files.step;
    report := files.Commit(dir, job.filename, job.newBytes, active, job.Temp());
    c := Unswept(before.(committed := files.log));
    NothingSwept(job, c);
    if report == NotSaved || report == Refused {
      NothingCommitted(job, c.backed, c.committed, dir, active);
      return;
    }
    CommitSucceeds(job, backed, step, dir, active);
    CommitShows(job, job.At(backed), step, dir, active);
    if report == MayBeUnsafe {
      return;
    }
    report, c := FinishSaved(files, job, dir, managed, active, c);
  }

  /** The config is to be replaced. */
  method Replace(files: ConfigFiles, job: Job, dir: nat, active: Active, ghost before: Course) returns (report: Report, ghost c: Course)
    requires Works(files, job) && files.Valid() && job.env.FreshDirectories()
    requires files.fs.parentPlain && files.fs.parentDir == Some(dir)
    requires ActiveOf(files.fs, job.filename) == Some(active)
    requires before.entered == files.log && before.active == Some(active) && before.place.parent == dir
    modifies files
    ensures files.Valid() && c.ended == files.log && !Current(report)
    ensures c.entered == before.entered && c.active == before.active && c.place.parent == dir
    ensures BacksUp(job, c.entered, c.backed, dir, active, c.place.managed, Written(report))
    ensures Commits(job, c.backed, c.committed, dir, active, Written(report))
    ensures Sweeps(job, c.committed, c, Complete(report))
    ensures c.ended != c.committed && active.Present? ==> active.inode in c.place.protected
    ensures report == Refused || report == NotSaved || report == MayBeUnsafe ==> c.ended == c.committed
    ensures (Complete(report) ==> !Trips(job, c)) && (Panicked(report) ==> Trips(job, c) && c.ended == c.committed)
    ensures Written(report) && job.At(c.committed).parentDir != Some(dir) ==>
              (report == SavedButIncomplete || report == MayBeUnsafe) && c.ended == c.committed
    ensures job.env.NothingFails() ==>
              && (Written(report) <==> CanReplace(job, old(files.fs), old(files.step) + 1, dir, active))
              && (Written(report) ==> c.committed == old(files.log) + ReplaceEvents(job, old(files.fs), old(files.step) + 1, dir, active))
              && (Written(report) || c.committed == c.backed || job.At(c.committed).Entry(dir, job.Temp()) == None)
              && (Written(report) && job.env.Quiet() && c.place.Bound(job.At(c.committed)) ==>
                    if Trips(job, c) then Panicked(report) else Complete(report) && c.deleted == c.attempted)
              && report != MayBeUnsafe
  {
    hide BacksUp, Commits, Sweeps, Replay, Trips, Job.Temp, ActiveOf, CanBackUp, Ready, CommitEvents, BackupEvents, Place.Bound, Env.Quiet;
    var managed;
    report, managed := BackUp(files, job, dir, active);
    c := Unswept(before.(backed := files.log, committed := files.log, place := Place(dir, managed, [])));
    NothingSwept(job, c);
    NothingYetCommitted(job, c.backed, dir, active);
    LessDone(job, c.entered, c.backed, dir, active, managed, report == Saved);
    if report != Saved {
      return;
    }
    ReplayAppends(job.env, job.start, c.entered, BackupEvents(job, old(files.fs), old(files.step) + 1, dir, active));
    var valid := files.RevalidateParent(dir);
    if !valid {
      return Refused, c;
    }
    report, c := Overwrite(files, job, dir, managed, active, c);
  }

  ghost function JobOf(files: ConfigFiles, filename: string, newBytes: Bytes, now: int, pid: string): Job {
    Job(files.env, files.codec, files.start, filename, newBytes, now, pid)
  }

  ghost function NothingRead(log: seq<Event>): Course { Course(log, log, log, log, None, Place(0, None, []), [], [], []) }

  lemma RefusedFollows(job: Job, from: seq<Event>, log: seq<Event>)
    requires Opens(job, from, log)
    ensures Follows(job, from, NothingRead(log), Refused)
  {
  }

  /** The config's directory is opened and the config is read. */
  method ReadFirst(files: ConfigFiles, job: Job) returns (dir: Option<nat>, active: Option<Active>)
    requires Works(files, job) && files.Valid()
    modifies files
    ensures files.Valid() && Opens(job, old(files.log), files.log)
    ensures active.Some? ==> dir.Some? && files.fs.parentPlain && files.fs.parentDir == dir && active == ActiveOf(files.fs, job.filename)
    ensures job.env.NothingFails() ==>
              && files.log == old(files.log) + OpenEvents(job.env, old(files.fs), old(files.step))
              && files.fs == Entering(job, old(files.fs), old(files.step))
              && (active.Some? <==> files.fs.parentPlain && ActiveOf(files.fs, job.filename).Some?)
              && (active.Some? ==> files.step + 1 == BackupStep(old(files.fs), old(files.step)))
  {
    hide Replay, ActiveOf;
    ReplayAppends(job.env, job.start, files.log, OpenEvents(job.env, files.fs, files.step));
    active := None;
    dir := files.OpenParent();
    if dir == None {
      return;
    }
    var valid := files.RevalidateParent(dir.value);
    if !valid {
      return;
    }
    active := files.ReadActive(job.filename);
  }

  /** `save_with_backup_at_all_candidate_hooks`.  Whatever the environment does, the save follows its course; the
      lemmas below say what that means for the file system. */
  method Save(files: ConfigFiles, filename: string, newBytes: Bytes, now: int, pid: string) returns (report: Report, ghost c: Course)
    requires files.Valid() && files.env.FreshDirectories()
    modifies files
    ensures files.Valid() && c.ended == files.log
    ensures Follows(JobOf(files, filename, newBytes, now, pid), old(files.log), c, report)
    ensures files.env.NothingFails() ==> Faultless(JobOf(files, filename, newBytes, now, pid), old(files.log), old(files.step), c, report)
  {
    hide BacksUp, Commits, Sweeps, Replay, Trips, ActiveOf, CanReplace, ReplaceEvents, OpenEvents, Opens, Entering, BackupStep,
      Place.Bound, Env.Quiet, Env.NothingFails, IsIntact;
    var job := Job(files.env, files.codec, files.start, filename, newBytes, now, pid);
    ghost var from := files.log;
    var dir, active := ReadFirst(files, job);
    c := NothingRead(files.log);
    RefusedFollows(job, from, files.log);
    if active == None {
      return Refused, c;
    }
    c := c.(active := active, place := Place(dir.value, None, []));
    if active.value.Present? && active.value.bytes == newBytes {
      NothingDone(job, files.log, dir.value, active.value);
      report, c := LeaveAsIs(files, job, dir.value, active.value, c);
    } else {
      report, c := Replace(files, job, dir.value, active.value, c);
    }
  }
}
