/** The file operations behind saving the config, src/config.rs: reading the active file, the snapshot, the temporary
    file and its rename, and the cleanup of old backups.

    The file system is a map of directories; the config's own path leads to its parent directory, which is opened
    once and then used by descriptor.  `Env` is everything else that may happen: at each hook it may change the
    file system in any way, and at each system call it may fail it.

    Every change goes through `Do`, a call of our own, or `Hook`, an act of the environment, and is logged; the file
    system is always what the log makes of the one we started with.  So what a contract says about the log it says
    about the file system. */
module ConfigFileSystem {
  import opened Text
  import opened Sorting
  import opened BackupRetention

  type Bytes = seq<nat>

  datatype Node = File(inode: nat, bytes: Bytes, links: nat) | Directory(id: nat) | Symlink

  const MANAGED_NAME := ".clawhip-config-backups"

  /** `parentDir` is the directory the config's parent path resolves to, `parentPlain` whether the path is itself a
      directory and not a symbolic link. */
  datatype Fs = Fs(parentPlain: bool, parentDir: Option<nat>, dirs: map<nat, map<string, Node>>)
  {
    function Listing(dir: nat): map<string, Node> { if dir in dirs then dirs[dir] else map[] }

    function Entry(dir: nat, name: string): Option<Node> {
      if name in Listing(dir) then Some(Listing(dir)[name]) else None
    }

    function AtPath(name: string): Option<Node> {
      if parentDir.Some? then Entry(parentDir.value, name) else None
    }

    function With(dir: nat, name: string, node: Node): Fs {
      this.(dirs := dirs[dir := Listing(dir)[name := node]])
    }

    function Without(dir: nat, name: string): Fs {
      this.(dirs := dirs[dir := Listing(dir) - {name}])
    }
  }

  // ---- What happens ----

  /** `act` is what hook `n` does, `ok` whether system call `n` works, `inode` the identity a new file or directory
      gets, and `cut` how many bytes a failed write leaves. */
  datatype Env = Env(act: (nat, Fs) -> Fs, ok: nat -> bool, inode: (nat, Fs) -> nat, cut: nat -> nat)
  {
    ghost predicate NothingFails() { forall n :: ok(n) }

    /** No hook changes the file system. */
    ghost predicate Quiet() { forall n, f :: act(n, f) == f }

    /** A new directory is not one that is there already. */
    ghost predicate FreshDirectories() { forall n, fs: Fs :: inode(n, fs) !in fs.dirs && fs.parentDir != Some(inode(n, fs)) }
  }

  datatype Call = MakeParent(id: nat) | MakeManaged(dir: nat, id: nat)
                | Create(dir: nat, name: string, inode: nat) | Write(dir: nat, name: string, inode: nat, bytes: Bytes)
                | Remove(dir: nat, name: string) | Delete(dir: nat, name: string) | Rename(dir: nat, name: string, onto: string)

  datatype Event = Acted(step: nat) | Did(call: Call)

  function Performed(fs: Fs, call: Call): Fs {
    match call
    case MakeParent(id) => Fs(true, Some(id), fs.dirs[id := map[]])
    case MakeManaged(dir, id) => var made := fs.With(dir, MANAGED_NAME, Directory(id)); made.(dirs := made.dirs[id := map[]])
    case Create(dir, name, inode) => fs.With(dir, name, File(inode, [], 1))
    case Write(dir, name, inode, bytes) => fs.With(dir, name, File(inode, bytes, 1))
    case Remove(dir, name) => fs.Without(dir, name)
    case Delete(dir, name) => fs.Without(dir, name)
    case Rename(dir, name, onto) =>
      if fs.Entry(dir, name).Some? then fs.Without(dir, name).With(dir, onto, fs.Entry(dir, name).value) else fs
  }

  function Happened(env: Env, fs: Fs, e: Event): Fs {
    match e case Acted(step) => env.act(step, fs) case Did(call) => Performed(fs, call)
  }

  function Replay(env: Env, fs: Fs, log: seq<Event>): Fs {
    if log == [] then fs else Happened(env, Replay(env, fs, log[..|log| - 1]), log[|log| - 1])
  }

  lemma ReplayOne(env: Env, fs: Fs, log: seq<Event>, e: Event)
    ensures Replay(env, fs, log + [e]) == Happened(env, Replay(env, fs, log), e)
  {
    assert (log + [e])[..|log|] == log;
  }

  lemma {:induction false} ReplayAppends(env: Env, fs: Fs, a: seq<Event>, b: seq<Event>)
    ensures Replay(env, fs, a + b) == Replay(env, Replay(env, fs, a), b)
  {
    hide Happened;
    if b == [] {
      assert a + b == a;
    } else {
      assert (a + b)[..|a| + |b| - 1] == a + b[..|b| - 1];
      ReplayAppends(env, fs, a, b[..|b| - 1]);
    }
  }

  // ---- The active config ----

  datatype Active = Absent | Present(inode: nat, bytes: Bytes)

  /** What reading the config path gives; `None` if there is something that is not a file. */
  function ActiveOf(fs: Fs, filename: string): Option<Active> {
    match fs.AtPath(filename)
    case None => Some(Absent)
    case Some(File(inode, bytes, _)) => Some(Present(inode, bytes))
    case _ => None
  }

  /** The path shows what was read: still nothing, or the same file, whose content is not looked at again. */
  predicate SameAsRead(shown: Option<Node>, active: Active) {
    match active
    case Absent => shown == None
    case Present(inode, _) => shown.Some? && shown.value.File? && shown.value.inode == inode
  }

  /** What the caller is told.  `NotSaved` are the errors that say "config was not saved", `Refused` the other errors
      from before the rename, and the next three those that say that the config was, or may have been, written.  The last
      two are a panic in the cleanup, when the config was current already and when it has just been written. */
  datatype Report = Saved | AlreadyCurrent | NotSaved | Refused | CurrentButIncomplete | SavedButIncomplete | MayBeUnsafe
                  | CurrentThenPanic | SavedThenPanic

  // ---- What each operation does when nothing fails ----

  function OpenEvents(env: Env, fs: Fs, step: nat): seq<Event> {
    if fs.parentDir == None then [Did(MakeParent(env.inode(step + 1, fs)))] else []
  }

  function MakeEvents(env: Env, fs: Fs, step: nat, dir: nat, create: bool): seq<Event> {
    if create && fs.AtPath(MANAGED_NAME) == None then [Did(MakeManaged(dir, env.inode(step + 2, fs)))] else []
  }

  /** The hook, and the backup written under a new name. */
  function SnapshotEvents(env: Env, fs: Fs, step: nat, managed: nat, name: string, bytes: Bytes): seq<Event> {
    var inode := env.inode(step + 4, env.act(step + 1, fs));
    [Acted(step + 1), Did(Create(managed, name, inode)), Did(Write(managed, name, inode, bytes))]
  }

  /** The file system after the temporary file is written and the environment has acted. */
  function AfterHook(env: Env, fs: Fs, step: nat, dir: nat, newBytes: Bytes, temp: string): Fs {
    env.act(step + 4, fs.With(dir, temp, File(env.inode(step + 2, fs), newBytes, 1)))
  }

  function CommitEvents(env: Env, fs: Fs, step: nat, dir: nat, filename: string, newBytes: Bytes, temp: string): seq<Event> {
    var inode := env.inode(step + 2, fs);
    [Did(Create(dir, temp, inode)), Did(Write(dir, temp, inode, newBytes)), Acted(step + 4), Did(Rename(dir, temp, filename))]
  }

  predicate Holds(fs: Fs, dir: nat, name: string, inode: nat) {
    fs.Entry(dir, name).Some? && fs.Entry(dir, name).value.File? && fs.Entry(dir, name).value.inode == inode
  }

  /** What the commit asks for: the path led to the directory, the temporary name was free, and after the hook the
      active file and the temporary file are still the same files. */
  predicate Ready(env: Env, fs: Fs, step: nat, dir: nat, filename: string, newBytes: Bytes, active: Active, temp: string) {
    var seen := AfterHook(env, fs, step, dir, newBytes, temp);
    fs.parentDir == Some(dir) && fs.Entry(dir, temp) == None
    && SameAsRead(seen.AtPath(filename), active) && Holds(seen, dir, temp, env.inode(step + 2, fs))
  }

  lemma CommitBegins(env: Env, fs: Fs, step: nat, dir: nat, filename: string, newBytes: Bytes, active: Active, temp: string)
    ensures var inode := env.inode(step + 2, fs);
      var made := fs.With(dir, temp, File(inode, newBytes, 1));
      && CommitEvents(env, fs, step, dir, filename, newBytes, temp)[..3] ==
           [Did(Create(dir, temp, inode)), Did(Write(dir, temp, inode, newBytes))] + [Acted(step + 4)]
      && AfterHook(env, fs, step, dir, newBytes, temp) == env.act(step + 4, made)
      && (Ready(env, fs, step, dir, filename, newBytes, active, temp) <==>
            fs.parentDir == Some(dir) && fs.Entry(dir, temp) == None
            && SameAsRead(env.act(step + 4, made).AtPath(filename), active) && Holds(env.act(step + 4, made), dir, temp, inode))
  {
    hide SameAsRead, Holds;
  }

  /** Replaying a commit: the file system it renames in, and the one it leaves. */
  lemma CommitReplays(env: Env, fs: Fs, step: nat, dir: nat, filename: string, newBytes: Bytes, temp: string)
    ensures var events, seen := CommitEvents(env, fs, step, dir, filename, newBytes, temp), AfterHook(env, fs, step, dir, newBytes, temp);
      && Replay(env, fs, events[..3]) == seen
      && Replay(env, fs, events) == Performed(seen, Rename(dir, temp, filename))
  {
    hide Performed;
    var events := CommitEvents(env, fs, step, dir, filename, newBytes, temp);
    assert events[..3] == events[..2] + [events[2]] && events[..2] == [events[0]] + [events[1]] && [events[0]] == [] + [events[0]];
    ReplayOne(env, fs, [], events[0]);
    ReplayOne(env, fs, [events[0]], events[1]);
    ReplayOne(env, fs, events[..2], events[2]);
    assert events == events[..3] + [events[3]];
    ReplayOne(env, fs, events[..3], events[3]);
    WrittenOver(fs, dir, temp, env.inode(step + 2, fs), newBytes);
  }

  lemma RemovedIsGone(fs: Fs, dir: nat, name: string)
    ensures Performed(fs, Remove(dir, name)).Entry(dir, name) == None
  {
  }

  lemma WrittenOver(fs: Fs, dir: nat, name: string, inode: nat, bytes: Bytes)
    ensures Performed(Performed(fs, Create(dir, name, inode)), Write(dir, name, inode, bytes)) == fs.With(dir, name, File(inode, bytes, 1))
  {
    var made := Performed(fs, Create(dir, name, inode));
    assert made.Listing(dir)[name := File(inode, bytes, 1)] == fs.Listing(dir)[name := File(inode, bytes, 1)];
  }

  /** Replaying a snapshot: a name that the hook left free, and then the bytes under it. */
  lemma SnapshotReplays(env: Env, fs: Fs, step: nat, managed: nat, name: string, bytes: Bytes)
    ensures var events := SnapshotEvents(env, fs, step, managed, name, bytes);
      && Replay(env, fs, events[..1]) == env.act(step + 1, fs)
      && Replay(env, fs, events) == env.act(step + 1, fs).With(managed, name, File(env.inode(step + 4, env.act(step + 1, fs)), bytes, 1))
  {
    hide Performed;
    var events := SnapshotEvents(env, fs, step, managed, name, bytes);
    assert events[..1] == [] + [events[0]] && events[..2] == events[..1] + [events[1]] && events == events[..2] + [events[2]];
    ReplayOne(env, fs, [], events[0]);
    ReplayOne(env, fs, events[..1], events[1]);
    ReplayOne(env, fs, events[..2], events[2]);
    WrittenOver(env.act(step + 1, fs), managed, name, env.inode(step + 4, env.act(step + 1, fs)), bytes);
  }

  /** From event `from` on, our own calls do nothing but make, write and remove this one file. */
  predicate Scratch(log: seq<Event>, from: nat, dir: nat, name: string) {
    forall i :: from <= i < |log| && log[i].Did? ==>
      (log[i].call.Create? || log[i].call.Write? || log[i].call.Remove?) && log[i].call.dir == dir && log[i].call.name == name
  }

  lemma ScratchNothing(log: seq<Event>, dir: nat, name: string)
    ensures Scratch(log, |log|, dir, name)
  {
  }

  lemma WriteIsScratch(from: seq<Event>, log: seq<Event>, dir: nat, name: string)
    requires |from| + 2 <= |log| <= |from| + 3 && log[|from|].Did? && log[|from| + 1].Did?
    requires log[|from|].call.Create? && log[|from|].call.dir == dir && log[|from|].call.name == name
    requires log[|from| + 1].call.Write? && log[|from| + 1].call.dir == dir && log[|from| + 1].call.name == name
    requires |log| == |from| + 3 ==> log[|from| + 2] == Did(Remove(dir, name))
    ensures Scratch(log, |from|, dir, name)
  {
  }

  lemma ScratchAfterAct(from: seq<Event>, mid: seq<Event>, log: seq<Event>, dir: nat, name: string)
    requires |mid| == |from| + 1 && from <= mid <= log && mid[|from|].Acted? && Scratch(log, |mid|, dir, name)
    ensures Scratch(log, |from|, dir, name)
  {
  }

  // ---- Cleanup: candidates ----

  /** A directory entry that may be a backup: a regular file with one link that is not protected. */
  predicate Deletable(node: Option<Node>, inode: nat, protected: seq<nat>) {
    node.Some? && node.value.File? && node.value.inode == inode && node.value.links == 1 && inode !in protected
  }

  function Dated(codec: Codec, origin: Origin, name: string, filename: string): Option<int> {
    if origin.Managed? then ParseManaged(codec, name, filename)
    else match ParseLegacy(codec, name, filename) case Backup(time) => Some(time) case _ => None
  }

  /** A name in the directory cannot be read: the code panics on it. */
  ghost predicate Unreadable(fs: Fs, codec: Codec, dir: nat, filename: string) {
    exists name :: fs.Entry(dir, name).Some? && ParseLegacy(codec, name, filename) == Panic
  }

  function Classified(codec: Codec, origin: Origin, name: string, filename: string, node: Node, protected: seq<nat>): Option<Candidate> {
    var date := Dated(codec, origin, name, filename);
    if date.Some? && node.File? && Deletable(Some(node), node.inode, protected)
    then Some(Candidate(origin, name, date.value, node.inode)) else None
  }

  lemma NothingIsNotDeletable(inode: nat, protected: seq<nat>)
    ensures !Deletable(None, inode, protected)
  {
  }

  /** The directories a cleanup works in, and the files it must spare. */
  datatype Place = Place(parent: nat, managed: Option<nat>, protected: seq<nat>)
  {
    /** Where a candidate lies; one of a missing managed directory lies nowhere. */
    function Home(c: Candidate): nat { if c.origin.Managed? && managed.Some? then managed.value else parent }

    /** The directories are where they were when they were opened, and they are two. */
    ghost predicate Bound(fs: Fs) {
      fs.parentPlain && fs.parentDir == Some(parent)
      && (managed.Some? ==> managed.value != parent && fs.AtPath(MANAGED_NAME) == Some(Directory(managed.value)))
    }
  }

  /** The candidates are the classified entries of the two directories. */
  ghost predicate Lists(fs: Fs, codec: Codec, place: Place, filename: string, c: Candidate) {
    (c.origin.Managed? ==> place.managed.Some?) && fs.Entry(place.Home(c), c.name).Some?
    && Classified(codec, c.origin, c.name, filename, fs.Entry(place.Home(c), c.name).value, place.protected) == Some(c)
  }

  ghost predicate AreListed(fs: Fs, codec: Codec, place: Place, filename: string, cs: seq<Candidate>) {
    DistinctNames(cs) && forall c :: c in cs <==> Lists(fs, codec, place, filename, c)
  }

  lemma EntriesAreListing(fs: Fs, dir: nat)
    ensures forall name :: fs.Entry(dir, name).Some? <==> name in fs.Listing(dir)
  {
  }

  lemma DistinctUnion(root: seq<Candidate>, rest: seq<Candidate>)
    requires DistinctNames(root) && DistinctNames(rest)
    requires (forall c :: c in root ==> c.origin.RootLegacy?) && (forall c :: c in rest ==> c.origin.Managed?)
    ensures DistinctNames(root + rest)
  {
    forall c ensures multiset(root + rest)[c] <= 1 {
      assert multiset(root + rest) == multiset(root) + multiset(rest);
      assert c !in root || c !in rest;
    }
  }

  // ---- Cleanup: deletions ----

  /** The calls in a run, in order. */
  function CallsOf(run: seq<Event>): seq<Call> {
    if run == [] then [] else CallsOf(run[..|run| - 1]) + (if run[|run| - 1].Did? then [run[|run| - 1].call] else [])
  }

  function Deletions(cs: seq<Candidate>, place: Place): seq<Call> {
    seq(|cs|, i requires 0 <= i < |cs| => Delete(place.Home(cs[i]), cs[i].name))
  }

  /** A call of a cleanup: it deletes a candidate, while that is still the file it was classified as. */
  ghost predicate DeletesOne(fs: Fs, call: Call, place: Place, cs: seq<Candidate>) {
    exists c :: c in cs && call == Delete(place.Home(c), c.name) && Deletable(fs.Entry(place.Home(c), c.name), c.inode, place.protected)
  }

  /** From event `from` on, a run makes no calls but such deletions. */
  ghost predicate SweepsFrom(env: Env, start: Fs, log: seq<Event>, from: nat, place: Place, cs: seq<Candidate>) {
    forall i :: from <= i < |log| && log[i].Did? ==> DeletesOne(Replay(env, start, log[..i]), log[i].call, place, cs)
  }

  predicate IsGone(gone: seq<Candidate>, place: Place, dir: nat, name: string) {
    exists c :: c in gone && place.Home(c) == dir && c.name == name
  }

  /** The entries of the candidates are gone, and every other entry of every directory is as it was. */
  ghost predicate Cleared(before: Fs, after: Fs, gone: seq<Candidate>, place: Place) {
    && after.parentPlain == before.parentPlain && after.parentDir == before.parentDir
    && forall d, n :: after.Entry(d, n) == if IsGone(gone, place, d, n) then None else before.Entry(d, n)
  }

  lemma ClearedNone(fs: Fs, place: Place)
    ensures Cleared(fs, fs, [], place)
  {
  }

  lemma ClearedOneMore(before: Fs, after: Fs, gone: seq<Candidate>, place: Place, c: Candidate)
    requires Cleared(before, after, gone, place)
    ensures Cleared(before, after.Without(place.Home(c), c.name), gone + [c], place)
  {
    var next := after.Without(place.Home(c), c.name);
    forall d, n ensures next.Entry(d, n) == if IsGone(gone + [c], place, d, n) then None else before.Entry(d, n) {
      assert c in gone + [c] && (forall g :: g in gone ==> g in gone + [c]);
      assert IsGone(gone + [c], place, d, n) <==> IsGone(gone, place, d, n) || (d == place.Home(c) && n == c.name);
      assert d != place.Home(c) || n != c.name ==> next.Entry(d, n) == after.Entry(d, n);
    }
  }

  lemma ClearedIsBound(before: Fs, after: Fs, gone: seq<Candidate>, place: Place)
    requires Cleared(before, after, gone, place) && place.Bound(before)
    requires forall c :: c in gone ==> before.Entry(place.Home(c), c.name).Some? && before.Entry(place.Home(c), c.name).value.File?
    ensures place.Bound(after)
  {
    if place.managed.Some? {
      assert after.Entry(place.parent, MANAGED_NAME) == before.Entry(place.parent, MANAGED_NAME);
    }
  }

  lemma {:induction false} SweepsMore(env: Env, start: Fs, log: seq<Event>, more: seq<Event>, from: nat, place: Place,
                                      cs: seq<Candidate>, c: Candidate)
    requires from <= |log| && SweepsFrom(env, start, log, from, place, cs)
    requires SweepsFrom(env, start, log + more, |log|, place, [c])
    ensures SweepsFrom(env, start, log + more, from, place, cs + [c])
  {
    var all := log + more;
    forall i | from <= i < |all| && all[i].Did? ensures DeletesOne(Replay(env, start, all[..i]), all[i].call, place, cs + [c]) {
      if i < |log| {
        assert all[..i] == log[..i] && all[i] == log[i];
        assert DeletesOne(Replay(env, start, log[..i]), log[i].call, place, cs);
        var d :| d in cs && log[i].call == Delete(place.Home(d), d.name)
                 && Deletable(Replay(env, start, log[..i]).Entry(place.Home(d), d.name), d.inode, place.protected);
        assert d in cs + [c];
      } else {
        assert DeletesOne(Replay(env, start, all[..i]), all[i].call, place, [c]) && c in cs + [c];
      }
    }
  }

  lemma {:induction false} CallsOfAppends(a: seq<Event>, b: seq<Event>)
    ensures CallsOf(a + b) == CallsOf(a) + CallsOf(b)
  {
    if b == [] {
      assert a + b == a && CallsOf(a) + [] == CallsOf(a);
    } else {
      var k := |b| - 1;
      assert (a + b)[..|a| + k] == a + b[..k];
      CallsOfAppends(a, b[..k]);
    }
  }

  // ---- Cleanup: the run so far ----

  lemma SweepStarts(env: Env, start: Fs, log: seq<Event>, place: Place)
    ensures SweepsFrom(env, start, log, |log|, place, []) && CallsOf(log[|log|..]) == Deletions([], place)
  {
  }

  /** Nothing was done for this candidate yet but to let the environment act. */
  lemma {:induction false} ActsOnly(env: Env, start: Fs, from: seq<Event>, log: seq<Event>, place: Place, c: Candidate)
    requires from <= log && forall i :: |from| <= i < |log| ==> log[i].Acted?
    ensures SweepsFrom(env, start, log, |from|, place, [c]) && CallsOf(log[|from|..]) == []
  {
    if |from| < |log| {
      var k := |log| - 1;
      ActsOnly(env, start, from, log[..k], place, c);
      assert log[|from|..][..k - |from|] == log[..k][|from|..];
    }
  }

  lemma ThenDeletes(env: Env, start: Fs, from: seq<Event>, log: seq<Event>, place: Place, c: Candidate)
    requires from <= log && forall i :: |from| <= i < |log| ==> log[i].Acted?
    requires Deletable(Replay(env, start, log).Entry(place.Home(c), c.name), c.inode, place.protected)
    ensures var next := log + [Did(Delete(place.Home(c), c.name))];
      SweepsFrom(env, start, next, |from|, place, [c]) && CallsOf(next[|from|..]) == [Delete(place.Home(c), c.name)]
  {
    var next := log + [Did(Delete(place.Home(c), c.name))];
    ActsOnly(env, start, from, log, place, c);
    assert c in [c] && next[..|log|] == log;
    assert next[|from|..][..|log| - |from|] == log[|from|..];
  }

  lemma AfterAct(env: Env, start: Fs, from: seq<Event>, mid: seq<Event>, log: seq<Event>, place: Place, c: Candidate)
    requires |mid| == |from| + 1 && from <= mid <= log && mid[|from|].Acted? && SweepsFrom(env, start, log, |mid|, place, [c])
    ensures SweepsFrom(env, start, log, |from|, place, [c]) && CallsOf(log[|from|..]) == CallsOf(log[|mid|..])
  {
    assert log[|from|..] == [mid[|from|]] + log[|mid|..];
    CallsOfAppends([mid[|from|]], log[|mid|..]);
    assert [mid[|from|]][..0] == [];
  }

  /** One more candidate is dealt with. */
  lemma PrunedOne(env: Env, start: Fs, from: seq<Event>, sofar: seq<Event>, log: seq<Event>, place: Place,
                  attempted: seq<Candidate>, deleted: seq<Candidate>, c: Candidate, unlinked: bool)
    requires from <= sofar <= log
    requires SweepsFrom(env, start, sofar, |from|, place, attempted) && SweepsFrom(env, start, log, |sofar|, place, [c])
    requires CallsOf(sofar[|from|..]) == Deletions(deleted, place)
    requires CallsOf(log[|sofar|..]) == if unlinked then [Delete(place.Home(c), c.name)] else []
    ensures SweepsFrom(env, start, log, |from|, place, attempted + [c])
    ensures CallsOf(log[|from|..]) == Deletions(if unlinked then deleted + [c] else deleted, place)
  {
    hide SweepsFrom, CallsOf;
    assert log == sofar + log[|sofar|..] && log[|from|..] == sofar[|from|..] + log[|sofar|..];
    SweepsMore(env, start, sofar, log[|sofar|..], |from|, place, attempted, c);
    CallsOfAppends(sofar[|from|..], log[|sofar|..]);
    assert Deletions(deleted + [c], place) == Deletions(deleted, place) + [Delete(place.Home(c), c.name)];
  }

  lemma ListedHomes(fs: Fs, codec: Codec, place: Place, filename: string, cs: seq<Candidate>)
    requires AreListed(fs, codec, place, filename, cs)
    ensures DistinctNames(cs) && forall c :: c in cs && c.origin.Managed? ==> place.managed.Some?
  {
    forall c | c in cs && c.origin.Managed? ensures place.managed.Some? { assert Lists(fs, codec, place, filename, c); }
  }

  /** While only candidates before it are gone, a candidate is still as it was listed. */
  lemma StillThere(listed: Fs, fs: Fs, codec: Codec, place: Place, filename: string, cs: seq<Candidate>, gone: seq<Candidate>, c: Candidate)
    requires AreListed(listed, codec, place, filename, cs) && place.Bound(listed) && Cleared(listed, fs, gone, place)
    requires c in cs && c !in gone && forall g :: g in gone ==> g in cs
    ensures place.Bound(fs) && Deletable(fs.Entry(place.Home(c), c.name), c.inode, place.protected)
  {
    hide Dated;
    assert Lists(listed, codec, place, filename, c);
    forall g | g in gone ensures (g.origin.Managed? ==> place.managed.Some?) && listed.Entry(place.Home(g), g.name).Some?
                                 && listed.Entry(place.Home(g), g.name).value.File?
    {
      assert Lists(listed, codec, place, filename, g);
    }
    ClearedIsBound(listed, fs, gone, place);
    assert !IsGone(gone, place, place.Home(c), c.name);
  }

  /** The next of the sorted candidates is not among those before it. */
  lemma NotBefore(cs: seq<Candidate>, sorted: seq<Candidate>, i: nat)
    requires DistinctNames(cs) && multiset(sorted) == multiset(cs) && i < |sorted|
    ensures sorted[i] !in sorted[..i]
  {
    var c := sorted[i];
    assert sorted == sorted[..i] + [c] + sorted[i + 1..];
    assert multiset(sorted)[c] <= 1;
  }

  lemma NeverFails(env: Env, step: nat)
    ensures env.NothingFails() ==> env.ok(step)
  {
  }

  datatype Summary = Summary(classified: nat, deleted: nat, preserved: nat)
  /** How listing ends, and how a cleanup does: with an error, a panic, or success. */
  datatype Found = Unlisted | Unread | Listed(candidates: seq<Candidate>)
  datatype Ending = Completed | Broken | Panics
  datatype Deletion = Unlinked | Disappeared | Preserved | Fails

  // ---- The operations ----

  class ConfigFiles {
    var fs: Fs
    var step: nat
    const env: Env
    const codec: Codec
    const start: Fs
    ghost var log: seq<Event>

    ghost predicate Valid()
      reads this
    {
      fs == Replay(env, start, log)
    }

    constructor (fs: Fs, env: Env, codec: Codec)
      ensures Valid() && this.fs == fs && this.env == env && this.codec == codec && step == 0 && start == fs && log == []
    {
      this.fs, this.env, this.codec, step, start, log := fs, env, codec, 0, fs, [];
    }

    /** A system call that may fail. */
    method Try() returns (ok: bool)
      modifies this`step
      ensures ok == env.ok(old(step)) && step == old(step) + 1
    {
      ok := env.ok(step);
      step := step + 1;
    }

    /** A call of ours that changes the file system. */
    method Do(call: Call)
      requires Valid()
      modifies this`fs, this`log
      ensures Valid() && fs == Performed(old(fs), call) && log == old(log) + [Did(call)]
    {
      hide Performed;
      ReplayOne(env, start, log, Did(call));
      fs := Performed(fs, call);
      log := log + [Did(call)];
    }

    /** A hook: the environment acts, and may abort. */
    method Hook() returns (ok: bool)
      requires Valid()
      modifies this`fs, this`step, this`log
      ensures Valid() && fs == env.act(old(step), old(fs)) && log == old(log) + [Acted(old(step))]
      ensures ok == env.ok(old(step)) && step == old(step) + 1
    {
      ReplayOne(env, start, log, Acted(step));
      fs := env.act(step, fs);
      log := log + [Acted(step)];
      ok := env.ok(step);
      step := step + 1;
    }

    /** The temporary file or an unfinished snapshot is removed, if that works. */
    method TryRemove(dir: nat, name: string)
      requires Valid()
      modifies this
      ensures Valid() && (log == old(log) || log == old(log) + [Did(Remove(dir, name))])
      ensures env.NothingFails() ==> fs == Performed(old(fs), Remove(dir, name))
    {
      hide Performed;
      var ok := Try();
      if ok {
        Do(Remove(dir, name));
      }
    }

    /** A new file is made and written; a failed write leaves its first bytes, and the file is
        removed again if that works. */
    method WriteNew(dir: nat, name: string, inode: nat, bytes: Bytes) returns (ok: bool)
      requires Valid()
      modifies this
      ensures Valid() && ok == env.ok(old(step)) && (ok ==> step == old(step) + 1)
      ensures old(log) <= log && Scratch(log, |old(log)|, dir, name)
      ensures ok ==> log == old(log) + [Did(Create(dir, name, inode)), Did(Write(dir, name, inode, bytes))]
      ensures ok ==> fs == old(fs).With(dir, name, File(inode, bytes, 1))
    {
      hide Performed, Fs.With, Fs.Listing, Scratch, Replay;
      ghost var from := log;
      var part := if env.ok(step) then |bytes| else if env.cut(step) < |bytes| then env.cut(step) else |bytes|;
      WrittenOver(fs, dir, name, inode, bytes);
      Do(Create(dir, name, inode));
      Do(Write(dir, name, inode, bytes[..part]));
      ok := Try();
      assert bytes[..|bytes|] == bytes;
      if !ok {
        TryRemove(dir, name);
      }
      WriteIsScratch(from, log, dir, name);
    }

    /** `revalidate_config_parent_dir` */
    method RevalidateParent(dir: nat) returns (ok: bool)
      modifies this`step
      ensures step == old(step) + 1 && ok == (env.ok(old(step)) && fs.parentPlain && fs.parentDir == Some(dir))
    {
      var io := Try();
      ok := io && fs.parentPlain && fs.parentDir == Some(dir);
    }

    /** `validate_config_parent_dir` with `create` */
    method OpenParent() returns (dir: Option<nat>)
      requires Valid()
      modifies this
      ensures Valid() && (log == old(log) || log == old(log) + OpenEvents(env, old(fs), old(step)))
      ensures dir.Some? ==> log == old(log) + OpenEvents(env, old(fs), old(step)) && fs.parentPlain && fs.parentDir == dir
      ensures env.NothingFails() ==>
                && log == old(log) + OpenEvents(env, old(fs), old(step)) && (dir.Some? <==> fs.parentPlain)
                && step == old(step) + (if old(fs).parentDir == None then 2 else 1)
    {
      var io := Try();
      if !io {
        return None;
      }
      if fs.parentDir == None {
        Do(MakeParent(env.inode(step, fs)));
        step := step + 1;
      }
      dir := if fs.parentPlain then fs.parentDir else None;
    }

    /** `read_active_config_no_follow` */
    method ReadActive(filename: string) returns (active: Option<Active>)
      modifies this`step
      ensures step == old(step) + 1 && active == if env.ok(old(step)) then ActiveOf(fs, filename) else None
    {
      var io := Try();
      if !io {
        return None;
      }
      match fs.AtPath(filename) {
        case None => active := Some(Absent);
        case Some(File(inode, bytes, _)) => active := Some(Present(inode, bytes));
        case _ => active := None;
      }
    }

    /** `validate_managed_backup_dir`: the outer `None` is an error, the inner one that there is no directory. */
    method ManagedDir(dir: nat, create: bool) returns (managed: Option<Option<nat>>)
      requires Valid() && fs.parentDir == Some(dir) && env.FreshDirectories()
      modifies this
      ensures Valid() && fs.parentPlain == old(fs).parentPlain && fs.parentDir == old(fs).parentDir
      ensures log == old(log) || log == old(log) + MakeEvents(env, old(fs), old(step), dir, create)
      ensures managed.Some? ==> log == old(log) + MakeEvents(env, old(fs), old(step), dir, create)
      ensures managed.Some? && create ==> managed.value.Some?
      ensures managed.Some? ==>
                fs.AtPath(MANAGED_NAME) == match managed.value case None => None case Some(id) => Some(Directory(id))
      ensures env.NothingFails() ==>
                && (managed.Some? <==> old(fs).AtPath(MANAGED_NAME) == None || old(fs).AtPath(MANAGED_NAME).value.Directory?)
                && step == old(step) + (if create && old(fs).AtPath(MANAGED_NAME) == None then 3 else 1)
    {
      var io := Try();
      if !io {
        return None;
      }
      match fs.AtPath(MANAGED_NAME) {
        case Some(Directory(id)) => managed := Some(Some(id));
        case Some(_) => managed := None;
        case None =>
          if !create {
            return Some(None);
          }
          var made := Try();
          if !made {
            return None;
          }
          var id := env.inode(step, fs);
          Do(MakeManaged(dir, id));
          step := step + 1;
          managed := Some(Some(id));
      }
    }

    /** `create_managed_snapshot_create_new`.  Success means that the name was free and now holds exactly the bytes;
        a failure touches nothing but the snapshot it began. */
    method CreateSnapshot(managed: nat, name: string, bytes: Bytes) returns (report: Report)
      requires Valid()
      modifies this
      ensures Valid() && (report == Saved || report == NotSaved || report == Refused)
      ensures old(log) <= log && Scratch(log, |old(log)|, managed, name)
      ensures report == Saved ==>
                && env.act(old(step) + 1, old(fs)).Entry(managed, name) == None
                && log == old(log) + SnapshotEvents(env, old(fs), old(step), managed, name, bytes)
      ensures env.NothingFails() ==>
                && (report == Saved <==> old(fs).AtPath(MANAGED_NAME) == Some(Directory(managed))
                                         && env.act(old(step) + 1, old(fs)).Entry(managed, name) == None)
                && (report == Saved ==> step == old(step) + 6)
    {
      hide Performed, Fs.Entry, Fs.AtPath, Fs.With, Scratch, Replay;
      ghost var from := log;
      ScratchNothing(log, managed, name);
      var entered := Try();
      if !entered || fs.AtPath(MANAGED_NAME) != Some(Directory(managed)) {
        return Refused;
      }
      var hook := Hook();
      ghost var mid := log;
      ScratchNothing(log, managed, name);
      ScratchAfterAct(from, mid, log, managed, name);
      var io := Try();
      if !hook || !io {
        return Refused;
      }
      var created := Try();
      if !created || fs.Entry(managed, name) != None {
        return NotSaved;
      }
      var inode := env.inode(step, fs);
      step := step + 1;
      var written := WriteNew(managed, name, inode, bytes);
      ScratchAfterAct(from, mid, log, managed, name);
      report := if written then Saved else NotSaved;
    }

    /** The steps of the commit before its rename: the temporary file is made and written, the environment acts, and
        the directory, the active file and the temporary file are looked at again. */
    method PrepareCommit(dir: nat, filename: string, newBytes: Bytes, active: Active, temp: string) returns (report: Report)
      requires Valid()
      modifies this
      ensures Valid() && (report == Saved || report == NotSaved || report == Refused)
      ensures old(log) <= log && Scratch(log, |old(log)|, dir, temp)
      ensures report == Saved ==>
                && Ready(env, old(fs), old(step), dir, filename, newBytes, active, temp)
                && fs == AfterHook(env, old(fs), old(step), dir, newBytes, temp)
                && log == old(log) + CommitEvents(env, old(fs), old(step), dir, filename, newBytes, temp)[..3]
      ensures env.NothingFails() ==> (report == Saved <==> Ready(env, old(fs), old(step), dir, filename, newBytes, active, temp))
      ensures env.NothingFails() && report != Saved ==> log == old(log) || fs.Entry(dir, temp) == None
    {
      hide SameAsRead, Performed, Holds, Ready, AfterHook, CommitEvents;
      CommitBegins(env, fs, step, dir, filename, newBytes, active, temp);
      var entered := Try();
      if !entered || fs.parentDir != Some(dir) {
        return Refused;
      }
      var created := Try();
      if !created || fs.Entry(dir, temp) != None {
        return NotSaved;
      }
      var inode := env.inode(step, fs);
      step := step + 1;
      var written := WriteNew(dir, temp, inode, newBytes);
      if !written {
        return NotSaved;
      }
      report := CheckTemp(dir, filename, active, temp, inode);
    }

    /** Between the write and the rename; the temporary file is removed if it cannot be put in place. */
    method CheckTemp(dir: nat, filename: string, active: Active, temp: string, inode: nat) returns (report: Report)
      requires Valid()
      modifies this
      ensures Valid() && (report == Saved || report == NotSaved || report == Refused)
      ensures old(log) <= log && Scratch(log, |old(log)|, dir, temp)
      ensures report == Saved ==>
                && fs == env.act(old(step), old(fs)) && log == old(log) + [Acted(old(step))]
                && SameAsRead(fs.AtPath(filename), active) && Holds(fs, dir, temp, inode)
      ensures env.NothingFails() ==>
                var seen := env.act(old(step), old(fs));
                report == Saved <==> SameAsRead(seen.AtPath(filename), active) && Holds(seen, dir, temp, inode)
      ensures env.NothingFails() && report != Saved ==> fs.Entry(dir, temp) == None
    {
      hide SameAsRead, Holds, Fs.Entry, Fs.AtPath, Replay, Performed;
      var hook := Hook();
      var bound := Try();
      report := Refused;
      if hook && bound {
        report := RevalidateActive(filename, active);
        var stat := Try();
        if report == Saved && (!stat || !Holds(fs, dir, temp, inode)) {
          report := NotSaved;
        }
      }
      if report != Saved {
        RemovedIsGone(fs, dir, temp);
        TryRemove(dir, temp);
      }
    }

    /** `revalidate_active_config`: the metadata may not be readable, and then the error does not say "not saved". */
    method RevalidateActive(filename: string, active: Active) returns (report: Report)
      modifies this`step
      ensures report == Saved || report == NotSaved || report == Refused
      ensures report == Saved ==> SameAsRead(fs.AtPath(filename), active)
      ensures env.NothingFails() && SameAsRead(fs.AtPath(filename), active) ==> report == Saved
    {
      var io := Try();
      if !io {
        return Refused;
      }
      var shown := fs.AtPath(filename);
      match active {
        case Absent => report := if shown == None then Saved else NotSaved;
        case Present(inode, _) =>
          report := if shown == None then Refused
                    else if shown.value.File? && shown.value.inode == inode then Saved else NotSaved;
      }
    }

    /** `commit_config_bytes_via_temp` (on Unix).  Either it renames, in the file system that the hook left and only if
        the config path there shows what was read, or it touches nothing but its temporary file, and an error from
        before the rename is reported.  The directory is used by descriptor: its revalidation looks at the descriptor
        itself and cannot notice that the path has come to lead elsewhere. */
    method Commit(dir: nat, filename: string, newBytes: Bytes, active: Active, temp: string) returns (report: Report)
      requires Valid()
      modifies this
      ensures Valid() && (report == Saved || report == NotSaved || report == Refused || report == MayBeUnsafe)
      ensures if report == Saved || report == MayBeUnsafe then
                && Ready(env, old(fs), old(step), dir, filename, newBytes, active, temp)
                && log == old(log) + CommitEvents(env, old(fs), old(step), dir, filename, newBytes, temp)
                && fs == Performed(AfterHook(env, old(fs), old(step), dir, newBytes, temp), Rename(dir, temp, filename))
              else old(log) <= log && Scratch(log, |old(log)|, dir, temp)
      ensures env.NothingFails() ==>
                && (report == Saved <==> Ready(env, old(fs), old(step), dir, filename, newBytes, active, temp))
                && report != MayBeUnsafe
                && (report != Saved ==> log == old(log) || fs.Entry(dir, temp) == None)
    {
      hide SameAsRead, Ready, AfterHook, Performed;
      report := PrepareCommit(dir, filename, newBytes, active, temp);
      if report != Saved {
        return;
      }
      var renamed := Try();
      if !renamed {
        TryRemove(dir, temp);
        return NotSaved;
      }
      Do(Rename(dir, temp, filename));
      var verified := Try();
      report := if verified then Saved else MayBeUnsafe;
    }

    // ---- Cleanup ----

    /** One directory's listing, in whatever order it comes. */
    static method Collect(codec: Codec, listing: map<string, Node>, origin: Origin, filename: string, protected: seq<nat>)
      returns (cs: seq<Candidate>, panics: bool)
      ensures panics <==> origin.RootLegacy? && exists name :: name in listing && ParseLegacy(codec, name, filename) == Panic
      ensures !panics ==> forall c :: c in cs <==> (c.origin == origin && c.name in listing &&
                Classified(codec, origin, c.name, filename, listing[c.name], protected) == Some(c))
      ensures !panics ==> DistinctNames(cs)
    {
      hide Dated, ParseLegacy;
      cs, panics := [], false;
      var names := listing.Keys;
      while names != {}
        invariant names <= listing.Keys
        invariant forall c :: c in cs <==> (c.origin == origin && c.name in listing.Keys - names &&
                    Classified(codec, origin, c.name, filename, listing[c.name], protected) == Some(c))
        invariant forall c :: multiset(cs)[c] <= 1
        invariant origin.RootLegacy? ==> forall name :: name in listing.Keys - names ==> ParseLegacy(codec, name, filename) != Panic
      {
        var name :| name in names;
        if origin.RootLegacy? && ParseLegacy(codec, name, filename) == Panic {
          return cs, true;
        }
        var c := Classified(codec, origin, name, filename, listing[name], protected);
        if c.Some? {
          assert c.value !in cs;
          cs := cs + [c.value];
        }
        names := names - {name};
      }
    }

    /** `collect_cleanup_candidates` */
    method CollectAll(place: Place, filename: string) returns (found: Found)
      modifies this`step
      ensures found.Listed? ==> AreListed(fs, codec, place, filename, found.candidates) && !Unreadable(fs, codec, place.parent, filename)
      ensures found.Unread? ==> Unreadable(fs, codec, place.parent, filename)
      ensures env.NothingFails() && place.Bound(fs) ==> !found.Unlisted?
    {
      hide ParseLegacy;
      var bound := RevalidateParent(place.parent);
      var listed := Try();
      if !bound || !listed {
        return Unlisted;
      }
      var root, panics := Collect(codec, fs.Listing(place.parent), RootLegacy, filename, place.protected);
      EntriesAreListing(fs, place.parent);
      if panics {
        return Unread;
      }
      if place.managed == None {
        return Listed(root);
      }
      var io := Try();
      if !io || fs.AtPath(MANAGED_NAME) != Some(Directory(place.managed.value)) {
        return Unlisted;
      }
      var rest;
      rest, panics := Collect(codec, fs.Listing(place.managed.value), Managed, filename, place.protected);
      DistinctUnion(root, rest);
      found := Listed(root + rest);
    }

    /** `delete_verified_candidate`: unlinks the entry only while it is the very file that was classified, still
        regular, with one link, and not protected; nothing else changes but by the environment. */
    method DeleteVerified(c: Candidate, place: Place) returns (r: Deletion)
      requires Valid() && (c.origin.Managed? ==> place.managed.Some?)
      modifies this
      ensures Valid() && old(log) <= log
      ensures SweepsFrom(env, start, log, |old(log)|, place, [c])
      ensures CallsOf(log[|old(log)|..]) == if r == Unlinked then [Delete(place.Home(c), c.name)] else []
      ensures env.Quiet() ==> fs == if r == Unlinked then old(fs).Without(place.Home(c), c.name) else old(fs)
      ensures env.Quiet() && env.NothingFails() && place.Bound(old(fs)) ==> r != Fails
      ensures env.Quiet() && env.NothingFails() && place.Bound(old(fs)) ==>
                Deletable(old(fs).Entry(place.Home(c), c.name), c.inode, place.protected) ==> r == Unlinked
    {
      hide Replay, CallsOf, Deletable, SweepsFrom, Fs.Entry, Fs.Without;
      ghost var from := log;
      NothingIsNotDeletable(c.inode, place.protected);
      ActsOnly(env, start, from, log, place, c);
      var dir := place.Home(c);
      var entered := RevalidateParent(place.parent);
      if !entered || (c.origin.Managed? && fs.AtPath(MANAGED_NAME) != Some(Directory(dir))) {
        return Fails;
      }
      if fs.Entry(dir, c.name) == None {
        return Disappeared;
      }
      if !Deletable(fs.Entry(dir, c.name), c.inode, place.protected) {
        return Preserved;
      }
      var preflight := Hook();
      ActsOnly(env, start, from, log, place, c);
      if !preflight {
        return Fails;
      }
      if fs.Entry(dir, c.name) == None {
        return Disappeared;
      }
      var readable := Try();
      if !readable || !Deletable(fs.Entry(dir, c.name), c.inode, place.protected) {
        return Preserved;
      }
      var check := Hook();
      ActsOnly(env, start, from, log, place, c);
      if !check {
        return Fails;
      }
      if fs.Entry(dir, c.name) == None {
        return Disappeared;
      }
      var still := Try();
      if !still || !Deletable(fs.Entry(dir, c.name), c.inode, place.protected) {
        return Preserved;
      }
      var unlinked := Try();
      if !unlinked {
        return Fails;
      }
      ThenDeletes(env, start, from, log, place, c);
      Do(Delete(dir, c.name));
      r := Unlinked;
    }

    /** The hook before a deletion, and the deletion. */
    method PruneOne(c: Candidate, place: Place) returns (r: Deletion)
      requires Valid() && (c.origin.Managed? ==> place.managed.Some?)
      modifies this
      ensures Valid() && old(log) <= log
      ensures SweepsFrom(env, start, log, |old(log)|, place, [c])
      ensures CallsOf(log[|old(log)|..]) == if r == Unlinked then [Delete(place.Home(c), c.name)] else []
      ensures env.Quiet() ==> fs == if r == Unlinked then old(fs).Without(place.Home(c), c.name) else old(fs)
      ensures env.Quiet() && env.NothingFails() && place.Bound(old(fs)) ==> r != Fails
      ensures env.Quiet() && env.NothingFails() && place.Bound(old(fs)) ==>
                Deletable(old(fs).Entry(place.Home(c), c.name), c.inode, place.protected) ==> r == Unlinked
    {
      hide SweepsFrom, CallsOf, Deletable, Replay;
      ghost var from := log;
      var hook := Hook();
      ActsOnly(env, start, from, log, place, c);
      if !hook {
        return Fails;
      }
      ghost var mid := log;
      r := DeleteVerified(c, place);
      AfterAct(env, start, from, mid, log, place, c);
    }

    /** The deletion loop over the collected candidates.  It goes for a prefix of the doomed ones, and for all of
        them unless a hook or a deletion fails; it makes no other calls.  Alone, only the entries it deleted are gone;
        and if nothing fails either, those are the entries of all the doomed. */
    method Prune(cs: seq<Candidate>, place: Place, filename: string, cutoff: int)
      returns (ok: bool, summary: Summary, ghost attempted: seq<Candidate>, ghost deleted: seq<Candidate>)
      requires Valid() && AreListed(fs, codec, place, filename, cs)
      modifies this
      ensures Valid() && old(log) <= log
      ensures Doomed(Sorted(cs), cutoff) <= |Sorted(cs)| && attempted <= Attempted(cs, cutoff)
      ensures ok ==> attempted == Attempted(cs, cutoff)
                     && summary.classified == |cs| && summary.deleted == |deleted| && summary.preserved + |deleted| == |cs|
      ensures forall c :: c in deleted ==> c in attempted
      ensures CallsOf(log[|old(log)|..]) == Deletions(deleted, place)
      ensures SweepsFrom(env, start, log, |old(log)|, place, attempted)
      ensures env.Quiet() ==> Cleared(old(fs), fs, deleted, place)
      ensures env.Quiet() && env.NothingFails() && place.Bound(old(fs)) ==> ok && deleted == attempted
    {
      hide Doomed, Sorted, Cleared, SweepsFrom, CallsOf, Deletions, Env.NothingFails, Env.Quiet, Place.Bound, AreListed;
      KeepsNewestAndYoung(cs, cutoff);
      SameElements(cs, Sorted(cs));
      ListedHomes(fs, codec, place, filename, cs);
      SweepStarts(env, start, log, place);
      ClearedNone(fs, place);
      var sorted := Sorted(cs);
      ghost var d := Doomed(sorted, cutoff);
      ghost var listed, from := fs, log;
      var keepFrom := Limit(|sorted|);
      var i, count := 0, 0;
      attempted, deleted := [], [];
      while i < |sorted|
        invariant 0 <= i <= |sorted| && Valid() && from <= log
        invariant attempted == sorted[..if i < d then i else d]
        invariant count == |deleted| <= |attempted| && forall c :: c in deleted ==> c in attempted
        invariant CallsOf(log[|from|..]) == Deletions(deleted, place)
        invariant SweepsFrom(env, start, log, |from|, place, attempted)
        invariant env.Quiet() ==> Cleared(listed, fs, deleted, place)
        invariant env.Quiet() && env.NothingFails() && place.Bound(listed) ==> deleted == attempted
      {
        var c := sorted[i];
        assert c in sorted;
        if i < keepFrom && c.createdAt <= cutoff {
          assert i < d && attempted == sorted[..i];
          ghost var before, sofar := fs, log;
          if env.Quiet() && env.NothingFails() && place.Bound(listed) {
            NotBefore(cs, sorted, i);
            StillThere(listed, fs, codec, place, filename, cs, deleted, c);
          }
          var outcome := PruneOne(c, place);
          PrunedOne(env, start, from, sofar, log, place, attempted, deleted, c, outcome == Unlinked);
          if env.Quiet() && outcome == Unlinked { ClearedOneMore(listed, before, deleted, place, c); }
          assert sorted[..i + 1] == sorted[..i] + [c];
          attempted := attempted + [c];
          if outcome == Fails {
            return false, Summary(0, 0, 0), attempted, deleted;
          }
          if outcome == Unlinked {
            count, deleted := count + 1, deleted + [c];
          }
        }
        i := i + 1;
      }
      ok, summary := true, Summary(|sorted|, count, |sorted| - count);
    }

    /** `cleanup_config_backups_with_hooks`.  Whatever happens meanwhile, only doomed candidates are deleted, and only
        as the files they were classified as; `cs` are the candidates, none if the directories could not be listed.  It
        panics only on a name that cannot be read, and then before it has done anything. */
    method Cleanup(place: Place, filename: string, now: int)
      returns (end: Ending, summary: Summary, ghost cs: seq<Candidate>, ghost attempted: seq<Candidate>, ghost deleted: seq<Candidate>)
      requires Valid()
      modifies this
      ensures Valid() && old(log) <= log
      ensures cs == [] || AreListed(old(fs), codec, place, filename, cs)
      ensures end == Panics ==> Unreadable(old(fs), codec, place.parent, filename) && log == old(log)
      ensures end == Completed ==> AreListed(old(fs), codec, place, filename, cs) && !Unreadable(old(fs), codec, place.parent, filename)
      ensures env.NothingFails() && place.Bound(old(fs)) ==> (end == Panics <==> Unreadable(old(fs), codec, place.parent, filename))
      ensures Doomed(Sorted(cs), now - RETENTION) <= |Sorted(cs)| && attempted <= Attempted(cs, now - RETENTION)
      ensures end == Completed ==> attempted == Attempted(cs, now - RETENTION)
      ensures end == Completed ==> summary.classified == |cs| && summary.deleted == |deleted| && summary.preserved + |deleted| == |cs|
      ensures forall c :: c in deleted ==> c in attempted
      ensures CallsOf(log[|old(log)|..]) == Deletions(deleted, place)
      ensures SweepsFrom(env, start, log, |old(log)|, place, attempted)
      ensures env.Quiet() ==> Cleared(old(fs), fs, deleted, place)
      ensures env.Quiet() && env.NothingFails() && place.Bound(old(fs)) && end != Panics ==> end == Completed && deleted == attempted
    {
      ClearedNone(fs, place);
      KeepsNewestAndYoung([], now - RETENTION);
      SweepStarts(env, start, log, place);
      cs, attempted, deleted, summary := [], [], [], Summary(0, 0, 0);
      hide Doomed, Sorted, Cleared, SweepsFrom, CallsOf, Deletions, AreListed, Env.NothingFails, Env.Quiet, Unreadable;
      var valid := RevalidateParent(place.parent);
      if !valid {
        NeverFails(env, old(step));
        return Broken, summary, cs, attempted, deleted;
      }
      var found := CollectAll(place, filename);
      if !found.Listed? {
        return if found.Unread? then Panics else Broken, summary, cs, attempted, deleted;
      }
      cs := found.candidates;
      var ok;
      ok, summary, attempted, deleted := Prune(found.candidates, place, filename, now - RETENTION);
      end := if ok then Completed else Broken;
    }
  }
}
