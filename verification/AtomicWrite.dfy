/** The atomic save of backends/atomic_write.py and the recovery of an interrupted one. A disk is two
    maps, files and save markers, and a process can die after any change of either. */
module AtomicWrite {

  import opened Wrappers

  type Byte = b: int | 0 <= b < 256
  type Bytes = seq<Byte>

  /** sha256 is injective: a digest holds the bytes it was taken of. */
  datatype Digest = Digest(content: Bytes)

  function Sha256(bytes: Bytes): Digest {
    Digest(bytes)
  }

  /** A name on disk; `TmpFor` is `<target>.acadmcp-<pid>.tmp`, which no drawing is called. */
  datatype Path = File(name: string) | TmpFor(target: string, pid: nat)

  /** A marker's file name is built from its target and its writer's pid; so are the `target`, `tmp`
      and `pid` written inside it. */
  datatype MarkerName = MarkerName(name: string, pid: nat) {
    function Target(): Path {
      File(name)
    }

    function Tmp(): Path {
      TmpFor(name, pid)
    }
  }

  datatype Marker = Marker(expected: Option<Digest>, previous: Option<Digest>, inPlace: bool)

  datatype MarkerFile = Unreadable | Readable(marker: Marker)

  datatype Snapshot = Snapshot(files: map<Path, Bytes>, markers: map<MarkerName, MarkerFile>)

  function Content(files: map<Path, Bytes>, path: Path): Option<Bytes> {
    if path in files then Some(files[path]) else None
  }

  function FileSha(files: map<Path, Bytes>, path: Path): Option<Digest> {
    if path in files then Some(Sha256(files[path])) else None
  }

  // ── recovery, as a function of the disk ──

  datatype Outcome = Completed | Finished | RolledBack

  /** What `_resolve_marker` decides from the two digests it takes. */
  function Chosen(marker: Marker, current: Option<Digest>, staged: Option<Digest>): Outcome {
    if marker.expected.Some? && current == marker.expected then Completed
    else if marker.expected.Some? && staged == marker.expected
            && (current == marker.previous || marker.inPlace) then Finished
    else RolledBack
  }

  function Decide(files: map<Path, Bytes>, name: MarkerName, marker: Marker): Outcome {
    Chosen(marker, FileSha(files, name.Target()), FileSha(files, name.Tmp()))
  }

  /** The files once that decision is carried out. */
  function Carried(files: map<Path, Bytes>, name: MarkerName, marker: Marker): map<Path, Bytes> {
    if Decide(files, name, marker).Finished? then Renamed(files, name.Tmp(), name.Target())
    else files - {name.Tmp()}
  }

  function Renamed(files: map<Path, Bytes>, source: Path, target: Path): map<Path, Bytes>
    requires source in files
  {
    (files - {source})[target := files[source]]
  }

  /** Nothing to do for this name: no such marker, or its owner lives. */
  predicate Idle(markers: map<MarkerName, MarkerFile>, name: MarkerName, alive: set<nat>) {
    name !in markers || (markers[name].Readable? && name.pid in alive)
  }

  /** One marker resolved, unless its owner lives. An unreadable one is removed. */
  function ResolveOne(s: Snapshot, name: MarkerName, alive: set<nat>): Snapshot {
    if Idle(s.markers, name, alive) then s
    else match s.markers[name]
      case Unreadable => s.(markers := s.markers - {name})
      case Readable(marker) => Snapshot(Carried(s.files, name, marker), s.markers - {name})
  }

  /** The names a call with this target lists. */
  predicate Listed(name: MarkerName, target: Option<string>) {
    target.None? || name.name == target.value
  }

  /** Every listed marker of `order` - the sorted content of the marker folder - in turn. */
  function ResolveListed(s: Snapshot, order: seq<MarkerName>, target: Option<string>, alive: set<nat>): Snapshot
    decreases |order|
  {
    if order == [] then s
    else
      var next := if Listed(order[0], target) then ResolveOne(s, order[0], alive) else s;
      ResolveListed(next, order[1..], target, alive)
  }

  /** Temporary files of dead writers beside `target` that no resolved marker named. */
  function Orphans(files: map<Path, Bytes>, target: string, alive: set<nat>, handled: set<Path>): set<Path> {
    set path | path in files && path.TmpFor? && path.target == target && path.pid !in alive && path !in handled
  }

  function Swept(s: Snapshot, target: Option<string>, alive: set<nat>): Snapshot {
    if target.Some? then s.(files := s.files - Orphans(s.files, target.value, alive, {})) else s
  }

  /** `resolve_pending` when no file operation fails. */
  function Recovered(s: Snapshot, order: seq<MarkerName>, target: Option<string>, alive: set<nat>): Snapshot {
    Swept(ResolveListed(s, order, target, alive), target, alive)
  }

  lemma {:induction false} ResolveListedAppend(
    s: Snapshot, a: seq<MarkerName>, b: seq<MarkerName>, target: Option<string>, alive: set<nat>)
    ensures ResolveListed(s, a + b, target, alive)
         == ResolveListed(ResolveListed(s, a, target, alive), b, target, alive)
    decreases |a|
  {
    if a == [] {
      assert a + b == b;
    } else {
      assert (a + b)[1..] == a[1..] + b;
      var next := if Listed(a[0], target) then ResolveOne(s, a[0], alive) else s;
      ResolveListedAppend(next, a[1..], b, target, alive);
    }
  }

  ghost predicate AllIdle(s: Snapshot, order: seq<MarkerName>, target: Option<string>, alive: set<nat>) {
    forall name <- order :: Listed(name, target) ==> Idle(s.markers, name, alive)
  }

  /** A pass over `order` leaves nothing to do in it, and creates no marker. */
  lemma {:induction false} ResolveListedIdles(
    s: Snapshot, order: seq<MarkerName>, target: Option<string>, alive: set<nat>)
    ensures var r := ResolveListed(s, order, target, alive);
      && AllIdle(r, order, target, alive)
      && (forall name :: Idle(s.markers, name, alive) ==> Idle(r.markers, name, alive))
    decreases |order|
  {
    if order != [] {
      var next := if Listed(order[0], target) then ResolveOne(s, order[0], alive) else s;
      ResolveListedIdles(next, order[1..], target, alive);
    }
  }

  lemma {:induction false} ResolveListedSkips(
    s: Snapshot, order: seq<MarkerName>, target: Option<string>, alive: set<nat>)
    requires AllIdle(s, order, target, alive)
    ensures ResolveListed(s, order, target, alive) == s
    decreases |order|
  {
    if order != [] {
      assert order[0] in order;
      ResolveListedSkips(s, order[1..], target, alive);
    }
  }

  /** `s'` is `s` with the named marker's resolution begun and cut short: the tmp may be gone, an
      in-place copy may have left anything in the target, the marker still stands. */
  ghost predicate Interrupted(s: Snapshot, s': Snapshot, name: MarkerName) {
    && name in s.markers && s.markers[name].Readable?
    && s'.markers == s.markers
    && var marker := s.markers[name].marker;
       || s'.files == s.files
       || s'.files == Carried(s.files, name, marker)
       || (&& marker.inPlace && Decide(s.files, name, marker).Finished?
           && name.Target() in s.files && name.Target() in s'.files
           && s'.files == s.files[name.Target() := s'.files[name.Target()]])
  }

  /** A resolution cut short anywhere and run again ends where it would have ended. */
  lemma InterruptedResolveAgrees(s: Snapshot, s': Snapshot, name: MarkerName, alive: set<nat>)
    requires name.pid !in alive && Interrupted(s, s', name)
    ensures ResolveOne(s', name, alive) == ResolveOne(s, name, alive)
  {
    var marker := s.markers[name].marker;
    assert Carried(s'.files, name, marker) == Carried(s.files, name, marker);
  }

  /** A state `resolve_pending` can be killed in, started on `s`: some of the listing is done, the
      next marker perhaps begun, or all of it is done and some orphans are gone. */
  ghost predicate Midway(s: Snapshot, s': Snapshot, order: seq<MarkerName>, target: Option<string>, alive: set<nat>, done: nat)
    requires done <= |order|
  {
    var reached := ResolveListed(s, order[..done], target, alive);
    || s' == reached
    || (&& done < |order| && Listed(order[done], target) && order[done].pid !in alive
        && Interrupted(reached, s', order[done]))
    || (&& done == |order| && target.Some? && s'.markers == reached.markers
        && exists gone <- Subsets(Orphans(reached.files, target.value, alive, {})) :: s'.files == reached.files - gone)
  }

  ghost function Subsets(paths: set<Path>): iset<set<Path>> {
    iset gone: set<Path> | gone <= paths
  }

  /** Recovery killed at any point and run again ends in the state it would have ended in. */
  lemma RecoveryIsIdempotent(s: Snapshot, s': Snapshot, order: seq<MarkerName>, target: Option<string>, alive: set<nat>, done: nat)
    requires done <= |order| && Midway(s, s', order, target, alive, done)
    ensures Recovered(s', order, target, alive) == Recovered(s, order, target, alive)
  {
    var first, rest := order[..done], order[done..];
    var reached := ResolveListed(s, first, target, alive);
    assert order == first + rest;
    ResolveListedAppend(s, first, rest, target, alive);
    ResolveListedAppend(s', first, rest, target, alive);
    ResolveListedIdles(s, first, target, alive);
    assert s'.markers == reached.markers;
    ResolveListedSkips(s', first, target, alive);
    if s' == reached {
    } else if done < |order| {
      InterruptedResolveAgrees(reached, s', order[done], alive);
    } else {
      var gone: set<Path> :| gone <= Orphans(reached.files, target.value, alive, {}) && s'.files == reached.files - gone;
      assert Swept(s', target, alive).files == Swept(reached, target, alive).files;
    }
  }

  // ── one save ──

  datatype Save = Save(name: string, pid: nat, data: Bytes, inPlace: bool) {
    function Marker(): MarkerName {
      MarkerName(name, pid)
    }
  }

  /** What a kill may leave of `save`, begun on the disk `was`: a marker, if any, that describes the
      save; a target that is the old file, the new one, or - in place only - anything at all while
      the checked tmp and its marker stand ready to finish it; and nothing else changed, the backup
      apart. */
  ghost predicate CrashSafe(s: Snapshot, save: Save, bak: Option<Path>, was: Snapshot) {
    var name := save.Marker();
    var current := Content(s.files, name.Target());
    && (name in s.markers ==>
          && s.markers[name].Readable?
          && var marker := s.markers[name].marker;
             && marker.previous == FileSha(was.files, name.Target())
             && marker.inPlace == save.inPlace
             && marker.expected in {None, Some(Sha256(save.data))})
    && (|| current == Content(was.files, name.Target())
        || current == Some(save.data)
        || (&& save.inPlace && current.Some?
            && name in s.markers && s.markers[name].marker.expected == Some(Sha256(save.data))
            && Content(s.files, name.Tmp()) == Some(save.data)))
    && Framed(s, save, bak, was)
  }

  ghost predicate Framed(s: Snapshot, save: Save, bak: Option<Path>, was: Snapshot) {
    var name := save.Marker();
    && (forall path :: path != name.Target() && path != name.Tmp() && Some(path) != bak ==>
          Content(s.files, path) == Content(was.files, path))
    && (forall other :: other != name ==>
          && (other in s.markers <==> other in was.markers)
          && (other in s.markers ==> s.markers[other] == was.markers[other]))
  }

  /** Another dead writer's save of the same target, checked and never put in place. */
  ghost predicate Waiting(other: MarkerName, save: Save, was: Snapshot, order: seq<MarkerName>, alive: set<nat>) {
    && other in order && other.name == save.name && other != save.Marker() && other.pid !in alive
    && other in was.markers && was.markers[other].Readable? && was.markers[other].marker.expected.Some?
    && Content(was.files, other.Tmp()) == Some(was.markers[other].marker.expected.value.content)
  }

  /** The old file, the new one, or - if earlier saves were left unresolved - the checked bytes of one. */
  ghost predicate Whole(content: Option<Bytes>, save: Save, was: Snapshot, order: seq<MarkerName>, alive: set<nat>) {
    || content == Content(was.files, File(save.name))
    || content == Some(save.data)
    || exists other :: Waiting(other, save, was, order, alive) && content == Some(was.markers[other].marker.expected.value.content)
  }

  /** What the resolving of one marker after another keeps: the target is whole, or the save's own marker
      and tmp stand ready to make it so. */
  ghost predicate Mending(s: Snapshot, save: Save, bak: Option<Path>, was: Snapshot, order: seq<MarkerName>, alive: set<nat>) {
    var name := save.Marker();
    && (name in s.markers ==>
          && s.markers[name].Readable? && s.markers[name].marker.inPlace == save.inPlace
          && s.markers[name].marker.expected in {None, Some(Sha256(save.data))})
    && (forall other: MarkerName | other.name == save.name && other != name ::
          && (other in s.markers ==> other in was.markers && s.markers[other] == was.markers[other])
          && Content(s.files, other.Tmp()) in {None, Content(was.files, other.Tmp())})
    && (|| Whole(Content(s.files, name.Target()), save, was, order, alive)
        || (&& save.inPlace && name in s.markers && s.markers[name].marker.expected == Some(Sha256(save.data))
            && Content(s.files, name.Target()).Some? && Content(s.files, name.Tmp()) == Some(save.data)))
    && (forall file: Path | file.File? && file != name.Target() && Some(file) != bak :: Content(s.files, file) == Content(was.files, file))
  }

  lemma ResolveOneMends(s: Snapshot, name: MarkerName, save: Save, bak: Option<Path>, was: Snapshot, order: seq<MarkerName>, alive: set<nat>)
    requires Mending(s, save, bak, was, order, alive) && name in order && name.name == save.name && save.pid !in alive
    ensures Mending(ResolveOne(s, name, alive), save, bak, was, order, alive)
  {
    var r := ResolveOne(s, name, alive);
    if !Idle(s.markers, name, alive) && s.markers[name].Readable? {
      if name != save.Marker() {
        OtherMends(s, name, save, bak, was, order, alive);
      } else {
        OwnMends(s, save, bak, was, order, alive);
      }
    } else {
      assert r.files == s.files;
    }
  }

  lemma OtherMends(s: Snapshot, name: MarkerName, save: Save, bak: Option<Path>, was: Snapshot, order: seq<MarkerName>, alive: set<nat>)
    requires Mending(s, save, bak, was, order, alive) && name in order && name.name == save.name && name != save.Marker()
    requires name in s.markers && s.markers[name].Readable? && name.pid !in alive
    ensures Mending(ResolveOne(s, name, alive), save, bak, was, order, alive)
  {
    var r := ResolveOne(s, name, alive);
    if Decide(s.files, name, s.markers[name].marker).Finished? {
      assert Waiting(name, save, was, order, alive);
      assert Content(r.files, name.Target()) == Some(was.markers[name].marker.expected.value.content);
    } else {
      assert Content(r.files, name.Target()) == Content(s.files, name.Target());
    }
  }

  lemma OwnMends(s: Snapshot, save: Save, bak: Option<Path>, was: Snapshot, order: seq<MarkerName>, alive: set<nat>)
    requires Mending(s, save, bak, was, order, alive) && save.Marker() in s.markers && save.pid !in alive
    ensures Mending(ResolveOne(s, save.Marker(), alive), save, bak, was, order, alive)
  {
    var name := save.Marker();
    var r := ResolveOne(s, name, alive);
    if Decide(s.files, name, s.markers[name].marker).Finished? {
      assert Content(r.files, name.Target()) == Some(save.data);
    } else {
      assert Content(r.files, name.Target()) == Content(s.files, name.Target());
    }
  }

  lemma {:induction false} ResolveListedMends(
    s: Snapshot, rest: seq<MarkerName>, save: Save, bak: Option<Path>, was: Snapshot, order: seq<MarkerName>, alive: set<nat>)
    requires Mending(s, save, bak, was, order, alive) && save.pid !in alive && forall name <- rest :: name in order
    ensures Mending(ResolveListed(s, rest, Some(save.name), alive), save, bak, was, order, alive)
    decreases |rest|
  {
    hide Mending, Idle;
    if rest != [] {
      assert rest[0] in rest;
      var next := if Listed(rest[0], Some(save.name)) then ResolveOne(s, rest[0], alive) else s;
      if Listed(rest[0], Some(save.name)) {
        ResolveOneMends(s, rest[0], save, bak, was, order, alive);
      }
      ResolveListedMends(next, rest[1..], save, bak, was, order, alive);
    }
  }

  /** Kill a save after any step and recover its target: the target is whole - exactly the old file or
      exactly the checked new bytes, or, only if earlier interrupted saves of it were left unresolved,
      the checked bytes of one of those - neither tmp nor marker is left, and nothing else moved. The
      listing shows the marker if there is one. */
  lemma KillThenRecover(
    s: Snapshot, save: Save, bak: Option<Path>, was: Snapshot, order: seq<MarkerName>, alive: set<nat>)
    requires CrashSafe(s, save, bak, was) && save.pid !in alive && (bak.Some? ==> bak.value.File?)
    requires save.Marker() in s.markers ==> save.Marker() in order
    ensures var r := Recovered(s, order, Some(save.name), alive);
      && Whole(Content(r.files, File(save.name)), save, was, order, alive)
      && ((forall other :: !Waiting(other, save, was, order, alive)) ==>
            Content(r.files, File(save.name)) in {Content(was.files, File(save.name)), Some(save.data)})
      && save.Marker() !in r.markers
      && save.Marker().Tmp() !in r.files
      && (forall file: Path :: file.File? && file != File(save.name) && Some(file) != bak ==>
            Content(r.files, file) == Content(was.files, file))
  {
    var name := save.Marker();
    assert Mending(s, save, bak, was, order, alive);
    ResolveListedMends(s, order, save, bak, was, order, alive);
    ResolveListedIdles(s, order, Some(save.name), alive);
    var r := ResolveListed(s, order, Some(save.name), alive);
    assert Idle(r.markers, name, alive);
    assert r.files.Keys * Orphans(r.files, save.name, alive, {}) !! {File(save.name)};
    assert name.Tmp() in r.files ==> name.Tmp() in Orphans(r.files, save.name, alive, {});
  }

  /** The target is as it was, and a marker of the save vouches for no bytes. */
  predicate Unvouched(s: Snapshot, save: Save, was: Snapshot) {
    && Content(s.files, File(save.name)) == Content(was.files, File(save.name))
    && (save.Marker() in s.markers ==> s.markers[save.Marker()].Readable? && s.markers[save.Marker()].marker.expected.None?)
  }

  /** Killed before its bytes were checked, a save is never put in place: what recovery leaves is the old
      file, or an earlier save's. */
  lemma UncheckedNeverLands(
    s: Snapshot, save: Save, bak: Option<Path>, was: Snapshot, order: seq<MarkerName>, alive: set<nat>)
    requires CrashSafe(s, save, bak, was) && Unvouched(s, save, was) && save.pid !in alive && (bak.Some? ==> bak.value.File?)
    requires save.Marker() in s.markers ==> save.Marker() in order
    ensures var content := Content(Recovered(s, order, Some(save.name), alive).files, File(save.name));
      || content == Content(was.files, File(save.name))
      || exists other :: Waiting(other, save, was, order, alive) && content == Some(was.markers[other].marker.expected.value.content)
  {
    var unlike := save.(data := save.data + [0]);
    assert CrashSafe(s, unlike, bak, was);
    KillThenRecover(s, save, bak, was, order, alive);
    KillThenRecover(s, unlike, bak, was, order, alive);
    hide Recovered, CrashSafe, Waiting;
    assert |unlike.data| != |save.data|;
    assert forall other :: Waiting(other, unlike, was, order, alive) <==> Waiting(other, save, was, order, alive) by {
      SameWaiting(save, unlike, was, order, alive);
    }
  }

  lemma SameWaiting(save: Save, unlike: Save, was: Snapshot, order: seq<MarkerName>, alive: set<nat>)
    requires save.Marker() == unlike.Marker() && save.name == unlike.name
    ensures forall other :: Waiting(other, unlike, was, order, alive) <==> Waiting(other, save, was, order, alive)
  {
  }

  /** In rename mode a target is never anything but the old file or the new one, recovery or not. */
  lemma RenameIsNeverTorn(s: Snapshot, save: Save, bak: Option<Path>, was: Snapshot)
    requires CrashSafe(s, save, bak, was) && !save.inPlace
    ensures OldOrNew(s, save, was.files)
  {
  }

  predicate OldOrNew(s: Snapshot, save: Save, files: map<Path, Bytes>) {
    Content(s.files, File(save.name)) in {Content(files, File(save.name)), Some(save.data)}
  }

  ghost predicate NeverVouched(trace: seq<Snapshot>, from: nat, save: Save, was: Snapshot) {
    forall i | from <= i < |trace| :: Unvouched(trace[i], save, was)
  }

  /** What a save answers, in the order things can go wrong, and when it has been checked. */
  ghost predicate AnswersFor(
    result: SaveResult, data: Bytes, previous: Option<Digest>, written: bool, checked: bool, marked: bool, bak: Option<Path>,
    target: Path, faults: Faults)
  {
    var replacement := Verdict(faults.plan, REPLACE_RETRIES + 1);
    var unmarked := marked && faults.markerRewriteRefused;
    var unbacked := bak.Some? && previous.Some? && (faults.backupRefused || bak.value == target);
    && (result.WriteFailed? <==> !written)
    && (result.VerifyFailed? <==> written && !checked)
    && (result.MarkerFailed? <==> written && checked && unmarked)
    && (result.BackupFailed? <==> written && checked && !unmarked && unbacked)
    && (result.Locked? <==> written && checked && !unmarked && !unbacked && replacement.LockedOut?)
    && (result.ReplaceFailed? <==> written && checked && !unmarked && !unbacked && replacement.Broke?)
    && (result.Saved? ==> result == Saved(Sha256(data), previous, marked))
  }

  /** At every state from `from` on the target is exactly the old file or exactly the new one. */
  ghost predicate NeverTorn(trace: seq<Snapshot>, from: nat, save: Save, files: map<Path, Bytes>) {
    forall i | from <= i < |trace| :: OldOrNew(trace[i], save, files)
  }

  /** In rename mode a target rewritten since the dead save began is left as it is; in place, a
      verified tmp overwrites it. */
  lemma ResolveChangesTarget(s: Snapshot, name: MarkerName, alive: set<nat>)
    requires name in s.markers && s.markers[name].Readable? && name.pid !in alive
    ensures var marker := s.markers[name].marker;
      var current := FileSha(s.files, name.Target());
      FileSha(ResolveOne(s, name, alive).files, name.Target()) != current
      <==> && marker.expected.Some? && current != marker.expected
           && FileSha(s.files, name.Tmp()) == marker.expected
           && (marker.inPlace || current == marker.previous)
  {
  }

  /** One marker resolved. A live owner's stays, an unreadable one goes. A dead owner's goes with its tmp, which
      becomes the target exactly when it is the bytes the marker vouches for, the target is not those already,
      and it is what the save found there or is written in place. No other file or marker changes. */
  ghost predicate Resolves(s: Snapshot, next: Snapshot, name: MarkerName, alive: set<nat>) {
    if name !in s.markers || (s.markers[name].Readable? && name.pid in alive) then next == s
    else
      && next.markers == s.markers - {name}
      && if s.markers[name].Unreadable? then next.files == s.files
         else
           var Marker(expected, previous, inPlace) := s.markers[name].marker;
           var current, staged := Content(s.files, File(name.name)), Content(s.files, TmpFor(name.name, name.pid));
           var places := staged.Some? && expected == Some(Sha256(staged.value)) && current != staged
                         && (inPlace || previous == if current.Some? then Some(Sha256(current.value)) else None);
           && TmpFor(name.name, name.pid) !in next.files
           && Content(next.files, File(name.name)) == (if places then staged else current)
           && forall path | path !in {File(name.name), TmpFor(name.name, name.pid)} :: Content(next.files, path) == Content(s.files, path)
  }

  lemma ResolveOneResolves(s: Snapshot, name: MarkerName, alive: set<nat>)
    ensures Resolves(s, ResolveOne(s, name, alive), name, alive)
  {
  }

  // ── putting the tmp in place ──

  /** One try at replacing the target: it works, a sharing violation cuts it short, or another error
      does. Of an in-place copy `copied` bytes were written first; more than all of them means the
      file was truncated to its new length too. */
  datatype Attempt = Clean | Held(copied: nat) | Broken(copied: nat)

  datatype Replacement = Put | LockedOut | Broke

  const REPLACE_RETRIES: nat := 3

  function Verdict(plan: seq<Attempt>, tries: nat): Replacement
    decreases tries
  {
    if tries == 0 then LockedOut
    else if plan == [] || plan[0].Clean? then Put
    else if plan[0].Broken? then Broke
    else Verdict(plan[1..], tries - 1)
  }

  function TryAt(plan: seq<Attempt>, k: nat): Attempt {
    if k < |plan| then plan[k] else Clean
  }

  /** The tries go on while the file is held; the first other one, the `k`th, decides, and without one the
      file stayed locked. */
  lemma {:induction false} VerdictMeans(plan: seq<Attempt>, tries: nat) returns (k: nat)
    ensures k <= tries && forall j | 0 <= j < k :: TryAt(plan, j).Held?
    ensures k == tries ==> Verdict(plan, tries) == LockedOut
    ensures k < tries ==> !TryAt(plan, k).Held? && Verdict(plan, tries) == if TryAt(plan, k).Clean? then Put else Broke
    decreases tries
  {
    k := 0;
    if tries > 0 && TryAt(plan, 0).Held? {
      k := VerdictMeans(plan[1..], tries - 1);
      forall j | 0 <= j < k + 1 ensures TryAt(plan, j).Held? {
        assert j > 0 ==> TryAt(plan, j) == TryAt(plan[1..], j - 1);
      }
      assert TryAt(plan, k + 1) == TryAt(plan[1..], k);
      k := k + 1;
    }
  }

  /** The target after `copied` bytes of `data` were written over `prior` from its start. */
  function Torn(prior: Bytes, data: Bytes, copied: nat): Bytes {
    if copied > |data| then data
    else data[..copied] + if copied < |prior| then prior[copied..] else []
  }

  /** What the tries that failed left of an in-place target. */
  function LeftBehind(prior: Bytes, data: Bytes, plan: seq<Attempt>, tries: nat): Bytes
    decreases tries
  {
    if tries == 0 || plan == [] || plan[0].Clean? then prior
    else
      var torn := Torn(prior, data, plan[0].copied);
      if plan[0].Broken? then torn else LeftBehind(torn, data, plan[1..], tries - 1)
  }

  predicate CopiesNothing(plan: seq<Attempt>, tries: nat)
    decreases tries
  {
    tries == 0 || plan == [] || plan[0].Clean?
    || (plan[0].copied == 0 && (plan[0].Broken? || CopiesNothing(plan[1..], tries - 1)))
  }

  /** "On any failure the target is untouched" (atomic_write.py:370-372): over every pair of files,
      true of a failed replacement exactly when it renames or no try copied a byte. */
  lemma FailedReplaceUntouchedIff(plan: seq<Attempt>, tries: nat, inPlace: bool)
    requires !Verdict(plan, tries).Put?
    ensures (forall prior, data :: (if inPlace then LeftBehind(prior, data, plan, tries) else prior) == prior)
            <==> !inPlace || CopiesNothing(plan, tries)
  {
    if inPlace {
      if CopiesNothing(plan, tries) {
        forall prior, data ensures LeftBehind(prior, data, plan, tries) == prior {
          CopiedNothing(prior, data, plan, tries);
        }
      } else {
        CopiedSomething([0], [1], plan, tries);
        assert LeftBehind([0], [1], plan, tries) != [0];
      }
    }
  }

  lemma {:induction false} CopiedNothing(prior: Bytes, data: Bytes, plan: seq<Attempt>, tries: nat)
    requires CopiesNothing(plan, tries)
    ensures LeftBehind(prior, data, plan, tries) == prior
    decreases tries
  {
    if tries != 0 && plan != [] && !plan[0].Clean? {
      assert Torn(prior, data, 0) == prior;
      if plan[0].Held? {
        CopiedNothing(prior, data, plan[1..], tries - 1);
      }
    }
  }

  lemma {:induction false} CopiedSomething(prior: Bytes, data: Bytes, plan: seq<Attempt>, tries: nat)
    requires |prior| == 1 && |data| == 1
    requires !CopiesNothing(plan, tries) || prior == data
    ensures LeftBehind(prior, data, plan, tries) == data
    decreases tries
  {
    if tries != 0 && plan != [] && !plan[0].Clean? {
      var torn := Torn(prior, data, plan[0].copied);
      assert torn == if plan[0].copied == 0 then prior else data;
      if plan[0].Held? {
        CopiedSomething(torn, data, plan[1..], tries - 1);
      }
    }
  }

  /** So no caller can rely on it in place: whatever is over and under it, a failed save leaves every target
      as it was if and only if it renames. */
  lemma FailedReplaceUntouchedAlwaysIff(inPlace: bool)
    ensures (forall plan, prior, data :: UntouchedIfFailed(plan, prior, data, inPlace)) <==> !inPlace
  {
    if inPlace {
      var plan := [Broken(1)];
      assert Verdict(plan, REPLACE_RETRIES + 1).Broke?;
      assert LeftBehind([0], [1], plan, REPLACE_RETRIES + 1) == Torn([0], [1], 1) == [1];
      assert !UntouchedIfFailed(plan, [0], [1], inPlace);
    }
  }

  predicate UntouchedIfFailed(plan: seq<Attempt>, prior: Bytes, data: Bytes, inPlace: bool) {
    Verdict(plan, REPLACE_RETRIES + 1).Put? || !inPlace || LeftBehind(prior, data, plan, REPLACE_RETRIES + 1) == prior
  }

  // ── recovery when the target cannot be written ──

  /** A marker whose verified tmp recovery would put in place. */
  predicate Finishes(s: Snapshot, name: MarkerName, alive: set<nat>) {
    !Idle(s.markers, name, alive) && s.markers[name].Readable? && Decide(s.files, name, s.markers[name].marker).Finished?
  }

  function Placing(s: Snapshot, name: MarkerName, alive: set<nat>, plan: seq<Attempt>): Replacement {
    if Finishes(s, name, alive) then Verdict(plan, REPLACE_RETRIES + 1) else Put
  }

  /** One marker resolved while the tries of `plan` fail. */
  function Attempted(s: Snapshot, name: MarkerName, alive: set<nat>, plan: seq<Attempt>): Snapshot {
    if Placing(s, name, alive, plan).Put? then ResolveOne(s, name, alive)
    else if s.markers[name].marker.inPlace && name.Target() in s.files then
      s.(files := s.files[name.Target() := LeftBehind(s.files[name.Target()], s.files[name.Tmp()], plan, REPLACE_RETRIES + 1)])
    else s
  }

  /** The disk, the markers an OSError left standing, and whether a lock ended the recovery. */
  datatype Recovery = Recovery(disk: Snapshot, failed: set<MarkerName>, aborted: bool)

  /** Every listed marker in turn, whatever fails. */
  function Resolutions(
    s: Snapshot, order: seq<MarkerName>, target: Option<string>, alive: set<nat>, plan: MarkerName -> seq<Attempt>): Recovery
    decreases |order|
  {
    if order == [] then Recovery(s, {}, false)
    else
      var before, name := Resolutions(s, order[..|order| - 1], target, alive, plan), order[|order| - 1];
      if before.aborted || !Listed(name, target) then before
      else
        var placing := Placing(before.disk, name, alive, plan(name));
        Recovery(Attempted(before.disk, name, alive, plan(name)),
                 if placing.Broke? then before.failed + {name} else before.failed, placing.LockedOut?)
  }

  /** At its turn the marker would be finished, and the target cannot be written. */
  ghost predicate FailsAt(
    s: Snapshot, order: seq<MarkerName>, target: Option<string>, alive: set<nat>, plan: MarkerName -> seq<Attempt>, i: nat)
    requires i < |order|
  {
    var before := Resolutions(s, order[..i], target, alive, plan);
    && !before.aborted && Listed(order[i], target) && Finishes(before.disk, order[i], alive)
    && Verdict(plan(order[i]), REPLACE_RETRIES + 1).Broke?
  }

  /** A marker is left standing exactly if it fails at its turn. */
  lemma {:induction false} FailedIff(
    s: Snapshot, order: seq<MarkerName>, target: Option<string>, alive: set<nat>, plan: MarkerName -> seq<Attempt>, name: MarkerName)
    ensures name in Resolutions(s, order, target, alive, plan).failed
            <==> exists i :: 0 <= i < |order| && order[i] == name && FailsAt(s, order, target, alive, plan, i)
    decreases |order|
  {
    hide Attempted, Verdict, Idle, Decide;
    if order != [] {
      var n := |order| - 1;
      FailedIff(s, order[..n], target, alive, plan, name);
      forall i | 0 <= i < n
        ensures FailsAt(s, order[..n], target, alive, plan, i) <==> FailsAt(s, order, target, alive, plan, i)
      {
        assert order[..n][..i] == order[..i];
      }
    }
  }

  /** What a marker's resolution looks at. */
  predicate SameView(a: Snapshot, b: Snapshot, name: MarkerName) {
    && Content(a.files, name.Target()) == Content(b.files, name.Target()) && Content(a.files, name.Tmp()) == Content(b.files, name.Tmp())
    && (name in a.markers <==> name in b.markers) && (name in a.markers ==> a.markers[name] == b.markers[name])
  }

  lemma {:induction false} SeenAsBefore(
    s: Snapshot, order: seq<MarkerName>, target: Option<string>, alive: set<nat>, plan: MarkerName -> seq<Attempt>, name: MarkerName)
    requires name !in order && forall other <- order :: Listed(other, target) && other.name == name.name ==> Idle(s.markers, other, alive)
    requires forall other <- order :: !Verdict(plan(other), REPLACE_RETRIES + 1).LockedOut?
    ensures var r := Resolutions(s, order, target, alive, plan);
      && !r.aborted && SameView(s, r.disk, name)
      && forall other :: Idle(s.markers, other, alive) ==> Idle(r.disk.markers, other, alive)
    decreases |order|
  {
    if order != [] {
      var n := |order| - 1;
      SeenAsBefore(s, order[..n], target, alive, plan, name);
      assert order[n] in order;
    }
  }

  /** Of a listing that shows each marker once, in which no other marker of the same drawing is to be
      resolved and no target stays locked: a marker is left standing exactly if on the disk as it was it
      would be finished and its target cannot be written. */
  lemma AloneFailsIff(
    s: Snapshot, order: seq<MarkerName>, target: Option<string>, alive: set<nat>, plan: MarkerName -> seq<Attempt>, name: MarkerName)
    requires forall i, j | 0 <= i < j < |order| :: order[i] != order[j]
    requires forall other <- order :: Listed(other, target) && other != name && other.name == name.name ==> Idle(s.markers, other, alive)
    requires forall other <- order :: !Verdict(plan(other), REPLACE_RETRIES + 1).LockedOut?
    ensures name in Resolutions(s, order, target, alive, plan).failed
            <==> name in order && Listed(name, target) && Finishes(s, name, alive) && Verdict(plan(name), REPLACE_RETRIES + 1).Broke?
  {
    FailedIff(s, order, target, alive, plan, name);
    hide Resolutions, Verdict, Idle, Finishes, FailsAt;
    forall i | 0 <= i < |order| && order[i] == name
      ensures FailsAt(s, order, target, alive, plan, i)
              <==> Listed(name, target) && Finishes(s, name, alive) && Verdict(plan(name), REPLACE_RETRIES + 1).Broke?
    {
      FailsAtOwnTurn(s, order, target, alive, plan, i);
    }
  }

  lemma FailsAtOwnTurn(
    s: Snapshot, order: seq<MarkerName>, target: Option<string>, alive: set<nat>, plan: MarkerName -> seq<Attempt>, i: nat)
    requires i < |order| && forall i, j | 0 <= i < j < |order| :: order[i] != order[j]
    requires forall other <- order :: Listed(other, target) && other != order[i] && other.name == order[i].name ==> Idle(s.markers, other, alive)
    requires forall other <- order :: !Verdict(plan(other), REPLACE_RETRIES + 1).LockedOut?
    ensures FailsAt(s, order, target, alive, plan, i)
            <==> Listed(order[i], target) && Finishes(s, order[i], alive) && Verdict(plan(order[i]), REPLACE_RETRIES + 1).Broke?
  {
    forall other <- order[..i] ensures other in order && other != order[i] {
      var j :| 0 <= j < i && order[..i][j] == other;
      assert order[j] == other;
    }
    SeenAsBefore(s, order[..i], target, alive, plan, order[i]);
    hide Resolutions, Verdict;
  }

  const TORN_SAVE := MarkerName("a.dxf", 7)

  /** A save of [1, 2] over [0, 0], in place, killed after its first byte. */
  function TornDisk(): Snapshot {
    Snapshot(map[File("a.dxf") := [1, 0], TmpFor("a.dxf", 7) := [1, 2]],
             map[TORN_SAVE := Readable(Marker(Some(Sha256([1, 2])), Some(Sha256([0, 0])), true))])
  }

  /** Recovered while its target cannot be written, with a target given: the marker stands, its tmp is
      gone, the target is torn; and a later recovery that meets no error only removes the marker. */
  lemma BrokenRecoveryTearsForGood(plan: MarkerName -> seq<Attempt>)
    requires plan(TORN_SAVE) == [Broken(1)]
    ensures var r := Resolutions(TornDisk(), [TORN_SAVE], Some("a.dxf"), {}, plan);
      var after := Swept(r.disk, Some("a.dxf"), {});
      && r.failed == {TORN_SAVE} && !r.aborted
      && after == Snapshot(map[File("a.dxf") := [1, 0]], TornDisk().markers)
      && Recovered(after, [TORN_SAVE], Some("a.dxf"), {}) == Snapshot(map[File("a.dxf") := [1, 0]], map[])
  {
    var d := TornDisk();
    assert [TORN_SAVE][..0] == [];
    assert Verdict([Broken(1)], REPLACE_RETRIES + 1).Broke?;
    assert LeftBehind([1, 0], [1, 2], [Broken(1)], REPLACE_RETRIES + 1) == Torn([1, 0], [1, 2], 1) == [1, 0];
    assert [1, 0] != [1, 2] && [1, 0] != [0, 0];
    assert Finishes(d, TORN_SAVE, {});
    assert d.files[File("a.dxf") := [1, 0]] == d.files;
    assert Attempted(d, TORN_SAVE, {}, [Broken(1)]) == d;
    assert Resolutions(d, [TORN_SAVE][..0], Some("a.dxf"), {}, plan) == Recovery(d, {}, false);
    var r := Resolutions(d, [TORN_SAVE], Some("a.dxf"), {}, plan);
    assert r == Recovery(d, {TORN_SAVE}, false);
    var after := Swept(d, Some("a.dxf"), {});
    assert after.files == map[File("a.dxf") := [1, 0]];
    LostTmpNeverFinishes(after, TORN_SAVE, {});
    assert ResolveListed(after, [TORN_SAVE], Some("a.dxf"), {}) == ResolveOne(after, TORN_SAVE, {});
    assert Orphans(after.files, "a.dxf", {}, {}) == {};
  }

  // ── the disk ──

  datatype SaveResult =
    | Saved(sha256: Digest, previous: Option<Digest>, recoveryMarker: bool)
    | WriteFailed | VerifyFailed | MarkerFailed | BackupFailed | Locked | ReplaceFailed

  /** What goes wrong during one save. */
  datatype Faults = Faults(
    markerRefused: bool,         // the first marker cannot be written: the save goes on without one
    writeStops: nat,             // the writer raises before this chunk
    markerRewriteRefused: bool,
    backupRefused: bool,
    plan: seq<Attempt>)

  function Flatten(chunks: seq<Bytes>): Bytes {
    if chunks == [] then [] else chunks[0] + Flatten(chunks[1..])
  }

  lemma {:induction false} FlattenAppend(chunks: seq<Bytes>, last: Bytes)
    ensures Flatten(chunks + [last]) == Flatten(chunks) + last
  {
    if chunks == [] {
      assert chunks + [last] == [last];
    } else {
      assert (chunks + [last])[1..] == chunks[1..] + [last];
      FlattenAppend(chunks[1..], last);
    }
  }

  /** One byte more written over it. */
  lemma TornNext(prior: Bytes, data: Bytes, i: nat)
    requires i < |data|
    ensures var over := Torn(prior, data, i);
      i <= |over| && Torn(prior, data, i + 1) == over[..i] + [data[i]] + if i < |over| then over[i + 1..] else []
  {
    var over := Torn(prior, data, i);
    assert over[..i] == data[..i];
    assert data[..i + 1] == data[..i] + [data[i]];
    if i < |over| {
      assert over[i + 1..] == if i + 1 < |prior| then prior[i + 1..] else [];
    }
  }

  lemma TornEnds(prior: Bytes, data: Bytes, copied: nat)
    ensures Torn(prior, data, 0) == prior && (copied > |data| ==> Torn(prior, data, copied) == data)
  {
  }

  /** The tries from the next one on. */
  lemma NextTry(plan: seq<Attempt>, attempt: nat, prior: Bytes, data: Bytes)
    requires attempt <= REPLACE_RETRIES
    ensures var try := if attempt < |plan| then plan[attempt] else Clean;
      var rest, left := Rest(plan, attempt), REPLACE_RETRIES + 1 - attempt;
      && Verdict(rest, left) == (if try.Clean? then Put else if try.Broken? then Broke else Verdict(Rest(plan, attempt + 1), left - 1))
      && LeftBehind(prior, data, rest, left) ==
           (if try.Clean? then prior
            else if try.Broken? then Torn(prior, data, try.copied)
            else LeftBehind(Torn(prior, data, try.copied), data, Rest(plan, attempt + 1), left - 1))
  {
    var rest := Rest(plan, attempt);
    if rest != [] {
      assert rest[1..] == Rest(plan, attempt + 1);
    }
  }

  lemma NoTryYet(plan: seq<Attempt>, data: Bytes)
    ensures Rest(plan, 0) == plan
    ensures forall rest :: Verdict(rest, 0).LockedOut?
    ensures forall rest, torn :: LeftBehind(torn, data, rest, 0) == torn
  {
  }

  /** A state of a later try is a state of the whole replacement. */
  lemma ReplacingOn(s: Snapshot, before: Snapshot, was: Snapshot, source: Path, target: Path, inPlace: bool)
    requires source in before.files && source in was.files && source != target && before.markers == was.markers
    requires Replacing(s, before, source, target, inPlace)
    requires if inPlace then target in before.files && target in was.files && before.files == was.files[target := before.files[target]]
             else before.files == was.files
    ensures Replacing(s, was, source, target, inPlace)
  {
    if inPlace {
      assert Renamed(before.files, source, target) == Renamed(was.files, source, target);
    }
  }

  /** Every primitive is one effect and records the state it leaves in `trace`, so that a process that
      dies after any step is a run that stops at any snapshot of the trace. An in-place copy is one step a
      byte. */
  class Disk {
    var files: map<Path, Bytes>
    var markers: map<MarkerName, MarkerFile>
    ghost var trace: seq<Snapshot>

    ghost function Now(): Snapshot
      reads this
    {
      Snapshot(files, markers)
    }

    // Atomic effects.

    method WriteFile(path: Path, bytes: Bytes)
      modifies this
      ensures Now() == Snapshot(old(files)[path := bytes], old(markers))
      ensures trace == old(trace) + [Now()]
    {
      files := files[path := bytes];
      trace := trace + [Now()];
    }

    method Unlink(path: Path)
      modifies this
      ensures Now() == Snapshot(old(files) - {path}, old(markers))
      ensures trace == old(trace) + [Now()]
    {
      files := files - {path};
      trace := trace + [Now()];
    }

    method Rename(source: Path, target: Path)
      requires source in files
      modifies this
      ensures Now() == Snapshot(Renamed(old(files), source, target), old(markers))
      ensures trace == old(trace) + [Now()]
    {
      files := (files - {source})[target := files[source]];
      trace := trace + [Now()];
    }

    method WriteMarker(name: MarkerName, marker: Marker)
      modifies this
      ensures Now() == Snapshot(old(files), old(markers)[name := Readable(marker)])
      ensures trace == old(trace) + [Now()]
    {
      markers := markers[name := Readable(marker)];
      trace := trace + [Now()];
    }

    method UnlinkMarker(name: MarkerName)
      modifies this
      ensures Now() == Snapshot(old(files), old(markers) - {name})
      ensures trace == old(trace) + [Now()]
    {
      markers := markers - {name};
      trace := trace + [Now()];
    }

    // The protocol.

    /** `_copy_into`, a byte at a time, cut short by a failing attempt. */
    method CopyInto(source: Path, target: Path, attempt: Attempt)
      requires source in files && target in files && source != target
      modifies this
      ensures old(trace) <= trace && markers == old(markers)
      ensures forall i | |old(trace)| <= i < |trace| :: var s := trace[i];
        && s.markers == old(markers)
        && (|| s.files == Renamed(old(files), source, target)
            || (target in s.files && s.files == old(files)[target := s.files[target]]))
      ensures files == if attempt.Clean? then Renamed(old(files), source, target)
                       else old(files)[target := Torn(old(files)[target], old(files)[source], attempt.copied)]
    {
      ghost var was := files;
      var data := files[source];
      var stop := if attempt.Clean? || attempt.copied > |data| then |data| else attempt.copied;
      var i := 0;
      TornEnds(was[target], data, if attempt.Clean? then 0 else attempt.copied);
      hide Torn;
      while i < stop
        invariant 0 <= i <= stop && markers == old(markers)
        invariant old(trace) <= trace
        invariant files == was[target := Torn(was[target], data, i)]
        invariant forall i | |old(trace)| <= i < |trace| :: var s := trace[i];
          s.markers == old(markers) && target in s.files && s.files == was[target := s.files[target]]
      {
        var over := files[target];
        TornNext(was[target], data, i);
        WriteFile(target, over[..i] + [data[i]] + if i < |over| then over[i + 1..] else []);
        i := i + 1;
      }
      if attempt.Clean? || attempt.copied > |data| {
        WriteFile(target, data);
        if attempt.Clean? {
          Unlink(source);
          assert files == Renamed(was, source, target);
        }
      }
    }

    /** One try of `_replace`. */
    method TryOnce(source: Path, target: Path, inPlace: bool, try: Attempt)
      requires source in files && source != target && (inPlace ==> target in files)
      modifies this
      ensures old(trace) <= trace && markers == old(markers)
      ensures forall i | |old(trace)| <= i < |trace| :: Replacing(trace[i], old(Now()), source, target, inPlace)
      ensures files ==
        if try.Clean? then Renamed(old(files), source, target)
        else if inPlace then old(files)[target := Torn(old(files)[target], old(files)[source], try.copied)]
        else old(files)
    {
      if inPlace {
        CopyInto(source, target, try);
      } else if try.Clean? {
        Rename(source, target);
      }
    }

    /** `_replace`: at most `REPLACE_RETRIES` more tries after a sharing violation. */
    method Replace(source: Path, target: Path, inPlace: bool, plan: seq<Attempt>) returns (replacement: Replacement)
      requires source in files && source != target && (inPlace ==> target in files)
      modifies this
      ensures old(trace) <= trace && markers == old(markers)
      ensures forall i | |old(trace)| <= i < |trace| :: Replacing(trace[i], old(Now()), source, target, inPlace)
      ensures replacement == Verdict(plan, REPLACE_RETRIES + 1)
      ensures files ==
        if replacement.Put? then Renamed(old(files), source, target)
        else if inPlace then old(files)[target := LeftBehind(old(files)[target], old(files)[source], plan, REPLACE_RETRIES + 1)]
        else old(files)
    {
      hide LeftBehind, Verdict, Torn, Replacing;
      ghost var was := files;
      var attempt := 0;
      NoTryYet(plan, was[source]);
      while attempt <= REPLACE_RETRIES
        invariant 0 <= attempt <= REPLACE_RETRIES + 1
        invariant markers == old(markers) && old(trace) <= trace
        invariant forall i | |old(trace)| <= i < |trace| :: Replacing(trace[i], old(Now()), source, target, inPlace)
        invariant source in files && files[source] == was[source]
        invariant if inPlace then target in files && files == was[target := files[target]] else files == was
        invariant Verdict(plan, REPLACE_RETRIES + 1) == Verdict(Rest(plan, attempt), REPLACE_RETRIES + 1 - attempt)
        invariant inPlace ==>
          LeftBehind(was[target], was[source], plan, REPLACE_RETRIES + 1)
          == LeftBehind(files[target], was[source], Rest(plan, attempt), REPLACE_RETRIES + 1 - attempt)
      {
        var try := if attempt < |plan| then plan[attempt] else Clean;
        NextTry(plan, attempt, if inPlace then files[target] else [], was[source]);
        ghost var before, sofar := Now(), trace;
        TryOnce(source, target, inPlace, try);
        assert try.Clean? ==> files == Renamed(was, source, target);
        forall i | |sofar| <= i < |trace| ensures Replacing(trace[i], old(Now()), source, target, inPlace) {
          ReplacingOn(trace[i], before, old(Now()), source, target, inPlace);
        }
        match try {
          case Clean => return Put;
          case Broken(_) => return Broke;
          case Held(_) => attempt := attempt + 1;
        }
      }
      return LockedOut;
    }

    /** The document written into the tmp, chunk by chunk, until the writer raises. */
    method WriteTmp(tmp: Path, chunks: seq<Bytes>, stops: nat) returns (written: bool)
      modifies this
      ensures old(trace) <= trace && markers == old(markers)
      ensures forall i | |old(trace)| <= i < |trace| ::
        trace[i].markers == old(markers) && tmp in trace[i].files && trace[i].files == old(files)[tmp := trace[i].files[tmp]]
      ensures tmp in files && files == old(files)[tmp := files[tmp]]
      ensures written == (stops >= |chunks|)
      ensures written ==> files[tmp] == Flatten(chunks)
    {
      WriteFile(tmp, []);
      var i := 0;
      while i < |chunks| && i < stops
        invariant 0 <= i <= |chunks| && i <= stops
        invariant old(trace) <= trace && markers == old(markers)
        invariant tmp in files && files == old(files)[tmp := Flatten(chunks[..i])]
        invariant forall i | |old(trace)| <= i < |trace| ::
          trace[i].markers == old(markers) && tmp in trace[i].files && trace[i].files == old(files)[tmp := trace[i].files[tmp]]
      {
        FlattenAppend(chunks[..i], chunks[i]);
        assert chunks[..i + 1] == chunks[..i] + [chunks[i]];
        WriteFile(tmp, files[tmp] + chunks[i]);
        i := i + 1;
      }
      assert i == |chunks| ==> chunks[..i] == chunks;
      return i == |chunks|;
    }

    /** `shutil.copy2` onto the backup name, which must not be the target itself. */
    method TakeBackup(bak: Path, target: Path, refused: bool) returns (backed: bool)
      requires target in files
      modifies this
      ensures old(trace) <= trace && markers == old(markers)
      ensures backed == (!refused && bak != target)
      ensures forall i | |old(trace)| <= i < |trace| ::
        trace[i].markers == old(markers) && bak != target && bak in trace[i].files && trace[i].files == old(files)[bak := trace[i].files[bak]]
      ensures files == if backed then old(files)[bak := old(files)[target]] else old(files)
    {
      backed := !refused && bak != target;
      if backed {
        WriteFile(bak, []);
        WriteFile(bak, files[target]);
      }
    }

    /** The second marker and the backup. */
    method Prepare(save: Save, previous: Option<Digest>, marked: bool, bak: Option<Path>, faults: Faults, ghost was: Snapshot)
      returns (failure: Option<SaveResult>)
      requires Staged(Now(), save, marked, bak, was) && files[save.Marker().Tmp()] == save.data
      requires save.Marker() !in was.markers && (bak.Some? ==> bak.value.File?)
      requires previous == FileSha(was.files, File(save.name)) && (save.inPlace ==> previous.Some?)
      modifies this
      ensures old(trace) <= trace
      ensures forall i | |old(trace)| <= i < |trace| :: Staged(trace[i], save, marked, bak, was)
      ensures Staged(Now(), save, marked, bak, was) && files[save.Marker().Tmp()] == save.data
      ensures failure == PrepareVerdict(previous, save, marked, bak, faults)
      ensures failure.None? ==>
        && (marked ==> markers[save.Marker()].marker.expected == Some(Sha256(save.data)))
        && (bak.Some? && previous.Some? ==> bak.value != File(save.name) && Content(files, bak.value) == Content(was.files, File(save.name)))
    {
      var target, marker := File(save.name), save.Marker();
      if marked && faults.markerRewriteRefused {
        return Some(MarkerFailed);
      }
      if marked {
        WriteMarker(marker, Marker(Some(Sha256(files[marker.Tmp()])), previous, save.inPlace));
      }
      if bak.Some? && previous.Some? {
        var backed := TakeBackup(bak.value, target, faults.backupRefused);
        if !backed {
          return Some(BackupFailed);
        }
      }
      return None;
    }

    /** The checked tmp made the target. */
    method Commit(save: Save, previous: Option<Digest>, marked: bool, bak: Option<Path>, faults: Faults, ghost was: Snapshot)
      returns (result: SaveResult)
      requires Staged(Now(), save, marked, bak, was) && files[save.Marker().Tmp()] == save.data
      requires save.Marker() !in was.markers && (bak.Some? ==> bak.value.File?)
      requires previous == FileSha(was.files, File(save.name)) && (save.inPlace ==> previous.Some?)
      modifies this
      ensures old(trace) <= trace
      ensures result == CommitVerdict(previous, save, marked, bak, faults)
      ensures AnswersFor(result, save.data, previous, true, true, marked, bak, File(save.name), faults)
      ensures marked || !save.inPlace ==> AllSafe(trace, |old(trace)|, save, bak, was)
      ensures Ended(Now(), save, marked, bak, was, result, faults.plan)
    {
      var failure := Prepare(save, previous, marked, bak, faults, was);
      forall i | |old(trace)| <= i < |trace| ensures CrashSafe(trace[i], save, bak, was) {
        StagedIsSafe(trace[i], save, marked, bak, was);
      }
      StagedIsSafe(Now(), save, marked, bak, was);
      if failure.Some? {
        return failure.value;
      }
      label replace:
      ghost var ready := Now();
      var replacement := Replace(save.Marker().Tmp(), File(save.name), save.inPlace, faults.plan);
      if marked || !save.inPlace {
        forall i | |old@replace(trace)| <= i < |trace| ensures CrashSafe(trace[i], save, bak, was) {
          ReplacingIsSafe(trace[i], ready, save, marked, bak, was);
        }
      }
      ReplacedIsFramed(Now(), ready, save, marked, bak, was);
      return match replacement
        case Put => Saved(Sha256(save.data), previous, marked)
        case LockedOut => Locked
        case Broke => ReplaceFailed;
    }

    /** The body of the `try`: write the tmp, check it, commit. */
    method TryToSave(
      name: string, pid: nat, chunks: seq<Bytes>, check: Bytes -> bool, previous: Option<Digest>, inPlace: bool,
      marked: bool, bak: Option<Path>, faults: Faults, ghost was: Snapshot)
      returns (result: SaveResult)
      requires files == was.files && previous == FileSha(files, File(name)) && (inPlace ==> previous.Some?)
      requires MarkerName(name, pid) !in was.markers && (bak.Some? ==> bak.value.File?)
      requires markers == if marked then was.markers[MarkerName(name, pid) := Readable(Marker(None, previous, inPlace))] else was.markers
      modifies this
      ensures old(trace) <= trace
      ensures var save := Save(name, pid, Flatten(chunks), inPlace);
        && result == SaveVerdict(previous, save, |chunks|, check, marked, bak, faults)
        && AnswersFor(result, Flatten(chunks), previous, |chunks| <= faults.writeStops, check(Flatten(chunks)), marked, bak, File(name), faults)
        && (|chunks| > faults.writeStops || !check(Flatten(chunks)) ==> NeverVouched(trace, |old(trace)|, save, was) && Unvouched(Now(), save, was))
        && (SafeToKill(save, marked, result) ==> AllSafe(trace, |old(trace)|, save, bak, was))
        && Ended(Now(), save, marked, bak, was, result, faults.plan)
    {
      ghost var saved := Save(name, pid, Flatten(chunks), inPlace);
      var tmp := TmpFor(name, pid);
      hide CommitVerdict, CrashSafe, Framed, Staged, TargetAfter, Ended, Unvouched, NeverVouched, AllSafe;
      var written := WriteTmp(tmp, chunks, faults.writeStops);
      forall i | |old(trace)| <= i < |trace|
        ensures CrashSafe(trace[i], saved, bak, was) && Unvouched(trace[i], saved, was)
      {
        WritingIsSafe(trace[i], saved, marked, bak, was, previous);
      }
      AllOf(trace, |old(trace)|, saved, bak, was);
      WritingIsSafe(Now(), saved, marked, bak, was, previous);
      WritingEnds(Now(), saved, marked, bak, was, faults.plan);
      label checking:
      if !written {
        return WriteFailed;
      }
      var data := files[tmp];
      if !check(data) {
        return VerifyFailed;
      }
      result := Commit(Save(name, pid, data, inPlace), previous, marked, bak, faults, was);
      if SafeToKill(saved, marked, result) {
        AllSafeExtends(old@checking(trace), trace, |old(trace)|, saved, bak, was);
      }
    }

    /** The `finally`: without a commit the tmp goes, and the marker always does. */
    method CleanUp(name: MarkerName, committed: bool, marked: bool)
      requires !marked ==> name !in markers
      modifies this
      ensures old(trace) <= trace
      ensures Now() == Snapshot(if committed then old(files) else old(files) - {name.Tmp()}, old(markers) - {name})
      ensures forall i | |old(trace)| <= i < |trace| ::
        && trace[i].files in {old(files), old(files) - {name.Tmp()}}
        && trace[i].markers in {old(markers), old(markers) - {name}}
    {
      if !committed {
        Unlink(name.Tmp());
      }
      if marked {
        UnlinkMarker(name);
      }
      assert markers == old(markers) - {name};
    }

    /** `atomic_write_dxf`: the first marker, the tmp, its check, the commit, and the cleanup every
        exit goes through. */
    method AtomicWrite(
      name: string, pid: nat, chunks: seq<Bytes>, check: Bytes -> bool, linked: bool, pending: bool,
      bak: Option<Path>, faults: Faults)
      returns (result: SaveResult)
      requires MarkerName(name, pid) !in markers && (bak.Some? ==> bak.value.File?)
      modifies this
      ensures old(trace) <= trace && markers == old(markers)
      ensures var save := Save(name, pid, Flatten(chunks), File(name) in old(files) && linked);
        var marked := pending && !faults.markerRefused;
        && result == SaveVerdict(FileSha(old(files), File(name)), save, |chunks|, check, marked, bak, faults)
        && AnswersFor(result, Flatten(chunks), FileSha(old(files), File(name)), |chunks| <= faults.writeStops, check(Flatten(chunks)),
                      marked, bak, File(name), faults)
        && (result.Saved? ==> check(Flatten(chunks)) && Content(files, File(name)) == Some(Flatten(chunks)))
        && (|chunks| > faults.writeStops || !check(Flatten(chunks)) ==>
              Content(files, File(name)) == Content(old(files), File(name)) && NeverVouched(trace, |old(trace)|, save, old(Now())))
        && (SafeToKill(save, marked, result) ==> AllSafe(trace, |old(trace)|, save, bak, old(Now())))
        && (!save.inPlace ==> NeverTorn(trace, |old(trace)|, save, old(files)))
        && Ended(Now(), save, false, bak, old(Now()), result, faults.plan)
        && save.Marker().Tmp() !in files
    {
      var marker := MarkerName(name, pid);
      ghost var was := Now();
      var previous := FileSha(files, File(name));
      var inPlace := previous.Some? && linked;
      ghost var saved := Save(name, pid, Flatten(chunks), inPlace);
      var marked := pending && !faults.markerRefused;
      if marked {
        WriteMarker(marker, Marker(None, previous, inPlace));
      }
      ghost var before := trace;
      assert AllSafe(trace, |old(trace)|, saved, bak, was);
      result := TryToSave(name, pid, chunks, check, previous, inPlace, marked, bak, faults, was);
      ghost var ended, during := Now(), trace;
      CleanUp(marker, result.Saved?, marked);
      RestoredMarkers(Now(), ended, saved, marked, bak, was, result, faults.plan);
      if |chunks| > faults.writeStops || !check(Flatten(chunks)) {
        NeverVouchedOn(before, during, trace, |old(trace)|, ended, saved, was);
      }
      if SafeToKill(saved, marked, result) {
        AllSafeExtends(before, during, |old(trace)|, saved, bak, was);
        forall i | |during| <= i < |trace| ensures CrashSafe(trace[i], saved, bak, was) {
          CleanupIsSafe(trace[i], ended, saved, marked, bak, was, result, faults.plan);
        }
        AllSafeExtends(during, trace, |old(trace)|, saved, bak, was);
        if !saved.inPlace {
          forall i | |old(trace)| <= i < |trace| ensures OldOrNew(trace[i], saved, was.files) {
            RenameIsNeverTorn(trace[i], saved, bak, was);
          }
        }
      }
    }

    // Recovery.

    /** One listed marker. `Broke` is an OSError, `LockedOut` the lock error no caller catches. */
    method ResolveMarker(name: MarkerName, alive: set<nat>, plan: seq<Attempt>) returns (replacement: Replacement, resolved: bool)
      modifies this
      ensures old(trace) <= trace
      ensures forall i | |old(trace)| <= i < |trace| :: Stepping(old(Now()), trace[i], name, alive)
      ensures Now() == Attempted(old(Now()), name, alive, plan) && replacement == Placing(old(Now()), name, alive, plan)
      ensures replacement.Put? ==> Now() == ResolveOne(old(Now()), name, alive) && Resolves(old(Now()), Now(), name, alive)
      ensures resolved ==> replacement.Put? && name.Tmp() !in files
      ensures !replacement.Put? ==>
        && replacement == Verdict(plan, REPLACE_RETRIES + 1) && !old(Idle(markers, name, alive))
        && Interrupted(old(Now()), Now(), name) && name.Tmp() in files && name.pid !in alive
    {
      replacement, resolved := Put, false;
      ResolveOneResolves(Now(), name, alive);
      hide Resolves;
      if Idle(markers, name, alive) {
        return;
      }
      if markers[name].Readable? {
        var marker := markers[name].marker;
        match Decide(files, name, marker) {
          case Finished =>
            replacement := Replace(name.Tmp(), name.Target(), marker.inPlace && name.Target() in files, plan);
          case _ =>
            if name.Tmp() in files {
              Unlink(name.Tmp());
            }
        }
        resolved := replacement.Put?;
      }
      if replacement.Put? {
        UnlinkMarker(name);
      }
    }

    /** `_orphan_tmps`. */
    method SweepOrphans(target: string, alive: set<nat>, handled: set<Path>)
      modifies this
      ensures old(trace) <= trace
      ensures Now() == old(Now()).(files := old(files) - Orphans(old(files), target, alive, handled))
      ensures forall i | |old(trace)| <= i < |trace| :: Sweeping(old(Now()), trace[i], Orphans(old(files), target, alive, handled))
    {
      ghost var was := files;
      ghost var gone := {};
      var left := Orphans(files, target, alive, handled);
      while left != {}
        invariant old(trace) <= trace && markers == old(markers)
        invariant left + gone == Orphans(was, target, alive, handled) && files == was - gone
        invariant forall i | |old(trace)| <= i < |trace| :: Sweeping(old(Now()), trace[i], Orphans(was, target, alive, handled))
        decreases |left|
      {
        var path :| path in left;
        gone := gone + {path};
        Unlink(path);
        assert files == was - gone;
        assert gone in Subsets(Orphans(was, target, alive, handled));
        left := left - {path};
      }
    }

    /** Every listed marker in turn. `failed` are the markers an OSError left standing; `aborted` says
        a locked target ended the recovery; `handled` are the tmps the orphan sweep passes over. */
    method ResolveMarkers(target: Option<string>, order: seq<MarkerName>, alive: set<nat>, plan: MarkerName -> seq<Attempt>)
      returns (aborted: bool, failed: set<MarkerName>, handled: set<Path>)
      requires forall i, j | 0 <= i < j < |order| :: order[i] != order[j]
      modifies this
      ensures old(trace) <= trace
      ensures Steady(trace, |old(trace)|, old(Now()), order, target, alive, failed == {})
      ensures OthersUntouched(old(Now()), Now(), target, alive)
      ensures failed == {} && !aborted ==> Now() == ResolveListed(old(Now()), order, target, alive)
      ensures (forall name <- order :: Verdict(plan(name), REPLACE_RETRIES + 1).Put?) ==> failed == {} && !aborted
      ensures Recovery(Now(), failed, aborted) == Resolutions(old(Now()), order, target, alive, plan)
      ensures handled !! files.Keys
      ensures forall name <- failed :: Listed(name, target) && name.pid !in alive && name in markers && name.Tmp() in files
    {
      hide Attempted, Placing, Finishes, Decide, OthersUntouched, ResolveOne, Verdict, Swept, Recovered, Resolutions, ResolveListed;
      hide Handled, Stepping;
      NothingResolved(Now(), trace, order, target, alive, plan);
      ghost var was := Now();
      handled, aborted, failed := {}, false, {};
      var i := 0;
      while i < |order|
        invariant 0 <= i <= |order| && !aborted
        invariant old(trace) <= trace
        invariant Handled(handled, files)
        invariant failed == {} ==> Now() == ResolveListed(was, order[..i], target, alive)
        invariant Steady(trace, |old(trace)|, was, order, target, alive, failed == {})
        invariant OthersUntouched(was, Now(), target, alive)
        invariant Standing(failed, Now(), order[..i], target, alive, plan)
        invariant Recovery(Now(), failed, aborted) == Resolutions(was, order[..i], target, alive, plan)
      {
        var name := order[i];
        if Listed(name, target) {
          ghost var before, sofar := Now(), trace;
          var replacement, resolved := ResolveMarker(name, alive, plan(name));
          SteppingIsSteady(was, before, sofar, trace, Now(), order, i, target, alive, failed == {});
          Bookkeeping(before, Now(), order, i, target, alive, plan, failed, handled, resolved, replacement.Broke?);
          match replacement {
            case LockedOut =>
              aborted := true;
              NextResolution(was, order, i, target, alive, plan);
              AbortedStays(was, order, i + 1, target, alive, plan);
              StandingMeans(failed, handled, Now(), order[..i], target, alive, plan);
              return;
            case Broke => failed := failed + {name};
            case Put => handled := if resolved then handled + {name.Tmp()} else handled;
          }
        }
        assert order[..i + 1] == order[..i] + [name];
        NextReached(was, order, i, target, alive);
        NextResolution(was, order, i, target, alive, plan);
        i := i + 1;
      }
      assert order[..i] == order;
      StandingMeans(failed, handled, Now(), order, target, alive, plan);
    }

    /** `resolve_pending`: the markers, then the tmps of dead writers beside the target. */
    method ResolvePending(target: Option<string>, order: seq<MarkerName>, alive: set<nat>, plan: MarkerName -> seq<Attempt>)
      returns (aborted: bool, failed: set<MarkerName>)
      requires forall i, j | 0 <= i < j < |order| :: order[i] != order[j]
      modifies this
      ensures old(trace) <= trace
      // No step touches a live writer's tmp or marker, or another target's; and if no OSError was
      // met, recovery killed at any step and run again ends in the same state.
      ensures Steady(trace, |old(trace)|, old(Now()), order, target, alive, failed == {})
      ensures failed == {} && !aborted ==> Now() == Recovered(old(Now()), order, target, alive)
      ensures var r := Resolutions(old(Now()), order, target, alive, plan);
        failed == r.failed && aborted == r.aborted && Now() == if aborted then r.disk else Swept(r.disk, target, alive)
      ensures (forall name <- order :: Verdict(plan(name), REPLACE_RETRIES + 1).Put?) ==> failed == {} && !aborted
      // A marker left standing keeps its tmp only if there was no target: the orphan sweep takes it.
      ensures !aborted ==> forall name <- failed :: name in markers && (name.Tmp() in files <==> target.None?)
      ensures !aborted && target.Some? ==> forall path | path in files && path.TmpFor? && path.target == target.value :: path.pid in alive
    {
      ghost var was := Now();
      var handled;
      aborted, failed, handled := ResolveMarkers(target, order, alive, plan);
      if target.Some? && !aborted {
        ghost var before, sofar := Now(), trace;
        SweepOrphans(target.value, alive, handled);
        SweepingIsSteady(was, before, sofar, trace, order, target, alive, handled, failed == {});
      }
    }
  }

  /** Every state from `from` on leaves the others' files alone and, if `clean`, can be recovered to
      the same end as `was`. */
  ghost predicate Steady(
    trace: seq<Snapshot>, from: nat, was: Snapshot, order: seq<MarkerName>, target: Option<string>, alive: set<nat>, clean: bool)
  {
    forall i | from <= i < |trace| ::
      && OthersUntouched(was, trace[i], target, alive)
      && (clean ==> Recovered(trace[i], order, target, alive) == Recovered(was, order, target, alive))
  }

  ghost predicate Handled(handled: set<Path>, files: map<Path, Bytes>) {
    handled !! files.Keys && forall path <- handled :: path.TmpFor?
  }

  /** The markers an OSError left standing, among those looked at. */
  ghost predicate Standing(
    failed: set<MarkerName>, s: Snapshot, done: seq<MarkerName>, target: Option<string>, alive: set<nat>, plan: MarkerName -> seq<Attempt>)
  {
    forall name <- failed ::
      && name in done && Listed(name, target) && name.pid !in alive && !Verdict(plan(name), REPLACE_RETRIES + 1).Put?
      && name in s.markers && name.Tmp() in s.files
  }

  lemma Bookkeeping(
    before: Snapshot, now: Snapshot, order: seq<MarkerName>, i: nat, target: Option<string>, alive: set<nat>,
    plan: MarkerName -> seq<Attempt>, failed: set<MarkerName>, handled: set<Path>, resolved: bool, broke: bool)
    requires i < |order| && (forall j, k | 0 <= j < k < |order| :: order[j] != order[k])
    requires Handled(handled, before.files) && Standing(failed, before, order[..i], target, alive, plan)
    requires OneMarkerOnly(before, now, order[i])
    requires resolved ==> order[i].Tmp() !in now.files
    requires broke ==>
      && Listed(order[i], target) && order[i].pid !in alive && order[i] in now.markers && order[i].Tmp() in now.files
      && !Verdict(plan(order[i]), REPLACE_RETRIES + 1).Put?
    ensures Handled(if resolved then handled + {order[i].Tmp()} else handled, now.files)
    ensures Standing(failed, now, order[..i], target, alive, plan)
    ensures Standing(if broke then failed + {order[i]} else failed, now, order[..i] + [order[i]], target, alive, plan)
  {
    assert order[i] !in order[..i];
  }

  ghost predicate OneMarkerOnly(s: Snapshot, s': Snapshot, name: MarkerName) {
    && s'.files.Keys <= s.files.Keys + {name.Target()}
    && forall other | other != name ::
         && (other.Tmp() in s.files ==> other.Tmp() in s'.files)
         && (other in s.markers ==> other in s'.markers)
  }

  lemma SteppingIsSteady(
    was: Snapshot, before: Snapshot, sofar: seq<Snapshot>, trace: seq<Snapshot>, now: Snapshot,
    order: seq<MarkerName>, i: nat, target: Option<string>, alive: set<nat>, clean: bool)
    requires i < |order| && Listed(order[i], target) && OthersUntouched(was, before, target, alive)
    requires sofar <= trace && (forall k | |sofar| <= k < |trace| :: Stepping(before, trace[k], order[i], alive))
    requires Stepping(before, now, order[i], alive)
    requires clean ==> before == ResolveListed(was, order[..i], target, alive)
    ensures forall from: nat | from <= |sofar| :: Steady(sofar, from, was, order, target, alive, clean) ==> Steady(trace, from, was, order, target, alive, clean)
    ensures OthersUntouched(was, now, target, alive)
    ensures OneMarkerOnly(before, now, order[i])
  {
    forall k | |sofar| <= k < |trace|
      ensures OthersUntouched(was, trace[k], target, alive)
      ensures clean ==> Recovered(trace[k], order, target, alive) == Recovered(was, order, target, alive)
    {
      SteppingIsMidway(was, before, trace[k], order, i, target, alive, clean);
    }
  }

  lemma SweepingIsSteady(
    was: Snapshot, before: Snapshot, sofar: seq<Snapshot>, trace: seq<Snapshot>,
    order: seq<MarkerName>, target: Option<string>, alive: set<nat>, handled: set<Path>, clean: bool)
    requires target.Some? && OthersUntouched(was, before, target, alive)
    requires sofar <= trace
    requires forall k | |sofar| <= k < |trace| :: Sweeping(before, trace[k], Orphans(before.files, target.value, alive, handled))
    requires clean ==> before == ResolveListed(was, order, target, alive)
    ensures forall from: nat | from <= |sofar| :: Steady(sofar, from, was, order, target, alive, clean) ==> Steady(trace, from, was, order, target, alive, clean)
  {
    forall k | |sofar| <= k < |trace|
      ensures OthersUntouched(was, trace[k], target, alive)
      ensures clean ==> Recovered(trace[k], order, target, alive) == Recovered(was, order, target, alive)
    {
      SweepingIsMidway(was, before, trace[k], order, target, alive, handled, clean);
    }
  }

  /** A state met while one marker is resolved. */
  ghost predicate Stepping(s: Snapshot, s': Snapshot, name: MarkerName, alive: set<nat>) {
    || s' == ResolveOne(s, name, alive)
    || (!Idle(s.markers, name, alive) && s.markers[name].Readable? && Interrupted(s, s', name))
  }

  /** A state met while orphans are deleted. */
  ghost predicate Sweeping(s: Snapshot, s': Snapshot, orphans: set<Path>) {
    s'.markers == s.markers && exists gone <- Subsets(orphans) :: s'.files == s.files - gone
  }

  /** The tmps of live writers and of other targets, and their markers that can be read. */
  ghost predicate OthersUntouched(s: Snapshot, s': Snapshot, target: Option<string>, alive: set<nat>) {
    forall name: MarkerName | name.pid in alive || !Listed(name, target) ::
      && Content(s'.files, name.Tmp()) == Content(s.files, name.Tmp())
      && (name in s.markers && (s.markers[name].Readable? || !Listed(name, target)) ==>
            name in s'.markers && s'.markers[name] == s.markers[name])
  }

  lemma NextReached(was: Snapshot, order: seq<MarkerName>, i: nat, target: Option<string>, alive: set<nat>)
    requires i < |order|
    ensures ResolveListed(was, order[..i + 1], target, alive)
         == var reached := ResolveListed(was, order[..i], target, alive);
            if Listed(order[i], target) then ResolveOne(reached, order[i], alive) else reached
  {
    assert order[..i + 1] == order[..i] + [order[i]];
    ResolveListedAppend(was, order[..i], [order[i]], target, alive);
  }

  lemma SteppingIsMidway(
    was: Snapshot, reached: Snapshot, s: Snapshot, order: seq<MarkerName>, i: nat, target: Option<string>, alive: set<nat>, clean: bool)
    requires i < |order| && Listed(order[i], target) && OthersUntouched(was, reached, target, alive)
    requires Stepping(reached, s, order[i], alive)
    requires clean ==> reached == ResolveListed(was, order[..i], target, alive)
    ensures OthersUntouched(was, s, target, alive)
    ensures clean ==> Recovered(s, order, target, alive) == Recovered(was, order, target, alive)
  {
    if clean {
      NextReached(was, order, i, target, alive);
      var done := if s == ResolveOne(reached, order[i], alive) then i + 1 else i;
      RecoveryIsIdempotent(was, s, order, target, alive, done);
    }
  }

  lemma SweepingIsMidway(
    was: Snapshot, reached: Snapshot, s: Snapshot, order: seq<MarkerName>, target: Option<string>, alive: set<nat>,
    handled: set<Path>, clean: bool)
    requires target.Some? && OthersUntouched(was, reached, target, alive)
    requires Sweeping(reached, s, Orphans(reached.files, target.value, alive, handled))
    requires clean ==> reached == ResolveListed(was, order, target, alive)
    ensures OthersUntouched(was, s, target, alive)
    ensures clean ==> Recovered(s, order, target, alive) == Recovered(was, order, target, alive)
  {
    if clean {
      assert order[..|order|] == order;
      var gone :| gone in Subsets(Orphans(reached.files, target.value, alive, handled)) && s.files == reached.files - gone;
      assert gone in Subsets(Orphans(reached.files, target.value, alive, {}));
      RecoveryIsIdempotent(was, s, order, target, alive, |order|);
    }
  }

  lemma NothingResolved(
    s: Snapshot, trace: seq<Snapshot>, order: seq<MarkerName>, target: Option<string>, alive: set<nat>, plan: MarkerName -> seq<Attempt>)
    ensures Resolutions(s, order[..0], target, alive, plan) == Recovery(s, {}, false)
    ensures ResolveListed(s, order[..0], target, alive) == s && OthersUntouched(s, s, target, alive)
    ensures Steady(trace, |trace|, s, order, target, alive, true) && Handled({}, s.files)
    ensures Standing({}, s, order[..0], target, alive, plan)
  {
  }

  lemma StandingMeans(
    failed: set<MarkerName>, handled: set<Path>, s: Snapshot, done: seq<MarkerName>, target: Option<string>, alive: set<nat>,
    plan: MarkerName -> seq<Attempt>)
    requires Standing(failed, s, done, target, alive, plan) && Handled(handled, s.files)
    ensures handled !! s.files.Keys
    ensures forall name <- failed ::
      && Listed(name, target) && name.pid !in alive && name in s.markers && name.Tmp() in s.files
      && name in done && !Verdict(plan(name), REPLACE_RETRIES + 1).Put?
  {
  }

  lemma NextResolution(
    was: Snapshot, order: seq<MarkerName>, i: nat, target: Option<string>, alive: set<nat>, plan: MarkerName -> seq<Attempt>)
    requires i < |order|
    ensures var before, next := Resolutions(was, order[..i], target, alive, plan), Resolutions(was, order[..i + 1], target, alive, plan);
      next == if before.aborted || !Listed(order[i], target) then before
              else
                var placing := Placing(before.disk, order[i], alive, plan(order[i]));
                Recovery(Attempted(before.disk, order[i], alive, plan(order[i])),
                         if placing.Broke? then before.failed + {order[i]} else before.failed, placing.LockedOut?)
  {
    assert order[..i + 1][..i] == order[..i];
  }

  lemma {:induction false} AbortedStays(
    was: Snapshot, order: seq<MarkerName>, i: nat, target: Option<string>, alive: set<nat>, plan: MarkerName -> seq<Attempt>)
    requires i <= |order| && Resolutions(was, order[..i], target, alive, plan).aborted
    ensures Resolutions(was, order, target, alive, plan) == Resolutions(was, order[..i], target, alive, plan)
    decreases |order| - i
  {
    if i < |order| {
      NextResolution(was, order, i, target, alive, plan);
      AbortedStays(was, order, i + 1, target, alive, plan);
    } else {
      assert order[..i] == order;
    }
  }

  /** Without its tmp a marker finishes nothing: a target torn by an in-place copy stays torn. */
  lemma LostTmpNeverFinishes(s: Snapshot, name: MarkerName, alive: set<nat>)
    requires name in s.markers && s.markers[name].Readable? && name.Tmp() !in s.files
    ensures ResolveOne(s, name, alive).files == s.files
  {
  }

  ghost predicate AllSafe(trace: seq<Snapshot>, from: nat, save: Save, bak: Option<Path>, was: Snapshot) {
    forall i | from <= i < |trace| :: CrashSafe(trace[i], save, bak, was)
  }

  lemma AllSafeExtends(before: seq<Snapshot>, after: seq<Snapshot>, from: nat, save: Save, bak: Option<Path>, was: Snapshot)
    requires before <= after && AllSafe(before, from, save, bak, was) && AllSafe(after, |before|, save, bak, was)
    ensures AllSafe(after, from, save, bak, was)
  {
    forall i | from <= i < |after| ensures CrashSafe(after[i], save, bak, was) {
      if i < |before| {
        assert after[i] == before[i];
      }
    }
  }

  lemma NeverVouchedOn(
    before: seq<Snapshot>, during: seq<Snapshot>, after: seq<Snapshot>, from: nat, ended: Snapshot, save: Save, was: Snapshot)
    requires before <= during <= after && from <= |before| && (forall i | from <= i < |before| :: Unvouched(before[i], save, was))
    requires NeverVouched(during, |before|, save, was) && Unvouched(ended, save, was)
    requires forall i | |during| <= i < |after| ::
      && after[i].files in {ended.files, ended.files - {save.Marker().Tmp()}}
      && after[i].markers in {ended.markers, ended.markers - {save.Marker()}}
    ensures NeverVouched(after, from, save, was)
  {
    forall i | from <= i < |after| ensures Unvouched(after[i], save, was) {
      assert i < |before| ==> after[i] == before[i];
      assert |before| <= i < |during| ==> after[i] == during[i] && Unvouched(during[i], save, was);
    }
  }

  /** A state in which the tmp is being written. */
  lemma WritingIsSafe(s: Snapshot, save: Save, marked: bool, bak: Option<Path>, was: Snapshot, previous: Option<Digest>)
    requires save.Marker() !in was.markers && (bak.Some? ==> bak.value.File?) && previous == FileSha(was.files, File(save.name))
    requires s.markers == if marked then was.markers[save.Marker() := Readable(Marker(None, previous, save.inPlace))] else was.markers
    requires save.Marker().Tmp() in s.files && s.files == was.files[save.Marker().Tmp() := s.files[save.Marker().Tmp()]]
    ensures CrashSafe(s, save, bak, was) && Unvouched(s, save, was) && Staged(s, save, marked, bak, was)
  {
    StagedIsSafe(s, save, marked, bak, was);
  }

  /** Given up then, a save leaves the target as it was. */
  lemma WritingEnds(s: Snapshot, save: Save, marked: bool, bak: Option<Path>, was: Snapshot, plan: seq<Attempt>)
    requires Staged(s, save, marked, bak, was) && CrashSafe(s, save, bak, was) && Unvouched(s, save, was) && save.Marker() !in was.markers
    ensures Ended(s, save, marked, bak, was, WriteFailed, plan) && Ended(s, save, marked, bak, was, VerifyFailed, plan)
  {
  }

  lemma AllOf(trace: seq<Snapshot>, from: nat, save: Save, bak: Option<Path>, was: Snapshot)
    requires forall i | from <= i < |trace| :: CrashSafe(trace[i], save, bak, was) && Unvouched(trace[i], save, was)
    ensures AllSafe(trace, from, save, bak, was) && NeverVouched(trace, from, save, was)
  {
  }

  lemma RestoredMarkers(
    s: Snapshot, ended: Snapshot, save: Save, marked: bool, bak: Option<Path>, was: Snapshot, result: SaveResult, plan: seq<Attempt>)
    requires Ended(ended, save, marked, bak, was, result, plan) && save.Marker() !in was.markers
    requires s == Snapshot(if result.Saved? then ended.files else ended.files - {save.Marker().Tmp()}, ended.markers - {save.Marker()})
    ensures s.markers == was.markers
    ensures Ended(s, save, false, bak, was, result, plan)
    ensures save.Marker().Tmp() !in s.files
  {
    assert forall name :: name in s.markers <==> name in was.markers;
  }

  /** How a save that ran to its end, well or not, leaves the disk. */
  ghost predicate Ended(
    s: Snapshot, save: Save, marked: bool, bak: Option<Path>, was: Snapshot, result: SaveResult, plan: seq<Attempt>)
  {
    && Framed(s, save, bak, was)
    && (!marked ==> save.Marker() !in s.markers)
    && Content(s.files, File(save.name)) == TargetAfter(was.files, save, result, plan)
    && (result.Saved? ==> save.Marker().Tmp() !in s.files)
    && (result.Saved? && bak.Some? && File(save.name) in was.files ==>
          Content(s.files, bak.value) == Content(was.files, File(save.name)))
    && (save.Marker() in s.markers ==>
          && s.markers[save.Marker()].Readable?
          && var marker := s.markers[save.Marker()].marker;
             && marker.previous == FileSha(was.files, File(save.name)) && marker.inPlace == save.inPlace
             && marker.expected in {None, Some(Sha256(save.data))})
  }

  lemma CleanupIsSafe(
    s: Snapshot, ended: Snapshot, save: Save, marked: bool, bak: Option<Path>, was: Snapshot, result: SaveResult, plan: seq<Attempt>)
    requires Ended(ended, save, marked, bak, was, result, plan) && SafeToKill(save, marked, result)
    requires s.files in {ended.files, ended.files - {save.Marker().Tmp()}}
    requires s.markers in {ended.markers, ended.markers - {save.Marker()}}
    ensures CrashSafe(s, save, bak, was)
  {
  }

  /** Killed after any step, the save can be recovered - unless an in-place copy has no marker, or
      was given up with an exception, whose cleanup removes the tmp that would have finished it. */
  predicate SafeToKill(save: Save, marked: bool, result: SaveResult) {
    save.inPlace ==> marked && !result.Locked? && !result.ReplaceFailed?
  }

  function SaveVerdict(
    previous: Option<Digest>, save: Save, chunks: nat, check: Bytes -> bool, marked: bool, bak: Option<Path>, faults: Faults)
    : SaveResult
  {
    if faults.writeStops < chunks then WriteFailed
    else if !check(save.data) then VerifyFailed
    else CommitVerdict(previous, save, marked, bak, faults)
  }

  /** The tmp holds some of the document; a backup may have been begun; the target is untouched. */
  ghost predicate Staged(s: Snapshot, save: Save, marked: bool, bak: Option<Path>, was: Snapshot) {
    var name := save.Marker();
    && name.Tmp() in s.files
    && (var files := was.files[name.Tmp() := s.files[name.Tmp()]];
        || s.files == files
        || (bak.Some? && bak.value != name.Target() && bak.value in s.files && s.files == files[bak.value := s.files[bak.value]]))
    && (if marked
        then && name in s.markers && s.markers == was.markers[name := s.markers[name]]
             && s.markers[name].Readable?
             && var marker := s.markers[name].marker;
                && marker.expected in {None, Some(Sha256(save.data))}
                && marker.previous == FileSha(was.files, name.Target()) && marker.inPlace == save.inPlace
        else s.markers == was.markers)
  }

  lemma StagedIsSafe(s: Snapshot, save: Save, marked: bool, bak: Option<Path>, was: Snapshot)
    requires Staged(s, save, marked, bak, was) && (bak.Some? ==> bak.value.File?)
    requires save.Marker() !in was.markers
    ensures CrashSafe(s, save, bak, was)
  {
  }

  /** Every state of the replacement is safe, if an in-place copy has its marker. */
  lemma ReplacingIsSafe(s: Snapshot, ready: Snapshot, save: Save, marked: bool, bak: Option<Path>, was: Snapshot)
    requires Staged(ready, save, marked, bak, was) && (bak.Some? ==> bak.value.File?)
    requires save.Marker() !in was.markers
    requires ready.files[save.Marker().Tmp()] == save.data
    requires save.inPlace ==> marked && ready.markers[save.Marker()].marker.expected == Some(Sha256(save.data))
    requires Replacing(s, ready, save.Marker().Tmp(), File(save.name), save.inPlace)
    ensures CrashSafe(s, save, bak, was)
  {
    StagedIsSafe(ready, save, marked, bak, was);
  }

  lemma ReplacedIsFramed(s: Snapshot, ready: Snapshot, save: Save, marked: bool, bak: Option<Path>, was: Snapshot)
    requires Staged(ready, save, marked, bak, was) && (bak.Some? ==> bak.value.File?)
    requires save.Marker() !in was.markers
    requires s.markers == ready.markers
    requires Replacing(s, ready, save.Marker().Tmp(), File(save.name), save.inPlace)
    ensures Framed(s, save, bak, was)
  {
    StagedIsSafe(ready, save, marked, bak, was);
  }

  /** The target a save leaves behind. */
  ghost function TargetAfter(files: map<Path, Bytes>, save: Save, result: SaveResult, plan: seq<Attempt>): Option<Bytes> {
    var target := File(save.name);
    if result.Saved? then Some(save.data)
    else if (result.Locked? || result.ReplaceFailed?) && save.inPlace && target in files
    then Some(LeftBehind(files[target], save.data, plan, REPLACE_RETRIES + 1))
    else Content(files, target)
  }

  function PrepareVerdict(previous: Option<Digest>, save: Save, marked: bool, bak: Option<Path>, faults: Faults): Option<SaveResult> {
    if marked && faults.markerRewriteRefused then Some(MarkerFailed)
    else if bak.Some? && previous.Some? && (faults.backupRefused || bak.value == File(save.name)) then Some(BackupFailed)
    else None
  }

  function CommitVerdict(previous: Option<Digest>, save: Save, marked: bool, bak: Option<Path>, faults: Faults): SaveResult {
    var failure := PrepareVerdict(previous, save, marked, bak, faults);
    if failure.Some? then failure.value
    else match Verdict(faults.plan, REPLACE_RETRIES + 1)
      case Put => Saved(Sha256(save.data), previous, marked)
      case LockedOut => Locked
      case Broke => ReplaceFailed
  }

  function Rest(plan: seq<Attempt>, used: nat): seq<Attempt> {
    if used <= |plan| then plan[used..] else []
  }

  /** A state met while `source` is put in place of `target`, begun on `was`. */
  ghost predicate Replacing(s: Snapshot, was: Snapshot, source: Path, target: Path, inPlace: bool)
    requires source in was.files
  {
    && s.markers == was.markers
    && (|| s.files == was.files
        || s.files == Renamed(was.files, source, target)
        || (&& inPlace && target in was.files && target in s.files
            && s.files == was.files[target := s.files[target]]))
  }
}
