/** Any number of processes saving one drawing in rename mode, being killed, and recovering each
    other's interrupted saves (backends/atomic_write.py), one file effect at a time. Pids are not
    reused, and only a dead process is taken for dead. */
module ConcurrentSaves {

  import opened Wrappers
  import opened AtomicWrite

  datatype Job =
    | Idle
    | Writing(data: Bytes, previous: Option<Digest>)   // the tmp is being written
    | Checked(data: Bytes, previous: Option<Digest>)   // the tmp passed its check
    | Closing                                          // replaced or given up: the marker goes next
    | Looking(victim: nat, marker: Marker, current: Option<Digest>)   // its marker read, the target's digest taken
    | Acting(victim: nat, outcome: Outcome)            // the tmp's digest taken too
    | Unmarking(victim: nat)

  datatype Process = Process(alive: bool, job: Job)

  /** `checked` are the contents that passed a saver's check so far. */
  datatype World = World(
    name: string, initial: Option<Bytes>, disk: Snapshot, processes: map<nat, Process>, ghost checked: set<Bytes>)

  datatype Event =
    | Spawn(pid: nat)
    | Begin(pid: nat, data: Bytes, marked: bool)
    | Write(pid: nat, bytes: Bytes)
    | Check(pid: nat, passes: bool)
    | Mark(pid: nat)
    | Replace(pid: nat)
    | GiveUp(pid: nat)
    | Close(pid: nat)
    | Kill(pid: nat)
    | Look(pid: nat, victim: nat)
    | Stage(pid: nat)
    | Act(pid: nat)
    | Unmark(pid: nat)
    | Sweep(pid: nat, victim: nat)

  predicate Alive(w: World, pid: nat) {
    pid in w.processes && w.processes[pid].alive
  }

  predicate Dead(w: World, pid: nat) {
    pid in w.processes && !w.processes[pid].alive
  }

  /** What a live process is doing. */
  function Doing(w: World, pid: nat): Option<Job> {
    if Alive(w, pid) then Some(w.processes[pid].job) else None
  }

  predicate IsIdle(w: World, pid: nat) {
    Doing(w, pid) == Some(Idle)
  }

  predicate HasMarker(w: World, pid: nat) {
    MarkerName(w.name, pid) in w.disk.markers && w.disk.markers[MarkerName(w.name, pid)].Readable?
  }

  /** Whether the event can happen now. */
  predicate Enabled(w: World, e: Event) {
    match e
    case Spawn(pid) => pid !in w.processes
    case Kill(pid) => Alive(w, pid)
    case Begin(pid, _, _) => IsIdle(w, pid)
    case Write(pid, _) => Doing(w, pid).Some? && Doing(w, pid).value.Writing?
    case Check(pid, _) => Doing(w, pid).Some? && Doing(w, pid).value.Writing? && Content(w.disk.files, TmpFor(w.name, pid)) == Some(Doing(w, pid).value.data)
    case Mark(pid) => Doing(w, pid).Some? && Doing(w, pid).value.Checked? && HasMarker(w, pid)
    case Replace(pid) => Doing(w, pid).Some? && Doing(w, pid).value.Checked?
    case GiveUp(pid) => Doing(w, pid).Some? && (Doing(w, pid).value.Writing? || Doing(w, pid).value.Checked?)
    case Close(pid) => Doing(w, pid).Some? && Doing(w, pid).value.Closing?
    case Look(pid, victim) => IsIdle(w, pid) && Dead(w, victim) && HasMarker(w, victim)
    case Stage(pid) => Doing(w, pid).Some? && Doing(w, pid).value.Looking?
    case Act(pid) => Doing(w, pid).Some? && Doing(w, pid).value.Acting?
    case Unmark(pid) => Doing(w, pid).Some? && Doing(w, pid).value.Unmarking?
    case Sweep(pid, victim) => IsIdle(w, pid) && Dead(w, victim)
  }

  ghost function Next(w: World, e: Event): World
    requires Enabled(w, e)
  {
    var name := MarkerName(w.name, e.pid);
    var files, markers := w.disk.files, w.disk.markers;
    match e
    case Spawn(pid) => w.(processes := w.processes[pid := Process(true, Idle)])
    case Kill(pid) => w.(processes := w.processes[pid := w.processes[pid].(alive := false)])
    case Begin(pid, data, marked) =>
      var previous := FileSha(files, name.Target());
      With(w, pid, Writing(data, previous),
           files, if marked then markers[name := Readable(Marker(None, previous, false))] else markers)
    case Write(pid, bytes) => With(w, pid, w.processes[pid].job, files[name.Tmp() := bytes], markers)
    case Check(pid, passes) =>
      var job := w.processes[pid].job;
      if passes then With(w, pid, Checked(job.data, job.previous), files, markers).(checked := w.checked + {job.data})
      else With(w, pid, Closing, files - {name.Tmp()}, markers)
    case Mark(pid) =>
      var job := w.processes[pid].job;
      With(w, pid, job, files, markers[name := Readable(Marker(Some(Sha256(job.data)), job.previous, false))])
    case Replace(pid) =>
      With(w, pid, Closing, if name.Tmp() in files then Renamed(files, name.Tmp(), name.Target()) else files, markers)
    case GiveUp(pid) => With(w, pid, Closing, files - {name.Tmp()}, markers)
    case Close(pid) => With(w, pid, Idle, files, markers - {name})
    case Look(pid, victim) =>
      var dead := MarkerName(w.name, victim);
      With(w, pid, Looking(victim, markers[dead].marker, FileSha(files, dead.Target())), files, markers)
    case Stage(pid) =>
      var job := w.processes[pid].job;
      With(w, pid, Acting(job.victim, Chosen(job.marker, job.current, FileSha(files, TmpFor(w.name, job.victim)))), files, markers)
    case Act(pid) =>
      var job := w.processes[pid].job;
      var tmp := TmpFor(w.name, job.victim);
      if !job.outcome.Finished? then With(w, pid, Unmarking(job.victim), files - {tmp}, markers)
      else if tmp in files then With(w, pid, Unmarking(job.victim), Renamed(files, tmp, name.Target()), markers)
      else With(w, pid, Idle, files, markers)   // os.replace finds no tmp: the marker is left
    case Unmark(pid) => With(w, pid, Idle, files, markers - {MarkerName(w.name, w.processes[pid].job.victim)})
    case Sweep(pid, victim) => With(w, pid, Idle, files - {TmpFor(w.name, victim)}, markers)
  }

  ghost function With(w: World, pid: nat, job: Job, files: map<Path, Bytes>, markers: map<MarkerName, MarkerFile>): World {
    w.(processes := w.processes[pid := Process(true, job)], disk := Snapshot(files, markers))
  }

  ghost predicate Legitimate(w: World, content: Option<Bytes>) {
    content == w.initial || (content.Some? && content.value in w.checked)
  }

  ghost predicate Inv(w: World) {
    && Legitimate(w, Content(w.disk.files, File(w.name)))
    && (forall name <- w.disk.markers :: w.disk.markers[name].Readable? ==>
          && !w.disk.markers[name].marker.inPlace
          && (w.disk.markers[name].marker.expected.Some? ==> w.disk.markers[name].marker.expected.value.content in w.checked))
    && (forall pid <- w.processes :: JobInv(w, pid, w.processes[pid].job))
  }

  ghost predicate JobInv(w: World, pid: nat, job: Job) {
    match job
    case Checked(data, _) => data in w.checked && (Alive(w, pid) ==> Content(w.disk.files, TmpFor(w.name, pid)) == Some(data))
    case Looking(victim, marker, _) =>
      && Dead(w, victim) && !marker.inPlace && (marker.expected.Some? ==> marker.expected.value.content in w.checked)
    case Acting(victim, outcome) =>
      && Dead(w, victim)
      && (outcome.Finished? ==>
            var staged := Content(w.disk.files, TmpFor(w.name, victim));
            staged.Some? ==> staged.value in w.checked)
    case Unmarking(victim) => Dead(w, victim)
    case _ => true
  }

  /** Any disk, with whatever dead processes left on it; what their markers expect was checked by them. */
  ghost predicate Initial(w: World) {
    && w.initial == Content(w.disk.files, File(w.name))
    && (forall pid <- w.processes :: !w.processes[pid].alive && w.processes[pid].job.Idle?)
    && (forall name <- w.disk.markers :: name.pid in w.processes && (w.disk.markers[name].Readable? ==>
          && !w.disk.markers[name].marker.inPlace
          && (w.disk.markers[name].marker.expected.Some? ==> w.disk.markers[name].marker.expected.value.content in w.checked)))
  }

  lemma StepKeepsInv(w: World, e: Event)
    requires Inv(w) && Enabled(w, e)
    ensures Inv(Next(w, e))
  {
    hide Next, JobInv, Legitimate, Enabled;
    StepKeepsContents(w, e);
    var w' := Next(w, e);
    forall pid <- w'.processes
      ensures JobInv(w', pid, w'.processes[pid].job)
    {
      StepKeepsJob(w, e, pid);
    }
  }

  lemma StepKeepsContents(w: World, e: Event)
    requires Inv(w) && Enabled(w, e)
    ensures var w' := Next(w, e);
      && Legitimate(w', Content(w'.disk.files, File(w'.name)))
      && forall name <- w'.disk.markers :: w'.disk.markers[name].Readable? ==>
           && !w'.disk.markers[name].marker.inPlace
           && (w'.disk.markers[name].marker.expected.Some? ==> w'.disk.markers[name].marker.expected.value.content in w'.checked)
  {
    if Alive(w, e.pid) {
      assert JobInv(w, e.pid, w.processes[e.pid].job);
    }
  }

  lemma StepKeepsJob(w: World, e: Event, pid: nat)
    requires Inv(w) && Enabled(w, e) && pid in Next(w, e).processes
    ensures JobInv(Next(w, e), pid, Next(w, e).processes[pid].job)
  {
    hide JobInv, Next, Enabled, Legitimate;
    if pid == e.pid {
      StepKeepsOwnJob(w, e);
    } else {
      StepKeepsOtherJob(w, e, pid);
    }
  }

  lemma StepKeepsOwnJob(w: World, e: Event)
    requires Inv(w) && Enabled(w, e) && e.pid in Next(w, e).processes
    ensures JobInv(Next(w, e), e.pid, Next(w, e).processes[e.pid].job)
  {
    hide Legitimate;
    if e.pid in w.processes {
      assert JobInv(w, e.pid, w.processes[e.pid].job);
    }
  }

  lemma StepKeepsOtherJob(w: World, e: Event, pid: nat)
    requires Inv(w) && Enabled(w, e) && pid in Next(w, e).processes && pid != e.pid
    ensures JobInv(Next(w, e), pid, Next(w, e).processes[pid].job)
  {
    hide Legitimate;
    assert pid in w.processes && JobInv(w, pid, w.processes[pid].job);
    if Alive(w, e.pid) {
      assert JobInv(w, e.pid, w.processes[e.pid].job);
    }
  }

  /** The worlds a run of events passes through. */
  ghost predicate IsRun(worlds: seq<World>, events: seq<Event>) {
    && |worlds| == |events| + 1 && Initial(worlds[0])
    && forall i | 0 <= i < |events| :: Enabled(worlds[i], events[i]) && worlds[i + 1] == Next(worlds[i], events[i])
  }

  /** Some saver's tmp held these bytes when its check passed. */
  ghost predicate PassedBefore(worlds: seq<World>, events: seq<Event>, i: nat, bytes: Bytes)
    requires |worlds| == |events| + 1
  {
    exists j :: 0 <= j < i && j < |events| && events[j].Check? && events[j].passes
                && Content(worlds[j].disk.files, TmpFor(worlds[0].name, events[j].pid)) == Some(bytes)
  }

  /** What counts as checked was, before the run or in it. */
  lemma {:induction false} CheckedPassed(worlds: seq<World>, events: seq<Event>, i: nat, bytes: Bytes)
    requires IsRun(worlds, events) && i < |worlds| && bytes in worlds[i].checked
    ensures bytes in worlds[0].checked || PassedBefore(worlds, events, i, bytes)
  {
    if i > 0 {
      hide Inv, Initial;
      TargetIsAlwaysWhole(worlds, events, i - 1);
      if bytes in worlds[i - 1].checked {
        CheckedPassed(worlds, events, i - 1, bytes);
      } else {
        assert Content(worlds[i - 1].disk.files, TmpFor(worlds[0].name, events[i - 1].pid)) == Some(bytes);
      }
    }
  }

  /** So the drawing is its initial bytes, bytes that passed before the run, or bytes a saver's tmp held
      when its check passed. */
  lemma DrawingIsChecked(worlds: seq<World>, events: seq<Event>, i: nat)
    requires IsRun(worlds, events) && i < |worlds|
    ensures var content := Content(worlds[i].disk.files, File(worlds[0].name));
      || content == worlds[0].initial
      || (content.Some? && (content.value in worlds[0].checked || PassedBefore(worlds, events, i, content.value)))
  {
    TargetIsAlwaysWhole(worlds, events, i);
    hide Inv;
    var content := Content(worlds[i].disk.files, File(worlds[0].name));
    if content != worlds[0].initial {
      CheckedPassed(worlds, events, i, content.value);
    }
  }

  /** At every moment of every run the drawing holds its initial bytes or bytes that passed some
      saver's check, whole. */
  lemma {:induction false} TargetIsAlwaysWhole(worlds: seq<World>, events: seq<Event>, i: nat)
    requires IsRun(worlds, events) && i < |worlds|
    ensures Inv(worlds[i]) && worlds[i].initial == worlds[0].initial && worlds[i].name == worlds[0].name
    ensures Legitimate(worlds[i], Content(worlds[i].disk.files, File(worlds[0].name)))
  {
    if i > 0 {
      TargetIsAlwaysWhole(worlds, events, i - 1);
      StepKeepsInv(worlds[i - 1], events[i - 1]);
    }
  }

  /** No step of another process - a recovery among them - touches a live process's tmp or marker. */
  lemma LiveSaveUntouched(worlds: seq<World>, events: seq<Event>, i: nat, pid: nat)
    requires IsRun(worlds, events) && i < |events|
    requires Alive(worlds[i], pid) && events[i].pid != pid
    ensures var name := MarkerName(worlds[0].name, pid);
      var before, after := worlds[i].disk, worlds[i + 1].disk;
      && Content(after.files, name.Tmp()) == Content(before.files, name.Tmp())
      && (name in after.markers <==> name in before.markers)
      && (name in before.markers ==> after.markers[name] == before.markers[name])
  {
    TargetIsAlwaysWhole(worlds, events, i);
    var w, e := worlds[i], events[i];
    if Alive(w, e.pid) {
      assert JobInv(w, e.pid, w.processes[e.pid].job);
    }
  }

  /** So a live saver's replacement always finds its checked tmp, and its bytes become the drawing. */
  lemma CheckedSaveLands(worlds: seq<World>, events: seq<Event>, i: nat)
    requires IsRun(worlds, events) && i < |events| && events[i].Replace?
    ensures Enabled(worlds[i], events[i])
    ensures Content(worlds[i + 1].disk.files, File(worlds[0].name)) == Some(worlds[i].processes[events[i].pid].job.data)
  {
    TargetIsAlwaysWhole(worlds, events, i);
    assert JobInv(worlds[i], events[i].pid, worlds[i].processes[events[i].pid].job);
  }
}
