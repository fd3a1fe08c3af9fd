/** Hand-offs between threads, every interleaving of their locked steps: the finish hook of an abandoned
    call and the one-worker executor (backends/quarantine.py), and the journal's flush thread
    (backends/journal_store.py). */
module HandOffs {

  import opened Wrappers

  // ── the finish hook ──

  /** `taken` is the hook the ending worker took under the lock; `owed` those whose callers were told
      False. `done` counts each hook's work. */
  datatype Post = Post(finished: bool, hook: Option<nat>, taken: Option<nat>, owed: set<nat>, replaced: set<nat>, registered: set<nat>, done: multiset<nat>)

  datatype PostStep =
    | Register(id: nat)      // set_on_finish, under the lock
    | Finish                 // the worker's finally block, under the lock
    | RunHook                // the worker, after it
    | DoItself(id: nat)      // a caller told False

  predicate PostEnabled(p: Post, step: PostStep) {
    match step
    case Register(id) => id !in p.registered
    case Finish => !p.finished
    case RunHook => p.taken.Some?
    case DoItself(id) => id in p.owed
  }

  function PostNext(p: Post, step: PostStep): Post
    requires PostEnabled(p, step)
  {
    match step
    case Register(id) =>
      var q := p.(registered := p.registered + {id});
      if p.finished then q.(owed := p.owed + {id})
      else q.(hook := Some(id), replaced := if p.hook.Some? then p.replaced + {p.hook.value} else p.replaced)
    case Finish => p.(finished := true, taken := p.hook, hook := None)
    case RunHook => p.(taken := None, done := p.done + multiset{p.taken.value})
    case DoItself(id) => p.(owed := p.owed - {id}, done := p.done + multiset{id})
  }

  ghost predicate PostRun(posts: seq<Post>, steps: seq<PostStep>) {
    && |posts| == |steps| + 1 && posts[0] == Post(false, None, None, {}, {}, {}, multiset{})
    && forall i | 0 <= i < |steps| :: PostEnabled(posts[i], steps[i]) && posts[i + 1] == PostNext(posts[i], steps[i])
  }

  /** A hook is in exactly one place, or its work is done, once. */
  ghost predicate PostOk(p: Post) {
    && (p.finished ==> p.hook.None?) && (p.taken.Some? ==> p.finished)
    && forall id ::
         (if p.hook == Some(id) then 1 else 0) + (if p.taken == Some(id) then 1 else 0) + (if id in p.owed then 1 else 0)
         + (if id in p.replaced then 1 else 0) + p.done[id] == if id in p.registered then 1 else 0
  }

  lemma PostStepKeeps(p: Post, step: PostStep)
    requires PostOk(p) && PostEnabled(p, step)
    ensures PostOk(PostNext(p, step))
  {
    var q := PostNext(p, step);
    forall id
      ensures (if q.hook == Some(id) then 1 else 0) + (if q.taken == Some(id) then 1 else 0) + (if id in q.owed then 1 else 0)
              + (if id in q.replaced then 1 else 0) + q.done[id] == if id in q.registered then 1 else 0
    {
      assert (if p.hook == Some(id) then 1 else 0) + (if p.taken == Some(id) then 1 else 0) + (if id in p.owed then 1 else 0)
             + (if id in p.replaced then 1 else 0) + p.done[id] == if id in p.registered then 1 else 0;
    }
  }

  lemma {:induction false} PostRunKeeps(posts: seq<Post>, steps: seq<PostStep>, i: nat)
    requires PostRun(posts, steps) && i < |posts|
    ensures PostOk(posts[i])
  {
    if i > 0 {
      PostRunKeeps(posts, steps, i - 1);
      PostStepKeeps(posts[i - 1], steps[i - 1]);
    }
  }

  /** In every interleaving a hook's work is never done twice; and when the worker has ended and no step
      is left to take, the work of every hook registered has been done exactly once - but for one that a
      later registration replaced, which is never done. */
  lemma HookRunsOnce(posts: seq<Post>, steps: seq<PostStep>, i: nat, id: nat)
    requires PostRun(posts, steps) && i < |posts|
    ensures posts[i].done[id] <= 1
    ensures posts[i].finished && posts[i].taken.None? && posts[i].owed == {} ==>
      posts[i].done[id] == if id in posts[i].registered && id !in posts[i].replaced then 1 else 0
  {
    PostRunKeeps(posts, steps, i);
  }

  // ── the executor ──

  datatype Item = Job(id: nat) | Stop

  datatype Worker = Ready | Idle | Waiting | Holding(id: nat) | Busy(id: nat) | Ended

  /** `idle` is the semaphore's count; `draining` says a shutdown holds the guard and cancels the queued,
      `stops` how many stops it has yet to queue. The logs are in the order things happened: `taken` as
      jobs left the queue, to a worker or cancelled by a shutdown. */
  datatype Executor = Executor(
    most: nat, queue: seq<Item>, idle: nat, workers: seq<Worker>, shut: bool, draining: bool, stops: nat,
    submitted: seq<nat>, taken: seq<nat>, ran: seq<nat>, ended: seq<nat>, cancelled: set<nat>)

  datatype ExecutorStep =
    | Submit(id: nat)                      // under the guard
    | Cancel(id: nat)                      // the future, before it runs
    | TakeNow(w: nat)                      // get_nowait, or the blocking get once there is an item
    | FindEmpty(w: nat)                    // get_nowait raised Empty
    | MarkIdle(w: nat)                     // idle.release()
    | Start(w: nat)                        // set_running_or_notify_cancel
    | EndJob(w: nat)
    | Shutdown(drop: bool)                 // under the guard
    | DrainOne                             // still under it: one queued item out, its future cancelled
    | DrainEnd
    | PutStop                              // one None, after the guard

  function Jobs(items: seq<Item>): seq<nat>
    decreases |items|
  {
    if items == [] then [] else (if items[0].Job? then [items[0].id] else []) + Jobs(items[1..])
  }

  predicate Held(x: Executor, id: nat) {
    exists w :: 0 <= w < |x.workers| && x.workers[w] == Holding(id)
  }

  predicate ExecutorEnabled(x: Executor, step: ExecutorStep) {
    match step
    case Submit(id) => !x.shut && id !in x.submitted
    case Cancel(id) => id in Jobs(x.queue) || Held(x, id)
    case TakeNow(w) => w < |x.workers| && (x.workers[w].Ready? || x.workers[w].Waiting?) && x.queue != []
    case FindEmpty(w) => w < |x.workers| && x.workers[w].Ready? && x.queue == []
    case MarkIdle(w) => w < |x.workers| && x.workers[w].Idle?
    case Start(w) => w < |x.workers| && x.workers[w].Holding?
    case EndJob(w) => w < |x.workers| && x.workers[w].Busy?
    case Shutdown(_) => !x.draining
    case DrainOne => x.draining && x.queue != []
    case DrainEnd => x.draining && x.queue == []
    case PutStop => x.stops > 0
  }

  function ExecutorNext(x: Executor, step: ExecutorStep): Executor
    requires ExecutorEnabled(x, step)
  {
    match step
    case Submit(id) =>
      var y := x.(queue := x.queue + [Job(id)], submitted := x.submitted + [id]);
      if x.idle > 0 then y.(idle := x.idle - 1)
      else if |x.workers| < x.most then y.(workers := x.workers + [Ready])
      else y
    case Cancel(id) => x.(cancelled := x.cancelled + {id})
    case TakeNow(w) =>
      var y := x.(queue := x.queue[1..]);
      (match x.queue[0]
       case Stop => y.(workers := x.workers[w := Ended])
       case Job(id) => y.(workers := x.workers[w := Holding(id)], taken := x.taken + [id]))
    case FindEmpty(w) => x.(workers := x.workers[w := Idle])
    case MarkIdle(w) => x.(workers := x.workers[w := Waiting], idle := x.idle + 1)
    case Start(w) =>
      var id := x.workers[w].id;
      if id in x.cancelled then x.(workers := x.workers[w := Ready])
      else x.(workers := x.workers[w := Busy(id)], ran := x.ran + [id])
    case EndJob(w) => x.(workers := x.workers[w := Ready], ended := x.ended + [x.workers[w].id])
    case Shutdown(drop) =>
      if drop then x.(shut := true, draining := true) else x.(shut := true, stops := x.stops + |x.workers|)
    case DrainOne =>
      var y := x.(queue := x.queue[1..]);
      (match x.queue[0]
       case Stop => y
       case Job(id) => y.(taken := x.taken + [id], cancelled := x.cancelled + {id}))
    case DrainEnd => x.(draining := false, stops := x.stops + |x.workers|)
    case PutStop => x.(queue := x.queue + [Stop], stops := x.stops - 1)
  }

  function Fresh(most: nat): Executor {
    Executor(most, [], 0, [], false, false, 0, [], [], [], [], {})
  }

  ghost predicate ExecutorRun(xs: seq<Executor>, steps: seq<ExecutorStep>) {
    && |xs| == |steps| + 1 && xs[0] == Fresh(xs[0].most) && xs[0].most >= 1
    && forall i | 0 <= i < |steps| :: ExecutorEnabled(xs[i], steps[i]) && xs[i + 1] == ExecutorNext(xs[i], steps[i])
  }

  /** The jobs a log holds that were not cancelled. */
  function Uncancelled(log: seq<nat>, cancelled: set<nat>): seq<nat>
    decreases |log|
  {
    if log == [] then [] else Uncancelled(log[..|log| - 1], cancelled) + (if log[|log| - 1] in cancelled then [] else [log[|log| - 1]])
  }

  predicate Distinct(log: seq<nat>) {
    forall i, j | 0 <= i < j < |log| :: log[i] != log[j]
  }

  /** Taken then queued is submitted. */
  ghost predicate LogsOk(x: Executor) {
    && x.taken + Jobs(x.queue) == x.submitted && Distinct(x.submitted)
    && forall id | id in x.cancelled :: id in x.submitted
  }

  /** A job taken is held by one worker, or it ran, once, exactly if it was not cancelled. */
  ghost predicate RunsOk(x: Executor) {
    && Distinct(x.ran) && (forall id | id in x.ran :: id in x.taken)
    && (forall w | 0 <= w < |x.workers| && x.workers[w].Holding? :: x.workers[w].id in x.taken && x.workers[w].id !in x.ran)
    && (forall v, w | 0 <= v < w < |x.workers| && x.workers[v].Holding? :: x.workers[w] != x.workers[v])
    && (forall id | id in x.taken && !Held(x, id) :: id in x.ran <==> id !in x.cancelled)
  }

  function Starting(x: Executor): seq<nat> {
    if x.workers != [] && x.workers[0].Holding? && x.workers[0].id !in x.cancelled then [x.workers[0].id] else []
  }

  function Running(x: Executor): seq<nat> {
    if x.workers != [] && x.workers[0].Busy? then [x.workers[0].id] else []
  }

  /** A worker there is as soon as anything was submitted; a lone one has run what it took, in order, and
      to the end all but what it is running. */
  ghost predicate WorkersOk(x: Executor) {
    && x.most >= 1 && |x.workers| <= x.most
    && (x.workers == [] ==> x.submitted == [] && x.ran == [] && x.ended == [] && x.idle == 0)
    && (x.most == 1 ==> x.ran == x.ended + Running(x) && x.ran + Starting(x) == Uncancelled(x.taken, x.cancelled))
  }

  /** The stops stand behind every job, and no worker has ended while a job is queued. */
  ghost predicate StopsOk(x: Executor) {
    && (forall i, j | 0 <= i < j < |x.queue| && x.queue[i].Stop? :: x.queue[j].Stop?)
    && (forall i | 0 <= i < |x.queue| && x.queue[i].Stop? :: x.shut)
    && (x.stops > 0 || x.draining ==> x.shut)
    && (forall w | 0 <= w < |x.workers| && x.workers[w].Ended? :: x.shut && forall i | 0 <= i < |x.queue| :: x.queue[i].Stop?)
  }

  ghost predicate ExecutorOk(x: Executor) {
    LogsOk(x) && RunsOk(x) && WorkersOk(x) && StopsOk(x)
  }

  lemma {:induction false} JobsAppend(a: seq<Item>, b: seq<Item>)
    ensures Jobs(a + b) == Jobs(a) + Jobs(b)
    decreases |a|
  {
    if a == [] {
      assert a + b == b;
    } else {
      assert (a + b)[1..] == a[1..] + b;
      JobsAppend(a[1..], b);
    }
  }

  lemma {:induction false} UncancelledSame(log: seq<nat>, a: set<nat>, b: set<nat>)
    requires forall id | id in log :: id in a <==> id in b
    ensures Uncancelled(log, a) == Uncancelled(log, b)
    decreases |log|
  {
    if log != [] {
      UncancelledSame(log[..|log| - 1], a, b);
    }
  }

  lemma UncancelledNext(log: seq<nat>, id: nat, cancelled: set<nat>)
    ensures Uncancelled(log + [id], cancelled) == Uncancelled(log, cancelled) + (if id in cancelled then [] else [id])
  {
    assert (log + [id])[..|log|] == log;
  }

  /** The last job not cancelled, cancelled. */
  lemma {:induction false} UncancelledLast(log: seq<nat>, cancelled: set<nat>, first: seq<nat>, id: nat)
    requires Distinct(log) && Uncancelled(log, cancelled) == first + [id]
    ensures Uncancelled(log, cancelled + {id}) == first
    decreases |log|
  {
    var rest, last := log[..|log| - 1], log[|log| - 1];
    if last in cancelled {
      UncancelledLast(rest, cancelled, first, id);
    } else {
      assert (first + [id])[|first|] == id;
      assert Uncancelled(rest, cancelled) == (first + [id])[..|first|] == first;
      UncancelledSame(rest, cancelled, cancelled + {id});
    }
  }

  /** Of a log without repeats nothing in its first part is in its second. */
  lemma Apart(a: seq<nat>, b: seq<nat>, all: seq<nat>)
    requires a + b == all && Distinct(all)
    ensures Distinct(a) && forall id | id in a :: id !in b
  {
    forall i, j | 0 <= i < j < |a| ensures a[i] != a[j] {
      assert all[i] == a[i] && all[j] == a[j];
    }
    forall id | id in a ensures id !in b {
      var i :| 0 <= i < |a| && a[i] == id;
      forall j | 0 <= j < |b| ensures b[j] != id {
        assert all[i] == id && all[|a| + j] == b[j];
      }
    }
  }

  lemma LogsKept(x: Executor, step: ExecutorStep)
    requires LogsOk(x) && RunsOk(x) && ExecutorEnabled(x, step)
    ensures LogsOk(ExecutorNext(x, step))
  {
    hide RunsOk, Held;
    match step
    case Submit(id) => SubmitKeepsLogs(x, id);
    case Cancel(id) => CancelledWasSubmitted(x, id);
    case TakeNow(_) => LeftTheQueue(x);
    case DrainOne => LeftTheQueue(x);
    case PutStop =>
      JobsAppend(x.queue, [Stop]);
      assert Jobs([Stop]) == [];
    case _ =>
  }

  lemma SubmitKeepsLogs(x: Executor, id: nat)
    requires LogsOk(x) && ExecutorEnabled(x, Submit(id))
    ensures LogsOk(ExecutorNext(x, Submit(id)))
  {
    JobsAppend(x.queue, [Job(id)]);
    assert Jobs([Job(id)]) == [id];
    assert x.taken + (Jobs(x.queue) + [id]) == x.taken + Jobs(x.queue) + [id];
  }

  lemma CancelledWasSubmitted(x: Executor, id: nat)
    requires LogsOk(x) && RunsOk(x) && ExecutorEnabled(x, Cancel(id))
    ensures id in x.submitted && id !in x.ran
  {
    Apart(x.taken, Jobs(x.queue), x.submitted);
    assert forall other | other in x.taken || other in Jobs(x.queue) :: other in x.taken + Jobs(x.queue);
  }

  lemma LeftTheQueue(x: Executor)
    requires LogsOk(x) && x.queue != []
    ensures x.queue[0].Job? ==>
      && x.taken + [x.queue[0].id] + Jobs(x.queue[1..]) == x.submitted
      && x.queue[0].id in x.submitted && x.queue[0].id !in x.taken
    ensures x.queue[0].Stop? ==> Jobs(x.queue[1..]) == Jobs(x.queue)
  {
    if x.queue[0].Job? {
      var id := x.queue[0].id;
      assert x.taken + Jobs(x.queue) == x.taken + [id] + Jobs(x.queue[1..]);
      assert x.submitted[|x.taken|] == id;
      Apart(x.taken, Jobs(x.queue), x.submitted);
      assert Jobs(x.queue)[0] == id;
    } else {
      assert Jobs(x.queue) == [] + Jobs(x.queue[1..]);
    }
  }

  lemma RunsKept(x: Executor, step: ExecutorStep)
    requires LogsOk(x) && RunsOk(x) && ExecutorEnabled(x, step)
    ensures RunsOk(ExecutorNext(x, step))
  {
    match step
    case Cancel(id) => CancelKeepsRuns(x, id);
    case TakeNow(w) => TakeKeepsRuns(x, w);
    case Start(w) => StartKeepsRuns(x, w);
    case Submit(id) => SubmitKeepsRuns(x, id);
    case DrainOne => DrainKeepsRuns(x);
    case FindEmpty(w) => OtherKeepsRuns(x, ExecutorNext(x, step), w);
    case MarkIdle(w) => OtherKeepsRuns(x, ExecutorNext(x, step), w);
    case EndJob(w) => OtherKeepsRuns(x, ExecutorNext(x, step), w);
    case _ => SameRuns(x, ExecutorNext(x, step));
  }

  lemma SameRuns(x: Executor, y: Executor)
    requires RunsOk(x) && y.workers == x.workers && y.taken == x.taken && y.ran == x.ran && y.cancelled == x.cancelled
    ensures RunsOk(y)
  {
    assert forall id :: Held(y, id) <==> Held(x, id);
  }

  lemma OtherKeepsRuns(x: Executor, y: Executor, w: nat)
    requires RunsOk(x) && w < |x.workers| && |y.workers| == |x.workers| && y.workers == x.workers[w := y.workers[w]]
    requires !x.workers[w].Holding? && !y.workers[w].Holding?
    requires y.taken == x.taken && y.ran == x.ran && y.cancelled == x.cancelled
    ensures RunsOk(y)
  {
    HeldElsewhere(x, y, w);
  }

  lemma TakeKeepsRuns(x: Executor, w: nat)
    requires LogsOk(x) && RunsOk(x) && ExecutorEnabled(x, TakeNow(w))
    ensures RunsOk(ExecutorNext(x, TakeNow(w)))
  {
    LeftTheQueue(x);
    hide Jobs, LogsOk;
    HeldElsewhere(x, ExecutorNext(x, TakeNow(w)), w);
  }

  lemma StartKeepsRuns(x: Executor, w: nat)
    requires LogsOk(x) && RunsOk(x) && ExecutorEnabled(x, Start(w))
    ensures RunsOk(ExecutorNext(x, Start(w)))
  {
    hide Jobs, LogsOk;
    HeldElsewhere(x, ExecutorNext(x, Start(w)), w);
  }

  lemma SubmitKeepsRuns(x: Executor, id: nat)
    requires RunsOk(x) && ExecutorEnabled(x, Submit(id))
    ensures RunsOk(ExecutorNext(x, Submit(id)))
  {
    hide Jobs;
    SubmitHolds(x, Submit(id));
  }

  lemma DrainKeepsRuns(x: Executor)
    requires LogsOk(x) && RunsOk(x) && ExecutorEnabled(x, DrainOne)
    ensures RunsOk(ExecutorNext(x, DrainOne))
  {
    LeftTheQueue(x);
    hide Jobs, LogsOk;
    assert forall id :: Held(ExecutorNext(x, DrainOne), id) <==> Held(x, id);
  }

  /** Only worker `w` changed: what the others hold is held. */
  lemma HeldElsewhere(x: Executor, y: Executor, w: nat)
    requires w < |x.workers| && |y.workers| == |x.workers| && y.workers == x.workers[w := y.workers[w]]
    ensures forall id | Held(x, id) && x.workers[w] != Holding(id) :: Held(y, id)
    ensures y.workers[w].Holding? ==> Held(y, y.workers[w].id)
  {
    forall id | Held(x, id) && x.workers[w] != Holding(id) ensures Held(y, id) {
      var v :| 0 <= v < |x.workers| && x.workers[v] == Holding(id);
      assert y.workers[v] == Holding(id);
    }
  }

  lemma SubmitHolds(x: Executor, step: ExecutorStep)
    requires step.Submit? && ExecutorEnabled(x, step)
    ensures forall id | Held(x, id) :: Held(ExecutorNext(x, step), id)
  {
    var y := ExecutorNext(x, step);
    forall id | Held(x, id) ensures Held(y, id) {
      var v :| 0 <= v < |x.workers| && x.workers[v] == Holding(id);
      assert y.workers[v] == Holding(id);
    }
  }

  lemma CancelKeepsRuns(x: Executor, id: nat)
    requires LogsOk(x) && RunsOk(x) && ExecutorEnabled(x, Cancel(id))
    ensures RunsOk(ExecutorNext(x, Cancel(id)))
  {
    hide Jobs;
    Apart(x.taken, Jobs(x.queue), x.submitted);
    var y := ExecutorNext(x, Cancel(id));
    assert y.workers == x.workers && y.taken == x.taken && y.ran == x.ran;
    forall other | other in y.taken && !Held(y, other) ensures other in y.ran <==> other !in y.cancelled {
      assert !Held(x, other);
    }
  }

  lemma WorkersKept(x: Executor, step: ExecutorStep)
    requires LogsOk(x) && RunsOk(x) && WorkersOk(x) && ExecutorEnabled(x, step)
    ensures WorkersOk(ExecutorNext(x, step))
  {
    hide Jobs, Uncancelled, Distinct, LogsOk, RunsOk, WorkersOk;
    match step
    case Cancel(id) => CancelKeepsWorkers(x, id);
    case TakeNow(w) => TakeKeepsWorkers(x, w);
    case DrainOne => DrainKeepsWorkers(x);
    case Start(w) => StartKeepsWorkers(x, w);
    case EndJob(w) => EndKeepsWorkers(x, w);
    case Submit(id) => SubmitKeepsWorkers(x, id);
    case FindEmpty(w) => OtherKeepsWorkers(x, ExecutorNext(x, step), w);
    case MarkIdle(w) => OtherKeepsWorkers(x, ExecutorNext(x, step), w);
    case _ => SameWorkers(x, ExecutorNext(x, step));
  }

  lemma SameWorkers(x: Executor, y: Executor)
    requires WorkersOk(x)
    requires y == x.(queue := y.queue, shut := y.shut, draining := y.draining, stops := y.stops)
    ensures WorkersOk(y)
  {
    hide Uncancelled;
  }

  lemma OtherKeepsWorkers(x: Executor, y: Executor, w: nat)
    requires WorkersOk(x) && w < |x.workers| && w < |y.workers| && y == x.(workers := x.workers[w := y.workers[w]], idle := y.idle)
    requires !x.workers[w].Holding? && !x.workers[w].Busy? && !y.workers[w].Holding? && !y.workers[w].Busy?
    ensures WorkersOk(y)
  {
    hide Uncancelled;
  }

  lemma EndKeepsWorkers(x: Executor, w: nat)
    requires WorkersOk(x) && ExecutorEnabled(x, EndJob(w))
    ensures WorkersOk(ExecutorNext(x, EndJob(w)))
  {
    hide Uncancelled;
  }

  lemma SubmitKeepsWorkers(x: Executor, id: nat)
    requires WorkersOk(x) && ExecutorEnabled(x, Submit(id))
    ensures WorkersOk(ExecutorNext(x, Submit(id)))
  {
    hide Uncancelled, Jobs;
  }

  lemma DrainKeepsWorkers(x: Executor)
    requires LogsOk(x) && RunsOk(x) && WorkersOk(x) && ExecutorEnabled(x, DrainOne)
    ensures WorkersOk(ExecutorNext(x, DrainOne))
  {
    hide Uncancelled, Distinct;
    if x.queue[0].Job? {
      DrainedIsCancelled(x);
    }
  }

  lemma StartKeepsWorkers(x: Executor, w: nat)
    requires WorkersOk(x) && ExecutorEnabled(x, Start(w))
    ensures WorkersOk(ExecutorNext(x, Start(w)))
  {
    hide Uncancelled;
  }

  lemma TakeKeepsWorkers(x: Executor, w: nat)
    requires WorkersOk(x) && ExecutorEnabled(x, TakeNow(w))
    ensures WorkersOk(ExecutorNext(x, TakeNow(w)))
  {
    hide Jobs, Uncancelled, Distinct;
    if x.queue[0].Job? {
      TakenIsUncancelled(x);
      UncancelledNext(x.taken, x.queue[0].id, x.cancelled);
    }
  }

  lemma TakenIsUncancelled(x: Executor)
    requires WorkersOk(x) && x.queue != [] && x.queue[0].Job?
    ensures x.most == 1 && x.workers != [] && !x.workers[0].Holding? ==> x.ran == Uncancelled(x.taken, x.cancelled)
    ensures x.ran + [] == x.ran && x.ended + [] == x.ended
  {
  }

  lemma CancelKeepsWorkers(x: Executor, id: nat)
    requires LogsOk(x) && RunsOk(x) && WorkersOk(x) && ExecutorEnabled(x, Cancel(id))
    ensures WorkersOk(ExecutorNext(x, Cancel(id)))
  {
    Apart(x.taken, Jobs(x.queue), x.submitted);
    if x.most == 1 && Starting(x) == [id] {
      hide Jobs, Held, LogsOk, RunsOk;
      UncancelledLast(x.taken, x.cancelled, x.ran, id);
    } else if x.most == 1 {
      NotStarting(x, id);
      hide Jobs, Held, LogsOk, RunsOk, Uncancelled;
      UncancelledSame(x.taken, x.cancelled, x.cancelled + {id});
    }
  }

  lemma NotStarting(x: Executor, id: nat)
    requires LogsOk(x) && RunsOk(x) && WorkersOk(x) && ExecutorEnabled(x, Cancel(id)) && x.most == 1 && Starting(x) != [id]
    ensures id in x.cancelled || (id !in x.taken && (x.workers != [] ==> x.workers[0] != Holding(id)))
  {
    hide Uncancelled;
    Apart(x.taken, Jobs(x.queue), x.submitted);
    hide Jobs, LogsOk;
  }

  lemma DrainedIsCancelled(x: Executor)
    requires LogsOk(x) && x.queue != [] && x.queue[0].Job?
    ensures var id := x.queue[0].id;
      && id !in x.taken
      && Uncancelled(x.taken + [id], x.cancelled + {id}) == Uncancelled(x.taken, x.cancelled)
  {
    var id := x.queue[0].id;
    LeftTheQueue(x);
    UncancelledNext(x.taken, id, x.cancelled + {id});
    UncancelledSame(x.taken, x.cancelled, x.cancelled + {id});
  }

  lemma StopsKept(x: Executor, step: ExecutorStep)
    requires StopsOk(x) && ExecutorEnabled(x, step)
    ensures StopsOk(ExecutorNext(x, step))
  {
    hide Jobs, Uncancelled, Held;
    match step
    case TakeNow(w) => PoppedStops(x, ExecutorNext(x, step), w);
    case DrainOne =>
      if x.workers != [] {
        PoppedStops(x, ExecutorNext(x, step), 0);
      }
    case _ =>
  }

  /** The queue's first item out; if a stop, then for worker `w`, perhaps. */
  lemma PoppedStops(x: Executor, y: Executor, w: nat)
    requires StopsOk(x) && x.queue != [] && y.queue == x.queue[1..]
    requires y.shut == x.shut && y.stops == x.stops && y.draining == x.draining
    requires w < |x.workers| && |y.workers| == |x.workers| && y.workers == x.workers[w := y.workers[w]]
    requires y.workers[w].Ended? ==> x.queue[0].Stop? || x.workers[w].Ended?
    ensures StopsOk(y)
  {
    forall i | 0 <= i < |y.queue| ensures y.queue[i] == x.queue[i + 1] {
    }
  }

  lemma {:induction false} ExecutorRunKeeps(xs: seq<Executor>, steps: seq<ExecutorStep>, i: nat)
    requires ExecutorRun(xs, steps) && i < |xs|
    ensures ExecutorOk(xs[i]) && xs[i].most == xs[0].most
  {
    hide LogsOk, RunsOk, WorkersOk, StopsOk;
    if i > 0 {
      ExecutorRunKeeps(xs, steps, i - 1);
      LogsKept(xs[i - 1], steps[i - 1]);
      RunsKept(xs[i - 1], steps[i - 1]);
      WorkersKept(xs[i - 1], steps[i - 1]);
      StopsKept(xs[i - 1], steps[i - 1]);
    } else {
      NothingYet(xs[0]);
    }
  }

  lemma NothingYet(x: Executor)
    requires x == Fresh(x.most) && x.most >= 1
    ensures ExecutorOk(x)
  {
  }

  /** In every interleaving jobs are taken up in the order they were submitted, none twice and none lost:
      one taken up runs exactly once unless it was cancelled before. With one worker they also run in
      that order, one at a time: all that began have ended but at most the last. */
  lemma JobsInOrder(xs: seq<Executor>, steps: seq<ExecutorStep>, i: nat)
    requires ExecutorRun(xs, steps) && i < |xs|
    ensures var x := xs[i];
      && x.submitted == x.taken + Jobs(x.queue) && Distinct(x.submitted)
      && Distinct(x.ran) && (forall id | id in x.taken && !Held(x, id) :: id in x.ran <==> id !in x.cancelled)
      && (x.most == 1 ==>
            && x.ran <= Uncancelled(x.taken, x.cancelled)
            && x.ended <= x.ran && |x.ran| <= |x.ended| + 1)
  {
    ExecutorRunKeeps(xs, steps, i);
    var x := xs[i];
    if x.most == 1 {
      assert x.ran <= x.ran + Starting(x) && x.ended <= x.ended + Running(x);
    }
  }

  /** A queued job is never stranded: there is a worker, none has ended, and each of them has a step to
      take on its own. */
  lemma NoJobIsStranded(xs: seq<Executor>, steps: seq<ExecutorStep>, i: nat, w: nat)
    requires ExecutorRun(xs, steps) && i < |xs| && Jobs(xs[i].queue) != []
    ensures xs[i].workers != []
    ensures w < |xs[i].workers| ==>
      || ExecutorEnabled(xs[i], TakeNow(w)) || ExecutorEnabled(xs[i], MarkIdle(w))
      || ExecutorEnabled(xs[i], Start(w)) || ExecutorEnabled(xs[i], EndJob(w))
  {
    ExecutorRunKeeps(xs, steps, i);
    var x := xs[i];
    assert |x.submitted| >= |Jobs(x.queue)|;
    if w < |x.workers| && x.workers[w].Ended? {
      StopsHoldNoJob(x.queue);
    }
  }

  lemma {:induction false} StopsHoldNoJob(items: seq<Item>)
    requires forall i | 0 <= i < |items| :: items[i].Stop?
    ensures Jobs(items) == []
    decreases |items|
  {
    if items != [] {
      StopsHoldNoJob(items[1..]);
    }
  }

  // ── the journal's flush thread ──

  datatype Flusher = Unstarted | Waits | Gathers | Gathered | Cleared | Left

  /** The caller inside `_enqueue`, under the journal's lock. */
  datatype Adding = NoOne | AddedOne | MustWake

  /** How far `close` has come: stopped set, wake set, the queue committed and the file gone. */
  datatype Closing = Open | Stopped | Woken | Closed

  /** `queued` counts the writes queued. */
  datatype Journal = Journal(queued: nat, wake: bool, closing: Closing, flusher: Flusher, adding: Adding)

  datatype FlushStep =
    | Add              // append, and the thread started if there is none
    | CheckWake        // `if not self._wake.is_set()`
    | SetWake
    | Drain            // another commit under the lock takes the queue along
    | Wake             // wait() returned
    | Gather           // the delay over, and not stopped
    | Clear            // wake.clear()
    | Flush            // flush(), under the lock
    | Leave            // the thread saw `stopped`
    | SetStopped
    | WakeAll
    | CommitClosed     // the queue committed, under the lock, and no more taken

  predicate FlushEnabled(j: Journal, step: FlushStep) {
    match step
    case Add => j.adding.NoOne? && !j.closing.Closed?
    case CheckWake => j.adding.AddedOne?
    case SetWake => j.adding.MustWake?
    case Drain => j.adding.NoOne?
    case Wake => j.flusher.Waits? && j.wake
    case Gather => j.flusher.Gathers? && j.closing.Open?
    case Clear => j.flusher.Gathered?
    case Flush => j.flusher.Cleared? && j.adding.NoOne?
    case Leave => !j.closing.Open? && (j.flusher.Gathers? || j.flusher.Waits?)
    case SetStopped => j.closing.Open?
    case WakeAll => j.closing.Stopped?
    case CommitClosed => j.closing.Woken? && j.adding.NoOne?
  }

  function FlushNext(j: Journal, step: FlushStep): Journal
    requires FlushEnabled(j, step)
  {
    match step
    case Add => j.(queued := j.queued + 1, adding := AddedOne, flusher := if j.flusher.Unstarted? then Waits else j.flusher)
    case CheckWake => j.(adding := if j.wake then NoOne else MustWake)
    case SetWake => j.(wake := true, adding := NoOne)
    case Drain => j.(queued := 0)
    case Wake => j.(flusher := Gathers)
    case Gather => j.(flusher := Gathered)
    case Clear => j.(wake := false, flusher := Cleared)
    case Flush => j.(queued := 0, flusher := Waits)
    case Leave => j.(flusher := Left)
    case SetStopped => j.(closing := Stopped)
    case WakeAll => j.(wake := true, closing := Woken)
    case CommitClosed => j.(queued := 0, closing := Closed)
  }

  ghost predicate FlushRun(js: seq<Journal>, steps: seq<FlushStep>) {
    && |js| == |steps| + 1 && js[0] == Journal(0, false, Open, Unstarted, NoOne)
    && forall i | 0 <= i < |steps| :: FlushEnabled(js[i], steps[i]) && js[i + 1] == FlushNext(js[i], steps[i])
  }

  /** No wake-up is lost: a queue means the wake is set, a flush is to come, or a caller is about to
      set it; or a close is under way, which commits the queue itself. */
  ghost predicate Awake(j: Journal) {
    && (j.queued > 0 && j.closing.Open? ==> j.wake || j.flusher.Cleared? || !j.adding.NoOne?)
    && (j.queued > 0 || !j.adding.NoOne? ==> !j.flusher.Unstarted? && !j.closing.Closed?)
    && (j.flusher.Left? ==> !j.closing.Open?)
  }

  lemma {:induction false} FlushRunAwake(js: seq<Journal>, steps: seq<FlushStep>, i: nat)
    requires FlushRun(js, steps) && i < |js|
    ensures Awake(js[i])
  {
    if i > 0 {
      FlushRunAwake(js, steps, i - 1);
    }
  }

  /** The thread's own next step, given the lock; once stopped, the close's. */
  function FlusherStep(j: Journal): FlushStep {
    if j.closing.Stopped? then WakeAll
    else if j.closing.Woken? then CommitClosed
    else
      match j.flusher
      case Waits => Wake
      case Gathers => Gather
      case Gathered => Clear
      case _ => Flush
  }

  /** That one thread commits the queue in at most `n` steps. */
  predicate FlushedWithin(j: Journal, n: nat)
    decreases n
  {
    j.queued == 0 || (n > 0 && FlushEnabled(j, FlusherStep(j)) && FlushedWithin(FlushNext(j, FlusherStep(j)), n - 1))
  }

  /** Whenever a write is queued and no caller is inside `_enqueue`, the flush thread - or the close -
      goes on by itself and has the queue committed in at most four steps. */
  lemma QueueIsFlushed(js: seq<Journal>, steps: seq<FlushStep>, i: nat)
    requires FlushRun(js, steps) && i < |js| && js[i].adding.NoOne?
    ensures FlushedWithin(js[i], 4)
  {
    FlushRunAwake(js, steps, i);
    StepsToFlush(js[i], 4);
  }

  lemma {:induction false} StepsToFlush(j: Journal, n: nat)
    requires Awake(j) && j.adding.NoOne?
    requires n >= if !j.closing.Open? then 2 else match j.flusher case Waits => 4 case Gathers => 3 case Gathered => 2 case _ => 1
    ensures FlushedWithin(j, n)
    decreases n
  {
    if j.queued > 0 && j.closing.Open? && !j.flusher.Cleared? {
      assert FlushEnabled(j, FlusherStep(j));
      StepsToFlush(FlushNext(j, FlusherStep(j)), n - 1);
    } else if j.queued > 0 && j.closing.Stopped? {
      var k := FlushNext(j, WakeAll);
      assert FlushedWithin(k, n - 1);
    }
  }
}
