/** With two servers at once a cancelled id can run twice: memory is read before the file, and the first
    server's memory of its cancelled run is not what the file says any more. The run of `TwoServers` is
    followed event by event: what each finds, and what it leaves. */
module JournalTwoServers {

  import opened Wrappers
  import opened Journal
  import opened JournalRuns
  import opened JournalOnce

  /** Two live servers, one id: the first cancels a run, the second runs and finishes it, the first -
      whose memory still says cancelled - runs it again. */
  function TwoServers(id: OpId, request: Request): seq<Event> {
    [ Event.Open(0, 1, {}, {0, 1}), Event.Open(1, 1, {}, {0, 1}),
      Begin(0, id, request, 0, {0, 1}), Finish(0, Cancelled, None, true),
      Begin(1, id, request, 1, {0, 1}), Work(1), Finish(1, Committed, Some(Full("done")), true),
      Begin(0, id, request, 2, {0, 1}), Work(2) ]
  }

  /** Nothing is queued or put off. */
  ghost predicate Idle(w: World) {
    forall server | server in w.servers ::
      w.servers[server].instance == server && w.servers[server].queue == [] && w.servers[server].deferred == {} && w.servers[server].maxlen == 1
  }

  lemma AdmittedWhenIdle(w: World, e: Event)
    requires Idle(w) && w.watch.Client? && e.Begin? && Enabled(w, e) && Admits(w, e) && e.id == w.watch
    ensures var w' := Next(w, e);
      && Idle(w') && w'.alive == w.alive && w'.tally == w.tally && w'.watch == w.watch
      && w'.calls == w.calls[e.ticket := Call(e.server, BegunRecord(e), true, None)]
      && w'.servers == w.servers[e.server := w'.servers[e.server]]
      && w.watch in w'.servers[e.server].records && w'.servers[e.server].records[w.watch] == BegunRecord(e)
      && w.watch in w'.table && w'.table[w.watch].owner == e.server && w'.table[w.watch].request == e.request
  {
    BeginClientShape(w, e);
    RememberedFinds(w.servers[e.server], BegunRecord(e));
  }

  lemma FinishedWhenIdle(w: World, e: Event)
    requires Idle(w) && w.watch.Client? && e.Finish? && Enabled(w, e) && w.calls[e.ticket].record.id == w.watch
    requires var call := w.calls[e.ticket];
      && call.record.ticket == e.ticket
      && w.watch in w.servers[call.server].records && w.servers[call.server].records[w.watch].ticket == e.ticket
      && w.watch in w.table && w.table[w.watch].owner == call.server
    ensures var w', call := Next(w, e), w.calls[e.ticket];
      && Idle(w') && w'.alive == w.alive && w'.watch == w.watch
      && w'.calls == w.calls[e.ticket := call.(ended := Some(e.state), worker := call.worker && e.state != Cancelled)]
      && w'.servers == w.servers[call.server := w'.servers[call.server]]
      && w.watch in w'.servers[call.server].records
      && w'.servers[call.server].records[w.watch] == w.servers[call.server].records[w.watch].(state := e.state)
      && w.watch in w'.table && w'.table[w.watch].state == e.state && w'.table[w.watch].owner == call.server
      && w'.table[w.watch].request == w.table[w.watch].request
  {
    FinishClientShape(w, e);
    MemoryOfFinish(w, e);
  }

  ghost function Start(id: OpId): World {
    World(id, map[], map[], {}, map[], map[], {}, {}, Tally(0, 0, 0, 0))
  }

  ghost predicate Step(w: World, e: Event, w': World) {
    Enabled(w, e) && w' == Next(w, e)
  }

  /** The run `worlds` goes on to `w'`. */
  lemma Extended(worlds: seq<World>, events: seq<Event>, e: Event, w': World)
    requires IsRun(worlds, events) && Step(worlds[|events|], e, w')
    ensures IsRun(worlds + [w'], events + [e])
  {
  }

  /** Both servers are live and idle. */
  ghost predicate Pair(w: World, calls: map<nat, Call>, tally: Tally) {
    && Idle(w) && w.watch.Client? && w.alive == {0, 1} && 0 in w.servers && 1 in w.servers
    && w.calls == calls && w.tally == tally
  }

  function Ran(server: nat, id: OpId, request: Request, ticket: nat, worker: bool, ended: Option<State>): Call {
    Call(server, Record(ticket, id, request, Running), worker, ended)
  }

  lemma BothOpen(id: OpId, request: Request) returns (worlds: seq<World>)
    requires id.Client?
    ensures IsRun(worlds, TwoServers(id, request)[..2]) && worlds[0].watch == id && worlds[2].watch == id
    ensures Pair(worlds[2], map[], Tally(0, 0, 0, 0)) && worlds[2].table == map[]
    ensures worlds[2].servers[0].records == map[] && worlds[2].servers[1].records == map[]
  {
    var w1 := Next(Start(id), Event.Open(0, 1, {}, {0, 1}));
    worlds := [Start(id), w1, Next(w1, Event.Open(1, 1, {}, {0, 1}))];
  }

  lemma FirstBegins(w: World, e: Event) returns (w': World)
    requires Pair(w, map[], Tally(0, 0, 0, 0)) && e.Begin? && e == Begin(0, w.watch, e.request, 0, {0, 1})
    requires w.table == map[] && w.servers[0].records == map[] && w.servers[1].records == map[]
    ensures Step(w, e, w') && w'.watch == w.watch
    ensures Pair(w', map[0 := Ran(0, w.watch, e.request, 0, true, None)], Tally(0, 0, 0, 0))
    ensures w.watch in w'.table && w'.table[w.watch].request == e.request && w'.table[w.watch].owner == 0
    ensures w.watch in w'.servers[0].records && w'.servers[0].records[w.watch] == Record(0, w.watch, e.request, Running)
    ensures w'.servers[1].records == map[]
  {
    AdmittedWhenIdle(w, e);
    w' := Next(w, e);
  }

  lemma FirstCancels(w: World, e: Event, request: Request) returns (w': World)
    requires Pair(w, map[0 := Ran(0, w.watch, request, 0, true, None)], Tally(0, 0, 0, 0)) && e == Finish(0, Cancelled, None, true)
    requires w.watch in w.table && w.table[w.watch].request == request && w.table[w.watch].owner == 0
    requires w.watch in w.servers[0].records && w.servers[0].records[w.watch] == Record(0, w.watch, request, Running)
    requires w.servers[1].records == map[]
    ensures Step(w, e, w') && w'.watch == w.watch
    ensures Pair(w', map[0 := Ran(0, w.watch, request, 0, false, Some(Cancelled))], Tally(0, 0, 1, 0))
    ensures w.watch in w'.table && w'.table[w.watch].state == Cancelled && w'.table[w.watch].request == request
    ensures w.watch in w'.servers[0].records && w'.servers[0].records[w.watch] == Record(0, w.watch, request, Cancelled)
    ensures w'.servers[1].records == map[]
  {
    FinishedWhenIdle(w, e);
    w' := Next(w, e);
  }

  lemma SecondBegins(w: World, e: Event) returns (w': World)
    requires Pair(w, w.calls, Tally(0, 0, 1, 0)) && 1 !in w.calls && e.Begin? && e == Begin(1, w.watch, e.request, 1, {0, 1})
    requires w.watch in w.table && w.table[w.watch].state == Cancelled && w.table[w.watch].request == e.request
    requires w.servers[1].records == map[]
    ensures Step(w, e, w') && w'.watch == w.watch
    ensures Pair(w', w.calls[1 := Ran(1, w.watch, e.request, 1, true, None)], Tally(0, 0, 1, 0))
    ensures w.watch in w'.table && w'.table[w.watch].owner == 1
    ensures w.watch in w'.servers[1].records && w'.servers[1].records[w.watch].ticket == 1
    ensures w'.servers[0] == w.servers[0]
  {
    AdmittedWhenIdle(w, e);
    w' := Next(w, e);
  }

  lemma Works(w: World, ticket: nat) returns (w': World)
    requires Pair(w, w.calls, w.tally) && ticket in w.calls && w.calls[ticket].worker && w.calls[ticket].server in w.alive
    requires Watched(w, w.calls[ticket].record)
    ensures Step(w, Work(ticket), w')
    ensures w' == w.(calls := w.calls[ticket := w.calls[ticket].(worker := false)], tally := w.tally.(executed := w.tally.executed + 1))
  {
    w' := Next(w, Work(ticket));
  }

  lemma SecondFinishes(w: World, e: Event, request: Request) returns (w': World)
    requires Pair(w, w.calls, Tally(1, 0, 1, 0)) && 1 in w.calls && w.calls[1] == Ran(1, w.watch, request, 1, false, None)
    requires e == Finish(1, Committed, Some(Full("done")), true)
    requires w.watch in w.table && w.table[w.watch].owner == 1
    requires w.watch in w.servers[1].records && w.servers[1].records[w.watch].ticket == 1
    ensures Step(w, e, w') && w'.watch == w.watch
    ensures Pair(w', w'.calls, Tally(1, 0, 1, 0)) && w'.calls.Keys == w.calls.Keys
    ensures w'.servers[0] == w.servers[0]
  {
    FinishedWhenIdle(w, e);
    w' := Next(w, e);
  }

  lemma FirstBeginsAgain(w: World, e: Event) returns (w': World)
    requires Pair(w, w.calls, Tally(1, 0, 1, 0)) && 2 !in w.calls && e.Begin? && e == Begin(0, w.watch, e.request, 2, {0, 1})
    requires w.watch in w.servers[0].records && w.servers[0].records[w.watch] == Record(0, w.watch, e.request, Cancelled)
    ensures Step(w, e, w') && w'.watch == w.watch
    ensures Pair(w', w.calls[2 := Ran(0, w.watch, e.request, 2, true, None)], Tally(1, 0, 1, 0))
  {
    AdmittedWhenIdle(w, e);
    w' := Next(w, e);
  }

  lemma FirstHalf(id: OpId, request: Request) returns (worlds: seq<World>)
    requires id.Client? && !request.readOnly
    ensures IsRun(worlds, TwoServers(id, request)[..4]) && worlds[0].watch == id && worlds[4].watch == id
    ensures Pair(worlds[4], map[0 := Ran(0, id, request, 0, false, Some(Cancelled))], Tally(0, 0, 1, 0))
    ensures id in worlds[4].table && worlds[4].table[id].state == Cancelled && worlds[4].table[id].request == request
    ensures id in worlds[4].servers[0].records && worlds[4].servers[0].records[id] == Record(0, id, request, Cancelled)
    ensures worlds[4].servers[1].records == map[]
  {
    var events := TwoServers(id, request);
    worlds := BothOpen(id, request);
    var w3 := FirstBegins(worlds[2], events[2]);
    Extended(worlds, events[..2], events[2], w3);
    assert events[..2] + [events[2]] == events[..3];
    var w4 := FirstCancels(w3, events[3], request);
    Extended(worlds + [w3], events[..3], events[3], w4);
    assert events[..3] + [events[3]] == events[..4];
    worlds := worlds + [w3] + [w4];
  }

  lemma SecondHalf(id: OpId, request: Request, w4: World) returns (w5: World, w6: World, w7: World)
    requires w4.watch == id && id.Client? && !request.readOnly
    requires Pair(w4, w4.calls, Tally(0, 0, 1, 0)) && w4.calls.Keys == {0}
    requires id in w4.table && w4.table[id].state == Cancelled && w4.table[id].request == request
    requires w4.servers[1].records == map[]
    ensures var events := TwoServers(id, request); Step(w4, events[4], w5) && Step(w5, events[5], w6) && Step(w6, events[6], w7)
    ensures w7.watch == id && Pair(w7, w7.calls, Tally(1, 0, 1, 0)) && w7.calls.Keys == {0, 1} && w7.servers[0] == w4.servers[0]
  {
    var events := TwoServers(id, request);
    w5 := SecondBegins(w4, events[4]);
    w6 := Works(w5, 1);
    w7 := SecondFinishes(w6, events[6], request);
  }

  lemma Tenth(id: OpId, request: Request, w7: World) returns (w8: World, w9: World)
    requires w7.watch == id && Pair(w7, w7.calls, Tally(1, 0, 1, 0)) && 2 !in w7.calls && !request.readOnly
    requires id in w7.servers[0].records && w7.servers[0].records[id] == Record(0, id, request, Cancelled)
    ensures var events := TwoServers(id, request); Step(w7, events[7], w8) && Step(w8, events[8], w9)
    ensures w9.tally == Tally(2, 0, 1, 0)
  {
    w8 := FirstBeginsAgain(w7, TwoServers(id, request)[7]);
    w9 := Works(w8, 2);
  }

  lemma SecondRuns(worlds: seq<World>, id: OpId, request: Request) returns (more: seq<World>)
    requires id.Client? && !request.readOnly
    requires IsRun(worlds, TwoServers(id, request)[..4]) && worlds[4].watch == id
    requires Pair(worlds[4], worlds[4].calls, Tally(0, 0, 1, 0)) && worlds[4].calls.Keys == {0}
    requires id in worlds[4].table && worlds[4].table[id].state == Cancelled && worlds[4].table[id].request == request
    requires worlds[4].servers[1].records == map[]
    ensures IsRun(more, TwoServers(id, request)[..7]) && more[0] == worlds[0]
    ensures more[7].watch == id && Pair(more[7], more[7].calls, Tally(1, 0, 1, 0)) && more[7].calls.Keys == {0, 1}
    ensures more[7].servers[0] == worlds[4].servers[0]
  {
    var w5, w6, w7 := SecondHalf(id, request, worlds[4]);
    more := worlds + [w5, w6, w7];
    ExtendedByThree(worlds, TwoServers(id, request), w5, w6, w7);
  }

  lemma ExtendedByThree(worlds: seq<World>, events: seq<Event>, w5: World, w6: World, w7: World)
    requires |events| == 9 && IsRun(worlds, events[..4])
    requires Step(worlds[4], events[4], w5) && Step(w5, events[5], w6) && Step(w6, events[6], w7)
    ensures IsRun(worlds + [w5, w6, w7], events[..7])
  {
    Extended(worlds, events[..4], events[4], w5);
    assert events[..4] + [events[4]] == events[..5];
    Extended(worlds + [w5], events[..5], events[5], w6);
    assert events[..5] + [events[5]] == events[..6];
    Extended(worlds + [w5] + [w6], events[..6], events[6], w7);
    assert events[..6] + [events[6]] == events[..7] && worlds + [w5] + [w6] + [w7] == worlds + [w5, w6, w7];
  }

  lemma ExtendedByTwo(worlds: seq<World>, events: seq<Event>, w8: World, w9: World)
    requires |events| == 9 && IsRun(worlds, events[..7])
    requires Step(worlds[7], events[7], w8) && Step(w8, events[8], w9)
    ensures IsRun(worlds + [w8, w9], events)
  {
    Extended(worlds, events[..7], events[7], w8);
    assert events[..7] + [events[7]] == events[..8];
    Extended(worlds + [w8], events[..8], events[8], w9);
    assert events[..8] + [events[8]] == events && worlds + [w8] + [w9] == worlds + [w8, w9];
  }

  /** The count of a succession fails with two servers at once: the id ran twice, though nothing was
      retired and every run that ended had its answer. */
  lemma TwoServersRunTwice(id: OpId, request: Request) returns (worlds: seq<World>)
    requires id.Client? && !request.readOnly
    ensures IsRun(worlds, TwoServers(id, request)) && worlds[0].watch == id
    ensures worlds[9].tally == Tally(2, 0, 1, 0)
  {
    worlds := FirstHalf(id, request);
    worlds := SecondRuns(worlds, id, request);
    var w8, w9 := Tenth(id, request, worlds[7]);
    ExtendedByTwo(worlds, TwoServers(id, request), w8, w9);
    worlds := worlds + [w8, w9];
  }
}
