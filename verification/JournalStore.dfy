/** `DurableJournal` itself: the objects and loops of backends/operations.py and
    backends/journal_store.py, each method doing to memory and file what the function of `Journal`
    it names says. */
module JournalStore {

  import opened Wrappers
  import opened Journal

  class OperationRecord {
    ghost const ticket: nat
    const id: OpId
    const request: Request
    var state: State

    constructor (id: OpId, request: Request, ghost ticket: nat)
      ensures this.id == id && this.request == request && this.ticket == ticket && state == Running
    {
      this.id, this.request, this.ticket, state := id, request, ticket, Running;
    }

    ghost function Value(): Record
      reads this
    {
      Record(ticket, id, request, state)
    }
  }

  /** The table and what one statement or one open does to it. */
  class JournalFile {
    var table: Table

    constructor ()
      ensures table == map[]
    {
      table := map[];
    }

    method HighestRowid() returns (next: int)
      ensures next == NextRowid(table)
    {
      next := 1;
      var rest := table.Keys;
      while rest != {}
        invariant rest <= table.Keys && next >= 1
        invariant forall id | id in table && id !in rest :: table[id].rowid < next
        invariant next == 1 || exists id :: id in table && table[id].rowid == next - 1
      {
        var id :| id in rest;
        rest := rest - {id};
        if table[id].rowid >= next {
          next := table[id].rowid + 1;
        }
      }
    }

    method Run(statement: Statement) returns (rowid: int)
      modifies this
      ensures table == Execute(old(table), statement)
      ensures statement.Upsert? ==> rowid == table[statement.row.id].rowid
    {
      rowid := -1;
      match statement
      case Upsert(row) =>
        if row.id in table {
          rowid := table[row.id].rowid;
        } else {
          rowid := HighestRowid();
        }
        table := table[row.id := row.(rowid := rowid)];
      case SetBySeq(_, at, owner, state) =>
        table := map id | id in table ::
          if table[id].rowid == at && table[id].owner == owner then table[id].(state := state) else table[id];
      case SetClient(id, owner, state, answer) =>
        if id in table && table[id].owner == owner {
          table := table[id := table[id].(state := state, answer := answer)];
        }
    }

    /** The rows found running, owner by owner: those of a dead server reconciled. */
    method Sweep(instance: nat, alive: set<nat>)
      modifies this
      ensures table == Swept(old(table), instance, alive)
      ensures table.Keys == old(table).Keys
      ensures forall id | id in table :: table[id] == old(table)[id].(state := ReadState(old(table)[id], instance, alive))
    {
      var owners := set id | id in table && table[id].state == Running :: table[id].owner;
      while owners != {}
        invariant table.Keys == old(table.Keys)
        invariant forall id | id in table ::
          table[id] == (if OwnerDied(old(table)[id], instance, alive) && old(table)[id].owner !in owners
                        then Orphaned(old(table)[id]) else old(table)[id])
      {
        var owner :| owner in owners;
        owners := owners - {owner};
        if owner != instance && owner !in alive {
          var running := set id | id in table && table[id].state == Running && table[id].owner == owner;
          ghost var before := table;
          while running != {}
            invariant table.Keys == before.Keys && running <= table.Keys
            invariant forall id | id in running :: before[id].state == Running && before[id].owner == owner
            invariant forall id | id in table ::
              table[id] == (if before[id].state == Running && before[id].owner == owner && id !in running
                            then Orphaned(before[id]) else before[id])
          {
            var id :| id in running;
            running := running - {id};
            table := table[id := Orphaned(table[id])];
          }
        }
      }
    }

    method Retire(expired: set<OpId>)
      modifies this
      ensures table == Retired(old(table), expired)
    {
      table := map id | id in table && !(id in expired && table[id].state != Running) :: table[id];
    }
  }

  /** What `begin` tells its caller: refused, replayed, or a new record to run under. */
  datatype Outcome = Conflict(differentRequest: bool) | NeedsReconcile | Replayed(answer: Answer) | Run

  function Told(begun: Begun): Outcome {
    match begun
    case DifferentRequest => Conflict(true)
    case InProgress => Conflict(false)
    case RequiresReconcile => NeedsReconcile
    case Replay(answer) => Replayed(answer)
    case Admitted(_) => Run
  }

  /** The state a row is read in: one found running after its server died stands for a call that ended, a
      read without effect, a write no one knows of. */
  function ReadState(row: Row, instance: nat, alive: set<nat>): State {
    if row.state != Running || row.owner == instance || row.owner in alive then row.state
    else if row.request.readOnly then Cancelled
    else UnknownCommit
  }

  /** What a begin of a client's id is told when an earlier call of it was this. */
  predicate Tells(earlier: Request, state: State, answer: Option<Answer>, request: Request, outcome: Outcome) {
    && (outcome == Conflict(true) <==> earlier != request)
    && (outcome == Conflict(false) <==> earlier == request && state == Running)
    && (outcome == NeedsReconcile <==> earlier == request && state == UnknownCommit)
    && (outcome.Replayed? <==> earlier == request && answer.Some? && state in {Committed, Partial, Failed, Refused, Quarantined})
    && (outcome.Replayed? ==> answer == Some(outcome.answer))
  }

  /** The earlier call is memory's if it has one, else the file's row, else there is none. */
  predicate TellsClient(s: Server, table: Table, id: OpId, request: Request, alive: set<nat>, outcome: Outcome) {
    if id in s.records then
      Tells(s.records[id].request, s.records[id].state, if id in s.results then Some(s.results[id]) else None, request, outcome)
    else if id in table then Tells(table[id].request, ReadState(table[id], s.instance, alive), table[id].answer, request, outcome)
    else outcome == Run
  }

  /** And the row of a server that died is left as it was read, if it was read. */
  predicate ReadInto(s: Server, table: Table, id: OpId, alive: set<nat>, later: Table) {
    later == if id in s.records || id !in table then table
             else table[id := table[id].(state := ReadState(table[id], s.instance, alive))]
  }

  lemma JudgeTells(s: Server, table: Table, id: OpId, request: Request, alive: set<nat>, record: Record)
    ensures TellsClient(s, table, id, request, alive, Told(Judge(Lookup(s, table, id, alive), request, record)))
    ensures ReadInto(s, table, id, alive, Reconciled(s, table, id, alive))
  {
    if id in table {
      assert ReadState(table[id], s.instance, alive) == table[id].state ==> table == table[id := table[id].(state := ReadState(table[id], s.instance, alive))];
    }
  }

  /** A remembered record's running row written, noted or put off. */
  ghost function Announced(s: Server, table: Table, record: Record): (Server, Table) {
    var running := Upsert(RowOf(record, s.instance, Running, None));
    if record.id.Client? then (s.(queue := []), ExecuteAll(table, s.queue + [running]))
    else if record.request.readOnly then (s.(deferred := s.deferred + {record.id}), table)
    else
      var table' := Execute(table, running);
      (s.(seqs := Noted(s.seqs, record.id, table'[record.id].rowid, s.maxlen)), table')
  }

  /** A finished record's last statement committed, or queued. */
  ghost function FinalWritten(s: Server, table: Table, record: Record, state: State, stored: Option<Answer>): (Server, Table) {
    var statement := FinalStatement(s, record, state, stored);
    var s' := s.(deferred := s.deferred - {record.id},
                 seqs := if record.id in s.deferred || record.id.Client? then s.seqs else Forgotten(s.seqs, record.id));
    if record.id.Client? then (s'.(queue := []), ExecuteAll(table, s.queue + [statement]))
    else (s'.(queue := s.queue + [statement]), table)
  }

  lemma FinishIsFinalWritten(s: Server, table: Table, record: Record, state: State, answer: Option<Answer>, kept: bool)
    ensures var stored := if record.id.Client? && answer.Some? then Some(Stored(answer.value, kept)) else None;
      FinishF(s, table, record, state, answer, kept) ==
        FinalWritten(Closed(s, record, state, answer), table, record.(state := state), state, stored)
  {
  }

  lemma OpenedIsAnnounced(s: Server, table: Table, record: Record)
    ensures Opened(s, table, record) == Announced(Remembered(s, record), table, record)
  {
  }

  class DurableJournal {
    const file: JournalFile
    const instance: nat
    const maxlen: nat
    var order: seq<OpId>                       // _records, oldest first
    var records: map<OpId, OperationRecord>
    var results: map<OpId, Answer>
    var queue: seq<Statement>
    var seqs: seq<Note>
    var deferred: set<OpId>
    ghost var issued: set<OperationRecord>
    ghost var tickets: nat
    ghost var remembered: map<OpId, Record>    // the values of `records`

    ghost predicate Valid()
      reads this`order, this`records, this`remembered, this`results, this`issued, this`tickets, records.Values
    {
      && maxlen >= 1 && remembered.Keys == records.Keys
      && (forall id | id in records :: records[id] in issued && records[id].id == id && remembered[id] == records[id].Value())
      && (forall r | r in issued :: r.ticket < tickets)
      && (forall a, b | a in issued && b in issued && a.ticket == b.ticket :: a == b)
    }

    ghost function View(): Server
      reads this`order, this`remembered, this`results, this`queue, this`seqs, this`deferred
    {
      Server(instance, maxlen, order, remembered, results, queue, seqs, deferred)
    }

    /** `_open`: sweep, then retire. */
    constructor (file: JournalFile, instance: nat, maxlen: nat, alive: set<nat>, expired: set<OpId>)
      requires maxlen >= 1
      modifies file
      ensures Valid() && this.file == file && this.instance == instance && issued == {}
      ensures View() == Server(instance, maxlen, [], map[], map[], [], [], {})
      ensures file.table == Retired(Swept(old(file.table), instance, alive), expired)
      ensures forall id :: id in file.table <==>
        id in old(file.table) && (id in expired ==> ReadState(old(file.table)[id], instance, alive) == Running)
      ensures forall id | id in file.table ::
        file.table[id] == old(file.table)[id].(state := ReadState(old(file.table)[id], instance, alive))
    {
      this.file, this.instance, this.maxlen := file, instance, maxlen;
      order, records, results, queue, seqs, deferred := [], map[], map[], [], [], {};
      issued, tickets, remembered := {}, 0, map[];
      new;
      file.Sweep(instance, alive);
      file.Retire(expired);
    }

    /** `_commit`: the queue first, with `drain`, then the statements, one after another. */
    method Commit(statements: seq<Statement>, drain: bool) returns (rowid: int)
      requires Valid()
      modifies this`queue, file
      ensures Valid() && View() == old(View()).(queue := if drain then [] else old(queue))
      ensures file.table == ExecuteAll(old(file.table), if drain then old(queue) + statements else statements)
      ensures |statements| == 1 && statements[0].Upsert? && !drain ==>
        statements[0].row.id in file.table && rowid == file.table[statements[0].row.id].rowid
    {
      rowid := -1;
      var work := statements;
      if drain {
        work := queue + statements;
        queue := [];
      }
      ghost var table := file.table;
      var i := 0;
      while i < |work|
        invariant 0 <= i <= |work| && queue == if drain then [] else old(queue)
        invariant file.table == ExecuteAll(table, work[..i])
        invariant i > 0 && work[i - 1].Upsert? ==> work[i - 1].row.id in file.table && rowid == file.table[work[i - 1].row.id].rowid
      {
        ExecuteAllAppend(table, work[..i], [work[i]]);
        assert work[..i] + [work[i]] == work[..i + 1];
        assert ExecuteAll(file.table, [work[i]]) == Execute(file.table, work[i]);
        rowid := file.Run(work[i]);
        i := i + 1;
      }
      assert work[..|work|] == work;
    }

    method Flush()
      requires Valid()
      modifies this`queue, file
      ensures Valid() && (View(), file.table) == FlushF(old(View()), old(file.table))
    {
      if queue != [] {
        var _ := Commit([], true);
        assert old(queue) + [] == old(queue);
      }
    }

    method Find(id: OpId, alive: set<nat>) returns (found: Option<Prior>)
      requires Valid()
      modifies file
      ensures found == Lookup(View(), old(file.table), id, alive)
      ensures file.table == Reconciled(View(), old(file.table), id, alive)
    {
      if id in records {
        return Some(Prior(records[id].request, records[id].state, Answered(results, id)));
      }
      if id !in file.table {
        return None;
      }
      var row := file.table[id];
      if row.state == Running && row.owner != instance && row.owner !in alive {
        row := Orphaned(row);
        file.table := file.table[id := row];
      }
      return Some(Prior(row.request, row.state, row.answer));
    }

    /** `_store`: an id's earlier record out, the new one last, the oldest out while there are too
        many. */
    method Store(record: OperationRecord)
      requires Valid() && record !in issued && record.ticket == tickets
      modifies this`order, this`records, this`results, this`remembered, this`issued, this`tickets
      ensures Valid() && issued == old(issued) + {record} && tickets == old(tickets) + 1
      ensures View() == Remembered(old(View()), record.Value())
    {
      Insert(record);
      while |order| > maxlen
        invariant Valid() && issued == old(issued) + {record} && tickets == old(tickets) + 1
        invariant Trimmed(View()) == Remembered(old(View()), record.Value())
      {
        PopOldest();
      }
    }

    method Insert(record: OperationRecord)
      requires Valid() && record !in issued && record.ticket == tickets
      modifies this`order, this`records, this`results, this`remembered, this`issued, this`tickets
      ensures Valid() && issued == old(issued) + {record} && tickets == old(tickets) + 1
      ensures View() == old(View()).(order := Without(old(order), record.id) + [record.id],
                                     records := old(remembered)[record.id := record.Value()], results := old(results) - {record.id})
    {
      issued, tickets := issued + {record}, tickets + 1;
      order := Without(order, record.id) + [record.id];
      results := results - {record.id};
      records := records[record.id := record];
      remembered := remembered[record.id := record.Value()];
    }

    /** `popitem(last=False)`, and the evicted record's answer. */
    method PopOldest()
      requires Valid() && order != []
      modifies this`order, this`records, this`results, this`remembered
      ensures Valid()
      ensures View() == old(View()).(order := old(order)[1..], records := old(remembered) - {old(order)[0]}, results := old(results) - {old(order)[0]})
    {
      var evicted := order[0];
      order := order[1..];
      records := records - {evicted};
      remembered := remembered - {evicted};
      results := results - {evicted};
    }

    /** The running row of a stored record: a client's committed after the queue, a server's own
        committed and its rowid noted, a read's put off. */
    method Announce(record: OperationRecord)
      requires Valid()
      modifies this`queue, this`seqs, this`deferred, file
      ensures Valid() && (View(), file.table) == Announced(old(View()), old(file.table), record.Value().(state := Running))
    {
      var id := record.id;
      var running := Upsert(Row(0, id, record.request, Running, instance, None));
      if id.Client? {
        var _ := Commit([running], true);
      } else if record.request.readOnly {
        deferred := deferred + {id};
      } else {
        var rowid := Commit([running], false);
        assert ExecuteAll(old(file.table), [running]) == Execute(old(file.table), running);
        seqs := Forgotten(seqs, id) + [Note(id, rowid)];
        if |seqs| > maxlen {
          seqs := seqs[1..];
        }
      }
    }

    /** The checks of a client's id. */
    method Check(id: OpId, request: Request, alive: set<nat>) returns (outcome: Outcome)
      requires Valid()
      modifies file
      ensures forall record :: outcome == Told(Judge(Lookup(View(), old(file.table), id, alive), request, record))
      ensures file.table == Reconciled(View(), old(file.table), id, alive)
      ensures TellsClient(View(), old(file.table), id, request, alive, outcome) && ReadInto(View(), old(file.table), id, alive, file.table)
    {
      JudgeTells(View(), file.table, id, request, alive, Record(0, id, request, Running));
      hide TellsClient, ReadInto;
      var found := Find(id, alive);
      outcome := Run;
      if found.Some? {
        var prior := found.value;
        if prior.request != request {
          outcome := Conflict(true);
        } else if prior.state == Running {
          outcome := Conflict(false);
        } else if prior.state == UnknownCommit {
          outcome := NeedsReconcile;
        } else if Replayable(prior.state) && prior.answer.Some? {
          outcome := Replayed(prior.answer.value);
        }
      }
    }

    method Admit(record: OperationRecord)
      requires Valid() && record !in issued && record.ticket == tickets && record.state == Running
      modifies this, file
      ensures Valid() && issued == old(issued) + {record} && tickets == old(tickets) + 1
      ensures (View(), file.table) == Opened(old(View()), old(file.table), record.Value())
    {
      OpenedIsAnnounced(View(), file.table, record.Value());
      Store(record);
      Announce(record);
    }

    /** `begin`: the in-memory journal's answer, then the running row. */
    method Begin(request: Request, name: Option<string>, uuid: nat, alive: set<nat>)
      returns (outcome: Outcome, record: OperationRecord?)
      requires Valid()
      modifies this, file
      ensures Valid() && old(issued) <= issued
      ensures var id := if name.Some? then Client(name.value) else Minted(uuid);
        var (begun, s', table') := BeginF(old(View()), old(file.table), Record(old(tickets), id, request, Running), alive);
        outcome == Told(begun) && View() == s' && file.table == table'
      ensures if name.Some? then TellsClient(old(View()), old(file.table), Client(name.value), request, alive, outcome) else outcome == Run
      ensures outcome.Run? <==> record != null
      ensures record != null ==> fresh(record) && record in issued && record.ticket == old(tickets) && record.state == Running
    {
      hide TellsClient, ReadInto;
      record := null;
      var id := if name.Some? then Client(name.value) else Minted(uuid);
      outcome := Run;
      if name.Some? {
        outcome := Check(id, request, alive);
      }
      if outcome.Run? {
        record := new OperationRecord(id, request, tickets);
        assert record.Value() == Record(old(tickets), id, request, Running);
        Admit(record);
      }
    }

    /** `finish` in memory. */
    method Close(record: OperationRecord, state: State, answer: Option<Answer>)
      requires Valid() && record in issued
      modifies this`results, this`remembered, record
      ensures Valid() && record.state == state
      ensures View() == Closed(old(View()), old(record.Value()), state, answer)
    {
      record.state := state;
      if answer.Some? && record.id.Client? && record.id in records && records[record.id] == record {
        results := results[record.id := answer.value];
      }
      remembered := SetState(remembered, record.ticket, state);
    }

    /** A client's final state committed with the queue before the call returns, any other queued. */
    method WriteFinal(record: OperationRecord, state: State, stored: Option<Answer>)
      requires Valid()
      modifies this`queue, this`seqs, this`deferred, file
      ensures Valid()
      ensures (View(), file.table) == FinalWritten(old(View()), old(file.table), record.Value(), state, stored)
    {
      var statement;
      if record.id in deferred {
        statement := Upsert(Row(0, record.id, record.request, state, instance, stored));
      } else if record.id.Client? {
        statement := SetClient(record.id, instance, state, stored);
      } else {
        statement := SetBySeq(record.id, SeqFor(seqs, record.id), instance, state);
        seqs := Forgotten(seqs, record.id);
      }
      deferred := deferred - {record.id};
      if record.id.Client? {
        var _ := Commit([statement], true);
      } else {
        queue := queue + [statement];
      }
    }

    method Finish(record: OperationRecord, state: State, answer: Option<Answer>, kept: bool)
      requires Valid() && record in issued
      modifies this, record, file
      ensures Valid() && issued == old(issued) && record.state == state
      ensures (View(), file.table) == FinishF(old(View()), old(file.table), old(record.Value()), state, answer, kept)
    {
      FinishIsFinalWritten(View(), file.table, record.Value(), state, answer, kept);
      Close(record, state, answer);
      var stored := if record.id.Client? && answer.Some? then Some(Stored(answer.value, kept)) else None;
      WriteFinal(record, state, stored);
    }
  }
}
