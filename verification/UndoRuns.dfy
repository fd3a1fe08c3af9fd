/** Runs of a document over its steps: edits, saves, labels, transactions, undo, redo, restores, rows lost
    to other drawings' evictions, kills and reopens. What every reachable document keeps, and so what undo
    and redo do wherever a run has come to.
    `Ok` holds of every document of a run. Two things more hold but for one kind of step each, and the step
    is named exactly: `Moorings`, that whatever holds the current revision is undone from one place, which
    a reopen can lose (`LosesBase`); and `Capped`, that the newest in-memory step is the content, which a
    rollback can undo (`Uncaps`). The last part has a run for each, and one for an edit after a store undo. */
module UndoRuns {

  import opened Wrappers
  import opened UndoRedo

  /** The saved file, as its lineage record names it. */
  datatype File = File(drawing: string, revision: nat)

  datatype Session = Session(doc: Doc, begun: seq<Begun>, file: Option<File>)

  datatype Event =
    | Edit(drawing: string)
    | SaveFile(sha: string, gone: set<nat>)
    | AddLabel(sha: string, gone: set<nat>)
    | BeginTransaction(most: nat)
    | CommitTransaction(sha: string, gone: set<nat>)
    | RollBack(sha: string, gone: set<nat>)
    | StepBack(sha: string, gone: set<nat>)
    | StepForward
    | Restore(cp: nat, sha: string, gone: set<nat>)
    | LoseRows(gone: set<nat>)
    | Reopen(drawing: string, revision: nat, sha: string, continued: bool, depth: nat, gone: set<nat>)

  /** A reopen goes on at the recorded revision if nothing was issued since, with the recorded drawing; or
      it is above everything issued, with whatever the file holds. */
  predicate Enabled(x: Session, e: Event) {
    match e
    case CommitTransaction(_, _) => x.begun != []
    case RollBack(_, _) => x.begun != []
    case Restore(cp, _, _) => cp < |Rows(x.doc)| && !Rows(x.doc)[cp].evicted
    case Reopen(drawing, revision, _, continued, _, _) =>
      x.file.Some? && if continued then x.file.value == File(drawing, revision) && revision == x.doc.revision else revision > x.doc.revision
    case _ => true
  }

  function Last(begun: seq<Begun>): Begun
    requires begun != []
  {
    begun[|begun| - 1]
  }

  function Latest(begun: seq<Begun>, most: nat): seq<Begun> {
    if |begun| > most then begun[|begun| - most..] else begun
  }

  function Next(x: Session, e: Event): Session
    requires Enabled(x, e)
  {
    var s := x.doc;
    match e
    case Edit(drawing) => x.(doc := Changed(s, drawing))
    case SaveFile(sha, gone) => x.(doc := Saved(s, sha, gone), file := Some(File(s.drawing, s.revision)))
    case AddLabel(sha, gone) => x.(doc := Labelled(s, sha, gone))
    case BeginTransaction(most) => x.(begun := Latest(x.begun + [Begun(s.drawing, s.revision, Effective(s))], most))
    case CommitTransaction(sha, gone) =>
      x.(doc := TransactionKept(s, Last(x.begun), sha, gone), begun := x.begun[..|x.begun| - 1])
    case RollBack(sha, gone) =>
      x.(doc := RolledBack(s, Last(x.begun), sha, gone), begun := x.begun[..|x.begun| - 1])
    case StepBack(sha, gone) =>
      x.(doc := match DrawingUndone(s, sha, gone) case Some(next) => next case None => Fresh(s))
    case StepForward =>
      x.(doc := match DrawingRedone(s) case Some(next) => next case None => Fresh(s))
    case Restore(cp, sha, gone) => x.(doc := RestoredTo(s, cp, sha, gone))
    case LoseRows(gone) => x.(doc := s.(rows := Evict(s.rows, gone)))
    case Reopen(drawing, revision, sha, continued, depth, gone) =>
      Session(Opened(s.rows, drawing, revision, sha, continued, depth, gone), [], Some(File(drawing, revision)))
  }

  /** A new drawing, or a file no lineage knows. */
  predicate Starts(x: Session, sha: Option<string>, depth: nat) {
    && x.begun == []
    && if x.file.None? then x.doc == Created(x.doc.drawing, sha, depth)
       else sha.Some? && x.file == Some(File(x.doc.drawing, 0)) && x.doc == Opened([], x.doc.drawing, 0, sha.value, false, depth, {})
  }

  ghost predicate IsRun(xs: seq<Session>, events: seq<Event>) {
    && |xs| == |events| + 1 && (exists sha, depth :: Starts(xs[0], sha, depth))
    && forall i | 0 <= i < |events| :: Enabled(xs[i], events[i]) && xs[i + 1] == Next(xs[i], events[i])
  }

  // ── what every step keeps ──

  /** Without in-memory steps there are none; and where there is one to step back to, there is no store
      branch to redo. */
  predicate StepsOk(s: Doc) {
    (s.depth == 0 ==> s.undo == [] && s.redo == [] && s.parked == map[]) && (|s.undo| >= 2 ==> Fresh(s).storeRedo == [] && Fresh(s).parked == map[])
  }

  predicate FileOk(x: Session) {
    x.file.Some? ==> x.file.value.revision <= x.doc.revision && (x.file.value.revision == x.doc.revision ==> x.file.value.drawing == x.doc.drawing)
  }

  ghost predicate Ok(x: Session) {
    Consistent(x.doc) && StepsOk(x.doc) && FileOk(x) && forall begun | begun in x.begun :: BegunOk(x.doc, begun)
  }

  /** From one document to the next, in one process: a revision keeps its drawing and its base. */
  predicate Onward(s: Doc, next: Doc) {
    && Consistent(next) && StepsOk(next) && s.revision <= next.revision
    && (next.revision == s.revision ==> next.drawing == s.drawing && Effective(next) == Effective(s))
    && (next.revision > s.revision ==> Anchored(next))
  }

  /** Nothing an undo looks at but the rows. */
  predicate OnlyRows(s: Doc, next: Doc) {
    next == s.(rows := next.rows, pending := next.pending, sha := next.sha, shaRev := next.shaRev)
  }

  lemma RowsOnward(s: Doc, next: Doc)
    requires Consistent(next) && StepsOk(s) && OnlyRows(s, next)
    ensures Onward(s, next)
  {
    assert Fresh(next).storeRedo == Fresh(s).storeRedo && Fresh(next).parked == Fresh(s).parked;
  }

  lemma EditOnward(s: Doc, drawing: string)
    requires Consistent(s) && StepsOk(s)
    ensures Onward(s, Changed(s, drawing))
  {
    ChangedConsistent(s, drawing);
    NewRevisionAnchored(s, Changed(s, drawing));
  }

  lemma SavedOnward(s: Doc, sha: string, gone: set<nat>)
    requires Consistent(s) && StepsOk(s)
    ensures Onward(s, Saved(s, sha, gone)) && Onward(s, Labelled(s, sha, gone)) && OnlyRows(s, Saved(s, sha, gone)) && OnlyRows(s, Labelled(s, sha, gone))
  {
    hide Consistent, StepsOk, Onward;
    SavedConsistent(s, sha, gone);
    LabelledConsistent(s, sha, gone);
    RowsOnward(s, Saved(s, sha, gone));
    RowsOnward(s, Labelled(s, sha, gone));
  }

  lemma TransactionOnward(s: Doc, begun: Begun, sha: string, gone: set<nat>)
    requires Consistent(s) && StepsOk(s) && BegunOk(s, begun)
    ensures Onward(s, TransactionKept(s, begun, sha, gone)) && OnlyRows(s, TransactionKept(s, begun, sha, gone))
    ensures Onward(s, RolledBack(s, begun, sha, gone))
  {
    hide Consistent, Anchored;
    TransactionKeptConsistent(s, begun, sha, gone);
    RowsOnward(s, TransactionKept(s, begun, sha, gone));
    RolledBackConsistent(s, begun, sha, gone);
    hide TransactionKept, RolledBack;
  }

  lemma UndoOnward(s: Doc, sha: string, gone: set<nat>)
    requires Consistent(s) && StepsOk(s)
    ensures Onward(s, Fresh(s)) && OnlyRows(Fresh(s), s.(storeRedo := Fresh(s).storeRedo, parked := Fresh(s).parked))
    ensures DrawingUndone(s, sha, gone).Some? ==>
      Onward(s, DrawingUndone(s, sha, gone).value) && DrawingUndone(s, sha, gone).value.revision > s.revision
  {
    hide Undone, Consistent, Anchored, Moored;
    FreshConsistent(s);
    if |s.undo| >= 2 {
      SteppedConsistent(s);
      NewRevisionAnchored(s, StepUndone(s));
    } else if Undone(s, sha, gone).Some? {
      UndoneConsistent(s, sha, gone);
      UndoneShape(s, sha, gone);
    }
  }

  lemma RedoOnward(s: Doc)
    requires Consistent(s) && StepsOk(s)
    ensures DrawingRedone(s).Some? ==> Onward(s, DrawingRedone(s).value) && DrawingRedone(s).value.revision > s.revision
  {
    hide Redone, Consistent, Anchored, Moored;
    FreshConsistent(s);
    if s.redo != [] {
      SteppedConsistent(s);
      NewRevisionAnchored(s, StepRedone(s));
    } else if Redone(s).Some? {
      RedoneConsistent(s);
      RedoneShape(s);
      NewRevisionAnchored(s, Redone(s).value);
    }
  }

  lemma RestoreOnward(s: Doc, cp: nat, sha: string, gone: set<nat>)
    requires Consistent(s) && cp < |Rows(s)|
    ensures Onward(s, RestoredTo(s, cp, sha, gone))
  {
    hide Consistent, Anchored;
    RestoredConsistent(s, cp, sha, gone);
    hide RestoredTo;
  }

  lemma LostOnward(s: Doc, gone: set<nat>)
    requires Consistent(s) && StepsOk(s)
    ensures Onward(s, s.(rows := Evict(s.rows, gone)))
  {
    var next := s.(rows := Evict(s.rows, gone));
    forall i | 0 <= i < |next.rows| ensures RowOk(next, next.rows[i]) {
      assert RowOk(s, s.rows[i]);
    }
    assert next.pending.Some? ==> RowOk(next, s.pending.value);
    RowsOnward(s, next);
  }

  /** One process: every step but a reopen leads onward. */
  lemma NextOnward(x: Session, e: Event)
    requires Ok(x) && Enabled(x, e) && !e.Reopen?
    ensures Onward(x.doc, Next(x, e).doc)
  {
    hide Consistent, StepsOk, Onward, BegunOk, Undone, Redone, Fresh;
    var s := x.doc;
    match e
    case Edit(drawing) => EditOnward(s, drawing);
    case SaveFile(sha, gone) => SavedOnward(s, sha, gone);
    case AddLabel(sha, gone) => SavedOnward(s, sha, gone);
    case BeginTransaction(most) => RowsOnward(s, s);
    case CommitTransaction(sha, gone) => TransactionOnward(s, Last(x.begun), sha, gone);
    case RollBack(sha, gone) => TransactionOnward(s, Last(x.begun), sha, gone);
    case StepBack(sha, gone) => UndoOnward(s, sha, gone);
    case StepForward => UndoOnward(s, "", {}); RedoOnward(s);
    case Restore(cp, sha, gone) => RestoreOnward(s, cp, sha, gone);
    case LoseRows(gone) => LostOnward(s, gone);
  }

  lemma ReopenOk(x: Session, e: Event)
    requires Ok(x) && Enabled(x, e) && e.Reopen?
    ensures Ok(Next(x, e))
  {
    forall i | 0 <= i < |x.doc.rows| ensures RowOk(x.doc, x.doc.rows[i]) {
    }
    OpenedConsistent(x.doc.rows, e.drawing, e.revision, e.sha, e.continued, e.depth, e.gone);
    OpenedSteps(x.doc.rows, e.drawing, e.revision, e.sha, e.continued, e.depth, e.gone);
  }

  lemma OpenedSteps(rows: seq<Row>, drawing: string, revision: nat, sha: string, continued: bool, depth: nat, gone: set<nat>)
    ensures var next := Opened(rows, drawing, revision, sha, continued, depth, gone);
      StepsOk(next) && |next.undo| <= 1 && next.depth == depth && next.pending.None?
  {
  }

  lemma NextOk(x: Session, e: Event)
    requires Ok(x) && Enabled(x, e)
    ensures Ok(Next(x, e))
  {
    if e.Reopen? {
      ReopenOk(x, e);
    } else {
      NextOnward(x, e);
      SessionOnward(x, e);
    }
  }

  lemma EffectiveBelow(s: Doc)
    requires Consistent(s)
    ensures Effective(s) <= s.revision
  {
  }

  lemma SessionOnward(x: Session, e: Event)
    requires Ok(x) && Enabled(x, e) && !e.Reopen? && Onward(x.doc, Next(x, e).doc)
    ensures Ok(Next(x, e))
  {
    hide Saved, Labelled, TransactionKept, RolledBack, DrawingUndone, DrawingRedone, RestoredTo, Changed, Evict, Fresh, StepsOk, Consistent;
    EffectiveBelow(x.doc);
    forall begun | begun in Next(x, e).begun ensures BegunOk(Next(x, e).doc, begun) {
      assert begun in x.begun ==> BegunOk(x.doc, begun);
    }
  }

  /** Every document a run comes to is consistent. */
  lemma {:induction false} RunIsOk(xs: seq<Session>, events: seq<Event>, i: nat)
    requires IsRun(xs, events) && i < |xs|
    ensures Ok(xs[i])
  {
    hide Next, Enabled, Ok;
    if i == 0 {
      var sha, depth :| Starts(xs[0], sha, depth);
      StartsOk(xs[0], sha, depth);
    } else {
      RunIsOk(xs, events, i - 1);
      NextOk(xs[i - 1], events[i - 1]);
    }
  }

  lemma StartsOk(x: Session, sha: Option<string>, depth: nat)
    requires Starts(x, sha, depth)
    ensures Ok(x)
  {
    if x.file.Some? {
      OpenedConsistent([], x.doc.drawing, 0, sha.value, false, depth, {});
      OpenedSteps([], x.doc.drawing, 0, sha.value, false, depth, {});
    }
  }

  // ── where a revision is undone from ──

  /** What holds the current revision, a row or an open transaction, is undone from where it is. */
  ghost predicate Moorings(x: Session) {
    Anchored(x.doc) && forall begun | begun in x.begun && begun.rev == x.doc.revision :: begun.base == Effective(x.doc)
  }

  predicate NewestIsCurrent(s: Doc) {
    var newest := Live(s.rows);
    newest.Some? && s.rows[newest.value].rev == s.revision
  }

  /** A reopen at the revision it had, reached by an undo, that does not find that revision newest. */
  predicate LosesBase(x: Session, e: Event) {
    && e.Reopen? && e.revision == x.doc.revision && !NewestIsCurrent(x.doc) && Effective(x.doc) != x.doc.revision
    && exists i :: 0 <= i < |x.doc.rows| && x.doc.rows[i].rev == x.doc.revision
  }

  lemma AddAnchored(s: Doc, row: Row, gone: set<nat>)
    requires Consistent(s) && Anchored(s) && row.rev <= s.revision && (row.rev == s.revision ==> row.base == Effective(s))
    ensures Anchored(Add(s, row, gone))
  {
    EffectiveBelow(s);
    var next := Add(s, row, gone);
    assert Rows(next) == next.rows && Effective(next) == Effective(s);
    forall i | 0 <= i < |next.rows| && next.rows[i].rev == s.revision ensures next.rows[i].base == Effective(s) {
      assert i < |Rows(s)| ==> Rows(s)[i].rev == s.revision;
    }
  }

  lemma NotedAnchored(s: Doc, sha: string)
    requires Anchored(s)
    ensures Anchored(s.(sha := Some(sha), shaRev := s.revision))
  {
    var noted := s.(sha := Some(sha), shaRev := s.revision);
    assert Rows(noted) == Rows(s) && Effective(noted) == Effective(s);
  }

  lemma SavedAnchored(s: Doc, sha: string, gone: set<nat>)
    requires Consistent(s) && Anchored(s)
    ensures Anchored(Saved(s, sha, gone)) && Anchored(Labelled(s, sha, gone))
  {
    hide Anchored, Consistent, Add;
    NotedAnchored(s, sha);
    var noted := s.(sha := Some(sha), shaRev := s.revision);
    NotedConsistent(s, sha);
    AddAnchored(noted, Row(Save, s.revision, Effective(s), s.drawing, Some(sha), false), gone);
    var labelled := Row(Label, s.revision, Effective(s), s.drawing, Some(sha), false);
    AddAnchored(s, labelled, gone);
    AddKeepsBase(s, labelled, gone);
    NotedAnchored(Add(s, labelled, gone), sha);
  }

  lemma FreshAnchored(s: Doc)
    requires Consistent(s) && Anchored(s)
    ensures Anchored(Fresh(s))
  {
    FreshConsistent(s);
  }

  lemma LostAnchored(s: Doc, gone: set<nat>)
    requires Anchored(s)
    ensures Anchored(s.(rows := Evict(s.rows, gone)))
  {
    var next := s.(rows := Evict(s.rows, gone));
    assert Effective(next) == Effective(s) && |next.rows| == |s.rows|;
    forall i | 0 <= i < |Rows(next)| && Rows(next)[i].rev == s.revision ensures Rows(next)[i].base == Effective(s) {
      assert Rows(s)[i].rev == s.revision && Rows(s)[i].base == Rows(next)[i].base;
    }
  }

  lemma NextDocAnchored(x: Session, e: Event)
    requires Ok(x) && Moorings(x) && Enabled(x, e) && !e.Reopen?
    ensures Anchored(Next(x, e).doc)
  {
    hide Consistent, StepsOk, BegunOk, Undone, Redone, Fresh, Anchored;
    NextOnward(x, e);
    var s := x.doc;
    match e
    case SaveFile(sha, gone) => SavedAnchored(s, sha, gone);
    case AddLabel(sha, gone) => SavedAnchored(s, sha, gone);
    case CommitTransaction(sha, gone) =>
      var begun := Last(x.begun);
      AddAnchored(s, Row(Transaction, begun.rev, begun.base, begun.drawing, Some(sha), false), gone) by {
        assert BegunOk(s, begun);
        assert begun.rev <= s.revision by {
          BegunBelow(s, begun);
        }
      }
    case StepBack(sha, gone) => FreshAnchored(s); UndoOnward(s, sha, gone);
    case StepForward => FreshAnchored(s); RedoOnward(s);
    case LoseRows(gone) => LostAnchored(s, gone);
    case _ =>
  }

  lemma BegunBelow(s: Doc, begun: Begun)
    requires BegunOk(s, begun)
    ensures begun.rev <= s.revision
  {
  }

  lemma OpenedAnchored(rows: seq<Row>, drawing: string, revision: nat, sha: string, continued: bool, depth: nat, gone: set<nat>)
    requires Resumable(rows, drawing, revision)
    ensures var next := Opened(rows, drawing, revision, sha, continued, depth, gone);
      Anchored(next) <==> forall i | 0 <= i < |rows| && rows[i].rev == revision :: rows[i].base == Effective(next)
  {
    var next, newest := Opened(rows, drawing, revision, sha, continued, depth, gone), Live(rows);
    OpenedConsistent(rows, drawing, revision, sha, continued, depth, gone);
    OpenedSteps(rows, drawing, revision, sha, continued, depth, gone);
    if newest.Some? && (rows[newest.value].sha == Some(sha) || (continued && rows[newest.value].rev == revision)) {
      assert Rows(next) == rows;
    } else {
      OpenAdds(rows, drawing, revision, sha, continued, depth, gone);
      var s := Pushed(Doc(drawing, revision, None, Some(sha), revision, [], map[], [], [], rows, None, depth));
      AddedRows(s, Row(Kind.Open, revision, revision, drawing, Some(sha), false), gone);
      hide Opened;
      assert Rows(next) == next.rows;
      forall i | 0 <= i < |rows| && Anchored(next) && rows[i].rev == revision ensures rows[i].base == Effective(next) {
        assert Rows(next)[i].rev == revision;
      }
    }
  }

  lemma AddedRows(s: Doc, row: Row, gone: set<nat>)
    requires s.pending.None? && row.base <= row.rev
    ensures var rows := Add(s, row, gone).rows;
      && |rows| == |s.rows| + 1 && rows[|s.rows|] == row.(evicted := false)
      && forall i | 0 <= i < |s.rows| :: rows[i].rev == s.rows[i].rev && rows[i].base == s.rows[i].base
  {
  }

  /** A reopen keeps the moorings unless it loses the base; and at the revision it had it is undone from
      the same place exactly if it finds that revision newest, or no undo had led there. */
  lemma ReopenMoors(x: Session, e: Event)
    requires Ok(x) && Anchored(x.doc) && Enabled(x, e) && e.Reopen?
    ensures Moorings(Next(x, e)) <==> !LosesBase(x, e)
    ensures e.continued ==> (Effective(Next(x, e).doc) == Effective(x.doc) <==> NewestIsCurrent(x.doc) || Effective(x.doc) == x.doc.revision)
  {
    var s, next := x.doc, Next(x, e).doc;
    ReopenResumable(x, e);
    OpenedConsistent(s.rows, e.drawing, e.revision, e.sha, e.continued, e.depth, e.gone);
    OpenedAnchored(s.rows, e.drawing, e.revision, e.sha, e.continued, e.depth, e.gone);
    hide Opened, Anchored;
    forall i | 0 <= i < |s.rows| && s.rows[i].rev == s.revision ensures s.rows[i].base == Effective(s) {
      RowAnchored(s, i);
    }
  }

  lemma RowAnchored(s: Doc, i: nat)
    requires Anchored(s) && i < |s.rows| && s.rows[i].rev == s.revision
    ensures s.rows[i].base == Effective(s)
  {
    assert Rows(s) == s.rows;
  }

  lemma ReopenResumable(x: Session, e: Event)
    requires Ok(x) && Enabled(x, e) && e.Reopen?
    ensures Resumable(x.doc.rows, e.drawing, e.revision)
    ensures e.revision > x.doc.revision ==> forall i | 0 <= i < |x.doc.rows| :: x.doc.rows[i].rev < e.revision
  {
    forall i | 0 <= i < |x.doc.rows| ensures RowOk(x.doc, x.doc.rows[i]) {
    }
  }

  /** Every step keeps the moorings, but a reopen that loses the base. */
  lemma NextMoors(x: Session, e: Event)
    requires Ok(x) && Moorings(x) && Enabled(x, e)
    ensures Moorings(Next(x, e)) <==> !LosesBase(x, e)
  {
    if e.Reopen? {
      ReopenMoors(x, e);
    } else {
      NextOnward(x, e);
      NextDocAnchored(x, e);
      BegunMoored(x, e);
    }
  }

  lemma BegunMoored(x: Session, e: Event)
    requires Ok(x) && Moorings(x) && Enabled(x, e) && !e.Reopen? && Onward(x.doc, Next(x, e).doc)
    ensures forall begun | begun in Next(x, e).begun && begun.rev == Next(x, e).doc.revision :: begun.base == Effective(Next(x, e).doc)
  {
    hide Saved, Labelled, TransactionKept, RolledBack, DrawingUndone, DrawingRedone, RestoredTo, Changed, Evict, Fresh, StepsOk, Consistent, Anchored;
    var next := Next(x, e);
    forall begun | begun in next.begun && begun.rev == next.doc.revision ensures begun.base == Effective(next.doc) {
      if begun in x.begun {
        assert BegunOk(x.doc, begun);
      }
    }
  }

  // ── the newest in-memory step ──

  /** Where there is a step to step back to, the newest one is the current content. */
  predicate Capped(s: Doc) {
    |s.undo| >= 2 ==> s.undo[|s.undo| - 1] == Snap(s.drawing, Effective(s))
  }

  /** A rollback takes the drawing from under the newest step. */
  predicate Uncaps(x: Session, e: Event) {
    && e.RollBack? && x.begun != [] && |x.doc.undo| >= 2
    && x.doc.undo[|x.doc.undo| - 1] != Snap(Last(x.begun).drawing, Last(x.begun).base)
  }

  lemma EditCaps(s: Doc, drawing: string)
    requires Consistent(s) && StepsOk(s)
    ensures Capped(Changed(s, drawing))
  {
  }

  lemma StepsCap(s: Doc)
    ensures |s.undo| >= 2 ==> Capped(StepUndone(s))
    ensures s.redo != [] ==> Capped(StepRedone(s))
  {
    hide Restepped;
    if |s.undo| >= 2 {
      var top := |s.undo| - 1;
      ResteppedIs(s.(redo := s.redo + [s.undo[top]], undo := s.undo[..top]), s.undo[top - 1]);
    }
    if s.redo != [] {
      var top := |s.redo| - 1;
      ResteppedIs(s.(undo := s.undo + [s.redo[top]], redo := s.redo[..top]), s.redo[top]);
    }
  }

  /** Every step keeps the newest step the content, but such a rollback. */
  lemma NextCaps(x: Session, e: Event)
    requires Ok(x) && Capped(x.doc) && Enabled(x, e)
    ensures Capped(Next(x, e).doc) <==> !Uncaps(x, e)
  {
    hide Consistent, StepsOk, Undone, Redone, Fresh, Saved, Labelled, TransactionKept, RestoredTo, Opened, RolledBack;
    var s := x.doc;
    match e
    case Edit(drawing) => EditCaps(s, drawing);
    case SaveFile(sha, gone) => SavedOnward(s, sha, gone); OnlyRowsCap(s, Saved(s, sha, gone));
    case AddLabel(sha, gone) => SavedOnward(s, sha, gone); OnlyRowsCap(s, Labelled(s, sha, gone));
    case BeginTransaction(most) =>
    case CommitTransaction(sha, gone) =>
      TransactionOnward(s, Last(x.begun), sha, gone);
      OnlyRowsCap(s, TransactionKept(s, Last(x.begun), sha, gone));
    case RollBack(sha, gone) => RolledBackConsistent(s, Last(x.begun), sha, gone);
    case StepBack(sha, gone) =>
      StepsCap(s);
      FreshConsistent(s);
      if |s.undo| < 2 && Undone(s, sha, gone).Some? {
        UndoneConsistent(s, sha, gone);
      }
    case StepForward =>
      StepsCap(s);
      FreshConsistent(s);
      if s.redo == [] && Redone(s).Some? {
        RedoneShape(s);
      }
    case Restore(cp, sha, gone) => RestoredConsistent(s, cp, sha, gone);
    case LoseRows(gone) => OnlyRowsCap(s, s.(rows := Evict(s.rows, gone)));
    case Reopen(drawing, revision, sha, continued, depth, gone) =>
      OpenedSteps(s.rows, drawing, revision, sha, continued, depth, gone);
  }

  lemma OnlyRowsCap(s: Doc, next: Doc)
    requires OnlyRows(s, next)
    ensures Capped(next) == Capped(s)
  {
  }

  // ── undo and redo, wherever a run has come to ──

  ghost predicate Quiet(xs: seq<Session>, events: seq<Event>, i: nat)
    requires i <= |events| < |xs|
  {
    forall k | 0 <= k < i :: !LosesBase(xs[k], events[k]) && !Uncaps(xs[k], events[k])
  }

  lemma {:induction false} RunMoors(xs: seq<Session>, events: seq<Event>, i: nat)
    requires IsRun(xs, events) && i < |xs| && forall k | 0 <= k < i :: !LosesBase(xs[k], events[k])
    ensures Moorings(xs[i])
  {
    hide Next, Enabled, Ok, Moorings;
    if i == 0 {
      var sha, depth :| Starts(xs[0], sha, depth);
      StartsMoored(xs[0], sha, depth);
    } else {
      RunIsOk(xs, events, i - 1);
      RunMoors(xs, events, i - 1);
      NextMoors(xs[i - 1], events[i - 1]);
    }
  }

  lemma StartsMoored(x: Session, sha: Option<string>, depth: nat)
    requires Starts(x, sha, depth)
    ensures Moorings(x) && Capped(x.doc)
  {
    if x.file.Some? {
      OpenedAnchored([], x.doc.drawing, 0, sha.value, false, depth, {});
      OpenedSteps([], x.doc.drawing, 0, sha.value, false, depth, {});
    }
  }

  lemma {:induction false} RunCaps(xs: seq<Session>, events: seq<Event>, i: nat)
    requires IsRun(xs, events) && i < |xs| && forall k | 0 <= k < i :: !Uncaps(xs[k], events[k])
    ensures Capped(xs[i].doc)
  {
    hide Next, Enabled, Ok, Capped;
    if i == 0 {
      var sha, depth :| Starts(xs[0], sha, depth);
      StartsMoored(xs[0], sha, depth);
    } else {
      RunIsOk(xs, events, i - 1);
      RunCaps(xs, events, i - 1);
      NextCaps(xs[i - 1], events[i - 1]);
    }
  }

  /** Wherever a run has come to, the store can be stepped back no more often than the effective
      revision. */
  lemma RunUndosRunOut(xs: seq<Session>, events: seq<Event>, i: nat, steps: seq<Step>)
    requires IsRun(xs, events) && i < |xs| && UndoneAll(xs[i].doc, steps).Some?
    ensures Effective(UndoneAll(xs[i].doc, steps).value) + |steps| <= Effective(xs[i].doc)
  {
    RunIsOk(xs, events, i);
    UndosRunOut(xs[i].doc, steps);
  }

  /** And any number of undos taken back by as many redos; back at the start, unless a reopen had lost
      the base or a rollback had gone under the newest in-memory step. */
  lemma RunRedosInvertUndos(xs: seq<Session>, events: seq<Event>, i: nat, shas: seq<string>)
    requires IsRun(xs, events) && i < |xs| && UndoneTimes(xs[i].doc, shas).Some?
    ensures var s := xs[i].doc; var u := UndoneTimes(s, shas).value;
      && RedoneTimes(u, |shas|).Some?
      && var back := RedoneTimes(u, |shas|).value;
      && (Same(back, s) <==> shas == [] || Retraceable(s)) && (Quiet(xs, events, i) ==> Same(back, s))
  {
    hide UndoneTimes, RedoneTimes, Same, Next, Enabled, Anchored, Moored;
    RunIsOk(xs, events, i);
    RedosInvertUndos(xs[i].doc, shas);
    if Quiet(xs, events, i) {
      RunMoors(xs, events, i);
      RunCaps(xs, events, i);
      AnchoredIsMoored(xs[i].doc);
    }
  }

  /** After a kill a reopen at the recorded revision undoes from the same place exactly if the newest live
      checkpoint, when at that revision, says so, and otherwise no undo had led to it. While no reopen has
      lost the base before, one at that revision always does. */
  lemma RunReopenKeepsBaseIff(xs: seq<Session>, events: seq<Event>, i: nat)
    requires IsRun(xs, events) && i < |events| && events[i].Reopen? && events[i].continued
    ensures var s, next := xs[i].doc, xs[i + 1].doc;
      && next.drawing == s.drawing && next.revision == s.revision
      && (Effective(next) == Effective(s) <==> if NewestIsCurrent(s) then NewestAnchored(s) else Effective(s) == s.revision)
      && ((forall k | 0 <= k < i :: !LosesBase(xs[k], events[k])) && NewestIsCurrent(s) ==> NewestAnchored(s))
  {
    RunIsOk(xs, events, i);
    ReopenResumable(xs[i], events[i]);
    var s, e := xs[i].doc, events[i];
    OpenedConsistent(s.rows, e.drawing, e.revision, e.sha, e.continued, e.depth, e.gone);
    if forall k | 0 <= k < i :: !LosesBase(xs[k], events[k]) {
      RunMoors(xs, events, i);
      hide Opened;
      if NewestIsCurrent(s) {
        RowAnchored(s, Live(s.rows).value);
      }
    }
  }

  /** An edit and the in-memory undo of it are back at content and effective revision exactly if the
      newest step had been both. */
  lemma EditUndoneIff(s: Doc, drawing: string)
    requires s.depth >= 1 && s.undo != []
    ensures var edited := Changed(s, drawing);
      && |edited.undo| >= 2
      && (StepUndone(edited).drawing == s.drawing && Effective(StepUndone(edited)) == Effective(s)
          <==> s.undo[|s.undo| - 1] == Snap(s.drawing, Effective(s)))
  {
    hide Restepped;
    var edited := Changed(s, drawing);
    var all := s.undo + [Snap(drawing, s.revision + 1)];
    assert edited.undo == if |all| > s.depth + 1 then all[|all| - (s.depth + 1)..] else all;
    var top := |edited.undo| - 1;
    assert edited.undo[top - 1] == s.undo[|s.undo| - 1];
    ResteppedIs(edited.(redo := edited.redo + [edited.undo[top]], undo := edited.undo[..top]), edited.undo[top - 1]);
  }

  /** Which it never is after a store undo: the step is at the new revision, above the effective one. */
  lemma StoreUndoIsUnder(s: Doc, sha: string, gone: set<nat>)
    requires Consistent(s) && s.depth >= 1 && Undone(s, sha, gone).Some?
    ensures var u := Undone(s, sha, gone).value; u.undo != [] && u.undo[|u.undo| - 1].rev > Effective(u)
  {
    hide Undone, Captured, Consistent;
    UndoneShape(s, sha, gone);
    UndoneConsistent(s, sha, gone);
    FreshConsistent(s);
    CapturedConsistent(Fresh(s), PreUndo, sha, gone);
    EffectiveBelow(s);
  }

  // ── three runs ──

  /** Nothing the rows before `k` hold is below, and row `k` is the best. */
  lemma BestIs(s: Doc, rows: seq<Row>, k: nat)
    requires k < |rows| && Candidate(s, rows[k])
    requires forall i | 0 <= i < |rows| && i != k && Candidate(s, rows[i]) :: Later(rows, k, i)
    ensures Best(s, rows, |rows|) == Some(k)
  {
  }

  predicate Leads(x: Session, e: Event, next: Session) {
    Enabled(x, e) && next == Next(x, e)
  }

  lemma LeadsOn(xs: seq<Session>, events: seq<Event>, sha: Option<string>, depth: nat)
    requires |xs| == |events| + 1 && Starts(xs[0], sha, depth)
    requires forall i | 0 <= i < |events| :: Leads(xs[i], events[i], xs[i + 1])
    ensures IsRun(xs, events)
  {
    hide Next, Enabled, Starts;
    forall i | 0 <= i < |events| ensures Enabled(xs[i], events[i]) && xs[i + 1] == Next(xs[i], events[i]) {
      assert Leads(xs[i], events[i], xs[i + 1]);
    }
  }

  function OneRow(kind: Kind, rev: nat, base: nat, drawing: string, sha: Option<string>): Row {
    Row(kind, rev, base, drawing, sha, false)
  }

  /** The store after "B" was saved over the new drawing "A", undone to "A" within a transaction, and "A"
      saved before the transaction was closed. */
  function TangledRows(): seq<Row> {
    [OneRow(New, 0, 0, "A", None), OneRow(Save, 1, 1, "B", Some("b")), OneRow(Save, 2, 0, "A", Some("a")),
     OneRow(Transaction, 1, 1, "B", Some("t"))]
  }

  function Tangle(): seq<Event> {
    [Edit("B"), SaveFile("b", {}), BeginTransaction(5), StepBack("", {}), SaveFile("a", {}), CommitTransaction("t", {}),
     Reopen("A", 2, "a", true, 0, {}), StepBack("", {})]
  }

  lemma TangleBegins() returns (x0: Session, x1: Session, x2: Session, x3: Session)
    ensures Starts(x0, None, 0) && Leads(x0, Edit("B"), x1) && Leads(x1, SaveFile("b", {}), x2) && Leads(x2, BeginTransaction(5), x3)
    ensures x3 == Session(SavedB(0, None, []), [Begun("B", 1, 1)], Some(File("B", 1)))
  {
    x0 := Session(Created("A", None, 0), [], None);
    x1 := Next(x0, Edit("B"));
    x2 := Next(x1, SaveFile("b", {}));
    assert Evict([OneRow(New, 0, 0, "A", None)], {}) == [OneRow(New, 0, 0, "A", None)];
    assert x2.doc.rows == TangledRows()[..2];
    x3 := Next(x2, BeginTransaction(5));
  }

  function SavedB(depth: nat, base: Option<Base>, undo: seq<Snap>): Doc {
    Doc("B", 1, base, Some("b"), 1, [], map[], undo, [], TangledRows()[..2], None, depth)
  }

  /** What the undo of the saved "B" leaves. */
  function BackAtA(depth: nat): Doc {
    Doc("A", 2, Some(Base(0, 2)), None, 2, [1], map[], if depth == 0 then [] else [Snap("A", 2)], [], TangledRows()[..2], None, depth)
  }

  lemma UndoneToA(depth: nat, base: Option<Base>, undo: seq<Snap>)
    requires |undo| < 2 && base in {None, Some(Base(1, 1))}
    ensures DrawingUndone(SavedB(depth, base, undo), "", {}) == Some(BackAtA(depth))
  {
    var s := SavedB(depth, base, undo);
    BestIs(s, s.rows, 0);
    assert Holder(s.rows, 1) == Some(1);
    assert Captured(Fresh(s), PreUndo, "", {}) == (s, 1);
    UndoneShape(s, "", {});
    assert [] + [1] == [1];
  }

  lemma UndoneTo(s: Doc, k: nat)
    requires |s.undo| < 2 && k < |Rows(s)| && Best(s, Rows(s), |Rows(s)|) == Some(k)
    ensures DrawingUndone(s, "", {}).Some? && DrawingUndone(s, "", {}).value.drawing == Rows(s)[k].drawing
  {
    hide Best, Captured;
    UndoneShape(s, "", {});
  }

  lemma TangleSaves(x4: Session) returns (x5: Session, x6: Session)
    requires x4 == Session(BackAtA(0), [Begun("B", 1, 1)], Some(File("B", 1)))
    ensures Leads(x4, SaveFile("a", {}), x5) && Leads(x5, CommitTransaction("t", {}), x6)
    ensures x6 == Session(BackAtA(0).(rows := TangledRows(), sha := Some("a")), [], Some(File("A", 2)))
  {
    x5 := Next(x4, SaveFile("a", {}));
    assert Evict(TangledRows()[..2], {}) == TangledRows()[..2];
    assert x5.doc.rows == TangledRows()[..3];
    x6 := Next(x5, CommitTransaction("t", {}));
    assert Evict(TangledRows()[..3], {}) == TangledRows()[..3];
    assert x6.doc.rows == TangledRows();
  }

  lemma TangleReopens(x6: Session) returns (x7: Session)
    requires x6 == Session(BackAtA(0).(rows := TangledRows(), sha := Some("a")), [], Some(File("A", 2)))
    ensures Undone(x6.doc, "", {}).None? && Effective(x6.doc) == 0 && LosesBase(x6, Reopen("A", 2, "a", true, 0, {}))
    ensures Leads(x6, Reopen("A", 2, "a", true, 0, {}), x7)
    ensures x7.doc == Doc("A", 2, None, Some("a"), 2, [], map[], [], [], TangledRows() + [OneRow(Kind.Open, 2, 2, "A", Some("a"))], None, 0)
  {
    assert x6.doc.rows[2].rev == 2;
    assert Live(TangledRows()) == Some(3);
    assert Evict(TangledRows(), {}) == TangledRows();
    x7 := Next(x6, Reopen("A", 2, "a", true, 0, {}));
  }

  lemma TangleEnds(x: Session) returns (next: Session)
    requires x.doc == Doc("A", 2, None, Some("a"), 2, [], map[], [], [], TangledRows() + [OneRow(Kind.Open, 2, 2, "A", Some("a"))], None, 0)
    ensures Leads(x, StepBack("", {}), next) && next.doc.drawing == "B"
  {
    BestIs(x.doc, x.doc.rows, 3);
    UndoneTo(x.doc, 3);
    hide DrawingUndone;
    next := Next(x, StepBack("", {}));
  }

  lemma UndoesToA(x: Session, depth: nat) returns (next: Session)
    requires x.doc == SavedB(depth, None, []) || x.doc == SavedB(depth, Some(Base(1, 1)), [Snap("B", 1)])
    ensures Leads(x, StepBack("", {}), next) && next == x.(doc := BackAtA(depth))
  {
    UndoneToA(depth, x.doc.base, x.doc.undo);
    hide DrawingUndone;
    next := Next(x, StepBack("", {}));
  }

  /** A reopen loses the base: the undo after it goes on to "B", which the undo before it came from;
      before it there was nothing left to undo. */
  lemma BaseIsLost() returns (xs: seq<Session>)
    ensures IsRun(xs, Tangle()) && xs[6].doc.drawing == "A" && Undone(xs[6].doc, "", {}).None?
    ensures LosesBase(xs[6], Tangle()[6]) && Effective(xs[6].doc) == 0 && Effective(xs[7].doc) == 2 && xs[8].doc.drawing == "B"
  {
    hide Undone, LosesBase, IsRun, Leads, Starts;
    var x0, x1, x2, x3 := TangleBegins();
    var x4 := UndoesToA(x3, 0);
    var x5, x6 := TangleSaves(x4);
    var x7 := TangleReopens(x6);
    var x8 := TangleEnds(x7);
    xs := [x0, x1, x2, x3, x4, x5, x6, x7, x8];
    LeadsOn(xs, Tangle(), None, 0);
  }

  /** "B" drawn over "A", both in memory; "C" drawn in a transaction and rolled back; one undo, one redo. */
  function Rollback(): seq<Event> {
    [Edit("B"), BeginTransaction(5), Edit("C"), RollBack("b", {}), StepBack("", {}), StepForward]
  }

  predicate InTransaction(x: Session) {
    && x.begun == [Begun("B", 1, 1)] && x.doc.drawing == "C" && x.doc.revision == 2
    && x.doc.undo == [Snap("B", 1), Snap("C", 2)] && x.doc.redo == []
  }

  lemma RollbackBegins() returns (x0: Session, x1: Session, x2: Session, x3: Session)
    ensures Starts(x0, None, 1) && Leads(x0, Edit("B"), x1) && Leads(x1, BeginTransaction(5), x2) && Leads(x2, Edit("C"), x3)
    ensures InTransaction(x3)
  {
    x0 := Session(Created("A", None, 1), [], None);
    x1 := Next(x0, Edit("B"));
    x2 := Next(x1, BeginTransaction(5));
    x3 := Next(x2, Edit("C"));
  }

  lemma RollbackEnds(x3: Session) returns (x4: Session, x5: Session, x6: Session)
    requires InTransaction(x3)
    ensures Leads(x3, RollBack("b", {}), x4) && Leads(x4, StepBack("", {}), x5) && Leads(x5, StepForward, x6)
    ensures Uncaps(x3, RollBack("b", {})) && x4.doc.drawing == "B" && x6.doc.drawing == "C"
  {
    hide Add;
    x4 := Next(x3, RollBack("b", {}));
    AddKeepsBase(x3.doc.(drawing := "B", revision := 3), Row(Transaction, 1, 1, "B", Some("b"), false), {});
    assert x4.doc.undo == x3.doc.undo && x4.doc.redo == [];
    x5 := Next(x4, StepBack("", {}));
    assert x5.doc.redo == [Snap("C", 2)];
    x6 := Next(x5, StepForward);
  }

  /** The rollback's content is gone after an undo and a redo: what it threw away is back. */
  lemma RollbackUncaps() returns (xs: seq<Session>)
    ensures IsRun(xs, Rollback()) && xs[4].doc.drawing == "B" && xs[6].doc.drawing == "C" && Uncaps(xs[3], Rollback()[3])
  {
    hide IsRun, Leads, Starts, Uncaps, InTransaction;
    var x0, x1, x2, x3 := RollbackBegins();
    var x4, x5, x6 := RollbackEnds(x3);
    xs := [x0, x1, x2, x3, x4, x5, x6];
    LeadsOn(xs, Rollback(), None, 1);
  }

  /** "B" saved over "A" and reopened, undone to "A" from the store; "C" drawn and undone in memory; and
      undone again. */
  function Forward(): seq<Event> {
    [Edit("B"), SaveFile("b", {}), Reopen("B", 1, "b", true, 1, {}), StepBack("", {}), Edit("C"), StepBack("", {}), StepBack("", {})]
  }

  lemma ForwardBegins() returns (x0: Session, x1: Session, x2: Session, x3: Session)
    ensures Starts(x0, None, 1) && Leads(x0, Edit("B"), x1) && Leads(x1, SaveFile("b", {}), x2)
    ensures Leads(x2, Reopen("B", 1, "b", true, 1, {}), x3) && x3.doc == SavedB(1, Some(Base(1, 1)), [Snap("B", 1)])
  {
    x0 := Session(Created("A", None, 1), [], None);
    x1 := Next(x0, Edit("B"));
    x2 := Next(x1, SaveFile("b", {}));
    assert Evict([OneRow(New, 0, 0, "A", None)], {}) == [OneRow(New, 0, 0, "A", None)];
    assert x2.doc.rows == TangledRows()[..2];
    assert Live(TangledRows()[..2]) == Some(1);
    x3 := Next(x2, Reopen("B", 1, "b", true, 1, {}));
    assert x3.doc.undo == [Snap("B", 1)];
  }

  function AfterC(): Doc {
    Changed(BackAtA(1), "C")
  }

  lemma UndoneC()
    ensures DrawingUndone(AfterC(), "", {}).Some? && var again := DrawingUndone(AfterC(), "", {}).value;
      && again.drawing == "A" && |again.undo| == 1 && again.rows == TangledRows()[..2] && again.pending.None?
      && Effective(again) == 2 && CurrentSha(again) == None
  {
    var s := AfterC();
    assert s.undo == [Snap("A", 2), Snap("C", 3)];
    ResteppedIs(s.(redo := s.redo + [s.undo[1]], undo := s.undo[..1]), s.undo[0]);
    assert s.undo[..1] == [Snap("A", 2)];
  }

  lemma ForwardEnds(x4: Session) returns (x5: Session, x6: Session, x7: Session)
    requires x4.doc == BackAtA(1)
    ensures Leads(x4, Edit("C"), x5) && Leads(x5, StepBack("", {}), x6) && Leads(x6, StepBack("", {}), x7)
    ensures x6.doc.drawing == "A" && x7.doc.drawing == "B"
  {
    hide DrawingUndone, Changed;
    x5 := Next(x4, Edit("C"));
    UndoneC();
    x6 := Next(x5, StepBack("", {}));
    BestIs(x6.doc, x6.doc.rows, 1);
    UndoneTo(x6.doc, 1);
    x7 := Next(x6, StepBack("", {}));
  }

  /** The last undo goes forward to "B", which the first one came from. */
  lemma UndoGoesForward() returns (xs: seq<Session>)
    ensures IsRun(xs, Forward()) && xs[3].doc.drawing == "B" && xs[4].doc.drawing == "A" && xs[6].doc.drawing == "A" && xs[7].doc.drawing == "B"
  {
    hide IsRun, Leads, Starts;
    var x0, x1, x2, x3 := ForwardBegins();
    var x4 := UndoesToA(x3, 1);
    var x5, x6, x7 := ForwardEnds(x4);
    xs := [x0, x1, x2, x3, x4, x5, x6, x7];
    LeadsOn(xs, Forward(), None, 1);
  }
}
