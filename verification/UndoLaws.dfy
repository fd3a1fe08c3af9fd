/** What the operations of `UndoRedo` do, read off the document's own fields: which row a step goes to,
    what becomes of the content it leaves, and which row each operation adds. */
module UndoLaws {

  import opened Wrappers
  import opened UndoRedo

  /** The rows a document has: a blank drawing's first row counts while there is no other. */
  function Had(s: Doc): seq<Row> {
    if s.rows != [] then s.rows else if s.pending.Some? then [s.pending.value] else []
  }

  /** A row an undo may go to: live, not one an undo took, below the revision the content is undone from,
      and not the current content again. */
  predicate StepsBackTo(s: Doc, row: Row) {
    && !row.evicted && row.kind != PreUndo
    && row.rev < (if s.base.Some? && s.base.value.rev == s.revision then s.base.value.base else s.revision)
    && !(s.sha.Some? && s.shaRev == s.revision && row.sha == s.sha)
  }

  /** Of those the one with the greatest revision, the newest of several. */
  ghost predicate UndoGoesTo(s: Doc, i: nat) {
    && i < |Had(s)| && StepsBackTo(s, Had(s)[i])
    && forall j | 0 <= j < |Had(s)| && j != i && StepsBackTo(s, Had(s)[j]) ::
         Had(s)[j].rev < Had(s)[i].rev || (Had(s)[j].rev == Had(s)[i].rev && j < i)
  }

  /** The content is in a live row. */
  ghost predicate Stored(s: Doc, rows: seq<Row>, cp: nat) {
    cp < |rows| && !rows[cp].evicted && rows[cp].rev == s.revision && rows[cp].drawing == s.drawing
  }

  lemma HadIs(s: Doc)
    ensures Had(s) == Rows(s)
  {
  }

  lemma BestIsTarget(s: Doc)
    ensures Best(s, Rows(s), |Rows(s)|).None? <==> forall i | 0 <= i < |Had(s)| :: !StepsBackTo(s, Had(s)[i])
    ensures forall i: nat :: Best(s, Rows(s), |Rows(s)|) == Some(i) <==> UndoGoesTo(s, i)
  {
    HadIs(s);
    hide Rows, Had;
    var rows := Rows(s);
    forall i | 0 <= i < |rows| ensures Candidate(s, rows[i]) <==> StepsBackTo(s, rows[i]) {
    }
    var best := Best(s, rows, |rows|);
    hide Candidate, StepsBackTo;
    if best.Some? {
      forall j | 0 <= j < |rows| && j != best.value && StepsBackTo(s, rows[j])
        ensures rows[j].rev < rows[best.value].rev || (rows[j].rev == rows[best.value].rev && j < best.value)
      {
        assert Later(rows, best.value, j);
      }
    }
  }

  /** To row `i`'s drawing and base, at a new revision, with one in-memory step at most; and what it left is
      in a live row, on top of the branch to redo. */
  ghost predicate LandsOn(s: Doc, i: nat, next: Doc) {
    && i < |Had(s)| && next.drawing == Had(s)[i].drawing && next.sha == Had(s)[i].sha
    && next.revision == next.shaRev == s.revision + 1 && next.base == Some(Base(Had(s)[i].base, next.revision))
    && next.undo == (if s.depth == 0 then [] else [Snap(next.drawing, next.revision)]) && next.redo == []
    && next.storeRedo != [] && Stored(s, next.rows, next.storeRedo[|next.storeRedo| - 1])
  }

  /** There is nothing to undo exactly when there is no row to go to. */
  ghost predicate UndoLands(s: Doc, undone: Option<Doc>, sha: string, gone: set<nat>) {
    match undone
    case None => forall i | 0 <= i < |Had(s)| :: !StepsBackTo(s, Had(s)[i])
    case Some(next) => (exists i: nat :: UndoGoesTo(s, i) && LandsOn(s, i, next)) && Captures(s, next, PreUndo, sha, gone)
  }

  lemma UndoTarget(s: Doc, sha: string, gone: set<nat>)
    requires Consistent(s)
    ensures UndoLands(s, Undone(s, sha, gone), sha, gone)
  {
    hide Undone, UndoGoesTo, LandsOn, Captures, StepsBackTo, Best, Consistent;
    BestIsTarget(s);
    NoneWithoutBest(s, sha, gone);
    if Undone(s, sha, gone).Some? {
      UndoLandsOn(s, sha, gone);
      assert UndoGoesTo(s, Best(s, Rows(s), |Rows(s)|).value);
    }
  }

  lemma UndoLandsOn(s: Doc, sha: string, gone: set<nat>)
    requires Consistent(s) && Undone(s, sha, gone).Some?
    ensures Best(s, Rows(s), |Rows(s)|).Some? && LandsOn(s, Best(s, Rows(s), |Rows(s)|).value, Undone(s, sha, gone).value)
    ensures Captures(s, Undone(s, sha, gone).value, PreUndo, sha, gone)
  {
    HadIs(s);
    UndoneShape(s, sha, gone);
    hide Captured, Fresh, Best, Undone, Consistent, Moored, Effective, Rows, Had, Captures;
    FreshConsistent(s);
    CapturedConsistent(Fresh(s), PreUndo, sha, gone);
    UndoCaptures(s, sha, gone);
  }

  lemma UndoCaptures(s: Doc, sha: string, gone: set<nat>)
    requires Consistent(s) && Undone(s, sha, gone).Some?
    ensures Captures(s, Undone(s, sha, gone).value, PreUndo, sha, gone)
  {
    hide Captured, Fresh, Best, Undone, Consistent, Rows, Captures;
    UndoneShape(s, sha, gone);
    FreshCaptures(s, PreUndo, sha, gone);
    CapturesOnward(s, Captured(Fresh(s), PreUndo, sha, gone).0, Undone(s, sha, gone).value, PreUndo, sha, gone);
  }

  /** The current content is taken up as a row of this kind, unless a live row of its revision is there. */
  ghost predicate Captures(s: Doc, next: Doc, kind: Kind, sha: string, gone: set<nat>) {
    if exists i :: 0 <= i < |s.rows| && s.rows[i].rev == s.revision && !s.rows[i].evicted
    then next.rows == s.rows && next.pending == s.pending
    else exists row :: IsContent(s, row, kind, sha) && OneAdded(s, next, row, gone)
  }

  lemma CapturesOnward(s: Doc, held: Doc, next: Doc, kind: Kind, sha: string, gone: set<nat>)
    requires Captures(s, held, kind, sha, gone) && next.rows == held.rows && next.pending == held.pending
    ensures Captures(s, next, kind, sha, gone)
  {
    hide IsContent;
  }

  lemma CaptureAddsIff(s: Doc, kind: Kind, sha: string, gone: set<nat>)
    requires Consistent(s)
    ensures Captures(s, Captured(s, kind, sha, gone).0, kind, sha, gone)
  {
    var row := Row(kind, s.revision, Effective(s), s.drawing, Some(sha), false);
    EffectiveBelow(s);
    hide Consistent, OneAdded;
    AddAdds(s, row, gone);
    if Holder(s.rows, s.revision).None? {
      AddedNoted(s, Add(s, row, gone), Captured(s, kind, sha, gone).0, row, gone);
      assert IsContent(s, row, kind, sha);
    }
  }

  lemma FreshCaptures(s: Doc, kind: Kind, sha: string, gone: set<nat>)
    requires Consistent(s)
    ensures Captures(s, Captured(Fresh(s), kind, sha, gone).0, kind, sha, gone)
  {
    FreshConsistent(s);
    CaptureAddsIff(Fresh(s), kind, sha, gone);
    hide Fresh, Consistent, Captured, Holder, Rows;
    var next := Captured(Fresh(s), kind, sha, gone).0;
    if !exists i :: 0 <= i < |s.rows| && s.rows[i].rev == s.revision && !s.rows[i].evicted {
      var row :| IsContent(Fresh(s), row, kind, sha) && OneAdded(Fresh(s), next, row, gone);
      assert IsContent(s, row, kind, sha) && OneAdded(s, next, row, gone);
    }
  }

  lemma NoneWithoutBest(s: Doc, sha: string, gone: set<nat>)
    ensures Undone(s, sha, gone).None? <==> Best(s, Rows(s), |Rows(s)|).None?
  {
    hide Best, Captured, Replaced;
  }

  /** A store redo goes to the row on top of the branch, unless a later change made the branch stale or
      that row was evicted. */
  predicate RedoGoesTo(s: Doc, cp: nat) {
    && s.storeRedo != [] && s.storeRedo[|s.storeRedo| - 1] == cp
    && s.base.Some? && s.base.value.rev == s.revision
    && cp < |s.rows| && !s.rows[cp].evicted
  }

  /** To that row's drawing and base at a new revision, the branch one shorter, and the steps to redo that
      the undo had set aside handed back. */
  ghost predicate RedoLands(s: Doc, cp: nat, next: Doc) {
    && cp < |s.rows| && next.drawing == s.rows[cp].drawing && next.sha == s.rows[cp].sha
    && next.revision == next.shaRev == s.revision + 1 && next.base == Some(Base(s.rows[cp].base, next.revision))
    && next.rows == s.rows && next.storeRedo + [cp] == s.storeRedo && next.parked == s.parked - {cp}
    && next.redo == (if cp in s.parked then s.parked[cp] else [])
    && next.undo == (if s.depth == 0 then [] else [Snap(next.drawing, next.revision)])
  }

  lemma RedoTarget(s: Doc)
    ensures Redone(s).Some? <==> exists cp :: RedoGoesTo(s, cp)
    ensures forall cp: nat | RedoGoesTo(s, cp) :: Redone(s).Some? && RedoLands(s, cp, Redone(s).value)
  {
    if Redone(s).Some? {
      RedoneShape(s);
      assert RedoGoesTo(s, s.storeRedo[|s.storeRedo| - 1]);
    }
  }

  // ── what is added to the store ──

  /** One row more, last; of the others some are evicted now, as `gone` says, and none changed otherwise. */
  ghost predicate OneAdded(s: Doc, next: Doc, row: Row, gone: set<nat>) {
    && next.pending.None? && |next.rows| == |Had(s)| + 1 && next.rows[|Had(s)|] == row && !row.evicted
    && forall i | 0 <= i < |Had(s)| :: next.rows[i] == if i in gone then Had(s)[i].(evicted := true) else Had(s)[i]
  }

  lemma AddAdds(s: Doc, row: Row, gone: set<nat>)
    requires row.base <= row.rev && !row.evicted
    ensures OneAdded(s, Add(s, row, gone), row, gone)
  {
    HadIs(s);
    assert row.(base := if row.base < row.rev then row.base else row.rev, evicted := false) == row;
  }

  /** The current content as a row of this kind. */
  ghost predicate IsContent(s: Doc, row: Row, kind: Kind, sha: string) {
    && row.kind == kind && row.rev == s.revision && row.drawing == s.drawing && row.sha == Some(sha) && !row.evicted
    && row.base == if s.base.Some? && s.base.value.rev == s.revision then s.base.value.base else s.revision
  }

  /** Nothing but the rows, and the digest noted of the content, changed. */
  predicate OnlyStored(s: Doc, next: Doc, sha: string) {
    next == s.(rows := next.rows, pending := next.pending, sha := Some(sha), shaRev := s.revision)
  }

  /** A labelled checkpoint is one row of the current content, whatever rows there are. */
  lemma LabelAdds(s: Doc, sha: string, gone: set<nat>) returns (row: Row)
    requires Consistent(s)
    ensures OneAdded(s, Labelled(s, sha, gone), row, gone) && IsContent(s, row, Label, sha) && OnlyStored(s, Labelled(s, sha, gone), sha)
  {
    row := Row(Label, s.revision, Effective(s), s.drawing, Some(sha), false);
    EffectiveBelow(s);
    hide Consistent, OneAdded;
    AddAdds(s, row, gone);
    AddedNoted(s, Add(s, row, gone), Labelled(s, sha, gone), row, gone);
  }

  /** The last row that is not evicted. */
  ghost predicate NewestLive(rows: seq<Row>, i: nat) {
    i < |rows| && !rows[i].evicted && forall j | i < j < |rows| :: rows[j].evicted
  }

  lemma LiveIs(rows: seq<Row>)
    ensures forall i: nat :: NewestLive(rows, i) <==> Live(rows) == Some(i)
  {
    forall i: nat | NewestLive(rows, i) ensures Live(rows) == Some(i) {
      assert Live(rows).Some?;
    }
  }

  /** A save notes the digest, and adds one row of the current content unless the newest live row is of its
      revision. */
  ghost predicate SaveLands(s: Doc, next: Doc, sha: string, gone: set<nat>) {
    && OnlyStored(s, next, sha)
    && if exists i: nat :: NewestLive(s.rows, i) && s.rows[i].rev == s.revision then next.rows == s.rows && next.pending == s.pending
       else exists row :: IsContent(s, row, Save, sha) && OneAdded(s, next, row, gone)
  }

  lemma SaveAddsIff(s: Doc, sha: string, gone: set<nat>)
    requires Consistent(s)
    ensures SaveLands(s, Saved(s, sha, gone), sha, gone)
  {
    var row := Row(Save, s.revision, Effective(s), s.drawing, Some(sha), false);
    EffectiveBelow(s);
    hide Consistent, OneAdded, NewestLive;
    AddAdds(s, row, gone);
    LiveIs(s.rows);
    var noted := s.(sha := Some(sha), shaRev := s.revision);
    assert Add(noted, row, gone) == Add(s, row, gone).(sha := Some(sha), shaRev := s.revision);
    if !(Live(s.rows).Some? && s.rows[Live(s.rows).value].rev == s.revision) {
      assert Saved(s, sha, gone) == Add(noted, row, gone);
      AddedNoted(s, Add(s, row, gone), Saved(s, sha, gone), row, gone);
      assert IsContent(s, row, Save, sha);
    }
  }

  lemma AddedNoted(s: Doc, added: Doc, next: Doc, row: Row, gone: set<nat>)
    requires OneAdded(s, added, row, gone) && next.rows == added.rows && next.pending == added.pending
    ensures OneAdded(s, next, row, gone)
  {
  }

  lemma EffectiveBelow(s: Doc)
    requires Consistent(s)
    ensures Effective(s) <= s.revision
  {
  }

  /** A commit keeps the drawing of the begin as one row, and nothing else of the document changes. */
  lemma CommitAdds(s: Doc, begun: Begun, sha: string, gone: set<nat>)
    requires begun.base <= begun.rev
    ensures var next := TransactionKept(s, begun, sha, gone);
      && OneAdded(s, next, Row(Transaction, begun.rev, begun.base, begun.drawing, Some(sha), false), gone)
      && next == s.(rows := next.rows, pending := next.pending)
  {
    AddAdds(s, Row(Transaction, begun.rev, begun.base, begun.drawing, Some(sha), false), gone);
  }

  /** A rollback keeps it too, and goes to it at a new revision; the in-memory steps stay. */
  lemma RollbackAdds(s: Doc, begun: Begun, sha: string, gone: set<nat>)
    requires begun.base <= begun.rev
    ensures var next := RolledBack(s, begun, sha, gone);
      && OneAdded(s, next, Row(Transaction, begun.rev, begun.base, begun.drawing, Some(sha), false), gone)
      && next.drawing == begun.drawing && next.revision == next.shaRev == s.revision + 1 && next.sha == Some(sha)
      && next.base == Some(Base(begun.base, next.revision)) && next.storeRedo == [] && next.parked == map[]
      && next.undo == s.undo && next.redo == s.redo
  {
    hide OneAdded;
    var row := Row(Transaction, begun.rev, begun.base, begun.drawing, Some(sha), false);
    AddAdds(s, row, gone);
    var at := s.(drawing := begun.drawing, revision := s.revision + 1);
    assert Add(at, row, gone).rows == Add(s, row, gone).rows;
    AddedNoted(s, Add(s, row, gone), RolledBack(s, begun, sha, gone), row, gone);
  }

  /** A restore goes to the row named, at a new revision that it is undone from, with no branch to redo;
      and the content it replaced is in a live row. */
  ghost predicate RestoreLands(s: Doc, row: Row, next: Doc, sha: string, gone: set<nat>) {
    && next.drawing == row.drawing && next.sha == row.sha && next.revision == next.shaRev == s.revision + 1 && next.base.None?
    && next.undo == (if s.depth == 0 then [] else [Snap(row.drawing, next.revision)])
    && next.redo == [] && next.storeRedo == [] && next.parked == map[]
    && (exists kept: nat :: Stored(s, next.rows, kept)) && Captures(s, next, PreRestore, sha, gone)
  }

  lemma RestoreTarget(s: Doc, cp: nat, sha: string, gone: set<nat>)
    requires Consistent(s) && cp < |Had(s)| && Had(s) == Rows(s)
    ensures RestoreLands(s, Had(s)[cp], RestoredTo(s, cp, sha, gone), sha, gone)
  {
    hide Captures, Captured, Consistent, Replaced, Moored, Effective, Rows, Had;
    var (held, before) := Captured(s, PreRestore, sha, gone);
    CapturedConsistent(s, PreRestore, sha, gone);
    ReplacedIs(held, Rows(s)[cp]);
    assert Stored(s, RestoredTo(s, cp, sha, gone).rows, before);
    CaptureAddsIff(s, PreRestore, sha, gone);
    CapturesOnward(s, held, RestoredTo(s, cp, sha, gone), PreRestore, sha, gone);
  }

  /** What an open may go on from: the newest live row if it is the opened bytes, or at the continued
      revision. */
  predicate GoesOn(row: Row, revision: nat, sha: string, continued: bool) {
    row.sha == Some(sha) || (continued && row.rev == revision)
  }

  /** An open adds a row of the opened content unless it goes on from the newest live one, whose base it
      takes up if that is at its revision. Nothing is left to undo or redo in memory. */
  lemma OpenAddsIff(rows: seq<Row>, drawing: string, revision: nat, sha: string, continued: bool, depth: nat, gone: set<nat>)
    ensures var next := Opened(rows, drawing, revision, sha, continued, depth, gone);
      && next.drawing == drawing && next.revision == next.shaRev == revision && next.sha == Some(sha)
      && next.undo == (if depth == 0 then [] else [Snap(drawing, revision)]) && next.redo == []
      && next.storeRedo == [] && next.parked == map[] && next.pending.None? && next.depth == depth
      && (forall i: nat | NewestLive(rows, i) && GoesOn(rows[i], revision, sha, continued) ::
            next.rows == rows && next.base == if rows[i].rev == revision then Some(Base(rows[i].base, revision)) else None)
      && ((forall i: nat | NewestLive(rows, i) :: !GoesOn(rows[i], revision, sha, continued)) ==>
            && next.base.None? && |next.rows| == |rows| + 1
            && next.rows[|rows|] == Row(Open, revision, revision, drawing, Some(sha), false)
            && forall i | 0 <= i < |rows| :: next.rows[i] == if i in gone then rows[i].(evicted := true) else rows[i])
  {
    LiveIs(rows);
    assert [] + [Snap(drawing, revision)] == [Snap(drawing, revision)];
  }

  // ── in memory ──

  /** An edit: the new content at the next revision is the newest step, of at most one more than the depth,
      the oldest gone; nothing is left to redo in memory. */
  lemma EditPushes(s: Doc, drawing: string)
    ensures var next := Changed(s, drawing);
      && next == s.(drawing := drawing, revision := s.revision + 1, undo := next.undo, redo := next.redo)
      && if s.depth == 0 then next.undo == s.undo && next.redo == s.redo
         else && next.redo == [] && next.undo != [] && next.undo[|next.undo| - 1] == Snap(drawing, s.revision + 1)
              && |next.undo| == (if |s.undo| <= s.depth then |s.undo| + 1 else s.depth + 1)
              && forall i | 0 <= i < |next.undo| - 1 :: next.undo[i] == s.undo[|s.undo| + 1 - |next.undo| + i]
  {
  }

  /** A step back in memory: to the step below the newest, undone from that step's revision; the newest goes
      to the steps to redo, and the store's branch is dropped. */
  lemma StepBackIs(s: Doc)
    requires |s.undo| >= 2
    ensures var next, last, to := StepUndone(s), s.undo[|s.undo| - 1], s.undo[|s.undo| - 2];
      && next.drawing == to.drawing && next.revision == s.revision + 1 && next.base == Some(Base(to.rev, next.revision))
      && next.undo + [last] == s.undo && next.redo == s.redo + [last]
      && next.storeRedo == [] && next.parked == map[] && next.rows == s.rows && next.pending == s.pending
  {
  }

  lemma StepForwardIs(s: Doc)
    requires s.redo != []
    ensures var next, to := StepRedone(s), s.redo[|s.redo| - 1];
      && next.drawing == to.drawing && next.revision == s.revision + 1 && next.base == Some(Base(to.rev, next.revision))
      && next.redo + [to] == s.redo && next.undo == s.undo + [to]
      && next.storeRedo == [] && next.parked == map[] && next.rows == s.rows && next.pending == s.pending
  {
  }
}
