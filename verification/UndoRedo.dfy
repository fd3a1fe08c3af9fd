/** Undo and redo of the headless engine (backends/ezdxf_checkpoints.py, with the in-memory steps of
    backends/ezdxf_backend.py).

    `Doc` is a document's state; the functions are what each operation makes of it. A checkpoint's id is
    its row's index. `gone` are the older rows an added row's evictions took.
    An undo goes to the newest checkpoint below the effective revision, which is the one the content was
    reached from if an undo reached it; what the undo replaced is captured in a row, and a redo goes
    back to it. In-memory steps come first in both directions. */
module UndoRedo {

  import opened Wrappers

  datatype Kind = Save | Open | New | Transaction | Batch | Destructive | PreRestore | PreUndo | Label

  datatype Row = Row(kind: Kind, rev: nat, base: nat, drawing: string, sha: Option<string>, evicted: bool)

  /** An in-memory step: a whole drawing and the revision it was. */
  datatype Snap = Snap(drawing: string, rev: nat)

  /** `undo_base` and the revision it holds for. */
  datatype Base = Base(base: nat, rev: nat)

  datatype Doc = Doc(
    drawing: string, revision: nat, base: Option<Base>, sha: Option<string>, shaRev: nat,
    storeRedo: seq<nat>, parked: map<nat, seq<Snap>>, undo: seq<Snap>, redo: seq<Snap>,
    rows: seq<Row>, pending: Option<Row>, depth: nat)

  /** The revision an undo steps back from. */
  function Effective(s: Doc): nat {
    if s.base.Some? && s.base.value.rev == s.revision then s.base.value.base else s.revision
  }

  function CurrentSha(s: Doc): Option<string> {
    if s.shaRev == s.revision then s.sha else None
  }

  /** `_cp_rows`: a `drawing_new`'s S0 not written yet stands first. */
  function Rows(s: Doc): seq<Row> {
    if s.pending.Some? && s.rows == [] then [s.pending.value] else s.rows
  }

  // ── the steps ──

  /** A content change, and its in-memory step. */
  function Changed(s: Doc, drawing: string): Doc {
    Pushed(s.(drawing := drawing, revision := s.revision + 1))
  }

  function Newest(steps: seq<Snap>, most: nat): seq<Snap> {
    if |steps| > most then steps[|steps| - most..] else steps
  }

  function Pushed(s: Doc): Doc {
    if s.depth == 0 then s
    else s.(undo := Newest(s.undo + [Snap(s.drawing, s.revision)], s.depth + 1), redo := [])
  }

  function DropRedo(s: Doc): Doc {
    s.(storeRedo := [], parked := map[])
  }

  /** The redo branch, once one a later change made stale is dropped. */
  function Fresh(s: Doc): Doc {
    if (s.storeRedo != [] || s.parked != map[]) && !(s.base.Some? && s.base.value.rev == s.revision) then DropRedo(s) else s
  }

  function Evict(rows: seq<Row>, gone: set<nat>): (kept: seq<Row>)
    ensures |kept| == |rows|
    ensures forall i | 0 <= i < |rows| :: kept[i] == if i in gone then rows[i].(evicted := true) else rows[i]
  {
    seq(|rows|, i requires 0 <= i < |rows| => if i in gone then rows[i].(evicted := true) else rows[i])
  }

  /** `_cp_add`. */
  function Add(s: Doc, row: Row, gone: set<nat>): Doc {
    s.(rows := Evict(Rows(s), gone) + [row.(base := if row.base < row.rev then row.base else row.rev, evicted := false)], pending := None)
  }

  /** The newest live row that holds the current revision. */
  function Holder(rows: seq<Row>, revision: nat): (found: Option<nat>)
    ensures found.Some? ==> found.value < |rows| && rows[found.value].rev == revision && !rows[found.value].evicted
    ensures found.None? ==> forall i | 0 <= i < |rows| :: rows[i].rev == revision ==> rows[i].evicted
    decreases |rows|
  {
    if rows == [] then None
    else if rows[|rows| - 1].rev == revision && !rows[|rows| - 1].evicted then Some(|rows| - 1)
    else Holder(rows[..|rows| - 1], revision)
  }

  /** `_cp_capture_current`: the current content in a row. */
  function Captured(s: Doc, kind: Kind, sha: string, gone: set<nat>): (Doc, nat) {
    var holder := Holder(s.rows, s.revision);
    if holder.Some? then (s, holder.value)
    else
      (Add(s, Row(kind, s.revision, Effective(s), s.drawing, Some(sha), false), gone).(sha := Some(sha), shaRev := s.revision), |Rows(s)|)
  }

  /** `_cp_replace_document`. */
  function Replaced(s: Doc, row: Row): Doc {
    var s' := Changed(s.(undo := [], redo := []), row.drawing);
    s'.(sha := row.sha, shaRev := s'.revision)
  }

  predicate Candidate(s: Doc, row: Row) {
    && !row.evicted && row.kind != PreUndo && row.rev < Effective(s)
    && !(CurrentSha(s).Some? && row.sha == CurrentSha(s))
  }

  predicate Later(rows: seq<Row>, i: nat, j: nat)
    requires i < |rows| && j < |rows|
  {
    rows[i].rev > rows[j].rev || (rows[i].rev == rows[j].rev && i > j)
  }

  /** The candidate with the greatest revision, the newest of those. */
  function Best(s: Doc, rows: seq<Row>, k: nat): (best: Option<nat>)
    requires k <= |rows|
    ensures best.None? <==> forall i | 0 <= i < k :: !Candidate(s, rows[i])
    ensures best.Some? ==>
      && best.value < k && Candidate(s, rows[best.value])
      && forall i | 0 <= i < k && Candidate(s, rows[i]) && i != best.value :: Later(rows, best.value, i)
    decreases k
  {
    if k == 0 then None
    else
      var before := Best(s, rows, k - 1);
      if Candidate(s, rows[k - 1]) && (before.None? || Later(rows, k - 1, before.value)) then Some(k - 1) else before
  }

  /** `drawing_undo` from the store: the next document, None when there is nothing to undo. */
  function Undone(s: Doc, sha: string, gone: set<nat>): Option<Doc> {
    var target := Best(s, Rows(s), |Rows(s)|);
    if target.None? then None
    else
      var row := Rows(s)[target.value];
      var (held, before) := Captured(Fresh(s), PreUndo, sha, gone);
      var next := Replaced(held.(redo := []), row);
      Some(next.(base := Some(Base(row.base, next.revision)),
                 storeRedo := held.storeRedo + [before],
                 parked := if held.redo == [] then held.parked else held.parked[before := held.redo]))
  }

  /** `drawing_redo` from the store; None when there is nothing to redo, or it was evicted. */
  function Redone(s: Doc): Option<Doc> {
    var f := Fresh(s);
    if f.storeRedo == [] then None
    else
      var cp := f.storeRedo[|f.storeRedo| - 1];
      if cp >= |f.rows| || f.rows[cp].evicted then None
      else
        var row := f.rows[cp];
        var next := Replaced(f, row);
        Some(next.(base := Some(Base(row.base, next.revision)),
                   storeRedo := f.storeRedo[..|f.storeRedo| - 1],
                   redo := if cp in f.parked then f.parked[cp] else next.redo,
                   parked := f.parked - {cp}))
  }

  /** An in-memory step restored. */
  function Restepped(s: Doc, snap: Snap): Doc {
    var next := s.(drawing := snap.drawing, revision := s.revision + 1);
    DropRedo(next.(base := Some(Base(snap.rev, next.revision))))
  }

  function StepUndone(s: Doc): Doc
    requires |s.undo| >= 2
  {
    var top := |s.undo| - 1;
    Restepped(s.(redo := s.redo + [s.undo[top]], undo := s.undo[..top]), s.undo[top - 1])
  }

  function StepRedone(s: Doc): Doc
    requires s.redo != []
  {
    var top := |s.redo| - 1;
    Restepped(s.(undo := s.undo + [s.redo[top]], redo := s.redo[..top]), s.redo[top])
  }

  /** `checkpoint_restore(mode="in_place")` of a live row. */
  function RestoredTo(s: Doc, cp: nat, sha: string, gone: set<nat>): Doc
    requires cp < |Rows(s)|
  {
    var row := Rows(s)[cp];
    var (held, _) := Captured(s, PreRestore, sha, gone);
    DropRedo(Replaced(held, row).(base := None))
  }

  function Live(rows: seq<Row>): (found: Option<nat>)
    ensures found.Some? ==> found.value < |rows| && !rows[found.value].evicted
    ensures forall i | (if found.Some? then found.value < i else 0 <= i) && i < |rows| :: rows[i].evicted
    decreases |rows|
  {
    if rows == [] then None else if !rows[|rows| - 1].evicted then Some(|rows| - 1) else Live(rows[..|rows| - 1])
  }

  /** `_cp_on_save`: the written bytes become a row, unless the newest live row is this revision's. */
  function Saved(s: Doc, sha: string, gone: set<nat>): Doc {
    var newest := Live(s.rows);
    var noted := s.(sha := Some(sha), shaRev := s.revision);
    if newest.Some? && s.rows[newest.value].rev == s.revision then noted
    else Add(noted, Row(Save, s.revision, Effective(s), s.drawing, Some(sha), false), gone)
  }

  /** `_cp_on_open` in a new process that finds `rows`, its revision `revision` as the lineage gives it. */
  function Opened(rows: seq<Row>, drawing: string, revision: nat, sha: string, continued: bool, depth: nat, gone: set<nat>): Doc {
    var s := Pushed(Doc(drawing, revision, None, Some(sha), revision, [], map[], [], [], rows, None, depth));
    var newest := Live(rows);
    if newest.Some? && (rows[newest.value].sha == Some(sha) || (continued && rows[newest.value].rev == revision)) then
      if rows[newest.value].rev == revision then s.(base := Some(Base(rows[newest.value].base, revision))) else s
    else Add(s, Row(Open, revision, Effective(s), drawing, Some(sha), false), gone)
  }

  /** `drawing_new`: S0 is held until the lineage's first checkpoint. */
  function Created(drawing: string, sha: Option<string>, depth: nat): Doc {
    Pushed(Doc(drawing, 0, None, None, 0, [], map[], [], [], [], Some(Row(New, 0, 0, drawing, sha, false)), depth))
  }

  function Labelled(s: Doc, sha: string, gone: set<nat>): Doc {
    Add(s, Row(Label, s.revision, Effective(s), s.drawing, Some(sha), false), gone).(sha := Some(sha), shaRev := s.revision)
  }

  /** What a transaction's begin remembers: the drawing, its revision, and the one it is undone from. */
  datatype Begun = Begun(drawing: string, rev: nat, base: nat)

  /** `_cp_transaction_closed`: the snapshot of the begin becomes a row. */
  function TransactionKept(s: Doc, begun: Begun, sha: string, gone: set<nat>): Doc {
    Add(s, Row(Transaction, begun.rev, begun.base, begun.drawing, Some(sha), false), gone)
  }

  /** `transaction_rollback`: a new revision, and no in-memory step. */
  function RolledBack(s: Doc, begun: Begun, sha: string, gone: set<nat>): Doc {
    var kept := TransactionKept(s.(drawing := begun.drawing, revision := s.revision + 1), begun, sha, gone);
    DropRedo(kept.(sha := Some(sha), shaRev := kept.revision, base := Some(Base(begun.base, kept.revision))))
  }

  /** `drawing_undo` and `drawing_redo`: the in-memory steps first. */
  function DrawingUndone(s: Doc, sha: string, gone: set<nat>): Option<Doc> {
    if |s.undo| >= 2 then Some(StepUndone(s)) else Undone(s, sha, gone)
  }

  function DrawingRedone(s: Doc): Option<Doc> {
    if s.redo != [] then Some(StepRedone(s)) else Redone(s)
  }

  // ── what every step keeps ──

  /** A row at the current revision holds the current drawing. */
  predicate RowOk(s: Doc, row: Row) {
    row.base <= row.rev <= s.revision && (row.rev == s.revision ==> row.drawing == s.drawing)
  }

  predicate Consistent(s: Doc) {
    && (forall i | 0 <= i < |s.rows| :: RowOk(s, s.rows[i]))
    && (s.pending.Some? ==> s.rows == [] && RowOk(s, s.pending.value))
    && (s.base.Some? ==> s.base.value.base <= s.base.value.rev <= s.revision)
    && (forall i | 0 <= i < |s.undo| :: s.undo[i].rev <= s.revision) && (forall i | 0 <= i < |s.redo| :: s.redo[i].rev <= s.revision)
    && (forall cp | cp in s.storeRedo :: cp < |s.rows| && s.rows[cp].rev < s.revision)
    && (forall i, j | 0 <= i < j < |s.storeRedo| :: s.storeRedo[i] != s.storeRedo[j])
    && (forall cp | cp in s.parked :: cp in s.storeRedo)
    && (forall cp, i | cp in s.parked && 0 <= i < |s.parked[cp]| :: s.parked[cp][i].rev <= s.revision)
  }

  /** The rows at the current revision are all undone from where it is. */
  predicate Anchored(s: Doc) {
    forall i | 0 <= i < |Rows(s)| && Rows(s)[i].rev == s.revision :: Rows(s)[i].base == Effective(s)
  }

  /** The row that an undo would take for the current content, if there is one, is. */
  predicate Moored(s: Doc) {
    var holder := Holder(s.rows, s.revision);
    holder.Some? ==> s.rows[holder.value].base == Effective(s)
  }

  /** The newest in-memory step is the current content, and there is no store branch to redo. */
  predicate Topped(s: Doc) {
    && s.undo != [] && s.undo[|s.undo| - 1] == Snap(s.drawing, Effective(s))
    && Fresh(s).storeRedo == [] && Fresh(s).parked == map[]
  }

  lemma AnchoredIsMoored(s: Doc)
    requires Anchored(s)
    ensures Moored(s)
  {
    assert s.rows != [] ==> Rows(s) == s.rows;
  }

  lemma RowsConsistent(s: Doc)
    requires Consistent(s)
    ensures forall i | 0 <= i < |Rows(s)| :: RowOk(s, Rows(s)[i])
    ensures Rows(s) != s.rows ==> s.storeRedo == [] && s.parked == map[]
  {
    assert s.storeRedo != [] ==> s.storeRedo[0] in s.storeRedo;
    assert s.rows == [] ==> s.parked.Keys == {};
  }

  /** A new revision has no row yet. */
  lemma NewRevisionAnchored(s: Doc, next: Doc)
    requires Consistent(s) && next.revision > s.revision && next.rows == s.rows && next.pending == s.pending
    ensures Anchored(next)
  {
    RowsConsistent(s);
    forall i | 0 <= i < |Rows(next)| ensures Rows(next)[i].rev < next.revision {
      assert RowOk(s, Rows(s)[i]);
    }
  }

  lemma ChangedConsistent(s: Doc, drawing: string)
    requires Consistent(s)
    ensures Consistent(Changed(s, drawing))
  {
  }

  lemma AddConsistent(s: Doc, row: Row, gone: set<nat>)
    requires Consistent(s) && row.rev <= s.revision && (row.rev == s.revision ==> row.drawing == s.drawing)
    ensures Consistent(Add(s, row, gone))
  {
    RowsConsistent(s);
    var next := Add(s, row, gone);
    forall i | 0 <= i < |next.rows| ensures RowOk(next, next.rows[i]) {
      assert i < |Rows(s)| ==> RowOk(s, Rows(s)[i]);
    }
  }

  predicate BegunOk(s: Doc, begun: Begun) {
    begun.base <= begun.rev <= s.revision && (begun.rev == s.revision ==> begun.drawing == s.drawing)
  }

  lemma TransactionKeptConsistent(s: Doc, begun: Begun, sha: string, gone: set<nat>)
    requires Consistent(s) && BegunOk(s, begun)
    ensures Consistent(TransactionKept(s, begun, sha, gone))
  {
    AddConsistent(s, Row(Transaction, begun.rev, begun.base, begun.drawing, Some(sha), false), gone);
  }

  lemma RolledBackConsistent(s: Doc, begun: Begun, sha: string, gone: set<nat>)
    requires Consistent(s) && BegunOk(s, begun)
    ensures var next := RolledBack(s, begun, sha, gone);
      && Consistent(next) && next.revision == s.revision + 1 && next.drawing == begun.drawing && Effective(next) == begun.base
      && next.undo == s.undo && next.depth == s.depth && next.storeRedo == [] && next.parked == map[] && Anchored(next)
  {
    hide Anchored;
    var back := s.(drawing := begun.drawing, revision := s.revision + 1);
    TransactionKeptConsistent(back, begun, sha, gone);
    var kept := TransactionKept(back, begun, sha, gone);
    var next := RolledBack(s, begun, sha, gone);
    forall i | 0 <= i < |next.rows| ensures RowOk(next, next.rows[i]) {
      assert RowOk(kept, kept.rows[i]);
    }
    TransactionKeptConsistent(s, begun, sha, gone);
    NewRevisionAnchored(TransactionKept(s, begun, sha, gone), next);
  }

  lemma CapturedConsistent(s: Doc, kind: Kind, sha: string, gone: set<nat>)
    requires Consistent(s)
    ensures var (held, before) := Captured(s, kind, sha, gone);
      && Consistent(held) && before < |held.rows| && !held.rows[before].evicted
      && held.rows[before].rev == s.revision && held.rows[before].drawing == s.drawing && (held.rows[before].base == Effective(s) <==> Moored(s))
      && held == s.(rows := held.rows, pending := held.pending, sha := held.sha, shaRev := held.shaRev)
      && |held.rows| >= |Rows(s)| && before !in s.storeRedo
      && (forall i | 0 <= i < |Rows(s)| :: held.rows[i] == Rows(s)[i] || (i in gone && held.rows[i] == Rows(s)[i].(evicted := true)))
  {
    if Holder(s.rows, s.revision).None? {
      AddConsistent(s, Row(kind, s.revision, Effective(s), s.drawing, Some(sha), false), gone);
    } else {
      assert RowOk(s, s.rows[Holder(s.rows, s.revision).value]);
    }
    RowsConsistent(s);
  }

  lemma ReplacedIs(s: Doc, row: Row)
    ensures var next := Replaced(s, row);
      && next.drawing == row.drawing && next.revision == s.revision + 1 && next.redo == []
      && next == s.(drawing := row.drawing, revision := s.revision + 1, undo := next.undo, redo := [], sha := row.sha, shaRev := s.revision + 1)
      && next.undo == (if s.depth == 0 then [] else [Snap(row.drawing, s.revision + 1)])
  {
    assert [] + [Snap(row.drawing, s.revision + 1)] == [Snap(row.drawing, s.revision + 1)];
  }

  lemma FreshConsistent(s: Doc)
    requires Consistent(s)
    ensures Rows(Fresh(s)) == Rows(s) && Effective(Fresh(s)) == Effective(s) && Moored(Fresh(s)) == Moored(s)
    ensures Consistent(Fresh(s)) && Fresh(s) == s.(storeRedo := Fresh(s).storeRedo, parked := Fresh(s).parked)
  {
    assert Effective(Fresh(s)) == Effective(s);
    forall i | 0 <= i < |s.rows| ensures RowOk(Fresh(s), s.rows[i]) {
      assert RowOk(s, s.rows[i]);
    }
  }

  /** Which document a step back is. */
  lemma UndoneShape(s: Doc, sha: string, gone: set<nat>)
    requires Undone(s, sha, gone).Some?
    ensures var target := Best(s, Rows(s), |Rows(s)|);
      && target.Some?
      && var row := Rows(s)[target.value];
         var (held, before) := Captured(Fresh(s), PreUndo, sha, gone);
         var next := Undone(s, sha, gone).value;
      && next == held.(drawing := row.drawing, revision := held.revision + 1, undo := next.undo, redo := [], sha := row.sha,
                       shaRev := held.revision + 1, base := Some(Base(row.base, held.revision + 1)),
                       storeRedo := held.storeRedo + [before],
                       parked := if held.redo == [] then held.parked else held.parked[before := held.redo])
      && next.undo == (if held.depth == 0 then [] else [Snap(row.drawing, held.revision + 1)])
  {
    hide Captured, Fresh, Best, Replaced;
    var (held, before) := Captured(Fresh(s), PreUndo, sha, gone);
    ReplacedIs(held.(redo := []), Rows(s)[Best(s, Rows(s), |Rows(s)|).value]);
  }

  /** A step back: the effective revision is strictly less. */
  lemma UndoneConsistent(s: Doc, sha: string, gone: set<nat>)
    requires Consistent(s) && Undone(s, sha, gone).Some?
    ensures var next := Undone(s, sha, gone).value;
      && Consistent(next) && next.revision == s.revision + 1 && |next.undo| <= 1 && next.depth == s.depth
      && Effective(next) < Effective(s) && Anchored(next)
  {
    hide Captured, Fresh, Best, Undone, RowOk, Consistent, Anchored, Moored;
    var f := Fresh(s);
    FreshConsistent(s);
    UndoneShape(s, sha, gone);
    var row := Rows(s)[Best(s, Rows(s), |Rows(s)|).value];
    RowBelow(s, row);
    CapturedConsistent(f, PreUndo, sha, gone);
    var (held, before) := Captured(f, PreUndo, sha, gone);
    NotPending(held);
    UndoneRows(f, held, Undone(s, sha, gone).value, before);
    NewRevisionAnchored(held, Undone(s, sha, gone).value);
  }

  lemma RowBelow(s: Doc, row: Row)
    requires Consistent(s) && row in Rows(s)
    ensures row.base <= row.rev <= s.revision
  {
    RowsConsistent(s);
    var i :| 0 <= i < |Rows(s)| && Rows(s)[i] == row;
    assert RowOk(s, Rows(s)[i]);
  }

  lemma NotPending(s: Doc)
    requires Consistent(s) && s.rows != []
    ensures s.pending.None?
  {
  }

  lemma UndoneRows(f: Doc, held: Doc, next: Doc, before: nat)
    requires Consistent(held) && before < |held.rows| && held.rows[before].rev == held.revision && before !in held.storeRedo
    requires next.revision == held.revision + 1 && next.rows == held.rows && next.pending.None? && held.rows != [] && next.redo == []
    requires next.base.Some? && next.base.value.rev == next.revision && next.base.value.base <= next.revision
    requires next.storeRedo == held.storeRedo + [before]
    requires next.parked == if held.redo == [] then held.parked else held.parked[before := held.redo]
    requires forall i | 0 <= i < |next.undo| :: next.undo[i].rev <= next.revision
    ensures Consistent(next)
  {
    forall i | 0 <= i < |next.rows| ensures RowOk(next, next.rows[i]) {
      assert RowOk(held, held.rows[i]);
    }
  }

  lemma AllButLast(list: seq<nat>, x: nat)
    requires x in list && x != list[|list| - 1]
    ensures x in list[..|list| - 1]
  {
    var i :| 0 <= i < |list| && list[i] == x;
    assert list[..|list| - 1][i] == x;
  }

  /** Which document a step forward is. */
  lemma RedoneShape(s: Doc)
    requires Redone(s).Some?
    ensures var f, next := Fresh(s), Redone(s).value;
      && f.storeRedo != []
      && var cp := f.storeRedo[|f.storeRedo| - 1];
      && cp < |f.rows| && !f.rows[cp].evicted
      && var row := f.rows[cp];
      && next == f.(drawing := row.drawing, revision := f.revision + 1, undo := next.undo, sha := row.sha, shaRev := f.revision + 1,
                    base := Some(Base(row.base, f.revision + 1)), storeRedo := f.storeRedo[..|f.storeRedo| - 1],
                    redo := if cp in f.parked then f.parked[cp] else [], parked := f.parked - {cp})
      && next.undo == (if f.depth == 0 then [] else [Snap(row.drawing, f.revision + 1)])
  {
    hide Fresh, Replaced;
    var f := Fresh(s);
    ReplacedIs(f, f.rows[f.storeRedo[|f.storeRedo| - 1]]);
  }

  lemma RedoneConsistent(s: Doc)
    requires Consistent(s) && Redone(s).Some?
    ensures Consistent(Redone(s).value) && Redone(s).value.revision == s.revision + 1
  {
    hide Redone, Fresh, Moored, Holder;
    FreshConsistent(s);
    RedoneShape(s);
    var f, next := Fresh(s), Redone(s).value;
    assert f.storeRedo[|f.storeRedo| - 1] in f.storeRedo;
    forall cp | cp in next.parked ensures cp in next.storeRedo {
      AllButLast(f.storeRedo, cp);
    }
    forall i | 0 <= i < |next.rows| ensures RowOk(next, next.rows[i]) {
      assert RowOk(f, f.rows[i]);
    }
  }

  lemma SteppedConsistent(s: Doc)
    requires Consistent(s)
    ensures |s.undo| >= 2 ==> Consistent(StepUndone(s)) && |StepUndone(s).undo| == |s.undo| - 1
    ensures s.redo != [] ==> Consistent(StepRedone(s))
  {
    forall i | 0 <= i < |s.rows| ensures RowOk(s, s.rows[i]) {
    }
  }

  lemma DropRedoConsistent(s: Doc)
    requires Consistent(s)
    ensures Consistent(DropRedo(s))
  {
    assert Effective(DropRedo(s)) == Effective(s);
    forall i | 0 <= i < |s.rows| ensures RowOk(DropRedo(s), s.rows[i]) {
      assert RowOk(s, s.rows[i]);
    }
  }

  lemma RestoredConsistent(s: Doc, cp: nat, sha: string, gone: set<nat>)
    requires Consistent(s) && cp < |Rows(s)|
    ensures var next := RestoredTo(s, cp, sha, gone);
      && Consistent(next) && Effective(next) == next.revision == s.revision + 1 && |next.undo| <= 1 && next.depth == s.depth
      && (next.depth == 0 ==> next.undo == []) && Anchored(next)
  {
    hide Captured, Consistent, Replaced, Anchored, Moored;
    var row := Rows(s)[cp];
    var (held, before) := Captured(s, PreRestore, sha, gone);
    CapturedConsistent(s, PreRestore, sha, gone);
    ReplacedIs(held, row);
    ChangedRows(held, Replaced(held, row).(base := None), row.drawing);
    DropRedoConsistent(Replaced(held, row).(base := None));
    NewRevisionAnchored(held, RestoredTo(s, cp, sha, gone));
  }

  lemma ChangedRows(s: Doc, next: Doc, drawing: string)
    requires Consistent(s) && next.drawing == drawing && next.revision == s.revision + 1 && next.redo == []
    requires next == s.(drawing := drawing, revision := next.revision, undo := next.undo, redo := [], sha := next.sha, shaRev := next.shaRev, base := None)
    requires forall i | 0 <= i < |next.undo| :: next.undo[i].rev <= next.revision
    ensures Consistent(next)
  {
    forall i | 0 <= i < |s.rows| ensures RowOk(next, s.rows[i]) {
      assert RowOk(s, s.rows[i]);
    }
  }

  /** The newest live row, if it is at the current revision, is undone from where that is. */
  predicate NewestAnchored(s: Doc) {
    var newest := Live(s.rows);
    newest.Some? && s.rows[newest.value].rev == s.revision ==> s.rows[newest.value].base == Effective(s)
  }

  lemma SavedConsistent(s: Doc, sha: string, gone: set<nat>)
    requires Consistent(s)
    ensures var next := Saved(s, sha, gone);
      && Consistent(next) && Effective(next) == Effective(s) && next.drawing == s.drawing && next.revision == s.revision
      && var newest := Live(next.rows);
         newest.Some? && next.rows[newest.value].rev == s.revision && (next.rows[newest.value].base == Effective(s) <==> NewestAnchored(s))
  {
    var noted := s.(sha := Some(sha), shaRev := s.revision);
    NotedConsistent(s, sha);
    var newest := Live(s.rows);
    if newest.Some? && s.rows[newest.value].rev == s.revision {
    } else {
      AddConsistent(noted, Row(Save, s.revision, Effective(s), s.drawing, Some(sha), false), gone);
      var next := Saved(s, sha, gone);
      hide Consistent;
      assert Live(next.rows) == Some(|next.rows| - 1);
    }
  }

  lemma LabelledConsistent(s: Doc, sha: string, gone: set<nat>)
    requires Consistent(s)
    ensures Consistent(Labelled(s, sha, gone)) && Effective(Labelled(s, sha, gone)) == Effective(s)
  {
    hide Add;
    var row := Row(Label, s.revision, Effective(s), s.drawing, Some(sha), false);
    AddConsistent(s, row, gone);
    NotedConsistent(Add(s, row, gone), sha);
    AddKeepsBase(s, row, gone);
  }

  lemma AddKeepsBase(s: Doc, row: Row, gone: set<nat>)
    ensures Add(s, row, gone) == s.(rows := Add(s, row, gone).rows, pending := None)
  {
  }

  lemma NotedConsistent(s: Doc, sha: string)
    requires Consistent(s)
    ensures Consistent(s.(sha := Some(sha), shaRev := s.revision))
  {
    var noted := s.(sha := Some(sha), shaRev := s.revision);
    assert Effective(noted) == Effective(s);
    forall i | 0 <= i < |s.rows| ensures RowOk(noted, s.rows[i]) {
      assert RowOk(s, s.rows[i]);
    }
    assert s.pending.Some? ==> RowOk(noted, s.pending.value);
  }

  /** Rows another process left that an open at `revision` can go on from. */
  predicate Resumable(rows: seq<Row>, drawing: string, revision: nat) {
    forall i | 0 <= i < |rows| :: rows[i].base <= rows[i].rev <= revision && (rows[i].rev == revision ==> rows[i].drawing == drawing)
  }

  /** An open takes up the base of the newest live row if that is the opened content, at its revision. */
  lemma OpenedConsistent(rows: seq<Row>, drawing: string, revision: nat, sha: string, continued: bool, depth: nat, gone: set<nat>)
    requires Resumable(rows, drawing, revision)
    ensures var next, newest := Opened(rows, drawing, revision, sha, continued, depth, gone), Live(rows);
      && Consistent(next) && next.drawing == drawing && next.revision == revision
      && Effective(next) == if newest.Some? && rows[newest.value].rev == revision && (rows[newest.value].sha == Some(sha) || continued)
                            then rows[newest.value].base else revision
  {
    var s := Pushed(Doc(drawing, revision, None, Some(sha), revision, [], map[], [], [], rows, None, depth));
    forall i | 0 <= i < |rows| ensures RowOk(s, rows[i]) {
    }
    assert Consistent(s);
    var newest := Live(rows);
    if newest.Some? && (rows[newest.value].sha == Some(sha) || (continued && rows[newest.value].rev == revision)) {
      var next := Opened(rows, drawing, revision, sha, continued, depth, gone);
      forall i | 0 <= i < |next.rows| ensures RowOk(next, next.rows[i]) {
        assert RowOk(s, rows[i]);
      }
    } else {
      hide Consistent, Opened;
      OpenAdds(rows, drawing, revision, sha, continued, depth, gone);
      AddConsistent(s, Row(Kind.Open, revision, Effective(s), drawing, Some(sha), false), gone);
      AddKeepsBase(s, Row(Kind.Open, revision, Effective(s), drawing, Some(sha), false), gone);
    }
  }

  lemma OpenAdds(rows: seq<Row>, drawing: string, revision: nat, sha: string, continued: bool, depth: nat, gone: set<nat>)
    requires var newest := Live(rows);
      !(newest.Some? && (rows[newest.value].sha == Some(sha) || (continued && rows[newest.value].rev == revision)))
    ensures var s := Pushed(Doc(drawing, revision, None, Some(sha), revision, [], map[], [], [], rows, None, depth));
      Opened(rows, drawing, revision, sha, continued, depth, gone) == Add(s, Row(Kind.Open, revision, Effective(s), drawing, Some(sha), false), gone)
  {
  }

  /** What a save, a kill and a reopen keep: content, revision and rows; and where it is undone from
      exactly if the newest live row, when at the revision, said so. */
  lemma SaveThenReopen(s: Doc, sha: string, gone: set<nat>, depth: nat)
    requires Consistent(s)
    ensures var saved := Saved(s, sha, gone);
      var reopened := Opened(saved.rows, s.drawing, s.revision, sha, true, depth, {});
      && Consistent(reopened) && reopened.drawing == s.drawing && reopened.revision == s.revision && reopened.rows == saved.rows
      && (Effective(reopened) == Effective(s) <==> NewestAnchored(s))
  {
    SavedConsistent(s, sha, gone);
    var saved := Saved(s, sha, gone);
    hide Saved;
    forall i | 0 <= i < |saved.rows| ensures RowOk(saved, saved.rows[i]) {
    }
    OpenedConsistent(saved.rows, s.drawing, s.revision, sha, true, depth, {});
  }

  // ── repeated undo ends ──

  /** One store undo after another; `steps` gives each one's digest and evictions. */
  datatype Step = Step(sha: string, gone: set<nat>)

  function UndoneAll(s: Doc, steps: seq<Step>): Option<Doc>
    decreases |steps|
  {
    if steps == [] then Some(s)
    else
      match Undone(s, steps[0].sha, steps[0].gone)
      case None => None
      case Some(next) => UndoneAll(next, steps[1..])
  }

  /** No document can be undone more often than its effective revision, whatever is evicted between. */
  lemma {:induction false} UndosRunOut(s: Doc, steps: seq<Step>)
    requires Consistent(s) && UndoneAll(s, steps).Some?
    ensures Consistent(UndoneAll(s, steps).value) && Effective(UndoneAll(s, steps).value) + |steps| <= Effective(s)
    decreases |steps|
  {
    hide Undone, Consistent, Effective;
    if steps != [] {
      UndoneConsistent(s, steps[0].sha, steps[0].gone);
      UndosRunOut(Undone(s, steps[0].sha, steps[0].gone).value, steps[1..]);
    }
  }

  // ── redo inverts undo ──

  /** The same content, undone from the same place, with the same branches to redo. */
  predicate Same(a: Doc, b: Doc) {
    && a.drawing == b.drawing && Effective(a) == Effective(b) && a.redo == b.redo
    && Fresh(a).storeRedo == Fresh(b).storeRedo && Fresh(a).parked == Fresh(b).parked
  }

  /** What an undo leaves for the redo that inverts it. */
  lemma UndoneLeaves(s: Doc, sha: string) returns (before: nat)
    requires Consistent(s) && Undone(s, sha, {}).Some?
    ensures var f, u := Fresh(s), Undone(s, sha, {}).value;
      && Fresh(u) == u && u.storeRedo == f.storeRedo + [before] && before !in f.parked
      && u.parked == (if s.redo == [] then f.parked else f.parked[before := s.redo])
      && before < |u.rows| && !u.rows[before].evicted
      && u.rows[before].drawing == s.drawing && (u.rows[before].base == Effective(s) <==> Moored(s))
      && s.rows <= u.rows && Anchored(u) && u.redo == []
  {
    hide Captured, Undone, Best, RowOk, Moored, Consistent, Fresh, Holder, Effective;
    var f := Fresh(s);
    FreshConsistent(s);
    UndoneShape(s, sha, {});
    CapturedConsistent(f, PreUndo, sha, {});
    var (held, cp) := Captured(f, PreUndo, sha, {});
    before := cp;
    var u := Undone(s, sha, {}).value;
    FreshIs(u);
    NotParked(f, before);
    NewRevisionAnchored(held, u);
  }

  lemma NotParked(s: Doc, cp: nat)
    requires Consistent(s) && cp !in s.storeRedo
    ensures cp !in s.parked
  {
  }

  /** What a redo makes of it. */
  lemma RedoneFrom(t: Doc, redo: seq<nat>, before: nat)
    requires Consistent(t) && Fresh(t).storeRedo == redo + [before] && before < |t.rows| && !t.rows[before].evicted
    ensures Redone(t).Some? && Consistent(Redone(t).value) && Redone(t).value.rows == t.rows
    ensures var e := Redone(t).value;
      && Fresh(e) == e && e.drawing == t.rows[before].drawing && Effective(e) == t.rows[before].base
      && e.storeRedo == redo && e.parked == Fresh(t).parked - {before}
      && e.redo == (if before in Fresh(t).parked then Fresh(t).parked[before] else [])
  {
    var g := Fresh(t);
    FreshConsistent(t);
    assert (redo + [before])[..|redo|] == redo;
    hide Fresh, Replaced;
    assert Redone(t).Some?;
    RedoneShape(t);
    RedoneConsistent(t);
    FreshIs(Redone(t).value);
  }

  /** A redo where a store undo left off - or where later steps came back to - is back before that undo,
      exactly if the row it took for the content was undone from the same place. */
  lemma RedoInverts(s: Doc, sha: string, t: Doc)
    requires Consistent(s) && Undone(s, sha, {}).Some? && Consistent(t)
    requires Same(Undone(s, sha, {}).value, t) && Undone(s, sha, {}).value.rows <= t.rows
    ensures Redone(t).Some? && Consistent(Redone(t).value) && Redone(t).value.rows == t.rows
    ensures Same(Redone(t).value, s) <==> Moored(s)
  {
    hide Undone, Redone, Fresh, Effective, Consistent, Moored;
    var before := UndoneLeaves(s, sha);
    RedoneFrom(t, Fresh(s).storeRedo, before);
    var f := Fresh(s);
    assert f.parked[before := s.redo] - {before} == f.parked && f.parked - {before} == f.parked;
  }

  lemma FreshIs(s: Doc)
    ensures s.base.Some? && s.base.value.rev == s.revision ==> Fresh(s) == s
  {
  }

  lemma ResteppedIs(s: Doc, snap: Snap)
    ensures var next := Restepped(s, snap);
      && Fresh(next) == next && next.storeRedo == [] && next.parked == map[] && Effective(next) == snap.rev
      && next.drawing == snap.drawing && next.revision == s.revision + 1
      && next.rows == s.rows && next.pending == s.pending && next.undo == s.undo && next.redo == s.redo
  {
  }

  /** A redo where an in-memory undo left off is back before it, exactly if the step on top was the
      content. */
  lemma StepRedoInverts(s: Doc, t: Doc)
    requires |s.undo| >= 2 && Same(StepUndone(s), t)
    ensures t.redo != [] && (Same(StepRedone(t), s) <==> Topped(s))
    ensures StepRedone(t).rows == t.rows
  {
    hide Restepped, Effective, Fresh;
    var top := |s.undo| - 1;
    ResteppedIs(s.(redo := s.redo + [s.undo[top]], undo := s.undo[..top]), s.undo[top - 1]);
    var last := |t.redo| - 1;
    assert t.redo == s.redo + [s.undo[top]];
    assert t.redo[..last] == s.redo;
    ResteppedIs(t.(undo := t.undo + [t.redo[last]], redo := t.redo[..last]), t.redo[last]);
  }

  // ── any number of undos, then as many redos ──

  function UndoneTimes(s: Doc, shas: seq<string>): Option<Doc>
    decreases |shas|
  {
    if shas == [] then Some(s)
    else
      match DrawingUndone(s, shas[0], {})
      case None => None
      case Some(next) => UndoneTimes(next, shas[1..])
  }

  function RedoneTimes(s: Doc, n: nat): Option<Doc> {
    if n == 0 then Some(s)
    else
      match RedoneTimes(s, n - 1)
      case None => None
      case Some(next) => DrawingRedone(next)
  }

  /** Where undos can start that as many redos take back. */
  predicate Retraceable(s: Doc) {
    if |s.undo| >= 2 then Topped(s) else Moored(s)
  }

  /** Every undo leaves such a place. */
  lemma UndoneIsRetraceable(s: Doc, sha: string)
    requires Consistent(s) && DrawingUndone(s, sha, {}).Some?
    ensures var next := DrawingUndone(s, sha, {}).value; Consistent(next) && Retraceable(next) && s.rows <= next.rows
  {
    hide Undone, Restepped, Effective, Fresh, Consistent, Anchored, Moored;
    var next := DrawingUndone(s, sha, {}).value;
    if |s.undo| >= 2 {
      SteppedConsistent(s);
      var top := |s.undo| - 1;
      ResteppedIs(s.(redo := s.redo + [s.undo[top]], undo := s.undo[..top]), s.undo[top - 1]);
      NewRevisionAnchored(s, next);
    } else {
      UndoneConsistent(s, sha, {});
      var _ := UndoneLeaves(s, sha);
    }
    AnchoredIsMoored(next);
  }

  lemma {:induction false} UndoneTimesConsistent(s: Doc, shas: seq<string>)
    requires Consistent(s) && UndoneTimes(s, shas).Some?
    ensures Consistent(UndoneTimes(s, shas).value) && s.rows <= UndoneTimes(s, shas).value.rows
    decreases |shas|
  {
    hide DrawingUndone, Consistent, Retraceable;
    if shas != [] {
      UndoneIsRetraceable(s, shas[0]);
      UndoneTimesConsistent(DrawingUndone(s, shas[0], {}).value, shas[1..]);
    }
  }

  /** One undo, whatever came after it that led back to `t`, and one redo. */
  lemma DrawingRedoInverts(s: Doc, sha: string, t: Doc)
    requires Consistent(s) && DrawingUndone(s, sha, {}).Some? && Consistent(t)
    requires Same(DrawingUndone(s, sha, {}).value, t) && DrawingUndone(s, sha, {}).value.rows <= t.rows
    ensures DrawingRedone(t).Some? && Consistent(DrawingRedone(t).value) && DrawingRedone(t).value.rows == t.rows
    ensures Same(DrawingRedone(t).value, s) <==> Retraceable(s)
  {
    hide Undone, Redone, Consistent, Topped, Moored, StepUndone, StepRedone;
    if |s.undo| >= 2 {
      StepRedoInverts(s, t);
      SteppedConsistent(t);
    } else {
      var _ := UndoneLeaves(s, sha);
      RedoInverts(s, sha, t);
    }
  }

  /** With no edit and no eviction between, as many `drawing_redo` as there were `drawing_undo` always
      succeed, across the border of in-memory steps and store; and they are back at the start - the
      content, the place it is undone from, both redo branches - exactly if the start was retraceable. */
  lemma {:induction false} RedosInvertUndos(s: Doc, shas: seq<string>)
    requires Consistent(s) && UndoneTimes(s, shas).Some?
    ensures var u := UndoneTimes(s, shas).value;
      && RedoneTimes(u, |shas|).Some?
      && var back := RedoneTimes(u, |shas|).value;
      && Consistent(back) && back.rows == u.rows && (Same(back, s) <==> shas == [] || Retraceable(s))
    decreases |shas|
  {
    hide DrawingUndone, DrawingRedone, Consistent, Same, Retraceable;
    if shas == [] {
      SameSelf(s);
    } else {
      var next := DrawingUndone(s, shas[0], {}).value;
      var u := UndoneTimes(s, shas).value;
      UndoneIsRetraceable(s, shas[0]);
      UndoneTimesConsistent(next, shas[1..]);
      RedosInvertUndos(next, shas[1..]);
      var t := RedoneTimes(u, |shas| - 1).value;
      SameTurned(t, next);
      DrawingRedoInverts(s, shas[0], t);
    }
  }

  lemma SameSelf(s: Doc)
    ensures Same(s, s)
  {
  }

  lemma SameTurned(a: Doc, b: Doc)
    requires Same(a, b)
    ensures Same(b, a)
  {
  }
}
