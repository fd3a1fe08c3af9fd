/** `EzdxfCheckpoints`: the engine's fields and the methods that change them, each as the function of
    `UndoRedo` it names says; and `drawing_undo` repeated until it has nothing left. */
module UndoRedoEngine {

  import opened Wrappers
  import opened UndoRedo
  import opened UndoRuns
  import opened UndoLaws

  class EzdxfCheckpoints {
    const depth: nat
    var drawing: string
    var revision: nat
    var base: Option<Base>
    var sha: Option<string>
    var shaRev: nat
    var storeRedo: seq<nat>
    var parked: map<nat, seq<Snap>>
    var undo: seq<Snap>
    var redo: seq<Snap>
    var rows: seq<Row>
    var pending: Option<Row>
    var begun: seq<Begun>

    function View(): Doc
      reads this
    {
      Doc(drawing, revision, base, sha, shaRev, storeRedo, parked, undo, redo, rows, pending, depth)
    }

    /** `drawing_new`. */
    constructor Blank(drawing: string, sha: Option<string>, depth: nat)
      ensures View() == Created(drawing, sha, depth) && Consistent(View()) && begun == []
    {
      this.depth, this.drawing, revision, base, this.sha, shaRev := depth, drawing, 0, None, None, 0;
      storeRedo, parked, undo, redo, rows, begun := [], map[], [], [], [], [];
      pending := Some(Row(New, 0, 0, drawing, sha, false));
      new;
      PushSnapshot();
    }

    method PushSnapshot()
      modifies this`undo, this`redo
      ensures View() == Pushed(old(View()))
    {
      if depth > 0 {
        undo := undo + [Snap(drawing, revision)];
        redo := [];
        ghost var all := undo;
        assert all[0..] == all;
        while |undo| > depth + 1
          invariant |undo| <= |all| && undo == all[|all| - |undo|..] && (|undo| <= depth ==> undo == all)
          invariant redo == [] && (|undo| == |all| || |undo| >= depth + 1)
        {
          assert undo[1..] == all[|all| - |undo| + 1..];
          undo := undo[1..];
        }
      }
    }

    /** Every edit ends here: `_dirty = True`, then the in-memory step. */
    method MarkDirty(drawing: string)
      modifies this
      ensures begun == old(begun)
      ensures View() == Changed(old(View()), drawing) && (old(Consistent(View())) ==> Consistent(View()))
    {
      ghost var was := View();
      if Consistent(was) {
        ChangedConsistent(was, drawing);
      }
      this.drawing := drawing;
      revision := revision + 1;
      PushSnapshot();
    }

    /** `_cp_redo_stack`. */
    method RedoStack() returns (cps: seq<nat>)
      modifies this`storeRedo, this`parked
      ensures View() == Fresh(old(View())) && cps == storeRedo
    {
      if (storeRedo != [] || parked != map[]) && !(base.Some? && base.value.rev == revision) {
        storeRedo, parked := [], map[];
      }
      cps := storeRedo;
    }

    method AddRow(row: Row, gone: set<nat>) returns (cp: nat)
      modifies this`rows, this`pending
      ensures View() == Add(old(View()), row, gone) && cp == |Rows(old(View()))| && pending == None
    {
      if pending.Some? && rows == [] {
        rows := [pending.value];
      }
      pending := None;
      cp := |rows|;
      rows := Evict(rows, gone) + [row.(base := if row.base < row.rev then row.base else row.rev, evicted := false)];
    }

    /** `_cp_capture_current`. */
    method CaptureCurrent(kind: Kind, digest: string, gone: set<nat>) returns (before: nat)
      modifies this`rows, this`pending, this`sha, this`shaRev
      ensures (View(), before) == Captured(old(View()), kind, digest, gone)
      ensures old(Consistent(View())) ==> Captures(old(View()), View(), kind, digest, gone) && Stored(old(View()), rows, before)
    {
      if Consistent(View()) {
        CaptureAddsIff(View(), kind, digest, gone);
        CapturedConsistent(View(), kind, digest, gone);
      }
      hide Captures, Consistent, Moored;
      var k := |rows|;
      assert rows[..k] == rows;
      while k > 0
        invariant 0 <= k <= |rows| && unchanged(this)
        invariant Holder(rows, revision) == Holder(rows[..k], revision)
      {
        assert rows[..k][..k - 1] == rows[..k - 1];
        k := k - 1;
        if !rows[k].evicted && rows[k].rev == revision {
          return k;
        }
      }
      before := AddRow(Row(kind, revision, Effective(View()), drawing, Some(digest), false), gone);
      sha, shaRev := Some(digest), revision;
    }

    /** `_cp_replace_document`. */
    method ReplaceDocument(row: Row)
      modifies this
      ensures begun == old(begun)
      ensures View() == Replaced(old(View()), row)
    {
      undo, redo := [], [];
      MarkDirty(row.drawing);
      sha, shaRev := row.sha, revision;
    }

    method BestCandidate() returns (best: Option<nat>)
      ensures best == Best(View(), Rows(View()), |Rows(View())|)
      ensures best.None? <==> forall i | 0 <= i < |Had(View())| :: !StepsBackTo(View(), Had(View())[i])
      ensures forall i: nat :: best == Some(i) <==> UndoGoesTo(View(), i)
    {
      BestIsTarget(View());
      var all := Rows(View());
      best := None;
      for k := 0 to |all|
        invariant best == Best(View(), all, k)
      {
        if Candidate(View(), all[k]) && (best.None? || Later(all, k, best.value)) {
          best := Some(k);
        }
      }
    }

    /** `_cp_undo_sync`. */
    method UndoSync(digest: string, gone: set<nat>) returns (ok: bool)
      modifies this
      ensures begun == old(begun)
      ensures ok <==> Undone(old(View()), digest, gone).Some?
      ensures View() == if ok then Undone(old(View()), digest, gone).value else Fresh(old(View()))
      ensures old(Consistent(View())) ==> UndoLands(old(View()), if ok then Some(View()) else None, digest, gone)
    {
      ghost var was := View();
      hide UndoLands, UndoGoesTo, StepsBackTo, Captures, Stored, Had, Rows, Best, Captured, Fresh, Candidate, Consistent, Replaced, Effective, Pushed;
      var target := BestCandidate();
      if target.None? {
        var _ := RedoStack();
        UndoTargetIf(was, digest, gone);
        return false;
      }
      var row := Rows(View())[target.value];
      var cps := RedoStack();
      var before := CaptureCurrent(PreUndo, digest, gone);
      var branch := redo;
      redo := [];
      ReplacedIs(View(), row);
      ReplaceDocument(row);
      if branch != [] {
        parked := parked[before := branch];
      }
      base := Some(Base(row.base, revision));
      storeRedo := cps + [before];
      ok := true;
      UndoTargetIf(was, digest, gone);
    }

    /** `_cp_redo_sync`; an evicted row is refused. */
    method RedoSync() returns (ok: bool)
      modifies this
      ensures begun == old(begun)
      ensures ok <==> Redone(old(View())).Some?
      ensures View() == if ok then Redone(old(View())).value else Fresh(old(View()))
      ensures ok <==> exists cp :: RedoGoesTo(old(View()), cp)
      ensures forall cp: nat | RedoGoesTo(old(View()), cp) :: RedoLands(old(View()), cp, View())
    {
      RedoTarget(View());
      hide Fresh, Replaced, RedoGoesTo, RedoLands;
      var cps := RedoStack();
      if cps == [] {
        return false;
      }
      var cp := cps[|cps| - 1];
      if cp >= |rows| || rows[cp].evicted {
        return false;
      }
      var row := rows[cp];
      ReplacedIs(View(), row);
      ReplaceDocument(row);
      base := Some(Base(row.base, revision));
      storeRedo := cps[..|cps| - 1];
      if cp in parked {
        redo := parked[cp];
      }
      parked := parked - {cp};
      ok := true;
    }

    method RestoreSnapshot(snap: Snap)
      modifies this
      ensures begun == old(begun)
      ensures View() == Restepped(old(View()), snap)
    {
      drawing, revision := snap.drawing, revision + 1;
      base := Some(Base(snap.rev, revision));
      storeRedo, parked := [], map[];
    }

    /** `drawing_undo`: the in-memory steps first. */
    method DrawingUndo(digest: string, gone: set<nat>) returns (ok: bool)
      requires Consistent(View())
      modifies this
      ensures begun == old(begun)
      ensures Consistent(View())
      ensures |old(undo)| >= 2 ==> ok && View() == StepUndone(old(View()))
      ensures |old(undo)| < 2 ==>
        && (ok <==> Undone(old(View()), digest, gone).Some?)
        && View() == (if ok then Undone(old(View()), digest, gone).value else Fresh(old(View())))
        && UndoLands(old(View()), if ok then Some(View()) else None, digest, gone)
    {
      hide Undone, Fresh, Consistent, UndoLands;
      SteppedConsistent(View());
      FreshConsistent(View());
      if |undo| >= 2 {
        redo := redo + [undo[|undo| - 1]];
        undo := undo[..|undo| - 1];
        RestoreSnapshot(undo[|undo| - 1]);
        return true;
      }
      if Undone(View(), digest, gone).Some? {
        UndoneConsistent(View(), digest, gone);
      }
      ok := UndoSync(digest, gone);
    }

    /** `drawing_redo`: the in-memory branch first. */
    method DrawingRedo() returns (ok: bool)
      requires Consistent(View())
      modifies this
      ensures begun == old(begun)
      ensures Consistent(View())
      ensures old(redo) != [] ==> ok && View() == StepRedone(old(View()))
      ensures old(redo) == [] ==>
        (ok <==> Redone(old(View())).Some?) && View() == if ok then Redone(old(View())).value else Fresh(old(View()))
    {
      hide Redone, Fresh, Consistent;
      SteppedConsistent(View());
      FreshConsistent(View());
      if redo != [] {
        var snap := redo[|redo| - 1];
        redo := redo[..|redo| - 1];
        undo := undo + [snap];
        RestoreSnapshot(snap);
        return true;
      }
      if Redone(View()).Some? {
        RedoneConsistent(View());
      }
      ok := RedoSync();
    }

    /** `drawing_undo` again and again comes to an end, in-memory steps, evictions and all: what is left
        is nothing it could step back to. */
    method UndoEverything(digest: string, gone: nat -> set<nat>) returns (undone: nat)
      requires Consistent(View())
      modifies this
      ensures begun == old(begun)
      ensures Consistent(View()) && |undo| < 2 && forall i | 0 <= i < |Had(View())| :: !StepsBackTo(View(), Had(View())[i])
    {
      hide Undone, Fresh, Consistent, Candidate, StepsBackTo;
      undone := 0;
      var more := true;
      while more
        invariant Consistent(View()) && begun == old(begun)
        invariant !more ==> |undo| < 2 && forall i | 0 <= i < |Had(View())| :: !StepsBackTo(View(), Had(View())[i])
        decreases if more then 1 else 0, if |undo| < 2 then 0 else |undo|, Effective(View())
      {
        ghost var was := View();
        SteppedConsistent(was);
        FreshConsistent(was);
        if Undone(was, digest, gone(undone)).Some? {
          UndoneConsistent(was, digest, gone(undone));
        } else {
          NothingStays(was, digest, gone(undone));
        }
        more := DrawingUndo(digest, gone(undone));
        undone := undone + 1;
      }
    }

    /** `transaction_begin`: what its close will need, the oldest begun out. */
    method TransactionBegin(most: nat)
      modifies this`begun
      ensures begun == Latest(old(begun) + [Begun(drawing, revision, Effective(View()))], most)
      ensures var all := old(begun) + [Begun(drawing, revision, if base.Some? && base.value.rev == revision then base.value.base else revision)];
        |begun| <= most && |begun| <= |all| && begun == all[|all| - |begun|..] && (|begun| < most ==> begun == all)
    {
      begun := begun + [Begun(drawing, revision, Effective(View()))];
      ghost var all := begun;
      assert all[0..] == all;
      while |begun| > most
        invariant |begun| <= |all| && begun == all[|all| - |begun|..] && (|begun| <= most ==> begun == Latest(all, most))
        invariant |begun| == |all| || |begun| >= most
      {
        assert begun[1..] == all[|all| - |begun| + 1..];
        begun := begun[1..];
      }
    }

    /** `transaction_commit`: the begin's snapshot becomes a row. */
    method TransactionCommit(digest: string, gone: set<nat>) returns (ok: bool)
      modifies this`begun, this`rows, this`pending
      ensures ok == (old(begun) != [])
      ensures begun == if ok then old(begun)[..|old(begun)| - 1] else old(begun)
      ensures View() == if ok then TransactionKept(old(View()), Last(old(begun)), digest, gone) else old(View())
    {
      if begun == [] {
        return false;
      }
      var kept := begun[|begun| - 1];
      begun := begun[..|begun| - 1];
      var _ := AddRow(Row(Transaction, kept.rev, kept.base, kept.drawing, Some(digest), false), gone);
      ok := true;
    }

    /** `transaction_rollback`: the snapshot's drawing at a new revision, undone from below its begin. */
    method TransactionRollback(digest: string, gone: set<nat>) returns (ok: bool)
      modifies this
      ensures ok == (old(begun) != [])
      ensures begun == if ok then old(begun)[..|old(begun)| - 1] else old(begun)
      ensures View() == if ok then RolledBack(old(View()), Last(old(begun)), digest, gone) else old(View())
    {
      if begun == [] {
        return false;
      }
      var kept := begun[|begun| - 1];
      begun := begun[..|begun| - 1];
      ok := true;
      RollTo(kept, digest, gone);
    }

    /** The snapshot taken up: a new revision, its row, and where it is undone from. */
    method RollTo(kept: Begun, digest: string, gone: set<nat>)
      modifies this
      ensures begun == old(begun) && View() == RolledBack(old(View()), kept, digest, gone)
    {
      hide Add, Rows, RolledBack, Effective;
      RolledBackIs(View(), kept, digest, gone);
      drawing, revision := kept.drawing, revision + 1;
      var _ := AddRow(Row(Transaction, kept.rev, kept.base, kept.drawing, Some(digest), false), gone);
      sha, shaRev := Some(digest), revision;
      base := Some(Base(kept.base, revision));
      storeRedo, parked := [], map[];
    }

    /** `_cp_on_save`. */
    method OnSave(digest: string, gone: set<nat>)
      requires Consistent(View())
      modifies this
      ensures begun == old(begun)
      ensures View() == Saved(old(View()), digest, gone) && Consistent(View())
      ensures SaveLands(old(View()), View(), digest, gone)
    {
      ghost var was := View();
      hide Add, Consistent, SaveLands;
      SavedConsistent(View(), digest, gone);
      var k := |rows|;
      assert rows[..k] == rows;
      while k > 0 && rows[k - 1].evicted
        invariant 0 <= k <= |rows| && Live(rows) == Live(rows[..k]) && unchanged(this)
      {
        assert rows[..k][..k - 1] == rows[..k - 1];
        k := k - 1;
      }
      sha, shaRev := Some(digest), revision;
      if k > 0 && rows[k - 1].rev == revision {
        SaveAddsIff(was, digest, gone);
        return;
      }
      var _ := AddRow(Row(Save, revision, Effective(View()), drawing, Some(digest), false), gone);
      SaveAddsIff(was, digest, gone);
    }

    /** `checkpoint_restore`, in place, of a row that can be read. */
    method Restore(cp: nat, digest: string, gone: set<nat>)
      requires Consistent(View()) && cp < |Rows(View())| && !Rows(View())[cp].evicted
      modifies this
      ensures begun == old(begun)
      ensures View() == RestoredTo(old(View()), cp, digest, gone) && Consistent(View())
      ensures RestoreLands(old(View()), old(Rows(View())[cp]), View(), digest, gone)
    {
      HadIs(View());
      RestoreTarget(View(), cp, digest, gone);
      hide RestoreLands, Captures, Stored;
      RestoredConsistent(View(), cp, digest, gone);
      var row := Rows(View())[cp];
      var _ := CaptureCurrent(PreRestore, digest, gone);
      ReplaceDocument(row);
      base := None;
      storeRedo, parked := [], map[];
    }
  }

  lemma UndoTargetIf(s: Doc, sha: string, gone: set<nat>)
    ensures Consistent(s) ==> UndoLands(s, Undone(s, sha, gone), sha, gone)
  {
    hide *;
    if Consistent(s) {
      UndoTarget(s, sha, gone);
    }
  }

  lemma RolledBackIs(s: Doc, begun: Begun, sha: string, gone: set<nat>)
    ensures var row := Row(Transaction, begun.rev, begun.base, begun.drawing, Some(sha), false);
      var added := Add(s.(drawing := begun.drawing, revision := s.revision + 1), row, gone);
      RolledBack(s, begun, sha, gone) == Doc(begun.drawing, s.revision + 1, Some(Base(begun.base, s.revision + 1)), Some(sha), s.revision + 1,
                                             [], map[], s.undo, s.redo, added.rows, None, s.depth)
  {
  }

  lemma NothingStays(s: Doc, sha: string, gone: set<nat>)
    requires Undone(s, sha, gone).None?
    ensures forall i | 0 <= i < |Had(Fresh(s))| :: !StepsBackTo(Fresh(s), Had(Fresh(s))[i])
  {
    BestIsTarget(s);
    NoneWithoutBest(s, sha, gone);
    assert Had(Fresh(s)) == Had(s);
    forall i | 0 <= i < |Had(s)| ensures !StepsBackTo(Fresh(s), Had(s)[i]) {
      assert !StepsBackTo(s, Had(s)[i]);
    }
  }
}
