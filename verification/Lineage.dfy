/** Revision numbers across processes (backends/lineage.py, with the opens and saves of
    backends/ezdxf_backend.py that call it): what (document id, revision) names never changes.

    A file's bytes carry a drawing; sha256 is injective, so a record keeps the bytes themselves. One
    process after another. An id is minted fresh. */
module Lineage {

  import opened Wrappers

  datatype Bytes = Bytes(drawing: string, stamp: nat)

  datatype Record = Record(lineage: nat, documentId: Option<nat>, saved: Option<Bytes>, revision: nat)

  /** What an open starts or continues. */
  datatype Line =
    | Started(parent: Option<nat>, changed: bool)
    | Continued(lineage: nat, documentId: nat, revision: nat, changed: bool, floor: Option<int>)

  /** `resolve_open`. */
  function ResolveOpen(record: Option<Record>, sha: Option<Bytes>, openElsewhere: bool, high: Option<int>): Line {
    match record
    case None => Started(None, false)
    case Some(r) =>
      var changed := sha.Some? && r.saved.Some? && sha != r.saved;
      if openElsewhere || r.documentId.None? then Started(Some(r.lineage), changed)
      else
        var base := if changed then r.revision + 1 else r.revision;
        if high.Some? && high.value >= base && high.value > r.revision then
          Continued(r.lineage, r.documentId.value, high.value + 1, changed, high)
        else Continued(r.lineage, r.documentId.value, base, changed, None)
  }

  /** A revision an open may continue at: not below the recorded one; above it if the bytes changed; and above
      what is known issued if that is above it. */
  predicate MayContinueAt(record: Record, sha: Option<Bytes>, high: Option<int>, revision: int) {
    && revision >= record.revision
    && (sha.Some? && record.saved.Some? && sha != record.saved ==> revision > record.revision)
    && (high.Some? && high.value > record.revision ==> revision > high.value)
  }

  /** An open continues its recorded document exactly when that has an id and is open nowhere else, at the
      least revision it may, keeping what was above the recorded one as its floor; else it starts anew, the
      recorded lineage for its parent. It is changed exactly if both hashes are known and differ. */
  lemma ResolvesTo(record: Option<Record>, sha: Option<Bytes>, openElsewhere: bool, high: Option<int>)
    ensures var line := ResolveOpen(record, sha, openElsewhere, high);
      && (line.Continued? <==> record.Some? && record.value.documentId.Some? && !openElsewhere)
      && (line.changed <==> record.Some? && sha.Some? && record.value.saved.Some? && sha != record.value.saved)
      && (line.Started? ==> line.parent == if record.Some? then Some(record.value.lineage) else None)
      && (line.Continued? ==>
            && line.lineage == record.value.lineage && Some(line.documentId) == record.value.documentId
            && MayContinueAt(record.value, sha, high, line.revision)
            && (forall revision | MayContinueAt(record.value, sha, high, revision) :: line.revision <= revision)
            && line.floor == if high.Some? && high.value > record.value.revision then high else None)
  {
  }

  /** Whatever is known issued, a continued revision is above it - or is the recorded one, of the very
      bytes recorded, with nothing issued above. */
  lemma ContinuesAbove(record: Record, sha: Option<Bytes>, high: Option<int>)
    requires record.documentId.Some?
    ensures var line := ResolveOpen(Some(record), sha, false, high);
      && line.Continued? && line.revision >= record.revision
      && (high.Some? ==> line.revision > high.value || (high.value == record.revision == line.revision))
      && (line.revision == record.revision <==> !line.changed && (high.None? || high.value <= record.revision))
      && (line.revision == record.revision && sha.Some? && record.saved.Some? ==> sha == record.saved)
  {
  }

  /** An open continues at the recorded revision exactly when no change of bytes can be seen - they are
      the recorded ones, or one of the two hashes is missing - and nothing above was issued. */
  lemma ContinuesAtRecordedIff(record: Record, sha: Option<Bytes>, high: Option<int>)
    requires record.documentId.Some?
    ensures ResolveOpen(Some(record), sha, false, high).revision == record.revision
            <==> (sha.None? || record.saved.None? || sha == record.saved) && (high.None? || high.value <= record.revision)
  {
  }

  /** So other bytes under the recorded revision are missed exactly without a hash on both sides. */
  lemma UnhashedChangeIsMissed(record: Record, bytes: Bytes, hashed: bool, high: Option<int>)
    requires record.documentId.Some? && record.saved != Some(bytes)
    ensures ResolveOpen(Some(record), if hashed then Some(bytes) else None, false, high).revision == record.revision
            <==> (!hashed || record.saved.None?) && (high.None? || high.value <= record.revision)
  {
    ContinuesAtRecordedIff(record, if hashed then Some(bytes) else None, high);
  }

  // ── runs ──

  datatype Name = Name(documentId: nat, revision: nat)

  /** An open document; `unrecorded` is a read or write its lineage record has yet to follow, with the
      hash taken if one was. */
  datatype Doc = Doc(path: Option<string>, lineage: nat, documentId: nat, revision: nat, drawing: string, unrecorded: Option<Option<Bytes>>)

  /** `names` says what each revision ever issued holds; `past` those a running process does not know of
      by itself; `noted` is its `_issued_high`. */
  datatype World = World(
    files: map<string, Bytes>, records: map<string, Record>, docs: map<nat, Doc>, noted: map<nat, nat>,
    names: map<Name, string>, past: set<Name>, minted: nat)

  /** An open reads the file and then hashes what it finds in its place: `found`, none if it is gone.
      Recovering from its damage it reads the file as a document of its own, and leaves no record of it. */
  datatype Event =
    | New(key: nat, drawing: string)
    | Open(key: nat, path: string, found: Option<Bytes>, journal: Option<int>, recovering: bool)
    | Edit(key: nat, drawing: string)
    | WriteFile(key: nat, path: string, stamp: nat)
    | WriteRecord(key: nat)
    | MissRecord(key: nat)
    | Close(key: nat)
    | Quarantine(key: nat)
    | Change(path: string, found: Option<Bytes>)
    | LoseRecord(path: string)
    | Kill

  function RecordOf(w: World, path: string): Option<Record> {
    if path in w.records then Some(w.records[path]) else None
  }

  predicate HeldAt(doc: Doc, path: string) {
    doc.path == Some(path)
  }

  /** `_lineage_open_elsewhere`. */
  predicate OpenElsewhere(w: World, lineage: nat, path: string) {
    exists key :: key in w.docs && w.docs[key].lineage == lineage && !HeldAt(w.docs[key], path)
  }

  /** `high` is the highest revision the process knows issued under the id (`_revision_high`). */
  ghost predicate High(w: World, documentId: nat, journal: Option<int>, high: Option<int>) {
    && (forall key | key in w.docs && w.docs[key].documentId == documentId :: high.Some? && w.docs[key].revision <= high.value)
    && (documentId in w.noted ==> high.Some? && w.noted[documentId] <= high.value)
    && (journal.Some? ==> high.Some? && journal.value <= high.value)
    && (high.Some? ==>
          || (exists key :: key in w.docs && w.docs[key].documentId == documentId && w.docs[key].revision == high.value)
          || (documentId in w.noted && w.noted[documentId] == high.value)
          || journal == high)
  }

  predicate Enabled(w: World, e: Event) {
    match e
    case New(key, _) => key !in w.docs
    case Open(key, path, _, _, _) => key !in w.docs && path in w.files && forall k | k in w.docs :: w.docs[k].unrecorded.None?
    case Edit(key, _) => key in w.docs && w.docs[key].unrecorded.None?
    case WriteFile(key, path, _) =>
      && key in w.docs && w.docs[key].unrecorded.None?
      && forall k | k in w.docs && k != key :: !HeldAt(w.docs[k], path)   // "a file is held by one open document"
    case WriteRecord(key) => key in w.docs && w.docs[key].unrecorded.Some? && w.docs[key].path.Some?
    case MissRecord(key) => key in w.docs && w.docs[key].unrecorded.Some?
    case Close(key) => key in w.docs
    case Quarantine(key) => key in w.docs
    case Change(_, _) => true
    case LoseRecord(_) => true
    case Kill => true
  }

  /** An open that a record may continue. */
  predicate Continues(w: World, e: Event) {
    e.Open? && !e.recovering && e.path in w.records && w.records[e.path].documentId.Some?
  }

  /** The record an open reads. */
  function RecordRead(w: World, e: Event): Option<Record>
    requires e.Open?
  {
    if e.recovering then None else RecordOf(w, e.path)
  }

  /** Something under the id is known issued above the revision. */
  predicate KnownAbove(w: World, documentId: nat, journal: Option<int>, revision: nat) {
    || (exists key :: key in w.docs && w.docs[key].documentId == documentId && w.docs[key].revision > revision)
    || (documentId in w.noted && w.noted[documentId] > revision)
    || (journal.Some? && journal.value > revision)
  }

  /** An open that goes on at the recorded revision - no change of the hash can be seen and nothing is known
      issued above - having read another drawing than the one it names. */
  predicate Blind(w: World, e: Event) {
    && Continues(w, e) && Enabled(w, e) && !OpenElsewhere(w, w.records[e.path].lineage, e.path)
    && var r := w.records[e.path];
       && (e.found.None? || r.saved.None? || e.found == r.saved)
       && !KnownAbove(w, r.documentId.value, e.journal, r.revision)
       && Name(r.documentId.value, r.revision) in w.names
       && w.names[Name(r.documentId.value, r.revision)] != w.files[e.path].drawing
  }

  /** The journal bounds what processes before issued and this one cannot know. */
  ghost predicate Bounded(w: World, e: Event) {
    Continues(w, e) ==>
      forall n | n in w.past && n.documentId == w.records[e.path].documentId.value ::
        n.revision <= w.records[e.path].revision || (e.journal.Some? && n.revision <= e.journal.value)
  }

  function Noted(noted: map<nat, nat>, doc: Doc): map<nat, nat> {
    noted[doc.documentId := if doc.documentId in noted && noted[doc.documentId] > doc.revision then noted[doc.documentId] else doc.revision]
  }

  /** The documents held at `path` dropped, what they issued noted. */
  ghost predicate Dropped(w: World, path: string, docs: map<nat, Doc>, noted: map<nat, nat>) {
    && docs == (map key | key in w.docs && !HeldAt(w.docs[key], path) :: w.docs[key])
    && (forall id | id in w.noted :: id in noted && noted[id] >= w.noted[id])
    && (forall key | key in w.docs && HeldAt(w.docs[key], path) :: w.docs[key].documentId in noted && noted[w.docs[key].documentId] >= w.docs[key].revision)
    && (forall id | id in noted ::
          (id in w.noted && w.noted[id] == noted[id])
          || exists key :: key in w.docs && HeldAt(w.docs[key], path) && w.docs[key].documentId == id && w.docs[key].revision == noted[id])
  }

  function Put(files: map<string, Bytes>, path: string, found: Option<Bytes>): map<string, Bytes> {
    if found.Some? then files[path := found.value] else files - {path}
  }

  /** The world after the open of `e.path` is registered, its bytes read and `line` resolved. */
  function Registered(w: World, e: Event, line: Line, docs: map<nat, Doc>, noted: map<nat, nat>): World
    requires e.Open? && e.path in w.files
  {
    var bytes := w.files[e.path];
    var unrecorded := if e.recovering then None else Some(e.found);
    var doc := match line
      case Started(_, _) => Doc(Some(e.path), w.minted, w.minted, 0, bytes.drawing, unrecorded)
      case Continued(lineage, id, revision, _, _) => Doc(Some(e.path), lineage, id, revision, bytes.drawing, unrecorded);
    w.(files := Put(w.files, e.path, e.found), docs := docs[e.key := doc], noted := noted,
       names := w.names[Name(doc.documentId, doc.revision) := bytes.drawing],
       minted := if line.Started? then w.minted + 1 else w.minted)
  }

  function Resolved(w: World, e: Event, high: Option<int>): Line
    requires e.Open? && e.path in w.files
  {
    ResolveOpen(RecordRead(w, e), e.found, e.path in w.records && OpenElsewhere(w, w.records[e.path].lineage, e.path), high)
  }

  ghost predicate Next(w: World, e: Event, next: World) {
    Enabled(w, e) &&
    match e
    case New(key, drawing) =>
      next == w.(docs := w.docs[key := Doc(None, w.minted, w.minted, 0, drawing, None)],
                 names := w.names[Name(w.minted, 0) := drawing], minted := w.minted + 1)
    case Open(key, path, _, journal, _) =>
      exists high, docs, noted ::
        && (Continues(w, e) ==> High(w, w.records[path].documentId.value, journal, high))
        && Dropped(w, path, docs, noted)
        && next == Registered(w, e, Resolved(w, e, high), docs, noted)
    case Edit(key, drawing) =>
      var doc := w.docs[key];
      next == w.(docs := w.docs[key := doc.(drawing := drawing, revision := doc.revision + 1)],
                 names := w.names[Name(doc.documentId, doc.revision + 1) := drawing])
    case WriteFile(key, path, stamp) =>
      var bytes := Bytes(w.docs[key].drawing, stamp);
      next == w.(files := w.files[path := bytes], docs := w.docs[key := w.docs[key].(path := Some(path), unrecorded := Some(Some(bytes)))])
    case WriteRecord(key) =>
      var doc := w.docs[key];
      next == w.(records := w.records[doc.path.value := Record(doc.lineage, Some(doc.documentId), doc.unrecorded.value, doc.revision)],
                 docs := w.docs[key := doc.(unrecorded := None)])
    case MissRecord(key) => next == w.(docs := w.docs[key := w.docs[key].(unrecorded := None)])
    case Close(key) => next == w.(docs := w.docs - {key}, noted := Noted(w.noted, w.docs[key]))
    case Quarantine(key) =>
      next == w.(docs := w.docs - {key}, past := w.past + (set n | n in w.names && n.documentId == w.docs[key].documentId))
    case Change(path, found) => next == w.(files := Put(w.files, path, found))
    case LoseRecord(path) => next == w.(records := w.records - {path})
    case Kill => next == w.(docs := map[], noted := map[], past := w.names.Keys)
  }

  ghost predicate IsRun(worlds: seq<World>, events: seq<Event>) {
    && |worlds| == |events| + 1
    && worlds[0] == World(worlds[0].files, map[], map[], map[], map[], {}, 0)
    && forall i | 0 <= i < |events| :: Next(worlds[i], events[i], worlds[i + 1]) && Bounded(worlds[i], events[i])
  }

  // ── what every moment keeps ──

  /** An open document's drawing is what its revision names, and nothing higher was issued for it. */
  ghost predicate DocOk(w: World, key: nat)
    requires key in w.docs
  {
    var doc := w.docs[key];
    && doc.documentId < w.minted && doc.lineage < w.minted
    && Name(doc.documentId, doc.revision) in w.names && w.names[Name(doc.documentId, doc.revision)] == doc.drawing
    && (forall n | n in w.names && n.documentId == doc.documentId :: n.revision <= doc.revision)
  }

  /** A record's revision was issued. */
  ghost predicate RecordOk(w: World, path: string)
    requires path in w.records
  {
    var r := w.records[path];
    && r.documentId.Some? && r.documentId.value < w.minted && r.lineage < w.minted
    && Name(r.documentId.value, r.revision) in w.names
  }

  /** Documents of one id are of one lineage, open and recorded. */
  ghost predicate LineagesOk(w: World) {
    && (forall a, b | a in w.docs && b in w.docs && w.docs[a].documentId == w.docs[b].documentId :: a == b)
    && (forall a, p | a in w.docs && p in w.records && w.records[p].documentId == Some(w.docs[a].documentId) ::
          w.docs[a].lineage == w.records[p].lineage)
    && (forall p, q | p in w.records && q in w.records && w.records[p].documentId == w.records[q].documentId ::
          w.records[p].lineage == w.records[q].lineage)
  }

  /** A name of this process is under a document open, or noted. */
  ghost predicate Covered(docs: map<nat, Doc>, noted: map<nat, nat>, n: Name) {
    || (exists key :: key in docs && docs[key].documentId == n.documentId && n.revision <= docs[key].revision)
    || (n.documentId in noted && n.revision <= noted[n.documentId])
  }

  ghost predicate NamesOk(w: World) {
    && (forall n | n in w.names :: n.documentId < w.minted)
    && (forall n | n in w.past :: n in w.names)
    && (forall n | n in w.names && n !in w.past :: Covered(w.docs, w.noted, n))
  }

  ghost predicate DocsOk(w: World) {
    forall key | key in w.docs :: DocOk(w, key)
  }

  ghost predicate RecordsOk(w: World) {
    forall path | path in w.records :: RecordOk(w, path)
  }

  ghost predicate Kept(w: World) {
    DocsOk(w) && RecordsOk(w) && LineagesOk(w) && NamesOk(w)
  }

  /** What was named stays so. */
  ghost predicate Faithful(w: World, next: World) {
    forall n | n in w.names :: n in next.names && next.names[n] == w.names[n]
  }

  // ── one name more ──

  /** Between the two `n` was named. */
  ghost predicate Named(w: World, next: World, n: Name, drawing: string) {
    && next.names == w.names[n := drawing]
    && n.documentId < next.minted && w.minted <= next.minted
  }

  lemma NamedFaithful(w: World, next: World, n: Name, drawing: string)
    requires Named(w, next, n, drawing)
    ensures Faithful(w, next) <==> n !in w.names || w.names[n] == drawing
  {
  }

  lemma DocFrame(w: World, next: World, key: nat, n: Name, drawing: string)
    requires key in w.docs && DocOk(w, key) && key in next.docs && next.docs[key] == w.docs[key]
    requires Named(w, next, n, drawing) && n.documentId != w.docs[key].documentId
    ensures DocOk(next, key)
  {
  }

  lemma RecordsFrame(w: World, next: World)
    requires RecordsOk(w) && (forall n | n in w.names :: n in next.names) && w.minted <= next.minted
    requires forall path | path in next.records :: path in w.records && next.records[path] == w.records[path]
    ensures RecordsOk(next)
  {
    forall path | path in next.records ensures RecordOk(next, path) {
      assert RecordOk(w, path);
    }
  }

  /** A document named `n`, at `key`, and the others as they were: the names are covered. */
  lemma NamesWith(w: World, next: World, key: nat, n: Name, drawing: string)
    requires NamesOk(w) && Named(w, next, n, drawing) && next.past == w.past
    requires key in next.docs && next.docs[key].documentId == n.documentId && next.docs[key].revision == n.revision
    requires forall m | m in w.names && m !in w.past && m.documentId != n.documentId :: Covered(next.docs, next.noted, m)
    requires forall m | m in w.names && m.documentId == n.documentId :: m.revision <= n.revision
    ensures NamesOk(next)
  {
    forall m | m in next.names && m !in next.past ensures Covered(next.docs, next.noted, m) {
      if m.documentId == n.documentId {
        assert key in next.docs && next.docs[key].documentId == m.documentId && m.revision <= next.docs[key].revision;
      }
    }
  }

  /** A document in place of what was at `key`, its revision named. */
  ghost predicate Placed(w: World, next: World, key: nat, docs: map<nat, Doc>, noted: map<nat, nat>, doc: Doc) {
    && next.docs == docs[key := doc] && next.noted == noted && next.past == w.past && next.records == w.records
    && Named(w, next, Name(doc.documentId, doc.revision), doc.drawing)
    && doc.lineage < next.minted
    && (forall k | k in docs && k != key :: k in w.docs && docs[k] == w.docs[k] && docs[k].documentId != doc.documentId)
    && (forall n | n in w.names && n.documentId == doc.documentId :: n.revision <= doc.revision)
    && (forall p | p in w.records && w.records[p].documentId == Some(doc.documentId) :: w.records[p].lineage == doc.lineage)
    && (forall m | m in w.names && m !in w.past && m.documentId != doc.documentId :: Covered(next.docs, noted, m))
  }

  lemma PlacedDocs(w: World, next: World, key: nat, docs: map<nat, Doc>, noted: map<nat, nat>, doc: Doc)
    requires DocsOk(w) && Placed(w, next, key, docs, noted, doc)
    ensures DocsOk(next)
  {
    hide Covered;
    var n := Name(doc.documentId, doc.revision);
    forall k | k in next.docs ensures DocOk(next, k) {
      if k != key {
        DocFrame(w, next, k, n, doc.drawing);
      }
    }
  }

  lemma PlacedLineages(w: World, next: World, key: nat, docs: map<nat, Doc>, noted: map<nat, nat>, doc: Doc)
    requires LineagesOk(w) && Placed(w, next, key, docs, noted, doc)
    ensures LineagesOk(next)
  {
    hide Covered;
  }

  lemma PlacedKeeps(w: World, next: World, key: nat, docs: map<nat, Doc>, noted: map<nat, nat>, doc: Doc)
    requires Kept(w) && Placed(w, next, key, docs, noted, doc)
    ensures Kept(next)
    ensures var n := Name(doc.documentId, doc.revision); Faithful(w, next) <==> n !in w.names || w.names[n] == doc.drawing
  {
    var n := Name(doc.documentId, doc.revision);
    NamedFaithful(w, next, n, doc.drawing);
    PlacedDocs(w, next, key, docs, noted, doc);
    PlacedLineages(w, next, key, docs, noted, doc);
    PlacedNames(w, next, key, docs, noted, doc);
    hide DocsOk, LineagesOk, NamesOk, Faithful, Covered, RecordsOk;
    RecordsFrame(w, next);
  }

  lemma PlacedNames(w: World, next: World, key: nat, docs: map<nat, Doc>, noted: map<nat, nat>, doc: Doc)
    requires NamesOk(w) && Placed(w, next, key, docs, noted, doc)
    ensures NamesOk(next)
  {
    hide NamesOk, Covered;
    NamesWith(w, next, key, Name(doc.documentId, doc.revision), doc.drawing);
  }

  /** A name stays covered while its document's place does. */
  lemma CoverStays(w: World, docs: map<nat, Doc>, noted: map<nat, nat>, key: nat, doc: Doc, n: Name)
    requires Covered(w.docs, w.noted, n) && n.documentId != doc.documentId
    requires docs == w.docs[key := doc] && noted == w.noted && (key in w.docs ==> w.docs[key].documentId != n.documentId)
    ensures Covered(docs, noted, n)
  {
    if k :| k in w.docs && w.docs[k].documentId == n.documentId && n.revision <= w.docs[k].revision {
      assert k in docs && docs[k] == w.docs[k];
    }
  }

  lemma NewKeeps(w: World, e: Event, next: World)
    requires Kept(w) && e.New? && Next(w, e, next)
    ensures Kept(next) && Faithful(w, next)
  {
    var doc := Doc(None, w.minted, w.minted, 0, e.drawing, None);
    MintedIsFresh(w);
    NamesCovered(w);
    hide Kept, DocsOk, RecordsOk, LineagesOk, NamesOk, Covered, Faithful;
    forall m | m in w.names && m !in w.past && m.documentId != doc.documentId ensures Covered(next.docs, w.noted, m) {
      CoverStays(w, next.docs, w.noted, e.key, doc, m);
    }
    PlacedKeeps(w, next, e.key, w.docs, w.noted, doc);
  }

  lemma NamesCovered(w: World)
    requires NamesOk(w)
    ensures forall n | n in w.names && n !in w.past :: Covered(w.docs, w.noted, n)
    ensures forall n | n in w.names :: n.documentId < w.minted
  {
  }

  lemma EditKeeps(w: World, e: Event, next: World)
    requires Kept(w) && e.Edit? && Next(w, e, next)
    ensures Kept(next) && Faithful(w, next)
  {
    var was := w.docs[e.key];
    var doc := was.(drawing := e.drawing, revision := was.revision + 1);
    assert DocOk(w, e.key);
    NamesCovered(w);
    OwnLineage(w, e.key);
    hide Kept, DocsOk, RecordsOk, LineagesOk, NamesOk, Covered, Faithful;
    forall m | m in w.names && m !in w.past && m.documentId != doc.documentId ensures Covered(next.docs, w.noted, m) {
      CoverStays(w, next.docs, w.noted, e.key, doc, m);
    }
    PlacedKeeps(w, next, e.key, w.docs, w.noted, doc);
  }

  lemma OwnLineage(w: World, key: nat)
    requires LineagesOk(w) && key in w.docs
    ensures forall k | k in w.docs && k != key :: w.docs[k].documentId != w.docs[key].documentId
    ensures forall p | p in w.records && w.records[p].documentId == Some(w.docs[key].documentId) :: w.records[p].lineage == w.docs[key].lineage
  {
  }

  /** A write changes where a document is, not what it is. */
  lemma WriteFileKeeps(w: World, e: Event, next: World)
    requires Kept(w) && e.WriteFile? && Next(w, e, next)
    ensures Kept(next) && Faithful(w, next)
  {
    var was := w.docs[e.key];
    var doc := next.docs[e.key];
    assert DocOk(w, e.key);
    NamesCovered(w);
    OwnLineage(w, e.key);
    assert w.names[Name(doc.documentId, doc.revision) := doc.drawing] == w.names;
    hide Kept, DocsOk, RecordsOk, LineagesOk, NamesOk, Covered, Faithful;
    forall m | m in w.names && m !in w.past && m.documentId != doc.documentId ensures Covered(next.docs, w.noted, m) {
      CoverStays(w, next.docs, w.noted, e.key, doc, m);
    }
    PlacedKeeps(w, next, e.key, w.docs, w.noted, doc);
  }

  /** The record written; or missed, which leaves the one there was. */
  lemma WriteRecordKeeps(w: World, e: Event, next: World)
    requires Kept(w) && (e.WriteRecord? || e.MissRecord?) && Next(w, e, next)
    ensures Kept(next) && Faithful(w, next)
  {
    hide LineagesOk, RecordsOk, DocsOk, High, Dropped, Registered, Resolved;
    RecordedLineages(w, e, next);
    RecordedRecords(w, e, next);
    RecordedDocs(w, e, next);
    forall n | n in next.names && n !in next.past ensures Covered(next.docs, next.noted, n) {
      SameCover(w, next.docs, e.key, n);
    }
  }

  lemma RecordedDocs(w: World, e: Event, next: World)
    requires DocsOk(w) && (e.WriteRecord? || e.MissRecord?) && Next(w, e, next)
    ensures DocsOk(next)
  {
    forall k | k in next.docs ensures DocOk(next, k) {
      assert DocOk(w, k);
    }
  }

  lemma RecordedRecords(w: World, e: Event, next: World)
    requires RecordsOk(w) && DocsOk(w) && (e.WriteRecord? || e.MissRecord?) && Next(w, e, next)
    ensures RecordsOk(next)
  {
    assert DocOk(w, e.key);
    forall path | path in next.records ensures RecordOk(next, path) {
      assert path in w.records ==> RecordOk(w, path);
    }
  }

  lemma RecordedLineages(w: World, e: Event, next: World)
    requires LineagesOk(w) && (e.WriteRecord? || e.MissRecord?) && Next(w, e, next)
    ensures LineagesOk(next)
  {
    OwnLineage(w, e.key);
  }

  lemma SameCover(w: World, docs: map<nat, Doc>, key: nat, n: Name)
    requires Covered(w.docs, w.noted, n) && docs.Keys == w.docs.Keys
    requires forall k | k in docs :: docs[k].documentId == w.docs[k].documentId && docs[k].revision == w.docs[k].revision
    ensures Covered(docs, w.noted, n)
  {
    if k :| k in w.docs && w.docs[k].documentId == n.documentId && n.revision <= w.docs[k].revision {
      assert k in docs;
    }
  }

  /** Documents left, and the rest as it was. */
  lemma FewerKeeps(w: World, next: World)
    requires DocsOk(w) && RecordsOk(w) && LineagesOk(w)
    requires next.names == w.names && next.minted == w.minted
    requires forall k | k in next.docs :: k in w.docs && next.docs[k] == w.docs[k]
    requires forall p | p in next.records :: p in w.records && next.records[p] == w.records[p]
    ensures DocsOk(next) && RecordsOk(next) && LineagesOk(next)
  {
    forall k | k in next.docs ensures DocOk(next, k) {
      assert DocOk(w, k);
    }
    forall p | p in next.records ensures RecordOk(next, p) {
      assert RecordOk(w, p);
    }
  }

  lemma LeaveKeeps(w: World, e: Event, next: World)
    requires Kept(w) && (e.Close? || e.Quarantine? || e.Change? || e.LoseRecord? || e.Kill?) && Next(w, e, next)
    ensures Kept(next) && Faithful(w, next)
  {
    hide LineagesOk, RecordsOk, DocsOk;
    FewerKeeps(w, next);
    hide DocsOk, RecordsOk, LineagesOk;
    forall n | n in next.names && n !in next.past ensures Covered(next.docs, next.noted, n) {
      if e.Close? || e.Quarantine? {
        CoverLeft(w, e.key, next.docs, next.noted, n);
      }
    }
  }

  lemma CoverLeft(w: World, key: nat, docs: map<nat, Doc>, noted: map<nat, nat>, n: Name)
    requires Covered(w.docs, w.noted, n) && key in w.docs && docs == w.docs - {key}
    requires noted == Noted(w.noted, w.docs[key]) || (noted == w.noted && n.documentId != w.docs[key].documentId)
    ensures Covered(docs, noted, n)
  {
    if k :| k in w.docs && w.docs[k].documentId == n.documentId && n.revision <= w.docs[k].revision {
      assert k != key ==> k in docs && docs[k] == w.docs[k];
    }
  }

  /** Nothing above what an open continues from was issued under its id. */
  lemma IssuedBelow(w: World, e: Event, high: Option<int>, n: Name)
    requires NamesOk(w) && Continues(w, e) && Bounded(w, e)
    requires High(w, w.records[e.path].documentId.value, e.journal, high)
    requires n in w.names && n.documentId == w.records[e.path].documentId.value
    ensures n.revision <= w.records[e.path].revision || (high.Some? && n.revision <= high.value)
  {
    if n !in w.past {
      assert Covered(w.docs, w.noted, n);
    }
  }

  lemma HighIsKnown(w: World, documentId: nat, journal: Option<int>, high: Option<int>, revision: nat)
    requires High(w, documentId, journal, high)
    ensures KnownAbove(w, documentId, journal, revision) <==> high.Some? && high.value > revision
  {
  }

  /** An open of `e.path` that continues its document: the revision is above every one issued, or is the
      recorded one - of the same drawing, exactly if the open is not blind. */
  lemma ContinuedIsNew(w: World, e: Event, high: Option<int>)
    requires NamesOk(w) && Continues(w, e) && Enabled(w, e) && Bounded(w, e) && RecordOk(w, e.path)
    requires High(w, w.records[e.path].documentId.value, e.journal, high)
    requires !OpenElsewhere(w, w.records[e.path].lineage, e.path)
    ensures var line := Resolved(w, e, high);
      && line.Continued? && line.lineage == w.records[e.path].lineage && Some(line.documentId) == w.records[e.path].documentId
      && (forall n | n in w.names && n.documentId == line.documentId :: n.revision <= line.revision)
      && var n := Name(line.documentId, line.revision);
         Blind(w, e) <==> n in w.names && w.names[n] != w.files[e.path].drawing
  {
    var r := w.records[e.path];
    ContinuesAbove(r, e.found, high);
    ContinuesAtRecordedIff(r, e.found, high);
    HighIsKnown(w, r.documentId.value, e.journal, high, r.revision);
    hide High, NamesOk, Bounded, ResolveOpen, KnownAbove, OpenElsewhere;
    forall n | n in w.names && n.documentId == r.documentId.value
      ensures n.revision <= r.revision || (high.Some? && n.revision <= high.value)
    {
      IssuedBelow(w, e, high, n);
    }
  }

  /** No document left open once `path`'s is dropped has the id its record continues. */
  lemma NoneOfTheId(w: World, path: string, docs: map<nat, Doc>, noted: map<nat, nat>)
    requires LineagesOk(w) && path in w.records && !OpenElsewhere(w, w.records[path].lineage, path) && Dropped(w, path, docs, noted)
    ensures forall key | key in docs :: Some(docs[key].documentId) != w.records[path].documentId
    ensures forall p | p in w.records && w.records[p].documentId == w.records[path].documentId :: w.records[p].lineage == w.records[path].lineage
  {
  }

  lemma DroppedCover(w: World, path: string, docs: map<nat, Doc>, noted: map<nat, nat>, key: nat, doc: Doc, n: Name)
    requires Covered(w.docs, w.noted, n) && Dropped(w, path, docs, noted) && key !in w.docs
    ensures Covered(docs[key := doc], noted, n)
  {
    if k :| k in w.docs && w.docs[k].documentId == n.documentId && n.revision <= w.docs[k].revision {
      if HeldAt(w.docs[k], path) {
        assert noted[n.documentId] >= w.docs[k].revision;
      } else {
        assert k in docs[key := doc] && docs[key := doc][k] == w.docs[k];
      }
    }
  }

  lemma RegisteredKeeps(w: World, e: Event, docs: map<nat, Doc>, noted: map<nat, nat>, doc: Doc, next: World)
    requires Kept(w) && e.Open? && Enabled(w, e) && Dropped(w, e.path, docs, noted)
    requires doc.documentId < next.minted && doc.lineage < next.minted && w.minted <= next.minted
    requires next == w.(files := next.files, docs := docs[e.key := doc], noted := noted,
                        names := w.names[Name(doc.documentId, doc.revision) := doc.drawing], minted := next.minted)
    requires forall key | key in docs :: docs[key].documentId != doc.documentId
    requires forall n | n in w.names && n.documentId == doc.documentId :: n.revision <= doc.revision
    requires forall p | p in w.records && w.records[p].documentId == Some(doc.documentId) :: w.records[p].lineage == doc.lineage
    ensures Kept(next)
    ensures var n := Name(doc.documentId, doc.revision); Faithful(w, next) <==> n !in w.names || w.names[n] == doc.drawing
  {
    NamesCovered(w);
    hide Kept, DocsOk, RecordsOk, LineagesOk, NamesOk, Covered, Faithful;
    forall m | m in w.names && m !in w.past && m.documentId != doc.documentId ensures Covered(next.docs, noted, m) {
      DroppedCover(w, e.path, docs, noted, e.key, doc, m);
    }
    PlacedKeeps(w, next, e.key, docs, noted, doc);
  }

  /** An open keeps every name what it was exactly if it is not blind. */
  lemma OpenKeeps(w: World, e: Event, next: World)
    requires Kept(w) && e.Open? && Next(w, e, next) && Bounded(w, e)
    ensures Kept(next) && (Faithful(w, next) <==> !Blind(w, e))
  {
    hide NamesOk, DocsOk, LineagesOk, Faithful, High, Dropped, Resolved, Bounded, Blind;
    var high, docs, noted :|
      && (Continues(w, e) ==> High(w, w.records[e.path].documentId.value, e.journal, high))
      && Dropped(w, e.path, docs, noted)
      && next == Registered(w, e, Resolved(w, e, high), docs, noted);
    OpenedKeeps(w, e, high, docs, noted, next);
  }

  lemma StartedOrContinued(w: World, e: Event, high: Option<int>)
    requires e.Open? && e.path in w.files
    ensures Resolved(w, e, high).Continued? <==> Continues(w, e) && !OpenElsewhere(w, w.records[e.path].lineage, e.path)
  {
  }

  lemma OpenedKeeps(w: World, e: Event, high: Option<int>, docs: map<nat, Doc>, noted: map<nat, nat>, next: World)
    requires Kept(w) && e.Open? && Enabled(w, e) && Bounded(w, e)
    requires Continues(w, e) ==> High(w, w.records[e.path].documentId.value, e.journal, high)
    requires Dropped(w, e.path, docs, noted) && next == Registered(w, e, Resolved(w, e, high), docs, noted)
    ensures Kept(next) && (Faithful(w, next) <==> !Blind(w, e))
  {
    var line := Resolved(w, e, high);
    StartedOrContinued(w, e, high);
    MintedIsFresh(w);
    DroppedAreOpen(w, e.path, docs, noted);
    if line.Continued? {
      assert RecordOk(w, e.path);
      ContinuedIsNew(w, e, high);
      NoneOfTheId(w, e.path, docs, noted);
    } else {
      assert !Blind(w, e);
    }
    var doc := next.docs[e.key];
    hide NamesOk, DocsOk, RecordsOk, LineagesOk, Kept, Faithful, High, Dropped, Resolved, Bounded, OpenElsewhere, Blind, Continues;
    RegisteredKeeps(w, e, docs, noted, doc, next);
  }

  lemma DroppedAreOpen(w: World, path: string, docs: map<nat, Doc>, noted: map<nat, nat>)
    requires Dropped(w, path, docs, noted)
    ensures forall key | key in docs :: key in w.docs && docs[key] == w.docs[key]
  {
  }

  lemma MintedIsFresh(w: World)
    requires Kept(w)
    ensures forall key | key in w.docs :: w.docs[key].documentId < w.minted
    ensures forall n | n in w.names :: n.documentId < w.minted
    ensures forall p | p in w.records :: w.records[p].documentId.Some? && w.records[p].documentId.value < w.minted && w.records[p].lineage < w.minted
  {
    hide LineagesOk, Covered;
    forall key | key in w.docs ensures w.docs[key].documentId < w.minted {
      assert DocOk(w, key);
    }
    forall p | p in w.records ensures w.records[p].documentId.Some? && w.records[p].documentId.value < w.minted && w.records[p].lineage < w.minted {
      assert RecordOk(w, p);
    }
  }

  /** A step keeps every name what it was exactly if it is no blind open. */
  lemma NextKeeps(w: World, e: Event, next: World)
    requires Kept(w) && Next(w, e, next) && Bounded(w, e)
    ensures Kept(next) && (Faithful(w, next) <==> !Blind(w, e))
  {
    hide Kept, Faithful, Next, Bounded, Blind;
    if !e.Open? {
      OnlyOpensAreBlind(w, e);
    }
    match e
    case New(_, _) => NewKeeps(w, e, next);
    case Open(_, _, _, _, _) => OpenKeeps(w, e, next);
    case Edit(_, _) => EditKeeps(w, e, next);
    case WriteFile(_, _, _) => WriteFileKeeps(w, e, next);
    case WriteRecord(_) => WriteRecordKeeps(w, e, next);
    case MissRecord(_) => WriteRecordKeeps(w, e, next);
    case _ => LeaveKeeps(w, e, next);
  }

  lemma OnlyOpensAreBlind(w: World, e: Event)
    ensures Blind(w, e) ==> e.Open?
  {
  }

  ghost predicate NoneBlind(worlds: seq<World>, events: seq<Event>, n: nat)
    requires n <= |events| < |worlds|
  {
    forall i | 0 <= i < n :: !Blind(worlds[i], events[i])
  }

  lemma {:induction false} RunKeeps(worlds: seq<World>, events: seq<Event>, i: nat)
    requires IsRun(worlds, events) && i < |worlds|
    ensures Kept(worlds[i])
  {
    hide Next, Bounded, Blind, Kept, Faithful;
    if i > 0 {
      RunKeeps(worlds, events, i - 1);
      NextKeeps(worlds[i - 1], events[i - 1], worlds[i]);
    } else {
      NothingNamed(worlds[0]);
    }
  }

  lemma NothingNamed(w: World)
    requires w == World(w.files, map[], map[], map[], map[], {}, 0)
    ensures Kept(w) && Honest(w)
  {
  }

  /** Every (document id, revision) issued names one drawing for good. */
  ghost predicate NeverTurns(worlds: seq<World>) {
    forall i | 0 <= i < |worlds| - 1 :: Faithful(worlds[i], worlds[i + 1])
  }

  /** Over any run of opens, edits, saves - killed between the file and its record or not -, outside
      changes, lost records, closes and kills: a document id and revision once issued names one drawing
      for good exactly if no open is blind. */
  lemma RevisionsTurnIff(worlds: seq<World>, events: seq<Event>)
    requires IsRun(worlds, events)
    ensures NeverTurns(worlds) <==> NoneBlind(worlds, events, |events|)
  {
    hide Kept, Faithful, Next, Bounded, Blind;
    if NoneBlind(worlds, events, |events|) {
      forall i | 0 <= i < |worlds| - 1 ensures Faithful(worlds[i], worlds[i + 1]) {
        RunKeeps(worlds, events, i);
        NextKeeps(worlds[i], events[i], worlds[i + 1]);
      }
    } else {
      var i := FirstBlind(worlds, events, |events|);
      RunKeeps(worlds, events, i);
      NextKeeps(worlds[i], events[i], worlds[i + 1]);
      assert !Faithful(worlds[i], worlds[i + 1]);
    }
  }

  lemma {:induction false} FirstBlind(worlds: seq<World>, events: seq<Event>, n: nat) returns (first: nat)
    requires n <= |events| < |worlds| && !NoneBlind(worlds, events, n)
    ensures first < n && Blind(worlds[first], events[first]) && NoneBlind(worlds, events, first)
    decreases n
  {
    hide Blind;
    if n > 0 && !NoneBlind(worlds, events, n - 1) {
      first := FirstBlind(worlds, events, n - 1);
    } else {
      first := n - 1;
    }
  }

  /** An open that hashes the drawing it read. */
  predicate HashedAsRead(w: World, e: Event) {
    e.Open? ==> e.recovering || (e.path in w.files && e.found.Some? && e.found.value.drawing == w.files[e.path].drawing)
  }

  /** Every record, written or yet to be, has a hash, of the drawing its revision names. */
  ghost predicate Honest(w: World) {
    && (forall path | path in w.records :: RecordOk(w, path) && var r := w.records[path];
          r.saved.Some? && r.saved.value.drawing == w.names[Name(r.documentId.value, r.revision)])
    && (forall key | key in w.docs && w.docs[key].unrecorded.Some? ::
          w.docs[key].unrecorded.value.Some? && w.docs[key].unrecorded.value.value.drawing == w.docs[key].drawing)
  }

  lemma HonestIsNotBlind(w: World, e: Event)
    requires Honest(w) && HashedAsRead(w, e)
    ensures !Blind(w, e)
  {
  }

  lemma HonestNext(w: World, e: Event, next: World)
    requires DocsOk(w) && RecordsOk(next) && Honest(w) && Next(w, e, next) && Faithful(w, next) && HashedAsRead(w, e)
    ensures Honest(next)
  {
    hide DocsOk, Faithful, Honest, HashedAsRead, High, OpenElsewhere, Resolved, Registered, Dropped;
    if e.Open? {
      HonestOpen(w, e, next);
    } else if e.WriteRecord? {
      HonestRecord(w, e, next);
    } else {
      HonestLeft(w, e, next);
    }
  }

  lemma HonestOpen(w: World, e: Event, next: World)
    requires RecordsOk(next) && Honest(w) && e.Open? && Next(w, e, next) && Faithful(w, next) && HashedAsRead(w, e)
    ensures Honest(next)
  {
    hide High, OpenElsewhere, Resolved;
    forall path | path in next.records ensures RecordOk(next, path) {
    }
  }

  lemma HonestRecord(w: World, e: Event, next: World)
    requires DocsOk(w) && RecordsOk(next) && Honest(w) && e.WriteRecord? && Next(w, e, next)
    ensures Honest(next)
  {
    hide High, OpenElsewhere, Resolved, Registered, Dropped;
    assert DocOk(w, e.key);
    forall path | path in next.records ensures RecordOk(next, path) {
    }
  }

  lemma HonestLeft(w: World, e: Event, next: World)
    requires RecordsOk(next) && Honest(w) && !e.Open? && !e.WriteRecord? && Next(w, e, next) && Faithful(w, next)
    ensures Honest(next)
  {
    hide High, OpenElsewhere, Resolved, Registered, Dropped;
    forall path | path in next.records ensures RecordOk(next, path) {
    }
  }

  lemma KeptHas(w: World)
    requires Kept(w)
    ensures DocsOk(w) && RecordsOk(w)
  {
  }

  lemma {:induction false} HonestRunKeeps(worlds: seq<World>, events: seq<Event>, i: nat)
    requires IsRun(worlds, events) && i < |worlds|
    requires forall k | 0 <= k < |events| :: HashedAsRead(worlds[k], events[k])
    ensures Kept(worlds[i]) && Honest(worlds[i])
  {
    hide Kept, Next, Bounded, Blind, Honest, Faithful, HashedAsRead;
    if i > 0 {
      HonestRunKeeps(worlds, events, i - 1);
      HonestIsNotBlind(worlds[i - 1], events[i - 1]);
      NextKeeps(worlds[i - 1], events[i - 1], worlds[i]);
      KeptHas(worlds[i - 1]);
      KeptHas(worlds[i]);
      HonestNext(worlds[i - 1], events[i - 1], worlds[i]);
    } else {
      NothingNamed(worlds[0]);
    }
  }

  lemma HonestRunNeverTurns(worlds: seq<World>, events: seq<Event>)
    requires IsRun(worlds, events) && forall k | 0 <= k < |events| :: HashedAsRead(worlds[k], events[k])
    ensures NeverTurns(worlds)
  {
    hide Kept, Next, Bounded, Blind, Honest, Faithful, HashedAsRead;
    forall k | 0 <= k < |events| ensures !Blind(worlds[k], events[k]) {
      HonestRunKeeps(worlds, events, k);
      HonestIsNotBlind(worlds[k], events[k]);
    }
    RevisionsTurnIff(worlds, events);
  }

  /** So in a run whose every open does. */
  lemma {:induction false} RevisionsNeverTurn(worlds: seq<World>, events: seq<Event>, i: nat, j: nat, n: Name)
    requires IsRun(worlds, events) && i <= j < |worlds| && n in worlds[i].names
    requires forall k | 0 <= k < |events| :: HashedAsRead(worlds[k], events[k])
    ensures n in worlds[j].names && worlds[j].names[n] == worlds[i].names[n]
    decreases j
  {
    hide Next, Bounded, HashedAsRead;
    HonestRunNeverTurns(worlds, events);
    if i < j {
      RevisionsNeverTurn(worlds, events, i, j - 1, n);
      assert Faithful(worlds[j - 1], worlds[j - 1 + 1]);
    }
  }

  /** And no two open documents ever share an id: an open whose lineage is open elsewhere forks. */
  lemma OpenIdsDiffer(worlds: seq<World>, events: seq<Event>, i: nat, a: nat, b: nat)
    requires IsRun(worlds, events) && i < |worlds| && a in worlds[i].docs && b in worlds[i].docs && a != b
    ensures worlds[i].docs[a].documentId != worlds[i].docs[b].documentId
    ensures var d := worlds[i].docs[a];
      Name(d.documentId, d.revision) in worlds[i].names && worlds[i].names[Name(d.documentId, d.revision)] == d.drawing
  {
    RunKeeps(worlds, events, i);
    assert DocOk(worlds[i], a);
  }

  // ── two runs with a blind open ──

  /** The file is read; what is hashed is `found`: it was taken away, or another put in its place. That is
      recorded, the document closed, and a file that holds the other drawing opened. */
  function BlindRun(found: Option<Bytes>, other: Bytes): seq<Event> {
    [ Open(0, "a.dxf", found, None, false), WriteRecord(0), Close(0), Change("a.dxf", Some(other)),
      Open(0, "a.dxf", Some(other), None, false) ]
  }

  /** The one document id and revision names both drawings. */
  lemma BlindRunTurns(was: Bytes, found: Option<Bytes>, other: Bytes) returns (worlds: seq<World>)
    requires other.drawing != was.drawing && found in {None, Some(other)}
    ensures |worlds| == 6 && IsRun(worlds, BlindRun(found, other))
    ensures worlds[0].files == map["a.dxf" := was] && worlds[4].files == map["a.dxf" := other]
    ensures Blind(worlds[4], BlindRun(found, other)[4])
    ensures worlds[1].names == map[Name(0, 0) := was.drawing] && worlds[5].names == map[Name(0, 0) := other.drawing]
  {
    hide Next, Bounded, Blind, IsRun, Put;
    var w0 := World(map["a.dxf" := was], map[], map[], map[], map[], {}, 0);
    var read := Doc(Some("a.dxf"), 0, 0, 0, was.drawing, Some(found));
    var w1 := w0.(files := Put(w0.files, "a.dxf", found), docs := map[0 := read], names := map[Name(0, 0) := was.drawing], minted := 1);
    var w2 := w1.(records := map["a.dxf" := Record(0, Some(0), found, 0)], docs := map[0 := read.(unrecorded := None)]);
    var w3 := w2.(docs := map[], noted := map[0 := 0]);
    var w4 := w3.(files := map["a.dxf" := other]);
    var w5 := w4.(docs := map[0 := Doc(Some("a.dxf"), 0, 0, 0, other.drawing, Some(Some(other)))], names := map[Name(0, 0) := other.drawing]);
    FirstOpens(w0, w1, was, found);
    BetweenOpens(w1, w2, w3, w4, was, found, other);
    SecondOpens(w4, w5, was, found, other);
    FiveSteps(w0, w1, w2, w3, w4, w5, found, other);
    worlds := [w0, w1, w2, w3, w4, w5];
  }

  lemma BetweenOpens(w1: World, w2: World, w3: World, w4: World, was: Bytes, found: Option<Bytes>, other: Bytes)
    requires 0 in w1.docs && w1.docs[0] == Doc(Some("a.dxf"), 0, 0, 0, was.drawing, Some(found)) && w1.docs.Keys == {0}
    requires w1.files == Put(map["a.dxf" := was], "a.dxf", found)
    requires w2 == w1.(records := w1.records["a.dxf" := Record(0, Some(0), found, 0)], docs := w1.docs[0 := w1.docs[0].(unrecorded := None)])
    requires w3 == w2.(docs := map[], noted := w2.noted[0 := 0]) && w2.noted == map[]
    requires w4 == w3.(files := map["a.dxf" := other])
    ensures Next(w1, WriteRecord(0), w2) && Next(w2, Close(0), w3) && Next(w3, Change("a.dxf", Some(other)), w4)
  {
    assert w2.docs - {0} == map[];
    assert Put(w3.files, "a.dxf", Some(other)) == map["a.dxf" := other];
  }

  lemma FiveSteps(w0: World, w1: World, w2: World, w3: World, w4: World, w5: World, found: Option<Bytes>, other: Bytes)
    requires w0 == World(w0.files, map[], map[], map[], map[], {}, 0)
    requires w1.past == {} && w2.past == {} && w3.past == {} && w4.past == {}
    requires var es := BlindRun(found, other);
      Next(w0, es[0], w1) && Next(w1, es[1], w2) && Next(w2, es[2], w3) && Next(w3, es[3], w4) && Next(w4, es[4], w5)
    ensures IsRun([w0, w1, w2, w3, w4, w5], BlindRun(found, other))
  {
    hide Next, Bounded;
    var worlds := [w0, w1, w2, w3, w4, w5];
    forall i | 0 <= i < |BlindRun(found, other)|
      ensures Next(worlds[i], BlindRun(found, other)[i], worlds[i + 1]) && Bounded(worlds[i], BlindRun(found, other)[i])
    {
      NothingPast(worlds[i], BlindRun(found, other)[i]);
    }
  }

  lemma NothingPast(w: World, e: Event)
    requires w.past == {}
    ensures Bounded(w, e)
  {
  }

  lemma FirstOpens(w: World, next: World, was: Bytes, found: Option<Bytes>)
    requires w == World(map["a.dxf" := was], map[], map[], map[], map[], {}, 0)
    requires next == w.(files := Put(w.files, "a.dxf", found), docs := map[0 := Doc(Some("a.dxf"), 0, 0, 0, was.drawing, Some(found))],
                        names := map[Name(0, 0) := was.drawing], minted := 1)
    ensures Next(w, Open(0, "a.dxf", found, None, false), next)
  {
    var e := Open(0, "a.dxf", found, None, false);
    assert Dropped(w, "a.dxf", map[], map[]);
    assert next == Registered(w, e, Resolved(w, e, None), map[], map[]);
  }

  lemma SecondOpens(w: World, next: World, was: Bytes, found: Option<Bytes>, other: Bytes)
    requires other.drawing != was.drawing && found in {None, Some(other)}
    requires w == World(map["a.dxf" := other], map["a.dxf" := Record(0, Some(0), found, 0)], map[], map[0 := 0], map[Name(0, 0) := was.drawing], {}, 1)
    requires next == w.(docs := map[0 := Doc(Some("a.dxf"), 0, 0, 0, other.drawing, Some(Some(other)))], names := map[Name(0, 0) := other.drawing])
    ensures Next(w, Open(0, "a.dxf", Some(other), None, false), next) && Blind(w, Open(0, "a.dxf", Some(other), None, false))
  {
    var e := Open(0, "a.dxf", Some(other), None, false);
    assert High(w, 0, None, Some(0));
    assert Dropped(w, "a.dxf", map[], map[0 := 0]);
    assert next == Registered(w, e, Resolved(w, e, Some(0)), map[], map[0 := 0]);
  }

  /** A run that opens a file of `was`, hashes `found` in its place, and from then on hashes what it reads. */
  ghost predicate OpensSo(worlds: seq<World>, events: seq<Event>, was: Bytes, found: Option<Bytes>) {
    && IsRun(worlds, events) && worlds[0].files == map["a.dxf" := was]
    && events != [] && events[0] == Open(0, "a.dxf", found, None, false)
    && forall k | 0 < k < |events| :: HashedAsRead(worlds[k], events[k])
  }

  lemma OpensHonestly(worlds: seq<World>, events: seq<Event>, was: Bytes, found: Option<Bytes>)
    requires OpensSo(worlds, events, was, found) && found.Some? && found.value.drawing == was.drawing
    ensures NeverTurns(worlds)
  {
    assert HashedAsRead(worlds[0], events[0]);
    hide IsRun, HashedAsRead;
    HonestRunNeverTurns(worlds, events);
  }

  /** That an open hashes the drawing it read is what it takes: else, however honest the rest of the run,
      there is one in which a revision turns. */
  lemma HashedAsReadIsNeeded(was: Bytes, found: Option<Bytes>)
    ensures found.Some? && found.value.drawing == was.drawing
            <==> forall worlds, events | OpensSo(worlds, events, was, found) :: NeverTurns(worlds)
  {
    hide IsRun, Faithful, Blind, Next, Bounded;
    if found.Some? && found.value.drawing == was.drawing {
      forall worlds, events | OpensSo(worlds, events, was, found) ensures NeverTurns(worlds) {
        OpensHonestly(worlds, events, was, found);
      }
    } else {
      var other := if found.Some? then found.value else Bytes(was.drawing + "!", 0);
      assert |was.drawing + "!"| != |was.drawing|;
      var worlds := BlindRunTurns(was, found, other);
      assert OpensSo(worlds, BlindRun(found, other), was, found);
      assert !NoneBlind(worlds, BlindRun(found, other), 5);
      RevisionsTurnIff(worlds, BlindRun(found, other));
    }
  }
}
