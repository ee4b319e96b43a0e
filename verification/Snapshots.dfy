/** Exporting live documents and importing them again through a bulk commit. */
module Snapshots {
  import opened Documents
  import opened Hashing
  import opened Conversions
  import opened Store
  import opened Plans
  import opened Operations
  import opened Bulk

  /** One row of an export file, as read back: members may be missing. */
  datatype ExportRow = ExportRow(
    record: Option<string>,
    collection: Option<string>,
    recordId: Option<string>,
    doc: Option<Doc>)

  function RecordText(ref: Ref): string
  {
    ref.collection + ":" + ref.recordId
  }

  function ColonAt(raw: string): (i: nat)
    ensures i <= |raw| && (forall j | 0 <= j < i :: raw[j] != ':') && (i < |raw| ==> raw[i] == ':')
  {
    if raw == "" || raw[0] == ':' then 0 else 1 + ColonAt(raw[1..])
  }

  /** Splits a record name at its first colon. */
  function ParseRecord(raw: string): Result<Ref>
  {
    var i := ColonAt(raw);
    if i == |raw| || i == 0 || i + 1 == |raw| then Err(Refused("record must be collection:id"))
    else Ok(Ref(raw[..i], raw[i + 1..]))
  }

  /** A record name is read back as the record exactly when the collection has no colon and
      neither part is empty. */
  lemma RecordTextRoundTrip(ref: Ref)
    ensures ParseRecord(RecordText(ref)) == Ok(ref)
            <==> ref.collection != "" && ref.recordId != "" && ':' !in ref.collection
  {
    var raw := RecordText(ref);
    var n := |ref.collection|;
    assert raw[n] == ':';
    assert raw[..n] == ref.collection && raw[n + 1..] == ref.recordId;
    if i :| 0 <= i < n && ref.collection[i] == ':' {
      assert raw[i] == ':';
    } else {
      assert forall j | 0 <= j < n :: raw[j] == ref.collection[j] != ':';
    }
  }

  /** The record a row names. */
  function RowRecord(row: ExportRow): Result<Ref>
  {
    if row.record.Some? && row.record.value != "" then ParseRecord(row.record.value)
    else if row.collection.Some? && row.collection.value != "" then
      ParseRecord(row.collection.value + ":" + (if row.recordId.Some? then row.recordId.value else "None"))
    else Err(Refused("export item needs record or collection+record_id"))
  }

  function ItemsToCommit(rows: seq<ExportRow>): Result<seq<Change>>
  {
    if rows == [] then Ok([])
    else if rows[0].doc.None? then Err(Refused("export item needs a doc"))
    else
      var ref := RowRecord(rows[0]);
      if ref.Err? then Err(ref.error)
      else
        Prepend([Change(ref.value, rows[0].doc.value)], ItemsToCommit(rows[1..]))
  }

  function Prepend(first: seq<Change>, rest: Result<seq<Change>>): Result<seq<Change>>
  {
    if rest.Err? then rest else Ok(first + rest.value)
  }

  method ExportItemsToCommit(rows: seq<ExportRow>) returns (r: Result<seq<Change>>)
    ensures r == ItemsToCommit(rows)
  {
    var out: seq<Change> := [];
    for i := 0 to |rows|
      invariant Prepend(out, ItemsToCommit(rows[i..])) == Prepend([], ItemsToCommit(rows))
    {
      ghost var rest := ItemsToCommit(rows[i + 1..]);
      assert rows[i..][1..] == rows[i + 1..];
      if rows[i].doc.None? {
        return Err(Refused("export item needs a doc"));
      }
      var ref := RowRecord(rows[i]);
      if ref.Err? {
        return Err(ref.error);
      }
      var change := Change(ref.value, rows[i].doc.value);
      assert rest.Ok? ==> (out + [change]) + rest.value == out + ([change] + rest.value);
      out := out + [change];
    }
    assert rows[|rows|..] == [] && out + [] == out;
    assert ItemsToCommit(rows).Ok? ==> [] + ItemsToCommit(rows).value == ItemsToCommit(rows).value;
    return Ok(out);
  }

  // ----- export and import -----

  function ExportRowOf(ref: Ref, doc: Doc): ExportRow
  {
    ExportRow(Some(RecordText(ref)), Some(ref.collection), Some(ref.recordId), Some(doc))
  }

  /** A live document as the file gives it back. */
  function FileDoc(p: Project, s: State, ref: Ref): Doc
    requires ref in s.live
  {
    SavedDoc(p.coll(ref.collection).lib, ExportFile, s.live[ref])
  }

  /** The rows read back from an export of `s`: every live record of `refs` once. */
  function Export(p: Project, s: State, refs: seq<Ref>): seq<ExportRow>
    requires forall ref | ref in refs :: ref in s.live
  {
    seq(|refs|, i requires 0 <= i < |refs| => ExportRowOf(refs[i], FileDoc(p, s, refs[i])))
  }

  function ExportedChanges(p: Project, s: State, refs: seq<Ref>): (changes: seq<Change>)
    requires forall ref | ref in refs :: ref in s.live
    ensures |changes| == |refs|
    ensures forall i | 0 <= i < |refs| :: changes[i] == Change(refs[i], FileDoc(p, s, refs[i]))
  {
    seq(|refs|, i requires 0 <= i < |refs| => Change(refs[i], FileDoc(p, s, refs[i])))
  }

  ghost predicate Nameable(ref: Ref)
  {
    ref.collection != "" && ref.recordId != "" && ':' !in ref.collection
  }

  /** An exported row names its record; a name in one piece counts before a collection and an id. */
  lemma RowIsReadBack(ref: Ref, doc: Doc)
    requires Nameable(ref)
    ensures RowRecord(ExportRowOf(ref, doc)) == Ok(ref) && ExportRowOf(ref, doc).doc == Some(doc)
    ensures RowRecord(ExportRowOf(ref, doc).(record := None)) == Ok(ref)
    ensures forall c, i :: RowRecord(ExportRowOf(ref, doc).(collection := c, recordId := i)) == Ok(ref)
  {
    RecordTextRoundTrip(ref);
  }

  lemma {:induction false} ExportIsReadBack(p: Project, s: State, refs: seq<Ref>)
    requires forall ref | ref in refs :: ref in s.live && Nameable(ref)
    ensures ItemsToCommit(Export(p, s, refs)) == Ok(ExportedChanges(p, s, refs))
    decreases refs
  {
    hide FileDoc, RowRecord, ExportRowOf;
    if refs != [] {
      ExportIsReadBack(p, s, refs[1..]);
      assert refs[0] in refs;
      RowIsReadBack(refs[0], FileDoc(p, s, refs[0]));
      assert Export(p, s, refs)[1..] == Export(p, s, refs[1..]);
      assert ExportedChanges(p, s, refs) == [Change(refs[0], FileDoc(p, s, refs[0]))] + ExportedChanges(p, s, refs[1..]);
    }
  }

  /** The record can take the exported document back. */
  ghost predicate Importable(p: Project, s: State, ref: Ref, doc: Doc, allowSecret: bool)
  {
    && ref in s.live && Undrifted(p, s, ref) && Writable(p, s, ref, doc)
    && p.Hash(ref, doc).Some? && !SecretStops(p, ref, doc, allowSecret)
  }

  lemma ImportablePlans(p: Project, s: State, change: Change, allowSecret: bool, now: Time)
    requires ChainAt(p, s, change.ref) && Importable(p, s, change.ref, change.doc, allowSecret)
    ensures !PlanOf(p, s, change, allowSecret, now).Raise? && !Blocks(PlanOf(p, s, change, allowSecret, now))
  {
    HeadIsThere(p, s, change.ref);
    StoredKeepsHash(p.coll(change.ref.collection), change.doc);
  }

  ghost predicate AllImportable(p: Project, s: State, changes: seq<Change>, allowSecret: bool)
  {
    forall change | change in changes :: Importable(p, s, change.ref, change.doc, allowSecret)
  }

  lemma {:induction false} ImportIsNotStopped(p: Project, s: State, changes: seq<Change>, allowSecret: bool,
          clock: nat -> Time)
    requires Chain(p, s) && OneChangeEach(changes) && AllImportable(p, s, changes, allowSecret)
    ensures FirstError(changes, PlansOf(p, s, changes, allowSecret, clock), {}).None?
    ensures Blockers(changes, PlansOf(p, s, changes, allowSecret, clock)) == []
  {
    var plans := PlansOf(p, s, changes, allowSecret, clock);
    forall i | 0 <= i < |changes| ensures !plans[i].Raise? && !Blocks(plans[i]) {
      assert changes[i] in changes && ChainAt(p, s, changes[i].ref);
      ImportablePlans(p, s, changes[i], allowSecret, clock(i));
    }
    NoError(changes, plans, {});
    BlockersAre(changes, plans);
  }

  /** A batch that every record can take, with no write failing, lands completely. */
  lemma ImportLands(p: Project, s: State, changes: seq<Change>, allowSecret: bool, clock: nat -> Time,
                    signals: seq<Signal>)
    requires changes != [] && |signals| == |changes| && AllProceed(signals)
    requires Chain(p, s) && OneChangeEach(changes) && AllImportable(p, s, changes, allowSecret)
    ensures var (end, report) := CommitMany(p, s, changes, allowSecret, clock, signals);
            report == Complete(RefsOf(changes)) &&
            forall i | 0 <= i < |changes| :: Reached(p, end, changes[i])
  {
    ImportIsNotStopped(p, s, changes, allowSecret, clock);
    assert forall change | change in changes :: Importable(p, s, change.ref, change.doc, allowSecret);
    BulkLands(p, s, changes, allowSecret, clock, signals);
    BulkAccounts(p, s, changes, allowSecret, clock, signals);
    RunPlansAccounts(p, s, changes, PlansOf(p, s, changes, allowSecret, clock), signals);
    var (end, report) := CommitMany(p, s, changes, allowSecret, clock, signals);
    forall i | 0 <= i < |changes| ensures Reached(p, end, changes[i]) {
      assert changes[i] in changes && RefsOf(changes)[i] in RefsOf(changes);
      assert Landed(p, s, end, changes[i], Results(report));
    }
  }

  lemma ExportIsImportable(p: Project, exported: State, refs: seq<Ref>, s: State, allowSecret: bool)
    requires forall i, j | 0 <= i < j < |refs| :: refs[i] != refs[j]
    requires forall r | r in refs :: r in exported.live
    requires forall r | r in refs :: Importable(p, s, r, FileDoc(p, exported, r), allowSecret)
    ensures OneChangeEach(ExportedChanges(p, exported, refs))
    ensures AllImportable(p, s, ExportedChanges(p, exported, refs), allowSecret)
    ensures RefsOf(ExportedChanges(p, exported, refs)) == refs
  {
    var changes := ExportedChanges(p, exported, refs);
    forall change | change in changes ensures Importable(p, s, change.ref, change.doc, allowSecret) {
      var i :| 0 <= i < |changes| && changes[i] == change;
      assert refs[i] in refs;
    }
  }

  /** The record is live and recorded with the hash it was exported with. */
  ghost predicate Restored(p: Project, exported: State, end: State, ref: Ref)
  {
    ref in exported.live && Reached(p, end, Change(ref, exported.live[ref]))
  }

  /** Export to a file, let the records change in any way that leaves them live and undrifted, import
      the file: every exported record is live and recorded as the file has it, and that is the hash
      it was exported with exactly when everything hashed in its document survives the file. */
  lemma ExportImportRoundTrip(p: Project, exported: State, refs: seq<Ref>, s: State, allowSecret: bool,
                              clock: nat -> Time, signals: seq<Signal>, ref: Ref)
    requires ref in refs && |signals| == |refs| && AllProceed(signals)
    requires forall i, j | 0 <= i < j < |refs| :: refs[i] != refs[j]
    requires forall r | r in refs :: r in exported.live && Nameable(r)
    requires Chain(p, s)
    requires forall r | r in refs :: Importable(p, s, r, FileDoc(p, exported, r), allowSecret)
    ensures ItemsToCommit(Export(p, exported, refs)) == Ok(ExportedChanges(p, exported, refs))
    ensures var (end, report) := CommitMany(p, s, ExportedChanges(p, exported, refs), allowSecret, clock, signals);
            var c := p.coll(ref.collection);
            && report == Complete(refs) && Reached(p, end, Change(ref, FileDoc(p, exported, ref)))
            && (Restored(p, exported, end, ref) <==> Survives(c.lib, ExportFile, Obj(Strip(c, exported.live[ref]))))
  {
    hide CommitMany, HashDoc, SavedDoc, Survives, Importable;
    ExportIsReadBack(p, exported, refs);
    var changes := ExportedChanges(p, exported, refs);
    ExportIsImportable(p, exported, refs, s, allowSecret);
    ImportLands(p, s, changes, allowSecret, clock, signals);
    var i :| 0 <= i < |refs| && refs[i] == ref;
    assert changes[i] == Change(ref, FileDoc(p, exported, ref));
    SavedKeepsHashIff(p.coll(ref.collection), ExportFile, exported.live[ref]);
  }

  /** Concrete input: a document with a date. The database driver gives dates without a zone, the
      file writes them so, and the hash wrote them with one. */
  lemma DateDoesNotSurvive(lib: Lib)
    requires lib.isoText(0) == "1970-01-01T00:00:00" && lib.isoMillis(0) == "1970-01-01T00:00:00Z"
    requires lib.nfc("1970-01-01T00:00:00") == "1970-01-01T00:00:00"
    ensures var c, d: Doc := PlainColl(lib), map["id" := Str("alpha"), "at" := Time(0)];
            HashDoc(c, d).Some? && HashDoc(c, SavedDoc(c.lib, ExportFile, d)) != HashDoc(c, d)
  {
    var c, d: Doc := PlainColl(lib), map["id" := Str("alpha"), "at" := Time(0)];
    assert "at" in Strip(c, d) && Strip(c, d)["at"] == Time(0);
    assert forall k | k in Strip(c, d) :: Normalize(lib, Strip(c, d)[k]).Some?;
    assert !Survives(lib, ExportFile, Time(0));
    SavedKeepsHashIff(c, ExportFile, d);
  }

  /** Concrete input: a colon in the collection name moves into the record id. */
  lemma ColonIsLost()
    ensures ParseRecord(RecordText(Ref("a:b", "c"))) == Ok(Ref("a", "b:c"))
  {
    var raw := "a:b:c";
    assert RecordText(Ref("a:b", "c")) == raw;
    assert raw[1] == ':' && ColonAt(raw) == 1;
    assert raw[..1] == "a" && raw[2..] == "b:c";
  }
}
