/** The status report: one row per record, from one read of the live documents and of HEAD. */
module Statuses {
  import opened Documents
  import opened Hashing
  import opened Store
  import opened Plans
  import opened Operations

  datatype RecordStatus = NotFound | Missing | New | ChangedOutsideCfgit | Clean

  datatype StatusRow = StatusRow(
    ref: Ref,
    state: RecordStatus,
    liveOid: Option<Oid>,
    headOid: Option<Oid>,
    headSeq: Option<nat>)

  function StateOf(live: Option<Doc>, head: Option<HeadRow>, liveOid: Option<Oid>): RecordStatus
  {
    if live == None && head == None then NotFound
    else if live == None then Missing
    else if head == None then New
    else if liveOid != OidOf(head) then ChangedOutsideCfgit
    else Clean
  }

  /** The row of one record. An empty live document is not hashed; any other that cannot be hashed
      is an error, whether the record has a HEAD or not. */
  function RowOf(p: Project, s: State, ref: Ref): Result<StatusRow>
  {
    var live, head := Live(s, ref), GetHead(s, ref);
    var hashed := live.Some? && live.value != map[];
    var liveOid := if hashed then p.Hash(ref, live.value) else None;
    if hashed && liveOid == None then Err(Unhashable)
    else
      var headSeq := if head.Some? then Some(head.value.seqNo) else None;
      Ok(StatusRow(ref, StateOf(live, head, liveOid), liveOid, OidOf(head), headSeq))
  }

  /** The rows in record order, or the error of the first record that has one: then no record is
      reported. */
  function RowsOf(p: Project, s: State, order: seq<Ref>): Result<seq<StatusRow>>
  {
    if order == [] then Ok([])
    else
      match RowOf(p, s, order[0])
      case Err(e) => Err(e)
      case Ok(row) => Above(row, RowsOf(p, s, order[1..]))
  }

  function Above(row: StatusRow, rest: Result<seq<StatusRow>>): Result<seq<StatusRow>>
  {
    if rest.Err? then rest else Ok([row] + rest.value)
  }

  function Report(p: Project, s: State, refs: set<Ref>): Result<seq<StatusRow>>
  {
    RowsOf(p, s, RecordOrder(refs))
  }

  /** Whichever record is found unhashable first, the report is the same error. */
  lemma {:induction false} OneHidesAll(p: Project, s: State, order: seq<Ref>, ref: Ref)
    requires ref in order && RowOf(p, s, ref).Err?
    ensures RowsOf(p, s, order) == Err(RowOf(p, s, ref).error)
  {
    hide HashDoc, GetHead;
    if order[0] != ref {
      OneHidesAll(p, s, order[1..], ref);
    }
  }

  lemma {:induction false} AllTold(p: Project, s: State, order: seq<Ref>, found: map<Ref, StatusRow>)
    requires forall ref | ref in order :: ref in found && RowOf(p, s, ref) == Ok(found[ref])
    ensures RowsOf(p, s, order).Ok? && |RowsOf(p, s, order).value| == |order|
    ensures forall i | 0 <= i < |order| :: RowsOf(p, s, order).value[i] == found[order[i]]
  {
    hide RowOf;
    if order != [] {
      AllTold(p, s, order[1..], found);
    }
  }

  /** The live document of the record is there and cannot be hashed. */
  ghost predicate Unreadable(p: Project, s: State, ref: Ref)
  {
    ref in s.live && s.live[ref] != map[] && p.Hash(ref, s.live[ref]) == None
  }

  /** What a row says about the live document and HEAD. */
  ghost predicate Tells(p: Project, s: State, row: StatusRow)
  {
    var ref := row.ref;
    && row.headOid == HeadOid(s, ref)
    && row.headSeq == (if ref in s.heads then Some(HeadSeq(s, ref)) else None)
    && row.liveOid == (if ref in s.live && s.live[ref] != map[] then p.Hash(ref, s.live[ref]) else None)
    && match row.state
       case NotFound => ref !in s.live && ref !in s.heads
       case Missing => ref !in s.live && ref in s.heads
       case New => ref in s.live && ref !in s.heads
       case ChangedOutsideCfgit =>
         ref in s.live && ref in s.heads && (s.live[ref] == map[] || !At(p, s, ref, s.heads[ref].oid))
       case Clean => ref in s.heads && At(p, s, ref, s.heads[ref].oid) && s.live[ref] != map[]
  }

  lemma RowTells(p: Project, s: State, ref: Ref)
    requires Chain(p, s)
    ensures RowOf(p, s, ref).Err? <==> Unreadable(p, s, ref)
    ensures RowOf(p, s, ref).Err? ==> RowOf(p, s, ref).error == Unhashable
    ensures RowOf(p, s, ref).Ok? ==> RowOf(p, s, ref).value.ref == ref && Tells(p, s, RowOf(p, s, ref).value)
  {
    hide HashDoc;
    assert ChainAt(p, s, ref);
    HeadIsThere(p, s, ref);
  }

  lemma {:induction false} RowsTell(p: Project, s: State, order: seq<Ref>)
    requires Chain(p, s)
    ensures RowsOf(p, s, order).Err? <==> exists ref :: ref in order && Unreadable(p, s, ref)
    ensures RowsOf(p, s, order).Err? ==> RowsOf(p, s, order).error == Unhashable
    ensures RowsOf(p, s, order).Ok? ==>
              var rows := RowsOf(p, s, order).value;
              |rows| == |order| && forall i | 0 <= i < |rows| :: rows[i].ref == order[i] && Tells(p, s, rows[i])
  {
    hide RowOf, Tells, Unreadable, Chain;
    if order != [] {
      RowTells(p, s, order[0]);
      RowsTell(p, s, order[1..]);
      assert forall ref :: ref in order <==> ref == order[0] || ref in order[1..];
    }
  }

  /** The report fails exactly when some live document cannot be hashed, and then says nothing of any
      record. Otherwise it has one row per record, in record order, and every row tells the truth: the
      five states exclude each other and leave no case out. */
  lemma StatusMeans(p: Project, s: State, refs: set<Ref>)
    requires Chain(p, s)
    ensures Report(p, s, refs).Err? <==> exists ref :: ref in refs && Unreadable(p, s, ref)
    ensures Report(p, s, refs).Err? ==> Report(p, s, refs).error == Unhashable
    ensures Report(p, s, refs).Ok? ==>
              var order, rows := RecordOrder(refs), Report(p, s, refs).value;
              |rows| == |order| && forall i | 0 <= i < |rows| :: rows[i].ref == order[i] && Tells(p, s, rows[i])
  {
    hide RecordOrder, RowOf, Tells, Unreadable, Chain;
    RowsTell(p, s, RecordOrder(refs));
  }

  /** Concrete input: a live document that holds a NaN. No record is reported, its own or another. */
  lemma NaNHidesAll(p: Project, s: State, broken: Ref, other: Ref)
    requires Chain(p, s) && broken in s.live && s.live[broken] == map["x" := NonFinite]
    requires var c := p.coll(broken.collection); !c.Ignored("x") && c.ignorePaths == c.secretFields == []
    ensures Report(p, s, {broken, other}) == Err(Unhashable)
  {
    var c, d := p.coll(broken.collection), s.live[broken];
    assert RemoveIgnored(c, d) == d == Strip(c, d);
    assert d["x"] == NonFinite && Normalize(c.lib, d["x"]) == None;
    assert Unreadable(p, s, broken);
    StatusMeans(p, s, {broken, other});
  }
}
