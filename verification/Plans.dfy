/** What the engine decides from one read of a live document and one read of HEAD. */
module Plans {
  import opened Documents
  import opened Hashing
  import opened Store

  datatype HeadRow = HeadRow(entry: Entry, seqNo: nat)

  /** The row HEAD points at. */
  function GetHead(s: State, ref: Ref): Option<HeadRow>
  {
    if ref in s.heads && Key(ref, s.heads[ref].seqNo) in s.rows
    then Some(HeadRow(s.rows[Key(ref, s.heads[ref].seqNo)].entry, s.heads[ref].seqNo))
    else None
  }

  function OidOf(head: Option<HeadRow>): Option<Oid>
  {
    if head.Some? then Some(head.value.entry.oid) else None
  }

  /** What an operation wants to do to one record. */
  datatype Intent =
    | WantCommit(doc: Doc, allowSecret: bool)
    | WantAdopt(allowSecret: bool)
    | WantImport(allowSecret: bool)
    | WantRestore(target: Doc, seedMissing: bool)
    | WantMerge(draft: Doc, baseHead: Option<Oid>)

  datatype Decision =
    | Raise(error: Error)
    | ChangedOutside(liveOid: Oid, headOid: Oid)
    | MainMoved(currentHead: Option<Oid>)
    | Nothing
    | Ready(item: Item)

  function MakeEntry(p: Project, ref: Ref, doc: Doc, parent: Option<Oid>, now: Time, op: Op): Option<Entry>
  {
    var stored := Stored(p.coll(ref.collection), doc);
    match p.Hash(ref, stored)
    case None => None
    case Some(oid) => Some(Entry(oid, parent, stored, now, op))
  }

  /** The secret policy looks at the stored form. */
  predicate SecretStops(p: Project, ref: Ref, doc: Doc, allowSecret: bool)
  {
    !allowSecret && p.refuses(Stored(p.coll(ref.collection), doc))
  }

  function Propose(p: Project, ref: Ref, doc: Doc, parent: Option<Oid>, now: Time, op: Op, newDoc: Option<Doc>,
                   expectedLive: Option<Oid>, seedMissing: bool, freshId: Value): Decision
  {
    match MakeEntry(p, ref, doc, parent, now, op)
    case None => Raise(Unhashable)
    case Some(entry) => Ready(Item(ref, newDoc, entry, parent, expectedLive, seedMissing, freshId))
  }

  function DecideCommit(p: Project, ref: Ref, live: Option<Doc>, head: Option<HeadRow>, doc: Doc, allowSecret: bool,
                        now: Time): Decision
  {
    if live == None then Raise(NoSuchConfig)
    else
      var expectedLive := p.Hash(ref, live.value);
      if expectedLive == None then Raise(Unhashable)
      else if head.Some? && expectedLive != OidOf(head) then ChangedOutside(expectedLive.value, head.value.entry.oid)
      else if p.Hash(ref, doc) == None then Raise(Unhashable)
      else if head.Some? && p.Hash(ref, doc) == OidOf(head) then Nothing
      else if SecretStops(p, ref, doc, allowSecret) then Raise(SecretBlocked)
      else Propose(p, ref, doc, OidOf(head), now, Commit, Some(doc), expectedLive, false, Null)
  }

  function DecideAdopt(p: Project, ref: Ref, live: Option<Doc>, head: Option<HeadRow>, allowSecret: bool,
                       now: Time): Decision
  {
    if live == None then Raise(NoSuchConfig)
    else if p.Hash(ref, live.value) == None then Raise(Unhashable)
    else if head.Some? && OidOf(head) == p.Hash(ref, live.value) then Nothing
    else if SecretStops(p, ref, live.value, allowSecret) then Raise(SecretBlocked)
    else Propose(p, ref, live.value, OidOf(head), now, Adopt, None, None, false, Null)
  }

  function DecideImport(p: Project, ref: Ref, live: Option<Doc>, head: Option<HeadRow>, allowSecret: bool,
                        now: Time): Decision
  {
    if head.Some? || live == None then Nothing
    else if SecretStops(p, ref, live.value, allowSecret) then Raise(SecretBlocked)
    else Propose(p, ref, live.value, None, now, Import, None, None, false, Null)
  }

  function DecideRestore(p: Project, ref: Ref, live: Option<Doc>, head: Option<HeadRow>, target: Doc,
                         seedMissing: bool, now: Time, freshId: Value): Decision
  {
    if live == None && !seedMissing then Raise(NoSuchConfig)
    else
      var expectedLive := if live == None then None else p.Hash(ref, live.value);
      if live.Some? && expectedLive == None then Raise(Unhashable)
      else if live.Some? && head.Some? && expectedLive != OidOf(head) then
        ChangedOutside(expectedLive.value, head.value.entry.oid)
      else Propose(p, ref, target, OidOf(head), now, Restore, Some(target), expectedLive, seedMissing, freshId)
  }

  function DecideMerge(p: Project, ref: Ref, live: Option<Doc>, head: Option<HeadRow>, draft: Doc,
                       baseHead: Option<Oid>, now: Time): Decision
  {
    if live == None then Raise(NoSuchConfig)
    else
      var expectedLive := p.Hash(ref, live.value);
      if expectedLive == None then Raise(Unhashable)
      else if OidOf(head) != baseHead then MainMoved(OidOf(head))
      else if head.Some? && expectedLive != OidOf(head) then ChangedOutside(expectedLive.value, head.value.entry.oid)
      else Propose(p, ref, draft, OidOf(head), now, Merge, Some(draft), expectedLive, false, Null)
  }

  function Decide(p: Project, ref: Ref, live: Option<Doc>, head: Option<HeadRow>, intent: Intent, now: Time,
                  freshId: Value): Decision
  {
    match intent
    case WantCommit(doc, allow) => DecideCommit(p, ref, live, head, doc, allow, now)
    case WantAdopt(allow) => DecideAdopt(p, ref, live, head, allow, now)
    case WantImport(allow) => DecideImport(p, ref, live, head, allow, now)
    case WantRestore(target, seed) => DecideRestore(p, ref, live, head, target, seed, now, freshId)
    case WantMerge(draft, base) => DecideMerge(p, ref, live, head, draft, base, now)
  }

  /** The guard every replacing write carries: on a record with a HEAD, the live document must
      still hash to that HEAD. */
  ghost predicate Guarded(it: Item)
  {
    it.newDoc.Some? && !it.seedMissing && it.expectedHead.Some? ==> it.expectedLive == it.expectedHead
  }

  /** The document an operation records: the one handed in, or the live one. */
  function Source(intent: Intent, live: Option<Doc>): Option<Doc>
  {
    match intent
    case WantCommit(doc, _) => Some(doc)
    case WantAdopt(_) => live
    case WantImport(_) => live
    case WantRestore(target, _) => Some(target)
    case WantMerge(draft, _) => Some(draft)
  }

  /** What an operation is called in the history. */
  function Kind(intent: Intent): Op
  {
    match intent
    case WantCommit(_, _) => Op.Commit
    case WantAdopt(_) => Op.Adopt
    case WantImport(_) => Op.Import
    case WantRestore(_, _) => Op.Restore
    case WantMerge(_, _) => Op.Merge
  }

  /** The entry records this document, without its secrets and with its hash, from `now` on. */
  ghost predicate Records(p: Project, ref: Ref, e: Entry, doc: Doc, now: Time, op: Op)
  {
    p.Hash(ref, doc) == Some(e.oid) && e.doc == Stored(p.coll(ref.collection), doc) && e.validFrom == now && e.op == op
  }

  /** Whatever was read, and whenever, a planned write is sound and guarded, and records the document of
      the operation from the moment of the plan. */
  lemma DecisionsAreSafe(p: Project, ref: Ref, live: Option<Doc>, head: Option<HeadRow>, intent: Intent, now: Time,
                         freshId: Value)
    requires Decide(p, ref, live, head, intent, now, freshId).Ready?
    ensures var it := Decide(p, ref, live, head, intent, now, freshId).item;
            && it.ref == ref && Sound(p, it) && Guarded(it) && it.entry.parent == OidOf(head)
            && Source(intent, live).Some? && Records(p, ref, it.entry, Source(intent, live).value, now, Kind(intent))
            && it.newDoc == if intent.WantAdopt? || intent.WantImport? then None else Source(intent, live)
  {
    hide HashDoc;
    var it := Decide(p, ref, live, head, intent, now, freshId).item;
    var doc := Source(intent, live).value;
    StoredKeepsHash(p.coll(ref.collection), doc);
    StoredKeepsHash(p.coll(ref.collection), Stored(p.coll(ref.collection), doc));
    assert it.entry.doc == Stored(p.coll(ref.collection), doc);
  }
}
