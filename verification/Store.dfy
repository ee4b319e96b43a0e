/** The database beside the live documents: history rows, HEAD pointers and review refs, and
    the one transaction that advances them. */
module Store {
  import opened Orders
  import opened Canonical
  import opened Documents
  import opened Hashing
  import opened Runtime

  type Time = int

  datatype Ref = Ref(collection: string, recordId: string)

  predicate RefBefore(a: Ref, b: Ref)
  {
    Below(a.collection, b.collection) || (a.collection == b.collection && Below(a.recordId, b.recordId))
  }

  lemma RefBeforeIsTotal()
    ensures StrictTotal(RefBefore)
  {
    BelowIsTotal();
    forall a: Ref, b: Ref, c: Ref
      ensures !(RefBefore(a, b) && RefBefore(b, a)) && (a == b || RefBefore(a, b) || RefBefore(b, a))
      ensures RefBefore(a, b) && RefBefore(b, c) ==> RefBefore(a, c)
    {
      BelowStrict(a.collection, b.collection, c.collection);
      BelowStrict(a.recordId, b.recordId, c.recordId);
    }
  }

  /** Records sorted by collection and id. */
  function RecordOrder(refs: set<Ref>): (order: seq<Ref>)
    ensures forall ref :: ref in order <==> ref in refs
    ensures forall i, j | 0 <= i < j < |order| :: order[i] != order[j]
  {
    RefBeforeIsTotal();
    var order := Sorted(refs, RefBefore);
    assert forall i, j | 0 <= i < j < |order| :: RefBefore(order[i], order[j]);
    order
  }

  /** By collection and then by id, in code point order. */
  lemma {:induction false} RecordOrderAscends(refs: set<Ref>)
    ensures var order := RecordOrder(refs);
            forall i, j | 0 <= i < j < |order| ::
              Precedes(order[i].collection, order[j].collection) ||
              (order[i].collection == order[j].collection && Precedes(order[i].recordId, order[j].recordId))
  {
    hide Below, Precedes;
    RefBeforeIsTotal();
    var order := RecordOrder(refs);
    forall i, j | 0 <= i < j < |order|
      ensures Precedes(order[i].collection, order[j].collection) ||
              (order[i].collection == order[j].collection && Precedes(order[i].recordId, order[j].recordId))
    {
      assert RefBefore(order[i], order[j]);
      if Below(order[i].collection, order[j].collection) {
        BelowPrecedes(order[i].collection, order[j].collection);
      } else {
        BelowPrecedes(order[i].recordId, order[j].recordId);
      }
    }
  }

  datatype Op = Import | Adopt | Commit | Restore | Merge

  /** What the engine writes into a history row. */
  datatype Entry = Entry(oid: Oid, parent: Option<Oid>, doc: Doc, validFrom: Time, op: Op)

  datatype Row = Row(entry: Entry, validTo: Option<Time>, tags: set<string>)

  datatype Key = Key(ref: Ref, seqNo: nat)

  /** A HEAD pointer. */
  datatype Ptr = Ptr(oid: Oid, seqNo: nat)

  // ----- review refs -----

  datatype Branch = Branch(headCommit: Option<string>)

  datatype Draft = Draft(
    branch: string,
    ref: Ref,
    oid: Oid,
    doc: Doc,
    parentCommit: Option<string>,
    baseHead: Option<Oid>,
    createdAt: Time)

  datatype Status = Open | Closed | Merged

  datatype Frozen = Frozen(commitId: string, oid: Oid)

  datatype PullRequest = PullRequest(
    status: Status,
    headBranch: string,
    headCommit: Option<string>,
    records: map<Ref, Frozen>)

  datatype Refs = Refs(
    branches: map<string, Branch>,
    drafts: map<string, Draft>,
    prs: map<string, PullRequest>)

  // ----- the store -----

  datatype State = State(
    live: map<Ref, Doc>,
    rows: map<Key, Row>,
    heads: map<Ref, Ptr>,
    refs: Refs)

  datatype Project = Project(
    backend: Backend,
    coll: string -> Coll,
    refuses: Doc -> bool,
    mainBranch: string)
  {
    function Hash(ref: Ref, d: Doc): Option<Oid>
    {
      HashDoc(coll(ref.collection), d)
    }
  }

  /** One conditional write: what the caller saw, and what it wants. */
  datatype Item = Item(
    ref: Ref,
    newDoc: Option<Doc>,
    entry: Entry,
    expectedHead: Option<Oid>,
    expectedLive: Option<Oid>,
    seedMissing: bool,
    freshId: Value)

  datatype Error =
    | StaleHead
    | StaleLive
    | NoSuchConfig
    | DuplicateKey
    | Unhashable
    | SecretBlocked
    | Unavailable
    | Refused(reason: string)

  datatype Result<+T> = Ok(value: T) | Err(error: Error)

  function HeadOid(s: State, ref: Ref): Option<Oid>
  {
    if ref in s.heads then Some(s.heads[ref].oid) else None
  }

  function HeadSeq(s: State, ref: Ref): nat
  {
    if ref in s.heads then s.heads[ref].seqNo else 0
  }

  function Live(s: State, ref: Ref): Option<Doc>
  {
    if ref in s.live then Some(s.live[ref]) else None
  }

  /** The two compare-and-swap checks of a write. */
  function Check(p: Project, s: State, it: Item): Option<Error>
  {
    if HeadOid(s, it.ref) != it.expectedHead then Some(StaleHead)
    else if it.expectedLive == None then None
    else if it.ref !in s.live then Some(NoSuchConfig)
    else
      var liveOid := p.Hash(it.ref, s.live[it.ref]);
      if liveOid == None then Some(Unhashable)
      else if liveOid != it.expectedLive then Some(StaleLive)
      else None
  }

  /** The live documents after the write. */
  function Written(p: Project, s: State, it: Item): Result<map<Ref, Doc>>
  {
    var c := p.coll(it.ref.collection);
    match it.newDoc
    case None => Ok(s.live)
    case Some(doc) =>
      if it.seedMissing then
        if it.ref in s.live then Err(StaleLive)
        else Ok(s.live[it.ref := SeedDoc(p.backend, c, it.ref.recordId, doc, it.freshId)])
      else if it.ref !in s.live then Err(NoSuchConfig)
      else Ok(s.live[it.ref := PutDoc(p.backend, c, it.ref.recordId, s.live[it.ref], doc)])
  }

  /** The history after the write: a new open row, and the row it follows closed. */
  function Appended(s: State, it: Item): map<Key, Row>
  {
    var seqNo := HeadSeq(s, it.ref) + 1;
    var before := Key(it.ref, HeadSeq(s, it.ref));
    var rows := s.rows[Key(it.ref, seqNo) := Row(it.entry, None, {})];
    if it.ref in s.heads && before in s.rows && s.rows[before].validTo == None
    then rows[before := s.rows[before].(validTo := Some(it.entry.validFrom))]
    else rows
  }

  /** One write as one atomic step: the whole next state, or an error and no change. */
  function Apply(p: Project, s: State, it: Item): Result<State>
  {
    var seqNo := HeadSeq(s, it.ref) + 1;
    if Check(p, s, it).Some? then Err(Check(p, s, it).value)
    else if Key(it.ref, seqNo) in s.rows then Err(DuplicateKey)
    else if Written(p, s, it).Err? then Err(Written(p, s, it).error)
    else Ok(s.(live := Written(p, s, it).value,
               rows := Appended(s, it),
               heads := s.heads[it.ref := Ptr(it.entry.oid, seqNo)]))
  }

  function ApplyMany(p: Project, s: State, items: seq<Item>): Result<State>
    decreases items
  {
    if items == [] then Ok(s)
    else
      match Apply(p, s, items[0])
      case Err(e) => Err(e)
      case Ok(next) => ApplyMany(p, next, items[1..])
  }

  function AddTag(s: State, key: Key, tag: string): State
  {
    if key in s.rows then s.(rows := s.rows[key := s.rows[key].(tags := s.rows[key].tags + {tag})]) else s
  }

  function Outside(s: State, ref: Ref, doc: Option<Doc>): State
  {
    match doc
    case None => s.(live := s.live - {ref})
    case Some(d) => s.(live := s.live[ref := d])
  }

  // ----- the history chain -----

  ghost predicate ChainAt(p: Project, s: State, ref: Ref)
  {
    var n := HeadSeq(s, ref);
    && (ref in s.heads <==> n > 0)
    && (forall k: nat :: Key(ref, k) in s.rows <==> 1 <= k <= n)
    && (n > 0 ==> s.heads[ref].oid == s.rows[Key(ref, n)].entry.oid)
    && (n > 0 ==> s.rows[Key(ref, n)].validTo == None)
    && (n > 0 ==> s.rows[Key(ref, 1)].entry.parent == None)
    && (forall k: nat | 1 <= k <= n :: Honest(p, ref, s.rows[Key(ref, k)].entry))
    && (forall k: nat | 1 <= k < n :: Linked(s.rows[Key(ref, k)], s.rows[Key(ref, k + 1)]))
  }

  /** The oid is the hash of the stored document, which holds no secret. */
  ghost predicate Honest(p: Project, ref: Ref, e: Entry)
  {
    p.Hash(ref, e.doc) == Some(e.oid) && Stored(p.coll(ref.collection), e.doc) == e.doc
  }

  ghost predicate Linked(row: Row, next: Row)
  {
    next.entry.parent == Some(row.entry.oid) && row.validTo == Some(next.entry.validFrom)
  }

  ghost predicate Chain(p: Project, s: State)
  {
    forall ref :: ChainAt(p, s, ref)
  }

  /** What every planned write satisfies: an honest entry whose parent is the HEAD it expects. */
  ghost predicate Sound(p: Project, it: Item)
  {
    Honest(p, it.ref, it.entry) && it.entry.parent == it.expectedHead
  }

  /** Rows only ever gain tags and one closing time. */
  ghost predicate Kept(row: Row, later: Row)
  {
    later.entry == row.entry && row.tags <= later.tags &&
    (row.validTo.Some? ==> later.validTo == row.validTo)
  }

  ghost predicate HistoryKept(s: State, later: State)
  {
    forall key | key in s.rows :: key in later.rows && Kept(s.rows[key], later.rows[key])
  }

  /** Nothing about any other record changes. */
  ghost predicate OnlyTouches(s: State, later: State, ref: Ref)
  {
    forall other | other != ref :: SameRecord(s, later, other)
  }

  ghost predicate SameRecord(s: State, later: State, ref: Ref)
  {
    && Live(s, ref) == Live(later, ref)
    && HeadOid(s, ref) == HeadOid(later, ref) && HeadSeq(s, ref) == HeadSeq(later, ref)
    && (ref in s.heads <==> ref in later.heads)
    && (forall k: nat :: Key(ref, k) in s.rows <==> Key(ref, k) in later.rows)
    && (forall k: nat | Key(ref, k) in s.rows :: s.rows[Key(ref, k)] == later.rows[Key(ref, k)])
  }

  lemma ApplyTouchesOne(p: Project, s: State, it: Item)
    requires Apply(p, s, it).Ok?
    ensures OnlyTouches(s, Apply(p, s, it).value, it.ref)
  {
    hide HashDoc, PutDoc, SeedDoc;
  }

  /** A write makes one new row, under the next number of its record, and keeps what every row says. */
  lemma ApplyNumbers(p: Project, s: State, it: Item)
    requires Apply(p, s, it).Ok?
    ensures var later, key := Apply(p, s, it).value, Key(it.ref, HeadSeq(s, it.ref) + 1);
            && HeadSeq(later, it.ref) == HeadSeq(s, it.ref) + 1
            && key !in s.rows && key in later.rows && later.rows[key].entry == it.entry
            && (forall other | other in s.rows ::
                  other in later.rows && later.rows[other].entry == s.rows[other].entry)
            && (forall ref | ref != it.ref :: HeadSeq(later, ref) == HeadSeq(s, ref))
  {
    hide HashDoc, PutDoc, SeedDoc;
  }

  lemma SameRecordKeepsChain(p: Project, s: State, later: State, ref: Ref)
    requires ChainAt(p, s, ref) && SameRecord(s, later, ref)
    ensures ChainAt(p, later, ref)
  {
    var n := HeadSeq(s, ref);
    assert forall k: nat | 1 <= k <= n :: Key(ref, k) in s.rows;
  }

  /** A write keeps the chain and, in every record, all that was there. */
  lemma ApplyKeepsChain(p: Project, s: State, it: Item)
    requires Chain(p, s) && Sound(p, it) && Apply(p, s, it).Ok?
    ensures Chain(p, Apply(p, s, it).value)
    ensures HistoryKept(s, Apply(p, s, it).value)
    ensures HeadSeq(Apply(p, s, it).value, it.ref) == HeadSeq(s, it.ref) + 1
  {
    hide HashDoc, Stored, PutDoc, SeedDoc;
    var later := Apply(p, s, it).value;
    var n := HeadSeq(s, it.ref);
    assert ChainAt(p, s, it.ref);
    forall k: nat ensures Key(it.ref, k) in later.rows <==> 1 <= k <= n + 1 {
      assert Key(it.ref, k) in s.rows <==> 1 <= k <= n;
    }
    forall k: nat | 1 <= k < n + 1
      ensures Linked(later.rows[Key(it.ref, k)], later.rows[Key(it.ref, k + 1)])
    {
      if k < n {
        assert Linked(s.rows[Key(it.ref, k)], s.rows[Key(it.ref, k + 1)]);
      }
    }
    forall k: nat | 1 <= k <= n + 1
      ensures Honest(p, it.ref, later.rows[Key(it.ref, k)].entry)
    {
      if k <= n {
        assert Honest(p, it.ref, s.rows[Key(it.ref, k)].entry);
      }
    }
    assert ChainAt(p, later, it.ref);
    ApplyTouchesOne(p, s, it);
    forall ref ensures ChainAt(p, later, ref) {
      if ref != it.ref {
        assert SameRecord(s, later, ref);
        SameRecordKeepsChain(p, s, later, ref);
      }
    }
  }

  lemma TagKeepsChain(p: Project, s: State, key: Key, tag: string)
    requires Chain(p, s)
    ensures Chain(p, AddTag(s, key, tag)) && HistoryKept(s, AddTag(s, key, tag))
  {
    hide HashDoc, Stored;
    var later := AddTag(s, key, tag);
    forall ref ensures ChainAt(p, later, ref) {
      assert ChainAt(p, s, ref);
      var n := HeadSeq(s, ref);
      assert forall k: nat | 1 <= k <= n :: Key(ref, k) in s.rows;
      forall k: nat | 1 <= k < n ensures Linked(later.rows[Key(ref, k)], later.rows[Key(ref, k + 1)]) {
        assert Linked(s.rows[Key(ref, k)], s.rows[Key(ref, k + 1)]);
      }
    }
  }

  lemma OutsideKeepsChain(p: Project, s: State, ref: Ref, doc: Option<Doc>)
    requires Chain(p, s)
    ensures Chain(p, Outside(s, ref, doc)) && HistoryKept(s, Outside(s, ref, doc))
  {
    var later := Outside(s, ref, doc);
    forall r ensures ChainAt(p, later, r) {
      assert ChainAt(p, s, r);
      var n := HeadSeq(s, r);
      assert forall k: nat | 1 <= k <= n :: Key(r, k) in s.rows;
    }
  }

  lemma {:induction false} ApplyManyKeepsChain(p: Project, s: State, items: seq<Item>)
    requires Chain(p, s) && (forall it | it in items :: Sound(p, it)) && ApplyMany(p, s, items).Ok?
    ensures Chain(p, ApplyMany(p, s, items).value)
    ensures HistoryKept(s, ApplyMany(p, s, items).value)
    decreases items
  {
    if items != [] {
      ApplyKeepsChain(p, s, items[0]);
      ApplyManyKeepsChain(p, Apply(p, s, items[0]).value, items[1..]);
    }
  }

  // ----- the as-of query -----

  predicate Qualifies(row: Row, when: Time)
  {
    row.entry.validFrom <= when && (row.validTo == None || row.validTo.value > when)
  }

  function QualifyingSeqs(s: State, ref: Ref, when: Time): set<nat>
  {
    set key | key in s.rows && key.ref == ref && Qualifies(s.rows[key], when) :: key.seqNo
  }

  /** The first row of a query sorted by descending seq. */
  function Greatest(ks: set<nat>): (top: Option<nat>)
    ensures top.None? <==> ks == {}
    ensures top.Some? ==> top.value in ks && forall k | k in ks :: k <= top.value
  {
    if ks == {} then None
    else
      var sorted := Sorted(ks, (a: nat, b: nat) => a > b);
      assert forall k | k in ks :: k in sorted;
      Some(sorted[0])
  }

  /** `valid_from <= when < valid_to`, seq descending, limit 1. */
  function AsOf(s: State, ref: Ref, when: Time): Option<nat>
  {
    Greatest(QualifyingSeqs(s, ref, when))
  }

  /** The last of the first `n` rows that was already valid at `when`. */
  ghost function LastStarted(s: State, ref: Ref, n: nat, when: Time): Option<nat>
    requires forall k: nat | 1 <= k <= n :: Key(ref, k) in s.rows
  {
    if n == 0 then None
    else if s.rows[Key(ref, n)].entry.validFrom <= when then Some(n)
    else LastStarted(s, ref, n - 1, when)
  }

  lemma {:induction false} LastStartedIs(s: State, ref: Ref, n: nat, when: Time)
    requires forall k: nat | 1 <= k <= n :: Key(ref, k) in s.rows
    ensures match LastStarted(s, ref, n, when)
            case None => forall k: nat | 1 <= k <= n :: s.rows[Key(ref, k)].entry.validFrom > when
            case Some(m) => 1 <= m <= n && s.rows[Key(ref, m)].entry.validFrom <= when &&
                            forall k: nat | m < k <= n :: s.rows[Key(ref, k)].entry.validFrom > when
  {
    if n > 0 {
      LastStartedIs(s, ref, n - 1, when);
    }
  }

  /** In every chain, for every instant and every clock, the as-of query picks the last row
      that had started. */
  lemma {:induction false} AsOfIsLastStarted(p: Project, s: State, ref: Ref, when: Time)
    requires ChainAt(p, s, ref)
    ensures AsOf(s, ref, when) == LastStarted(s, ref, HeadSeq(s, ref), when)
  {
    var n := HeadSeq(s, ref);
    LastStartedIs(s, ref, n, when);
    forall k | k in QualifyingSeqs(s, ref, when)
      ensures 1 <= k <= n && s.rows[Key(ref, k)].entry.validFrom <= when
    {
      assert Key(ref, k) in s.rows;
    }
    match LastStarted(s, ref, n, when) {
      case None =>
        assert QualifyingSeqs(s, ref, when) == {};
      case Some(m) =>
        if m < n {
          assert Linked(s.rows[Key(ref, m)], s.rows[Key(ref, m + 1)]);
        }
        assert Key(ref, m) in s.rows && Qualifies(s.rows[Key(ref, m)], when);
        assert m in QualifyingSeqs(s, ref, when);
    }
  }

  /** When the clock never ran backwards along the chain, no other row qualifies. */
  lemma AsOfIsOnly(p: Project, s: State, ref: Ref, when: Time)
    requires ChainAt(p, s, ref)
    requires forall j: nat, k: nat | 1 <= j <= k <= HeadSeq(s, ref) ::
               s.rows[Key(ref, j)].entry.validFrom <= s.rows[Key(ref, k)].entry.validFrom
    ensures forall k: nat | k in QualifyingSeqs(s, ref, when) :: AsOf(s, ref, when) == Some(k)
  {
    var n := HeadSeq(s, ref);
    AsOfIsLastStarted(p, s, ref, when);
    LastStartedIs(s, ref, n, when);
    forall k: nat | k in QualifyingSeqs(s, ref, when) ensures AsOf(s, ref, when) == Some(k) {
      assert Key(ref, k) in s.rows;
      if k < n {
        assert Linked(s.rows[Key(ref, k)], s.rows[Key(ref, k + 1)]);
      }
    }
  }
}
