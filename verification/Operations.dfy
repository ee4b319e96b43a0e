/** One engine call on one record, with nobody else writing during the call. */
module Operations {
  import opened Documents
  import opened Hashing
  import opened Runtime
  import opened Store
  import opened Plans

  datatype Outcome =
    | Raised(error: Error)
    | Drift(liveOid: Oid, headOid: Oid)
    | Stale(currentHead: Option<Oid>)
    | NoChange
    | Written(seqNo: nat, oid: Oid)

  /** Carrying out a decision. */
  function Perform(p: Project, s: State, decision: Decision): (State, Outcome)
  {
    match decision
    case Raise(e) => (s, Raised(e))
    case ChangedOutside(liveOid, headOid) => (s, Drift(liveOid, headOid))
    case MainMoved(current) => (s, Stale(current))
    case Nothing => (s, NoChange)
    case Ready(it) =>
      var result := Apply(p, s, it);
      if result.Err? then (s, Raised(result.error))
      else (result.value, Written(HeadSeq(result.value, it.ref), it.entry.oid))
  }

  /** Reading the record, deciding, and writing. */
  function Operate(p: Project, s: State, ref: Ref, intent: Intent, now: Time, freshId: Value): (State, Outcome)
  {
    Perform(p, s, Decide(p, ref, Live(s, ref), GetHead(s, ref), intent, now, freshId))
  }

  /** The record is live and recorded at version `oid`. */
  ghost predicate At(p: Project, s: State, ref: Ref, oid: Oid)
  {
    ref in s.live && p.Hash(ref, s.live[ref]) == Some(oid) && HeadOid(s, ref) == Some(oid)
  }

  /** What a caller can check before writing `doc`: it agrees with the record id and
      `live_when`, the backend keeps it as it is hashed, and every secret to be carried over finds its
      place. */
  ghost predicate Writable(p: Project, s: State, ref: Ref, doc: Doc)
  {
    var c := p.coll(ref.collection);
    && Settled(p.backend, c, ref.recordId, doc)
    && (p.backend == Mongo ==> c.Ignored("_id"))
    && (ref in s.live ==>
          CarrySafe(c, RuntimeDoc(c, ref.recordId, doc), s.live[ref], c.secretFields))
  }

  /** The live document is the one HEAD records, or nothing is recorded yet. */
  ghost predicate Undrifted(p: Project, s: State, ref: Ref)
  {
    ref in s.live ==>
      p.Hash(ref, s.live[ref]).Some? && (ref in s.heads ==> p.Hash(ref, s.live[ref]) == HeadOid(s, ref))
  }

  /** The live document is hashable and not the one HEAD records. */
  ghost predicate Drifted(p: Project, s: State, ref: Ref)
  {
    ref in s.live && ref in s.heads && p.Hash(ref, s.live[ref]).Some? && p.Hash(ref, s.live[ref]) != HeadOid(s, ref)
  }

  /** The history of the record gained exactly one row, with this oid. */
  ghost predicate GainedRow(s: State, later: State, ref: Ref, oid: Oid)
  {
    var n := HeadSeq(s, ref);
    && HeadSeq(later, ref) == n + 1
    && Key(ref, n + 1) in later.rows && later.rows[Key(ref, n + 1)].entry.oid == oid
    && later.rows[Key(ref, n + 1)].entry.parent == HeadOid(s, ref)
    && forall k: nat | 1 <= k <= n :: Key(ref, k) in s.rows && Key(ref, k) in later.rows &&
                                      Kept(s.rows[Key(ref, k)], later.rows[Key(ref, k)])
  }

  lemma HeadIsThere(p: Project, s: State, ref: Ref)
    requires ChainAt(p, s, ref)
    ensures OidOf(GetHead(s, ref)) == HeadOid(s, ref)
    ensures GetHead(s, ref).Some? <==> ref in s.heads
  {
    var n := HeadSeq(s, ref);
    assert Key(ref, n) in s.rows <==> 1 <= n;
  }

  /** A sound write that goes through gives its record exactly one more row. */
  lemma WriteGains(p: Project, s: State, it: Item)
    requires Chain(p, s) && Sound(p, it) && Apply(p, s, it).Ok?
    ensures GainedRow(s, Apply(p, s, it).value, it.ref, it.entry.oid)
  {
    hide HashDoc, Stored, PutDoc, SeedDoc;
    assert ChainAt(p, s, it.ref);
    ApplyKeepsChain(p, s, it);
    assert forall k: nat | 1 <= k <= HeadSeq(s, it.ref) :: Key(it.ref, k) in s.rows;
  }

  /** A write planned from the current state always goes through, and leaves the record at the
      version it wrote. */
  lemma ReplacementLands(p: Project, s: State, it: Item, doc: Doc)
    requires Chain(p, s) && Sound(p, it) && it.newDoc == Some(doc)
    requires it.expectedHead == HeadOid(s, it.ref)
    requires it.expectedLive == if it.ref in s.live then p.Hash(it.ref, s.live[it.ref]) else None
    requires it.seedMissing <==> it.ref !in s.live
    requires it.ref in s.live ==> p.Hash(it.ref, s.live[it.ref]).Some?
    requires p.Hash(it.ref, doc) == Some(it.entry.oid) && Writable(p, s, it.ref, doc)
    ensures Apply(p, s, it).Ok?
    ensures At(p, Apply(p, s, it).value, it.ref, it.entry.oid)
    ensures GainedRow(s, Apply(p, s, it).value, it.ref, it.entry.oid)
  {
    hide HashDoc, Stored, PutDoc, SeedDoc, CarrySafe, Settled, RuntimeDoc, GainedRow;
    var c := p.coll(it.ref.collection);
    assert ChainAt(p, s, it.ref);
    assert Key(it.ref, HeadSeq(s, it.ref) + 1) !in s.rows;
    if it.seedMissing {
      SeedKeepsHash(p.backend, c, it.ref.recordId, doc, it.freshId);
    } else {
      PutKeepsHashIff(p.backend, c, it.ref.recordId, s.live[it.ref], doc);
    }
    WriteGains(p, s, it);
  }

  lemma ReadyCommitLands(p: Project, s: State, ref: Ref, doc: Doc, allowSecret: bool, now: Time, it: Item)
    requires Chain(p, s) && Writable(p, s, ref, doc)
    requires DecideCommit(p, ref, Live(s, ref), GetHead(s, ref), doc, allowSecret, now) == Ready(it)
    ensures it.ref == ref && p.Hash(ref, doc) == Some(it.entry.oid)
    ensures Apply(p, s, it).Ok? && At(p, Apply(p, s, it).value, ref, it.entry.oid)
    ensures GainedRow(s, Apply(p, s, it).value, ref, it.entry.oid)
  {
    hide PutDoc, SeedDoc, CarrySafe;
    assert ChainAt(p, s, ref);
    HeadIsThere(p, s, ref);
    DecisionsAreSafe(p, ref, Live(s, ref), GetHead(s, ref), WantCommit(doc, allowSecret), now, Null);
    StoredKeepsHash(p.coll(ref.collection), doc);
    ReplacementLands(p, s, it, doc);
  }

  lemma UnreadyCommit(p: Project, s: State, ref: Ref, doc: Doc, allowSecret: bool, now: Time)
    requires OidOf(GetHead(s, ref)) == HeadOid(s, ref) && (GetHead(s, ref).Some? <==> ref in s.heads)
    ensures match DecideCommit(p, ref, Live(s, ref), GetHead(s, ref), doc, allowSecret, now)
            case Ready(_) => true
            case Nothing => p.Hash(ref, doc).Some? && At(p, s, ref, p.Hash(ref, doc).value)
            case ChangedOutside(_, _) => !Undrifted(p, s, ref)
            case MainMoved(_) => false
            case Raise(e) => CommitStops(p, s, ref, doc, allowSecret, e)
  {
    StoredKeepsHash(p.coll(ref.collection), doc);
  }

  /** Why a commit may raise. */
  ghost predicate CommitStops(p: Project, s: State, ref: Ref, doc: Doc, allowSecret: bool, e: Error)
  {
    && (e == NoSuchConfig <==> ref !in s.live)
    && match e
       case NoSuchConfig => true
       case Unhashable => p.Hash(ref, s.live[ref]) == None || p.Hash(ref, doc) == None
       case SecretBlocked => SecretStops(p, ref, doc, allowSecret)
       case _ => false
  }

  /** With nobody else writing, a commit either finds the record drifted, finds nothing to do,
      is stopped by an error, or leaves the record at the committed version. */
  lemma CommitLands(p: Project, s: State, ref: Ref, doc: Doc, allowSecret: bool, now: Time)
    requires Chain(p, s) && Writable(p, s, ref, doc)
    ensures var (later, out) := Operate(p, s, ref, WantCommit(doc, allowSecret), now, Null);
            match out
            case Written(n, oid) =>
              && n == HeadSeq(later, ref) && p.Hash(ref, doc) == Some(oid)
              && At(p, later, ref, oid) && GainedRow(s, later, ref, oid)
            case NoChange => later == s && p.Hash(ref, doc).Some? && At(p, s, ref, p.Hash(ref, doc).value)
            case Drift(_, _) => later == s && !Undrifted(p, s, ref)
            case Raised(e) => later == s && CommitStops(p, s, ref, doc, allowSecret, e)
            case Stale(_) => false
  {
    HeadIsThere(p, s, ref);
    UnreadyCommit(p, s, ref, doc, allowSecret, now);
    var decision := DecideCommit(p, ref, Live(s, ref), GetHead(s, ref), doc, allowSecret, now);
    assert Operate(p, s, ref, WantCommit(doc, allowSecret), now, Null) == Perform(p, s, decision);
    if decision.Ready? {
      ReadyCommitLands(p, s, ref, doc, allowSecret, now, decision.item);
    }
  }

  /** Why adopting or importing a live document may leave everything as it is. */
  ghost predicate RecordingStops(p: Project, s: State, ref: Ref, intent: Intent, out: Outcome)
    requires intent.WantAdopt? || intent.WantImport?
  {
    match out
    case NoChange =>
      if intent.WantAdopt? then ref in s.heads && At(p, s, ref, s.heads[ref].oid)
      else ref in s.heads || ref !in s.live
    case Raised(NoSuchConfig) => intent.WantAdopt? && ref !in s.live
    case Raised(Unhashable) => ref in s.live && p.Hash(ref, s.live[ref]) == None
    case Raised(SecretBlocked) => ref in s.live && SecretStops(p, ref, s.live[ref], intent.allowSecret)
    case _ => false
  }

  /** Adopting or importing touches no live document. It records the live document as it is with
      one more row, unless it is recorded already or one of three reasons stops it. */
  lemma RecordingLands(p: Project, s: State, ref: Ref, intent: Intent, now: Time, freshId: Value)
    requires Chain(p, s) && (intent.WantAdopt? || intent.WantImport?)
    ensures var (later, out) := Operate(p, s, ref, intent, now, freshId);
            later.live == s.live &&
            match out
            case Written(n, oid) => n == HeadSeq(later, ref) && At(p, later, ref, oid) && GainedRow(s, later, ref, oid)
            case _ => later == s && RecordingStops(p, s, ref, intent, out)
  {
    hide HashDoc, Stored, GainedRow;
    HeadIsThere(p, s, ref);
    var decision := Decide(p, ref, Live(s, ref), GetHead(s, ref), intent, now, freshId);
    if ref in s.live {
      StoredKeepsHash(p.coll(ref.collection), s.live[ref]);
    }
    if decision.Ready? {
      var it := decision.item;
      DecisionsAreSafe(p, ref, Live(s, ref), GetHead(s, ref), intent, now, freshId);
      assert ChainAt(p, s, ref);
      assert Key(ref, HeadSeq(s, ref) + 1) !in s.rows;
      WriteGains(p, s, it);
    }
  }

  /** Whatever it does, a call keeps the chain, keeps the history and leaves other records alone. */
  lemma OperateKeeps(p: Project, s: State, ref: Ref, intent: Intent, now: Time, freshId: Value)
    requires Chain(p, s)
    ensures var later := Operate(p, s, ref, intent, now, freshId).0;
            Chain(p, later) && HistoryKept(s, later) && OnlyTouches(s, later, ref)
  {
    hide HashDoc, Stored, Apply, Decide;
    var decision := Decide(p, ref, Live(s, ref), GetHead(s, ref), intent, now, freshId);
    if decision.Ready? && Apply(p, s, decision.item).Ok? {
      DecisionsAreSafe(p, ref, Live(s, ref), GetHead(s, ref), intent, now, freshId);
      ApplyKeepsChain(p, s, decision.item);
      ApplyTouchesOne(p, s, decision.item);
    }
  }
}
