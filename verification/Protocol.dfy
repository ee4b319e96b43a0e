/** Every interleaving of any number of engine callers with writers cfgit does not control. */
module Protocol {
  import opened Documents
  import opened Hashing
  import opened Runtime
  import opened Store
  import opened Plans

  /** The store, the live reads each caller remembers, and the writes each has planned. */
  datatype System = System(
    store: State,
    seen: map<(nat, Ref), Option<Doc>>,
    pending: map<nat, seq<Item>>)

  datatype Step =
    | OutsideWrite(ref: Ref, doc: Option<Doc>)
    | ReadLive(caller: nat, ref: Ref)
    | ReadHeadAndPlan(caller: nat, ref: Ref, intent: Intent, now: Time, freshId: Value)
    | ApplyOne(caller: nat, index: nat)
    | ApplyAll(caller: nat, newRefs: Refs)
    | PutRefs(newRefs: Refs)
    | Label(key: Key, tag: string)
    | GiveUp(caller: nat)

  function Pending(sys: System, caller: nat): seq<Item>
  {
    if caller in sys.pending then sys.pending[caller] else []
  }

  /** No record twice, as in a batch built from a dictionary keyed by record. */
  predicate Distinct(items: seq<Item>)
  {
    forall i, j | 0 <= i < j < |items| :: items[i].ref != items[j].ref
  }

  function Next(p: Project, sys: System, step: Step): System
  {
    match step
    case OutsideWrite(ref, doc) => sys.(store := Store.Outside(sys.store, ref, doc))
    case ReadLive(c, ref) => sys.(seen := sys.seen[(c, ref) := Live(sys.store, ref)])
    case ReadHeadAndPlan(c, ref, intent, now, freshId) =>
      if (c, ref) !in sys.seen then sys
      else
        var decision := Decide(p, ref, sys.seen[(c, ref)], GetHead(sys.store, ref), intent, now, freshId);
        if decision.Ready? then sys.(pending := sys.pending[c := Pending(sys, c) + [decision.item]]) else sys
    case ApplyOne(c, index) =>
      var items := Pending(sys, c);
      if index >= |items| then sys
      else
        var rest := sys.(pending := sys.pending[c := items[..index] + items[index + 1..]]);
        var result := Apply(p, sys.store, items[index]);
        if result.Ok? then rest.(store := result.value) else rest
    case ApplyAll(c, newRefs) =>
      var items := Pending(sys, c);
      var rest := sys.(pending := sys.pending[c := []]);
      if !Distinct(items) || ApplyMany(p, sys.store, items).Err? then rest
      else rest.(store := ApplyMany(p, sys.store, items).value.(refs := newRefs))
    case PutRefs(newRefs) => sys.(store := sys.store.(refs := newRefs))
    case Label(key, tag) => sys.(store := AddTag(sys.store, key, tag))
    case GiveUp(c) => sys.(pending := sys.pending[c := []])
  }

  function Run(p: Project, sys: System, steps: seq<Step>): System
    decreases steps
  {
    if steps == [] then sys else Run(p, Next(p, sys, steps[0]), steps[1..])
  }

  /** No history yet, any live documents, nobody at work. */
  ghost predicate Initial(sys: System)
  {
    sys.store.rows == map[] && sys.store.heads == map[] && sys.pending == map[]
  }

  ghost predicate Inv(p: Project, sys: System)
  {
    Chain(p, sys.store) &&
    forall c | c in sys.pending :: forall it | it in sys.pending[c] :: Sound(p, it) && Guarded(it)
  }

  lemma InitialInv(p: Project, sys: System)
    requires Initial(sys)
    ensures Inv(p, sys)
  {
    forall ref ensures ChainAt(p, sys.store, ref) {
    }
  }

  lemma HistoryKeptReflexive(s: State)
    ensures HistoryKept(s, s)
  {
  }

  lemma HistoryKeptTransitive(r: State, s: State, t: State)
    requires HistoryKept(r, s) && HistoryKept(s, t)
    ensures HistoryKept(r, t)
  {
  }

  lemma RefsKeepChain(p: Project, s: State, newRefs: Refs)
    requires Chain(p, s)
    ensures Chain(p, s.(refs := newRefs)) && HistoryKept(s, s.(refs := newRefs))
  {
    forall ref ensures ChainAt(p, s.(refs := newRefs), ref) {
      assert ChainAt(p, s, ref);
      assert SameRecord(s, s.(refs := newRefs), ref);
      SameRecordKeepsChain(p, s, s.(refs := newRefs), ref);
    }
  }

  lemma NextKeepsInv(p: Project, sys: System, step: Step)
    requires Inv(p, sys)
    ensures Inv(p, Next(p, sys, step)) && HistoryKept(sys.store, Next(p, sys, step).store)
  {
    hide Chain, Apply, ApplyMany, Decide, HashDoc, Stored, Sound;
    match step
    case OutsideWrite(ref, doc) =>
      OutsideKeepsChain(p, sys.store, ref, doc);
    case ReadLive(c, ref) =>
    case ReadHeadAndPlan(c, ref, intent, now, freshId) =>
      if (c, ref) in sys.seen {
        var live, head := sys.seen[(c, ref)], GetHead(sys.store, ref);
        if Decide(p, ref, live, head, intent, now, freshId).Ready? {
          DecisionsAreSafe(p, ref, live, head, intent, now, freshId);
        }
      }
    case ApplyOne(c, index) =>
      if index < |Pending(sys, c)| && Apply(p, sys.store, Pending(sys, c)[index]).Ok? {
        ApplyKeepsChain(p, sys.store, Pending(sys, c)[index]);
      }
    case ApplyAll(c, newRefs) =>
      var items := Pending(sys, c);
      if Distinct(items) && ApplyMany(p, sys.store, items).Ok? {
        ApplyManyKeepsChain(p, sys.store, items);
        RefsKeepChain(p, ApplyMany(p, sys.store, items).value, newRefs);
        HistoryKeptTransitive(sys.store, ApplyMany(p, sys.store, items).value, Next(p, sys, step).store);
      }
    case PutRefs(newRefs) =>
      RefsKeepChain(p, sys.store, newRefs);
    case Label(key, tag) =>
      TagKeepsChain(p, sys.store, key, tag);
    case GiveUp(c) =>
  }

  /** In every run the history stays one chain per record, and old rows only gain tags and one
      closing time. */
  lemma {:induction false} RunKeepsInv(p: Project, sys: System, steps: seq<Step>)
    requires Inv(p, sys)
    ensures Inv(p, Run(p, sys, steps)) && HistoryKept(sys.store, Run(p, sys, steps).store)
    decreases steps
  {
    if steps != [] {
      var next := Next(p, sys, steps[0]);
      NextKeepsInv(p, sys, steps[0]);
      RunKeepsInv(p, next, steps[1..]);
      HistoryKeptTransitive(sys.store, next.store, Run(p, sys, steps).store);
    }
  }

  // ----- what one transaction may replace -----

  lemma ChecksAreLocal(p: Project, s: State, t: State, it: Item)
    requires SameRecord(s, t, it.ref)
    ensures Check(p, s, it) == Check(p, t, it)
    ensures Written(p, s, it).Ok? <==> Written(p, t, it).Ok?
    ensures Written(p, s, it).Ok? ==>
              (it.ref in Written(p, s, it).value <==> it.ref in Written(p, t, it).value) &&
              (it.ref in Written(p, s, it).value ==> Written(p, s, it).value[it.ref] == Written(p, t, it).value[it.ref])
  {
    hide HashDoc, PutDoc, SeedDoc;
  }

  /** A write sees and changes its own record only. */
  lemma ApplyIsLocal(p: Project, s: State, t: State, it: Item)
    requires SameRecord(s, t, it.ref)
    ensures Apply(p, s, it).Ok? <==> Apply(p, t, it).Ok?
    ensures Apply(p, s, it).Ok? ==> SameRecord(Apply(p, s, it).value, Apply(p, t, it).value, it.ref)
  {
    hide Check, Written;
    ChecksAreLocal(p, s, t, it);
    var before := Key(it.ref, HeadSeq(s, it.ref));
    assert before in s.rows <==> before in t.rows;
    assert Key(it.ref, HeadSeq(s, it.ref) + 1) in s.rows <==> Key(it.ref, HeadSeq(s, it.ref) + 1) in t.rows;
  }

  lemma SameRecordTransitive(r: State, s: State, t: State, ref: Ref)
    requires SameRecord(r, s, ref) && SameRecord(s, t, ref)
    ensures SameRecord(r, t, ref)
  {
    assert forall k: nat :: Key(ref, k) in r.rows <==> Key(ref, k) in s.rows;
  }

  /** A batch over distinct records does to each record what its own write would do alone. */
  lemma {:induction false} BatchActsPointwise(p: Project, s: State, items: seq<Item>, ref: Ref)
    requires Distinct(items) && ApplyMany(p, s, items).Ok?
    ensures (forall it | it in items :: it.ref != ref) ==> SameRecord(s, ApplyMany(p, s, items).value, ref)
    ensures forall it | it in items && it.ref == ref ::
              Apply(p, s, it).Ok? && SameRecord(Apply(p, s, it).value, ApplyMany(p, s, items).value, ref)
    decreases items
  {
    if items != [] {
      var next := Apply(p, s, items[0]).value;
      var end := ApplyMany(p, s, items).value;
      ApplyTouchesOne(p, s, items[0]);
      BatchActsPointwise(p, next, items[1..], ref);
      if items[0].ref == ref {
        assert forall it | it in items[1..] :: it.ref != ref;
      } else {
        assert SameRecord(s, next, ref);
        forall it | it in items && it.ref == ref
          ensures Apply(p, s, it).Ok? && SameRecord(Apply(p, s, it).value, end, ref)
        {
          assert it in items[1..];
          ApplyIsLocal(p, s, next, it);
          SameRecordTransitive(Apply(p, s, it).value, Apply(p, next, it).value, end, ref);
        }
        if forall it | it in items :: it.ref != ref {
          assert forall it | it in items[1..] :: it in items;
          SameRecordTransitive(s, next, end, ref);
        }
      }
    }
  }

  /** A guarded write on a record with a HEAD finds, in the same transaction, a live document
      that hashes to that HEAD; a seeding write finds none. */
  lemma GuardedWrite(p: Project, s: State, it: Item)
    requires Guarded(it) && Apply(p, s, it).Ok? && it.newDoc.Some?
    ensures it.seedMissing <==> it.ref !in s.live
    ensures it.ref in s.heads && it.ref in s.live ==>
              p.Hash(it.ref, s.live[it.ref]) == Some(s.heads[it.ref].oid)
  {
  }

  /** Why a write is refused: HEAD moved since it was read, the live document changed or appeared, or it is
      gone. In a chain the next row number is always free. */
  lemma RefusedWrite(p: Project, s: State, it: Item)
    requires Chain(p, s)
    ensures var r, ref, moved := Apply(p, s, it), it.ref, HeadOid(s, it.ref) != it.expectedHead;
            var seen := if ref in s.live then p.Hash(ref, s.live[ref]) else None;
            var same := it.expectedLive == None || it.expectedLive == seen;
            && r != Err(DuplicateKey)
            && (r == Err(StaleHead) <==> moved)
            && (r == Err(StaleLive) <==>
                  !moved && ref in s.live &&
                  ((!same && seen.Some?) || (same && it.newDoc.Some? && it.seedMissing)))
            && (r == Err(NoSuchConfig) <==>
                  !moved && ref !in s.live && (it.expectedLive.Some? || (it.newDoc.Some? && !it.seedMissing)))
            && (r == Err(Unhashable) <==> !moved && ref in s.live && it.expectedLive.Some? && seen == None)
  {
    hide HashDoc, PutDoc, SeedDoc;
    assert ChainAt(p, s, it.ref);
    var n := HeadSeq(s, it.ref);
    assert Key(it.ref, n + 1) !in s.rows;
  }

  lemma ReplacedMatchesHead(p: Project, sys: System, step: Step, ref: Ref)
    requires Inv(p, sys) && !step.OutsideWrite?
    requires ref in sys.store.live && ref in sys.store.heads
    requires Live(Next(p, sys, step).store, ref) != Live(sys.store, ref)
    ensures ref in Next(p, sys, step).store.live
    ensures p.Hash(ref, sys.store.live[ref]) == Some(sys.store.heads[ref].oid)
  {
    hide HashDoc, Sound, PutDoc, SeedDoc, Decide, ApplyMany;
    match step
    case ApplyOne(c, index) =>
      var it := Pending(sys, c)[index];
      if it.ref == ref {
        GuardedWrite(p, sys.store, it);
      }
    case ApplyAll(c, newRefs) =>
      var items := Pending(sys, c);
      BatchActsPointwise(p, sys.store, items, ref);
      var it :| it in items && it.ref == ref;
      GuardedWrite(p, sys.store, it);
    case _ =>
  }

  /** No lost out-of-band edit. Take any run of any callers and any outside writes, any later
      step of cfgit that replaces the live document of a record with a HEAD, and any
      continuation. The replaced document hashed to HEAD at that very step, and its hashed
      content is still in the history, in the row HEAD pointed at. */
  lemma {:induction false} NoLostEdit(p: Project, start: System, past: seq<Step>, step: Step, future: seq<Step>,
                                      ref: Ref)
    requires Initial(start) && !step.OutsideWrite?
    requires var sys := Run(p, start, past);
             ref in sys.store.live && ref in sys.store.heads &&
             Live(Next(p, sys, step).store, ref) != Live(sys.store, ref)
    ensures var sys := Run(p, start, past);
            var end := Run(p, Next(p, sys, step), future).store;
            var key := Key(ref, sys.store.heads[ref].seqNo);
            && ref in Next(p, sys, step).store.live
            && p.Hash(ref, sys.store.live[ref]) == Some(sys.store.heads[ref].oid)
            && key in end.rows
            && NormalForm(p.coll(ref.collection), end.rows[key].entry.doc)
               == NormalForm(p.coll(ref.collection), sys.store.live[ref])
  {
    var sys := Run(p, start, past);
    var next := Next(p, sys, step);
    InitialInv(p, start);
    RunKeepsInv(p, start, past);
    ReplacedMatchesHead(p, sys, step, ref);
    NextKeepsInv(p, sys, step);
    RunKeepsInv(p, next, future);
    HistoryKeptTransitive(sys.store, next.store, Run(p, next, future).store);
    assert ChainAt(p, sys.store, ref);
    var n := HeadSeq(sys.store, ref);
    assert Key(ref, n) in sys.store.rows;
    assert Honest(p, ref, sys.store.rows[Key(ref, n)].entry);
    OidIdentifiesNormalForm(p.coll(ref.collection), sys.store.rows[Key(ref, n)].entry.doc, sys.store.live[ref]);
  }
}
