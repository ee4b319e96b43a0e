/** Pull requests: freezing the tips of a branch, and merging them in one transaction. */
module Reviews {
  import opened Documents
  import opened Hashing
  import opened Runtime
  import opened Store
  import opened Plans
  import opened Operations
  import opened Protocol
  import opened Branches

  // ----- merging -----

  function MergeOrder(drafts: Drafts, branch: string): (order: seq<Ref>)
    ensures forall ref :: ref in order <==> ref in BranchRecords(drafts, branch)
    ensures forall i, j | 0 <= i < j < |order| :: order[i] != order[j]
  {
    RecordOrder(BranchRecords(drafts, branch))
  }

  /** The planned write of one record: its tip over the HEAD the tip was drafted on. */
  function MergeDecision(p: Project, s: State, branch: string, ref: Ref, now: Time): Decision
  {
    match Latest(s.refs.drafts, branch, ref)
    case None => Raise(NoSuchConfig)
    case Some(id) =>
      var draft := s.refs.drafts[id];
      DecideMerge(p, ref, Live(s, ref), GetHead(s, ref), draft.doc, draft.baseHead, now)
  }

  function MergeItems(p: Project, s: State, branch: string, order: seq<Ref>, clock: nat -> Time,
                      k: nat): Result<seq<Item>>
    decreases order
  {
    if order == [] then Ok([])
    else
      var decision := MergeDecision(p, s, branch, order[0], clock(k));
      match decision
      case Ready(it) =>
        var rest := MergeItems(p, s, branch, order[1..], clock, k + 1);
        if rest.Err? then rest else Ok([it] + rest.value)
      case Raise(e) => Err(e)
      case ChangedOutside(_, _) => Err(Refused("changed outside cfgit"))
      case MainMoved(_) => Err(Refused("main moved since branch commit"))
      case Nothing => Err(Refused("nothing"))
  }

  function PlanMerge(p: Project, s: State, id: string, clock: nat -> Time): Result<seq<Item>>
  {
    if id !in s.refs.prs then Err(NoSuchConfig)
    else
      var pr := s.refs.prs[id];
      if pr.status != Open then Err(Refused("PR is not open"))
      else if pr.headBranch == p.mainBranch then Err(Refused("PR head branch is main"))
      else if pr.headBranch !in s.refs.branches then Err(NoSuchConfig)
      else if s.refs.branches[pr.headBranch].headCommit != pr.headCommit then Err(Refused("head branch moved"))
      else if BranchRecords(s.refs.drafts, pr.headBranch) == {} then Err(Refused("no records to merge"))
      else MergeItems(p, s, pr.headBranch, MergeOrder(s.refs.drafts, pr.headBranch), clock, 0)
  }

  function WithPr(s: State, id: string, pr: PullRequest): State
  {
    s.(refs := s.refs.(prs := s.refs.prs[id := pr]))
  }

  /** The transaction of a merge: all the writes and the merged request, or nothing. */
  function FinishMerge(p: Project, s: State, id: string, pr: PullRequest, items: seq<Item>): State
  {
    var result := ApplyMany(p, s, items);
    if result.Err? then s else WithPr(result.value, id, pr.(status := Merged))
  }

  ghost predicate ItemFor(p: Project, s: State, branch: string, ref: Ref, now: Time, it: Item)
  {
    it.ref == ref && Sound(p, it) && Guarded(it) && MergeDecision(p, s, branch, ref, now) == Ready(it)
  }

  lemma MergeDecisionIsSafe(p: Project, s: State, branch: string, ref: Ref, now: Time)
    requires MergeDecision(p, s, branch, ref, now).Ready?
    ensures ItemFor(p, s, branch, ref, now, MergeDecision(p, s, branch, ref, now).item)
  {
    var draft := s.refs.drafts[Latest(s.refs.drafts, branch, ref).value];
    DecisionsAreSafe(p, ref, Live(s, ref), GetHead(s, ref), WantMerge(draft.doc, draft.baseHead), now, Null);
  }

  lemma MergeItemsStep(p: Project, s: State, branch: string, order: seq<Ref>, clock: nat -> Time, k: nat)
    requires order != [] && MergeItems(p, s, branch, order, clock, k).Ok?
    ensures MergeDecision(p, s, branch, order[0], clock(k)).Ready?
    ensures MergeItems(p, s, branch, order[1..], clock, k + 1).Ok?
    ensures var items := MergeItems(p, s, branch, order, clock, k).value;
            items != [] && items[0] == MergeDecision(p, s, branch, order[0], clock(k)).item &&
            items[1..] == MergeItems(p, s, branch, order[1..], clock, k + 1).value
  {
    hide MergeDecision;
  }

  /** Item `i` is the write of record `i`. */
  lemma {:induction false} MergeItemsAre(p: Project, s: State, branch: string, order: seq<Ref>, clock: nat -> Time,
                                         k: nat, i: nat)
    requires MergeItems(p, s, branch, order, clock, k).Ok? && i < |order|
    ensures var items := MergeItems(p, s, branch, order, clock, k).value;
            i < |items| && ItemFor(p, s, branch, order[i], clock(k + i), items[i])
    decreases order
  {
    hide MergeDecision, ItemFor, MergeItems;
    MergeItemsStep(p, s, branch, order, clock, k);
    if i == 0 {
      MergeDecisionIsSafe(p, s, branch, order[0], clock(k));
      assert clock(k + i) == clock(k);
    } else {
      MergeItemsAre(p, s, branch, order[1..], clock, k + 1, i - 1);
      assert clock(k + 1 + (i - 1)) == clock(k + i);
    }
  }

  lemma {:induction false} MergeItemsLength(p: Project, s: State, branch: string, order: seq<Ref>, clock: nat -> Time,
                                            k: nat)
    requires MergeItems(p, s, branch, order, clock, k).Ok?
    ensures |MergeItems(p, s, branch, order, clock, k).value| == |order|
    decreases order
  {
    hide MergeDecision;
    if order != [] {
      MergeItemsLength(p, s, branch, order[1..], clock, k + 1);
    }
  }

  lemma AppliedGainsRow(p: Project, s: State, it: Item)
    requires Chain(p, s) && Sound(p, it) && Apply(p, s, it).Ok?
    ensures GainedRow(s, Apply(p, s, it).value, it.ref, it.entry.oid)
  {
    assert ChainAt(p, s, it.ref);
    ApplyKeepsChain(p, s, it);
    assert forall k: nat | 1 <= k <= HeadSeq(s, it.ref) :: Key(it.ref, k) in s.rows;
  }

  lemma GainedIsLocal(s: State, next: State, end: State, ref: Ref, oid: Oid)
    requires GainedRow(s, next, ref, oid) && SameRecord(next, end, ref)
    ensures GainedRow(s, end, ref, oid)
  {
  }

  lemma {:induction false} ApplyManyKeepsRefs(p: Project, s: State, items: seq<Item>)
    requires ApplyMany(p, s, items).Ok?
    ensures ApplyMany(p, s, items).value.refs == s.refs
    decreases items
  {
    if items != [] {
      ApplyManyKeepsRefs(p, Apply(p, s, items[0]).value, items[1..]);
    }
  }

  lemma {:induction false} PlanMergeIs(p: Project, s: State, id: string, clock: nat -> Time)
    requires PlanMerge(p, s, id, clock).Ok?
    ensures id in s.refs.prs && s.refs.prs[id].status == Open
    ensures var branch := s.refs.prs[id].headBranch;
            && branch in s.refs.branches && s.refs.branches[branch].headCommit == s.refs.prs[id].headCommit
            && PlanMerge(p, s, id, clock) == MergeItems(p, s, branch, MergeOrder(s.refs.drafts, branch), clock, 0)
  {
    hide MergeItems;
  }

  /** Every item of a planned merge is a sound, guarded write of its own record. */
  lemma {:induction false} MergeItemAt(p: Project, s: State, branch: string, order: seq<Ref>, clock: nat -> Time,
                                       i: nat)
    requires MergeItems(p, s, branch, order, clock, 0).Ok? && i < |order|
    ensures var items := MergeItems(p, s, branch, order, clock, 0).value;
            |items| == |order| && items[i].ref == order[i] && Sound(p, items[i]) && Guarded(items[i]) &&
            MergeDecision(p, s, branch, order[i], clock(i)) == Ready(items[i])
  {
    hide MergeDecision, Sound, Guarded, MergeItems;
    MergeItemsAre(p, s, branch, order, clock, 0, i);
    MergeItemsLength(p, s, branch, order, clock, 0);
    assert clock(0 + i) == clock(i);
  }

  /** A planned merge has one sound write for each record of the branch. */
  lemma MergeCovers(p: Project, s: State, id: string, clock: nat -> Time)
    requires PlanMerge(p, s, id, clock).Ok?
    ensures id in s.refs.prs
    ensures var items := PlanMerge(p, s, id, clock).value;
            && Distinct(items) && (forall it | it in items :: Sound(p, it) && Guarded(it))
            && (forall it | it in items :: it.ref in BranchRecords(s.refs.drafts, s.refs.prs[id].headBranch))
            && (forall ref | ref in BranchRecords(s.refs.drafts, s.refs.prs[id].headBranch) ::
                  exists it :: it in items && it.ref == ref)
  {
    hide MergeDecision, Sound, Guarded, MergeItems, PlanMerge, BranchRecords, MergeOrder;
    PlanMergeIs(p, s, id, clock);
    var branch, items := s.refs.prs[id].headBranch, PlanMerge(p, s, id, clock).value;
    var order := MergeOrder(s.refs.drafts, branch);
    forall i | 0 <= i < |order|
      ensures |items| == |order| && items[i].ref == order[i] && Sound(p, items[i]) && Guarded(items[i])
    {
      MergeItemAt(p, s, branch, order, clock, i);
    }
    MergeItemsLength(p, s, branch, order, clock, 0);
    forall ref | ref in BranchRecords(s.refs.drafts, branch) ensures exists it :: it in items && it.ref == ref {
      assert ref in order;
      var i :| 0 <= i < |order| && order[i] == ref;
      assert items[i] in items;
    }
  }

  lemma {:induction false} BatchGains(p: Project, s: State, items: seq<Item>, it: Item)
    requires Chain(p, s) && Distinct(items) && it in items && Sound(p, it) && ApplyMany(p, s, items).Ok?
    ensures GainedRow(s, ApplyMany(p, s, items).value, it.ref, it.entry.oid)
  {
    BatchActsPointwise(p, s, items, it.ref);
    AppliedGainsRow(p, s, it);
    GainedIsLocal(s, Apply(p, s, it).value, ApplyMany(p, s, items).value, it.ref, it.entry.oid);
  }

  /** A merge is all or nothing. Whatever happened to the store between planning and the
      transaction: either nothing changes at all, or every record of the request gains exactly
      one row over the HEAD it has in that transaction, every other record is untouched, and
      the request, and no other ref, is marked merged. */
  lemma {:induction false} MergeIsAllOrNothing(p: Project, planned: State, s: State, id: string, clock: nat -> Time)
    requires PlanMerge(p, planned, id, clock).Ok? && Chain(p, s)
    ensures var pr, items := planned.refs.prs[id], PlanMerge(p, planned, id, clock).value;
            var records := BranchRecords(planned.refs.drafts, pr.headBranch);
            var end := FinishMerge(p, s, id, pr, items);
            if ApplyMany(p, s, items).Err? then end == s
            else
              && Chain(p, end) && HistoryKept(s, end)
              && end.refs == s.refs.(prs := s.refs.prs[id := pr.(status := Merged)])
              && (forall it | it in items :: it.ref in records && GainedRow(s, end, it.ref, it.entry.oid))
              && (forall ref | ref in records :: exists it :: it in items && it.ref == ref)
              && (forall ref | ref !in records :: SameRecord(s, end, ref))
  {
    var pr, items := planned.refs.prs[id], PlanMerge(p, planned, id, clock).value;
    MergeCovers(p, planned, id, clock);
    if ApplyMany(p, s, items).Ok? {
      var next := ApplyMany(p, s, items).value;
      var end := FinishMerge(p, s, id, pr, items);
      ApplyManyKeepsChain(p, s, items);
      ApplyManyKeepsRefs(p, s, items);
      RefsKeepChain(p, next, end.refs);
      HistoryKeptTransitive(s, next, end);
      forall it | it in items ensures GainedRow(s, end, it.ref, it.entry.oid) {
        BatchGains(p, s, items, it);
      }
      forall ref | ref !in BranchRecords(planned.refs.drafts, pr.headBranch) ensures SameRecord(s, end, ref) {
        BatchActsPointwise(p, s, items, ref);
      }
    }
  }

  // ----- a merge with nobody else writing -----

  lemma {:induction false} BatchGoesThrough(p: Project, s: State, items: seq<Item>)
    requires Distinct(items) && forall it | it in items :: Apply(p, s, it).Ok?
    ensures ApplyMany(p, s, items).Ok?
    decreases items
  {
    hide Apply;
    if items != [] {
      var next := Apply(p, s, items[0]).value;
      ApplyTouchesOne(p, s, items[0]);
      forall it | it in items[1..] ensures Apply(p, next, it).Ok? {
        assert it in items && SameRecord(s, next, it.ref);
        ApplyIsLocal(p, s, next, it);
      }
      BatchGoesThrough(p, next, items[1..]);
    }
  }

  lemma PlannedMergeApplies(p: Project, s: State, branch: string, ref: Ref, now: Time, it: Item)
    requires ChainAt(p, s, ref) && MergeDecision(p, s, branch, ref, now) == Ready(it)
    ensures Apply(p, s, it).Ok?
  {
    hide HashDoc, PutDoc, SeedDoc, Latest;
    HeadIsThere(p, s, ref);
    var n := HeadSeq(s, ref);
    assert Key(ref, n + 1) !in s.rows;
  }

  /** A merge that can be planned goes through when nobody writes in between. */
  lemma {:induction false} MergeGoesThrough(p: Project, s: State, id: string, clock: nat -> Time)
    requires Chain(p, s) && PlanMerge(p, s, id, clock).Ok?
    ensures ApplyMany(p, s, PlanMerge(p, s, id, clock).value).Ok?
  {
    hide MergeItems, PlanMerge, MergeOrder, MergeDecision, Apply, ApplyMany;
    PlanMergeIs(p, s, id, clock);
    MergeCovers(p, s, id, clock);
    var branch := s.refs.prs[id].headBranch;
    var order, items := MergeOrder(s.refs.drafts, branch), PlanMerge(p, s, id, clock).value;
    MergeItemsLength(p, s, branch, order, clock, 0);
    forall it | it in items ensures Apply(p, s, it).Ok? {
      var i :| 0 <= i < |items| && items[i] == it;
      MergeItemAt(p, s, branch, order, clock, i);
      assert ChainAt(p, s, order[i]);
      PlannedMergeApplies(p, s, branch, order[i], clock(i), it);
    }
    BatchGoesThrough(p, s, items);
  }

  // ----- non-overlapping calls -----

  /** The tips of a branch, as a request freezes them. */
  function FreezeNow(drafts: Drafts, branch: string): map<Ref, Frozen>
  {
    map ref | ref in BranchRecords(drafts, branch) && Latest(drafts, branch, ref).Some? ::
      Frozen(Latest(drafts, branch, ref).value, drafts[Latest(drafts, branch, ref).value].oid)
  }

  /** The store, and the order in which drafts were committed. */
  datatype Desk = Desk(store: State, log: seq<string>)

  /** One complete call, or an outside write between calls. */
  datatype Call =
    | CreateBranch(name: string, base: Option<string>)
    | DeleteBranch(name: string)
    | CommitDrafts(branch: string, changes: seq<DraftChange>, allowSecret: bool)
    | CreatePr(id: string, head: string)
    | ClosePr(id: string)
    | MergePr(id: string, clock: nat -> Time)
    | OnRecord(ref: Ref, intent: Intent, now: Time, freshId: Value)
    | OutsideEdit(ref: Ref, doc: Option<Doc>)

  function HasOpenPr(refs: Refs, branch: string): bool
  {
    exists id | id in refs.prs :: refs.prs[id].headBranch == branch && refs.prs[id].status == Open
  }

  predicate Stopped(plan: DraftPlan)
  {
    plan.DraftRaise? || plan.DraftMissing? || plan.DraftDrifted?
  }

  /** The first error of a draft batch: a repeated record, or a plan that raises. */
  function DraftError(changes: seq<DraftChange>, plans: seq<DraftPlan>, seen: set<Ref>): Option<Error>
    requires |plans| == |changes|
  {
    if changes == [] then None
    else if changes[0].ref in seen then Some(Refused("duplicate record in bulk branch commit"))
    else if plans[0].DraftRaise? then Some(plans[0].error)
    else DraftError(changes[1..], plans[1..], seen + {changes[0].ref})
  }

  /** The missing and the drifted records of a draft batch. */
  function DraftBlockers(changes: seq<DraftChange>, plans: seq<DraftPlan>): seq<Ref>
    requires |plans| == |changes|
  {
    if changes == [] then []
    else (if plans[0].DraftMissing? || plans[0].DraftDrifted? then [changes[0].ref] else []) +
         DraftBlockers(changes[1..], plans[1..])
  }

  function DoCreateBranch(p: Project, refs: Refs, name: string, base: Option<string>): Refs
  {
    if name == p.mainBranch || name in refs.branches || (base.Some? && base.value !in refs.branches) then refs
    else refs.(branches := refs.branches[name := Branch(None)])
  }

  function DoDeleteBranch(p: Project, refs: Refs, name: string): Refs
  {
    if name == p.mainBranch || name !in refs.branches || HasOpenPr(refs, name) then refs
    else refs.(branches := refs.branches - {name})
  }

  function DoCreatePr(p: Project, refs: Refs, id: string, head: string): Refs
  {
    if head == p.mainBranch || head !in refs.branches || BranchRecords(refs.drafts, head) == {} || id in refs.prs then refs
    else refs.(prs := refs.prs[id := PullRequest(Open, head, refs.branches[head].headCommit, FreezeNow(refs.drafts, head))])
  }

  function DoClosePr(refs: Refs, id: string): Refs
  {
    if id !in refs.prs || refs.prs[id].status != Open then refs
    else refs.(prs := refs.prs[id := refs.prs[id].(status := Closed)])
  }

  /** The ids a draft batch stores: none unless every plan is a noop or ready. */
  function DraftIds(p: Project, s: State, branch: string, changes: seq<DraftChange>, allowSecret: bool): seq<string>
  {
    var plans := DraftPlans(p, s, branch, changes, allowSecret);
    if branch == p.mainBranch || branch !in s.refs.branches || !WellFormedBatch(s.refs.drafts, changes) ||
       exists i | 0 <= i < |plans| :: Stopped(plans[i])
    then []
    else ReadyIds(changes, plans)
  }

  /** Committing drafts: the ready ones are stored and the branch moves to the last of them. */
  function DoCommitDrafts(p: Project, s: State, branch: string, changes: seq<DraftChange>, allowSecret: bool): Refs
  {
    var ids := DraftIds(p, s, branch, changes, allowSecret);
    if ids == [] then s.refs
    else
      s.refs.(drafts := PutDrafts(s.refs.drafts, changes, DraftPlans(p, s, branch, changes, allowSecret)),
              branches := s.refs.branches[branch := Branch(Some(ids[|ids| - 1]))])
  }

  function DoMerge(p: Project, s: State, id: string, clock: nat -> Time): State
  {
    var plan := PlanMerge(p, s, id, clock);
    if plan.Err? then s else FinishMerge(p, s, id, s.refs.prs[id], plan.value)
  }

  function Do(p: Project, d: Desk, call: Call): Desk
  {
    var s, refs := d.store, d.store.refs;
    match call
    case CreateBranch(name, base) => d.(store := s.(refs := DoCreateBranch(p, refs, name, base)))
    case DeleteBranch(name) => d.(store := s.(refs := DoDeleteBranch(p, refs, name)))
    case CommitDrafts(branch, changes, allow) =>
      Desk(s.(refs := DoCommitDrafts(p, s, branch, changes, allow)), d.log + DraftIds(p, s, branch, changes, allow))
    case CreatePr(id, head) => d.(store := s.(refs := DoCreatePr(p, refs, id, head)))
    case ClosePr(id) => d.(store := s.(refs := DoClosePr(refs, id)))
    case MergePr(id, clock) => d.(store := DoMerge(p, s, id, clock))
    case OnRecord(ref, intent, now, freshId) => d.(store := Operate(p, s, ref, intent, now, freshId).0)
    case OutsideEdit(ref, doc) => d.(store := Store.Outside(s, ref, doc))
  }

  function DoAll(p: Project, d: Desk, calls: seq<Call>): Desk
    decreases calls
  {
    if calls == [] then d else DoAll(p, Do(p, d, calls[0]), calls[1..])
  }

  ghost predicate Untouched(d: Desk)
  {
    d.store.rows == map[] && d.store.heads == map[] && d.store.refs == Refs(map[], map[], map[]) && d.log == []
  }

  // ----- the invariant -----

  ghost predicate HonestDraft(p: Project, draft: Draft)
  {
    p.Hash(draft.ref, draft.doc) == Some(draft.oid) &&
    Stored(p.coll(draft.ref.collection), draft.doc) == draft.doc
  }

  /** An open request still describes its branch for as long as the branch has not moved. */
  ghost predicate Describes(refs: Refs, pr: PullRequest)
  {
    pr.headBranch in refs.branches &&
    (refs.branches[pr.headBranch].headCommit == pr.headCommit ==>
       pr.records == FreezeNow(refs.drafts, pr.headBranch))
  }

  ghost predicate Known(refs: Refs, commit: Option<string>)
  {
    commit.Some? ==> commit.value in refs.drafts
  }

  ghost predicate RefsInv(p: Project, refs: Refs, log: seq<string>)
  {
    && Journaled(refs.drafts, log)
    && (forall id | id in refs.drafts :: HonestDraft(p, refs.drafts[id]))
    && (forall name | name in refs.branches :: Known(refs, refs.branches[name].headCommit))
    && (forall id | id in refs.prs :: Known(refs, refs.prs[id].headCommit))
    && (forall id | id in refs.prs && refs.prs[id].status == Open :: Describes(refs, refs.prs[id]))
  }

  ghost predicate DeskInv(p: Project, d: Desk)
  {
    Chain(p, d.store) && RefsInv(p, d.store.refs, d.log)
  }

  lemma OtherBranchSame(drafts: Drafts, later: Drafts, branch: string, other: string)
    requires forall id | id in drafts :: id in later && later[id] == drafts[id]
    requires forall id | id in later && id !in drafts :: later[id].branch == branch
    requires other != branch
    ensures FreezeNow(later, other) == FreezeNow(drafts, other)
  {
    forall ref ensures DraftsOf(later, other, ref) == DraftsOf(drafts, other, ref) {
    }
    assert BranchRecords(later, other) == BranchRecords(drafts, other);
    forall ref | ref in BranchRecords(drafts, other)
      ensures Latest(later, other, ref) == Latest(drafts, other, ref)
    {
      LatestSame(drafts, later, other, ref);
    }
  }

  lemma NewestSame(drafts: Drafts, later: Drafts, ids: set<string>)
    requires ids <= drafts.Keys && ids <= later.Keys && forall id | id in ids :: later[id] == drafts[id]
    ensures ids != {} ==> Newest(drafts, ids) == Newest(later, ids)
  {
    assert (set i | i in ids :: (drafts[i].createdAt, i)) == (set i | i in ids :: (later[i].createdAt, i));
  }

  lemma LatestSame(drafts: Drafts, later: Drafts, branch: string, ref: Ref)
    requires DraftsOf(later, branch, ref) == DraftsOf(drafts, branch, ref)
    requires forall id | id in DraftsOf(drafts, branch, ref) :: later[id] == drafts[id]
    ensures Latest(later, branch, ref) == Latest(drafts, branch, ref)
  {
    var commits := DraftsOf(drafts, branch, ref);
    assert ParentsIn(later, commits) == ParentsIn(drafts, commits);
    if commits != {} {
      var tips := commits - ParentsIn(drafts, commits);
      NewestSame(drafts, later, if tips == {} then commits else tips);
    }
  }

  lemma DraftPlansFit(p: Project, s: State, log: seq<string>, branch: string, changes: seq<DraftChange>,
                      allowSecret: bool)
    requires Journaled(s.refs.drafts, log)
    ensures PlansFit(s.refs.drafts, log, branch, changes, DraftPlans(p, s, branch, changes, allowSecret))
    ensures forall i | 0 <= i < |changes| && DraftPlans(p, s, branch, changes, allowSecret)[i].DraftReady? ::
              HonestDraft(p, DraftPlans(p, s, branch, changes, allowSecret)[i].draft)
  {
    hide Journaled, LastOf, Latest, HashDoc, Stored;
    var plans := DraftPlans(p, s, branch, changes, allowSecret);
    forall i | 0 <= i < |changes| && plans[i].DraftReady?
      ensures plans[i].draft.parentCommit == LastOf(s.refs.drafts, log, branch, plans[i].draft.ref)
      ensures HonestDraft(p, plans[i].draft)
    {
      TipIsLastCommitted(s.refs.drafts, log, branch, changes[i].ref);
      StoredKeepsHash(p.coll(changes[i].ref.collection), changes[i].doc);
    }
  }

  /** Known commits stay known, and the new tip is one. */
  lemma StillKnown(refs: Refs, later: Refs, commit: Option<string>, tip: string)
    requires forall id | id in refs.drafts :: id in later.drafts
    requires tip in later.drafts
    ensures Known(refs, commit) ==> Known(later, commit)
    ensures Known(later, Some(tip))
  {
  }

  /** An open request still describes its branch, or the branch has moved past it. */
  lemma StillDescribed(refs: Refs, later: Refs, branch: string, tip: string, pr: PullRequest)
    requires forall id | id in refs.drafts :: id in later.drafts && later.drafts[id] == refs.drafts[id]
    requires forall id | id in later.drafts && id !in refs.drafts :: later.drafts[id].branch == branch
    requires tip !in refs.drafts && later.branches == refs.branches[branch := Branch(Some(tip))]
    requires Known(refs, pr.headCommit) && Describes(refs, pr)
    ensures Describes(later, pr)
  {
    hide Latest;
    if pr.headBranch != branch {
      OtherBranchSame(refs.drafts, later.drafts, branch, pr.headBranch);
    }
  }

  /** New drafts on one branch, and that branch moved to one of them, keep the invariant. */
  lemma BranchMoves(p: Project, refs: Refs, later: Refs, log: seq<string>, log': seq<string>, branch: string,
                    tip: string)
    requires RefsInv(p, refs, log) && Journaled(later.drafts, log')
    requires forall id | id in refs.drafts :: id in later.drafts && later.drafts[id] == refs.drafts[id]
    requires forall id | id in later.drafts && id !in refs.drafts ::
               later.drafts[id].branch == branch && HonestDraft(p, later.drafts[id])
    requires tip in later.drafts && tip !in refs.drafts
    requires later.prs == refs.prs && later.branches == refs.branches[branch := Branch(Some(tip))]
    ensures RefsInv(p, later, log')
  {
    hide HashDoc, Latest, Journaled, Describes, Known;
    forall id | id in later.prs && later.prs[id].status == Open ensures Describes(later, later.prs[id]) {
      assert Known(refs, refs.prs[id].headCommit) && Describes(refs, refs.prs[id]);
      StillDescribed(refs, later, branch, tip, refs.prs[id]);
    }
    forall name | name in later.branches ensures Known(later, later.branches[name].headCommit) {
      assert name != branch ==> Known(refs, refs.branches[name].headCommit);
      StillKnown(refs, later, if name == branch then None else refs.branches[name].headCommit, tip);
    }
    forall id | id in later.prs ensures Known(later, later.prs[id].headCommit) {
      assert Known(refs, refs.prs[id].headCommit);
      StillKnown(refs, later, refs.prs[id].headCommit, tip);
    }
    forall id | id in later.drafts ensures HonestDraft(p, later.drafts[id]) {
      assert id in refs.drafts ==> HonestDraft(p, refs.drafts[id]);
    }
  }

  lemma CommitDraftsKeepsInv(p: Project, s: State, log: seq<string>, branch: string, changes: seq<DraftChange>,
                             allowSecret: bool)
    requires RefsInv(p, s.refs, log)
    ensures RefsInv(p, DoCommitDrafts(p, s, branch, changes, allowSecret), log + DraftIds(p, s, branch, changes, allowSecret))
  {
    hide Journaled, HashDoc, Latest, PlanDraft, HonestDraft, Known, Describes, PutDrafts, ReadyIds;
    var ids := DraftIds(p, s, branch, changes, allowSecret);
    assert log + [] == log;
    if ids != [] {
      var refs, plans := s.refs, DraftPlans(p, s, branch, changes, allowSecret);
      var drafts := PutDrafts(refs.drafts, changes, plans);
      DraftPlansFit(p, s, log, branch, changes, allowSecret);
      PutDraftsJournals(refs.drafts, log, branch, changes, plans);
      PutDraftsAdds(refs.drafts, branch, changes, plans);
      forall id | id in drafts && id !in refs.drafts ensures HonestDraft(p, drafts[id]) {
        var i :| 0 <= i < |changes| && plans[i] == DraftReady(drafts[id]);
      }
      assert ids[|ids| - 1] in ids;
      BranchMoves(p, refs, DoCommitDrafts(p, s, branch, changes, allowSecret), log, log + ids, branch, ids[|ids| - 1]);
    }
  }

  /** A request that is no longer open asks nothing of the branches. */
  lemma MergedKeepsRefsInv(p: Project, refs: Refs, log: seq<string>, id: string)
    requires RefsInv(p, refs, log) && id in refs.prs
    ensures RefsInv(p, refs.(prs := refs.prs[id := refs.prs[id].(status := Merged)]), log)
  {
    hide HashDoc, FreezeNow;
    RequestsChange(p, refs, refs.(prs := refs.prs[id := refs.prs[id].(status := Merged)]), log);
  }

  lemma MergeKeepsInv(p: Project, s: State, log: seq<string>, id: string, clock: nat -> Time)
    requires Chain(p, s) && RefsInv(p, s.refs, log)
    ensures Chain(p, DoMerge(p, s, id, clock)) && RefsInv(p, DoMerge(p, s, id, clock).refs, log)
  {
    if PlanMerge(p, s, id, clock).Ok? {
      MergeIsAllOrNothing(p, s, s, id, clock);
      MergedKeepsRefsInv(p, s.refs, log, id);
    }
  }

  lemma CreateBranchKeepsInv(p: Project, refs: Refs, log: seq<string>, name: string, base: Option<string>)
    requires RefsInv(p, refs, log)
    ensures RefsInv(p, DoCreateBranch(p, refs, name, base), log)
  {
    var later := DoCreateBranch(p, refs, name, base);
    BranchesChange(p, refs, later, log);
  }

  lemma DeleteBranchKeepsInv(p: Project, refs: Refs, log: seq<string>, name: string)
    requires RefsInv(p, refs, log)
    ensures RefsInv(p, DoDeleteBranch(p, refs, name), log)
  {
    var later := DoDeleteBranch(p, refs, name);
    BranchesChange(p, refs, later, log);
  }

  /** Only branch refs change, and none that an open request uses. */
  lemma BranchesChange(p: Project, refs: Refs, later: Refs, log: seq<string>)
    requires RefsInv(p, refs, log) && later == refs.(branches := later.branches)
    requires forall name | name in later.branches ::
               later.branches[name] == Branch(None) ||
               (name in refs.branches && later.branches[name] == refs.branches[name])
    requires forall id | id in refs.prs && refs.prs[id].status == Open ::
               var name := refs.prs[id].headBranch;
               name in refs.branches ==> name in later.branches && later.branches[name] == refs.branches[name]
    ensures RefsInv(p, later, log)
  {
    forall id | id in refs.prs && refs.prs[id].status == Open ensures Describes(later, refs.prs[id]) {
      assert Describes(refs, refs.prs[id]);
    }
    forall id | id in refs.prs ensures Known(later, refs.prs[id].headCommit) {
      assert Known(refs, refs.prs[id].headCommit);
    }
    forall name | name in later.branches ensures Known(later, later.branches[name].headCommit) {
      assert name in refs.branches ==> Known(refs, refs.branches[name].headCommit);
    }
  }

  /** Only requests change: those that stay open still describe their branch. */
  lemma RequestsChange(p: Project, refs: Refs, later: Refs, log: seq<string>)
    requires RefsInv(p, refs, log) && later == refs.(prs := later.prs)
    requires forall id | id in later.prs ::
               Known(refs, later.prs[id].headCommit) && (later.prs[id].status == Open ==> Describes(refs, later.prs[id]))
    ensures RefsInv(p, later, log)
  {
    hide HashDoc, FreezeNow;
    forall id | id in later.prs
      ensures Known(later, later.prs[id].headCommit) && (later.prs[id].status == Open ==> Describes(later, later.prs[id]))
    {
      assert Known(refs, later.prs[id].headCommit);
      assert later.prs[id].status == Open ==> Describes(refs, later.prs[id]);
    }
    forall name | name in refs.branches ensures Known(later, later.branches[name].headCommit) {
      assert Known(refs, refs.branches[name].headCommit);
    }
  }

  lemma CreatePrKeepsInv(p: Project, refs: Refs, log: seq<string>, id: string, head: string)
    requires RefsInv(p, refs, log)
    ensures RefsInv(p, DoCreatePr(p, refs, id, head), log)
  {
    hide HashDoc, FreezeNow;
    assert head in refs.branches ==> Known(refs, refs.branches[head].headCommit);
    RequestsChange(p, refs, DoCreatePr(p, refs, id, head), log);
  }

  lemma ClosePrKeepsInv(p: Project, refs: Refs, log: seq<string>, id: string)
    requires RefsInv(p, refs, log)
    ensures RefsInv(p, DoClosePr(refs, id), log)
  {
    hide HashDoc, FreezeNow;
    RequestsChange(p, refs, DoClosePr(refs, id), log);
  }

  lemma DoKeepsInv(p: Project, d: Desk, call: Call)
    requires DeskInv(p, d)
    ensures DeskInv(p, Do(p, d, call))
  {
    var refs, later := d.store.refs, Do(p, d, call).store.refs;
    match call
    case CreateBranch(name, base) =>
      CreateBranchKeepsInv(p, refs, d.log, name, base);
      RefsKeepChain(p, d.store, later);
    case DeleteBranch(name) =>
      DeleteBranchKeepsInv(p, refs, d.log, name);
      RefsKeepChain(p, d.store, later);
    case CommitDrafts(branch, changes, allow) =>
      CommitDraftsKeepsInv(p, d.store, d.log, branch, changes, allow);
      RefsKeepChain(p, d.store, later);
    case CreatePr(id, head) =>
      CreatePrKeepsInv(p, refs, d.log, id, head);
      RefsKeepChain(p, d.store, later);
    case ClosePr(id) =>
      ClosePrKeepsInv(p, refs, d.log, id);
      RefsKeepChain(p, d.store, later);
    case MergePr(id, clock) =>
      MergeKeepsInv(p, d.store, d.log, id, clock);
    case OnRecord(ref, intent, now, freshId) =>
      OperateKeeps(p, d.store, ref, intent, now, freshId);
      OperateKeepsRefs(p, d.store, ref, intent, now, freshId);
    case OutsideEdit(ref, doc) =>
      OutsideKeepsChain(p, d.store, ref, doc);
  }

  lemma {:induction false} DoAllKeepsInv(p: Project, d: Desk, calls: seq<Call>)
    requires DeskInv(p, d)
    ensures DeskInv(p, DoAll(p, d, calls))
    decreases calls
  {
    if calls != [] {
      DoKeepsInv(p, d, calls[0]);
      DoAllKeepsInv(p, Do(p, d, calls[0]), calls[1..]);
    }
  }

  lemma UntouchedInv(p: Project, d: Desk)
    requires Untouched(d)
    ensures DeskInv(p, d)
  {
    forall ref ensures ChainAt(p, d.store, ref) {
    }
  }

  /** After any sequence of complete calls and outside writes, the tip of every record on every
      branch name is the draft committed last for it there. */
  lemma {:induction false} BranchTipIsLastCommitted(p: Project, start: Desk, calls: seq<Call>, branch: string, ref: Ref)
    requires Untouched(start)
    ensures var end := DoAll(p, start, calls);
            Latest(end.store.refs.drafts, branch, ref) == LastOf(end.store.refs.drafts, end.log, branch, ref)
  {
    UntouchedInv(p, start);
    DoAllKeepsInv(p, start, calls);
    var end := DoAll(p, start, calls);
    TipIsLastCommitted(end.store.refs.drafts, end.log, branch, ref);
  }

  /** What a request says never changes but for its status, which leaves `Open` at most once. */
  ghost predicate PrKept(pr: PullRequest, later: PullRequest)
  {
    later == pr || (pr.status == Open && later == pr.(status := later.status))
  }

  lemma DoKeepsPr(p: Project, d: Desk, call: Call, id: string)
    requires id in d.store.refs.prs
    ensures id in Do(p, d, call).store.refs.prs
    ensures PrKept(d.store.refs.prs[id], Do(p, d, call).store.refs.prs[id])
  {
    hide Operate, ApplyMany, MergeItems, DraftIds, DraftPlans, PutDrafts, FreezeNow;
    if call.MergePr? && PlanMerge(p, d.store, call.id, call.clock).Ok? {
      var items := PlanMerge(p, d.store, call.id, call.clock).value;
      if ApplyMany(p, d.store, items).Ok? {
        ApplyManyKeepsRefs(p, d.store, items);
      }
    } else if call.OnRecord? {
      OperateKeepsRefs(p, d.store, call.ref, call.intent, call.now, call.freshId);
    }
  }

  /** A branch appears by being created, where its base is there, and goes by being deleted, where no open
      request is on it; its head moves with drafts on it only. */
  lemma BranchEnds(p: Project, d: Desk, call: Call, name: string)
    ensures var refs, later := d.store.refs, Do(p, d, call).store.refs;
            && (name in later.branches <==>
                  if call == DeleteBranch(name) then name in refs.branches && (name == p.mainBranch || HasOpenPr(refs, name))
                  else name in refs.branches ||
                       (call.CreateBranch? && call.name == name && name != p.mainBranch &&
                        (call.base.Some? ==> call.base.value in refs.branches)))
            && (name in refs.branches && name in later.branches && !(call.CommitDrafts? && call.branch == name) ==>
                  later.branches[name] == refs.branches[name])
            && (name !in refs.branches && name in later.branches ==> later.branches[name] == Branch(None))
  {
    hide Operate, ApplyMany, PlanMerge, DraftPlans, PutDrafts, FreezeNow, ReadyIds, WellFormedBatch;
    match call
    case MergePr(id, clock) =>
      if PlanMerge(p, d.store, id, clock).Ok? && ApplyMany(p, d.store, PlanMerge(p, d.store, id, clock).value).Ok? {
        ApplyManyKeepsRefs(p, d.store, PlanMerge(p, d.store, id, clock).value);
      }
    case OnRecord(ref, intent, now, freshId) => OperateKeepsRefs(p, d.store, ref, intent, now, freshId);
    case _ =>
  }

  /** An open request is closed by closing it, merged by a merge of it that can be planned, and by nothing
      else. */
  lemma RequestEnds(p: Project, d: Desk, call: Call, id: string)
    requires DeskInv(p, d) && id in d.store.refs.prs && d.store.refs.prs[id].status == Open
    ensures var later := Do(p, d, call).store.refs.prs;
            && id in later
            && (later[id].status == Closed <==> call == ClosePr(id))
            && (later[id].status == Merged <==>
                  call.MergePr? && call.id == id && PlanMerge(p, d.store, id, call.clock).Ok?)
  {
    hide Operate, ApplyMany, MergeItems, DraftIds, DraftPlans, PutDrafts, FreezeNow, RefsInv, Chain;
    DoKeepsPr(p, d, call, id);
    if call.MergePr? && PlanMerge(p, d.store, call.id, call.clock).Ok? {
      MergeGoesThrough(p, d.store, call.id, call.clock);
      ApplyManyKeepsRefs(p, d.store, PlanMerge(p, d.store, call.id, call.clock).value);
    } else if call.OnRecord? {
      OperateKeepsRefs(p, d.store, call.ref, call.intent, call.now, call.freshId);
    }
  }

  lemma OperateKeepsRefs(p: Project, s: State, ref: Ref, intent: Intent, now: Time, freshId: Value)
    ensures Operate(p, s, ref, intent, now, freshId).0.refs == s.refs
  {
    hide Decide, Store.Written, Appended, Check;
  }

  lemma {:induction false} DoAllKeepsPr(p: Project, d: Desk, calls: seq<Call>, id: string)
    requires id in d.store.refs.prs
    ensures id in DoAll(p, d, calls).store.refs.prs
    ensures PrKept(d.store.refs.prs[id], DoAll(p, d, calls).store.refs.prs[id])
    decreases calls
  {
    if calls != [] {
      DoKeepsPr(p, d, calls[0], id);
      DoAllKeepsPr(p, Do(p, d, calls[0]), calls[1..], id);
    }
  }

  // ----- merging what was reviewed -----

  /** A planned merge write carries the oid of its draft, over the HEAD the draft names. */
  lemma MergeDecisionIs(p: Project, s: State, branch: string, ref: Ref, now: Time, it: Item)
    requires ChainAt(p, s, ref) && MergeDecision(p, s, branch, ref, now) == Ready(it)
    requires forall id | id in s.refs.drafts :: HonestDraft(p, s.refs.drafts[id])
    ensures Latest(s.refs.drafts, branch, ref).Some?
    ensures var draft := s.refs.drafts[Latest(s.refs.drafts, branch, ref).value];
            it.entry.oid == draft.oid && draft.baseHead == HeadOid(s, ref) && it.newDoc == Some(draft.doc)
    ensures it.ref == ref && !it.seedMissing && it.expectedHead == HeadOid(s, ref)
    ensures ref in s.live && p.Hash(ref, s.live[ref]).Some? && it.expectedLive == p.Hash(ref, s.live[ref])
  {
    HeadIsThere(p, s, ref);
    var draft := s.refs.drafts[Latest(s.refs.drafts, branch, ref).value];
    assert HonestDraft(p, draft);
  }

  /** What a merge did to one record, next to what the request froze. */
  ghost predicate MergedAsFrozen(s: State, end: State, frozen: map<Ref, Frozen>, ref: Ref)
  {
    if ref in frozen then
      && frozen[ref].commitId in s.refs.drafts
      && s.refs.drafts[frozen[ref].commitId].baseHead == HeadOid(s, ref)
      && GainedRow(s, end, ref, frozen[ref].oid)
    else SameRecord(s, end, ref)
  }

  lemma MergeItemOf(p: Project, s: State, id: string, clock: nat -> Time, ref: Ref) returns (it: Item, now: Time)
    requires Chain(p, s) && PlanMerge(p, s, id, clock).Ok?
    requires forall x | x in s.refs.drafts :: HonestDraft(p, s.refs.drafts[x])
    requires ref in BranchRecords(s.refs.drafts, s.refs.prs[id].headBranch)
    ensures it in PlanMerge(p, s, id, clock).value && it.ref == ref
    ensures MergeDecision(p, s, s.refs.prs[id].headBranch, ref, now) == Ready(it)
    ensures var tip := Latest(s.refs.drafts, s.refs.prs[id].headBranch, ref);
            tip.Some? && it.entry.oid == s.refs.drafts[tip.value].oid &&
            s.refs.drafts[tip.value].baseHead == HeadOid(s, ref)
  {
    var branch := s.refs.prs[id].headBranch;
    var order := MergeOrder(s.refs.drafts, branch);
    assert ref in order;
    var i :| 0 <= i < |order| && order[i] == ref;
    MergeItemAt(p, s, branch, order, clock, i);
    it, now := MergeItems(p, s, branch, order, clock, 0).value[i], clock(i);
    assert ChainAt(p, s, ref);
    MergeDecisionIs(p, s, branch, ref, clock(i), it);
  }

  lemma MergedRecordIsFrozen(p: Project, s: State, log: seq<string>, id: string, clock: nat -> Time, ref: Ref)
    requires Chain(p, s) && RefsInv(p, s.refs, log) && PlanMerge(p, s, id, clock).Ok?
    ensures MergedAsFrozen(s, DoMerge(p, s, id, clock), FreezeNow(s.refs.drafts, s.refs.prs[id].headBranch), ref)
    ensures DoMerge(p, s, id, clock).refs.prs == s.refs.prs[id := s.refs.prs[id].(status := Merged)]
  {
    MergeGoesThrough(p, s, id, clock);
    MergeIsAllOrNothing(p, s, s, id, clock);
    if ref in BranchRecords(s.refs.drafts, s.refs.prs[id].headBranch) {
      var it, _ := MergeItemOf(p, s, id, clock, ref);
      assert GainedRow(s, DoMerge(p, s, id, clock), ref, it.entry.oid);
    }
  }

  // ----- when a merge can be planned -----

  /** The record still is what its tip was drafted on. */
  ghost predicate MergeableRecord(p: Project, s: State, branch: string, ref: Ref)
  {
    var tip := Latest(s.refs.drafts, branch, ref);
    tip.Some? && ref in s.live && Undrifted(p, s, ref) && s.refs.drafts[tip.value].baseHead == HeadOid(s, ref)
  }

  lemma MergeDecisionIff(p: Project, s: State, branch: string, ref: Ref, now: Time)
    requires ChainAt(p, s, ref) && forall id | id in s.refs.drafts :: HonestDraft(p, s.refs.drafts[id])
    ensures MergeDecision(p, s, branch, ref, now).Ready? <==> MergeableRecord(p, s, branch, ref)
    ensures MergeDecision(p, s, branch, ref, now) != Nothing
  {
    hide HashDoc, Stored, Latest;
    HeadIsThere(p, s, ref);
    var tip := Latest(s.refs.drafts, branch, ref);
    if tip.Some? {
      assert HonestDraft(p, s.refs.drafts[tip.value]);
    }
  }

  lemma {:induction false} MergeItemsIff(p: Project, s: State, branch: string, order: seq<Ref>, clock: nat -> Time,
                                         k: nat)
    requires Chain(p, s) && forall id | id in s.refs.drafts :: HonestDraft(p, s.refs.drafts[id])
    ensures MergeItems(p, s, branch, order, clock, k).Ok? <==>
              forall ref | ref in order :: MergeableRecord(p, s, branch, ref)
    decreases order
  {
    hide MergeDecision, MergeableRecord;
    if order != [] {
      assert ChainAt(p, s, order[0]);
      MergeDecisionIff(p, s, branch, order[0], clock(k));
      MergeItemsIff(p, s, branch, order[1..], clock, k + 1);
      assert forall ref :: ref in order <==> ref == order[0] || ref in order[1..];
    }
  }

  /** A request merges exactly when it is open on a branch that has drafts and has not moved, and
      every record of the branch is live, undrifted and still at the HEAD its tip was drafted on. */
  lemma MergesIff(p: Project, s: State, log: seq<string>, id: string, clock: nat -> Time)
    requires Chain(p, s) && RefsInv(p, s.refs, log) && id in s.refs.prs
    ensures PlanMerge(p, s, id, clock).Ok? <==>
              var pr := s.refs.prs[id];
              && pr.status == Open && pr.headBranch != p.mainBranch && pr.headBranch in s.refs.branches
              && s.refs.branches[pr.headBranch].headCommit == pr.headCommit
              && BranchRecords(s.refs.drafts, pr.headBranch) != {}
              && forall ref | ref in BranchRecords(s.refs.drafts, pr.headBranch) ::
                   MergeableRecord(p, s, pr.headBranch, ref)
  {
    hide MergeItems, MergeableRecord, BranchRecords, MergeOrder;
    var branch := s.refs.prs[id].headBranch;
    MergeItemsIff(p, s, branch, MergeOrder(s.refs.drafts, branch), clock, 0);
  }

  /** A merged record is live and recorded at the version of its draft. */
  lemma MergedIsLive(p: Project, s: State, log: seq<string>, id: string, clock: nat -> Time, ref: Ref)
    requires Chain(p, s) && RefsInv(p, s.refs, log) && PlanMerge(p, s, id, clock).Ok?
    requires ref in BranchRecords(s.refs.drafts, s.refs.prs[id].headBranch)
    requires var tip := Latest(s.refs.drafts, s.refs.prs[id].headBranch, ref);
             tip.Some? && Writable(p, s, ref, s.refs.drafts[tip.value].doc)
    ensures var tip := Latest(s.refs.drafts, s.refs.prs[id].headBranch, ref);
            At(p, DoMerge(p, s, id, clock), ref, s.refs.drafts[tip.value].oid)
  {
    hide HashDoc, GainedRow, MergeDecision, Writable, Apply, ApplyMany, MergeItems, MergeOrder, Latest, BranchRecords;
    var it, now := MergeItemOf(p, s, id, clock, ref);
    var items := PlanMerge(p, s, id, clock).value;
    MergeDecisionIs(p, s, s.refs.prs[id].headBranch, ref, now, it);
    MergeCovers(p, s, id, clock);
    var tip := Latest(s.refs.drafts, s.refs.prs[id].headBranch, ref).value;
    assert HonestDraft(p, s.refs.drafts[tip]);
    ReplacementLands(p, s, it, s.refs.drafts[tip].doc);
    MergeGoesThrough(p, s, id, clock);
    BatchActsPointwise(p, s, items, ref);
  }

  /** A request that can merge still has the records it froze. */
  lemma MergeableIsDescribed(p: Project, s: State, log: seq<string>, id: string, clock: nat -> Time)
    requires RefsInv(p, s.refs, log) && PlanMerge(p, s, id, clock).Ok?
    ensures id in s.refs.prs && s.refs.prs[id].records == FreezeNow(s.refs.drafts, s.refs.prs[id].headBranch)
  {
    assert Describes(s.refs, s.refs.prs[id]);
  }

  lemma {:induction false} MergesFrozen(p: Project, created: Desk, id: string, between: seq<Call>, clock: nat -> Time,
                                        ref: Ref)
    requires DeskInv(p, created) && id in created.store.refs.prs
    requires PlanMerge(p, DoAll(p, created, between).store, id, clock).Ok?
    ensures var s := DoAll(p, created, between).store;
            var end := DoMerge(p, s, id, clock);
            && id in end.refs.prs && end.refs.prs[id].status == Merged
            && MergedAsFrozen(s, end, created.store.refs.prs[id].records, ref)
  {
    DoAllKeepsInv(p, created, between);
    DoAllKeepsPr(p, created, between, id);
    var d := DoAll(p, created, between);
    MergeableIsDescribed(p, d.store, d.log, id, clock);
    MergedRecordIsFrozen(p, d.store, d.log, id, clock, ref);
  }

  /** A merge merges what was reviewed. Make any complete calls, create a request, make any
      complete calls again, with outside writes between them; if no guard then stops the merge of
      the request, it goes through, and the merged records are exactly those frozen at creation,
      each gains one row with the frozen oid, and that row's parent is the HEAD its draft was based
      on. */
  lemma {:induction false} MergesWhatWasReviewed(p: Project, start: Desk, before: seq<Call>, id: string, head: string,
          between: seq<Call>, clock: nat -> Time, ref: Ref)
    requires Untouched(start)
    requires var d0 := DoAll(p, start, before);
             id !in d0.store.refs.prs && id in Do(p, d0, CreatePr(id, head)).store.refs.prs
    requires var s := DoAll(p, Do(p, DoAll(p, start, before), CreatePr(id, head)), between).store;
             PlanMerge(p, s, id, clock).Ok?
    ensures var d0 := DoAll(p, start, before);
            var s := DoAll(p, Do(p, d0, CreatePr(id, head)), between).store;
            var end := DoMerge(p, s, id, clock);
            && id in end.refs.prs && end.refs.prs[id].status == Merged
            && MergedAsFrozen(s, end, FreezeNow(d0.store.refs.drafts, head), ref)
  {
    hide PlanMerge, DoMerge, ApplyMany, MergedAsFrozen, FreezeNow;
    var d0 := DoAll(p, start, before);
    UntouchedInv(p, start);
    DoAllKeepsInv(p, start, before);
    DoKeepsInv(p, d0, CreatePr(id, head));
    CreatedFreezes(p, d0.store.refs, id, head);
    MergesFrozen(p, Do(p, d0, CreatePr(id, head)), id, between, clock, ref);
  }

  lemma CreatedFreezes(p: Project, refs: Refs, id: string, head: string)
    requires id !in refs.prs && id in DoCreatePr(p, refs, id, head).prs
    ensures DoCreatePr(p, refs, id, head).prs[id].records == FreezeNow(refs.drafts, head)
  {
  }

  // ----- whether a created request can be merged -----

  /** As long as the request is open, its branch is there and has not moved since. */
  ghost predicate StillCurrent(p: Project, refs: Refs, id: string, head: string)
  {
    && id in refs.prs && refs.prs[id].headBranch == head && head != p.mainBranch
    && BranchRecords(refs.drafts, head) != {}
    && (refs.prs[id].status == Open ==>
          head in refs.branches && refs.branches[head].headCommit == refs.prs[id].headCommit)
  }

  lemma DraftsOnlyGrow(p: Project, s: State, log: seq<string>, branch: string, changes: seq<DraftChange>, allow: bool)
    requires RefsInv(p, s.refs, log)
    ensures var later := DoCommitDrafts(p, s, branch, changes, allow).drafts;
            forall id | id in s.refs.drafts :: id in later && later[id] == s.refs.drafts[id]
  {
    hide Journaled, HashDoc, Latest, PlanDraft, HonestDraft, Known, Describes, PutDrafts, ReadyIds;
    if DraftIds(p, s, branch, changes, allow) != [] {
      DraftPlansFit(p, s, log, branch, changes, allow);
      PutDraftsAdds(s.refs.drafts, branch, changes, DraftPlans(p, s, branch, changes, allow));
    }
  }

  lemma DoKeepsDrafts(p: Project, d: Desk, call: Call)
    requires DeskInv(p, d)
    ensures var drafts, later := d.store.refs.drafts, Do(p, d, call).store.refs.drafts;
            forall id | id in drafts :: id in later && later[id] == drafts[id]
  {
    hide Operate, ApplyMany, PlanMerge, DoCommitDrafts, DraftIds, FreezeNow, RefsInv, Chain;
    match call
    case CommitDrafts(branch, changes, allow) => DraftsOnlyGrow(p, d.store, d.log, branch, changes, allow);
    case MergePr(id, clock) =>
      if PlanMerge(p, d.store, id, clock).Ok? && ApplyMany(p, d.store, PlanMerge(p, d.store, id, clock).value).Ok? {
        ApplyManyKeepsRefs(p, d.store, PlanMerge(p, d.store, id, clock).value);
      }
    case OnRecord(ref, intent, now, freshId) => OperateKeepsRefs(p, d.store, ref, intent, now, freshId);
    case _ =>
  }

  lemma DoKeepsCurrent(p: Project, d: Desk, call: Call, id: string, head: string)
    requires DeskInv(p, d) && StillCurrent(p, d.store.refs, id, head)
    requires !(call.CommitDrafts? && call.branch == head)
    ensures StillCurrent(p, Do(p, d, call).store.refs, id, head)
  {
    hide Do, DeskInv;
    DoKeepsPr(p, d, call, id);
    BranchEnds(p, d, call, head);
    DoKeepsDrafts(p, d, call);
    var record :| record in BranchRecords(d.store.refs.drafts, head);
    var draft :| draft in d.store.refs.drafts && d.store.refs.drafts[draft].branch == head;
    assert d.store.refs.drafts[draft].ref in BranchRecords(Do(p, d, call).store.refs.drafts, head);
  }

  lemma {:induction false} DoAllKeepsCurrent(p: Project, d: Desk, calls: seq<Call>, id: string, head: string)
    requires DeskInv(p, d) && StillCurrent(p, d.store.refs, id, head)
    requires forall call | call in calls :: !(call.CommitDrafts? && call.branch == head)
    ensures StillCurrent(p, DoAll(p, d, calls).store.refs, id, head)
    decreases calls
  {
    hide DeskInv, StillCurrent, Do;
    if calls != [] {
      assert calls[0] in calls;
      DoKeepsCurrent(p, d, calls[0], id, head);
      DoKeepsInv(p, d, calls[0]);
      DoAllKeepsCurrent(p, Do(p, d, calls[0]), calls[1..], id, head);
    }
  }

  /** After a request is created, whatever is called but drafts on its branch: as long as it is open, it can
      be merged exactly when every record of the branch is live, undrifted and at its draft's base. */
  lemma {:induction false} CreatedCanMerge(p: Project, d: Desk, id: string, head: string, between: seq<Call>,
          clock: nat -> Time)
    requires DeskInv(p, d) && id !in d.store.refs.prs && id in Do(p, d, CreatePr(id, head)).store.refs.prs
    requires forall call | call in between :: !(call.CommitDrafts? && call.branch == head)
    requires var s := DoAll(p, Do(p, d, CreatePr(id, head)), between).store;
             id in s.refs.prs && s.refs.prs[id].status == Open
    ensures var s := DoAll(p, Do(p, d, CreatePr(id, head)), between).store;
            PlanMerge(p, s, id, clock).Ok? <==>
              forall ref | ref in BranchRecords(s.refs.drafts, head) :: MergeableRecord(p, s, head, ref)
  {
    hide DoAll, PlanMerge, MergeableRecord, BranchRecords, FreezeNow, RefsInv, Chain;
    var created := Do(p, d, CreatePr(id, head));
    assert StillCurrent(p, created.store.refs, id, head);
    DoKeepsInv(p, d, CreatePr(id, head));
    DoAllKeepsCurrent(p, created, between, id, head);
    DoAllKeepsInv(p, created, between);
    var end := DoAll(p, created, between);
    MergesIff(p, end.store, end.log, id, clock);
  }

  // ----- what committing drafts does to a branch -----

  /** What a branch shows for a record: its tip, or HEAD where it has none. */
  function BranchOid(s: State, branch: string, ref: Ref): Option<Oid>
  {
    var tip := Latest(s.refs.drafts, branch, ref);
    if tip.Some? then Some(s.refs.drafts[tip.value].oid) else HeadOid(s, ref)
  }

  /** Each stored draft is the planned one of its change. */
  lemma {:induction false} PutDraftIs(drafts: Drafts, changes: seq<DraftChange>, plans: seq<DraftPlan>)
    requires |plans| == |changes| && WellFormedBatch(drafts, changes)
    ensures forall id | id in drafts ::
              id in PutDrafts(drafts, changes, plans) && PutDrafts(drafts, changes, plans)[id] == drafts[id]
    ensures forall i | 0 <= i < |changes| && plans[i].DraftReady? ::
              changes[i].id in PutDrafts(drafts, changes, plans) &&
              PutDrafts(drafts, changes, plans)[changes[i].id] == plans[i].draft &&
              changes[i].id in ReadyIds(changes, plans)
    ensures forall id | id in ReadyIds(changes, plans) :: Chosen(changes, plans, id)
    ensures forall id | id in PutDrafts(drafts, changes, plans) && id !in drafts :: id in ReadyIds(changes, plans)
    decreases changes
  {
    if changes != [] {
      var rest, restPlans := changes[1..], plans[1..];
      var next := if plans[0].DraftReady? then drafts[changes[0].id := plans[0].draft] else drafts;
      var first := if plans[0].DraftReady? then plans[0].draft else Draft("", changes[0].ref, "", map[], None, None, 0);
      RestFits(drafts, [], "", changes, plans, first);
      PutDraftIs(next, rest, restPlans);
      forall id | id in ReadyIds(changes, plans) ensures Chosen(changes, plans, id) {
        if id in ReadyIds(rest, restPlans) {
          assert Chosen(rest, restPlans, id);
          var i :| 0 <= i < |rest| && rest[i].id == id && restPlans[i].DraftReady?;
          assert changes[i + 1].id == id && plans[i + 1].DraftReady?;
        } else {
          assert changes[0].id == id;
        }
      }
      forall i | 0 <= i < |changes| && plans[i].DraftReady?
        ensures changes[i].id in PutDrafts(drafts, changes, plans) &&
                PutDrafts(drafts, changes, plans)[changes[i].id] == plans[i].draft &&
                changes[i].id in ReadyIds(changes, plans)
      {
        if i > 0 {
          assert rest[i - 1] == changes[i] && restPlans[i - 1] == plans[i];
        }
      }
    }
  }

  ghost predicate Chosen(changes: seq<DraftChange>, plans: seq<DraftPlan>, id: string)
    requires |plans| == |changes|
  {
    exists i :: 0 <= i < |changes| && changes[i].id == id && plans[i].DraftReady?
  }

  /** The only draft of its record that a batch stores is the last one there. */
  lemma {:induction false} ReadyIsTip(drafts: Drafts, log: seq<string>, branch: string, changes: seq<DraftChange>,
                                      plans: seq<DraftPlan>, i: nat)
    requires |plans| == |changes| && Journaled(drafts, log) && WellFormedBatch(drafts, changes)
    requires PlansFit(drafts, log, branch, changes, plans) && i < |changes| && plans[i].DraftReady?
    ensures Latest(PutDrafts(drafts, changes, plans), branch, changes[i].ref) == Some(changes[i].id)
  {
    hide LastOf, Latest, ReadyIds, PutDrafts;
    var later, ids := PutDrafts(drafts, changes, plans), ReadyIds(changes, plans);
    var id, ref := changes[i].id, changes[i].ref;
    PutDraftIs(drafts, changes, plans);
    PutDraftsJournals(drafts, log, branch, changes, plans);
    TipIsLastCommitted(later, log + ids, branch, ref);
    LastOfIs(later, log + ids, branch, ref);
    assert id in DraftsOf(later, branch, ref) && id in ids;
    var at :| 0 <= at < |ids| && ids[at] == id;
    assert (log + ids)[|log| + at] == id;
    forall x | x in ids && x in DraftsOf(later, branch, ref) ensures x == id {
      OnlyOneReady(drafts, branch, changes, plans, i, x);
    }
    forall k | |log| <= k < |log + ids| && (log + ids)[k] in DraftsOf(later, branch, ref) ensures (log + ids)[k] == id {
      assert (log + ids)[k] == ids[k - |log|];
    }
  }

  lemma {:induction false} OnlyOneReady(drafts: Drafts, branch: string, changes: seq<DraftChange>,
                                        plans: seq<DraftPlan>, i: nat, id: string)
    requires |plans| == |changes| && WellFormedBatch(drafts, changes) && i < |changes| && plans[i].DraftReady?
    requires forall x | 0 <= x < |changes| && plans[x].DraftReady? :: plans[x].draft.ref == changes[x].ref
    requires id in ReadyIds(changes, plans) && id in DraftsOf(PutDrafts(drafts, changes, plans), branch, changes[i].ref)
    ensures id == changes[i].id
  {
    PutDraftIs(drafts, changes, plans);
    assert Chosen(changes, plans, id);
    var x :| 0 <= x < |changes| && changes[x].id == id && plans[x].DraftReady?;
    assert x < i || i < x || x == i;
  }

  lemma {:induction false} UnreadyKeepsTip(drafts: Drafts, branch: string, changes: seq<DraftChange>,
                                           plans: seq<DraftPlan>, other: string, ref: Ref)
    requires |plans| == |changes| && WellFormedBatch(drafts, changes)
    requires forall x | 0 <= x < |changes| && plans[x].DraftReady? ::
               plans[x].draft.ref == changes[x].ref && plans[x].draft.branch == branch
    requires other != branch || forall x | 0 <= x < |changes| && plans[x].DraftReady? :: changes[x].ref != ref
    ensures Latest(PutDrafts(drafts, changes, plans), other, ref) == Latest(drafts, other, ref)
  {
    var later := PutDrafts(drafts, changes, plans);
    PutDraftIs(drafts, changes, plans);
    assert DraftsOf(later, other, ref) == DraftsOf(drafts, other, ref);
    LatestSame(drafts, later, other, ref);
  }

  /** The batch can be committed: every record is live and undrifted, every document can be
      hashed, and none is refused for its secrets. */
  ghost predicate Draftable(p: Project, s: State, branch: string, changes: seq<DraftChange>, allowSecret: bool)
  {
    && branch != p.mainBranch && branch in s.refs.branches && WellFormedBatch(s.refs.drafts, changes)
    && forall i | 0 <= i < |changes| ::
         changes[i].ref in s.live && Undrifted(p, s, changes[i].ref) && p.Hash(changes[i].ref, changes[i].doc).Some? &&
         !SecretStops(p, changes[i].ref, changes[i].doc, allowSecret)
  }

  lemma PlanDraftIs(p: Project, s: State, branch: string, change: DraftChange, allowSecret: bool)
    requires ChainAt(p, s, change.ref) && change.ref in s.live && Undrifted(p, s, change.ref)
    requires p.Hash(change.ref, change.doc).Some? && !SecretStops(p, change.ref, change.doc, allowSecret)
    ensures match PlanDraft(p, s, branch, change, allowSecret)
            case DraftNoop => BranchOid(s, branch, change.ref) == p.Hash(change.ref, change.doc)
            case DraftReady(draft) =>
              draft.branch == branch && draft.ref == change.ref && Some(draft.oid) == p.Hash(change.ref, change.doc)
            case _ => false
  {
    hide HashDoc, Latest;
    HeadIsThere(p, s, change.ref);
  }

  /** Committing drafts makes the branch show the committed content of every record of the batch,
      and changes what no other record or branch shows. */
  lemma DraftsLand(p: Project, s: State, log: seq<string>, branch: string, changes: seq<DraftChange>,
                   allowSecret: bool, other: string, ref: Ref)
    requires Chain(p, s) && RefsInv(p, s.refs, log) && Draftable(p, s, branch, changes, allowSecret)
    ensures var later := s.(refs := DoCommitDrafts(p, s, branch, changes, allowSecret));
            && (forall i | 0 <= i < |changes| ::
                  BranchOid(later, branch, changes[i].ref) == p.Hash(changes[i].ref, changes[i].doc))
            && (other != branch || (forall i | 0 <= i < |changes| :: changes[i].ref != ref) ==>
                  BranchOid(later, other, ref) == BranchOid(s, other, ref))
  {
    hide HashDoc, Latest, PlanDraft, PutDrafts, ReadyIds, Journaled, RefsInv;
    var drafts, plans := s.refs.drafts, DraftPlans(p, s, branch, changes, allowSecret);
    forall i | 0 <= i < |changes|
      ensures !Stopped(plans[i])
      ensures plans[i].DraftReady? ==> plans[i].draft.ref == changes[i].ref && plans[i].draft.branch == branch
    {
      assert ChainAt(p, s, changes[i].ref);
      PlanDraftIs(p, s, branch, changes[i], allowSecret);
    }
    var later := s.(refs := DoCommitDrafts(p, s, branch, changes, allowSecret));
    CommittedDrafts(p, s, branch, changes, allowSecret);
    forall i | 0 <= i < |changes|
      ensures BranchOid(later, branch, changes[i].ref) == p.Hash(changes[i].ref, changes[i].doc)
    {
      OneDraftLands(p, s, log, branch, changes, allowSecret, i);
    }
    if other != branch || (forall i | 0 <= i < |changes| :: changes[i].ref != ref) {
      UnreadyKeepsTip(drafts, branch, changes, plans, other, ref);
      PutDraftIs(drafts, changes, plans);
    }
  }

  lemma {:induction false} CommittedDrafts(p: Project, s: State, branch: string, changes: seq<DraftChange>,
                                           allowSecret: bool)
    requires branch != p.mainBranch && branch in s.refs.branches && WellFormedBatch(s.refs.drafts, changes)
    requires var plans := DraftPlans(p, s, branch, changes, allowSecret);
             forall i | 0 <= i < |changes| :: !Stopped(plans[i])
    ensures DoCommitDrafts(p, s, branch, changes, allowSecret).drafts ==
            PutDrafts(s.refs.drafts, changes, DraftPlans(p, s, branch, changes, allowSecret))
  {
    NoneReady(s.refs.drafts, changes, DraftPlans(p, s, branch, changes, allowSecret));
  }

  lemma {:induction false} NoneReady(drafts: Drafts, changes: seq<DraftChange>, plans: seq<DraftPlan>)
    requires |plans| == |changes|
    ensures ReadyIds(changes, plans) == [] ==> PutDrafts(drafts, changes, plans) == drafts
    decreases changes
  {
    if changes != [] {
      NoneReady(drafts, changes[1..], plans[1..]);
    }
  }

  lemma OneDraftLands(p: Project, s: State, log: seq<string>, branch: string, changes: seq<DraftChange>,
                      allowSecret: bool, i: nat)
    requires Chain(p, s) && RefsInv(p, s.refs, log) && Draftable(p, s, branch, changes, allowSecret) && i < |changes|
    requires var plans := DraftPlans(p, s, branch, changes, allowSecret);
             forall x | 0 <= x < |changes| ::
               && !Stopped(plans[x])
               && (plans[x].DraftReady? ==> plans[x].draft.ref == changes[x].ref && plans[x].draft.branch == branch)
    ensures var later := s.(refs := DoCommitDrafts(p, s, branch, changes, allowSecret));
            BranchOid(later, branch, changes[i].ref) == p.Hash(changes[i].ref, changes[i].doc)
  {
    hide HashDoc, Latest, PlanDraft, PutDrafts, ReadyIds, Journaled, DoCommitDrafts;
    var drafts, plans := s.refs.drafts, DraftPlans(p, s, branch, changes, allowSecret);
    CommittedDrafts(p, s, branch, changes, allowSecret);
    assert ChainAt(p, s, changes[i].ref);
    PlanDraftIs(p, s, branch, changes[i], allowSecret);
    PutDraftIs(drafts, changes, plans);
    if plans[i].DraftReady? {
      DraftPlansFit(p, s, log, branch, changes, allowSecret);
      ReadyIsTip(drafts, log, branch, changes, plans, i);
    } else {
      forall x | 0 <= x < |changes| && plans[x].DraftReady? ensures changes[x].ref != changes[i].ref {
        assert x < i || i < x;
      }
      UnreadyKeepsTip(drafts, branch, changes, plans, branch, changes[i].ref);
    }
  }
}
