/** The secret policy over whole runs: what never gets into the history or onto a branch. */
module Policies {
  import opened Documents
  import opened Hashing
  import opened Runtime
  import opened Store
  import opened Plans
  import opened Operations
  import opened Protocol
  import opened Branches
  import opened Reviews

  /** No row of the history holds a document that the policy refuses. */
  ghost predicate CleanRows(p: Project, s: State)
  {
    forall key | key in s.rows :: !p.refuses(s.rows[key].entry.doc)
  }

  ghost predicate CleanDrafts(p: Project, drafts: Drafts)
  {
    forall id | id in drafts :: !p.refuses(drafts[id].doc)
  }

  /** The call does not lift the policy: it does not allow secrets, and what it restores or merges would be
      allowed. */
  ghost predicate Keeps(p: Project, ref: Ref, intent: Intent)
  {
    match intent
    case WantCommit(_, allow) => !allow
    case WantAdopt(allow) => !allow
    case WantImport(allow) => !allow
    case WantRestore(target, _) => !p.refuses(Stored(p.coll(ref.collection), target))
    case WantMerge(draft, _) => !p.refuses(Stored(p.coll(ref.collection), draft))
  }

  /** No row holds anything at or below a secret field of its collection. */
  lemma {:induction false} RowsHoldNoSecretField(p: Project, s: State, key: Key, g: Path)
    requires Chain(p, s) && key in s.rows && g != [] && LeadsTo(p.coll(key.ref.collection).secretFields, g)
    ensures Get(s.rows[key].entry.doc, g) == Null
  {
    assert ChainAt(p, s, key.ref);
    assert Key(key.ref, key.seqNo) in s.rows;
    assert Honest(p, key.ref, s.rows[Key(key.ref, key.seqNo)].entry);
    StoredReads(p.coll(key.ref.collection), s.rows[key].entry.doc, g);
  }

  /** Such a call plans no row that the policy refuses. */
  lemma PlansClean(p: Project, ref: Ref, live: Option<Doc>, head: Option<HeadRow>, intent: Intent, now: Time,
                   freshId: Value)
    requires Keeps(p, ref, intent) && Decide(p, ref, live, head, intent, now, freshId).Ready?
    ensures !p.refuses(Decide(p, ref, live, head, intent, now, freshId).item.entry.doc)
  {
    hide HashDoc, Stored;
  }

  /** What a record's history already holds can be restored. */
  lemma RowsCanBeRestored(p: Project, s: State, key: Key, seedMissing: bool)
    requires Chain(p, s) && CleanRows(p, s) && key in s.rows
    ensures Keeps(p, key.ref, WantRestore(s.rows[key].entry.doc, seedMissing))
  {
    assert ChainAt(p, s, key.ref);
    assert Key(key.ref, key.seqNo) in s.rows;
    assert Honest(p, key.ref, s.rows[Key(key.ref, key.seqNo)].entry);
  }

  /** Without leave to record secrets, a commit, an adopt or an import adds no row that the policy
      refuses, whatever is there already. */
  lemma AddsNoSecret(p: Project, s: State, ref: Ref, intent: Intent, now: Time, freshId: Value)
    requires Chain(p, s) && Keeps(p, ref, intent)
    ensures var later := Operate(p, s, ref, intent, now, freshId).0;
            forall key | key in later.rows && key !in s.rows :: !p.refuses(later.rows[key].entry.doc)
    ensures CleanRows(p, s) ==> CleanRows(p, Operate(p, s, ref, intent, now, freshId).0)
  {
    hide HashDoc, Stored, Apply, Decide;
    var decision := Decide(p, ref, Live(s, ref), GetHead(s, ref), intent, now, freshId);
    if decision.Ready? && Apply(p, s, decision.item).Ok? {
      PlansClean(p, ref, Live(s, ref), GetHead(s, ref), intent, now, freshId);
      ApplyAdds(p, s, decision.item);
    }
  }

  lemma ApplyAdds(p: Project, s: State, it: Item)
    requires Apply(p, s, it).Ok?
    ensures var later := Apply(p, s, it).value;
            && (forall key | key in later.rows && key !in s.rows :: later.rows[key].entry == it.entry)
            && (forall key | key in s.rows :: key in later.rows && later.rows[key].entry == s.rows[key].entry)
    ensures CleanRows(p, s) && !p.refuses(it.entry.doc) ==> CleanRows(p, Apply(p, s, it).value)
  {
    hide HashDoc, PutDoc, SeedDoc;
  }

  lemma {:induction false} ApplyManyAdds(p: Project, s: State, items: seq<Item>)
    requires ApplyMany(p, s, items).Ok? && CleanRows(p, s)
    requires forall it | it in items :: !p.refuses(it.entry.doc)
    ensures CleanRows(p, ApplyMany(p, s, items).value)
    decreases items
  {
    hide Apply, CleanRows;
    if items != [] {
      ApplyAdds(p, s, items[0]);
      ApplyManyAdds(p, Apply(p, s, items[0]).value, items[1..]);
    }
  }

  // ----- every interleaving -----

  ghost predicate CleanSystem(p: Project, sys: System)
  {
    CleanRows(p, sys.store) &&
    forall c | c in sys.pending :: forall it | it in sys.pending[c] :: !p.refuses(it.entry.doc)
  }

  ghost predicate StepKeeps(p: Project, step: Step)
  {
    step.ReadHeadAndPlan? ==> Keeps(p, step.ref, step.intent)
  }

  lemma NextIsClean(p: Project, sys: System, step: Step)
    requires CleanSystem(p, sys) && StepKeeps(p, step)
    ensures CleanSystem(p, Next(p, sys, step))
  {
    hide Apply, ApplyMany, Decide, Keeps;
    match step
    case ReadHeadAndPlan(c, ref, intent, now, freshId) =>
      if (c, ref) in sys.seen && Decide(p, ref, sys.seen[(c, ref)], GetHead(sys.store, ref), intent, now, freshId).Ready? {
        PlansClean(p, ref, sys.seen[(c, ref)], GetHead(sys.store, ref), intent, now, freshId);
      }
    case ApplyOne(c, index) =>
      if index < |Pending(sys, c)| && Apply(p, sys.store, Pending(sys, c)[index]).Ok? {
        ApplyAdds(p, sys.store, Pending(sys, c)[index]);
      }
    case ApplyAll(c, newRefs) =>
      if Distinct(Pending(sys, c)) && ApplyMany(p, sys.store, Pending(sys, c)).Ok? {
        ApplyManyAdds(p, sys.store, Pending(sys, c));
      }
    case _ =>
  }

  /** In every run in which nobody lifts the policy, however the callers interleave with each other and with
      outside writers, the history holds no refused document. */
  lemma {:induction false} RunIsClean(p: Project, sys: System, steps: seq<Step>)
    requires CleanSystem(p, sys) && forall step | step in steps :: StepKeeps(p, step)
    ensures CleanSystem(p, Run(p, sys, steps))
    decreases steps
  {
    hide CleanSystem, StepKeeps;
    if steps != [] {
      assert steps[0] in steps;
      NextIsClean(p, sys, steps[0]);
      RunIsClean(p, Next(p, sys, steps[0]), steps[1..]);
    }
  }

  // ----- complete calls, drafts and requests -----

  ghost predicate CallKeeps(p: Project, call: Call)
  {
    match call
    case CommitDrafts(_, _, allow) => !allow
    case OnRecord(ref, intent, _, _) => Keeps(p, ref, intent)
    case _ => true
  }

  ghost predicate CleanDesk(p: Project, d: Desk)
  {
    CleanRows(p, d.store) && CleanDrafts(p, d.store.refs.drafts)
  }

  lemma {:induction false} DraftsStayClean(p: Project, s: State, branch: string, changes: seq<DraftChange>)
    requires CleanDrafts(p, s.refs.drafts)
    ensures CleanDrafts(p, DoCommitDrafts(p, s, branch, changes, false).drafts)
  {
    hide HashDoc, Stored, Latest, PutDrafts;
    var plans := DraftPlans(p, s, branch, changes, false);
    if DraftIds(p, s, branch, changes, false) != [] {
      forall i | 0 <= i < |changes| && plans[i].DraftReady? ensures !p.refuses(plans[i].draft.doc) {
      }
      PutDraftsClean(p, s.refs.drafts, changes, plans);
    }
  }

  lemma {:induction false} PutDraftsClean(p: Project, drafts: Drafts, changes: seq<DraftChange>, plans: seq<DraftPlan>)
    requires |plans| == |changes| && CleanDrafts(p, drafts)
    requires forall i | 0 <= i < |changes| && plans[i].DraftReady? :: !p.refuses(plans[i].draft.doc)
    ensures CleanDrafts(p, PutDrafts(drafts, changes, plans))
    decreases changes
  {
    if changes != [] {
      var next := if plans[0].DraftReady? then drafts[changes[0].id := plans[0].draft] else drafts;
      PutDraftsClean(p, next, changes[1..], plans[1..]);
    }
  }

  lemma MergeIsClean(p: Project, s: State, log: seq<string>, id: string, clock: nat -> Time)
    requires CleanRows(p, s) && CleanDrafts(p, s.refs.drafts) && RefsInv(p, s.refs, log)
    ensures CleanRows(p, DoMerge(p, s, id, clock)) && CleanDrafts(p, DoMerge(p, s, id, clock).refs.drafts)
  {
    hide ApplyMany, MergeItems, PlanMerge, MergeOrder, MergeDecision, CleanRows, CleanDrafts;
    var plan := PlanMerge(p, s, id, clock);
    if plan.Ok? && ApplyMany(p, s, plan.value).Ok? {
      PlanMergeIs(p, s, id, clock);
      var branch := s.refs.prs[id].headBranch;
      var order := MergeOrder(s.refs.drafts, branch);
      MergeItemsLength(p, s, branch, order, clock, 0);
      forall it | it in plan.value ensures !p.refuses(it.entry.doc) {
        var i :| 0 <= i < |plan.value| && plan.value[i] == it;
        MergeItemAt(p, s, branch, order, clock, i);
        MergedItemIsClean(p, s, branch, order[i], clock(i), it);
      }
      ApplyManyAdds(p, s, plan.value);
      ApplyManyKeepsRefs(p, s, plan.value);
      OtherRefsAreClean(p, ApplyMany(p, s, plan.value).value, id, s.refs.prs[id].(status := Merged));
    }
  }

  lemma OtherRefsAreClean(p: Project, s: State, id: string, pr: PullRequest)
    ensures CleanRows(p, s) ==> CleanRows(p, WithPr(s, id, pr))
    ensures CleanDrafts(p, s.refs.drafts) ==> CleanDrafts(p, WithPr(s, id, pr).refs.drafts)
  {
  }

  lemma MergedItemIsClean(p: Project, s: State, branch: string, ref: Ref, now: Time, it: Item)
    requires CleanDrafts(p, s.refs.drafts) && MergeDecision(p, s, branch, ref, now) == Ready(it)
    requires forall id | id in s.refs.drafts :: HonestDraft(p, s.refs.drafts[id])
    ensures !p.refuses(it.entry.doc)
  {
    hide HashDoc, Stored, Latest;
    var draft := s.refs.drafts[Latest(s.refs.drafts, branch, ref).value];
    assert HonestDraft(p, draft) && draft.ref == ref;
  }

  lemma DoIsClean(p: Project, d: Desk, call: Call)
    requires DeskInv(p, d) && CleanDesk(p, d) && CallKeeps(p, call)
    ensures CleanDesk(p, Do(p, d, call))
  {
    hide Operate, DoMerge, DoCommitDrafts, DraftIds, Keeps, RefsInv, Chain, FreezeNow;
    match call
    case CommitDrafts(branch, changes, _) => DraftsStayClean(p, d.store, branch, changes);
    case MergePr(id, clock) => MergeIsClean(p, d.store, d.log, id, clock);
    case OnRecord(ref, intent, now, freshId) =>
      AddsNoSecret(p, d.store, ref, intent, now, freshId);
      OperateKeepsRefs(p, d.store, ref, intent, now, freshId);
    case _ =>
  }

  /** After any complete calls of which none lifts the policy, drafts and merges included, neither the
      history nor any branch holds a refused document. */
  lemma {:induction false} DoAllIsClean(p: Project, d: Desk, calls: seq<Call>)
    requires DeskInv(p, d) && CleanDesk(p, d) && forall call | call in calls :: CallKeeps(p, call)
    ensures CleanDesk(p, DoAll(p, d, calls))
    decreases calls
  {
    hide DeskInv, CleanDesk, CallKeeps, Do;
    if calls != [] {
      assert calls[0] in calls;
      DoIsClean(p, d, calls[0]);
      DoKeepsInv(p, d, calls[0]);
      DoAllIsClean(p, Do(p, d, calls[0]), calls[1..]);
    }
  }
}
