/** When a version starts, and what a restore to an instant therefore aims at. */
module Instants {
  import opened Documents
  import opened Hashing
  import opened Runtime
  import opened Store
  import opened Plans
  import opened Operations
  import opened Protocol
  import opened Branches
  import opened Reviews
  import opened Restores
  import opened Recording
  import Bulk

  // ----- one write -----

  /** Once a row is written at `now`, it is the version at `now` and ever after; what was the version at any
      earlier instant stays it, whatever the clock did before. */
  lemma {:induction false} WroteStarts(p: Project, s: State, later: State, ref: Ref, doc: Doc, now: Time, op: Op,
                                       when: Time)
    requires ChainAt(p, s, ref) && ChainAt(p, later, ref) && Wrote(p, s, later, ref, doc, now, op)
    ensures AsOf(later, ref, when) == if when >= now then Some(HeadSeq(later, ref)) else AsOf(s, ref, when)
  {
    var n := HeadSeq(s, ref);
    AsOfIsLastStarted(p, s, ref, when);
    AsOfIsLastStarted(p, later, ref, when);
    LastStartedSame(s, later, ref, n, when);
    assert Key(ref, n + 1) in later.rows;
  }

  /** So it is after every call that writes, whatever it does. */
  lemma CallStarts(p: Project, s: State, ref: Ref, intent: Intent, now: Time, freshId: Value, when: Time)
    requires Chain(p, s)
    ensures var (later, out) := Operate(p, s, ref, intent, now, freshId);
            AsOf(later, ref, when) ==
              if out.Written? && when >= now then Some(HeadSeq(later, ref)) else AsOf(s, ref, when)
  {
    hide Operate, AsOf, Wrote, Source, Chain;
    CallWrites(p, s, ref, intent, now, freshId);
    OperateKeeps(p, s, ref, intent, now, freshId);
    ChainHas(p, s, ref);
    ChainHas(p, Operate(p, s, ref, intent, now, freshId).0, ref);
    var (later, out) := Operate(p, s, ref, intent, now, freshId);
    if out.Written? {
      WroteStarts(p, s, later, ref, Source(intent, Live(s, ref)).value, now, Kind(intent), when);
    }
  }

  lemma ChainHas(p: Project, s: State, ref: Ref)
    requires Chain(p, s)
    ensures ChainAt(p, s, ref)
  {
  }

  /** A record about which nothing changed has the same versions at all instants. */
  lemma SameRecordSameVersions(s: State, later: State, ref: Ref, when: Time)
    requires SameRecord(s, later, ref)
    ensures AsOf(later, ref, when) == AsOf(s, ref, when)
  {
    forall k: nat ensures k in QualifyingSeqs(s, ref, when) <==> k in QualifyingSeqs(later, ref, when) {
      assert Key(ref, k) in s.rows <==> Key(ref, k) in later.rows;
      if k in QualifyingSeqs(s, ref, when) {
        assert Key(ref, k) in s.rows;
      }
      if k in QualifyingSeqs(later, ref, when) {
        assert Key(ref, k) in later.rows;
      }
    }
    assert QualifyingSeqs(s, ref, when) == QualifyingSeqs(later, ref, when);
  }

  lemma ApplyStarts(p: Project, s: State, it: Item, when: Time)
    requires Chain(p, s) && Sound(p, it) && Apply(p, s, it).Ok?
    ensures var later := Apply(p, s, it).value;
            AsOf(later, it.ref, when) ==
              if when >= it.entry.validFrom then Some(HeadSeq(later, it.ref)) else AsOf(s, it.ref, when)
  {
    hide AsOf, Apply, Wrote, Chain;
    ApplyKeepsChain(p, s, it);
    ChainHas(p, s, it.ref);
    ChainHas(p, Apply(p, s, it).value, it.ref);
    ApplyWrites(p, s, it, it.entry.doc, it.entry.validFrom, it.entry.op);
    WroteStarts(p, s, Apply(p, s, it).value, it.ref, it.entry.doc, it.entry.validFrom, it.entry.op, when);
  }

  // ----- a merge -----

  /** In a merge, every record gets the row of its draft, from the moment that record was planned. */
  lemma {:induction false} MergeStarts(p: Project, s: State, id: string, clock: nat -> Time, i: nat, when: Time)
    requires Chain(p, s) && PlanMerge(p, s, id, clock).Ok?
    requires i < |MergeOrder(s.refs.drafts, s.refs.prs[id].headBranch)|
    ensures var ref, end := MergeOrder(s.refs.drafts, s.refs.prs[id].headBranch)[i], DoMerge(p, s, id, clock);
            var tip := Latest(s.refs.drafts, s.refs.prs[id].headBranch, ref);
            && tip.Some? && Wrote(p, s, end, ref, s.refs.drafts[tip.value].doc, clock(i), Op.Merge)
            && AsOf(end, ref, when) == if when >= clock(i) then Some(HeadSeq(end, ref)) else AsOf(s, ref, when)
  {
    hide AsOf, Apply, ApplyMany, MergeItems, PlanMerge, MergeDecision, Chain, Wrote, Latest, MergeOrder;
    PlanMergeIs(p, s, id, clock);
    MergeCovers(p, s, id, clock);
    MergeGoesThrough(p, s, id, clock);
    MergeIsAllOrNothing(p, s, s, id, clock);
    var branch, items, end := s.refs.prs[id].headBranch, PlanMerge(p, s, id, clock).value, DoMerge(p, s, id, clock);
    var order := MergeOrder(s.refs.drafts, branch);
    MergeItemAt(p, s, branch, order, clock, i);
    var it, ref := items[i], order[i];
    MergedRecords(p, s, branch, ref, clock(i), it);
    BatchActsPointwise(p, s, items, ref);
    var doc := s.refs.drafts[Latest(s.refs.drafts, branch, ref).value].doc;
    ApplyWrites(p, s, it, doc, clock(i), Op.Merge);
    WroteIsLocal(p, s, Apply(p, s, it).value, ApplyMany(p, s, items).value, ref, doc, clock(i), Op.Merge);
    WroteIsLocal(p, s, ApplyMany(p, s, items).value, end, ref, doc, clock(i), Op.Merge);
    ChainHas(p, s, ref);
    ChainHas(p, end, ref);
    WroteStarts(p, s, end, ref, doc, clock(i), Op.Merge, when);
  }

  lemma MergedRecords(p: Project, s: State, branch: string, ref: Ref, now: Time, it: Item)
    requires MergeDecision(p, s, branch, ref, now) == Ready(it)
    ensures Latest(s.refs.drafts, branch, ref).Some?
    ensures Records(p, ref, it.entry, s.refs.drafts[Latest(s.refs.drafts, branch, ref).value].doc, now, Op.Merge)
  {
    hide HashDoc, Stored, Latest, DecideMerge;
    var draft := s.refs.drafts[Latest(s.refs.drafts, branch, ref).value];
    DecisionsAreSafe(p, ref, Live(s, ref), GetHead(s, ref), WantMerge(draft.doc, draft.baseHead), now, Null);
  }

  lemma WroteIsLocal(p: Project, s: State, next: State, end: State, ref: Ref, doc: Doc, now: Time, op: Op)
    requires Wrote(p, s, next, ref, doc, now, op)
    requires SameRecord(next, end, ref) || (next.rows == end.rows && next.heads == end.heads)
    ensures Wrote(p, s, end, ref, doc, now, op)
  {
  }

  // ----- many records in one call -----

  /** The record gained the row of `doc` at `now` and shows it ever after, or nothing about it changed. */
  ghost predicate WroteOrSame(p: Project, s: State, end: State, ref: Ref, doc: Doc, now: Time, op: Op)
  {
    SameRecord(s, end, ref) ||
    (Wrote(p, s, end, ref, doc, now, op) &&
     forall when :: AsOf(end, ref, when) == if when >= now then Some(HeadSeq(end, ref)) else AsOf(s, ref, when))
  }

  lemma WroteIsWrote(p: Project, s: State, end: State, ref: Ref, doc: Doc, now: Time, op: Op)
    requires Chain(p, s) && Chain(p, end) && (SameRecord(s, end, ref) || Wrote(p, s, end, ref, doc, now, op))
    ensures WroteOrSame(p, s, end, ref, doc, now, op)
  {
    hide AsOf, Wrote, Chain, SameRecord;
    ChainHas(p, s, ref);
    ChainHas(p, end, ref);
    if Wrote(p, s, end, ref, doc, now, op) {
      forall when
        ensures AsOf(end, ref, when) == if when >= now then Some(HeadSeq(end, ref)) else AsOf(s, ref, when)
      {
        WroteStarts(p, s, end, ref, doc, now, op, when);
      }
    }
  }

  lemma WroteAfterSame(p: Project, s: State, next: State, end: State, ref: Ref, doc: Doc, now: Time, op: Op)
    requires SameRecord(s, next, ref) && Wrote(p, next, end, ref, doc, now, op)
    ensures Wrote(p, s, end, ref, doc, now, op)
  {
  }

  lemma {:induction false} OtherJobsLeave(p: Project, s: State, jobs: seq<Job>, io: seq<Io>, ref: Ref)
    requires |io| == |jobs| && Chain(p, s) && NoJobFor(jobs, ref)
    ensures SameRecord(s, RunJobs(p, s, jobs, io).0, ref)
    decreases jobs
  {
    hide Chain, Operate;
    if jobs != [] {
      var t := jobs[0].target;
      assert jobs[0] in jobs;
      OperateKeeps(p, s, t.ref, WantRestore(t.doc, jobs[0].seedMissing), io[0].now, io[0].freshId);
      SameRecordReflexive(s, ref);
      var next := RestoreOne(p, s, jobs[0], io[0]).0;
      OtherJobsLeave(p, next, jobs[1..], io[1..], ref);
      SameRecordTransitive(s, next, RunJobs(p, next, jobs[1..], io[1..]).0, ref);
    }
  }

  lemma SameRecordReflexive(s: State, ref: Ref)
    ensures SameRecord(s, s, ref)
  {
  }

  lemma {:induction false} JobWrites(p: Project, s: State, jobs: seq<Job>, io: seq<Io>, i: nat)
    requires |io| == |jobs| && Chain(p, s) && OneJobEach(jobs) && i < |jobs|
    ensures var end, t := RunJobs(p, s, jobs, io).0, jobs[i].target;
            SameRecord(s, end, t.ref) || Wrote(p, s, end, t.ref, t.doc, io[i].now, Op.Restore)
    decreases jobs
  {
    hide Chain, Operate, Wrote, SameRecord;
    var first, rest := jobs[0], jobs[1..];
    OperateKeeps(p, s, first.target.ref, WantRestore(first.target.doc, first.seedMissing), io[0].now, io[0].freshId);
    CallWrites(p, s, first.target.ref, WantRestore(first.target.doc, first.seedMissing), io[0].now, io[0].freshId);
    var next := RestoreOne(p, s, first, io[0]).0;
    var end, t := RunJobs(p, next, rest, io[1..]).0, jobs[i].target;
    SameRecordReflexive(s, t.ref);
    if i == 0 {
      OtherJobsLeave(p, next, rest, io[1..], t.ref);
      if next == s {
      } else {
        WroteIsLocal(p, s, next, end, t.ref, t.doc, io[0].now, Op.Restore);
      }
    } else {
      assert rest[i - 1] == jobs[i] && SameRecord(s, next, t.ref);
      JobWrites(p, next, rest, io[1..], i - 1);
      if SameRecord(next, end, t.ref) {
        SameRecordTransitive(s, next, end, t.ref);
      } else {
        WroteAfterSame(p, s, next, end, t.ref, t.doc, io[i].now, Op.Restore);
      }
    }
  }

  /** Restoring many records: what the restore of a record writes is its target's document, from the
      moment that record was restored. */
  lemma {:induction false} RestoredRowsStart(p: Project, s: State, targets: seq<Target>, io: seq<Io>, i: nat)
    requires Chain(p, s) && OneEach(targets) && |io| == |Jobs(p, s, targets)| && i < |io|
    requires forall t | t in targets && Judge(p, s, t).Planned? :: Restorable(p, s, t)
    ensures var end, t := RestoreMany(p, s, targets, false, io).0, Jobs(p, s, targets)[i].target;
            WroteOrSame(p, s, end, t.ref, t.doc, io[i].now, Op.Restore)
  {
    hide RunJobs, Jobs, Judged, Judge, Chain, Restorable, Wrote, WroteOrSame, SameRecord;
    RestoreManyArrives(p, s, targets, io);
    JobsAreThePlanned(p, s, targets);
    var t := Jobs(p, s, targets)[i].target;
    SameRecordReflexive(s, t.ref);
    JobWrites(p, s, Jobs(p, s, targets), io, i);
    WroteIsWrote(p, s, RestoreMany(p, s, targets, false, io).0, t.ref, t.doc, io[i].now, Op.Restore);
  }

  /** A plan to commit the change at `now`. */
  ghost predicate PlansAt(p: Project, change: Bulk.Change, plan: Decision, now: Time)
  {
    plan.Ready? ==>
      && plan.item.ref == change.ref && Sound(p, plan.item)
      && Records(p, change.ref, plan.item.entry, change.doc, now, Op.Commit)
  }

  lemma StepWrites(p: Project, s: State, change: Bulk.Change, plan: Decision, signal: Bulk.Signal, now: Time)
    requires Chain(p, s) && PlansAt(p, change, plan, now) && Bulk.StepPlan(p, s, plan, signal).Some?
    ensures var next := Bulk.StepPlan(p, s, plan, signal).value;
            Chain(p, next) && OnlyTouches(s, next, change.ref) &&
            (next == s || Wrote(p, s, next, change.ref, change.doc, now, Op.Commit))
  {
    hide Apply, Chain, Wrote, Records, SameRecord, Honest;
    if plan.Ready? {
      ApplyKeepsChain(p, s, plan.item);
      ApplyTouchesOne(p, s, plan.item);
      ApplyWrites(p, s, plan.item, change.doc, now, Op.Commit);
    } else {
      forall ref ensures SameRecord(s, s, ref) {
        SameRecordReflexive(s, ref);
      }
    }
  }

  ghost predicate AllPlansAt(p: Project, changes: seq<Bulk.Change>, plans: seq<Decision>, times: seq<Time>)
    requires |plans| == |changes| == |times|
  {
    forall j | 0 <= j < |changes| :: PlansAt(p, changes[j], plans[j], times[j])
  }

  lemma {:induction false} PlanWrites(p: Project, s: State, changes: seq<Bulk.Change>, plans: seq<Decision>,
                                      signals: seq<Bulk.Signal>, times: seq<Time>, i: nat)
    requires |plans| == |changes| == |signals| == |times| && Chain(p, s) && i < |changes|
    requires Bulk.OneChangeEach(changes) && AllPlansAt(p, changes, plans, times)
    ensures var end, ref := Bulk.RunPlans(p, s, changes, plans, signals).0, changes[i].ref;
            Chain(p, end) &&
            (SameRecord(s, end, ref) || Wrote(p, s, end, ref, changes[i].doc, times[i], Op.Commit))
    decreases changes
  {
    hide Chain, Wrote, SameRecord, PlansAt, Bulk.StepPlan;
    var step, change := Bulk.StepPlan(p, s, plans[0], signals[0]), changes[i];
    SameRecordReflexive(s, change.ref);
    if step.Some? {
      var next := step.value;
      StepWrites(p, s, changes[0], plans[0], signals[0], times[0]);
      var end := Bulk.RunPlans(p, next, changes[1..], plans[1..], signals[1..]).0;
      assert end == Bulk.RunPlans(p, s, changes, plans, signals).0;
      if i == 0 {
        OtherPlansLeave(p, next, changes[1..], plans[1..], signals[1..], times[1..], change.ref);
        if next != s {
          WroteIsLocal(p, s, next, end, change.ref, change.doc, times[0], Op.Commit);
        }
      } else {
        assert changes[1..][i - 1] == change && SameRecord(s, next, change.ref);
        PlanWrites(p, next, changes[1..], plans[1..], signals[1..], times[1..], i - 1);
        if SameRecord(next, end, change.ref) {
          SameRecordTransitive(s, next, end, change.ref);
        } else {
          WroteAfterSame(p, s, next, end, change.ref, change.doc, times[i], Op.Commit);
        }
      }
    }
  }

  lemma {:induction false} OtherPlansLeave(p: Project, s: State, changes: seq<Bulk.Change>, plans: seq<Decision>,
                                           signals: seq<Bulk.Signal>, times: seq<Time>, ref: Ref)
    requires |plans| == |changes| == |signals| == |times| && Chain(p, s)
    requires AllPlansAt(p, changes, plans, times) && forall j | 0 <= j < |changes| :: changes[j].ref != ref
    ensures Chain(p, Bulk.RunPlans(p, s, changes, plans, signals).0)
    ensures SameRecord(s, Bulk.RunPlans(p, s, changes, plans, signals).0, ref)
    decreases changes
  {
    hide Chain, SameRecord, PlansAt, Bulk.StepPlan, Wrote;
    SameRecordReflexive(s, ref);
    if changes != [] && Bulk.StepPlan(p, s, plans[0], signals[0]).Some? {
      var next := Bulk.StepPlan(p, s, plans[0], signals[0]).value;
      StepWrites(p, s, changes[0], plans[0], signals[0], times[0]);
      OtherPlansLeave(p, next, changes[1..], plans[1..], signals[1..], times[1..], ref);
      SameRecordTransitive(s, next, Bulk.RunPlans(p, next, changes[1..], plans[1..], signals[1..]).0, ref);
    }
  }

  lemma PlannedAt(p: Project, s: State, change: Bulk.Change, allowSecret: bool, now: Time)
    ensures PlansAt(p, change, Bulk.PlanOf(p, s, change, allowSecret, now), now)
  {
    hide HashDoc, Stored, Records;
    if Bulk.PlanOf(p, s, change, allowSecret, now).Ready? {
      DecisionsAreSafe(p, change.ref, Live(s, change.ref), GetHead(s, change.ref),
                       WantCommit(change.doc, allowSecret), now, Null);
    }
  }

  /** A bulk commit: what it writes for a record is its change's document, from the moment the change was
      planned. */
  lemma CommittedRowsStart(p: Project, s: State, changes: seq<Bulk.Change>, allowSecret: bool, clock: nat -> Time,
                           signals: seq<Bulk.Signal>, i: nat)
    requires |signals| == |changes| && Chain(p, s) && i < |changes|
    ensures var end := Bulk.CommitMany(p, s, changes, allowSecret, clock, signals).0;
            WroteOrSame(p, s, end, changes[i].ref, changes[i].doc, clock(i), Op.Commit)
  {
    hide Chain, Wrote, WroteOrSame, SameRecord, AllPlansAt, Bulk.CommitMany, Bulk.RunPlans, Bulk.PlansOf;
    var end, change := Bulk.CommitMany(p, s, changes, allowSecret, clock, signals).0, changes[i];
    SameRecordReflexive(s, change.ref);
    CommitRunsPlans(p, s, changes, allowSecret, clock, signals);
    if end != s {
      var times := seq(|changes|, j requires 0 <= j < |changes| => clock(j));
      var plans := Bulk.PlansOf(p, s, changes, allowSecret, clock);
      AllPlannedAt(p, s, changes, allowSecret, clock, times);
      PlanWrites(p, s, changes, plans, signals, times, i);
    }
    WroteIsWrote(p, s, end, change.ref, change.doc, clock(i), Op.Commit);
  }

  lemma AllPlannedAt(p: Project, s: State, changes: seq<Bulk.Change>, allowSecret: bool, clock: nat -> Time,
                     times: seq<Time>)
    requires |times| == |changes| && forall j | 0 <= j < |times| :: times[j] == clock(j)
    ensures AllPlansAt(p, changes, Bulk.PlansOf(p, s, changes, allowSecret, clock), times)
  {
    hide PlansAt, Bulk.PlanOf;
    var plans := Bulk.PlansOf(p, s, changes, allowSecret, clock);
    forall j | 0 <= j < |changes| ensures PlansAt(p, changes[j], plans[j], times[j]) {
      PlannedAt(p, s, changes[j], allowSecret, clock(j));
    }
  }

  lemma {:induction false} CommitRunsPlans(p: Project, s: State, changes: seq<Bulk.Change>, allowSecret: bool,
                                           clock: nat -> Time, signals: seq<Bulk.Signal>)
    requires |signals| == |changes|
    ensures var end, plans := Bulk.CommitMany(p, s, changes, allowSecret, clock, signals).0,
                              Bulk.PlansOf(p, s, changes, allowSecret, clock);
            end == s || (Bulk.OneChangeEach(changes) && end == Bulk.RunPlans(p, s, changes, plans, signals).0)
  {
    hide Bulk.RunPlans, Bulk.PlanOf, Bulk.Blockers, Bulk.FirstError;
    var plans := Bulk.PlansOf(p, s, changes, allowSecret, clock);
    if Bulk.FirstError(changes, plans, {}).None? {
      Bulk.NoErrorMeans(changes, plans, {});
    }
  }

  // ----- runs -----

  ghost predicate StartedBy(s: State, when: Time)
  {
    forall key | key in s.rows :: s.rows[key].entry.validFrom <= when
  }

  ghost predicate PlannedBy(sys: System, when: Time)
  {
    forall c | c in sys.pending :: forall it | it in sys.pending[c] :: it.entry.validFrom <= when
  }

  ghost predicate PlannedAfter(sys: System, when: Time)
  {
    forall c | c in sys.pending :: forall it | it in sys.pending[c] :: it.entry.validFrom > when
  }

  ghost predicate ClockBy(step: Step, when: Time)
  {
    step.ReadHeadAndPlan? ==> step.now <= when
  }

  ghost predicate ClockAfter(step: Step, when: Time)
  {
    step.ReadHeadAndPlan? ==> step.now > when
  }

  lemma PlanStarts(p: Project, sys: System, step: Step, it: Item)
    requires step.ReadHeadAndPlan? && (step.caller, step.ref) in sys.seen
    requires Decide(p, step.ref, sys.seen[(step.caller, step.ref)], GetHead(sys.store, step.ref), step.intent,
                    step.now, step.freshId) == Ready(it)
    ensures it.entry.validFrom == step.now
  {
    DecisionsAreSafe(p, step.ref, sys.seen[(step.caller, step.ref)], GetHead(sys.store, step.ref), step.intent,
                     step.now, step.freshId);
  }

  lemma ApplyStartsBy(p: Project, s: State, it: Item, when: Time)
    requires StartedBy(s, when) && it.entry.validFrom <= when && Apply(p, s, it).Ok?
    ensures StartedBy(Apply(p, s, it).value, when)
  {
    hide HashDoc, PutDoc, SeedDoc;
  }

  lemma {:induction false} ApplyManyStartsBy(p: Project, s: State, items: seq<Item>, when: Time)
    requires StartedBy(s, when) && ApplyMany(p, s, items).Ok?
    requires forall it | it in items :: it.entry.validFrom <= when
    ensures StartedBy(ApplyMany(p, s, items).value, when)
    decreases items
  {
    hide Apply, StartedBy;
    if items != [] {
      ApplyStartsBy(p, s, items[0], when);
      ApplyManyStartsBy(p, Apply(p, s, items[0]).value, items[1..], when);
    }
  }

  lemma NextStartsBy(p: Project, sys: System, step: Step, when: Time)
    requires StartedBy(sys.store, when) && PlannedBy(sys, when) && ClockBy(step, when)
    ensures StartedBy(Next(p, sys, step).store, when) && PlannedBy(Next(p, sys, step), when)
  {
    hide Apply, ApplyMany, Decide;
    match step
    case ReadHeadAndPlan(c, ref, intent, now, freshId) =>
      if (c, ref) in sys.seen && Decide(p, ref, sys.seen[(c, ref)], GetHead(sys.store, ref), intent, now, freshId).Ready? {
        PlanStarts(p, sys, step, Decide(p, ref, sys.seen[(c, ref)], GetHead(sys.store, ref), intent, now, freshId).item);
      }
    case ApplyOne(c, index) =>
      if index < |Pending(sys, c)| && Apply(p, sys.store, Pending(sys, c)[index]).Ok? {
        ApplyStartsBy(p, sys.store, Pending(sys, c)[index], when);
      }
    case ApplyAll(c, _) =>
      if ApplyMany(p, sys.store, Pending(sys, c)).Ok? {
        ApplyManyStartsBy(p, sys.store, Pending(sys, c), when);
      }
    case _ =>
  }

  /** While the clock has not passed an instant, every version starts by it. */
  lemma {:induction false} RunStartsBy(p: Project, sys: System, steps: seq<Step>, when: Time)
    requires StartedBy(sys.store, when) && PlannedBy(sys, when) && forall step | step in steps :: ClockBy(step, when)
    ensures StartedBy(Run(p, sys, steps).store, when) && PlannedBy(Run(p, sys, steps), when)
    decreases steps
  {
    hide StartedBy, PlannedBy, ClockBy;
    if steps != [] {
      assert steps[0] in steps;
      NextStartsBy(p, sys, steps[0], when);
      RunStartsBy(p, Next(p, sys, steps[0]), steps[1..], when);
    }
  }

  /** Then the version at that instant is HEAD. */
  lemma {:induction false} AsOfIsHead(p: Project, s: State, ref: Ref, when: Time)
    requires ChainAt(p, s, ref) && StartedBy(s, when)
    ensures AsOf(s, ref, when) == if ref in s.heads then Some(HeadSeq(s, ref)) else None
  {
    AsOfIsLastStarted(p, s, ref, when);
    assert HeadSeq(s, ref) > 0 ==> Key(ref, HeadSeq(s, ref)) in s.rows;
  }

  lemma {:induction false} ApplyManyStartsAfter(p: Project, s: State, items: seq<Item>, ref: Ref, when: Time)
    requires Chain(p, s) && ApplyMany(p, s, items).Ok?
    requires forall it | it in items :: Sound(p, it) && it.entry.validFrom > when
    ensures AsOf(ApplyMany(p, s, items).value, ref, when) == AsOf(s, ref, when)
    decreases items
  {
    hide Apply, AsOf, Chain, Sound;
    if items != [] {
      assert items[0] in items;
      ApplyStartsAfter(p, s, items[0], ref, when);
      ApplyKeepsChain(p, s, items[0]);
      ApplyManyStartsAfter(p, Apply(p, s, items[0]).value, items[1..], ref, when);
    }
  }

  lemma ApplyStartsAfter(p: Project, s: State, it: Item, ref: Ref, when: Time)
    requires Chain(p, s) && Sound(p, it) && it.entry.validFrom > when && Apply(p, s, it).Ok?
    ensures AsOf(Apply(p, s, it).value, ref, when) == AsOf(s, ref, when)
  {
    hide Apply, AsOf, Chain, SameRecord;
    if it.ref == ref {
      ApplyStarts(p, s, it, when);
    } else {
      ApplyTouchesOne(p, s, it);
      SameRecordSameVersions(s, Apply(p, s, it).value, ref, when);
    }
  }

  lemma TagsKeepVersions(s: State, key: Key, tag: string, ref: Ref, when: Time)
    ensures AsOf(AddTag(s, key, tag), ref, when) == AsOf(s, ref, when)
  {
    var later := AddTag(s, key, tag);
    assert forall k | k in s.rows :: Qualifies(later.rows[k], when) <==> Qualifies(s.rows[k], when);
    assert QualifyingSeqs(later, ref, when) == QualifyingSeqs(s, ref, when);
  }

  lemma SameRowsSameVersions(s: State, later: State, ref: Ref, when: Time)
    requires s.rows == later.rows
    ensures AsOf(s, ref, when) == AsOf(later, ref, when)
  {
  }

  lemma NextStartsAfter(p: Project, sys: System, step: Step, ref: Ref, when: Time)
    requires Inv(p, sys) && PlannedAfter(sys, when) && ClockAfter(step, when)
    ensures PlannedAfter(Next(p, sys, step), when)
    ensures AsOf(Next(p, sys, step).store, ref, when) == AsOf(sys.store, ref, when)
  {
    hide Apply, ApplyMany, Decide, AsOf, Chain;
    match step
    case OutsideWrite(r, doc) => SameRowsSameVersions(sys.store, Next(p, sys, step).store, ref, when);
    case ReadHeadAndPlan(c, r, intent, now, freshId) =>
      if (c, r) in sys.seen && Decide(p, r, sys.seen[(c, r)], GetHead(sys.store, r), intent, now, freshId).Ready? {
        PlanStarts(p, sys, step, Decide(p, r, sys.seen[(c, r)], GetHead(sys.store, r), intent, now, freshId).item);
      }
    case ApplyOne(c, index) =>
      if index < |Pending(sys, c)| && Apply(p, sys.store, Pending(sys, c)[index]).Ok? {
        ApplyStartsAfter(p, sys.store, Pending(sys, c)[index], ref, when);
      }
    case ApplyAll(c, newRefs) =>
      if Distinct(Pending(sys, c)) && ApplyMany(p, sys.store, Pending(sys, c)).Ok? {
        ApplyManyStartsAfter(p, sys.store, Pending(sys, c), ref, when);
        SameRowsSameVersions(ApplyMany(p, sys.store, Pending(sys, c)).value, Next(p, sys, step).store, ref, when);
      }
    case PutRefs(newRefs) => SameRowsSameVersions(sys.store, Next(p, sys, step).store, ref, when);
    case Label(key, tag) => TagsKeepVersions(sys.store, key, tag, ref, when);
    case _ =>
  }

  /** Once the clock has passed an instant and nothing planned by then is left to be written, the version at
      that instant never changes. */
  lemma {:induction false} RunStartsAfter(p: Project, sys: System, steps: seq<Step>, ref: Ref, when: Time)
    requires Inv(p, sys) && PlannedAfter(sys, when) && forall step | step in steps :: ClockAfter(step, when)
    ensures AsOf(Run(p, sys, steps).store, ref, when) == AsOf(sys.store, ref, when)
    decreases steps
  {
    hide Inv, PlannedAfter, ClockAfter, AsOf;
    if steps != [] {
      assert steps[0] in steps;
      NextStartsAfter(p, sys, steps[0], ref, when);
      NextKeepsInv(p, sys, steps[0]);
      RunStartsAfter(p, Next(p, sys, steps[0]), steps[1..], ref, when);
    }
  }

  // ----- the round trip to an instant -----

  /** The clock readings of the plans never go back. */
  ghost predicate ClockGoesOn(steps: seq<Step>)
  {
    forall i, j | 0 <= i < j < |steps| && steps[i].ReadHeadAndPlan? && steps[j].ReadHeadAndPlan? ::
      steps[i].now <= steps[j].now
  }

  /** The number of steps before the first plan made after the instant. */
  ghost function Cut(steps: seq<Step>, when: Time): (n: nat)
    ensures n <= |steps|
  {
    if steps == [] || !ClockBy(steps[0], when) then 0 else 1 + Cut(steps[1..], when)
  }

  lemma {:induction false} CutSplits(steps: seq<Step>, when: Time)
    requires ClockGoesOn(steps)
    ensures forall step | step in steps[..Cut(steps, when)] :: ClockBy(step, when)
    ensures forall step | step in steps[Cut(steps, when)..] :: ClockAfter(step, when)
  {
    var n := Cut(steps, when);
    if steps != [] {
      if ClockBy(steps[0], when) {
        assert forall i, j | 0 <= i < j < |steps[1..]| :: steps[1..][i] == steps[i + 1] && steps[1..][j] == steps[j + 1];
        CutSplits(steps[1..], when);
        assert steps[..n] == [steps[0]] + steps[1..][..n - 1] && steps[n..] == steps[1..][n - 1..];
      } else {
        assert steps[0].now > when;
        forall step | step in steps ensures ClockAfter(step, when) {
          var j :| 0 <= j < |steps| && steps[j] == step;
        }
        assert steps[0..] == steps;
      }
    }
  }

  /** Nobody has planned a write that is still to come. */
  ghost predicate Idle(sys: System)
  {
    forall c :: Pending(sys, c) == []
  }

  lemma {:induction false} RunConcat(p: Project, sys: System, a: seq<Step>, b: seq<Step>)
    ensures Run(p, sys, a + b) == Run(p, Run(p, sys, a), b)
    decreases a
  {
    hide Next;
    if a == [] {
      assert a + b == b;
    } else {
      RunConcat(p, Next(p, sys, a[0]), a[1..], b);
      assert (a + b)[1..] == a[1..] + b;
    }
  }

  /** In every run whose clock does not go back, for every instant at which no write was half-way: the
      version of a record at that instant is ever after the one that was HEAD then, with its row. */
  lemma {:induction false} AsOfIsHeadThen(p: Project, start: System, steps: seq<Step>, when: Time, ref: Ref)
    requires Initial(start) && ClockGoesOn(steps) && Idle(Run(p, start, steps[..Cut(steps, when)]))
    ensures var cut, end := Run(p, start, steps[..Cut(steps, when)]).store, Run(p, start, steps).store;
            && AsOf(end, ref, when) == (if ref in cut.heads then Some(HeadSeq(cut, ref)) else None)
            && (ref in cut.heads ==>
                  var key := Key(ref, HeadSeq(cut, ref));
                  key in end.rows && end.rows[key].entry.oid == cut.heads[ref].oid)
  {
    hide AsOf, Next, Run, Cut, Chain;
    var n := Cut(steps, when);
    var past, future := steps[..n], steps[n..];
    var cut := Run(p, start, past);
    CutSplits(steps, when);
    InitialInv(p, start);
    RunKeepsInv(p, start, past);
    RunStartsBy(p, start, past, when);
    ChainHas(p, cut.store, ref);
    AsOfIsHead(p, cut.store, ref, when);
    forall c | c in cut.pending ensures cut.pending[c] == [] {
      assert Pending(cut, c) == [];
    }
    RunStartsAfter(p, cut, future, ref, when);
    RunKeepsInv(p, cut, future);
    assert steps == past + future;
    RunConcat(p, start, past, future);
    if ref in cut.store.heads {
      assert Key(ref, HeadSeq(cut.store, ref)) in cut.store.rows;
    }
  }

  /** Instant round trip. Let any callers commit, adopt, import, restore or merge in any interleaving with
      outside writes, while the clock goes on; later restore to an instant at which no write was half-way,
      with nobody else writing. If that restore completes, every record that had a HEAD at the instant is live
      and recorded at that HEAD's version, and the others are left alone. */
  lemma {:induction false} InstantRoundTrip(p: Project, start: System, steps: seq<Step>, when: Time,
          targets: seq<Target>, io: seq<Io>, ref: Ref)
    requires Initial(start) && ClockGoesOn(steps) && Idle(Run(p, start, steps[..Cut(steps, when)]))
    requires var later := Run(p, start, steps).store;
             && Targets(later, AsOfPick(later, when), targets)
             && |io| == |Jobs(p, later, targets)|
             && AllWritable(p, later, targets)
             && RestoreMany(p, later, targets, false, io).1.Restored?
    ensures var cut, later := Run(p, start, steps[..Cut(steps, when)]).store, Run(p, start, steps).store;
            var end := RestoreMany(p, later, targets, false, io).0;
            if ref in cut.heads then At(p, end, ref, cut.heads[ref].oid) else SameRecord(later, end, ref)
  {
    hide AsOf, Run, Cut, RestoreMany, Jobs, AllWritable, Targets, At, SameRecord;
    var later := Run(p, start, steps).store;
    InitialInv(p, start);
    RunKeepsInv(p, start, steps);
    AsOfIsHeadThen(p, start, steps, when, ref);
    RestoreAsOfArrives(p, later, when, targets, io, ref);
  }

  // ----- a write that is half-way -----

  /** The exact condition, whatever was half-way: the version at the instant is the one that was HEAD when the
      clock passed it, exactly when no row written since starts by the instant. */
  lemma {:induction false} AsOfIsHeadIff(p: Project, cut: State, end: State, when: Time, ref: Ref)
    requires Chain(p, cut) && Chain(p, end) && StartedBy(cut, when) && HistoryKept(cut, end)
    requires HeadSeq(cut, ref) <= HeadSeq(end, ref)
    ensures AsOf(end, ref, when) == (if ref in cut.heads then Some(HeadSeq(cut, ref)) else None) <==>
              forall k: nat | HeadSeq(cut, ref) < k <= HeadSeq(end, ref) ::
                Key(ref, k) in end.rows && end.rows[Key(ref, k)].entry.validFrom > when
  {
    hide AsOf, Honest;
    var n, m := HeadSeq(cut, ref), HeadSeq(end, ref);
    assert ChainAt(p, cut, ref) && ChainAt(p, end, ref);
    assert forall k: nat | 1 <= k <= m :: Key(ref, k) in end.rows;
    AsOfIsLastStarted(p, end, ref, when);
    LastStartedIs(end, ref, m, when);
    if n > 0 {
      assert Key(ref, n) in cut.rows && end.rows[Key(ref, n)].entry == cut.rows[Key(ref, n)].entry;
    }
  }

  /** Concrete input: a call plans at 10 and writes after 15. At 15 the record had no HEAD, yet ever after its
      version at 15 is the row that was written later. */
  lemma {:induction false} PlannedEarlier(p: Project, start: System, ref: Ref, doc: Doc)
    requires Initial(start) && ref in start.store.live && start.store.live[ref] == doc && p.Hash(ref, doc).Some?
    ensures var early := [ReadLive(0, ref), ReadHeadAndPlan(0, ref, WantAdopt(true), 10, Null)];
            var cut, end := Run(p, start, early), Run(p, start, early + [ApplyOne(0, 0)]);
            && ref !in cut.store.heads && AsOf(cut.store, ref, 15) == None
            && AsOf(end.store, ref, 15) == Some(1)
  {
    hide HashDoc, Stored, AsOf;
    var seen := Next(p, start, ReadLive(0, ref));
    var plan := ReadHeadAndPlan(0, ref, WantAdopt(true), 10, Null);
    var cut := Next(p, seen, plan);
    StoredKeepsHash(p.coll(ref.collection), doc);
    var decision := Decide(p, ref, Some(doc), None, WantAdopt(true), 10, Null);
    assert seen.seen[(0, ref)] == Some(doc) && GetHead(seen.store, ref) == None && decision.Ready?;
    assert Pending(cut, 0) == [decision.item] && cut.store == start.store;
    DecisionsAreSafe(p, ref, Some(doc), None, WantAdopt(true), 10, Null);
    InitialInv(p, start);
    var end := Next(p, cut, ApplyOne(0, 0));
    assert Apply(p, cut.store, decision.item).Ok? && end.store == Apply(p, cut.store, decision.item).value;
    ApplyStarts(p, cut.store, decision.item, 15);
    ChainHas(p, cut.store, ref);
    AsOfIsHead(p, cut.store, ref, 15);
    ThreeSteps(p, start, ReadLive(0, ref), plan, ApplyOne(0, 0));
  }

  lemma {:induction false} ThreeSteps(p: Project, sys: System, a: Step, b: Step, c: Step)
    ensures Run(p, sys, [a, b]) == Next(p, Next(p, sys, a), b)
    ensures Run(p, sys, [a, b] + [c]) == Next(p, Next(p, Next(p, sys, a), b), c)
  {
    hide Next;
    assert [a, b][1..] == [b] && [b][1..] == [];
    assert Run(p, Next(p, Next(p, sys, a), b), []) == Next(p, Next(p, sys, a), b);
    assert Run(p, Next(p, sys, a), [b]) == Next(p, Next(p, sys, a), b);
    RunConcat(p, sys, [a, b], [c]);
    assert [c][1..] == [];
  }
}
