/** Committing many records as one intent, and running such a batch again. */
module Bulk {
  import opened Documents
  import opened Hashing
  import opened Runtime
  import opened Store
  import opened Plans
  import opened Operations
  import opened Protocol

  datatype Change = Change(ref: Ref, doc: Doc)

  /** What happens at one write of the batch: it goes through, fails, or the operator cancels. */
  datatype Signal = Proceed | Fault | Cancel

  datatype Report =
    | Aborted(error: Error)
    | Blocked(failed: seq<Ref>)
    | Partial(cancelled: bool, results: seq<Ref>, failed: seq<Ref>, pending: seq<Ref>)
    | Complete(results: seq<Ref>)

  function RefsOf(changes: seq<Change>): (refs: seq<Ref>)
    ensures |refs| == |changes| && forall i | 0 <= i < |changes| :: refs[i] == changes[i].ref
  {
    seq(|changes|, i requires 0 <= i < |changes| => changes[i].ref)
  }

  /** The plan of one change, from the current state. */
  function PlanOf(p: Project, s: State, change: Change, allowSecret: bool, now: Time): Decision
  {
    DecideCommit(p, change.ref, Live(s, change.ref), GetHead(s, change.ref), change.doc, allowSecret, now)
  }

  function PlansOf(p: Project, s: State, changes: seq<Change>, allowSecret: bool,
                   clock: nat -> Time): (plans: seq<Decision>)
    ensures |plans| == |changes|
    ensures forall i | 0 <= i < |changes| :: plans[i] == PlanOf(p, s, changes[i], allowSecret, clock(i))
  {
    seq(|changes|, i requires 0 <= i < |changes| => PlanOf(p, s, changes[i], allowSecret, clock(i)))
  }

  /** A missing or drifted record blocks the batch; any other error aborts it at once. */
  predicate Blocks(plan: Decision)
  {
    plan.ChangedOutside? || plan == Raise(NoSuchConfig)
  }

  function FirstError(changes: seq<Change>, plans: seq<Decision>, seen: set<Ref>): Option<Error>
    requires |plans| == |changes|
  {
    if changes == [] then None
    else if changes[0].ref in seen then Some(Refused("duplicate record in bulk commit"))
    else if plans[0].Raise? && !Blocks(plans[0]) then Some(plans[0].error)
    else FirstError(changes[1..], plans[1..], seen + {changes[0].ref})
  }

  function Blockers(changes: seq<Change>, plans: seq<Decision>): seq<Ref>
    requires |plans| == |changes|
  {
    if changes == [] then []
    else (if Blocks(plans[0]) then [changes[0].ref] else []) + Blockers(changes[1..], plans[1..])
  }

  /** The state after one planned change, or None when it ends the batch. */
  function StepPlan(p: Project, s: State, plan: Decision, signal: Signal): Option<State>
  {
    if !plan.Ready? then Some(s)
    else if signal != Proceed || Apply(p, s, plan.item).Err? then None
    else Some(Apply(p, s, plan.item).value)
  }

  /** The writes one after the other; the first failure or cancel ends the batch. */
  function RunPlans(p: Project, s: State, changes: seq<Change>, plans: seq<Decision>,
                    signals: seq<Signal>): (State, Report)
    requires |plans| == |changes| == |signals|
    decreases changes
  {
    if changes == [] then (s, Complete([]))
    else
      match StepPlan(p, s, plans[0], signals[0])
      case Some(next) => After(changes[0].ref, RunPlans(p, next, changes[1..], plans[1..], signals[1..]))
      case None =>
        if signals[0] == Cancel then (s, Partial(true, [], [], RefsOf(changes)))
        else (s, Partial(false, [], [changes[0].ref], RefsOf(changes[1..])))
  }

  function After(ref: Ref, rest: (State, Report)): (State, Report)
  {
    match rest.1
    case Complete(results) => (rest.0, Complete([ref] + results))
    case Partial(c, results, failed, pending) => (rest.0, Partial(c, [ref] + results, failed, pending))
    case other => (rest.0, other)
  }

  function CommitMany(p: Project, s: State, changes: seq<Change>, allowSecret: bool, clock: nat -> Time,
                      signals: seq<Signal>): (State, Report)
    requires |signals| == |changes|
  {
    var plans := PlansOf(p, s, changes, allowSecret, clock);
    if changes == [] then (s, Aborted(Refused("bulk commit needs at least one item")))
    else if FirstError(changes, plans, {}).Some? then (s, Aborted(FirstError(changes, plans, {}).value))
    else if Blockers(changes, plans) != [] then (s, Blocked(Blockers(changes, plans)))
    else RunPlans(p, s, changes, plans, signals)
  }

  // ----- accounting -----

  function Accounted(report: Report): seq<Ref>
  {
    match report
    case Complete(results) => results
    case Partial(_, results, failed, pending) => results + failed + pending
    case _ => []
  }

  ghost predicate Accounts(report: Report, refs: seq<Ref>)
  {
    && (report.Complete? || report.Partial?) && Accounted(report) == refs
    && (report.Partial? ==> |report.failed| <= 1 && (report.cancelled ==> report.failed == []))
  }

  lemma AfterAccounts(ref: Ref, rest: (State, Report), refs: seq<Ref>)
    requires Accounts(rest.1, refs)
    ensures Accounts(After(ref, rest).1, [ref] + refs)
  {
    if rest.1.Partial? {
      var (results, failed, pending) := (rest.1.results, rest.1.failed, rest.1.pending);
      assert ([ref] + results) + failed + pending == [ref] + (results + failed + pending);
    }
  }

  lemma NothingToAccount()
    ensures RefsOf([]) == [] && Accounts(Complete([]), [])
  {
  }

  lemma StoppedAccounts(first: Ref, rest: seq<Ref>)
    ensures Accounts(Partial(true, [], [], [first] + rest), [first] + rest)
    ensures Accounts(Partial(false, [], [first], rest), [first] + rest)
  {
    var refs, none: seq<Ref> := [first] + rest, [];
    assert none + none + refs == refs;
    assert none + [first] + rest == refs;
  }

  lemma {:induction false} RunPlansAccounts(p: Project, s: State, changes: seq<Change>, plans: seq<Decision>,
                                            signals: seq<Signal>)
    requires |plans| == |changes| == |signals|
    ensures Accounts(RunPlans(p, s, changes, plans, signals).1, RefsOf(changes))
    decreases changes
  {
    hide StepPlan, After, Accounts;
    if changes == [] {
      NothingToAccount();
    } else {
      assert RefsOf(changes) == [changes[0].ref] + RefsOf(changes[1..]);
      var step := StepPlan(p, s, plans[0], signals[0]);
      if step.Some? {
        RunPlansAccounts(p, step.value, changes[1..], plans[1..], signals[1..]);
        AfterAccounts(changes[0].ref, RunPlans(p, step.value, changes[1..], plans[1..], signals[1..]),
                      RefsOf(changes[1..]));
      } else {
        StoppedAccounts(changes[0].ref, RefsOf(changes[1..]));
      }
    }
  }

  lemma {:induction false} BlockersAre(changes: seq<Change>, plans: seq<Decision>)
    requires |plans| == |changes|
    ensures forall ref :: ref in Blockers(changes, plans) <==>
              exists i :: 0 <= i < |changes| && changes[i].ref == ref && Blocks(plans[i])
    ensures Blockers(changes, plans) == [] <==> forall i | 0 <= i < |changes| :: !Blocks(plans[i])
  {
    if changes != [] {
      BlockersAre(changes[1..], plans[1..]);
      forall ref ensures ref in Blockers(changes, plans) <==>
              exists i :: 0 <= i < |changes| && changes[i].ref == ref && Blocks(plans[i])
      {
        if i :| 0 <= i < |changes| && changes[i].ref == ref && Blocks(plans[i]) {
          if i > 0 {
            assert changes[1..][i - 1].ref == ref && Blocks(plans[1..][i - 1]);
          }
        }
      }
      assert (forall i | 0 <= i < |changes| :: !Blocks(plans[i])) ==>
             (forall i | 0 <= i < |changes| - 1 :: !Blocks(plans[1..][i]));
    }
  }

  /** Unless it stops at preflight, a bulk commit lists every input record exactly once, in
      input order: what landed, then what failed, then what was not tried. */
  lemma BulkAccounts(p: Project, s: State, changes: seq<Change>, allowSecret: bool, clock: nat -> Time,
                     signals: seq<Signal>)
    requires |signals| == |changes|
    ensures var (end, report) := CommitMany(p, s, changes, allowSecret, clock, signals);
            match report
            case Aborted(_) => end == s
            case Blocked(failed) =>
              end == s && failed != [] &&
              forall ref :: ref in failed <==>
                exists i :: 0 <= i < |changes| && changes[i].ref == ref &&
                            Blocks(PlanOf(p, s, changes[i], allowSecret, clock(i)))
            case _ => Accounted(report) == RefsOf(changes)
  {
    var plans := PlansOf(p, s, changes, allowSecret, clock);
    BlockersAre(changes, plans);
    RunPlansAccounts(p, s, changes, plans, signals);
  }

  /** Exactly a missing or a drifted record blocks. */
  lemma BlocksIff(p: Project, s: State, change: Change, allowSecret: bool, now: Time)
    requires ChainAt(p, s, change.ref) && (change.ref in s.live ==> p.Hash(change.ref, s.live[change.ref]).Some?)
    ensures Blocks(PlanOf(p, s, change, allowSecret, now)) <==>
              change.ref !in s.live || !Undrifted(p, s, change.ref)
  {
    HeadIsThere(p, s, change.ref);
    if change.ref in s.live {
      UnreadyCommit(p, s, change.ref, change.doc, allowSecret, now);
    }
  }

  /** Change `i` stops the batch with this error: its record came before, or its plan raises. */
  ghost predicate StopsAt(changes: seq<Change>, plans: seq<Decision>, seen: set<Ref>, i: nat, e: Error)
    requires |plans| == |changes|
  {
    i < |changes| &&
    if changes[i].ref in seen || exists j | 0 <= j < i :: changes[j].ref == changes[i].ref
    then e == Refused("duplicate record in bulk commit")
    else plans[i].Raise? && !Blocks(plans[i]) && plans[i].error == e
  }

  lemma {:induction false} StopsLater(changes: seq<Change>, plans: seq<Decision>, seen: set<Ref>, i: nat, e: Error)
    requires |plans| == |changes| && changes != [] && i < |changes[1..]|
    ensures StopsAt(changes[1..], plans[1..], seen + {changes[0].ref}, i, e) <==> StopsAt(changes, plans, seen, i + 1, e)
  {
    var rest, more := changes[1..], seen + {changes[0].ref};
    assert rest[i] == changes[i + 1] && plans[1..][i] == plans[i + 1];
    if j :| 0 <= j < i + 1 && changes[j].ref == changes[i + 1].ref {
      assert j > 0 ==> rest[j - 1].ref == rest[i].ref;
    }
    if j :| 0 <= j < i && rest[j].ref == rest[i].ref {
      assert changes[j + 1].ref == changes[i + 1].ref;
    }
  }

  /** The error of an aborted batch is that of the first change that stops it. */
  lemma {:induction false} FirstErrorIs(changes: seq<Change>, plans: seq<Decision>, seen: set<Ref>) returns (i: nat)
    requires |plans| == |changes|
    ensures match FirstError(changes, plans, seen)
            case Some(e) =>
              StopsAt(changes, plans, seen, i, e) && forall j: nat, f | j < i :: !StopsAt(changes, plans, seen, j, f)
            case None => forall j: nat, f :: !StopsAt(changes, plans, seen, j, f)
  {
    i := 0;
    if changes != [] {
      var error := FirstError(changes, plans, seen);
      if changes[0].ref in seen || (plans[0].Raise? && !Blocks(plans[0])) {
        assert StopsAt(changes, plans, seen, 0, error.value);
      } else {
        var rest := FirstErrorIs(changes[1..], plans[1..], seen + {changes[0].ref});
        i := rest + 1;
        forall j: nat, f | j < |changes[1..]|
          ensures StopsAt(changes[1..], plans[1..], seen + {changes[0].ref}, j, f) <==>
                    StopsAt(changes, plans, seen, j + 1, f)
        {
          StopsLater(changes, plans, seen, j, f);
        }
        assert forall f :: !StopsAt(changes, plans, seen, 0, f);
        forall j: nat, f | 0 < j < |changes| && StopsAt(changes, plans, seen, j, f)
          ensures StopsAt(changes[1..], plans[1..], seen + {changes[0].ref}, j - 1, f)
        {
          StopsLater(changes, plans, seen, j - 1, f);
        }
      }
    }
  }

  /** Why a batch writes nothing: an aborted one reports the error of the first change that stops it, a
      blocked one lists exactly its records that are missing or have drifted. */
  lemma StoppedMeans(p: Project, s: State, changes: seq<Change>, allowSecret: bool, clock: nat -> Time,
                     signals: seq<Signal>) returns (i: nat)
    requires Chain(p, s) && changes != [] && |signals| == |changes|
    ensures var plans := PlansOf(p, s, changes, allowSecret, clock);
            match CommitMany(p, s, changes, allowSecret, clock, signals).1
            case Aborted(e) =>
              StopsAt(changes, plans, {}, i, e) && forall j: nat, f | j < i :: !StopsAt(changes, plans, {}, j, f)
            case Blocked(blocked) =>
              forall ref :: ref in blocked <==>
                (exists change :: change in changes && change.ref == ref) && (ref in s.live ==> !Undrifted(p, s, ref))
            case _ => true
  {
    hide PlanOf, HashDoc, RunPlans, StopsAt, Blocks;
    var plans := PlansOf(p, s, changes, allowSecret, clock);
    i := FirstErrorIs(changes, plans, {});
    BlockersAre(changes, plans);
    RunPlansAccounts(p, s, changes, plans, signals);
    if CommitMany(p, s, changes, allowSecret, clock, signals).1.Blocked? {
      NoErrorMeans(changes, plans, {});
      forall x | 0 <= x < |changes|
        ensures Blocks(plans[x]) <==> (changes[x].ref in s.live ==> !Undrifted(p, s, changes[x].ref))
      {
        PlanBlocksIff(p, s, changes[x], allowSecret, clock(x));
      }
    }
  }

  lemma PlanBlocksIff(p: Project, s: State, change: Change, allowSecret: bool, now: Time)
    requires Chain(p, s)
    requires var plan := PlanOf(p, s, change, allowSecret, now); plan.Raise? ==> Blocks(plan)
    ensures Blocks(PlanOf(p, s, change, allowSecret, now)) <==>
              (change.ref in s.live ==> !Undrifted(p, s, change.ref))
  {
    hide HashDoc;
    assert ChainAt(p, s, change.ref);
    if change.ref in s.live && p.Hash(change.ref, s.live[change.ref]) == None {
      assert PlanOf(p, s, change, allowSecret, now) == Raise(Unhashable);
    } else {
      BlocksIff(p, s, change, allowSecret, now);
    }
  }

  // ----- what a run does -----

  ghost predicate OneChangeEach(changes: seq<Change>)
  {
    forall i, j | 0 <= i < j < |changes| :: changes[i].ref != changes[j].ref
  }

  /** The plan was made for the record as it still is. */
  ghost predicate Current(p: Project, s: State, change: Change, plan: Decision)
  {
    && p.Hash(change.ref, change.doc).Some?
    && match plan
       case Nothing => At(p, s, change.ref, p.Hash(change.ref, change.doc).value)
       case Ready(it) =>
         && Writable(p, s, change.ref, change.doc)
         && it.ref == change.ref && it.newDoc == Some(change.doc) && Sound(p, it) && !it.seedMissing
         && it.expectedHead == HeadOid(s, it.ref)
         && it.ref in s.live && p.Hash(it.ref, s.live[it.ref]).Some?
         && it.expectedLive == p.Hash(it.ref, s.live[it.ref])
         && p.Hash(it.ref, change.doc) == Some(it.entry.oid)
       case _ => false
  }

  lemma CurrentIsLocal(p: Project, s: State, later: State, change: Change, plan: Decision)
    requires Current(p, s, change, plan) && SameRecord(s, later, change.ref)
    ensures Current(p, later, change, plan)
  {
  }

  /** A record of the batch is at its new version, or as it was if it is not in the results. */
  ghost predicate Landed(p: Project, s: State, end: State, change: Change, results: seq<Ref>)
  {
    if change.ref in results then
      p.Hash(change.ref, change.doc).Some? && At(p, end, change.ref, p.Hash(change.ref, change.doc).value)
    else SameRecord(s, end, change.ref)
  }

  ghost predicate Unaffected(s: State, end: State, ref: Ref, results: seq<Ref>)
  {
    SameRecord(s, end, ref) && ref !in results
  }

  ghost predicate NoChangeFor(changes: seq<Change>, ref: Ref)
  {
    forall change | change in changes :: change.ref != ref
  }

  function Results(report: Report): seq<Ref>
  {
    match report
    case Complete(results) => results
    case Partial(_, results, _, _) => results
    case _ => []
  }

  /** One planned change goes through, unless it is stopped, and touches its own record only. */
  lemma StepLands(p: Project, s: State, change: Change, plan: Decision, signal: Signal)
    requires Chain(p, s) && Current(p, s, change, plan)
    ensures StepPlan(p, s, plan, signal).None? ==> signal != Proceed
    ensures StepPlan(p, s, plan, signal).Some? ==>
              var next := StepPlan(p, s, plan, signal).value;
              Chain(p, next) && HistoryKept(s, next) && OnlyTouches(s, next, change.ref) &&
              At(p, next, change.ref, p.Hash(change.ref, change.doc).value)
  {
    if plan.Ready? {
      ReplacementLands(p, s, plan.item, change.doc);
      ApplyKeepsChain(p, s, plan.item);
      ApplyTouchesOne(p, s, plan.item);
    }
  }

  lemma RestIsCurrent(p: Project, s: State, next: State, changes: seq<Change>, plans: seq<Decision>)
    requires changes != [] && |plans| == |changes| && OneChangeEach(changes)
    requires OnlyTouches(s, next, changes[0].ref)
    requires forall i | 0 <= i < |changes| :: Current(p, s, changes[i], plans[i])
    ensures forall i | 0 <= i < |changes[1..]| :: Current(p, next, changes[1..][i], plans[1..][i])
  {
    forall i | 0 <= i < |changes[1..]| ensures Current(p, next, changes[1..][i], plans[1..][i]) {
      assert SameRecord(s, next, changes[i + 1].ref);
      CurrentIsLocal(p, s, next, changes[i + 1], plans[i + 1]);
    }
  }

  /** From `s` to `end` exactly the records in `results` moved, to their new versions. */
  ghost predicate Moved(p: Project, s: State, end: State, changes: seq<Change>, results: seq<Ref>)
  {
    && Chain(p, end) && HistoryKept(s, end)
    && (forall change | change in changes :: Landed(p, s, end, change, results))
    && (forall ref | NoChangeFor(changes, ref) :: Unaffected(s, end, ref, results))
  }

  lemma NothingMoved(p: Project, s: State, changes: seq<Change>)
    requires Chain(p, s)
    ensures Moved(p, s, s, changes, [])
  {
    HistoryKeptReflexive(s);
  }

  lemma MovedFurther(p: Project, s: State, next: State, end: State, changes: seq<Change>, results: seq<Ref>)
    requires changes != [] && OneChangeEach(changes) && HistoryKept(s, next)
    requires OnlyTouches(s, next, changes[0].ref) && p.Hash(changes[0].ref, changes[0].doc).Some?
    requires At(p, next, changes[0].ref, p.Hash(changes[0].ref, changes[0].doc).value)
    requires Moved(p, next, end, changes[1..], results)
    ensures Moved(p, s, end, changes, [changes[0].ref] + results)
  {
    var first := changes[0];
    HistoryKeptTransitive(s, next, end);
    assert NoChangeFor(changes[1..], first.ref);
    assert Unaffected(next, end, first.ref, results);
    forall change | change in changes ensures Landed(p, s, end, change, [first.ref] + results) {
      if change != first {
        assert change in changes[1..];
        assert Landed(p, next, end, change, results);
        if change.ref !in results {
          SameRecordTransitive(s, next, end, change.ref);
        }
      }
    }
    forall ref | NoChangeFor(changes, ref) ensures Unaffected(s, end, ref, [first.ref] + results) {
      assert first in changes && NoChangeFor(changes[1..], ref);
      SameRecordTransitive(s, next, end, ref);
    }
  }

  predicate AllProceed(signals: seq<Signal>)
  {
    forall i | 0 <= i < |signals| :: signals[i] == Proceed
  }

  lemma FirstStep(p: Project, s: State, changes: seq<Change>, plans: seq<Decision>, signal: Signal)
    requires changes != [] && |plans| == |changes| && Chain(p, s) && OneChangeEach(changes)
    requires forall i | 0 <= i < |changes| :: Current(p, s, changes[i], plans[i])
    ensures StepPlan(p, s, plans[0], signal).None? ==> signal != Proceed
    ensures p.Hash(changes[0].ref, changes[0].doc).Some?
    ensures StepPlan(p, s, plans[0], signal).Some? ==>
              var next := StepPlan(p, s, plans[0], signal).value;
              Chain(p, next) && HistoryKept(s, next) && OnlyTouches(s, next, changes[0].ref) &&
              At(p, next, changes[0].ref, p.Hash(changes[0].ref, changes[0].doc).value) &&
              forall i | 0 <= i < |changes[1..]| :: Current(p, next, changes[1..][i], plans[1..][i])
  {
    assert Current(p, s, changes[0], plans[0]);
    StepLands(p, s, changes[0], plans[0], signal);
    if StepPlan(p, s, plans[0], signal).Some? {
      RestIsCurrent(p, s, StepPlan(p, s, plans[0], signal).value, changes, plans);
    }
  }

  lemma ResultsAfter(ref: Ref, rest: (State, Report))
    requires rest.1.Complete? || rest.1.Partial?
    ensures Results(After(ref, rest).1) == [ref] + Results(rest.1) && After(ref, rest).0 == rest.0
    ensures After(ref, rest).1.Complete? <==> rest.1.Complete?
  {
  }

  lemma {:induction false} RunPlansLands(p: Project, s: State, changes: seq<Change>, plans: seq<Decision>,
                                         signals: seq<Signal>)
    requires |plans| == |changes| == |signals| && Chain(p, s) && OneChangeEach(changes)
    requires forall i | 0 <= i < |changes| :: Current(p, s, changes[i], plans[i])
    ensures var (end, report) := RunPlans(p, s, changes, plans, signals);
            Moved(p, s, end, changes, Results(report)) && (AllProceed(signals) ==> report.Complete?)
    decreases changes
  {
    NothingMoved(p, s, changes);
    if changes != [] {
      FirstStep(p, s, changes, plans, signals[0]);
      var step := StepPlan(p, s, plans[0], signals[0]);
      if step.Some? {
        var next := step.value;
        RunPlansLands(p, next, changes[1..], plans[1..], signals[1..]);
        RunPlansAccounts(p, next, changes[1..], plans[1..], signals[1..]);
        var rest := RunPlans(p, next, changes[1..], plans[1..], signals[1..]);
        MovedFurther(p, s, next, rest.0, changes, Results(rest.1));
        ResultsAfter(changes[0].ref, rest);
      }
    }
  }

  // ----- the whole batch, and running it again -----

  lemma {:induction false} NoErrorMeans(changes: seq<Change>, plans: seq<Decision>, seen: set<Ref>)
    requires |plans| == |changes| && FirstError(changes, plans, seen).None?
    ensures OneChangeEach(changes) && (forall change | change in changes :: change.ref !in seen)
    ensures forall i | 0 <= i < |changes| :: plans[i].Raise? ==> Blocks(plans[i])
  {
    if changes != [] {
      NoErrorMeans(changes[1..], plans[1..], seen + {changes[0].ref});
      forall i | 0 < i < |changes| ensures changes[i].ref != changes[0].ref && changes[i].ref !in seen {
        assert changes[i] in changes[1..];
      }
      forall i, j | 0 <= i < j < |changes| ensures changes[i].ref != changes[j].ref {
        if i > 0 {
          assert changes[1..][i - 1].ref != changes[1..][j - 1].ref;
        }
      }
      forall i | 0 <= i < |changes| ensures plans[i].Raise? ==> Blocks(plans[i]) {
        if i > 0 {
          assert plans[1..][i - 1].Raise? ==> Blocks(plans[1..][i - 1]);
        }
      }
    }
  }

  /** The change can be written, or is there already. */
  ghost predicate Fits(p: Project, s: State, change: Change)
  {
    Writable(p, s, change.ref, change.doc) || Reached(p, s, change)
  }

  ghost predicate Reached(p: Project, s: State, change: Change)
  {
    p.Hash(change.ref, change.doc).Some? && At(p, s, change.ref, p.Hash(change.ref, change.doc).value)
  }

  lemma PlanIsCurrent(p: Project, s: State, change: Change, allowSecret: bool, now: Time)
    requires Chain(p, s) && Fits(p, s, change)
    requires var plan := PlanOf(p, s, change, allowSecret, now); !Blocks(plan) && !plan.Raise?
    ensures Current(p, s, change, PlanOf(p, s, change, allowSecret, now))
  {
    assert ChainAt(p, s, change.ref);
    HeadIsThere(p, s, change.ref);
    var live, head := Live(s, change.ref), GetHead(s, change.ref);
    var plan := PlanOf(p, s, change, allowSecret, now);
    UnreadyCommit(p, s, change.ref, change.doc, allowSecret, now);
    if plan.Ready? {
      DecisionsAreSafe(p, change.ref, live, head, WantCommit(change.doc, allowSecret), now, Null);
      StoredKeepsHash(p.coll(change.ref.collection), change.doc);
    }
  }

  lemma {:induction false} PlansAreCurrent(p: Project, s: State, changes: seq<Change>, allowSecret: bool,
                                           clock: nat -> Time)
    requires Chain(p, s) && forall change | change in changes :: Fits(p, s, change)
    requires var plans := PlansOf(p, s, changes, allowSecret, clock);
             FirstError(changes, plans, {}).None? && Blockers(changes, plans) == []
    ensures OneChangeEach(changes)
    ensures var plans := PlansOf(p, s, changes, allowSecret, clock);
            forall i | 0 <= i < |changes| :: Current(p, s, changes[i], plans[i])
  {
    var plans := PlansOf(p, s, changes, allowSecret, clock);
    NoErrorMeans(changes, plans, {});
    BlockersAre(changes, plans);
    forall i | 0 <= i < |changes| ensures Current(p, s, changes[i], plans[i]) {
      assert changes[i] in changes && !Blocks(plans[i]);
      PlanIsCurrent(p, s, changes[i], allowSecret, clock(i));
    }
  }

  /** Every record in the results of a bulk commit is live and recorded at its new version;
      every other record, in the batch or not, is as it was. */
  lemma BulkLands(p: Project, s: State, changes: seq<Change>, allowSecret: bool, clock: nat -> Time,
                  signals: seq<Signal>)
    requires |signals| == |changes| && Chain(p, s)
    requires forall change | change in changes :: Fits(p, s, change)
    ensures var (end, report) := CommitMany(p, s, changes, allowSecret, clock, signals);
            Moved(p, s, end, changes, Results(report)) && (AllProceed(signals) ==> !report.Partial?)
  {
    var plans := PlansOf(p, s, changes, allowSecret, clock);
    var report := CommitMany(p, s, changes, allowSecret, clock, signals).1;
    if changes == [] || FirstError(changes, plans, {}).Some? || Blockers(changes, plans) != [] {
      NothingMoved(p, s, changes);
    } else {
      PlansAreCurrent(p, s, changes, allowSecret, clock);
      RunPlansLands(p, s, changes, plans, signals);
    }
  }

  /** A record already at the version of its change is a noop, whatever the secret policy. */
  lemma LandedIsNoop(p: Project, s: State, change: Change, allowSecret: bool, now: Time)
    requires ChainAt(p, s, change.ref) && p.Hash(change.ref, change.doc).Some?
    requires At(p, s, change.ref, p.Hash(change.ref, change.doc).value)
    ensures PlanOf(p, s, change, allowSecret, now) == Nothing
  {
    HeadIsThere(p, s, change.ref);
  }

  /** Running a batch again plans nothing for the records that landed. */
  lemma RerunSkipsLanded(p: Project, s: State, changes: seq<Change>, allowSecret: bool, clock: nat -> Time,
                         signals: seq<Signal>, later: Time)
    requires |signals| == |changes| && Chain(p, s)
    requires forall change | change in changes :: Fits(p, s, change)
    ensures var (end, report) := CommitMany(p, s, changes, allowSecret, clock, signals);
            forall change | change in changes && change.ref in Results(report) ::
              PlanOf(p, end, change, allowSecret, later) == Nothing
  {
    BulkLands(p, s, changes, allowSecret, clock, signals);
    var (end, report) := CommitMany(p, s, changes, allowSecret, clock, signals);
    forall change | change in changes && change.ref in Results(report)
      ensures PlanOf(p, end, change, allowSecret, later) == Nothing
    {
      assert ChainAt(p, end, change.ref);
      LandedIsNoop(p, end, change, allowSecret, later);
    }
  }

  lemma {:induction false} NoopsChangeNothing(p: Project, s: State, changes: seq<Change>, plans: seq<Decision>,
          signals: seq<Signal>)
    requires |plans| == |changes| == |signals|
    requires forall i | 0 <= i < |plans| :: plans[i] == Nothing
    ensures RunPlans(p, s, changes, plans, signals) == (s, Complete(RefsOf(changes)))
    decreases changes
  {
    if changes != [] {
      NoopsChangeNothing(p, s, changes[1..], plans[1..], signals[1..]);
      assert RefsOf(changes) == [changes[0].ref] + RefsOf(changes[1..]);
    }
  }

  lemma {:induction false} NoError(changes: seq<Change>, plans: seq<Decision>, seen: set<Ref>)
    requires |plans| == |changes| && OneChangeEach(changes)
    requires forall change | change in changes :: change.ref !in seen
    requires forall i | 0 <= i < |plans| :: plans[i].Raise? ==> Blocks(plans[i])
    ensures FirstError(changes, plans, seen).None?
  {
    if changes != [] {
      assert forall change | change in changes[1..] :: change in changes && change.ref != changes[0].ref;
      NoError(changes[1..], plans[1..], seen + {changes[0].ref});
    }
  }

  /** Once a batch is complete, running it again adds no history, whatever goes wrong on the way. */
  lemma RerunOfCompleteIsNoop(p: Project, s: State, changes: seq<Change>, allowSecret: bool, clock: nat -> Time,
                              signals: seq<Signal>, later: nat -> Time, others: seq<Signal>)
    requires |signals| == |others| == |changes| && Chain(p, s)
    requires forall change | change in changes :: Fits(p, s, change)
    requires CommitMany(p, s, changes, allowSecret, clock, signals).1.Complete?
    ensures var end := CommitMany(p, s, changes, allowSecret, clock, signals).0;
            CommitMany(p, end, changes, allowSecret, later, others) == (end, Complete(RefsOf(changes)))
  {
    var (end, report) := CommitMany(p, s, changes, allowSecret, clock, signals);
    BulkAccounts(p, s, changes, allowSecret, clock, signals);
    var again := PlansOf(p, end, changes, allowSecret, later);
    forall i | 0 <= i < |changes| ensures again[i] == Nothing {
      RerunSkipsLanded(p, s, changes, allowSecret, clock, signals, later(i));
      assert changes[i] in changes && RefsOf(changes)[i] in RefsOf(changes);
    }
    NoErrorMeans(changes, PlansOf(p, s, changes, allowSecret, clock), {});
    NoError(changes, again, {});
    BlockersAre(changes, again);
    NoopsChangeNothing(p, end, changes, again, others);
  }

  /** A record that did not change since is planned as it was, but for the clock. */
  lemma SamePlan(p: Project, s: State, later: State, change: Change, allowSecret: bool, now: Time, soon: Time)
    requires SameRecord(s, later, change.ref)
    ensures var was, plan := PlanOf(p, s, change, allowSecret, now), PlanOf(p, later, change, allowSecret, soon);
            (was.Ready? && plan.Ready?) || was == plan
  {
    hide HashDoc, Stored;
    assert Key(change.ref, HeadSeq(s, change.ref)) in s.rows <==> Key(change.ref, HeadSeq(s, change.ref)) in later.rows;
    assert GetHead(s, change.ref) == GetHead(later, change.ref);
  }

  /** After a partial batch, a re-run finds every record writable or landed, and nothing to stop it. */
  lemma {:induction false} RerunIsReady(p: Project, s: State, changes: seq<Change>, allowSecret: bool,
                                        clock: nat -> Time, signals: seq<Signal>, later: nat -> Time)
    requires |signals| == |changes| && Chain(p, s)
    requires forall change | change in changes :: Fits(p, s, change)
    requires CommitMany(p, s, changes, allowSecret, clock, signals).1.Partial?
    ensures var end := CommitMany(p, s, changes, allowSecret, clock, signals).0;
            var again := PlansOf(p, end, changes, allowSecret, later);
            && Chain(p, end) && changes != []
            && (forall change | change in changes :: Fits(p, end, change))
            && FirstError(changes, again, {}).None? && Blockers(changes, again) == []
  {
    hide Writable, HashDoc, PlanOf, FirstError, Blockers, RunPlans;
    BulkLands(p, s, changes, allowSecret, clock, signals);
    var (end, report) := CommitMany(p, s, changes, allowSecret, clock, signals);
    var plans, again := PlansOf(p, s, changes, allowSecret, clock), PlansOf(p, end, changes, allowSecret, later);
    NoErrorMeans(changes, plans, {});
    BlockersAre(changes, plans);
    forall i | 0 <= i < |changes| ensures Fits(p, end, changes[i]) && !again[i].Raise? && !Blocks(again[i]) {
      assert changes[i] in changes && Landed(p, s, end, changes[i], Results(report));
      OneRerun(p, s, end, changes[i], allowSecret, clock(i), later(i), Results(report));
    }
    NoError(changes, again, {});
    BlockersAre(changes, again);
  }

  lemma OneRerun(p: Project, s: State, end: State, change: Change, allowSecret: bool, now: Time, soon: Time,
                 results: seq<Ref>)
    requires Chain(p, end) && Fits(p, s, change) && Landed(p, s, end, change, results)
    requires var plan := PlanOf(p, s, change, allowSecret, now); !Blocks(plan) && !plan.Raise?
    ensures Fits(p, end, change)
    ensures var again := PlanOf(p, end, change, allowSecret, soon); !again.Raise? && !Blocks(again)
  {
    hide HashDoc;
    if change.ref in results {
      assert ChainAt(p, end, change.ref);
      LandedIsNoop(p, end, change, allowSecret, soon);
    } else {
      hide PlanOf, CarrySafe, Settled;
      SamePlan(p, s, end, change, allowSecret, now, soon);
    }
  }

  /** Convergence. After a partial batch, a re-run in which nothing fails is complete and brings
      every record to its version. */
  lemma {:induction false} RerunCompletes(p: Project, s: State, changes: seq<Change>, allowSecret: bool,
                                          clock: nat -> Time, signals: seq<Signal>, later: nat -> Time,
                                          others: seq<Signal>)
    requires |signals| == |others| == |changes| && Chain(p, s)
    requires forall change | change in changes :: Fits(p, s, change)
    requires CommitMany(p, s, changes, allowSecret, clock, signals).1.Partial? && AllProceed(others)
    ensures var end := CommitMany(p, s, changes, allowSecret, clock, signals).0;
            var (last, report) := CommitMany(p, end, changes, allowSecret, later, others);
            report == Complete(RefsOf(changes)) && forall change | change in changes :: Reached(p, last, change)
  {
    hide Fits, Reached, At, PlanOf, FirstError, Blockers, RunPlans;
    RerunIsReady(p, s, changes, allowSecret, clock, signals, later);
    var end := CommitMany(p, s, changes, allowSecret, clock, signals).0;
    BulkLands(p, end, changes, allowSecret, later, others);
    BulkAccounts(p, end, changes, allowSecret, later, others);
    RunPlansAccounts(p, end, changes, PlansOf(p, end, changes, allowSecret, later), others);
    var (last, report) := CommitMany(p, end, changes, allowSecret, later, others);
    forall change | change in changes ensures Reached(p, last, change) {
      var i :| 0 <= i < |changes| && changes[i] == change;
      assert RefsOf(changes)[i] in RefsOf(changes);
      assert Landed(p, end, last, change, Results(report));
      LandedIsReached(p, end, last, change, Results(report));
    }
  }

  lemma LandedIsReached(p: Project, s: State, end: State, change: Change, results: seq<Ref>)
    requires Landed(p, s, end, change, results) && change.ref in results
    ensures Reached(p, end, change)
  {
  }
}
