/** The dry run of a bulk commit, and what it tells about the commit itself. */
module Previews {
  import opened Documents
  import opened Hashing
  import opened DocDiff
  import opened Replay
  import opened Store
  import opened Plans
  import opened Operations
  import opened Bulk

  datatype Preview =
    | Absent
    | Drifted(liveOid: Oid, headOid: Oid)
    | Noop(oid: Oid)
    | WouldCommit(changes: seq<DottedEdit>, newOid: Oid, parent: Option<Oid>)
    | Stopped(error: Error)

  datatype Summary = Summary(total: nat, wouldCommit: nat, drift: nat, noop: nat)

  /** One entry of the result list. */
  datatype Line = Line(ref: Ref, preview: Preview)

  datatype DryRun = DryRun(summary: Summary, lines: seq<Line>)

  const NOTHING_YET := DryRun(Summary(0, 0, 0, 0), [])

  /** The guards of a commit, in the order of a commit, and no write. */
  function PreviewOf(p: Project, s: State, change: Change, allowSecret: bool): Preview
  {
    var ref, c, head := change.ref, p.coll(change.ref.collection), GetHead(s, change.ref);
    if ref !in s.live then Absent
    else
      var liveOid, newOid := p.Hash(ref, s.live[ref]), p.Hash(ref, change.doc);
      if liveOid == None then Stopped(Unhashable)
      else if head.Some? && liveOid != OidOf(head) then Drifted(liveOid.value, head.value.entry.oid)
      else if newOid == None then Stopped(Unhashable)
      else if head.Some? && newOid == OidOf(head) then Noop(newOid.value)
      else if SecretStops(p, ref, change.doc, allowSecret) then Stopped(SecretBlocked)
      else WouldCommit(DiffValues(Obj(Strip(c, s.live[ref])), Obj(Strip(c, change.doc)), ""), newOid.value, OidOf(head))
  }

  function Tally(sofar: DryRun, ref: Ref, preview: Preview): DryRun
  {
    var sum := sofar.summary.(total := sofar.summary.total + 1);
    DryRun(match preview
           case WouldCommit(_, _, _) => sum.(wouldCommit := sum.wouldCommit + 1)
           case Drifted(_, _) => sum.(drift := sum.drift + 1)
           case Noop(_) => sum.(noop := sum.noop + 1)
           case _ => sum,
           sofar.lines + [Line(ref, preview)])
  }

  /** The counters and the list over all changes, or the first error. */
  function PreviewAll(p: Project, s: State, changes: seq<Change>, allowSecret: bool, sofar: DryRun): Result<DryRun>
    decreases changes
  {
    if changes == [] then Ok(sofar)
    else
      var preview := PreviewOf(p, s, changes[0], allowSecret);
      if preview.Stopped? then Err(preview.error)
      else PreviewAll(p, s, changes[1..], allowSecret, Tally(sofar, changes[0].ref, preview))
  }

  // ----- one record -----

  /** The two runs differ by their own secret flags only. */
  predicate FlagDecides(p: Project, change: Change, dry: bool, wet: bool)
  {
    dry != wet && SecretStops(p, change.ref, change.doc, false)
  }

  /** A preview is what a commit from the same state would plan, unless the secret policy is all
      that stands between the two flags. */
  lemma PreviewIsPlan(p: Project, s: State, change: Change, dry: bool, wet: bool, now: Time)
    ensures var plan := PlanOf(p, s, change, wet, now);
            match PreviewOf(p, s, change, dry)
            case Absent => plan == Raise(NoSuchConfig)
            case Drifted(liveOid, headOid) => plan == ChangedOutside(liveOid, headOid)
            case Noop(_) => plan == Nothing
            case WouldCommit(_, newOid, parent) =>
              if FlagDecides(p, change, dry, wet) then plan == Raise(SecretBlocked)
              else plan.Ready? && plan.item.entry.oid == newOid && plan.item.expectedHead == parent
            case Stopped(SecretBlocked) =>
              if FlagDecides(p, change, dry, wet) then plan.Ready? else plan == Raise(SecretBlocked)
            case Stopped(e) => plan == Raise(e) && e == Unhashable
  {
    hide DiffValues, NormalForm;
    StoredKeepsHash(p.coll(change.ref.collection), change.doc);
  }

  /** On a recorded document, a planned commit that shows no change is one where a truth value
      faces a number. */
  lemma InvisibleChange(p: Project, s: State, change: Change, allowSecret: bool)
    requires ChainAt(p, s, change.ref) && change.ref in s.heads
    requires PreviewOf(p, s, change, allowSecret).WouldCommit? && PreviewOf(p, s, change, allowSecret).changes == []
    ensures var c := p.coll(change.ref.collection);
            !SameTruth(Obj(Strip(c, s.live[change.ref])), Obj(Strip(c, change.doc)))
  {
    HeadIsThere(p, s, change.ref);
    EmptyDiffKeepsHashIff(p.coll(change.ref.collection), s.live[change.ref], change.doc);
  }

  // ----- the whole batch -----

  /** The commit of this change raises, and is not merely blocked. */
  predicate Raises(p: Project, s: State, change: Change, dry: bool, wet: bool)
  {
    var preview := PreviewOf(p, s, change, dry);
    if FlagDecides(p, change, dry, wet) then preview.WouldCommit? || preview == Stopped(Unhashable)
    else preview.Stopped?
  }

  ghost predicate SomeRaises(p: Project, s: State, changes: seq<Change>, dry: bool, wet: bool)
  {
    exists change :: change in changes && Raises(p, s, change, dry, wet)
  }

  lemma RaisesIsPlan(p: Project, s: State, change: Change, dry: bool, wet: bool, now: Time)
    ensures Raises(p, s, change, dry, wet) <==>
              PlanOf(p, s, change, wet, now).Raise? && !Blocks(PlanOf(p, s, change, wet, now))
  {
    hide PlanOf, PreviewOf, SecretStops;
    PreviewIsPlan(p, s, change, dry, wet, now);
  }

  function ReadyPlans(plans: seq<Decision>): nat
  {
    if plans == [] then 0 else (if plans[0].Ready? then 1 else 0) + ReadyPlans(plans[1..])
  }

  predicate ShowsCommit(preview: Preview) { preview.WouldCommit? }
  predicate ShowsDrift(preview: Preview) { preview.Drifted? }
  predicate ShowsNoop(preview: Preview) { preview.Noop? }

  function CountOf(lines: seq<Line>, shows: Preview -> bool): nat
  {
    if lines == [] then 0
    else CountOf(lines[..|lines| - 1], shows) + (if shows(lines[|lines| - 1].preview) then 1 else 0)
  }

  /** The counters count the list. */
  ghost predicate Tallied(run: DryRun)
  {
    run.summary == Summary(|run.lines|, CountOf(run.lines, ShowsCommit), CountOf(run.lines, ShowsDrift),
                           CountOf(run.lines, ShowsNoop))
  }

  ghost predicate LinesTell(p: Project, s: State, changes: seq<Change>, allowSecret: bool, lines: seq<Line>)
  {
    |lines| == |changes| &&
    forall i | 0 <= i < |changes| :: lines[i] == Line(changes[i].ref, PreviewOf(p, s, changes[i], allowSecret))
  }

  /** The error of some stopped change; or, when there is none, a longer list with its counters. */
  ghost predicate Answers(p: Project, s: State, changes: seq<Change>, dry: bool, sofar: DryRun, run: Result<DryRun>)
  {
    if run.Err? then SomeStops(p, s, changes, dry, run.error)
    else
      && NoneStops(p, s, changes, dry)
      && sofar.lines <= run.value.lines && LinesTell(p, s, changes, dry, run.value.lines[|sofar.lines|..])
      && (Tallied(sofar) ==> Tallied(run.value))
  }

  ghost predicate SomeStops(p: Project, s: State, changes: seq<Change>, dry: bool, e: Error)
  {
    exists change :: change in changes && PreviewOf(p, s, change, dry) == Stopped(e)
  }

  ghost predicate NoneStops(p: Project, s: State, changes: seq<Change>, dry: bool)
  {
    forall change | change in changes :: !PreviewOf(p, s, change, dry).Stopped?
  }

  lemma TallyCounts(sofar: DryRun, ref: Ref, preview: Preview)
    ensures Tallied(sofar) && !preview.Stopped? ==> Tallied(Tally(sofar, ref, preview))
  {
    assert Tally(sofar, ref, preview).lines[..|sofar.lines|] == sofar.lines;
  }

  lemma ListedMore(p: Project, s: State, changes: seq<Change>, dry: bool, lines: seq<Line>, n: nat)
    requires changes != [] && n < |lines| && lines[n] == Line(changes[0].ref, PreviewOf(p, s, changes[0], dry))
    requires LinesTell(p, s, changes[1..], dry, lines[n + 1..])
    ensures LinesTell(p, s, changes, dry, lines[n..])
  {
    hide PreviewOf;
    forall i | 0 <= i < |changes|
      ensures lines[n..][i] == Line(changes[i].ref, PreviewOf(p, s, changes[i], dry))
    {
      if i > 0 {
        assert lines[n..][i] == lines[n + 1..][i - 1] && changes[i] == changes[1..][i - 1];
      }
    }
  }

  /** The plan of this change, at some clock reading. */
  ghost predicate Planned(p: Project, s: State, change: Change, wet: bool, plan: Decision)
  {
    exists now :: plan == PlanOf(p, s, change, wet, now)
  }

  ghost predicate AllPlanned(p: Project, s: State, changes: seq<Change>, wet: bool, plans: seq<Decision>)
    requires |plans| == |changes|
  {
    forall i | 0 <= i < |changes| :: Planned(p, s, changes[i], wet, plans[i])
  }

  lemma RestPlanned(p: Project, s: State, changes: seq<Change>, wet: bool, plans: seq<Decision>)
    requires |plans| == |changes| && changes != [] && AllPlanned(p, s, changes, wet, plans)
    ensures Planned(p, s, changes[0], wet, plans[0]) && AllPlanned(p, s, changes[1..], wet, plans[1..])
  {
    hide Planned;
    forall i | 0 <= i < |changes[1..]| ensures Planned(p, s, changes[1..][i], wet, plans[1..][i]) {
      assert Planned(p, s, changes[i + 1], wet, plans[i + 1]);
    }
  }

  lemma AnswersFurther(p: Project, s: State, changes: seq<Change>, dry: bool, sofar: DryRun, run: Result<DryRun>)
    requires changes != [] && !PreviewOf(p, s, changes[0], dry).Stopped?
    requires Answers(p, s, changes[1..], dry, Tally(sofar, changes[0].ref, PreviewOf(p, s, changes[0], dry)), run)
    ensures Answers(p, s, changes, dry, sofar, run)
  {
    hide PreviewOf, CountOf, LinesTell, Tallied;
    var first, preview := changes[0], PreviewOf(p, s, changes[0], dry);
    var next := Tally(sofar, first.ref, preview);
    if run.Ok? {
      TallyCounts(sofar, first.ref, preview);
      assert next.lines[|sofar.lines|] == run.value.lines[|sofar.lines|];
      ListedMore(p, s, changes, dry, run.value.lines, |sofar.lines|);
      assert forall change | change in changes :: change == first || change in changes[1..];
    } else {
      var change :| change in changes[1..] && PreviewOf(p, s, change, dry) == Stopped(run.error);
      assert change in changes;
    }
  }

  lemma {:induction false} PreviewLists(p: Project, s: State, changes: seq<Change>, dry: bool, sofar: DryRun)
    ensures Answers(p, s, changes, dry, sofar, PreviewAll(p, s, changes, dry, sofar))
    decreases changes
  {
    if changes != [] {
      hide Tally, PreviewOf, LinesTell, Tallied;
      if PreviewOf(p, s, changes[0], dry).Stopped? {
        assert changes[0] in changes;
      } else {
        hide Answers;
        var next := Tally(sofar, changes[0].ref, PreviewOf(p, s, changes[0], dry));
        PreviewLists(p, s, changes[1..], dry, next);
        AnswersFurther(p, s, changes, dry, sofar, PreviewAll(p, s, changes, dry, sofar));
      }
    }
  }

  /** Counters of a dry run against the plans of a commit, whatever the two flags. */
  lemma {:induction false} PreviewCounts(p: Project, s: State, changes: seq<Change>, dry: bool, wet: bool,
                                         plans: seq<Decision>, sofar: DryRun)
    requires |plans| == |changes| && AllPlanned(p, s, changes, wet, plans)
    requires PreviewAll(p, s, changes, dry, sofar).Ok? && !SomeRaises(p, s, changes, dry, wet)
    ensures var was, sum := sofar.summary, PreviewAll(p, s, changes, dry, sofar).value.summary;
            && sum.total - sum.wouldCommit - sum.noop == was.total - was.wouldCommit - was.noop + |Blockers(changes, plans)|
            && sum.wouldCommit == was.wouldCommit + ReadyPlans(plans)
            && sum.total == was.total + |changes|
    decreases changes
  {
    hide PlanOf, PreviewOf, Raises, SecretStops, AllPlanned;
    if changes != [] {
      RestPlanned(p, s, changes, wet, plans);
      var now :| plans[0] == PlanOf(p, s, changes[0], wet, now);
      PreviewIsPlan(p, s, changes[0], dry, wet, now);
      RaisesIsPlan(p, s, changes[0], dry, wet, now);
      assert changes[0] in changes && !Raises(p, s, changes[0], dry, wet);
      assert forall change | change in changes[1..] :: change in changes;
      var preview := PreviewOf(p, s, changes[0], dry);
      PreviewCounts(p, s, changes[1..], dry, wet, plans[1..], Tally(sofar, changes[0].ref, preview));
    }
  }

  /** The commit raises exactly on a repeated record or a change that raises. */
  lemma {:induction false} FirstErrorIff(p: Project, s: State, changes: seq<Change>, dry: bool, wet: bool,
                                         plans: seq<Decision>, seen: set<Ref>)
    requires |plans| == |changes| && AllPlanned(p, s, changes, wet, plans)
    ensures FirstError(changes, plans, seen).Some? <==>
              !OneChangeEach(changes) || (exists change :: change in changes && change.ref in seen) ||
              SomeRaises(p, s, changes, dry, wet)
    decreases changes
  {
    hide PlanOf, Raises, AllPlanned;
    if changes != [] {
      RestPlanned(p, s, changes, wet, plans);
      var now :| plans[0] == PlanOf(p, s, changes[0], wet, now);
      RaisesIsPlan(p, s, changes[0], dry, wet, now);
      FirstErrorIff(p, s, changes[1..], dry, wet, plans[1..], seen + {changes[0].ref});
      assert forall change :: change in changes <==> change == changes[0] || change in changes[1..];
      RepeatsIff(changes);
    }
  }

  lemma RepeatsIff(changes: seq<Change>)
    requires changes != []
    ensures OneChangeEach(changes) <==>
              OneChangeEach(changes[1..]) && forall change | change in changes[1..] :: change.ref != changes[0].ref
  {
    if OneChangeEach(changes) {
      forall i, j | 0 <= i < j < |changes[1..]| ensures changes[1..][i].ref != changes[1..][j].ref {
        assert changes[i + 1].ref != changes[j + 1].ref;
      }
    }
    if OneChangeEach(changes[1..]) && forall change | change in changes[1..] :: change.ref != changes[0].ref {
      forall i, j | 0 <= i < j < |changes| ensures changes[i].ref != changes[j].ref {
        assert changes[j] == changes[1..][j - 1];
        assert i > 0 ==> changes[i] == changes[1..][i - 1];
      }
    }
  }

  /** What a dry run says, and when the commit does otherwise. For any batch and any two secret
      flags: the commit is aborted exactly when the batch is empty, names a record twice, or holds a
      change that raises. If it is not aborted and the dry run gave an answer, it is blocked exactly
      when the dry run shows a record that is neither a noop nor to be committed, by exactly that
      many records, and it plans exactly as many writes as the dry run shows. */
  lemma {:induction false} PreviewPredicts(p: Project, s: State, changes: seq<Change>, dry: bool, wet: bool,
                                           clock: nat -> Time, signals: seq<Signal>)
    requires |signals| == |changes|
    ensures var (end, report) := CommitMany(p, s, changes, wet, clock, signals);
            && (report.Aborted? <==> changes == [] || !OneChangeEach(changes) || SomeRaises(p, s, changes, dry, wet))
            && (report.Aborted? || report.Blocked? ==> end == s)
            && Answers(p, s, changes, dry, NOTHING_YET, PreviewAll(p, s, changes, dry, NOTHING_YET))
            && (PreviewAll(p, s, changes, dry, NOTHING_YET).Ok? && !report.Aborted? ==>
                  var shown := PreviewAll(p, s, changes, dry, NOTHING_YET).value.summary;
                  && (report.Blocked? <==> shown.total > shown.wouldCommit + shown.noop)
                  && (report.Blocked? ==> |report.failed| == shown.total - shown.wouldCommit - shown.noop)
                  && shown.wouldCommit == ReadyPlans(PlansOf(p, s, changes, wet, clock)))
  {
    hide PlanOf, PreviewOf, PreviewAll, FirstError, Blockers, Blocks, ReadyPlans, RunPlans, SomeRaises;
    hide OneChangeEach, Answers;
    var plans := PlansOf(p, s, changes, wet, clock);
    forall i | 0 <= i < |changes| ensures Planned(p, s, changes[i], wet, plans[i]) {
      assert plans[i] == PlanOf(p, s, changes[i], wet, clock(i));
    }
    FirstErrorIff(p, s, changes, dry, wet, plans, {});
    PreviewLists(p, s, changes, dry, NOTHING_YET);
    RunPlansAccounts(p, s, changes, plans, signals);
    if PreviewAll(p, s, changes, dry, NOTHING_YET).Ok? && !SomeRaises(p, s, changes, dry, wet) {
      PreviewCounts(p, s, changes, dry, wet, plans, NOTHING_YET);
    }
  }

  /** The dry run of the actions layer never allows secrets. When it gives an answer, the commit is
      aborted exactly for an empty batch or a repeated record. When it raises, the commit goes past
      preflight exactly when secrets are allowed, no record repeats, and secret refusals are all
      that stops any change. */
  lemma {:induction false} DryRunMisleadsIff(p: Project, s: State, changes: seq<Change>, wet: bool,
          clock: nat -> Time, signals: seq<Signal>)
    requires |signals| == |changes|
    ensures var report := CommitMany(p, s, changes, wet, clock, signals).1;
            if PreviewAll(p, s, changes, false, NOTHING_YET).Ok?
            then report.Aborted? <==> changes == [] || !OneChangeEach(changes)
            else
              !report.Aborted? <==>
                wet && OneChangeEach(changes) &&
                forall change | change in changes && PreviewOf(p, s, change, false).Stopped? ::
                  PreviewOf(p, s, change, false) == Stopped(SecretBlocked)
  {
    hide CommitMany, PreviewAll, OneChangeEach, LinesTell;
    PreviewPredicts(p, s, changes, false, wet, clock, signals);
    PreviewLists(p, s, changes, false, NOTHING_YET);
    forall change | change in changes
      ensures Raises(p, s, change, false, wet) <==>
                PreviewOf(p, s, change, false).Stopped? &&
                !(wet && PreviewOf(p, s, change, false) == Stopped(SecretBlocked))
    {
      RaisesWithoutFlag(p, s, change, wet);
    }
  }

  lemma RaisesWithoutFlag(p: Project, s: State, change: Change, wet: bool)
    ensures Raises(p, s, change, false, wet) <==>
              PreviewOf(p, s, change, false).Stopped? &&
              !(wet && PreviewOf(p, s, change, false) == Stopped(SecretBlocked))
  {
  }

  /** Concrete input: a batch that names one committable record twice. */
  lemma {:induction false} RepeatedRecordMisleads(p: Project, s: State, change: Change, clock: nat -> Time)
    requires PreviewOf(p, s, change, false).WouldCommit?
    ensures PreviewAll(p, s, [change, change], false, NOTHING_YET).Ok?
    ensures PreviewAll(p, s, [change, change], false, NOTHING_YET).value.summary == Summary(2, 2, 0, 0)
    ensures CommitMany(p, s, [change, change], false, clock, [Proceed, Proceed]).1.Aborted?
  {
    hide PreviewOf, CommitMany;
    var twice := [change, change];
    assert twice[1..] == [change] && [change][1..] == [];
    var one := Tally(NOTHING_YET, change.ref, PreviewOf(p, s, change, false));
    assert PreviewAll(p, s, [change], false, one) ==
           PreviewAll(p, s, [], false, Tally(one, change.ref, PreviewOf(p, s, change, false)));
    assert twice[0].ref == twice[1].ref;
    PreviewPredicts(p, s, twice, false, false, clock, [Proceed, Proceed]);
  }

  /** Concrete input: one change refused only for its secrets, committed with secrets allowed. */
  lemma {:induction false} AllowedSecretMisleads(p: Project, s: State, change: Change, clock: nat -> Time)
    requires PreviewOf(p, s, change, false) == Stopped(SecretBlocked)
    ensures PreviewAll(p, s, [change], false, NOTHING_YET) == Err(SecretBlocked)
    ensures PlanOf(p, s, change, true, clock(0)).Ready?
    ensures !CommitMany(p, s, [change], true, clock, [Proceed]).1.Aborted?
  {
    hide CommitMany;
    PreviewIsPlan(p, s, change, false, true, clock(0));
    DryRunMisleadsIff(p, s, [change], true, clock, [Proceed]);
  }

  /** The changes a preview lists, for hashed parts with plain keys, lead from the live document to the new
      one: each shows the live value and the new one at its path, and replaying them all turns the hashed part
      of the live document into that of the new. */
  lemma PreviewReplays(p: Project, s: State, change: Change, allowSecret: bool)
    requires PreviewOf(p, s, change, allowSecret).WouldCommit?
    requires var c := p.coll(change.ref.collection);
             change.ref in s.live &&
             PlainKeys(Obj(Strip(c, s.live[change.ref]))) && PlainKeys(Obj(Strip(c, change.doc)))
    ensures var c, listed := p.coll(change.ref.collection), PreviewOf(p, s, change, allowSecret).changes;
            var before, after := Strip(c, s.live[change.ref]), Strip(c, change.doc);
            && ReplayDotted(before, listed).Ok? && Agree(Obj(ReplayDotted(before, listed).value), Obj(after))
            && forall e | e in listed :: exists path: Path ::
                 PlainPath(path) && e.path == Join(path) && Shows(before, after, Edit(path, e.op, e.before, e.after))
  {
    hide DiffValues, ReplayDotted, Agree, Strip, PlainKeys, Shows, HashDoc;
    var c, listed := p.coll(change.ref.collection), PreviewOf(p, s, change, allowSecret).changes;
    var before, after := Strip(c, s.live[change.ref]), Strip(c, change.doc);
    DiffReplays(before, after, listed);
    forall e | e in listed
      ensures exists path: Path ::
                PlainPath(path) && e.path == Join(path) && Shows(before, after, Edit(path, e.op, e.before, e.after))
    {
      PrintedShows(before, after, e);
    }
  }
}
