/** Rolling many records back: to an instant, or to a tag. */
module Restores {
  import opened Documents
  import opened Hashing
  import opened Runtime
  import opened Store
  import opened Plans
  import opened Operations
  import opened Protocol

  /** The history row a record goes back to. */
  datatype Target = Target(ref: Ref, doc: Doc, oid: Oid)

  datatype Verdict = Unreadable | Blocking | AtTarget | Planned(seedMissing: bool)

  datatype Job = Job(target: Target, seedMissing: bool)

  /** What the outside world answers at one write: the clock, a fresh id, or a failure. */
  datatype Io = Io(now: Time, freshId: Value, fails: bool)

  datatype Report =
    | Failed(error: Error)
    | Blocked(blocked: seq<Ref>)
    | DryRun(already: seq<Ref>, would: seq<Ref>)
    | Partial(already: seq<Ref>, done: seq<Ref>, failed: seq<Ref>)
    | Restored(already: seq<Ref>, done: seq<Ref>)

  function Judge(p: Project, s: State, t: Target): Verdict
  {
    if t.ref !in s.live then Planned(true)
    else
      var liveOid := p.Hash(t.ref, s.live[t.ref]);
      var headOid := OidOf(GetHead(s, t.ref));
      if liveOid == None then Unreadable
      else if headOid.Some? && liveOid != headOid then Blocking
      else if headOid == Some(t.oid) then AtTarget
      else Planned(false)
  }

  /** The records of `targets` with this verdict, in order. */
  function Judged(p: Project, s: State, targets: seq<Target>, v: Verdict): seq<Ref>
  {
    if targets == [] then []
    else (if Judge(p, s, targets[0]) == v then [targets[0].ref] else []) + Judged(p, s, targets[1..], v)
  }

  function Jobs(p: Project, s: State, targets: seq<Target>): seq<Job>
  {
    if targets == [] then []
    else
      var v := Judge(p, s, targets[0]);
      (if v.Planned? then [Job(targets[0], v.seedMissing)] else []) + Jobs(p, s, targets[1..])
  }

  function RestoreOne(p: Project, s: State, job: Job, io: Io): (State, Outcome)
  {
    if io.fails then (s, Raised(Unavailable))
    else Operate(p, s, job.target.ref, WantRestore(job.target.doc, job.seedMissing), io.now, io.freshId)
  }

  /** The jobs one after the other; an error on one does not stop the next. */
  function RunJobs(p: Project, s: State, jobs: seq<Job>, io: seq<Io>): (State, seq<Ref>, seq<Ref>)
    requires |io| == |jobs|
    decreases jobs
  {
    if jobs == [] then (s, [], [])
    else
      var (next, out) := RestoreOne(p, s, jobs[0], io[0]);
      var (end, done, failed) := RunJobs(p, next, jobs[1..], io[1..]);
      if out.Raised? then (end, done, [jobs[0].target.ref] + failed)
      else (end, [jobs[0].target.ref] + done, failed)
  }

  function RestoreMany(p: Project, s: State, targets: seq<Target>, dryRun: bool, io: seq<Io>): (State, Report)
    requires |io| == |Jobs(p, s, targets)|
  {
    var already := Judged(p, s, targets, AtTarget);
    var jobs := Jobs(p, s, targets);
    if Judged(p, s, targets, Unreadable) != [] then (s, Failed(Unhashable))
    else if Judged(p, s, targets, Blocking) != [] then (s, Blocked(Judged(p, s, targets, Blocking)))
    else if dryRun then (s, DryRun(already, seq(|jobs|, i requires 0 <= i < |jobs| => jobs[i].target.ref)))
    else
      var (end, done, failed) := RunJobs(p, s, jobs, io);
      (end, if failed == [] then Restored(already, done) else Partial(already, done, failed))
  }

  // ----- targets -----

  ghost predicate OneEach(targets: seq<Target>)
  {
    forall i, j | 0 <= i < j < |targets| :: targets[i].ref != targets[j].ref
  }

  function TargetAt(s: State, key: Key): Target
    requires key in s.rows
  {
    Target(key.ref, s.rows[key].entry.doc, s.rows[key].entry.oid)
  }

  /** One target for every record the pick names a row of, in any order. */
  ghost predicate Targets(s: State, pick: Ref -> Option<nat>, targets: seq<Target>)
  {
    && OneEach(targets)
    && (forall i | 0 <= i < |targets| :: Picks(s, pick, targets[i]))
    && (forall ref | pick(ref).Some? :: exists i :: 0 <= i < |targets| && targets[i].ref == ref)
  }

  ghost predicate Picks(s: State, pick: Ref -> Option<nat>, t: Target)
  {
    pick(t.ref).Some? && Key(t.ref, pick(t.ref).value) in s.rows &&
    t == TargetAt(s, Key(t.ref, pick(t.ref).value))
  }

  ghost predicate AllWritable(p: Project, s: State, targets: seq<Target>)
  {
    forall t | t in targets :: Writable(p, s, t.ref, t.doc)
  }

  // ----- what a run does -----

  /** The stored document of the target is what its oid says, and can be written. */
  ghost predicate Restorable(p: Project, s: State, t: Target)
  {
    p.Hash(t.ref, t.doc) == Some(t.oid) && Writable(p, s, t.ref, t.doc)
  }

  ghost predicate Fresh(p: Project, s: State, job: Job)
  {
    Restorable(p, s, job.target) && Undrifted(p, s, job.target.ref) &&
    (job.seedMissing <==> job.target.ref !in s.live)
  }

  /** Rows of a chain are what their oids say. */
  lemma PickedAreRestorable(p: Project, s: State, pick: Ref -> Option<nat>, targets: seq<Target>)
    requires Chain(p, s) && Targets(s, pick, targets) && AllWritable(p, s, targets)
    ensures forall t | t in targets :: Restorable(p, s, t)
  {
    forall t | t in targets ensures Restorable(p, s, t) {
      var i :| 0 <= i < |targets| && targets[i] == t;
      assert Picks(s, pick, targets[i]);
      assert ChainAt(p, s, t.ref);
      assert Honest(p, t.ref, s.rows[Key(t.ref, pick(t.ref).value)].entry);
    }
  }

  lemma FreshIsLocal(p: Project, s: State, later: State, job: Job)
    requires Fresh(p, s, job) && SameRecord(s, later, job.target.ref)
    ensures Fresh(p, later, job)
  {
  }

  lemma RestoreOneLands(p: Project, s: State, job: Job, io: Io)
    requires Chain(p, s) && Fresh(p, s, job) && !io.fails
    ensures var (next, out) := RestoreOne(p, s, job, io);
            var t := job.target;
            && out == Written(HeadSeq(next, t.ref), t.oid)
            && At(p, next, t.ref, t.oid) && GainedRow(s, next, t.ref, t.oid)
  {
    hide HashDoc, Stored, Writable;
    var t := job.target;
    assert ChainAt(p, s, t.ref);
    HeadIsThere(p, s, t.ref);
    var live, head := Live(s, t.ref), GetHead(s, t.ref);
    var intent := WantRestore(t.doc, job.seedMissing);
    StoredKeepsHash(p.coll(t.ref.collection), t.doc);
    DecisionsAreSafe(p, t.ref, live, head, intent, io.now, io.freshId);
    ReplacementLands(p, s, DecideRestore(p, t.ref, live, head, t.doc, job.seedMissing, io.now, io.freshId).item, t.doc);
  }

  /** What happened to one target: it arrived with one more row, or it failed and is as it was. */
  ghost predicate Arrived(p: Project, s: State, end: State, t: Target)
  {
    At(p, end, t.ref, t.oid) && GainedRow(s, end, t.ref, t.oid)
  }

  ghost predicate OneJobEach(jobs: seq<Job>)
  {
    forall i, j | 0 <= i < j < |jobs| :: jobs[i].target.ref != jobs[j].target.ref
  }

  ghost predicate Settles(p: Project, s: State, end: State, job: Job, done: seq<Ref>, failed: seq<Ref>)
  {
    if job.target.ref in failed then SameRecord(s, end, job.target.ref)
    else job.target.ref in done && Arrived(p, s, end, job.target)
  }

  ghost predicate Untouched(s: State, end: State, ref: Ref, done: seq<Ref>, failed: seq<Ref>)
  {
    SameRecord(s, end, ref) && ref !in done && ref !in failed
  }

  ghost predicate NoJobFor(jobs: seq<Job>, ref: Ref)
  {
    forall job | job in jobs :: job.target.ref != ref
  }

  lemma FirstJob(p: Project, s: State, job: Job, io: Io)
    requires Chain(p, s) && Fresh(p, s, job)
    ensures var (next, out) := RestoreOne(p, s, job, io);
            && Chain(p, next) && HistoryKept(s, next) && OnlyTouches(s, next, job.target.ref)
            && (out.Raised? <==> io.fails)
            && (if io.fails then next == s else Arrived(p, s, next, job.target))
  {
    OperateKeeps(p, s, job.target.ref, WantRestore(job.target.doc, job.seedMissing), io.now, io.freshId);
    if !io.fails {
      RestoreOneLands(p, s, job, io);
    }
  }

  lemma {:induction false} RunJobsArrives(p: Project, s: State, jobs: seq<Job>, io: seq<Io>)
    requires |io| == |jobs| && Chain(p, s) && OneJobEach(jobs)
    requires forall job | job in jobs :: Fresh(p, s, job)
    ensures var (end, done, failed) := RunJobs(p, s, jobs, io);
            && Chain(p, end) && HistoryKept(s, end)
            && (forall job | job in jobs :: Settles(p, s, end, job, done, failed))
            && (forall ref | NoJobFor(jobs, ref) :: Untouched(s, end, ref, done, failed))
            && ((forall x | x in io :: !x.fails) ==> failed == [])
    decreases jobs
  {
    hide Restorable, Fresh, Arrived, RestoreOne, Chain;
    if jobs != [] {
      var job, rest := jobs[0], jobs[1..];
      var (next, out) := RestoreOne(p, s, job, io[0]);
      FirstJob(p, s, job, io[0]);
      forall other | other in rest ensures other.target.ref != job.target.ref && Fresh(p, next, other) {
        FreshIsLocal(p, s, next, other);
      }
      RunJobsArrives(p, next, rest, io[1..]);
      var (end, done, failed) := RunJobs(p, next, rest, io[1..]);
      HistoryKeptTransitive(s, next, end);
      assert NoJobFor(rest, job.target.ref);
      assert Untouched(next, end, job.target.ref, done, failed);
      var (_, done', failed') := RunJobs(p, s, jobs, io);
      if io[0].fails {
        SameRecordTransitive(s, next, end, job.target.ref);
      } else {
        ArrivedStays(p, s, next, end, job.target);
      }
      forall other | other in jobs ensures Settles(p, s, end, other, done', failed') {
        if other != job {
          assert other in rest;
          LaterSettles(p, s, next, end, other, done, failed);
        }
      }
      forall ref | NoJobFor(jobs, ref) ensures Untouched(s, end, ref, done', failed') {
        assert job in jobs && NoJobFor(rest, ref);
        SameRecordTransitive(s, next, end, ref);
      }
      assert io[0] in io && forall x | x in io[1..] :: x in io;
    }
  }

  lemma LaterSettles(p: Project, s: State, next: State, end: State, job: Job, done: seq<Ref>, failed: seq<Ref>)
    requires SameRecord(s, next, job.target.ref) && Settles(p, next, end, job, done, failed)
    ensures Settles(p, s, end, job, done, failed)
  {
    if job.target.ref in failed {
      SameRecordTransitive(s, next, end, job.target.ref);
    } else {
      SameThenArrived(p, s, next, end, job.target);
    }
  }

  lemma ArrivedStays(p: Project, s: State, next: State, end: State, t: Target)
    requires Arrived(p, s, next, t) && SameRecord(next, end, t.ref)
    ensures Arrived(p, s, end, t)
  {
  }

  lemma SameThenArrived(p: Project, s: State, next: State, end: State, t: Target)
    requires SameRecord(s, next, t.ref)
    ensures Arrived(p, next, end, t) ==> Arrived(p, s, end, t)
  {
  }

  lemma {:induction false} JobsAreThePlanned(p: Project, s: State, targets: seq<Target>)
    ensures forall job :: job in Jobs(p, s, targets) <==>
              job.target in targets && Judge(p, s, job.target) == Planned(job.seedMissing)
    ensures OneEach(targets) ==> OneJobEach(Jobs(p, s, targets))
    ensures |Jobs(p, s, targets)| <= |targets|
  {
    if targets != [] {
      JobsAreThePlanned(p, s, targets[1..]);
      assert forall t :: t in targets <==> t == targets[0] || t in targets[1..];
      if OneEach(targets) {
        assert forall t | t in targets[1..] :: t.ref != targets[0].ref;
      }
    }
  }

  lemma {:induction false} JudgedAre(p: Project, s: State, targets: seq<Target>, v: Verdict)
    ensures forall ref :: ref in Judged(p, s, targets, v) <==>
              exists t :: t in targets && t.ref == ref && Judge(p, s, t) == v
    ensures Judged(p, s, targets, v) == [] <==> forall t | t in targets :: Judge(p, s, t) != v
    ensures !v.Planned? && (forall t | t in targets :: Judge(p, s, t) == v) ==>
              |Judged(p, s, targets, v)| == |targets| && Jobs(p, s, targets) == []
  {
    if targets != [] {
      JudgedAre(p, s, targets[1..], v);
      assert forall t :: t in targets <==> t == targets[0] || t in targets[1..];
    }
  }

  /** A target that is not planned and stops nothing is there already. */
  lemma JudgedAlreadyIsAt(p: Project, s: State, t: Target)
    requires ChainAt(p, s, t.ref)
    ensures Judge(p, s, t) == AtTarget <==> At(p, s, t.ref, t.oid)
    ensures Judge(p, s, t).Planned? ==> Undrifted(p, s, t.ref) && (Judge(p, s, t).seedMissing <==> t.ref !in s.live)
  {
    HeadIsThere(p, s, t.ref);
  }

  /** Where a target is after a restore. */
  ghost predicate Restituted(p: Project, s: State, end: State, t: Target, failed: seq<Ref>)
  {
    if t.ref in failed then SameRecord(s, end, t.ref)
    else At(p, end, t.ref, t.oid) && (SameRecord(s, end, t.ref) || GainedRow(s, end, t.ref, t.oid))
  }

  lemma {:induction false} OneTargetSettled(p: Project, s: State, end: State, targets: seq<Target>, t: Target,
                                            done: seq<Ref>, failed: seq<Ref>)
    requires Chain(p, s) && OneEach(targets) && t in targets
    requires Judge(p, s, t) == AtTarget || Judge(p, s, t).Planned?
    requires forall job | job in Jobs(p, s, targets) :: Settles(p, s, end, job, done, failed)
    requires forall ref | NoJobFor(Jobs(p, s, targets), ref) :: Untouched(s, end, ref, done, failed)
    ensures Restituted(p, s, end, t, failed)
  {
    assert ChainAt(p, s, t.ref);
    JobsAreThePlanned(p, s, targets);
    JudgedAlreadyIsAt(p, s, t);
    if Judge(p, s, t).Planned? {
      assert Job(t, Judge(p, s, t).seedMissing) in Jobs(p, s, targets);
    } else {
      forall job | job in Jobs(p, s, targets) ensures job.target.ref != t.ref {
        assert job.target in targets && job.target != t;
      }
      assert NoJobFor(Jobs(p, s, targets), t.ref);
    }
  }

  /** A restore that is not stopped at preflight brings every target to its version, with at
      most one new row, or reports it failed and leaves it exactly as it was. */
  lemma {:induction false} RestoreManyArrives(p: Project, s: State, targets: seq<Target>, io: seq<Io>)
    requires Chain(p, s) && OneEach(targets) && |io| == |Jobs(p, s, targets)|
    requires forall t | t in targets && Judge(p, s, t).Planned? :: Restorable(p, s, t)
    ensures var (end, report) := RestoreMany(p, s, targets, false, io);
            && Chain(p, end) && HistoryKept(s, end)
            && (report.Failed? || report.Blocked? ==> end == s)
            && !report.DryRun?
            && ((forall x | x in io :: !x.fails) ==> !report.Partial?)
            && (report.Restored? || report.Partial? ==>
                  var failed := if report.Partial? then report.failed else [];
                  && (forall t | t in targets :: Restituted(p, s, end, t, failed))
                  && (forall ref | (forall t | t in targets :: t.ref != ref) :: SameRecord(s, end, ref)))
  {
    hide HashDoc, Writable, RunJobs, Jobs, Judged, Judge, Restituted, GainedRow, Undrifted;
    var jobs := Jobs(p, s, targets);
    var (end, report) := RestoreMany(p, s, targets, false, io);
    HistoryKeptReflexive(s);
    if report.Restored? || report.Partial? {
      JobsAreThePlanned(p, s, targets);
      forall job | job in jobs ensures Fresh(p, s, job) {
        assert ChainAt(p, s, job.target.ref);
        JudgedAlreadyIsAt(p, s, job.target);
      }
      RunJobsArrives(p, s, jobs, io);
      var (_, done, failed) := RunJobs(p, s, jobs, io);
      JudgedAre(p, s, targets, Unreadable);
      JudgedAre(p, s, targets, Blocking);
      forall t | t in targets ensures Restituted(p, s, end, t, failed) {
        assert Judge(p, s, t) == Unreadable ==> t.ref in Judged(p, s, targets, Unreadable);
        assert Judge(p, s, t) == Blocking ==> t.ref in Judged(p, s, targets, Blocking);
        OneTargetSettled(p, s, end, targets, t, done, failed);
      }
      forall ref | (forall t | t in targets :: t.ref != ref) ensures SameRecord(s, end, ref) {
        assert NoJobFor(jobs, ref);
        assert Untouched(s, end, ref, done, failed);
      }
    }
  }

  /** Exactly the records whose live document is not the one HEAD records stop a restore, and
      then nothing is written. */
  lemma {:induction false} RestoreBlocksOnDrift(p: Project, s: State, targets: seq<Target>, dryRun: bool, io: seq<Io>)
    requires Chain(p, s) && |io| == |Jobs(p, s, targets)|
    ensures var (end, report) := RestoreMany(p, s, targets, dryRun, io);
            && (report.Failed? || report.Blocked? <==> exists t :: t in targets && !Undrifted(p, s, t.ref))
            && (report.Failed? || report.Blocked? || dryRun ==> end == s)
  {
    hide HashDoc;
    JudgedAre(p, s, targets, Unreadable);
    JudgedAre(p, s, targets, Blocking);
    forall t | t in targets
      ensures !Undrifted(p, s, t.ref) <==> Judge(p, s, t) in {Unreadable, Blocking}
    {
      assert ChainAt(p, s, t.ref);
      HeadIsThere(p, s, t.ref);
    }
    if t :| t in targets && !Undrifted(p, s, t.ref) {
      assert t.ref in Judged(p, s, targets, Judge(p, s, t));
    }
  }

  /** A blocked restore lists exactly the drifted records. */
  lemma {:induction false} BlockedAreDrifted(p: Project, s: State, targets: seq<Target>, dryRun: bool, io: seq<Io>)
    requires Chain(p, s) && |io| == |Jobs(p, s, targets)|
    requires RestoreMany(p, s, targets, dryRun, io).1.Blocked?
    ensures forall ref :: ref in RestoreMany(p, s, targets, dryRun, io).1.blocked <==>
              Drifted(p, s, ref) && exists t :: t in targets && t.ref == ref
  {
    hide HashDoc;
    JudgedAre(p, s, targets, Blocking);
    forall t | t in targets ensures Judge(p, s, t) == Blocking <==> Drifted(p, s, t.ref) {
      assert ChainAt(p, s, t.ref);
      HeadIsThere(p, s, t.ref);
    }
  }

  lemma {:induction false} AllDone(p: Project, s: State, jobs: seq<Job>, io: seq<Io>)
    requires |io| == |jobs|
    ensures var (_, done, failed) := RunJobs(p, s, jobs, io);
            failed == [] ==> done == seq(|jobs|, i requires 0 <= i < |jobs| => jobs[i].target.ref)
    decreases jobs
  {
    hide RestoreOne;
    if jobs != [] {
      AllDone(p, RestoreOne(p, s, jobs[0], io[0]).0, jobs[1..], io[1..]);
      assert seq(|jobs|, i requires 0 <= i < |jobs| => jobs[i].target.ref) ==
             [jobs[0].target.ref] + seq(|jobs| - 1, i requires 0 <= i < |jobs| - 1 => jobs[1..][i].target.ref);
    }
  }

  lemma GainedIsChange(s: State, end: State, ref: Ref, oid: Oid)
    ensures !(GainedRow(s, end, ref, oid) && SameRecord(s, end, ref))
  {
  }

  /** Whether a target is listed as to be restored, or as already there, and what happens to it. */
  lemma {:induction false} OneListed(p: Project, s: State, targets: seq<Target>, io: seq<Io>, t: Target)
    requires Chain(p, s) && OneEach(targets) && |io| == |Jobs(p, s, targets)| && t in targets
    requires forall t | t in targets && Judge(p, s, t).Planned? :: Restorable(p, s, t)
    requires forall x | x in io :: !x.fails
    requires RestoreMany(p, s, targets, true, io).1.DryRun?
    ensures var dry, end := RestoreMany(p, s, targets, true, io).1, RestoreMany(p, s, targets, false, io).0;
            && (t.ref in dry.would <==> GainedRow(s, end, t.ref, t.oid))
            && (t.ref in dry.already <==> SameRecord(s, end, t.ref))
  {
    hide HashDoc, Writable, RunJobs, GainedRow, SameRecord, Jobs, Judged, Restorable, HistoryKept;
    var jobs, dry := Jobs(p, s, targets), RestoreMany(p, s, targets, true, io).1;
    var end := RestoreMany(p, s, targets, false, io).0;
    JobsAreThePlanned(p, s, targets);
    forall job | job in jobs ensures Fresh(p, s, job) {
      assert ChainAt(p, s, job.target.ref);
      JudgedAlreadyIsAt(p, s, job.target);
    }
    RunJobsArrives(p, s, jobs, io);
    assert RunJobs(p, s, jobs, io).0 == end;
    JudgedAre(p, s, targets, Unreadable);
    JudgedAre(p, s, targets, Blocking);
    JudgedAre(p, s, targets, AtTarget);
    OnlyItsTarget(targets, t);
    GainedIsChange(s, end, t.ref, t.oid);
    if Judge(p, s, t).Planned? {
      var job := Job(t, Judge(p, s, t).seedMissing);
      var i :| 0 <= i < |jobs| && jobs[i] == job;
      assert dry.would[i] == t.ref;
    } else {
      assert Judge(p, s, t) == AtTarget;
      forall job | job in jobs ensures job.target.ref != t.ref {
        assert job.target in targets && job.target != t;
      }
      assert NoJobFor(jobs, t.ref);
    }
  }

  lemma OnlyItsTarget(targets: seq<Target>, t: Target)
    requires OneEach(targets) && t in targets
    ensures forall u | u in targets && u.ref == t.ref :: u == t
  {
  }

  /** A dry run tells what a real run would do: it stops for the same reason, writes nothing, and lists
      as to be restored exactly the records that a real run gives a new row, and as already there exactly
      those it leaves alone, in the order of a real report. */
  lemma {:induction false} DryRunTells(p: Project, s: State, targets: seq<Target>, io: seq<Io>)
    requires Chain(p, s) && OneEach(targets) && |io| == |Jobs(p, s, targets)|
    requires forall t | t in targets && Judge(p, s, t).Planned? :: Restorable(p, s, t)
    requires forall x | x in io :: !x.fails
    ensures var (after, dry) := RestoreMany(p, s, targets, true, io);
            var (end, actual) := RestoreMany(p, s, targets, false, io);
            && after == s
            && (if dry.DryRun? then actual == Restored(dry.already, dry.would) else actual == dry)
            && (dry.DryRun? ==> forall t | t in targets ::
                  && (t.ref in dry.would <==> GainedRow(s, end, t.ref, t.oid))
                  && (t.ref in dry.already <==> SameRecord(s, end, t.ref)))
  {
    hide RunJobs, Jobs, Judged, Restorable, GainedRow, SameRecord, Fresh, Undrifted;
    RestoreManyArrives(p, s, targets, io);
    var (_, dry) := RestoreMany(p, s, targets, true, io);
    var (end, actual) := RestoreMany(p, s, targets, false, io);
    AllDone(p, s, Jobs(p, s, targets), io);
    if dry.DryRun? {
      forall t | t in targets
        ensures t.ref in dry.would <==> GainedRow(s, end, t.ref, t.oid)
        ensures t.ref in dry.already <==> SameRecord(s, end, t.ref)
      {
        OneListed(p, s, targets, io, t);
      }
    }
  }

  // ----- running the same restore again -----

  /** Every target of the second run names a record and a version the first run aimed at. */
  ghost predicate SameAims(targets: seq<Target>, again: seq<Target>)
  {
    forall t | t in again :: Aimed(targets, t)
  }

  ghost predicate Aimed(targets: seq<Target>, again: Target)
  {
    exists t :: t in targets && t.ref == again.ref && t.oid == again.oid
  }

  /** A second run only has work on records the first run reports as failed. */
  lemma {:induction false} RerunTouchesOnlyFailed(p: Project, s: State, targets: seq<Target>, io: seq<Io>,
          again: seq<Target>)
    requires Chain(p, s) && OneEach(targets) && |io| == |Jobs(p, s, targets)|
    requires forall t | t in targets :: Restorable(p, s, t)
    requires RestoreMany(p, s, targets, false, io).1.Restored? || RestoreMany(p, s, targets, false, io).1.Partial?
    requires SameAims(targets, again)
    ensures var (end, report) := RestoreMany(p, s, targets, false, io);
            forall job | job in Jobs(p, end, again) :: report.Partial? && job.target.ref in report.failed
  {
    RestoreManyArrives(p, s, targets, io);
    var (end, report) := RestoreMany(p, s, targets, false, io);
    JobsAreThePlanned(p, end, again);
    forall job | job in Jobs(p, end, again) ensures report.Partial? && job.target.ref in report.failed {
      assert Aimed(targets, job.target);
      var t :| t in targets && t.ref == job.target.ref && t.oid == job.target.oid;
      assert ChainAt(p, end, t.ref);
      JudgedAlreadyIsAt(p, end, job.target);
    }
  }

  /** After a complete restore the same restore again writes nothing and finds every target
      already there. */
  lemma {:induction false} RerunChangesNothing(p: Project, s: State, targets: seq<Target>, io: seq<Io>,
          again: seq<Target>)
    requires Chain(p, s) && OneEach(targets) && |io| == |Jobs(p, s, targets)|
    requires forall t | t in targets :: Restorable(p, s, t)
    requires RestoreMany(p, s, targets, false, io).1.Restored?
    requires SameAims(targets, again)
    ensures var end := RestoreMany(p, s, targets, false, io).0;
            Jobs(p, end, again) == [] &&
            RestoreMany(p, end, again, false, []) == (end, Restored(Judged(p, end, again, AtTarget), [])) &&
            |Judged(p, end, again, AtTarget)| == |again|
  {
    RestoreManyArrives(p, s, targets, io);
    var end := RestoreMany(p, s, targets, false, io).0;
    forall t2 | t2 in again ensures Judge(p, end, t2) == AtTarget {
      assert Aimed(targets, t2);
      var t :| t in targets && t.ref == t2.ref && t.oid == t2.oid;
      assert ChainAt(p, end, t2.ref);
      assert Restituted(p, s, end, t, []);
      JudgedAlreadyIsAt(p, end, t2);
    }
    JudgedAre(p, end, again, AtTarget);
    JudgedAre(p, end, again, Unreadable);
    JudgedAre(p, end, again, Blocking);
  }

  // ----- restore to an instant -----

  function AsOfPick(s: State, when: Time): Ref -> Option<nat>
  {
    ref => AsOf(s, ref, when)
  }

  lemma {:induction false} LastStartedSame(s: State, end: State, ref: Ref, n: nat, when: Time)
    requires forall k: nat | 1 <= k <= n :: Key(ref, k) in s.rows && Key(ref, k) in end.rows &&
                                            s.rows[Key(ref, k)].entry == end.rows[Key(ref, k)].entry
    ensures LastStarted(s, ref, n, when) == LastStarted(end, ref, n, when)
  {
    if n > 0 {
      LastStartedSame(s, end, ref, n - 1, when);
    }
  }

  lemma NoVersionThen(p: Project, s: State, end: State, ref: Ref, when: Time)
    requires ChainAt(p, s, ref) && ChainAt(p, end, ref) && SameRecord(s, end, ref)
    ensures AsOf(end, ref, when) == AsOf(s, ref, when)
  {
    AsOfIsLastStarted(p, s, ref, when);
    AsOfIsLastStarted(p, end, ref, when);
    assert forall k: nat | 1 <= k <= HeadSeq(s, ref) :: Key(ref, k) in s.rows;
    LastStartedSame(s, end, ref, HeadSeq(s, ref), when);
  }

  lemma NewRowKeepsVersion(p: Project, s: State, end: State, t: Target, when: Time)
    requires ChainAt(p, s, t.ref) && ChainAt(p, end, t.ref) && GainedRow(s, end, t.ref, t.oid)
    requires Picks(s, AsOfPick(s, when), t)
    ensures AsOf(end, t.ref, when).Some?
    ensures Key(t.ref, AsOf(end, t.ref, when).value) in end.rows
    ensures end.rows[Key(t.ref, AsOf(end, t.ref, when).value)].entry.oid == t.oid
  {
    var n := HeadSeq(s, t.ref);
    AsOfIsLastStarted(p, s, t.ref, when);
    AsOfIsLastStarted(p, end, t.ref, when);
    LastStartedIs(s, t.ref, n, when);
    LastStartedSame(s, end, t.ref, n, when);
    assert LastStarted(s, t.ref, n, when) == AsOfPick(s, when)(t.ref);
  }

  /** Restoring a record to its version at an instant does not change which version that is,
      whether the new row starts before the instant or after it. */
  lemma AsOfIsStable(p: Project, s: State, end: State, t: Target, when: Time)
    requires ChainAt(p, s, t.ref) && ChainAt(p, end, t.ref)
    requires Picks(s, AsOfPick(s, when), t)
    requires SameRecord(s, end, t.ref) || GainedRow(s, end, t.ref, t.oid)
    ensures AsOf(end, t.ref, when).Some?
    ensures Key(t.ref, AsOf(end, t.ref, when).value) in end.rows
    ensures end.rows[Key(t.ref, AsOf(end, t.ref, when).value)].entry.oid == t.oid
  {
    if SameRecord(s, end, t.ref) {
      NoVersionThen(p, s, end, t.ref, when);
    } else {
      NewRowKeepsVersion(p, s, end, t, when);
    }
  }

  /** What a pick names stays the same version, and the same row where nothing happened. */
  ghost predicate Steady(s: State, end: State, pick: Ref -> Option<nat>, later: Ref -> Option<nat>)
  {
    forall ref :: SteadyAt(s, end, pick, later, ref)
  }

  ghost predicate SteadyAt(s: State, end: State, pick: Ref -> Option<nat>, later: Ref -> Option<nat>, ref: Ref)
  {
    && (pick(ref).Some? <==> later(ref).Some?)
    && (SameRecord(s, end, ref) ==> later(ref) == pick(ref))
    && (pick(ref).Some? ==>
          var key, last := Key(ref, pick(ref).value), Key(ref, later(ref).value);
          key in s.rows && last in end.rows && end.rows[last].entry.oid == s.rows[key].entry.oid)
  }

  lemma {:induction false} AsOfSteady(p: Project, s: State, targets: seq<Target>, io: seq<Io>, when: Time)
    requires Chain(p, s) && Targets(s, AsOfPick(s, when), targets) && |io| == |Jobs(p, s, targets)|
    requires AllWritable(p, s, targets)
    requires RestoreMany(p, s, targets, false, io).1.Restored? || RestoreMany(p, s, targets, false, io).1.Partial?
    ensures var end := RestoreMany(p, s, targets, false, io).0; Steady(s, end, AsOfPick(s, when), AsOfPick(end, when))
  {
    hide HashDoc, Stored, Writable, RestoreMany, Jobs, AsOf, GainedRow;
    PickedAreRestorable(p, s, AsOfPick(s, when), targets);
    RestoreManyArrives(p, s, targets, io);
    var (end, report) := RestoreMany(p, s, targets, false, io);
    var failed := if report.Partial? then report.failed else [];
    forall ref ensures SteadyAt(s, end, AsOfPick(s, when), AsOfPick(end, when), ref) {
      assert ChainAt(p, s, ref) && ChainAt(p, end, ref);
      if t :| t in targets && t.ref == ref {
        assert Picks(s, AsOfPick(s, when), t);
        assert Restituted(p, s, end, t, failed);
        AsOfIsStable(p, s, end, t, when);
      }
      if SameRecord(s, end, ref) {
        NoVersionThen(p, s, end, ref, when);
      }
    }
  }

  lemma SteadyAims(s: State, end: State, pick: Ref -> Option<nat>, targets: seq<Target>, later: Ref -> Option<nat>,
                   again: seq<Target>)
    requires Targets(s, pick, targets) && Targets(end, later, again) && Steady(s, end, pick, later)
    ensures SameAims(targets, again)
  {
    forall t2 | t2 in again ensures Aimed(targets, t2) {
      assert Picks(end, later, t2) && SteadyAt(s, end, pick, later, t2.ref);
      var i :| 0 <= i < |targets| && targets[i].ref == t2.ref;
      assert Picks(s, pick, targets[i]) && targets[i] in targets;
    }
  }

  lemma {:induction false} AsOfSameAims(p: Project, s: State, targets: seq<Target>, io: seq<Io>, when: Time,
                                        again: seq<Target>)
    requires Chain(p, s) && Targets(s, AsOfPick(s, when), targets) && |io| == |Jobs(p, s, targets)|
    requires AllWritable(p, s, targets)
    requires RestoreMany(p, s, targets, false, io).1.Restored? || RestoreMany(p, s, targets, false, io).1.Partial?
    requires var end := RestoreMany(p, s, targets, false, io).0; Targets(end, AsOfPick(end, when), again)
    ensures SameAims(targets, again)
  {
    AsOfSteady(p, s, targets, io, when);
    var end := RestoreMany(p, s, targets, false, io).0;
    SteadyAims(s, end, AsOfPick(s, when), targets, AsOfPick(end, when), again);
  }

  // ----- running a partial restore again -----

  /** A target of the second run is there already, or failed and can be restored as before. */
  lemma {:induction false} SecondRunIsReady(p: Project, s: State, pick: Ref -> Option<nat>, targets: seq<Target>,
                                            end: State, failed: seq<Ref>, later: Ref -> Option<nat>,
                                            again: seq<Target>, t2: Target)
    requires Chain(p, s) && Chain(p, end) && t2 in again
    requires Targets(s, pick, targets) && Targets(end, later, again) && Steady(s, end, pick, later)
    requires forall t | t in targets ::
               Restorable(p, s, t) && Restituted(p, s, end, t, failed) && (t.ref in failed ==> Undrifted(p, s, t.ref))
    ensures Judge(p, end, t2) == AtTarget || Judge(p, end, t2).Planned?
    ensures Judge(p, end, t2).Planned? ==> Restorable(p, end, t2)
  {
    hide HashDoc, CarrySafe, Settled, Restorable, GainedRow, Judge;
    assert Picks(end, later, t2) && SteadyAt(s, end, pick, later, t2.ref);
    var i :| 0 <= i < |targets| && targets[i].ref == t2.ref;
    var t := targets[i];
    assert Picks(s, pick, t) && t in targets && Restituted(p, s, end, t, failed);
    assert ChainAt(p, end, t2.ref);
    JudgedAlreadyIsAt(p, end, t2);
    if t.ref in failed {
      assert t2 == t;
      RestorableIsLocal(p, s, end, t);
      UndriftedIsJudged(p, end, t2);
    }
  }

  lemma RestorableIsLocal(p: Project, s: State, later: State, t: Target)
    requires Restorable(p, s, t) && SameRecord(s, later, t.ref)
    ensures Restorable(p, later, t)
  {
  }

  lemma UndriftedIsJudged(p: Project, s: State, t: Target)
    requires ChainAt(p, s, t.ref) && Undrifted(p, s, t.ref)
    ensures Judge(p, s, t) == AtTarget || Judge(p, s, t).Planned?
  {
    HeadIsThere(p, s, t.ref);
  }

  /** Whatever a restore failed on, running it again with no failure completes it: every record with
      a picked row ends live and recorded at that row's version, every other record untouched. */
  lemma {:induction false} SecondRunCompletes(p: Project, s: State, pick: Ref -> Option<nat>, targets: seq<Target>,
          io: seq<Io>, later: Ref -> Option<nat>, again: seq<Target>, more: seq<Io>, ref: Ref)
    requires Chain(p, s) && Targets(s, pick, targets) && AllWritable(p, s, targets) && |io| == |Jobs(p, s, targets)|
    requires RestoreMany(p, s, targets, false, io).1.Restored? || RestoreMany(p, s, targets, false, io).1.Partial?
    requires var end := RestoreMany(p, s, targets, false, io).0;
             Steady(s, end, pick, later) && Targets(end, later, again) && |more| == |Jobs(p, end, again)|
    requires forall x | x in more :: !x.fails
    ensures var end := RestoreMany(p, s, targets, false, io).0;
            var (last, report) := RestoreMany(p, end, again, false, more);
            report.Restored? &&
            match pick(ref)
            case Some(k) => Key(ref, k) in s.rows && At(p, last, ref, s.rows[Key(ref, k)].entry.oid)
            case None => SameRecord(s, last, ref)
  {
    hide HashDoc, Writable, Restorable, RestoreMany, Jobs, GainedRow, Judge, At;
    var (end, first) := RestoreMany(p, s, targets, false, io);
    var failed := if first.Partial? then first.failed else [];
    PickedAreRestorable(p, s, pick, targets);
    RestoreManyArrives(p, s, targets, io);
    RestoreBlocksOnDrift(p, s, targets, false, io);
    forall t | t in again
      ensures Judge(p, end, t) == AtTarget || Judge(p, end, t).Planned?
      ensures Judge(p, end, t).Planned? ==> Restorable(p, end, t)
    {
      SecondRunIsReady(p, s, pick, targets, end, failed, later, again, t);
    }
    SecondRunIsRestored(p, end, again, more);
    RestoreManyArrives(p, end, again, more);
    var last := RestoreMany(p, end, again, false, more).0;
    assert SteadyAt(s, end, pick, later, ref);
    PickSettles(p, end, last, later, again, ref);
    if pick(ref).None? {
      forall t | t in targets ensures t.ref != ref {
        assert Picks(s, pick, t);
      }
      SameRecordTransitive(s, end, last, ref);
    }
  }

  lemma {:induction false} SecondRunIsRestored(p: Project, s: State, targets: seq<Target>, io: seq<Io>)
    requires |io| == |Jobs(p, s, targets)| && forall x | x in io :: !x.fails
    requires Chain(p, s) && OneEach(targets)
    requires forall t | t in targets :: Judge(p, s, t) == AtTarget || Judge(p, s, t).Planned?
    requires forall t | t in targets && Judge(p, s, t).Planned? :: Restorable(p, s, t)
    ensures RestoreMany(p, s, targets, false, io).1.Restored?
  {
    hide Judge, Restorable;
    JudgedAre(p, s, targets, Unreadable);
    JudgedAre(p, s, targets, Blocking);
    RestoreManyArrives(p, s, targets, io);
  }

  lemma PickSettles(p: Project, s: State, end: State, pick: Ref -> Option<nat>, targets: seq<Target>, ref: Ref)
    requires Targets(s, pick, targets)
    requires forall t | t in targets :: Restituted(p, s, end, t, [])
    requires forall r | (forall t | t in targets :: t.ref != r) :: SameRecord(s, end, r)
    ensures match pick(ref)
            case Some(k) => Key(ref, k) in s.rows && At(p, end, ref, s.rows[Key(ref, k)].entry.oid)
            case None => SameRecord(s, end, ref)
  {
    if pick(ref).Some? {
      var i :| 0 <= i < |targets| && targets[i].ref == ref;
      assert Picks(s, pick, targets[i]);
      assert Restituted(p, s, end, targets[i], []);
    } else {
      forall t | t in targets ensures t.ref != ref {
        assert Picks(s, pick, t);
      }
    }
  }

  /** A complete restore leaves a record with a picked row live and recorded at that row's
      version, and any other record untouched. */
  lemma {:induction false} PickArrives(p: Project, s: State, pick: Ref -> Option<nat>, targets: seq<Target>,
                                       io: seq<Io>, ref: Ref)
    requires Chain(p, s) && Targets(s, pick, targets) && |io| == |Jobs(p, s, targets)|
    requires AllWritable(p, s, targets)
    requires RestoreMany(p, s, targets, false, io).1.Restored?
    ensures var end := RestoreMany(p, s, targets, false, io).0;
            match pick(ref)
            case Some(k) => Key(ref, k) in s.rows && At(p, end, ref, s.rows[Key(ref, k)].entry.oid)
            case None => SameRecord(s, end, ref)
  {
    PickedAreRestorable(p, s, pick, targets);
    RestoreManyArrives(p, s, targets, io);
    PickSettles(p, s, RestoreMany(p, s, targets, false, io).0, pick, targets, ref);
  }

  /** A complete restore to an instant leaves every record that had a version then live and
      recorded at that version, and every other record untouched. */
  lemma {:induction false} RestoreAsOfArrives(p: Project, s: State, when: Time, targets: seq<Target>, io: seq<Io>,
          ref: Ref)
    requires Chain(p, s) && Targets(s, AsOfPick(s, when), targets) && |io| == |Jobs(p, s, targets)|
    requires AllWritable(p, s, targets)
    requires RestoreMany(p, s, targets, false, io).1.Restored?
    ensures var end := RestoreMany(p, s, targets, false, io).0;
            match AsOf(s, ref, when)
            case Some(k) => Key(ref, k) in s.rows && At(p, end, ref, s.rows[Key(ref, k)].entry.oid)
            case None => SameRecord(s, end, ref)
  {
    PickArrives(p, s, AsOfPick(s, when), targets, io, ref);
  }

  /** For an instant in the past or the future, and whatever the clock does meanwhile: after a
      complete restore, restoring to the same instant again appends nothing and reports every
      target as already there. */
  lemma {:induction false} RestoreAsOfConverges(p: Project, s: State, when: Time, targets: seq<Target>, io: seq<Io>,
          again: seq<Target>)
    requires Chain(p, s) && Targets(s, AsOfPick(s, when), targets) && |io| == |Jobs(p, s, targets)|
    requires AllWritable(p, s, targets)
    requires RestoreMany(p, s, targets, false, io).1.Restored?
    requires var end := RestoreMany(p, s, targets, false, io).0; Targets(end, AsOfPick(end, when), again)
    ensures var end := RestoreMany(p, s, targets, false, io).0;
            && Jobs(p, end, again) == []
            && RestoreMany(p, end, again, false, []) == (end, Restored(Judged(p, end, again, AtTarget), []))
            && |Judged(p, end, again, AtTarget)| == |again|
  {
    AsOfSameAims(p, s, targets, io, when, again);
    PickedAreRestorable(p, s, AsOfPick(s, when), targets);
    RerunChangesNothing(p, s, targets, io, again);
  }

  /** After a partial restore to an instant, restoring to it again only works on records
      reported as failed. */
  lemma {:induction false} RestoreAsOfResumes(p: Project, s: State, when: Time, targets: seq<Target>, io: seq<Io>,
          again: seq<Target>)
    requires Chain(p, s) && Targets(s, AsOfPick(s, when), targets) && |io| == |Jobs(p, s, targets)|
    requires AllWritable(p, s, targets)
    requires RestoreMany(p, s, targets, false, io).1.Partial?
    requires var end := RestoreMany(p, s, targets, false, io).0; Targets(end, AsOfPick(end, when), again)
    ensures var (end, report) := RestoreMany(p, s, targets, false, io);
            forall job | job in Jobs(p, end, again) :: job.target.ref in report.failed
  {
    AsOfSameAims(p, s, targets, io, when, again);
    PickedAreRestorable(p, s, AsOfPick(s, when), targets);
    RerunTouchesOnlyFailed(p, s, targets, io, again);
  }

  /** After a partial restore to an instant, restoring to it again with no failure brings every
      record that had a version then back to it. */
  lemma {:induction false} RestoreAsOfCompletes(p: Project, s: State, when: Time, targets: seq<Target>, io: seq<Io>,
          again: seq<Target>, more: seq<Io>, ref: Ref)
    requires Chain(p, s) && Targets(s, AsOfPick(s, when), targets) && |io| == |Jobs(p, s, targets)|
    requires AllWritable(p, s, targets)
    requires RestoreMany(p, s, targets, false, io).1.Partial?
    requires var end := RestoreMany(p, s, targets, false, io).0;
             Targets(end, AsOfPick(end, when), again) && |more| == |Jobs(p, end, again)|
    requires forall x | x in more :: !x.fails
    ensures var (last, report) := RestoreMany(p, RestoreMany(p, s, targets, false, io).0, again, false, more);
            report.Restored? &&
            match AsOf(s, ref, when)
            case Some(k) => Key(ref, k) in s.rows && At(p, last, ref, s.rows[Key(ref, k)].entry.oid)
            case None => SameRecord(s, last, ref)
  {
    hide RestoreMany, Jobs, AllWritable, Chain, At, SameRecord, Steady, Targets, AsOf;
    AsOfSteady(p, s, targets, io, when);
    var end := RestoreMany(p, s, targets, false, io).0;
    SecondRunCompletes(p, s, AsOfPick(s, when), targets, io, AsOfPick(end, when), again, more, ref);
  }

  // ----- restore to a tag -----

  function Tagged(s: State, ref: Ref, tag: string): set<nat>
  {
    set key | key in s.rows && key.ref == ref && tag in s.rows[key].tags :: key.seqNo
  }

  /** The latest row of a record that carries the tag. */
  function TagPick(s: State, tag: string): Ref -> Option<nat>
  {
    ref => Greatest(Tagged(s, ref, tag))
  }

  /** Tagging the HEAD row of every record. */
  function TagHeads(s: State, tag: string): State
  {
    s.(rows := map key | key in s.rows ::
         if key.ref in s.heads && s.heads[key.ref].seqNo == key.seqNo
         then s.rows[key].(tags := s.rows[key].tags + {tag}) else s.rows[key])
  }

  lemma TagHeadsKeeps(p: Project, s: State, tag: string)
    requires Chain(p, s)
    ensures Chain(p, TagHeads(s, tag)) && HistoryKept(s, TagHeads(s, tag))
  {
    var later := TagHeads(s, tag);
    forall ref ensures ChainAt(p, later, ref) {
      assert ChainAt(p, s, ref);
      var n := HeadSeq(s, ref);
      assert forall k: nat | 1 <= k <= n :: Key(ref, k) in s.rows;
      forall k: nat | 1 <= k < n ensures Linked(later.rows[Key(ref, k)], later.rows[Key(ref, k + 1)]) {
        assert Linked(s.rows[Key(ref, k)], s.rows[Key(ref, k + 1)]);
      }
    }
  }

  /** No row carries the tag that did not carry it before. */
  ghost predicate NoNewTag(s: State, later: State, tag: string)
  {
    forall key | key in later.rows && tag in later.rows[key].tags :: key in s.rows && tag in s.rows[key].tags
  }

  lemma ApplyAddsNoTag(p: Project, s: State, it: Item, tag: string)
    requires Apply(p, s, it).Ok?
    ensures NoNewTag(s, Apply(p, s, it).value, tag)
  {
  }

  lemma {:induction false} ApplyManyAddsNoTag(p: Project, s: State, items: seq<Item>, tag: string)
    requires ApplyMany(p, s, items).Ok?
    ensures NoNewTag(s, ApplyMany(p, s, items).value, tag)
    decreases items
  {
    if items != [] {
      ApplyAddsNoTag(p, s, items[0], tag);
      ApplyManyAddsNoTag(p, Apply(p, s, items[0]).value, items[1..], tag);
    }
  }

  lemma {:induction false} RunAddsNoTag(p: Project, sys: System, steps: seq<Step>, tag: string)
    requires forall step | step in steps :: step.Label? ==> step.tag != tag
    ensures NoNewTag(sys.store, Run(p, sys, steps).store, tag)
    decreases steps
  {
    if steps != [] {
      var step := steps[0];
      match step {
        case ApplyOne(c, index) =>
          if index < |Pending(sys, c)| && Apply(p, sys.store, Pending(sys, c)[index]).Ok? {
            ApplyAddsNoTag(p, sys.store, Pending(sys, c)[index], tag);
          }
        case ApplyAll(c, _) =>
          if ApplyMany(p, sys.store, Pending(sys, c)).Ok? {
            ApplyManyAddsNoTag(p, sys.store, Pending(sys, c), tag);
          }
        case _ =>
      }
      assert NoNewTag(sys.store, Next(p, sys, step).store, tag);
      RunAddsNoTag(p, Next(p, sys, step), steps[1..], tag);
    }
  }

  /** After the last use of a tag, whatever happens, it picks the row that was HEAD then. */
  lemma TagPicksThatHead(p: Project, s: State, tag: string, later: State, ref: Ref)
    requires Chain(p, s) && ref in s.heads
    requires HistoryKept(TagHeads(s, tag), later) && NoNewTag(TagHeads(s, tag), later, tag)
    ensures TagPick(later, tag)(ref) == Some(HeadSeq(s, ref))
    ensures Key(ref, HeadSeq(s, ref)) in later.rows && later.rows[Key(ref, HeadSeq(s, ref))].entry.oid == s.heads[ref].oid
  {
    assert ChainAt(p, s, ref);
    var n := HeadSeq(s, ref);
    assert Key(ref, n) in s.rows;
    assert Key(ref, n) in TagHeads(s, tag).rows && tag in TagHeads(s, tag).rows[Key(ref, n)].tags;
    assert n in Tagged(later, ref, tag);
    forall k | k in Tagged(later, ref, tag) ensures k <= n {
      assert Key(ref, k) in later.rows && tag in later.rows[Key(ref, k)].tags;
      assert Key(ref, k) in s.rows;
    }
  }

  /** Tag round trip. Tag every HEAD; then let any callers commit, adopt, import, restore or
      merge in any interleaving with outside writes, without using the tag again; then restore
      the tag with nobody else writing. If that restore completes, every record that had a HEAD
      at the tag is live and recorded at that HEAD's version. */
  lemma {:induction false} TagRoundTrip(p: Project, sys: System, tag: string, steps: seq<Step>, targets: seq<Target>,
                                        io: seq<Io>, ref: Ref)
    requires Inv(p, sys) && ref in sys.store.heads
    requires forall step | step in steps :: step.Label? ==> step.tag != tag
    requires var later := Run(p, sys.(store := TagHeads(sys.store, tag)), steps).store;
             && Targets(later, TagPick(later, tag), targets)
             && |io| == |Jobs(p, later, targets)|
             && AllWritable(p, later, targets)
             && RestoreMany(p, later, targets, false, io).1.Restored?
    ensures var later := Run(p, sys.(store := TagHeads(sys.store, tag)), steps).store;
            At(p, RestoreMany(p, later, targets, false, io).0, ref, sys.store.heads[ref].oid)
  {
    var tagged := sys.(store := TagHeads(sys.store, tag));
    var later := Run(p, tagged, steps).store;
    TagHeadsKeeps(p, sys.store, tag);
    RunKeepsInv(p, tagged, steps);
    RunAddsNoTag(p, tagged, steps, tag);
    TagPicksThatHead(p, sys.store, tag, later, ref);
    PickArrives(p, later, TagPick(later, tag), targets, io, ref);
  }

  // ----- running a tag restore again -----

  lemma OperateAddsNoTag(p: Project, s: State, ref: Ref, intent: Intent, now: Time, freshId: Value, tag: string)
    ensures NoNewTag(s, Operate(p, s, ref, intent, now, freshId).0, tag)
  {
    hide Decide, Apply;
    var decision := Decide(p, ref, Live(s, ref), GetHead(s, ref), intent, now, freshId);
    if decision.Ready? && Apply(p, s, decision.item).Ok? {
      ApplyAddsNoTag(p, s, decision.item, tag);
    }
  }

  lemma {:induction false} RunJobsAddsNoTag(p: Project, s: State, jobs: seq<Job>, io: seq<Io>, tag: string)
    requires |io| == |jobs|
    ensures NoNewTag(s, RunJobs(p, s, jobs, io).0, tag)
    decreases jobs
  {
    hide Operate;
    if jobs != [] {
      var (next, _) := RestoreOne(p, s, jobs[0], io[0]);
      var t := jobs[0].target;
      OperateAddsNoTag(p, s, t.ref, WantRestore(t.doc, jobs[0].seedMissing), io[0].now, io[0].freshId, tag);
      RunJobsAddsNoTag(p, next, jobs[1..], io[1..], tag);
    }
  }

  /** A restore gives no row a tag, so a tag picks the same rows afterwards. */
  lemma {:induction false} TagSteady(p: Project, s: State, targets: seq<Target>, io: seq<Io>, tag: string)
    requires Chain(p, s) && OneEach(targets) && |io| == |Jobs(p, s, targets)|
    requires forall t | t in targets :: Restorable(p, s, t)
    ensures var end := RestoreMany(p, s, targets, false, io).0; Steady(s, end, TagPick(s, tag), TagPick(end, tag))
  {
    hide HashDoc, Restorable, Jobs, Judged;
    RestoreManyArrives(p, s, targets, io);
    RunJobsAddsNoTag(p, s, Jobs(p, s, targets), io, tag);
    var end := RestoreMany(p, s, targets, false, io).0;
    forall ref ensures SteadyAt(s, end, TagPick(s, tag), TagPick(end, tag), ref) {
      TaggedSame(s, end, ref, tag);
    }
  }

  lemma TaggedSame(s: State, end: State, ref: Ref, tag: string)
    requires HistoryKept(s, end) && NoNewTag(s, end, tag)
    ensures SteadyAt(s, end, TagPick(s, tag), TagPick(end, tag), ref)
  {
    forall k: nat ensures k in Tagged(s, ref, tag) <==> k in Tagged(end, ref, tag) {
      if k in Tagged(s, ref, tag) {
        assert Key(ref, k) in s.rows && tag in s.rows[Key(ref, k)].tags;
        assert Key(ref, k) in end.rows;
      }
      if k in Tagged(end, ref, tag) {
        assert Key(ref, k) in end.rows && tag in end.rows[Key(ref, k)].tags;
        assert Key(ref, k) in s.rows;
      }
    }
    assert Tagged(s, ref, tag) == Tagged(end, ref, tag);
    if TagPick(s, tag)(ref).Some? {
      assert TagPick(s, tag)(ref).value in Tagged(s, ref, tag);
      assert Key(ref, TagPick(s, tag)(ref).value) in s.rows;
    }
  }

  /** After a complete tag restore, the same restore again appends nothing and finds every target
      already there. */
  lemma {:induction false} RestoreTagConverges(p: Project, s: State, tag: string, targets: seq<Target>, io: seq<Io>,
          again: seq<Target>)
    requires Chain(p, s) && Targets(s, TagPick(s, tag), targets) && |io| == |Jobs(p, s, targets)|
    requires AllWritable(p, s, targets)
    requires RestoreMany(p, s, targets, false, io).1.Restored?
    requires var end := RestoreMany(p, s, targets, false, io).0; Targets(end, TagPick(end, tag), again)
    ensures var end := RestoreMany(p, s, targets, false, io).0;
            && Jobs(p, end, again) == []
            && RestoreMany(p, end, again, false, []) == (end, Restored(Judged(p, end, again, AtTarget), []))
            && |Judged(p, end, again, AtTarget)| == |again|
  {
    PickedAreRestorable(p, s, TagPick(s, tag), targets);
    TagSteady(p, s, targets, io, tag);
    var end := RestoreMany(p, s, targets, false, io).0;
    SteadyAims(s, end, TagPick(s, tag), targets, TagPick(end, tag), again);
    RerunChangesNothing(p, s, targets, io, again);
  }

  /** After a partial tag restore, the same restore again with no failure completes it. */
  lemma {:induction false} RestoreTagCompletes(p: Project, s: State, tag: string, targets: seq<Target>, io: seq<Io>,
          again: seq<Target>, more: seq<Io>, ref: Ref)
    requires Chain(p, s) && Targets(s, TagPick(s, tag), targets) && |io| == |Jobs(p, s, targets)|
    requires AllWritable(p, s, targets)
    requires RestoreMany(p, s, targets, false, io).1.Partial?
    requires var end := RestoreMany(p, s, targets, false, io).0;
             Targets(end, TagPick(end, tag), again) && |more| == |Jobs(p, end, again)|
    requires forall x | x in more :: !x.fails
    ensures var (last, report) := RestoreMany(p, RestoreMany(p, s, targets, false, io).0, again, false, more);
            report.Restored? &&
            match TagPick(s, tag)(ref)
            case Some(k) => Key(ref, k) in s.rows && At(p, last, ref, s.rows[Key(ref, k)].entry.oid)
            case None => SameRecord(s, last, ref)
  {
    hide RestoreMany, Jobs, At, SameRecord, Steady, Tagged;
    PickedAreRestorable(p, s, TagPick(s, tag), targets);
    TagSteady(p, s, targets, io, tag);
    var end := RestoreMany(p, s, targets, false, io).0;
    SecondRunCompletes(p, s, TagPick(s, tag), targets, io, TagPick(end, tag), again, more, ref);
  }
}
