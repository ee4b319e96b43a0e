/** A system restore while outside writers change live documents between its preflight and its
    writes, and between the read and the transaction of each write. */
module Interference {
  import opened Documents
  import opened Hashing
  import opened Store
  import opened Plans
  import opened Operations
  import opened Protocol
  import opened Restores

  /** One outside write: a new live document, or none. */
  datatype Edit = Edit(ref: Ref, doc: Option<Doc>)

  /** What happens before a job reads its record, and between that read and its transaction. */
  datatype Gap = Gap(before: seq<Edit>, during: seq<Edit>)

  function Edited(s: State, edits: seq<Edit>): State
    decreases edits
  {
    if edits == [] then s else Edited(Outside(s, edits[0].ref, edits[0].doc), edits[1..])
  }

  function AllEdits(gaps: seq<Gap>): seq<Edit>
  {
    if gaps == [] then [] else gaps[0].before + gaps[0].during + AllEdits(gaps[1..])
  }

  function RestoreOneAmid(p: Project, s: State, job: Job, io: Io, gap: Gap): (State, Outcome)
  {
    var seen, t := Edited(s, gap.before), job.target;
    var later := Edited(seen, gap.during);
    if io.fails then (later, Raised(Unavailable))
    else
      Perform(p, later, Decide(p, t.ref, Live(seen, t.ref), GetHead(seen, t.ref), WantRestore(t.doc, job.seedMissing),
                               io.now, io.freshId))
  }

  /** The outcomes of the jobs, one after the other; an error on one does not stop the next. */
  function RunJobsAmid(p: Project, s: State, jobs: seq<Job>, io: seq<Io>, gaps: seq<Gap>): (State, seq<Outcome>)
    requires |io| == |gaps| == |jobs|
    decreases jobs
  {
    if jobs == [] then (s, [])
    else
      var (next, out) := RestoreOneAmid(p, s, jobs[0], io[0], gaps[0]);
      var (end, outs) := RunJobsAmid(p, next, jobs[1..], io[1..], gaps[1..]);
      (end, [out] + outs)
  }

  /** The records of the jobs that raised, or of those that did not. */
  function RefsOf(jobs: seq<Job>, outs: seq<Outcome>, raised: bool): seq<Ref>
    requires |outs| == |jobs|
  {
    if jobs == [] then []
    else (if outs[0].Raised? == raised then [jobs[0].target.ref] else []) + RefsOf(jobs[1..], outs[1..], raised)
  }

  lemma {:induction false} OneOutcomeEach(p: Project, s: State, jobs: seq<Job>, io: seq<Io>, gaps: seq<Gap>)
    requires |io| == |gaps| == |jobs|
    ensures |RunJobsAmid(p, s, jobs, io, gaps).1| == |jobs|
    decreases jobs
  {
    if jobs != [] {
      OneOutcomeEach(p, RestoreOneAmid(p, s, jobs[0], io[0], gaps[0]).0, jobs[1..], io[1..], gaps[1..]);
    }
  }

  /** The restore, with the outcome of every job. */
  function RestoreManyAmid(p: Project, s: State, targets: seq<Target>, io: seq<Io>, gaps: seq<Gap>):
    (State, Report, seq<Outcome>)
    requires |io| == |gaps| == |Jobs(p, s, targets)|
  {
    var already, jobs := Judged(p, s, targets, AtTarget), Jobs(p, s, targets);
    if Judged(p, s, targets, Unreadable) != [] then (s, Failed(Unhashable), [])
    else if Judged(p, s, targets, Blocking) != [] then (s, Blocked(Judged(p, s, targets, Blocking)), [])
    else
      OneOutcomeEach(p, s, jobs, io, gaps);
      var (end, outs) := RunJobsAmid(p, s, jobs, io, gaps);
      var done, failed := RefsOf(jobs, outs, false), RefsOf(jobs, outs, true);
      (end, if failed == [] then Restored(already, done) else Partial(already, done, failed), outs)
  }

  // ----- with nobody writing, this is the restore -----

  lemma {:induction false} QuietRun(p: Project, s: State, jobs: seq<Job>, io: seq<Io>, gaps: seq<Gap>)
    requires |io| == |gaps| == |jobs| && forall gap | gap in gaps :: gap == Gap([], [])
    ensures |RunJobsAmid(p, s, jobs, io, gaps).1| == |jobs|
    ensures var (end, outs) := RunJobsAmid(p, s, jobs, io, gaps);
            RunJobs(p, s, jobs, io) == (end, RefsOf(jobs, outs, false), RefsOf(jobs, outs, true))
    decreases jobs
  {
    hide RestoreOne, RestoreOneAmid;
    if jobs != [] {
      assert gaps[0] in gaps && forall gap | gap in gaps[1..] :: gap in gaps;
      QuietOne(p, s, jobs[0], io[0]);
      var next := RestoreOne(p, s, jobs[0], io[0]).0;
      QuietRun(p, next, jobs[1..], io[1..], gaps[1..]);
      var (end, outs) := RunJobsAmid(p, next, jobs[1..], io[1..], gaps[1..]);
      var out := RestoreOne(p, s, jobs[0], io[0]).1;
      assert RunJobsAmid(p, s, jobs, io, gaps) == (end, [out] + outs);
      assert ([out] + outs)[1..] == outs && ([out] + outs)[0] == out;
      var (_, done, failed) := RunJobs(p, next, jobs[1..], io[1..]);
      assert [] + done == done && [] + failed == failed;
    }
  }

  lemma QuietOne(p: Project, s: State, job: Job, io: Io)
    ensures RestoreOneAmid(p, s, job, io, Gap([], [])) == RestoreOne(p, s, job, io)
  {
    hide Decide, Perform;
  }

  lemma {:induction false} QuietIsRestoreMany(p: Project, s: State, targets: seq<Target>, io: seq<Io>, gaps: seq<Gap>)
    requires |io| == |gaps| == |Jobs(p, s, targets)| && forall gap | gap in gaps :: gap == Gap([], [])
    ensures var (end, report, _) := RestoreManyAmid(p, s, targets, io, gaps);
            RestoreMany(p, s, targets, false, io) == (end, report)
  {
    hide RunJobs, RunJobsAmid, Jobs, Judged;
    QuietRun(p, s, Jobs(p, s, targets), io, gaps);
  }

  // ----- outside writes -----

  lemma {:induction false} EditedConcat(s: State, a: seq<Edit>, b: seq<Edit>)
    ensures Edited(s, a + b) == Edited(Edited(s, a), b)
    decreases a
  {
    if a == [] {
      assert a + b == b;
    } else {
      EditedConcat(Outside(s, a[0].ref, a[0].doc), a[1..], b);
      assert (a + b)[1..] == a[1..] + b;
    }
  }

  /** Outside writes change live documents only, each its own. */
  lemma {:induction false} EditedKeeps(p: Project, s: State, edits: seq<Edit>)
    requires Chain(p, s)
    ensures Chain(p, Edited(s, edits))
    ensures Edited(s, edits).rows == s.rows && Edited(s, edits).heads == s.heads
    ensures forall ref | Quiet(edits, ref) :: Live(Edited(s, edits), ref) == Live(s, ref)
    decreases edits
  {
    hide Chain;
    if edits != [] {
      OutsideKeepsChain(p, s, edits[0].ref, edits[0].doc);
      EditedKeeps(p, Outside(s, edits[0].ref, edits[0].doc), edits[1..]);
      assert edits[0] in edits;
    }
  }

  /** No outside write touches the record. */
  ghost predicate Quiet(edits: seq<Edit>, ref: Ref)
  {
    forall e | e in edits :: e.ref != ref
  }

  lemma {:induction false} EditedIsLocal(s: State, later: State, edits: seq<Edit>, ref: Ref)
    requires SameRecord(s, later, ref)
    ensures SameRecord(Edited(s, edits), Edited(later, edits), ref)
    decreases edits
  {
    if edits != [] {
      EditedIsLocal(Outside(s, edits[0].ref, edits[0].doc), Outside(later, edits[0].ref, edits[0].doc), edits[1..], ref);
    }
  }

  // ----- one job -----

  /** What an outcome says: the record gained the one row that brings it to its version, or all that
      happened to it are the outside writes. */
  ghost predicate Told(s: State, end: State, job: Job, out: Outcome, edits: seq<Edit>)
  {
    if out.Written?
    then out == Written(HeadSeq(end, job.target.ref), job.target.oid) && GainedRow(s, end, job.target.ref, job.target.oid)
    else SameRecord(Edited(s, edits), end, job.target.ref)
  }

  ghost predicate Aims(p: Project, t: Target)
  {
    p.Hash(t.ref, t.doc) == Some(t.oid)
  }

  lemma RestoreDecides(p: Project, t: Target, live: Option<Doc>, head: Option<HeadRow>, seedMissing: bool, io: Io)
    requires Aims(p, t)
    ensures var decision := Decide(p, t.ref, live, head, WantRestore(t.doc, seedMissing), io.now, io.freshId);
            && (decision.Raise? || decision.ChangedOutside? || decision.Ready?)
            && (decision.Ready? ==>
                  decision.item.ref == t.ref && decision.item.entry.oid == t.oid && Sound(p, decision.item))
  {
    hide HashDoc, Stored;
    StoredKeepsHash(p.coll(t.ref.collection), t.doc);
    var intent := WantRestore(t.doc, seedMissing);
    if Decide(p, t.ref, live, head, intent, io.now, io.freshId).Ready? {
      DecisionsAreSafe(p, t.ref, live, head, intent, io.now, io.freshId);
    }
  }

  lemma PerformTells(p: Project, later: State, t: Target, decision: Decision)
    requires Chain(p, later) && (decision.Raise? || decision.ChangedOutside? || decision.Ready?)
    requires decision.Ready? ==>
               decision.item.ref == t.ref && decision.item.entry.oid == t.oid && Sound(p, decision.item)
    ensures var (next, out) := Perform(p, later, decision);
            && Chain(p, next) && HistoryKept(later, next) && OnlyTouches(later, next, t.ref)
            && (if out.Written? then out == Written(HeadSeq(next, t.ref), t.oid) && GainedRow(later, next, t.ref, t.oid)
                else next == later)
            && (out.Raised? || out.Drift? || out.Written?)
  {
    hide HashDoc, Stored, Apply, GainedRow, Chain;
    if decision.Ready? && Apply(p, later, decision.item).Ok? {
      ApplyKeepsChain(p, later, decision.item);
      ApplyTouchesOne(p, later, decision.item);
      WriteGains(p, later, decision.item);
    }
  }

  lemma {:induction false} OneAmid(p: Project, s: State, job: Job, io: Io, gap: Gap)
    requires Chain(p, s) && Aims(p, job.target)
    ensures var (next, out) := RestoreOneAmid(p, s, job, io, gap);
            var later := Edited(s, gap.before + gap.during);
            && Chain(p, next) && HistoryKept(s, next) && OnlyTouches(later, next, job.target.ref)
            && Told(s, next, job, out, gap.before + gap.during)
            && (out.Raised? || (!io.fails && (out.Drift? || out.Written?)))
  {
    hide Decide, Perform, Chain, GainedRow;
    var t, seen, later := job.target, Edited(s, gap.before), Edited(s, gap.before + gap.during);
    EditedConcat(s, gap.before, gap.during);
    EditedKeeps(p, s, gap.before + gap.during);
    if !io.fails {
      var live, head := Live(seen, t.ref), GetHead(seen, t.ref);
      RestoreDecides(p, t, live, head, job.seedMissing, io);
      var decision := Decide(p, t.ref, live, head, WantRestore(t.doc, job.seedMissing), io.now, io.freshId);
      PerformTells(p, later, t, decision);
      var next := Perform(p, later, decision).0;
      if Perform(p, later, decision).1.Written? {
        SameHistoryGains(s, later, next, t);
      }
    }
  }

  lemma SameHistoryGains(s: State, later: State, end: State, t: Target)
    requires s.rows == later.rows && s.heads == later.heads && GainedRow(later, end, t.ref, t.oid)
    ensures GainedRow(s, end, t.ref, t.oid)
  {
  }

  // ----- all jobs -----

  /** A record that an outside write did not touch and that could be restored is restored. */
  lemma QuietLands(p: Project, s: State, job: Job, io: Io, gap: Gap)
    requires Chain(p, s) && Fresh(p, s, job) && !io.fails && Quiet(gap.before + gap.during, job.target.ref)
    ensures var (next, out) := RestoreOneAmid(p, s, job, io, gap);
            out.Written? && Arrived(p, s, next, job.target)
  {
    hide Decide, Perform, Fresh, Arrived, Chain;
    var ref, seen, later := job.target.ref, Edited(s, gap.before), Edited(s, gap.before + gap.during);
    EditedConcat(s, gap.before, gap.during);
    EditedKeeps(p, s, gap.before);
    EditedKeeps(p, s, gap.before + gap.during);
    forall e | e in gap.before ensures e.ref != ref {
      assert e in gap.before + gap.during;
    }
    assert SameRecord(s, later, ref) && Live(seen, ref) == Live(later, ref) && GetHead(seen, ref) == GetHead(later, ref);
    assert RestoreOneAmid(p, s, job, io, gap) == RestoreOne(p, later, job, io);
    FreshIsLocal(p, s, later, job);
    FirstJob(p, later, job, io);
    RestoreOneLands(p, later, job, io);
    SameThenArrived(p, s, later, RestoreOne(p, later, job, io).0, job.target);
  }

  /** Everything that is said about a job: what its outcome means, and that it raises when its write
      fails and lands when nobody else touches the record. */
  ghost predicate JobTold(p: Project, s: State, end: State, job: Job, fails: bool, out: Outcome, edits: seq<Edit>)
  {
    && Told(s, end, job, out, edits)
    && (out.Raised? || (!fails && (out.Drift? || out.Written?)))
    && (Fresh(p, s, job) && Quiet(edits, job.target.ref) && !fails ==>
          out.Written? && Arrived(p, s, end, job.target))
  }

  ghost predicate RunTold(p: Project, s: State, jobs: seq<Job>, io: seq<Io>, edits: seq<Edit>, end: State,
                          outs: seq<Outcome>)
    requires |io| == |jobs|
  {
    && |outs| == |jobs|
    && (forall i | 0 <= i < |jobs| :: JobTold(p, s, end, jobs[i], io[i].fails, outs[i], edits))
    && (forall ref | NoJobFor(jobs, ref) :: SameRecord(Edited(s, edits), end, ref))
  }

  lemma {:induction false} QuietIsSame(p: Project, s: State, edits: seq<Edit>, ref: Ref)
    requires Chain(p, s)
    ensures Quiet(edits, ref) ==> SameRecord(s, Edited(s, edits), ref)
  {
    EditedKeeps(p, s, edits);
  }

  /** Further outside writes to the record come on top of the ones before. */
  lemma {:induction false} SameThenEdited(s: State, next: State, end: State, edits: seq<Edit>, others: seq<Edit>, ref: Ref)
    requires SameRecord(Edited(s, edits), next, ref) && SameRecord(Edited(next, others), end, ref)
    ensures SameRecord(Edited(s, edits + others), end, ref)
  {
    EditedConcat(s, edits, others);
    EditedIsLocal(Edited(s, edits), next, others, ref);
    SameRecordTransitive(Edited(s, edits + others), Edited(next, others), end, ref);
  }

  lemma {:induction false} GainedFirst(p: Project, s: State, next: State, end: State, others: seq<Edit>, t: Target)
    requires Chain(p, next) && GainedRow(s, next, t.ref, t.oid) && SameRecord(Edited(next, others), end, t.ref)
    ensures GainedRow(s, end, t.ref, t.oid) && HeadSeq(end, t.ref) == HeadSeq(next, t.ref)
  {
    EditedKeeps(p, next, others);
    assert forall k: nat :: Key(t.ref, k) in next.rows <==> Key(t.ref, k) in end.rows;
  }

  lemma {:induction false} GainedLater(p: Project, s: State, next: State, end: State, edits: seq<Edit>, t: Target)
    requires Chain(p, s) && SameRecord(Edited(s, edits), next, t.ref) && GainedRow(next, end, t.ref, t.oid)
    ensures GainedRow(s, end, t.ref, t.oid)
  {
    EditedKeeps(p, s, edits);
    assert forall k: nat :: Key(t.ref, k) in s.rows <==> Key(t.ref, k) in next.rows;
  }

  /** What is told of the first job holds of it at the end. */
  lemma {:induction false} FirstTold(p: Project, s: State, next: State, end: State, job: Job, io: Io,
                                     gap: Gap, others: seq<Edit>)
    requires Chain(p, s) && Aims(p, job.target) && next == RestoreOneAmid(p, s, job, io, gap).0
    requires SameRecord(Edited(next, others), end, job.target.ref)
    ensures JobTold(p, s, end, job, io.fails, RestoreOneAmid(p, s, job, io, gap).1, gap.before + gap.during + others)
  {
    hide Chain, Fresh, Arrived, RestoreOneAmid, GainedRow, SameRecord, Edited;
    var out, ref, early := RestoreOneAmid(p, s, job, io, gap).1, job.target.ref, gap.before + gap.during;
    OneAmid(p, s, job, io, gap);
    if out.Written? {
      GainedFirst(p, s, next, end, others, job.target);
    } else {
      SameThenEdited(s, next, end, early, others, ref);
    }
    if Fresh(p, s, job) && Quiet(early + others, ref) && !io.fails {
      QuietParts(early, others, ref);
      QuietLands(p, s, job, io, gap);
      QuietIsSame(p, next, others, ref);
      SameRecordTransitive(next, Edited(next, others), end, ref);
      ArrivedStays(p, s, next, end, job.target);
    }
  }

  lemma QuietParts(edits: seq<Edit>, others: seq<Edit>, ref: Ref)
    ensures Quiet(edits + others, ref) <==> Quiet(edits, ref) && Quiet(others, ref)
  {
    assert forall e :: e in edits + others <==> e in edits || e in others;
  }

  /** What is told of a later job, from where the first one left the store, holds from the start. */
  lemma {:induction false} LaterTold(p: Project, s: State, next: State, end: State, job: Job, fails: bool, out: Outcome,
                  edits: seq<Edit>, others: seq<Edit>)
    requires Chain(p, s) && Chain(p, next) && SameRecord(Edited(s, edits), next, job.target.ref)
    requires JobTold(p, next, end, job, fails, out, others)
    ensures JobTold(p, s, end, job, fails, out, edits + others)
  {
    hide Chain, Fresh, Arrived, GainedRow, SameRecord, Edited;
    var ref := job.target.ref;
    if out.Written? {
      GainedLater(p, s, next, end, edits, job.target);
    } else {
      SameThenEdited(s, next, end, edits, others, ref);
    }
    if Fresh(p, s, job) && Quiet(edits + others, ref) && !fails {
      QuietParts(edits, others, ref);
      QuietIsSame(p, s, edits, ref);
      SameRecordTransitive(s, Edited(s, edits), next, ref);
      FreshIsLocal(p, s, next, job);
      SameThenArrived(p, s, next, end, job.target);
    }
  }

  lemma {:induction false} RestTold(p: Project, s: State, next: State, end: State, ref: Ref, rest: seq<Job>,
                                    io: seq<Io>, outs: seq<Outcome>, edits: seq<Edit>, others: seq<Edit>)
    requires |io| == |rest| && Chain(p, s) && Chain(p, next) && OnlyTouches(Edited(s, edits), next, ref)
    requires RunTold(p, next, rest, io, others, end, outs) && NoJobFor(rest, ref)
    ensures forall i | 0 <= i < |rest| :: JobTold(p, s, end, rest[i], io[i].fails, outs[i], edits + others)
    ensures forall other | other != ref && NoJobFor(rest, other) :: SameRecord(Edited(s, edits + others), end, other)
  {
    hide Chain, JobTold, SameRecord, Edited;
    forall i | 0 <= i < |rest| ensures JobTold(p, s, end, rest[i], io[i].fails, outs[i], edits + others) {
      assert rest[i] in rest;
      LaterTold(p, s, next, end, rest[i], io[i].fails, outs[i], edits, others);
    }
    forall other | other != ref && NoJobFor(rest, other) ensures SameRecord(Edited(s, edits + others), end, other) {
      SameThenEdited(s, next, end, edits, others, other);
    }
  }

  lemma {:induction false} RunAmid(p: Project, s: State, jobs: seq<Job>, io: seq<Io>, gaps: seq<Gap>)
    requires |io| == |gaps| == |jobs| && Chain(p, s) && OneJobEach(jobs)
    requires forall job | job in jobs :: Aims(p, job.target)
    ensures var (end, outs) := RunJobsAmid(p, s, jobs, io, gaps);
            Chain(p, end) && HistoryKept(s, end) && RunTold(p, s, jobs, io, AllEdits(gaps), end, outs)
    decreases jobs
  {
    hide Chain, JobTold, RestoreOneAmid, SameRecord, Edited, HistoryKept, OnlyTouches, Told, Aims;
    if jobs == [] {
      HistoryKeptReflexive(s);
      forall ref ensures SameRecord(Edited(s, []), s, ref) {
        NoEdits(s, ref);
      }
    } else {
      var job, rest, more := jobs[0], jobs[1..], gaps[1..];
      var edits, others := gaps[0].before + gaps[0].during, AllEdits(more);
      var next := RestoreOneAmid(p, s, job, io[0], gaps[0]).0;
      OneAmid(p, s, job, io[0], gaps[0]);
      assert forall other | other in rest :: other in jobs && other.target.ref != job.target.ref;
      RunAmid(p, next, rest, io[1..], more);
      var (end, outs) := RunJobsAmid(p, next, rest, io[1..], more);
      HistoryKeptTransitive(s, next, end);
      assert NoJobFor(rest, job.target.ref);
      FirstTold(p, s, next, end, job, io[0], gaps[0], others);
      RestTold(p, s, next, end, job.target.ref, rest, io[1..], outs, edits, others);
      forall ref | NoJobFor(jobs, ref) ensures ref != job.target.ref && NoJobFor(rest, ref) {
        assert job in jobs;
      }
    }
  }

  lemma {:induction false} NoEdits(s: State, ref: Ref)
    ensures SameRecord(Edited(s, []), s, ref)
  {
  }

  // ----- what the report guarantees -----

  lemma {:induction false} FailedFirst(jobs: seq<Job>, outs: seq<Outcome>)
    requires jobs != [] && |outs| == |jobs|
    ensures forall ref :: ref in RefsOf(jobs, outs, true) <==>
              (outs[0].Raised? && ref == jobs[0].target.ref) || ref in RefsOf(jobs[1..], outs[1..], true)
    ensures RefsOf(jobs, outs, true) == [] <==> !outs[0].Raised? && RefsOf(jobs[1..], outs[1..], true) == []
  {
    var front, rest := if outs[0].Raised? then [jobs[0].target.ref] else [], RefsOf(jobs[1..], outs[1..], true);
    assert RefsOf(jobs, outs, true) == front + rest;
  }

  lemma {:induction false} FailedAre(jobs: seq<Job>, outs: seq<Outcome>)
    requires |outs| == |jobs|
    ensures RefsOf(jobs, outs, true) == [] <==> forall i | 0 <= i < |jobs| :: !outs[i].Raised?
    ensures OneJobEach(jobs) ==>
              forall i | 0 <= i < |jobs| :: outs[i].Raised? <==> jobs[i].target.ref in RefsOf(jobs, outs, true)
    ensures forall ref | ref in RefsOf(jobs, outs, true) :: exists job :: job in jobs && job.target.ref == ref
  {
    if jobs != [] {
      FailedFirst(jobs, outs);
      FailedAre(jobs[1..], outs[1..]);
      hide RefsOf;
      assert forall job | job in jobs[1..] :: job in jobs;
      assert forall i | 0 < i < |jobs| :: jobs[1..][i - 1] == jobs[i] && outs[1..][i - 1] == outs[i];
      if OneJobEach(jobs) {
        assert forall job | job in jobs[1..] :: job.target.ref != jobs[0].target.ref;
      }
    }
  }

  lemma {:induction false} InPlaceStays(p: Project, s: State, targets: seq<Target>, io: seq<Io>, edits: seq<Edit>,
                                        end: State, outs: seq<Outcome>, t: Target)
    requires Chain(p, s) && OneEach(targets) && t in targets && Judge(p, s, t) == AtTarget
    requires |io| == |Jobs(p, s, targets)| && RunTold(p, s, Jobs(p, s, targets), io, edits, end, outs)
    ensures At(p, s, t.ref, t.oid) && SameRecord(Edited(s, edits), end, t.ref)
  {
    hide HashDoc, SameRecord, Edited, Told, Fresh, Arrived;
    assert ChainAt(p, s, t.ref);
    JudgedAlreadyIsAt(p, s, t);
    JobsAreThePlanned(p, s, targets);
    forall job | job in Jobs(p, s, targets) ensures job.target.ref != t.ref {
      assert job.target in targets && job.target != t;
    }
    assert NoJobFor(Jobs(p, s, targets), t.ref);
  }

  /** What a restore that was not stopped at preflight did, whatever was written outside meanwhile. A
      target already in place is only touched from outside. A planned one either gained exactly the
      one row that brings it to its version, or only outside writes happened to it and its outcome is an
      error, reported as failed, or a drift, which is not. */
  lemma {:induction false} RestoreTells(p: Project, s: State, targets: seq<Target>, io: seq<Io>, gaps: seq<Gap>)
    requires Chain(p, s) && OneEach(targets) && |io| == |gaps| == |Jobs(p, s, targets)|
    requires forall t | t in targets && Judge(p, s, t).Planned? :: Aims(p, t)
    ensures var jobs := Jobs(p, s, targets);
            var (end, report, outs) := RestoreManyAmid(p, s, targets, io, gaps);
            && Chain(p, end) && HistoryKept(s, end)
            && (report.Restored? || report.Partial? ==>
                  var failed := if report.Partial? then report.failed else [];
                  && RunTold(p, s, jobs, io, AllEdits(gaps), end, outs)
                  && (forall i | 0 <= i < |jobs| :: outs[i].Raised? <==> jobs[i].target.ref in failed)
                  && (forall t | t in targets && !Judge(p, s, t).Planned? ::
                        At(p, s, t.ref, t.oid) && SameRecord(Edited(s, AllEdits(gaps)), end, t.ref)))
  {
    hide HashDoc, RunJobsAmid, RunTold, SameRecord, Edited;
    var jobs := Jobs(p, s, targets);
    var (end, report, outs) := RestoreManyAmid(p, s, targets, io, gaps);
    HistoryKeptReflexive(s);
    if report.Restored? || report.Partial? {
      JobsAreThePlanned(p, s, targets);
      RunAmid(p, s, jobs, io, gaps);
      OneOutcomeEach(p, s, jobs, io, gaps);
      FailedAre(jobs, outs);
      JudgedAre(p, s, targets, Unreadable);
      JudgedAre(p, s, targets, Blocking);
      forall t | t in targets && !Judge(p, s, t).Planned?
        ensures At(p, s, t.ref, t.oid) && SameRecord(Edited(s, AllEdits(gaps)), end, t.ref)
      {
        InPlaceStays(p, s, targets, io, AllEdits(gaps), end, outs, t);
      }
    }
  }

  lemma {:induction false} OutsideGainsNothing(p: Project, s: State, end: State, edits: seq<Edit>, t: Target)
    requires Chain(p, s) && SameRecord(Edited(s, edits), end, t.ref)
    ensures !GainedRow(s, end, t.ref, t.oid)
  {
    EditedKeeps(p, s, edits);
  }

  lemma {:induction false} StaysAt(p: Project, s: State, edits: seq<Edit>, end: State, t: Target)
    requires Chain(p, s) && Quiet(edits, t.ref) && At(p, s, t.ref, t.oid) && SameRecord(Edited(s, edits), end, t.ref)
    ensures At(p, end, t.ref, t.oid)
  {
    QuietIsSame(p, s, edits, t.ref);
  }

  /** A target that nobody else touched arrives. */
  lemma {:induction false} QuietArrives(p: Project, s: State, targets: seq<Target>, io: seq<Io>, gaps: seq<Gap>,
                                        t: Target)
    requires Chain(p, s) && OneEach(targets) && |io| == |gaps| == |Jobs(p, s, targets)|
    requires forall t | t in targets && Judge(p, s, t).Planned? :: Aims(p, t)
    requires RestoreManyAmid(p, s, targets, io, gaps).1.Restored?
    requires t in targets && Quiet(AllEdits(gaps), t.ref) && (Judge(p, s, t).Planned? ==> Writable(p, s, t.ref, t.doc))
    ensures At(p, RestoreManyAmid(p, s, targets, io, gaps).0, t.ref, t.oid)
  {
    hide HashDoc, Edited, GainedRow, SameRecord, Jobs, RestoreManyAmid, Writable;
    var jobs := Jobs(p, s, targets);
    var (end, _, outs) := RestoreManyAmid(p, s, targets, io, gaps);
    RestoreTells(p, s, targets, io, gaps);
    JobsAreThePlanned(p, s, targets);
    assert ChainAt(p, s, t.ref);
    JudgedAlreadyIsAt(p, s, t);
    if Judge(p, s, t).Planned? {
      var job := Job(t, Judge(p, s, t).seedMissing);
      var i :| 0 <= i < |jobs| && jobs[i] == job;
      assert Fresh(p, s, jobs[i]);
    } else {
      StaysAt(p, s, AllEdits(gaps), end, t);
    }
  }

  /** A report of `restored` does not mean that every target is: each target that outside writers left
      alone is live and recorded at its version, and all targets are recorded at their versions exactly
      when no outcome in the results is a drift. */
  lemma {:induction false} RestoredMeans(p: Project, s: State, targets: seq<Target>, io: seq<Io>, gaps: seq<Gap>)
    requires Chain(p, s) && OneEach(targets) && |io| == |gaps| == |Jobs(p, s, targets)|
    requires forall t | t in targets && Judge(p, s, t).Planned? :: Aims(p, t)
    requires RestoreManyAmid(p, s, targets, io, gaps).1.Restored?
    ensures var (end, _, outs) := RestoreManyAmid(p, s, targets, io, gaps);
            && ((forall t | t in targets && Judge(p, s, t).Planned? :: GainedRow(s, end, t.ref, t.oid)) <==>
                forall out | out in outs :: !out.Drift?)
            && (forall t | t in targets && Quiet(AllEdits(gaps), t.ref) &&
                           (Judge(p, s, t).Planned? ==> Writable(p, s, t.ref, t.doc)) ::
                  At(p, end, t.ref, t.oid))
  {
    hide HashDoc, Edited, GainedRow, SameRecord, Jobs, RestoreManyAmid, Writable, Undrifted, Judge, Fresh;
    var jobs := Jobs(p, s, targets);
    var (end, _, outs) := RestoreManyAmid(p, s, targets, io, gaps);
    RestoreTells(p, s, targets, io, gaps);
    JobsAreThePlanned(p, s, targets);
    forall i | 0 <= i < |jobs|
      ensures jobs[i].target in targets && Judge(p, s, jobs[i].target).Planned?
      ensures GainedRow(s, end, jobs[i].target.ref, jobs[i].target.oid) <==> !outs[i].Drift?
    {
      assert jobs[i] in jobs && Told(s, end, jobs[i], outs[i], AllEdits(gaps));
      if outs[i].Drift? {
        OutsideGainsNothing(p, s, end, AllEdits(gaps), jobs[i].target);
      }
    }
    forall t | t in targets && Judge(p, s, t).Planned?
      ensures exists i :: 0 <= i < |jobs| && jobs[i].target == t
    {
      assert Job(t, Judge(p, s, t).seedMissing) in jobs;
    }
    forall t | t in targets && Quiet(AllEdits(gaps), t.ref) && (Judge(p, s, t).Planned? ==> Writable(p, s, t.ref, t.doc))
      ensures At(p, end, t.ref, t.oid)
    {
      QuietArrives(p, s, targets, io, gaps, t);
    }
  }

  /** Concrete input: one record with a HEAD, changed from outside just before its write. The report
      says `restored`, and the record has the outside document and no new row. */
  lemma DriftCountsAsRestored(p: Project, s: State, t: Target, io: Io, doc: Doc)
    requires Chain(p, s) && t.ref in s.live && t.ref in s.heads && !io.fails
    requires Judge(p, s, t) == Planned(false)
    requires p.Hash(t.ref, doc).Some? && p.Hash(t.ref, doc) != HeadOid(s, t.ref)
    ensures var (end, report, outs) := RestoreManyAmid(p, s, [t], [io], [Gap([Edit(t.ref, Some(doc))], [])]);
            && end == Outside(s, t.ref, Some(doc)) && report == Restored([], [t.ref])
            && outs == [Drift(p.Hash(t.ref, doc).value, HeadOid(s, t.ref).value)]
  {
    hide HashDoc;
    assert ChainAt(p, s, t.ref);
    HeadIsThere(p, s, t.ref);
    var job, gap, later := Job(t, false), Gap([Edit(t.ref, Some(doc))], []), Outside(s, t.ref, Some(doc));
    OneTarget(p, s, t);
    assert Edited(s, gap.before) == Edited(later, []) == later == Edited(later, gap.during);
    assert Live(later, t.ref) == Some(doc) && GetHead(later, t.ref) == GetHead(s, t.ref);
    var out := Drift(p.Hash(t.ref, doc).value, HeadOid(s, t.ref).value);
    assert RestoreOneAmid(p, s, job, io, gap) == (later, out);
    OneJob(p, s, job, io, gap);
    OneRef(job, out);
  }

  lemma OneRef(job: Job, out: Outcome)
    ensures RefsOf([job], [out], out.Raised?) == [job.target.ref] && RefsOf([job], [out], !out.Raised?) == []
  {
    assert [job][1..] == [] && [out][1..] == [];
    assert RefsOf([], [], true) == [] == RefsOf([], [], false);
  }

  lemma {:induction false} OneJob(p: Project, s: State, job: Job, io: Io, gap: Gap)
    ensures var (next, out) := RestoreOneAmid(p, s, job, io, gap);
            RunJobsAmid(p, s, [job], [io], [gap]) == (next, [out])
  {
    hide RestoreOneAmid;
    var (next, out) := RestoreOneAmid(p, s, job, io, gap);
    assert [job][1..] == [] && [io][1..] == [] && [gap][1..] == [] && [out] + [] == [out];
    assert RunJobsAmid(p, next, [], [], []) == (next, []);
  }

  lemma {:induction false} OneTarget(p: Project, s: State, t: Target)
    ensures var v := Judge(p, s, t);
            && (forall w :: Judged(p, s, [t], w) == if v == w then [t.ref] else [])
            && Jobs(p, s, [t]) == if v.Planned? then [Job(t, v.seedMissing)] else []
  {
    assert forall w :: Judged(p, s, [], w) == [];
  }
}
